/** `canonicalJson`: one text per JSON value, whatever the order of its keys. */
module CanonicalJson {
  import opened JsText
  import opened Sorting
  import opened JsonQuote
  import N = JsonNumber

  /** A JavaScript value. An object lists its own enumerable fields in
      `Object.keys` order; `Opaque` is a bigint, a symbol or a function. */
  datatype Value =
    | Undefined
    | Null
    | Bool(b: bool)
    | Num(x: N.Number)
    | Str(s: JsString)
    | Arr(items: seq<Value>)
    | Obj(fields: seq<Field>)
    | Opaque

  datatype Field = Field(key: JsString, val: Value)

  datatype Error = NonFiniteNumber | UnsupportedType

  datatype Result<+T> = Ok(value: T) | Err(error: Error) {
    predicate IsFailure() { Err? }
    function PropagateFailure<U>(): Result<U> requires Err? { Err(error) }
    function Extract(): T requires Ok? { value }
  }

  function KeyOf(f: Field): JsString { f.key }

  /** An object has each key once, and numbers are in shortest form. */
  ghost predicate WellFormed(v: Value) {
    match v
    case Num(x) => N.WellFormed(x)
    case Arr(items) => forall i :: 0 <= i < |items| ==> WellFormed(items[i])
    case Obj(fields) => DistinctKeys(KeyOf, fields) && forall i :: 0 <= i < |fields| ==> WellFormed(fields[i].val)
    case _ => true
  }

  const OPEN_ARRAY: Unit := 0x5B
  const CLOSE_ARRAY: Unit := 0x5D
  const OPEN_OBJECT: Unit := 0x7B
  const CLOSE_OBJECT: Unit := 0x7D
  const COMMA: Unit := 0x2C
  const COLON: Unit := 0x3A

  function Defined(fields: seq<Field>): (r: seq<Field>)
    ensures forall f <- r :: f in fields && !f.val.Undefined?
  {
    if fields == [] then []
    else (if fields[0].val.Undefined? then [] else [fields[0]]) + Defined(fields[1..])
  }

  function CanonicalText(v: Value): Result<JsString>
    requires WellFormed(v)
    decreases v, 2
  {
    match v
    case Undefined => Err(UnsupportedType)
    case Opaque => Err(UnsupportedType)
    case Null => Ok(Ascii("null"))
    case Bool(b) => Ok(if b then Ascii("true") else Ascii("false"))
    case Str(s) => Ok(Quote(s))
    case Num(x) => if x.NaN? || x.Infinity? then Err(NonFiniteNumber) else Ok(N.NumberText(x))
    case Arr(items) =>
      var texts :- ItemTexts(items);
      Ok([OPEN_ARRAY] + Join(texts, [COMMA]) + [CLOSE_ARRAY])
    case Obj(fields) =>
      SortHolds(KeyOf, fields);
      var texts :- FieldTexts(v, Defined(SortBy(KeyOf, fields)));
      Ok([OPEN_OBJECT] + Join(texts, [COMMA]) + [CLOSE_OBJECT])
  }

  function ItemTexts(items: seq<Value>): Result<seq<JsString>>
    requires forall i :: 0 <= i < |items| ==> WellFormed(items[i])
    decreases items, 1
  {
    if items == [] then Ok([])
    else
      var text :- if items[0].Undefined? then Ok(Ascii("null")) else CanonicalText(items[0]);
      var texts :- ItemTexts(items[1..]);
      Ok([text] + texts)
  }

  function FieldTexts(record: Value, entries: seq<Field>): Result<seq<JsString>>
    requires record.Obj? && WellFormed(record)
    requires forall f <- entries :: f in record.fields
    decreases record, 1, |entries|
  {
    if entries == [] then Ok([])
    else
      assert entries[0] in record.fields;
      var text :- CanonicalText(entries[0].val);
      var texts :- FieldTexts(record, entries[1..]);
      Ok([Quote(entries[0].key) + [COLON] + text] + texts)
  }

  // ---- What canonicalization ignores ----

  predicate Nullish(v: Value) { v.Undefined? || v.Null? }

  /** Equality of JSON values: key order is ignored, undefined fields are
      dropped, an undefined array item is null and -0 is 0. */
  ghost predicate Equivalent(v: Value, w: Value) {
    match (v, w)
    case (Num(x), Num(y)) => x == y || (x.Zero? && y.Zero?)
    case (Arr(a), Arr(b)) =>
      && |a| == |b|
      && forall i :: 0 <= i < |a| ==> (Nullish(a[i]) && Nullish(b[i])) || Equivalent(a[i], b[i])
    case (Obj(a), Obj(b)) => EquivalentObjects(a, b)
    case _ => v == w
  }

  ghost predicate EquivalentObjects(a: seq<Field>, b: seq<Field>) {
    && (forall i :: 0 <= i < |a| && !a[i].val.Undefined? ==> exists j :: 0 <= j < |b| && EquivalentFields(a[i], b[j]))
    && (forall j :: 0 <= j < |b| && !b[j].val.Undefined? ==> exists i :: 0 <= i < |a| && EquivalentFields(a[i], b[j]))
  }

  ghost predicate EquivalentFields(f: Field, g: Field) {
    !f.val.Undefined? && !g.val.Undefined? && f.key == g.key && Equivalent(f.val, g.val)
  }

  /** No bigint, symbol, function or non-finite number, and undefined only
      where it is dropped or read as null. */
  ghost predicate Printable(v: Value) {
    match v
    case Undefined => false
    case Opaque => false
    case Num(x) => x.Zero? || x.Finite?
    case Arr(items) => forall i :: 0 <= i < |items| ==> items[i].Undefined? || Printable(items[i])
    case Obj(fields) => forall i :: 0 <= i < |fields| ==> fields[i].val.Undefined? || Printable(fields[i].val)
    case _ => true
  }

  // ---- The normal form, and its printer ----

  datatype Norm =
    | NNull
    | NBool(b: bool)
    | NNum(x: N.Number)
    | NStr(s: JsString)
    | NArr(items: seq<Norm>)
    | NObj(fields: seq<NField>)

  datatype NField = NField(key: JsString, val: Norm)

  function NKey(f: NField): JsString { f.key }

  function Normalize(v: Value): Norm
    decreases v
  {
    match v
    case Bool(b) => NBool(b)
    case Num(x) => NNum(if x.Zero? then N.Zero(false) else x)
    case Str(s) => NStr(s)
    case Arr(items) => NArr(NormItems(items))
    case Obj(fields) => NObj(SortBy(NKey, NormFields(fields)))
    case _ => NNull
  }

  function NormItems(items: seq<Value>): (r: seq<Norm>)
    ensures |r| == |items| && forall i :: 0 <= i < |r| ==> r[i] == Normalize(items[i])
    decreases items
  {
    if items == [] then [] else [Normalize(items[0])] + NormItems(items[1..])
  }

  function NormFields(fields: seq<Field>): seq<NField>
    decreases fields
  {
    if fields == [] then []
    else if fields[0].val.Undefined? then NormFields(fields[1..])
    else [NField(fields[0].key, Normalize(fields[0].val))] + NormFields(fields[1..])
  }

  ghost predicate WellFormedNorm(n: Norm) {
    match n
    case NNum(x) => N.WellFormed(x) && (x.Finite? || x == N.Zero(false))
    case NArr(items) => forall i :: 0 <= i < |items| ==> WellFormedNorm(items[i])
    case NObj(fields) => forall i :: 0 <= i < |fields| ==> WellFormedNorm(fields[i].val)
    case _ => true
  }

  ghost function Print(n: Norm): JsString
    requires WellFormedNorm(n)
    decreases n
  {
    match n
    case NNull => Ascii("null")
    case NBool(b) => if b then Ascii("true") else Ascii("false")
    case NNum(x) => N.NumberText(x)
    case NStr(s) => Quote(s)
    case NArr(items) => [OPEN_ARRAY] + Join(PrintItems(items), [COMMA]) + [CLOSE_ARRAY]
    case NObj(fields) => [OPEN_OBJECT] + Join(PrintFields(fields), [COMMA]) + [CLOSE_OBJECT]
  }

  ghost function PrintItems(items: seq<Norm>): seq<JsString>
    requires forall i :: 0 <= i < |items| ==> WellFormedNorm(items[i])
    decreases items
  {
    if items == [] then [] else [Print(items[0])] + PrintItems(items[1..])
  }

  ghost function PrintField(f: NField): JsString
    requires WellFormedNorm(f.val)
    decreases f, 1
  {
    Quote(f.key) + [COLON] + Print(f.val)
  }

  ghost function PrintFields(fields: seq<NField>): seq<JsString>
    requires forall i :: 0 <= i < |fields| ==> WellFormedNorm(fields[i].val)
    decreases fields
  {
    if fields == [] then [] else [PrintField(fields[0])] + PrintFields(fields[1..])
  }
}
