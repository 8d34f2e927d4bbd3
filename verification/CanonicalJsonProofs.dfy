/** `canonicalJson` is unambiguous: two values have one text exactly when they
    are equal up to key order, undefined and the sign of zero. */
module CanonicalJsonProofs {
  import opened JsText
  import opened Sorting
  import opened JsonQuote
  import opened CanonicalJson
  import N = JsonNumber

  // ---- The text is the print of the normal form ----

  lemma {:induction false} NormFieldsHolds(fields: seq<Field>, g: NField)
    ensures g in NormFields(fields) <==>
            exists i :: 0 <= i < |fields| && !fields[i].val.Undefined? &&
                        g == NField(fields[i].key, Normalize(fields[i].val))
  {
    if fields != [] {
      NormFieldsHolds(fields[1..], g);
      var tail := fields[1..];
      if i :| 0 <= i < |fields| && !fields[i].val.Undefined? && g == NField(fields[i].key, Normalize(fields[i].val)) {
        assert i > 0 ==> fields[i] == tail[i - 1];
      }
      if i :| 0 <= i < |tail| && !tail[i].val.Undefined? && g == NField(tail[i].key, Normalize(tail[i].val)) {
        assert tail[i] == fields[i + 1];
      }
    }
  }

  lemma {:induction false} NormFieldsDistinct(fields: seq<Field>)
    requires DistinctKeys(KeyOf, fields)
    ensures DistinctKeys(NKey, NormFields(fields))
  {
    if fields != [] {
      var tail := fields[1..];
      NormFieldsDistinct(tail);
      var r := NormFields(tail);
      forall j | 0 <= j < |r| ensures r[j].key != fields[0].key {
        NormFieldsHolds(tail, r[j]);
        var i :| 0 <= i < |tail| && r[j] == NField(tail[i].key, Normalize(tail[i].val));
        assert KeyOf(fields[i + 1]) != KeyOf(fields[0]);
      }
    }
  }

  function NormField(f: Field): NField { NField(f.key, Normalize(f.val)) }

  lemma NormFieldsCons(f: Field, s: seq<Field>)
    ensures NormFields([f] + s) == if f.val.Undefined? then NormFields(s) else [NormField(f)] + NormFields(s)
  {
    assert ([f] + s)[1..] == s;
  }

  lemma DefinedCons(f: Field, s: seq<Field>)
    ensures Defined([f] + s) == if f.val.Undefined? then Defined(s) else [f] + Defined(s)
  {
    assert ([f] + s)[1..] == s;
  }

  lemma SortCons<T>(key: T -> JsString, x: T, s: seq<T>)
    ensures SortBy(key, [x] + s) == Insert(key, x, SortBy(key, s))
  {
    assert ([x] + s)[1..] == s;
  }

  lemma InsertCons<T>(key: T -> JsString, x: T, y: T, s: seq<T>)
    ensures Insert(key, x, [y] + s) == if Less(key(y), key(x)) then [y] + Insert(key, x, s) else [x, y] + s
  {
    assert ([y] + s)[1..] == s;
  }

  /** Nothing in an ascending list that starts at or after `x` goes before `x`. */
  lemma InsertFirst(x: Field, s: seq<Field>)
    requires Ascending(KeyOf, s) && (s == [] || !Less(s[0].key, x.key)) && !x.val.Undefined?
    ensures Insert(NKey, NormField(x), NormFields(s)) == [NormField(x)] + NormFields(s)
  {
    var r := NormFields(s);
    if r != [] {
      NormFieldsHolds(s, r[0]);
      var i :| 0 <= i < |s| && r[0] == NField(s[i].key, Normalize(s[i].val));
      assert i > 0 ==> Less(KeyOf(s[0]), KeyOf(s[i]));
      if i > 0 && Less(s[i].key, x.key) { LessTransitive(s[0].key, s[i].key, x.key); }
    }
  }

  /** Dropping and normalizing commute with one insertion of the sort. */
  lemma {:induction false} InsertCommutes(x: Field, s: seq<Field>)
    requires Ascending(KeyOf, s)
    ensures NormFields(Insert(KeyOf, x, s)) ==
            if x.val.Undefined? then NormFields(s) else Insert(NKey, NormField(x), NormFields(s))
  {
    if s == [] || !Less(s[0].key, x.key) {
      NormFieldsCons(x, s);
      assert [x] + s == Insert(KeyOf, x, s);
      if !x.val.Undefined? { InsertFirst(x, s); }
    } else {
      var tail := s[1..];
      AscendingTail(KeyOf, s);
      InsertCommutes(x, tail);
      NormFieldsCons(s[0], Insert(KeyOf, x, tail));
      NormFieldsCons(s[0], tail);
      assert s == [s[0]] + tail;
      if !s[0].val.Undefined? && !x.val.Undefined? {
        InsertCons(NKey, NormField(x), NormField(s[0]), NormFields(tail));
      }
    }
  }

  lemma {:induction false} SortCommutes(fields: seq<Field>)
    requires DistinctKeys(KeyOf, fields)
    ensures NormFields(SortBy(KeyOf, fields)) == SortBy(NKey, NormFields(fields))
  {
    if fields != [] {
      var f, tail := fields[0], fields[1..];
      SortCommutes(tail);
      SortSorts(KeyOf, tail);
      InsertCommutes(f, SortBy(KeyOf, tail));
      NormFieldsCons(f, tail);
      assert fields == [f] + tail;
      if !f.val.Undefined? {
        SortCons(NKey, NormField(f), NormFields(tail));
      }
    }
  }

  lemma {:induction false} DefinedKeepsNorm(fields: seq<Field>)
    ensures NormFields(Defined(fields)) == NormFields(fields)
  {
    if fields != [] {
      var f, tail := fields[0], fields[1..];
      DefinedKeepsNorm(tail);
      NormFieldsCons(f, tail);
      NormFieldsCons(f, Defined(tail));
      DefinedCons(f, tail);
      assert fields == [f] + tail;
    }
  }

  lemma NormalizeSort(fields: seq<Field>)
    requires DistinctKeys(KeyOf, fields)
    ensures SortBy(NKey, NormFields(fields)) == NormFields(Defined(SortBy(KeyOf, fields)))
  {
    SortCommutes(fields);
    DefinedKeepsNorm(SortBy(KeyOf, fields));
  }

  lemma {:induction false} NormalWellFormed(v: Value)
    requires WellFormed(v) && Printable(v)
    ensures WellFormedNorm(Normalize(v))
    decreases v
  {
    match v
    case Arr(items) =>
      forall i | 0 <= i < |items| ensures WellFormedNorm(NormItems(items)[i]) {
        if !items[i].Undefined? { NormalWellFormed(items[i]); }
      }
    case Obj(fields) =>
      var r := SortBy(NKey, NormFields(fields));
      SortSorts(NKey, NormFields(fields));
      forall j | 0 <= j < |r| ensures WellFormedNorm(r[j].val) {
        assert r[j] in multiset(NormFields(fields));
        NormFieldsHolds(fields, r[j]);
        var i :| 0 <= i < |fields| && !fields[i].val.Undefined? &&
                 r[j] == NField(fields[i].key, Normalize(fields[i].val));
        NormalWellFormed(fields[i].val);
      }
    case _ =>
  }

  /** The text exists exactly for printable values, and prints the normal form. */
  lemma {:induction false} TextPrintsNormalForm(v: Value)
    requires WellFormed(v)
    ensures CanonicalText(v).Ok? <==> Printable(v)
    ensures Printable(v) ==> WellFormedNorm(Normalize(v)) && CanonicalText(v) == Ok(Print(Normalize(v)))
    decreases v, 2
  {
    if Printable(v) { NormalWellFormed(v); }
    match v
    case Arr(items) =>
      ItemTextsPrint(items);
    case Obj(fields) =>
      SortHolds(KeyOf, fields);
      NormalizeSort(fields);
      var entries := Defined(SortBy(KeyOf, fields));
      FieldTextsPrint(v, entries);
      forall i | 0 <= i < |fields| && !fields[i].val.Undefined? ensures fields[i] in entries {
        assert fields[i] in fields;
        DefinedHolds(SortBy(KeyOf, fields), fields[i]);
      }
    case _ =>
  }

  lemma {:induction false} DefinedHolds(fields: seq<Field>, f: Field)
    requires f in fields && !f.val.Undefined?
    ensures f in Defined(fields)
  {
    if f != fields[0] { DefinedHolds(fields[1..], f); }
  }

  ghost predicate ItemsPrintable(items: seq<Value>) {
    forall i :: 0 <= i < |items| ==> items[i].Undefined? || Printable(items[i])
  }

  lemma ItemsPrintableCons(items: seq<Value>)
    requires items != []
    ensures ItemsPrintable(items) <==> (items[0].Undefined? || Printable(items[0])) && ItemsPrintable(items[1..])
  {
    assert items == [items[0]] + items[1..];
  }

  lemma {:induction false} ItemTextsPrint(items: seq<Value>)
    requires forall i :: 0 <= i < |items| ==> WellFormed(items[i])
    ensures ItemTexts(items).Ok? <==> ItemsPrintable(items)
    ensures ItemTexts(items).Ok? ==>
              && (forall i :: 0 <= i < |items| ==> WellFormedNorm(NormItems(items)[i]))
              && ItemTexts(items) == Ok(PrintItems(NormItems(items)))
    decreases items, 1
  {
    if items != [] {
      if !items[0].Undefined? { TextPrintsNormalForm(items[0]); }
      var tail := items[1..];
      ItemTextsPrint(tail);
      ItemsPrintableCons(items);
      assert NormItems(items)[1..] == NormItems(tail);
    }
  }

  ghost predicate EntriesPrintable(entries: seq<Field>) {
    forall i :: 0 <= i < |entries| ==> Printable(entries[i].val)
  }

  lemma EntriesPrintableCons(entries: seq<Field>)
    requires entries != []
    ensures EntriesPrintable(entries) <==> Printable(entries[0].val) && EntriesPrintable(entries[1..])
  {
    assert entries == [entries[0]] + entries[1..];
  }

  lemma {:induction false} FieldTextsPrint(record: Value, entries: seq<Field>)
    requires record.Obj? && WellFormed(record)
    requires forall f <- entries :: f in record.fields && !f.val.Undefined?
    ensures FieldTexts(record, entries).Ok? <==> EntriesPrintable(entries)
    ensures FieldTexts(record, entries).Ok? ==>
              && (forall i :: 0 <= i < |NormFields(entries)| ==> WellFormedNorm(NormFields(entries)[i].val))
              && FieldTexts(record, entries) == Ok(PrintFields(NormFields(entries)))
    decreases record, 1, |entries|
  {
    if entries != [] {
      assert entries[0] in record.fields;
      TextPrintsNormalForm(entries[0].val);
      var tail := entries[1..];
      FieldTextsPrint(record, tail);
      EntriesPrintableCons(entries);
      assert NormFields(entries)[1..] == NormFields(tail);
    }
  }

  // ---- The printer is injective ----

  /** What may follow a token: numbers do not delimit themselves. */
  ghost predicate Stops(x: JsString) { x == [] || !N.NumberUnit(x[0]) }

  lemma NumberInjective(a: N.Number, x: JsString, b: N.Number, y: JsString)
    requires WellFormedNorm(NNum(a)) && WellFormedNorm(NNum(b)) && Stops(x) && Stops(y)
    requires N.NumberText(a) + x == N.NumberText(b) + y
    ensures a == b && x == y
  {
    var s, t := N.NumberText(a), N.NumberText(b);
    N.NumberTextUnits(a);
    N.NumberTextUnits(b);
    var u := s + x;
    assert forall i :: 0 <= i < |s| ==> u[i] == s[i] && N.NumberUnit(u[i]);
    assert forall i :: 0 <= i < |t| ==> u[i] == t[i] && N.NumberUnit(u[i]);
    assert x != [] ==> u[|s|] == x[0];
    assert y != [] ==> u[|t|] == y[0];
    assert |s| == |t|;
    assert s == u[..|s|] && t == u[..|s|] && x == u[|s|..] && y == u[|s|..];
    N.NumberTextInjective(a, b);
  }

  /** The first unit of a text tells which kind of value it prints. */
  ghost predicate Starts(n: Norm, u: Unit) {
    match n
    case NNull => u == 0x6E
    case NBool(b) => u == if b then 0x74 else 0x66
    case NNum(_) => N.NumberUnit(u) && u != 0x65
    case NStr(_) => u == QUOTE
    case NArr(_) => u == OPEN_ARRAY
    case NObj(_) => u == OPEN_OBJECT
  }

  lemma PrintStarts(n: Norm)
    requires WellFormedNorm(n)
    ensures Print(n) != [] && Starts(n, Print(n)[0])
  {
    if n.NNum? && n.x.Finite? {
      N.NumberTextUnits(n.x);
      N.FormOfText(n.x.digits, n.x.exponent);
    }
  }

  /** No text is a prefix of another one unless they are equal. */
  lemma {:induction false} PrintInjective(m: Norm, x: JsString, n: Norm, y: JsString)
    requires WellFormedNorm(m) && WellFormedNorm(n) && Stops(x) && Stops(y)
    requires Print(m) + x == Print(n) + y
    ensures m == n && x == y
    decreases m, 2
  {
    PrintStarts(m);
    PrintStarts(n);
    assert (Print(m) + x)[0] == Print(m)[0] && (Print(n) + y)[0] == Print(n)[0];
    match m
    case NNum(a) => NumberInjective(a, x, n.x, y);
    case NStr(a) => QuoteInjective(a, x, n.s, y);
    case NArr(a) =>
      DropFirst(OPEN_ARRAY, Join(PrintItems(a), [COMMA]), [CLOSE_ARRAY], x);
      DropFirst(OPEN_ARRAY, Join(PrintItems(n.items), [COMMA]), [CLOSE_ARRAY], y);
      ItemsInjective(a, x, n.items, y);
    case NObj(a) =>
      DropFirst(OPEN_OBJECT, Join(PrintFields(a), [COMMA]), [CLOSE_OBJECT], x);
      DropFirst(OPEN_OBJECT, Join(PrintFields(n.fields), [COMMA]), [CLOSE_OBJECT], y);
      FieldsInjective(a, x, n.fields, y);
    case _ =>
      assert x == (Print(m) + x)[|Print(m)|..] && y == (Print(n) + y)[|Print(n)|..];
  }

  lemma DropFirst(u: Unit, s: JsString, t: JsString, x: JsString)
    ensures ([u] + s + t + x)[1..] == s + t + x
  {
  }

  /** What follows the first of several joined parts. */
  function Rest(parts: seq<JsString>, close: Unit, x: JsString): (r: JsString)
    requires parts != []
    ensures Join(parts, [COMMA]) + [close] + x == parts[0] + r
    ensures r != [] && r[0] == if |parts| == 1 then close else COMMA
  {
    (if |parts| == 1 then [] else [COMMA] + Join(parts[1..], [COMMA])) + [close] + x
  }

  /** Joined parts that agree after the first one agree on what remains. */
  lemma RestInjective(p: seq<JsString>, x: JsString, q: seq<JsString>, y: JsString, close: Unit)
    requires p != [] && q != [] && close != COMMA
    requires Rest(p, close, x) == Rest(q, close, y)
    ensures |p| == 1 <==> |q| == 1
    ensures |p| == 1 ==> x == y
    ensures |p| > 1 ==> Join(p[1..], [COMMA]) + [close] + x == Join(q[1..], [COMMA]) + [close] + y
  {
    var r, t := Rest(p, close, x), Rest(q, close, y);
    if |p| == 1 {
      assert r == [close] + x && t == [close] + y;
      assert x == r[1..] && y == t[1..];
    } else {
      assert r[1..] == Join(p[1..], [COMMA]) + [close] + x;
      assert t[1..] == Join(q[1..], [COMMA]) + [close] + y;
    }
  }

  lemma {:induction false} ItemsInjective(a: seq<Norm>, x: JsString, b: seq<Norm>, y: JsString)
    requires WellFormedNorm(NArr(a)) && WellFormedNorm(NArr(b)) && Stops(x) && Stops(y)
    requires Join(PrintItems(a), [COMMA]) + [CLOSE_ARRAY] + x == Join(PrintItems(b), [COMMA]) + [CLOSE_ARRAY] + y
    ensures a == b && x == y
    decreases a, 1
  {
    var p, q := PrintItems(a), PrintItems(b);
    if a != [] { PrintStarts(a[0]); }
    if b != [] { PrintStarts(b[0]); }
    if a != [] && b != [] {
      PrintInjective(a[0], Rest(p, CLOSE_ARRAY, x), b[0], Rest(q, CLOSE_ARRAY, y));
      RestInjective(p, x, q, y, CLOSE_ARRAY);
      assert p[1..] == PrintItems(a[1..]) && q[1..] == PrintItems(b[1..]);
      PrintItemsLength(a);
      PrintItemsLength(b);
      if |a| > 1 { ItemsInjective(a[1..], x, b[1..], y); }
      assert a == [a[0]] + a[1..] && b == [b[0]] + b[1..];
    } else {
      EmptyJoin(p, x, q, y, CLOSE_ARRAY);
    }
  }

  lemma {:induction false} PrintItemsLength(items: seq<Norm>)
    requires WellFormedNorm(NArr(items))
    ensures |PrintItems(items)| == |items|
  {
    if items != [] { PrintItemsLength(items[1..]); }
  }

  lemma {:induction false} PrintFieldsLength(fields: seq<NField>)
    requires WellFormedNorm(NObj(fields))
    ensures |PrintFields(fields)| == |fields|
  {
    if fields != [] { PrintFieldsLength(fields[1..]); }
  }

  /** An empty list is recognized by its closing bracket. */
  lemma EmptyJoin(p: seq<JsString>, x: JsString, q: seq<JsString>, y: JsString, close: Unit)
    requires p == [] || q == []
    requires p != [] ==> p[0] != [] && p[0][0] != close
    requires q != [] ==> q[0] != [] && q[0][0] != close
    requires Join(p, [COMMA]) + [close] + x == Join(q, [COMMA]) + [close] + y
    ensures p == q && x == y
  {
    var s, t := Join(p, [COMMA]) + [close] + x, Join(q, [COMMA]) + [close] + y;
    JoinHead(p, close, x);
    JoinHead(q, close, y);
    assert p == [] ==> x == s[1..];
    assert q == [] ==> y == t[1..];
  }

  lemma JoinHead(p: seq<JsString>, close: Unit, x: JsString)
    requires p != [] ==> p[0] != []
    ensures (Join(p, [COMMA]) + [close] + x)[0] == if p == [] then close else p[0][0]
  {
    if p != [] { assert Join(p, [COMMA]) + [close] + x == p[0] + Rest(p, close, x); }
  }

  lemma KeyInjective(k: JsString, v: JsString, x: JsString, k': JsString, w: JsString, y: JsString)
    requires Quote(k) + [COLON] + v + x == Quote(k') + [COLON] + w + y
    ensures k == k' && v + x == w + y
  {
    assert Quote(k) + [COLON] + v + x == Quote(k) + ([COLON] + v + x);
    assert Quote(k') + [COLON] + w + y == Quote(k') + ([COLON] + w + y);
    QuoteInjective(k, [COLON] + v + x, k', [COLON] + w + y);
    assert v + x == ([COLON] + v + x)[1..] && w + y == ([COLON] + w + y)[1..];
  }

  lemma {:induction false} FieldInjective(f: NField, x: JsString, g: NField, y: JsString)
    requires WellFormedNorm(f.val) && WellFormedNorm(g.val) && Stops(x) && Stops(y)
    requires PrintField(f) + x == PrintField(g) + y
    ensures f == g && x == y
    decreases f, 2
  {
    KeyInjective(f.key, Print(f.val), x, g.key, Print(g.val), y);
    PrintInjective(f.val, x, g.val, y);
  }

  lemma PrintFieldsStarts(a: seq<NField>)
    requires a != [] && WellFormedNorm(NObj(a))
    ensures var p := PrintFields(a); p != [] && p[0] != [] && p[0][0] == QUOTE && p[0] == PrintField(a[0])
    ensures PrintFields(a)[1..] == PrintFields(a[1..])
  {}

  lemma SameHeadAndTail<T>(a: seq<T>, b: seq<T>)
    requires a != [] && b != [] && a[0] == b[0] && a[1..] == b[1..]
    ensures a == b
  {
    assert a == [a[0]] + a[1..] && b == [b[0]] + b[1..];
  }

  lemma {:induction false} FieldsInjective(a: seq<NField>, x: JsString, b: seq<NField>, y: JsString)
    requires WellFormedNorm(NObj(a)) && WellFormedNorm(NObj(b)) && Stops(x) && Stops(y)
    requires Join(PrintFields(a), [COMMA]) + [CLOSE_OBJECT] + x == Join(PrintFields(b), [COMMA]) + [CLOSE_OBJECT] + y
    ensures a == b && x == y
    decreases a, 1
  {
    var p, q := PrintFields(a), PrintFields(b);
    if a != [] { PrintFieldsStarts(a); }
    if b != [] { PrintFieldsStarts(b); }
    if a != [] && b != [] {
      FieldInjective(a[0], Rest(p, CLOSE_OBJECT, x), b[0], Rest(q, CLOSE_OBJECT, y));
      RestInjective(p, x, q, y, CLOSE_OBJECT);
      PrintFieldsLength(a);
      PrintFieldsLength(b);
      if |a| > 1 { FieldsInjective(a[1..], x, b[1..], y); }
      SameHeadAndTail(a, b);
    } else {
      EmptyJoin(p, x, q, y, CLOSE_OBJECT);
    }
  }

  // ---- Normal forms are equal exactly for equivalent values ----

  predicate SameField(f: Field, g: Field) {
    !f.val.Undefined? && !g.val.Undefined? && NormField(f) == NormField(g)
  }

  /** The normal fields of `a` are among those of `b` exactly when each defined
      field of `a` has the normal form of a field of `b`. */
  lemma NormFieldsWithin(a: seq<Field>, b: seq<Field>)
    ensures (forall g :: g in NormFields(a) ==> g in NormFields(b)) <==>
            (forall i :: 0 <= i < |a| && !a[i].val.Undefined? ==> exists j :: 0 <= j < |b| && SameField(a[i], b[j]))
  {
    if forall g :: g in NormFields(a) ==> g in NormFields(b) {
      forall i | 0 <= i < |a| && !a[i].val.Undefined? ensures exists j :: 0 <= j < |b| && SameField(a[i], b[j]) {
        var g := NormField(a[i]);
        NormFieldsHolds(a, g);
        NormFieldsHolds(b, g);
        var j :| 0 <= j < |b| && !b[j].val.Undefined? && g == NField(b[j].key, Normalize(b[j].val));
        assert SameField(a[i], b[j]);
      }
    }
    if forall i :: 0 <= i < |a| && !a[i].val.Undefined? ==> exists j :: 0 <= j < |b| && SameField(a[i], b[j]) {
      forall g | g in NormFields(a) ensures g in NormFields(b) {
        NormFieldsHolds(a, g);
        NormFieldsHolds(b, g);
        var i :| 0 <= i < |a| && !a[i].val.Undefined? && g == NField(a[i].key, Normalize(a[i].val));
        var j :| 0 <= j < |b| && SameField(a[i], b[j]);
      }
    }
  }

  lemma {:induction false} NormalFormsAgree(v: Value, w: Value)
    requires WellFormed(v) && Printable(v) && WellFormed(w) && Printable(w)
    ensures Normalize(v) == Normalize(w) <==> Equivalent(v, w)
    decreases v, 2
  {
    match (v, w)
    case (Arr(a), Arr(b)) => ItemsAgree(v, w);
    case (Obj(a), Obj(b)) => FieldsAgree(v, w);
    case _ =>
  }

  lemma {:induction false} ItemsAgree(v: Value, w: Value)
    requires v.Arr? && w.Arr? && WellFormed(v) && Printable(v) && WellFormed(w) && Printable(w)
    ensures Normalize(v) == Normalize(w) <==> Equivalent(v, w)
    decreases v, 0
  {
    var a, b := v.items, w.items;
    forall i | 0 <= i < |a| && i < |b|
      ensures Normalize(a[i]) == Normalize(b[i]) <==> (Nullish(a[i]) && Nullish(b[i])) || Equivalent(a[i], b[i])
    {
      if !a[i].Undefined? && !b[i].Undefined? { NormalFormsAgree(a[i], b[i]); }
    }
    var p, q := NormItems(a), NormItems(b);
    if |a| == |b| {
      assert p == q <==> forall i :: 0 <= i < |a| ==> p[i] == q[i];
    }
  }

  lemma {:induction false} FieldsAgree(v: Value, w: Value)
    requires v.Obj? && w.Obj? && WellFormed(v) && Printable(v) && WellFormed(w) && Printable(w)
    ensures Normalize(v) == Normalize(w) <==> Equivalent(v, w)
    decreases v, 1
  {
    FieldPairsAgree(v, w);
    FieldsWithinBoth(v.fields, w.fields);
    SortedFormsAgree(v.fields, w.fields);
  }

  lemma SortedFormsAgree(a: seq<Field>, b: seq<Field>)
    requires DistinctKeys(KeyOf, a) && DistinctKeys(KeyOf, b)
    ensures SortBy(NKey, NormFields(a)) == SortBy(NKey, NormFields(b)) <==> SameElements(NormFields(a), NormFields(b))
  {
    NormFieldsDistinct(a);
    NormFieldsDistinct(b);
    SortedEqual(NKey, NormFields(a), NormFields(b));
  }

  lemma {:induction false} FieldPairsAgree(v: Value, w: Value)
    requires v.Obj? && w.Obj? && WellFormed(v) && Printable(v) && WellFormed(w) && Printable(w)
    ensures forall i, j :: 0 <= i < |v.fields| && 0 <= j < |w.fields| ==>
              (SameField(v.fields[i], w.fields[j]) <==> EquivalentFields(v.fields[i], w.fields[j]))
    decreases v, 0
  {
    var a, b := v.fields, w.fields;
    forall i, j | 0 <= i < |a| && 0 <= j < |b| ensures SameField(a[i], b[j]) <==> EquivalentFields(a[i], b[j]) {
      if !a[i].val.Undefined? && !b[j].val.Undefined? { NormalFormsAgree(a[i].val, b[j].val); }
    }
  }

  lemma FieldsWithinBoth(a: seq<Field>, b: seq<Field>)
    requires forall i, j :: 0 <= i < |a| && 0 <= j < |b| ==> (SameField(a[i], b[j]) <==> EquivalentFields(a[i], b[j]))
    ensures SameElements(NormFields(a), NormFields(b)) <==> EquivalentObjects(a, b)
  {
    NormFieldsWithin(a, b);
    NormFieldsWithin(b, a);
    assert forall i :: 0 <= i < |a| ==>
      ((exists j :: 0 <= j < |b| && SameField(a[i], b[j])) <==>
       exists j :: 0 <= j < |b| && EquivalentFields(a[i], b[j]));
    assert forall j :: 0 <= j < |b| ==>
      ((exists i :: 0 <= i < |a| && SameField(b[j], a[i])) <==>
       exists i :: 0 <= i < |a| && EquivalentFields(a[i], b[j]));
  }

  // ---- Main results ----

  /** `canonicalJson` is unambiguous: two accepted values print the same text
      if and only if they are equal up to what JSON ignores. */
  lemma CanonicalTextInjective(v: Value, w: Value)
    requires WellFormed(v) && WellFormed(w)
    requires CanonicalText(v).Ok? && CanonicalText(w).Ok?
    ensures CanonicalText(v) == CanonicalText(w) <==> Equivalent(v, w)
  {
    TextPrintsNormalForm(v);
    TextPrintsNormalForm(w);
    NormalFormsAgree(v, w);
    if CanonicalText(v) == CanonicalText(w) {
      var s, t := Print(Normalize(v)), Print(Normalize(w));
      assert s + [] == s && t + [] == t;
      PrintInjective(Normalize(v), [], Normalize(w), []);
    }
  }

  /** It refuses exactly the values JSON cannot represent. */
  lemma CanonicalTextAccepts(v: Value)
    requires WellFormed(v)
    ensures CanonicalText(v).Ok? <==> Printable(v)
  {
    TextPrintsNormalForm(v);
  }
}
