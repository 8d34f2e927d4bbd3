/** The canonical text has a UTF-8 form, so hashing its bytes loses nothing of it. */
module CanonicalJsonUtf8 {
  import opened JsText
  import opened JsonQuote
  import opened CanonicalJson
  import opened CanonicalJsonProofs
  import N = JsonNumber

  ghost predicate AllWellFormed(parts: seq<JsString>) {
    forall i :: 0 <= i < |parts| ==> WellFormedUtf16(parts[i])
  }

  lemma {:induction false} JoinWellFormed(parts: seq<JsString>)
    requires AllWellFormed(parts)
    ensures WellFormedUtf16(Join(parts, [COMMA]))
  {
    if |parts| > 1 {
      JoinWellFormed(parts[1..]);
      PlainIsWellFormed([COMMA]);
      WellFormedConcat(parts[0], [COMMA]);
      WellFormedConcat(parts[0] + [COMMA], Join(parts[1..], [COMMA]));
    }
  }

  lemma Enclosed(open: Unit, parts: seq<JsString>, close: Unit)
    requires !IsSurrogate(open) && !IsSurrogate(close) && AllWellFormed(parts)
    ensures WellFormedUtf16([open] + Join(parts, [COMMA]) + [close])
  {
    JoinWellFormed(parts);
    PlainIsWellFormed([open]);
    PlainIsWellFormed([close]);
    WellFormedConcat([open], Join(parts, [COMMA]));
    WellFormedConcat([open] + Join(parts, [COMMA]), [close]);
  }

  lemma NumberWellFormed(x: N.Number)
    requires N.WellFormed(x) && (x.Zero? || x.Finite?)
    ensures WellFormedUtf16(N.NumberText(x))
  {
    N.NumberTextUnits(x);
    PlainIsWellFormed(N.NumberText(x));
  }

  lemma {:induction false} PrintWellFormed(n: Norm)
    requires WellFormedNorm(n)
    ensures WellFormedUtf16(Print(n))
    decreases n
  {
    match n
    case NNull => PlainIsWellFormed(Ascii("null"));
    case NBool(b) => PlainIsWellFormed(if b then Ascii("true") else Ascii("false"));
    case NNum(x) => NumberWellFormed(x);
    case NStr(s) => QuoteWellFormed(s);
    case NArr(items) =>
      ItemsWellFormed(items);
      Enclosed(OPEN_ARRAY, PrintItems(items), CLOSE_ARRAY);
    case NObj(fields) =>
      FieldsWellFormed(fields);
      Enclosed(OPEN_OBJECT, PrintFields(fields), CLOSE_OBJECT);
  }

  lemma {:induction false} ItemsWellFormed(items: seq<Norm>)
    requires forall i :: 0 <= i < |items| ==> WellFormedNorm(items[i])
    ensures AllWellFormed(PrintItems(items))
    decreases items
  {
    if items != [] {
      PrintWellFormed(items[0]);
      ItemsWellFormed(items[1..]);
    }
  }

  lemma {:induction false} FieldsWellFormed(fields: seq<NField>)
    requires forall i :: 0 <= i < |fields| ==> WellFormedNorm(fields[i].val)
    ensures AllWellFormed(PrintFields(fields))
    decreases fields
  {
    if fields != [] {
      var f := fields[0];
      PrintWellFormed(f.val);
      QuoteWellFormed(f.key);
      PlainIsWellFormed([COLON]);
      WellFormedConcat(Quote(f.key), [COLON]);
      WellFormedConcat(Quote(f.key) + [COLON], Print(f.val));
      FieldsWellFormed(fields[1..]);
    }
  }

  /** Whatever strings a value holds, its canonical text has no half of a surrogate pair. */
  lemma CanonicalTextWellFormed(v: Value)
    requires WellFormed(v) && CanonicalText(v).Ok?
    ensures WellFormedUtf16(CanonicalText(v).value)
  {
    TextPrintsNormalForm(v);
    PrintWellFormed(Normalize(v));
  }
}
