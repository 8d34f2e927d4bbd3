/** String tokens, as `JSON.stringify` prints them (RFC 8259 section 7 and
    ECMA-262, QuoteJSONString: unpaired surrogates are escaped). */
module JsonQuote {
  import opened JsText

  const QUOTE: Unit := 0x22
  const BACKSLASH: Unit := 0x5C
  const LOWER_U: Unit := 0x75

  predicate IsHigh(u: Unit) { 0xD800 <= u < 0xDC00 }
  predicate IsLow(u: Unit) { 0xDC00 <= u < 0xE000 }
  predicate IsSurrogate(u: Unit) { 0xD800 <= u < 0xE000 }

  predicate StartsWithPair(s: JsString) { |s| >= 2 && IsHigh(s[0]) && IsLow(s[1]) }

  /** Every surrogate is half of a pair: the text has a UTF-8 form. */
  predicate WellFormedUtf16(s: JsString) {
    if s == [] then true
    else if StartsWithPair(s) then WellFormedUtf16(s[2..])
    else !IsSurrogate(s[0]) && WellFormedUtf16(s[1..])
  }

  function HexDigit(v: nat): Unit
    requires v < 16
  {
    if v < 10 then 0x30 + v else 0x61 + (v - 10)
  }

  function UnicodeEscape(u: Unit): JsString {
    [BACKSLASH, LOWER_U,
     HexDigit(u / 16 / 16 / 16), HexDigit(u / 16 / 16 % 16), HexDigit(u / 16 % 16), HexDigit(u % 16)]
  }

  /** The letter of a two-unit escape, or 0 when the unit has none. */
  function ShortEscape(u: Unit): Unit {
    match u
    case 0x08 => 0x62
    case 0x09 => 0x74
    case 0x0A => 0x6E
    case 0x0C => 0x66
    case 0x0D => 0x72
    case 0x22 => 0x22
    case 0x5C => 0x5C
    case _ => 0
  }

  function EscapeUnit(u: Unit): JsString {
    if ShortEscape(u) != 0 then [BACKSLASH, ShortEscape(u)]
    else if u < 0x20 || IsSurrogate(u) then UnicodeEscape(u)
    else [u]
  }

  function HeadLength(s: JsString): (n: nat)
    requires s != []
    ensures 1 <= n <= |s|
  {
    if StartsWithPair(s) then 2 else 1
  }

  function HeadText(s: JsString): JsString
    requires s != []
  {
    if StartsWithPair(s) then s[..2] else EscapeUnit(s[0])
  }

  function Body(s: JsString): JsString {
    if s == [] then [] else HeadText(s) + Body(s[HeadLength(s)..])
  }

  function Quote(s: JsString): JsString {
    [QUOTE] + Body(s) + [QUOTE]
  }

  lemma HexDigitInjective(a: nat, b: nat)
    requires a < 16 && b < 16 && HexDigit(a) == HexDigit(b)
    ensures a == b
  {
  }

  lemma UnicodeEscapeInjective(u: Unit, v: Unit)
    requires UnicodeEscape(u) == UnicodeEscape(v)
    ensures u == v
  {
    var s, t := UnicodeEscape(u), UnicodeEscape(v);
    var a, b, c, d := s[2], s[3], s[4], s[5];
    assert a == t[2] && b == t[3] && c == t[4] && d == t[5];
    HexDigitInjective(u / 16 / 16 / 16, v / 16 / 16 / 16);
    HexDigitInjective(u / 16 / 16 % 16, v / 16 / 16 % 16);
    assert u / 16 / 16 == v / 16 / 16;
    HexDigitInjective(u / 16 % 16, v / 16 % 16);
    assert u / 16 == v / 16;
    HexDigitInjective(u % 16, v % 16);
  }

  lemma EscapeUnitInjective(u: Unit, r: JsString, v: Unit, r': JsString)
    requires EscapeUnit(u) + r == EscapeUnit(v) + r'
    ensures u == v && r == r'
  {
    var e, f := EscapeUnit(u), EscapeUnit(v);
    var s, t := e + r, f + r';
    assert s[0] == e[0] && t[0] == f[0];
    if |e| > 1 && |f| > 1 {
      assert s[1] == e[1] && t[1] == f[1];
    }
    assert |e| == |f|;
    assert e == s[..|e|] && f == t[..|e|] && r == s[|e|..] && r' == t[|e|..];
    if |e| == 6 {
      UnicodeEscapeInjective(u, v);
    }
  }

  lemma HeadTextInjective(s: JsString, r: JsString, t: JsString, r': JsString)
    requires s != [] && t != [] && HeadText(s) + r == HeadText(t) + r'
    ensures HeadLength(s) == HeadLength(t) && s[..HeadLength(s)] == t[..HeadLength(s)] && r == r'
  {
    var a, b := HeadText(s) + r, HeadText(t) + r';
    assert a[0] == HeadText(s)[0] && b[0] == HeadText(t)[0];
    assert StartsWithPair(s) == StartsWithPair(t);
    if StartsWithPair(s) {
      assert s[..2] == a[..2] && t[..2] == b[..2] && r == a[2..] && r' == b[2..];
    } else {
      EscapeUnitInjective(s[0], r, t[0], r');
    }
  }

  lemma HeadTextIsNotQuote(s: JsString)
    requires s != []
    ensures HeadText(s) != [] && HeadText(s)[0] != QUOTE
  {
  }

  lemma BodyEnds(s: JsString, x: JsString, y: JsString)
    requires Body(s) + [QUOTE] + x == [QUOTE] + y
    ensures s == [] && x == y
  {
    var a, b := Body(s) + [QUOTE] + x, [QUOTE] + y;
    assert a[0] == QUOTE;
    if s != [] {
      HeadTextIsNotQuote(s);
      assert false;
    }
    assert x == a[1..] && y == b[1..];
  }

  lemma BodyUnfold(s: JsString, x: JsString)
    requires s != []
    ensures Body(s) + [QUOTE] + x == HeadText(s) + (Body(s[HeadLength(s)..]) + [QUOTE] + x)
  {
  }

  /** A quoted string ends at its closing quote and determines the string. */
  lemma {:induction false} BodyInjective(s: JsString, x: JsString, t: JsString, y: JsString)
    requires Body(s) + [QUOTE] + x == Body(t) + [QUOTE] + y
    ensures s == t && x == y
    decreases |s| + |t|
  {
    if s == [] {
      assert Body(s) + [QUOTE] + x == [QUOTE] + x;
      BodyEnds(t, y, x);
    } else if t == [] {
      assert Body(t) + [QUOTE] + y == [QUOTE] + y;
      BodyEnds(s, x, y);
    } else {
      var n, m := HeadLength(s), HeadLength(t);
      BodyUnfold(s, x);
      BodyUnfold(t, y);
      HeadTextInjective(s, Body(s[n..]) + [QUOTE] + x, t, Body(t[m..]) + [QUOTE] + y);
      BodyInjective(s[n..], x, t[m..], y);
      assert s == s[..n] + s[n..] && t == t[..m] + t[m..];
    }
  }

  lemma QuoteInjective(s: JsString, x: JsString, t: JsString, y: JsString)
    requires Quote(s) + x == Quote(t) + y
    ensures s == t && x == y
  {
    assert (Quote(s) + x)[1..] == Body(s) + [QUOTE] + x;
    assert (Quote(t) + y)[1..] == Body(t) + [QUOTE] + y;
    BodyInjective(s, x, t, y);
  }

  lemma {:induction false} WellFormedConcat(a: JsString, b: JsString)
    requires WellFormedUtf16(a) && WellFormedUtf16(b)
    ensures WellFormedUtf16(a + b)
  {
    if a == [] {
      assert a + b == b;
    } else {
      var n := if StartsWithPair(a) then 2 else 1;
      assert (a + b)[n..] == a[n..] + b;
      WellFormedConcat(a[n..], b);
    }
  }

  lemma {:induction false} PlainIsWellFormed(a: JsString)
    requires forall i :: 0 <= i < |a| ==> !IsSurrogate(a[i])
    ensures WellFormedUtf16(a)
  {
    if a != [] { PlainIsWellFormed(a[1..]); }
  }

  lemma {:induction false} BodyWellFormed(s: JsString)
    ensures WellFormedUtf16(Body(s))
  {
    if s != [] {
      BodyWellFormed(s[HeadLength(s)..]);
      if StartsWithPair(s) {
        assert WellFormedUtf16(s[..2][2..]);
      } else {
        PlainIsWellFormed(EscapeUnit(s[0]));
      }
      WellFormedConcat(HeadText(s), Body(s[HeadLength(s)..]));
    }
  }

  /** Whatever the string, its token has a UTF-8 form. */
  lemma QuoteWellFormed(s: JsString)
    ensures WellFormedUtf16(Quote(s))
  {
    BodyWellFormed(s);
    PlainIsWellFormed([QUOTE]);
    WellFormedConcat([QUOTE], Body(s));
    WellFormedConcat([QUOTE] + Body(s), [QUOTE]);
  }

  // ---- how a token is written

  /** A unit that stands for itself in a token. */
  predicate IsPlain(u: Unit) {
    u >= 0x20 && u != 0x22 && u != 0x5C && !(0xD800 <= u <= 0xDFFF)
  }

  /** A string of plain units is its own text between quotation marks. */
  lemma {:induction false} PlainBody(s: JsString)
    requires forall i :: 0 <= i < |s| ==> IsPlain(s[i])
    ensures Body(s) == s
  {
    if s != [] {
      PlainBody(s[1..]);
      assert s == [s[0]] + s[1..];
    }
  }

  /**
   * The length of a token: one for a unit that stands for itself or is in a surrogate pair, two for one
   * of the seven with a short escape, six for any other control character or half of a pair.
   */
  function Cost(s: JsString): nat {
    if s == [] then 0
    else if |s| >= 2 && 0xD800 <= s[0] <= 0xDBFF && 0xDC00 <= s[1] <= 0xDFFF then 2 + Cost(s[2..])
    else (if IsPlain(s[0]) then 1 else if s[0] in {8, 9, 10, 12, 13, 0x22, 0x5C} then 2 else 6) + Cost(s[1..])
  }

  lemma {:induction false} BodyCost(s: JsString)
    ensures |Body(s)| == Cost(s)
  {
    if s != [] {
      BodyCost(s[HeadLength(s)..]);
    }
  }

  /** No escape has an upper-case digit. */
  lemma {:induction false} BodyLowerCase(s: JsString)
    requires forall i :: 0 <= i < |s| ==> !(0x41 <= s[i] <= 0x46)
    ensures forall i :: 0 <= i < |Body(s)| ==> !(0x41 <= Body(s)[i] <= 0x46)
  {
    if s != [] {
      BodyLowerCase(s[HeadLength(s)..]);
      HeadLowerCase(s);
    }
  }

  lemma HeadLowerCase(s: JsString)
    requires s != [] && forall i :: 0 <= i < |s| ==> !(0x41 <= s[i] <= 0x46)
    ensures forall i :: 0 <= i < |HeadText(s)| ==> !(0x41 <= HeadText(s)[i] <= 0x46)
  {}

  /** How a string is written: as it is where that is possible, else with the shortest escape, in lower case. */
  lemma QuoteForm(s: JsString)
    ensures (forall i :: 0 <= i < |s| ==> IsPlain(s[i])) ==> Quote(s) == [0x22] + s + [0x22]
    ensures |Quote(s)| == 2 + Cost(s)
    ensures (forall i :: 0 <= i < |s| ==> !(0x41 <= s[i] <= 0x46)) ==>
              forall i :: 0 <= i < |Quote(s)| ==> !(0x41 <= Quote(s)[i] <= 0x46)
  {
    if forall i :: 0 <= i < |s| ==> IsPlain(s[i]) { PlainBody(s); }
    BodyCost(s);
    if forall i :: 0 <= i < |s| ==> !(0x41 <= s[i] <= 0x46) { BodyLowerCase(s); }
  }
}
