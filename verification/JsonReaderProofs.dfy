/** What the canonical text says: read back, it is the value, with the keys of every object in order. */
module JsonReaderProofs {
  import opened JsText
  import opened Sorting
  import opened JsonQuote
  import opened CanonicalJson
  import opened CanonicalJsonProofs
  import opened JsonReader
  import N = JsonNumber

  // ---- strings

  lemma HexRead(v: nat)
    requires v < 16
    ensures HexValue(HexDigit(v)) == v
  {}

  lemma UnicodeRead(u: Unit, x: JsString)
    ensures ReadChar(UnicodeEscape(u) + x) == Got(u, x)
  {
    var s := UnicodeEscape(u) + x;
    HexRead(u / 16 / 16 / 16);
    HexRead(u / 16 / 16 % 16);
    HexRead(u / 16 % 16);
    HexRead(u % 16);
    assert s[0] == Code('\\') && s[1] == Code('u') && s[6..] == x;
    assert s[2] == HexDigit(u / 16 / 16 / 16) && s[3] == HexDigit(u / 16 / 16 % 16);
    assert s[4] == HexDigit(u / 16 % 16) && s[5] == HexDigit(u % 16);
    FourDigits(u);
  }

  lemma FourDigits(u: nat)
    ensures ((u / 16 / 16 / 16 * 16 + u / 16 / 16 % 16) * 16 + u / 16 % 16) * 16 + u % 16 == u
  {
    assert u / 16 / 16 / 16 * 16 + u / 16 / 16 % 16 == u / 16 / 16;
    assert u / 16 / 16 * 16 + u / 16 % 16 == u / 16;
  }

  lemma PlainRead(u: Unit, x: JsString)
    requires u >= 0x20 && u != 0x22 && u != 0x5C
    ensures ReadChar([u] + x) == Got(u, x)
  {
    assert ([u] + x)[1..] == x;
  }

  lemma ShortRead(u: Unit, x: JsString)
    requires ShortEscape(u) != 0
    ensures ReadChar([BACKSLASH, ShortEscape(u)] + x) == Got(u, x)
  {
    var s := [BACKSLASH, ShortEscape(u)] + x;
    assert s[0] == Code('\\') && s[1] == ShortEscape(u) && s[2..] == x;
  }

  lemma EscapeRead(u: Unit, x: JsString)
    ensures ReadChar(EscapeUnit(u) + x) == Got(u, x)
  {
    if ShortEscape(u) != 0 {
      ShortRead(u, x);
    } else if u < 0x20 || IsSurrogate(u) {
      UnicodeRead(u, x);
    } else {
      PlainRead(u, x);
    }
  }

  lemma OneMoreChar(s: JsString, u: Unit, x: JsString, text: JsString, after: JsString)
    requires ReadChar(s) == Got(u, x) && ReadChars(x) == Got(text, after)
    ensures ReadChars(s) == Got([u] + text, after)
  {}

  lemma PairRead(u: Unit, v: Unit, y: JsString, text: JsString, after: JsString)
    requires IsHigh(u) && IsLow(v) && ReadChars(y) == Got(text, after)
    ensures ReadChars([u, v] + y) == Got([u, v] + text, after)
  {
    var s := [v] + y;
    PlainRead(v, y);
    OneMoreChar(s, v, y, text, after);
    PlainRead(u, s);
    OneMoreChar([u] + s, u, s, [v] + text, after);
    TwoUnits(u, v, y);
    TwoUnits(u, v, text);
  }

  lemma TwoUnits(u: Unit, v: Unit, s: JsString)
    ensures [u, v] + s == [u] + ([v] + s)
  {}

  lemma CharsStep(s: JsString, rest: JsString, y: JsString, x: JsString)
    requires s != [] && rest == s[HeadLength(s)..] && ReadChars(y) == Got(rest, x)
    ensures ReadChars(HeadText(s) + y) == Got(s, x)
  {
    if StartsWithPair(s) {
      PairRead(s[0], s[1], y, rest, x);
      assert HeadText(s) == [s[0], s[1]] && s == [s[0], s[1]] + rest;
    } else {
      EscapeRead(s[0], y);
      OneMoreChar(EscapeUnit(s[0]) + y, s[0], y, rest, x);
      assert s == [s[0]] + rest;
    }
  }

  /** A string token is read back, whatever follows it. */
  lemma {:induction false} CharsRead(s: JsString, x: JsString)
    ensures ReadChars(Body(s) + [QUOTE] + x) == Got(s, x)
    decreases |s|
  {
    if s == [] {
      assert Body(s) + [QUOTE] + x == [QUOTE] + x;
      assert ([QUOTE] + x)[1..] == x;
    } else {
      var rest := s[HeadLength(s)..];
      CharsRead(rest, x);
      BodyUnfold(s, x);
      CharsStep(s, rest, Body(rest) + [QUOTE] + x, x);
    }
  }

  // ---- numbers

  ghost predicate NoDigit(x: JsString) { x == [] || !N.IsDigit(x[0]) }

  lemma {:induction false} DigitRunIs(d: JsString, x: JsString)
    requires N.AllDigits(d) && NoDigit(x)
    ensures DigitRun(d + x) == |d| && (d + x)[..|d|] == d && (d + x)[|d|..] == x
  {
    if d == [] {
      assert d + x == x;
    } else {
      assert (d + x)[1..] == d[1..] + x;
      DigitRunIs(d[1..], x);
    }
  }

  lemma {:induction false} ValueOfDecimal(n: nat)
    ensures DigitsValue(N.Decimal(n)) == n
  {
    if n >= 10 {
      var d := N.Decimal(n);
      ValueOfDecimal(n / 10);
      assert d[..|d| - 1] == N.Decimal(n / 10);
    }
  }

  lemma {:induction false} LeadOfZeros(n: nat, d: JsString)
    requires d != [] && d[0] != N.ZERO
    ensures JsonReader.LeadingZeros(N.Zeros(n) + d) == n && (N.Zeros(n) + d)[n..] == d
  {
    if n == 0 {
      assert N.Zeros(0) + d == d;
    } else {
      assert (N.Zeros(n) + d)[1..] == N.Zeros(n - 1) + d;
      LeadOfZeros(n - 1, d);
    }
  }

  lemma {:induction false} ZerosStripped(d: JsString, n: nat)
    requires d != [] && d[|d| - 1] != N.ZERO
    ensures WithoutTrailingZeros(d + N.Zeros(n)) == d
  {
    if n == 0 {
      assert d + N.Zeros(0) == d;
    } else {
      var s := d + N.Zeros(n);
      assert s[|s| - 1] == N.ZERO;
      ZerosPrefix(n);
      assert s[..|s| - 1] == d + N.Zeros(n - 1);
      ZerosStripped(d, n - 1);
    }
  }

  lemma ZerosPrefix(n: nat)
    requires n > 0
    ensures N.Zeros(n)[..n - 1] == N.Zeros(n - 1)
  {}

  lemma NumberOfShortest(negative: bool, d: JsString, before: nat, after: nat, n: int)
    requires N.WellFormed(N.Finite(negative, d, n))
    ensures NumberOf(negative, N.Zeros(before) + d + N.Zeros(after), n + before) == N.Finite(negative, d, n)
  {
    assert N.Zeros(before) + d + N.Zeros(after) == N.Zeros(before) + (d + N.Zeros(after));
    LeadOfZeros(before, d + N.Zeros(after));
    ZerosStripped(d, after);
  }

  /** What may follow a value. */
  ghost predicate Ends(x: JsString) {
    x == [] || x[0] == COMMA || x[0] == CLOSE_ARRAY || x[0] == CLOSE_OBJECT
  }

  lemma NoFraction(x: JsString)
    requires x == [] || x[0] != N.DOT
    ensures ReadFraction(x) == Got([], x)
  {}

  lemma FractionRead(d: JsString, x: JsString)
    requires d != [] && N.AllDigits(d) && NoDigit(x)
    ensures ReadFraction([N.DOT] + d + x) == Got(d, x)
  {
    assert ([N.DOT] + d + x)[1..] == d + x;
    DigitRunIs(d, x);
  }

  lemma NoExponent(x: JsString)
    requires Ends(x)
    ensures ReadExponent(x) == Got(0, x)
  {}

  lemma ExponentRead(e: int, s: JsString, x: JsString)
    requires Ends(x) && s == [N.EXP] + (N.Exponent(e) + x)
    ensures ReadExponent(s) == Got(e, x)
  {
    assert s[1..] == N.Exponent(e) + x;
    SignedRead(e, N.Decimal(if e < 0 then -e else e), s[1..], x);
  }

  lemma SignedRead(e: int, d: JsString, s: JsString, x: JsString)
    requires Ends(x) && d == N.Decimal(if e < 0 then -e else e) && s == N.Exponent(e) + x
    ensures ReadSigned(s) == Got(e, x)
  {
    SignAndDigits(e, d, s, x);
    ValueOfDecimal(if e < 0 then -e else e);
    DecimalDigitsRead(d, s[1..], x);
    SignStep(e, s, s[1..], x);
  }

  lemma SignAndDigits(e: int, d: JsString, s: JsString, x: JsString)
    requires d == N.Decimal(if e < 0 then -e else e) && s == N.Exponent(e) + x
    ensures s != [] && s[0] == (if e < 0 then N.MINUS else N.PLUS) && s[1..] == d + x
  {}

  lemma SignStep(e: int, s: JsString, t: JsString, x: JsString)
    requires s != [] && s[0] == (if e < 0 then N.MINUS else N.PLUS) && t == s[1..]
    requires ReadDigits(t) == Got(if e < 0 then -e else e, x)
    ensures ReadSigned(s) == Got(e, x)
  {}

  lemma DecimalDigitsRead(d: JsString, s: JsString, x: JsString)
    requires Ends(x) && d != [] && N.AllDigits(d) && s == d + x
    ensures ReadDigits(s) == Got(DigitsValue(d), x)
  {
    DigitRunIs(d, x);
  }

  /** A decimal is read part by part: a whole part, a fraction and an exponent. */
  lemma PartsRead(
    t: JsString, whole: JsString, after: JsString, fraction: JsString, exponent: JsString, e: int, x: JsString)
    requires t == whole + after && whole != [] && N.AllDigits(whole) && NoDigit(after)
    requires |whole| > 1 ==> whole[0] != N.ZERO
    requires ReadFraction(after) == Got(fraction, exponent) && ReadExponent(exponent) == Got(e, x)
    ensures ReadDecimal(t) == Got(Decimal(whole + fraction, |whole| + e), x)
  {
    DigitRunIs(whole, after);
    DecimalRead(t, whole, after);
  }

  lemma DecimalRead(t: JsString, whole: JsString, after: JsString)
    requires DigitRun(t) == |whole| > 0 && t[..|whole|] == whole && t[|whole|..] == after
    requires |whole| > 1 ==> t[0] != N.ZERO
    ensures ReadDecimal(t) == ReadRest(whole, after)
  {}

  /** What is read at `t` is the number with these shortest digits and exponent. */
  ghost predicate ReadsAs(negative: bool, t: JsString, d: JsString, n: int, x: JsString) {
    match ReadDecimal(t)
    case Got(v, rest) => rest == x && NumberOf(negative, v.digits, v.point) == N.Finite(negative, d, n)
    case Bad => false
  }

  lemma ShortestReads(
    negative: bool, t: JsString, digits: JsString, point: int, d: JsString, before: nat, after: nat, n: int,
    x: JsString)
    requires N.WellFormed(N.Finite(false, d, n)) && point == n + before
    requires digits == N.Zeros(before) + d + N.Zeros(after) && ReadDecimal(t) == Got(Decimal(digits, point), x)
    ensures ReadsAs(negative, t, d, n, x)
  {
    NumberOfShortest(negative, d, before, after, n);
  }

  lemma PlainReads(negative: bool, t: JsString, d: JsString, n: int, x: JsString)
    requires N.WellFormed(N.Finite(false, d, n)) && N.Plain(d, n) && Ends(x)
    requires t == (d + N.Zeros(n - |d|)) + x
    ensures ReadsAs(negative, t, d, n, x)
  {
    IntegerRead(t, d + N.Zeros(n - |d|), x);
    NoZeros(d);
    ShortestReads(negative, t, d + N.Zeros(n - |d|), n, d, 0, n - |d|, n, x);
  }

  lemma IntegerRead(t: JsString, whole: JsString, x: JsString)
    requires whole != [] && N.AllDigits(whole) && whole[0] != N.ZERO && Ends(x) && t == whole + x
    ensures ReadDecimal(t) == Got(Decimal(whole, |whole|), x)
  {
    NoFraction(x);
    NoExponent(x);
    PartsRead(t, whole, x, [], x, 0, x);
    assert whole + [] == whole;
  }

  /** A whole part and a fraction that together are the shortest digits, maybe after zeros. */
  lemma PointReads(
    negative: bool, t: JsString, whole: JsString, fraction: JsString, tail: JsString, d: JsString, before: nat,
    n: int, x: JsString)
    requires N.WellFormed(N.Finite(false, d, n)) && Ends(x) && |whole| == n + before
    requires whole != [] && N.AllDigits(whole) && (|whole| > 1 ==> whole[0] != N.ZERO)
    requires fraction != [] && N.AllDigits(fraction) && whole + fraction == N.Zeros(before) + d
    requires tail == [N.DOT] + fraction + x && t == whole + tail
    ensures ReadsAs(negative, t, d, n, x)
  {
    FractionRead(fraction, x);
    NoExponent(x);
    PartsRead(t, whole, tail, fraction, x, 0, x);
    NoZeros(N.Zeros(before) + d);
    ShortestReads(negative, t, whole + fraction, |whole|, d, before, 0, n, x);
  }

  lemma NoZeros(s: JsString)
    ensures s + N.Zeros(0) == s && N.Zeros(0) + s == s
  {}

  /** One digit, or several with a point after the first, and an exponent. */
  lemma OneDigitReads(negative: bool, t: JsString, d: JsString, n: int, exponent: JsString, x: JsString)
    requires N.WellFormed(N.Finite(false, d, n)) && Ends(x) && exponent == [N.EXP] + (N.Exponent(n - 1) + x)
    requires |d| == 1 && t == d + exponent
    ensures ReadsAs(negative, t, d, n, x)
  {
    ExponentRead(n - 1, exponent, x);
    NoFraction(exponent);
    PartsRead(t, d, exponent, [], exponent, n - 1, x);
    assert d + [] == d;
    NoZeros(d);
    ShortestReads(negative, t, d + [], n, d, 0, 0, n, x);
  }

  lemma DigitsRead(
    negative: bool, t: JsString, d: JsString, first: JsString, others: JsString, n: int, exponent: JsString,
    tail: JsString, x: JsString)
    requires N.WellFormed(N.Finite(false, d, n)) && Ends(x) && exponent == [N.EXP] + (N.Exponent(n - 1) + x)
    requires |first| == 1 && others != [] && N.AllDigits(first) && N.AllDigits(others) && first + others == d
    requires tail == [N.DOT] + others + exponent && t == first + tail
    ensures ReadsAs(negative, t, d, n, x)
  {
    ExponentRead(n - 1, exponent, x);
    FractionRead(others, exponent);
    PartsRead(t, first, tail, others, exponent, n - 1, x);
    NoZeros(d);
    ShortestReads(negative, t, first + others, n, d, 0, 0, n, x);
  }

  lemma Regroup(a: JsString, p: JsString, b: JsString, x: JsString)
    ensures (a + p + b) + x == a + (p + b + x)
    ensures (a + p + b) + x == a + (p + (b + x))
  {}

  lemma PointedReads(negative: bool, d: JsString, n: int, t: JsString, x: JsString)
    requires N.WellFormed(N.Finite(false, d, n)) && Ends(x) && N.Pointed(d, n) && t == d[..n] + [N.DOT] + d[n..] + x
    ensures ReadsAs(negative, t, d, n, x)
  {
    Regroup(d[..n], [N.DOT], d[n..], x);
    NoZeros(d);
    assert d[..n] + d[n..] == d;
    PointReads(negative, t, d[..n], d[n..], [N.DOT] + d[n..] + x, d, 0, n, x);
  }

  lemma SmallReads(negative: bool, d: JsString, n: int, t: JsString, x: JsString)
    requires N.WellFormed(N.Finite(false, d, n)) && Ends(x) && n <= 0
    requires t == [N.ZERO] + [N.DOT] + N.Zeros(-n) + d + x
    ensures ReadsAs(negative, t, d, n, x)
  {
    var fraction := N.Zeros(-n) + d;
    assert [N.ZERO] + [N.DOT] + N.Zeros(-n) + d == [N.ZERO] + [N.DOT] + fraction;
    Regroup([N.ZERO], [N.DOT], fraction, x);
    assert [N.ZERO] + fraction == N.Zeros(1 - n) + d;
    PointReads(negative, t, [N.ZERO], fraction, [N.DOT] + fraction + x, d, 1 - n, n, x);
  }

  lemma ScientificReads(negative: bool, d: JsString, n: int, t: JsString, x: JsString)
    requires N.WellFormed(N.Finite(false, d, n)) && Ends(x)
    requires t == N.Mantissa(d) + [N.EXP] + N.Exponent(n - 1) + x
    ensures ReadsAs(negative, t, d, n, x)
  {
    var exponent := [N.EXP] + (N.Exponent(n - 1) + x);
    Regroup(N.Mantissa(d), [N.EXP], N.Exponent(n - 1), x);
    if |d| == 1 {
      OneDigitReads(negative, t, d, n, exponent, x);
    } else {
      Regroup(d[..1], [N.DOT], d[1..], exponent);
      assert d[..1] + d[1..] == d;
      DigitsRead(negative, t, d, d[..1], d[1..], n, exponent, [N.DOT] + d[1..] + exponent, x);
    }
  }

  /** The four forms of a number without its sign. */
  lemma MagnitudeReads(negative: bool, d: JsString, n: int, t: JsString, x: JsString)
    requires N.WellFormed(N.Finite(false, d, n)) && Ends(x) && t == N.Magnitude(d, n) + x
    ensures ReadsAs(negative, t, d, n, x)
  {
    if N.Plain(d, n) {
      PlainReads(negative, t, d, n, x);
    } else if N.Pointed(d, n) {
      PointedReads(negative, d, n, t, x);
    } else if N.Fraction(n) {
      SmallReads(negative, d, n, t, x);
    } else {
      ScientificReads(negative, d, n, t, x);
    }
  }

  /** The number that a printed one stands for: there is one zero. */
  function Unsigned(x: N.Number): N.Number {
    if x.Zero? then N.Zero(false) else x
  }

  lemma SignRead(negative: bool, s: JsString, t: JsString, v: Decimal, x: JsString)
    requires s == (if negative then [N.MINUS] else []) + t && t != [] && t[0] != N.MINUS
    requires ReadDecimal(t) == Got(v, x)
    ensures ReadNumber(s) == Got(NumberOf(negative, v.digits, v.point), x)
  {
    if negative {
      assert s[1..] == t;
    } else {
      assert s == t;
    }
  }

  lemma FiniteRead(x: N.Number, t: JsString, s: JsString, y: JsString)
    requires N.WellFormed(x) && x.Finite? && ReadsAs(x.negative, t, x.digits, x.exponent, y)
    requires s == (if x.negative then [N.MINUS] else []) + t && t != [] && t[0] != N.MINUS
    ensures ReadNumber(s) == Got(x, y)
  {
    SignRead(x.negative, s, t, ReadDecimal(t).value, y);
  }

  lemma SignedText(x: N.Number, y: JsString)
    requires N.WellFormed(x) && x.Finite?
    ensures var t := N.Magnitude(x.digits, x.exponent) + y;
            && t != [] && t[0] != N.MINUS
            && N.NumberText(x) + y == (if x.negative then [N.MINUS] else []) + t
  {
    N.FormOfText(x.digits, x.exponent);
    var m := N.Magnitude(x.digits, x.exponent);
    assert (m + y)[0] == m[0];
    Regroup([], if x.negative then [N.MINUS] else [], m, y);
  }

  lemma ZeroRead(s: JsString, y: JsString)
    requires Ends(y) && s == [N.ZERO] + y
    ensures ReadNumber(s) == Got(N.Zero(false), y)
  {
    ZeroDecimal(s, y);
    NoZeros(s);
    SignRead(false, s, s, Decimal([N.ZERO], 1), y);
    OneZero();
  }

  lemma ZeroDecimal(s: JsString, y: JsString)
    requires Ends(y) && s == [N.ZERO] + y
    ensures ReadDecimal(s) == Got(Decimal([N.ZERO], 1), y)
  {
    NoFraction(y);
    NoExponent(y);
    PartsRead(s, [N.ZERO], y, [], y, 0, y);
    assert [N.ZERO] + [] == [N.ZERO];
  }

  lemma OneZero()
    ensures NumberOf(false, [N.ZERO], 1) == N.Zero(false)
  {
    assert JsonReader.LeadingZeros([N.ZERO]) == 1 + JsonReader.LeadingZeros([N.ZERO][1..]);
  }

  lemma FiniteTextRead(x: N.Number, y: JsString)
    requires N.WellFormed(x) && x.Finite? && Ends(y)
    ensures ReadNumber(N.NumberText(x) + y) == Got(x, y)
  {
    var t := N.Magnitude(x.digits, x.exponent) + y;
    MagnitudeReads(x.negative, x.digits, x.exponent, t, y);
    SignedText(x, y);
    FiniteRead(x, t, N.NumberText(x) + y, y);
  }

  lemma NumberRead(x: N.Number, y: JsString)
    requires N.WellFormed(x) && (x.Zero? || x.Finite?) && Ends(y)
    ensures ReadNumber(N.NumberText(x) + y) == Got(Unsigned(x), y)
  {
    if x.Finite? {
      FiniteTextRead(x, y);
    } else {
      ZeroRead(N.NumberText(x) + y, y);
    }
  }

  // ---- values

  /** The value that a normal form stands for, its fields in their order. */
  function AsValue(n: Norm): Value
    decreases n, 1
  {
    match n
    case NNull => Null
    case NBool(b) => Bool(b)
    case NNum(x) => Num(x)
    case NStr(s) => Str(s)
    case NArr(items) => Arr(AsItems(items))
    case NObj(fields) => Obj(AsFields(fields))
  }

  function AsItems(items: seq<Norm>): (r: seq<Value>)
    ensures |r| == |items| && forall i :: 0 <= i < |r| ==> r[i] == AsValue(items[i])
    decreases items
  {
    if items == [] then [] else [AsValue(items[0])] + AsItems(items[1..])
  }

  function AsField(f: NField): Field
    decreases f
  {
    Field(f.key, AsValue(f.val))
  }

  function AsFields(fields: seq<NField>): (r: seq<Field>)
    ensures |r| == |fields| && forall i :: 0 <= i < |r| ==> r[i] == AsField(fields[i])
    decreases fields
  {
    if fields == [] then [] else [AsField(fields[0])] + AsFields(fields[1..])
  }

  lemma LiteralRead(n: Norm, s: JsString, x: JsString)
    requires (n.NNull? || n.NBool?) && s == Print(n) + x
    ensures ReadValue(s) == Got(AsValue(n), x)
  {
    var text := Print(n);
    assert text <= s && s[|text|..] == x;
    assert s[0] == text[0] && s[1] == text[1];
  }

  lemma NumberValueRead(v: N.Number, s: JsString, x: JsString)
    requires WellFormedNorm(NNum(v)) && Ends(x) && s == N.NumberText(v) + x
    ensures ReadValue(s) == Got(Num(v), x)
  {
    NumberRead(v, x);
    PrintStarts(NNum(v));
    assert s[0] == N.NumberText(v)[0];
    NumberStarts(s);
    NumberDispatch(s, v, x);
  }

  ghost predicate NoOtherStart(s: JsString) {
    && !Begins(s, '{') && !Begins(s, '[') && !Begins(s, '"')
    && !Begins(s, 'n') && !Begins(s, 't') && !Begins(s, 'f')
  }

  lemma NumberStarts(s: JsString)
    requires s != [] && N.NumberUnit(s[0]) && s[0] != N.EXP
    ensures NoOtherStart(s)
  {}

  lemma NumberDispatch(s: JsString, v: N.Number, x: JsString)
    requires NoOtherStart(s) && ReadNumber(s) == Got(v, x)
    ensures ReadValue(s) == Got(Num(v), x)
  {}

  lemma StringRead(text: JsString, s: JsString, x: JsString)
    requires s == Quote(text) + x
    ensures ReadValue(s) == Got(Str(text), x)
  {
    assert s[1..] == Body(text) + [QUOTE] + x;
    CharsRead(text, x);
  }

  lemma LastElement(s: JsString, v: Value, r: JsString)
    requires ReadValue(s) == Got(v, r) && r != [] && r[0] == CLOSE_ARRAY
    ensures ReadElements(s) == Got([v], r[1..])
  {}

  lemma MoreElements(s: JsString, v: Value, r: JsString, items: seq<Value>, x: JsString)
    requires ReadValue(s) == Got(v, r) && r != [] && r[0] == COMMA && ReadElements(r[1..]) == Got(items, x)
    ensures ReadElements(s) == Got([v] + items, x)
  {}

  lemma LastMember(s: JsString, f: Field, r: JsString)
    requires ReadMember(s) == Got(f, r) && r != [] && r[0] == CLOSE_OBJECT
    ensures ReadMembers(s) == Got([f], r[1..])
  {}

  lemma MoreMembers(s: JsString, f: Field, r: JsString, fields: seq<Field>, x: JsString)
    requires ReadMember(s) == Got(f, r) && r != [] && r[0] == COMMA && ReadMembers(r[1..]) == Got(fields, x)
    ensures ReadMembers(s) == Got([f] + fields, x)
  {}

  /** What follows the first part, without its own first unit. */
  lemma RestTail(parts: seq<JsString>, close: Unit, x: JsString)
    requires parts != []
    ensures Rest(parts, close, x)[1..] == if |parts| == 1 then x else Join(parts[1..], [COMMA]) + [close] + x
  {
    if |parts| == 1 {
      assert Rest(parts, close, x) == [close] + x;
    } else {
      assert Rest(parts, close, x) == [COMMA] + (Join(parts[1..], [COMMA]) + [close] + x);
    }
  }

  lemma {:induction false} ElementsRead(a: seq<Norm>, s: JsString, x: JsString)
    requires a != [] && WellFormedNorm(NArr(a)) && s == Join(PrintItems(a), [COMMA]) + [CLOSE_ARRAY] + x
    ensures ReadElements(s) == Got(AsItems(a), x)
    decreases a, 1
  {
    var p := PrintItems(a);
    var r := Rest(p, CLOSE_ARRAY, x);
    PrintItemsLength(a);
    ValueRead(a[0], s, r);
    RestTail(p, CLOSE_ARRAY, x);
    if |a| == 1 {
      LastElement(s, AsValue(a[0]), r);
      assert a == [a[0]] && AsItems(a) == [AsValue(a[0])];
    } else {
      ElementsRead(a[1..], r[1..], x);
      MoreElements(s, AsValue(a[0]), r, AsItems(a[1..]), x);
    }
  }

  lemma {:induction false} MembersRead(a: seq<NField>, s: JsString, x: JsString)
    requires a != [] && WellFormedNorm(NObj(a)) && s == Join(PrintFields(a), [COMMA]) + [CLOSE_OBJECT] + x
    ensures ReadMembers(s) == Got(AsFields(a), x)
    decreases a, 1
  {
    var p := PrintFields(a);
    var r := Rest(p, CLOSE_OBJECT, x);
    PrintFieldsLength(a);
    PrintFieldsStarts(a);
    MemberRead(a[0], s, r);
    RestTail(p, CLOSE_OBJECT, x);
    if |a| == 1 {
      LastMember(s, AsField(a[0]), r);
      assert a == [a[0]] && AsFields(a) == [AsField(a[0])];
    } else {
      MembersRead(a[1..], r[1..], x);
      MoreMembers(s, AsField(a[0]), r, AsFields(a[1..]), x);
    }
  }

  lemma {:induction false} MemberRead(f: NField, s: JsString, x: JsString)
    requires WellFormedNorm(f.val) && Ends(x) && s == PrintField(f) + x
    ensures ReadMember(s) == Got(AsField(f), x)
    decreases f, 2
  {
    var y := Print(f.val) + x;
    var colon := [COLON] + y;
    ValueRead(f.val, y, x);
    MemberText(f.key, Print(f.val), s, x);
    CharsRead(f.key, colon);
    MemberStep(s, f.key, colon, y, AsValue(f.val), x);
  }

  lemma MemberText(key: JsString, text: JsString, s: JsString, x: JsString)
    requires s == Quote(key) + [COLON] + text + x
    ensures s != [] && s[0] == QUOTE && s[1..] == Body(key) + [QUOTE] + ([COLON] + (text + x))
  {}

  lemma MemberStep(s: JsString, key: JsString, colon: JsString, y: JsString, v: Value, x: JsString)
    requires s != [] && s[0] == QUOTE && ReadChars(s[1..]) == Got(key, colon)
    requires colon == [COLON] + y && ReadValue(y) == Got(v, x)
    ensures ReadMember(s) == Got(Field(key, v), x)
  {
    assert colon[1..] == y;
  }

  lemma EmptyRead(s: JsString, open: Unit, close: Unit, x: JsString)
    requires s == [open] + Join([], [COMMA]) + [close] + x
    ensures |s| >= 2 && s[0] == open && s[1] == close && s[2..] == x
  {}

  lemma ArrayStep(s: JsString, t: JsString, items: seq<Value>, x: JsString)
    requires s != [] && s[0] == OPEN_ARRAY && t == s[1..] && t != [] && t[0] != CLOSE_ARRAY
    requires ReadElements(t) == Got(items, x)
    ensures ReadValue(s) == Got(Arr(items), x)
  {}

  lemma ObjectStep(s: JsString, t: JsString, fields: seq<Field>, x: JsString)
    requires s != [] && s[0] == OPEN_OBJECT && t == s[1..] && t != [] && t[0] != CLOSE_OBJECT
    requires ReadMembers(t) == Got(fields, x)
    ensures ReadValue(s) == Got(Obj(fields), x)
  {}

  lemma EmptyArrayRead(s: JsString, x: JsString)
    requires s == [OPEN_ARRAY] + Join([], [COMMA]) + [CLOSE_ARRAY] + x
    ensures ReadValue(s) == Got(Arr([]), x)
  {
    EmptyRead(s, OPEN_ARRAY, CLOSE_ARRAY, x);
  }

  lemma EmptyObjectRead(s: JsString, x: JsString)
    requires s == [OPEN_OBJECT] + Join([], [COMMA]) + [CLOSE_OBJECT] + x
    ensures ReadValue(s) == Got(Obj([]), x)
  {
    EmptyRead(s, OPEN_OBJECT, CLOSE_OBJECT, x);
  }

  lemma {:induction false} ArrayRead(a: seq<Norm>, s: JsString, x: JsString)
    requires WellFormedNorm(NArr(a)) && Ends(x)
    requires s == [OPEN_ARRAY] + Join(PrintItems(a), [COMMA]) + [CLOSE_ARRAY] + x
    ensures ReadValue(s) == Got(Arr(AsItems(a)), x)
    decreases a, 2
  {
    if a == [] {
      EmptyArrayRead(s, x);
    } else {
      DropFirst(OPEN_ARRAY, Join(PrintItems(a), [COMMA]), [CLOSE_ARRAY], x);
      PrintStarts(a[0]);
      JoinHead(PrintItems(a), CLOSE_ARRAY, x);
      ElementsRead(a, s[1..], x);
      ArrayStep(s, s[1..], AsItems(a), x);
    }
  }

  lemma {:induction false} ObjectRead(a: seq<NField>, s: JsString, x: JsString)
    requires WellFormedNorm(NObj(a)) && Ends(x)
    requires s == [OPEN_OBJECT] + Join(PrintFields(a), [COMMA]) + [CLOSE_OBJECT] + x
    ensures ReadValue(s) == Got(Obj(AsFields(a)), x)
    decreases a, 2
  {
    if a == [] {
      EmptyObjectRead(s, x);
    } else {
      DropFirst(OPEN_OBJECT, Join(PrintFields(a), [COMMA]), [CLOSE_OBJECT], x);
      PrintFieldsStarts(a);
      JoinHead(PrintFields(a), CLOSE_OBJECT, x);
      MembersRead(a, s[1..], x);
      ObjectStep(s, s[1..], AsFields(a), x);
    }
  }

  /** A printed value is read back, whatever may follow it. */
  lemma {:induction false} ValueRead(n: Norm, s: JsString, x: JsString)
    requires WellFormedNorm(n) && Ends(x) && s == Print(n) + x
    ensures ReadValue(s) == Got(AsValue(n), x)
    decreases n, 3
  {
    match n
    case NNull => LiteralRead(n, s, x);
    case NBool(_) => LiteralRead(n, s, x);
    case NNum(v) => NumberValueRead(v, s, x);
    case NStr(text) => StringRead(text, s, x);
    case NArr(items) => ArrayRead(items, s, x);
    case NObj(fields) => ObjectRead(fields, s, x);
  }

  // ---- the value that is read

  /** In every object of a value the keys are in code-unit order, none twice. */
  ghost predicate KeysInOrder(v: Value) {
    match v
    case Arr(items) => forall i :: 0 <= i < |items| ==> KeysInOrder(items[i])
    case Obj(fields) =>
      InCodeUnitOrder(KeyOf, fields) && forall i :: 0 <= i < |fields| ==> KeysInOrder(fields[i].val)
    case _ => true
  }

  ghost predicate Ordered(n: Norm) {
    match n
    case NArr(items) => forall i :: 0 <= i < |items| ==> Ordered(items[i])
    case NObj(fields) => Ascending(NKey, fields) && forall i :: 0 <= i < |fields| ==> Ordered(fields[i].val)
    case _ => true
  }

  lemma {:induction false} NormalIsOrdered(v: Value)
    requires WellFormed(v)
    ensures Ordered(Normalize(v))
    decreases v
  {
    match v
    case Arr(items) =>
      forall i | 0 <= i < |items| ensures Ordered(NormItems(items)[i]) {
        NormalIsOrdered(items[i]);
      }
    case Obj(fields) =>
      var r := SortBy(NKey, NormFields(fields));
      NormFieldsDistinct(fields);
      SortSorts(NKey, NormFields(fields));
      forall j | 0 <= j < |r| ensures Ordered(r[j].val) {
        assert r[j] in multiset(NormFields(fields));
        NormFieldsHolds(fields, r[j]);
        var i :| 0 <= i < |fields| && !fields[i].val.Undefined? &&
                 r[j] == NField(fields[i].key, Normalize(fields[i].val));
        NormalIsOrdered(fields[i].val);
      }
    case _ =>
  }

  /** What a normal form stands for has that normal form, and its keys in order. */
  ghost predicate StandsFor(n: Norm) {
    var v := AsValue(n);
    WellFormed(v) && Printable(v) && KeysInOrder(v) && Normalize(v) == n
  }

  lemma {:induction false} NormStandsFor(n: Norm)
    requires WellFormedNorm(n) && Ordered(n)
    ensures StandsFor(n)
    decreases n
  {
    match n
    case NArr(items) =>
      forall i | 0 <= i < |items| ensures StandsFor(items[i]) { NormStandsFor(items[i]); }
      ItemsStandFor(items);
    case NObj(fields) =>
      forall i | 0 <= i < |fields| ensures StandsFor(fields[i].val) { NormStandsFor(fields[i].val); }
      FieldsStandFor(fields);
    case _ =>
  }

  lemma ItemsStandFor(items: seq<Norm>)
    requires forall i :: 0 <= i < |items| ==> StandsFor(items[i])
    ensures StandsFor(NArr(items))
  {
    assert NormItems(AsItems(items)) == items;
  }

  lemma {:induction false} FieldsNormal(fields: seq<NField>)
    requires forall i :: 0 <= i < |fields| ==> StandsFor(fields[i].val)
    ensures NormFields(AsFields(fields)) == fields
  {
    if fields != [] {
      FieldsNormal(fields[1..]);
      NormFieldsCons(AsField(fields[0]), AsFields(fields[1..]));
    }
  }

  lemma FieldsStandFor(fields: seq<NField>)
    requires Ascending(NKey, fields) && forall i :: 0 <= i < |fields| ==> StandsFor(fields[i].val)
    ensures StandsFor(NObj(fields))
  {
    var r := AsFields(fields);
    FieldsNormal(fields);
    SortedStays(fields);
    SameKeysInOrder(fields, r);
    forall i | 0 <= i < |r|
      ensures WellFormed(r[i].val) && Printable(r[i].val) && KeysInOrder(r[i].val)
    {
      assert StandsFor(fields[i].val) && r[i] == AsField(fields[i]);
    }
    ObjectStandsFor(fields, r);
  }

  lemma SortedStays(fields: seq<NField>)
    requires Ascending(NKey, fields)
    ensures SortBy(NKey, fields) == fields
  {
    AscendingKeys(NKey, fields);
    SortSorts(NKey, fields);
    AscendingUnique(NKey, SortBy(NKey, fields), fields);
  }

  lemma ObjectStandsFor(fields: seq<NField>, r: seq<Field>)
    requires r == AsFields(fields) && NormFields(r) == fields && SortBy(NKey, fields) == fields
    requires InCodeUnitOrder(KeyOf, r) && DistinctKeys(KeyOf, r)
    requires forall i :: 0 <= i < |r| ==> WellFormed(r[i].val) && Printable(r[i].val) && KeysInOrder(r[i].val)
    ensures StandsFor(NObj(fields))
  {}

  lemma SameKeysInOrder(fields: seq<NField>, r: seq<Field>)
    requires Ascending(NKey, fields) && |r| == |fields| && forall i :: 0 <= i < |r| ==> r[i].key == fields[i].key
    ensures InCodeUnitOrder(KeyOf, r) && DistinctKeys(KeyOf, r)
  {
    forall i, j | 0 <= i < j < |r| ensures Less(KeyOf(r[i]), KeyOf(r[j])) {
      assert Less(NKey(fields[i]), NKey(fields[j]));
    }
    AscendingIsCodeUnitOrder(KeyOf, r);
    AscendingKeys(KeyOf, r);
  }

  /**
   * The canonical text is a JSON text. Read back it is the value, up to what JSON ignores, and the keys
   * of every object stand in code-unit order.
   */
  lemma CanonicalTextReads(v: Value) returns (w: Value)
    requires WellFormed(v) && CanonicalText(v).Ok?
    ensures ReadText(CanonicalText(v).value) == Some(w)
    ensures WellFormed(w) && Equivalent(v, w) && KeysInOrder(w)
  {
    var n, text := Normalize(v), CanonicalText(v).value;
    w := AsValue(n);
    TextPrintsNormalForm(v);
    NormalIsOrdered(v);
    NormStandsFor(n);
    NormalFormsAgree(v, w);
    assert text == Print(n) + [];
    ValueRead(n, text, []);
  }
}
