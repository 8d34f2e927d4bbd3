/** Number tokens, as `JSON.stringify` prints them (ECMA-262, Number::toString).
    A finite double is represented by its shortest decimal form
    0.d1d2...dk * 10^exponent, which ECMA-262 uses to print it. */
module JsonNumber {
  import opened JsText

  datatype Number =
    | NaN
    | Infinity(negative: bool)
    | Zero(negative: bool)
    | Finite(negative: bool, digits: JsString, exponent: int)

  predicate IsDigit(u: Unit) { 0x30 <= u <= 0x39 }

  predicate AllDigits(s: JsString) { forall i :: 0 <= i < |s| ==> IsDigit(s[i]) }

  const ZERO: Unit := 0x30
  const DOT: Unit := 0x2E
  const MINUS: Unit := 0x2D
  const PLUS: Unit := 0x2B
  const EXP: Unit := 0x65

  /** Shortest decimal digits: no leading and no trailing zero. */
  predicate WellFormed(x: Number) {
    x.Finite? ==> x.digits != [] && AllDigits(x.digits) && x.digits[0] != ZERO && x.digits[|x.digits| - 1] != ZERO
  }

  function Zeros(n: nat): (r: JsString)
    ensures |r| == n && forall i :: 0 <= i < n ==> r[i] == ZERO
  {
    if n == 0 then [] else [ZERO] + Zeros(n - 1)
  }

  function Decimal(n: nat): (r: JsString)
    ensures r != [] && AllDigits(r)
  {
    if n < 10 then [ZERO + n] else Decimal(n / 10) + [ZERO + n % 10]
  }

  function Exponent(e: int): JsString {
    if e < 0 then [MINUS] + Decimal(-e) else [PLUS] + Decimal(e)
  }

  function Mantissa(d: JsString): JsString
    requires d != []
  {
    if |d| == 1 then d else d[..1] + [DOT] + d[1..]
  }

  predicate Plain(d: JsString, n: int) { |d| <= n <= 21 }
  predicate Pointed(d: JsString, n: int) { !Plain(d, n) && 0 < n <= 21 }
  predicate Fraction(n: int) { -6 < n <= 0 }

  function Magnitude(d: JsString, n: int): JsString
    requires d != []
  {
    if Plain(d, n) then d + Zeros(n - |d|)
    else if Pointed(d, n) then d[..n] + [DOT] + d[n..]
    else if Fraction(n) then [ZERO] + [DOT] + Zeros(-n) + d
    else Mantissa(d) + [EXP] + Exponent(n - 1)
  }

  function NumberText(x: Number): JsString
    requires WellFormed(x) && (x.Zero? || x.Finite?)
  {
    if x.Zero? then [ZERO]
    else (if x.negative then [MINUS] else []) + Magnitude(x.digits, x.exponent)
  }

  predicate NumberUnit(u: Unit) { IsDigit(u) || u == DOT || u == MINUS || u == PLUS || u == EXP }

  predicate AllNumberUnits(s: JsString) { forall i :: 0 <= i < |s| ==> NumberUnit(s[i]) }

  lemma MagnitudeUnits(d: JsString, n: int)
    requires d != [] && AllDigits(d)
    ensures Magnitude(d, n) != [] && AllNumberUnits(Magnitude(d, n))
  {
    if !Plain(d, n) && !Pointed(d, n) && !Fraction(n) {
      assert AllNumberUnits(Mantissa(d));
      assert AllNumberUnits(Exponent(n - 1));
    }
  }

  /** A number token is not empty and consists of number units only. */
  lemma NumberTextUnits(x: Number)
    requires WellFormed(x) && (x.Zero? || x.Finite?)
    ensures NumberText(x) != [] && AllNumberUnits(NumberText(x))
  {
    if x.Finite? { MagnitudeUnits(x.digits, x.exponent); }
  }

  lemma {:induction false} DecimalInjective(a: nat, b: nat)
    requires Decimal(a) == Decimal(b)
    ensures a == b
  {
    if a >= 10 && b >= 10 {
      var p, q := Decimal(a / 10), Decimal(b / 10);
      assert p == Decimal(a)[..|Decimal(a)| - 1] && q == Decimal(b)[..|Decimal(b)| - 1];
      DecimalInjective(a / 10, b / 10);
    }
  }

  lemma {:induction false} LeadingZeros(a: nat, d: JsString, b: nat, e: JsString)
    requires d != [] && e != [] && d[0] != ZERO && e[0] != ZERO
    requires Zeros(a) + d == Zeros(b) + e
    ensures a == b && d == e
  {
    var s, t := Zeros(a) + d, Zeros(b) + e;
    assert s[a] == d[0] && t[b] == e[0];
    assert a == b;
    assert d == s[a..] && e == t[a..];
  }

  lemma TrailingZeros(d: JsString, a: nat, e: JsString, b: nat)
    requires d != [] && e != [] && d[|d| - 1] != ZERO && e[|e| - 1] != ZERO
    requires d + Zeros(a) == e + Zeros(b)
    ensures d == e
  {
    var s, t := d + Zeros(a), e + Zeros(b);
    assert s[|d| - 1] == d[|d| - 1] && t[|e| - 1] == e[|e| - 1];
    assert forall i :: |d| <= i < |s| ==> s[i] == ZERO;
    assert forall i :: |e| <= i < |t| ==> t[i] == ZERO;
    assert |d| == |e|;
    assert d == s[..|d|] && e == t[..|d|];
  }

  lemma MantissaInjective(d: JsString, e: JsString)
    requires d != [] && e != [] && AllDigits(d) && AllDigits(e)
    requires Mantissa(d) == Mantissa(e)
    ensures d == e
  {
    if |d| > 1 && |e| > 1 {
      SplitAtSeparator(DOT, d[..1], d[1..], e[..1], e[1..]);
      assert d == d[..1] + d[1..] && e == e[..1] + e[1..];
    }
  }

  /** Which of the four forms a text has can be read off the text. */
  lemma FormOfText(d: JsString, n: int)
    requires d != [] && AllDigits(d) && d[0] != ZERO
    ensures var t := Magnitude(d, n);
      && (EXP in t <==> !Plain(d, n) && !Pointed(d, n) && !Fraction(n))
      && (DOT !in t && EXP !in t <==> Plain(d, n))
      && (t[0] == ZERO <==> Fraction(n))
      && t[0] != MINUS
  {
    var t := Magnitude(d, n);
    if Plain(d, n) {
    } else if Pointed(d, n) {
      assert t[n] == DOT;
    } else if Fraction(n) {
      assert t[1] == DOT;
    } else {
      assert t[|Mantissa(d)|] == EXP;
    }
  }

  lemma FractionInjective(d: JsString, n: int, e: JsString, m: int)
    requires WellFormed(Finite(false, d, n)) && WellFormed(Finite(false, e, m))
    requires Fraction(n) && Fraction(m) && [ZERO] + [DOT] + Zeros(-n) + d == [ZERO] + [DOT] + Zeros(-m) + e
    ensures d == e && n == m
  {
    var s, t := [ZERO] + [DOT] + Zeros(-n) + d, [ZERO] + [DOT] + Zeros(-m) + e;
    assert s[2..] == Zeros(-n) + d && t[2..] == Zeros(-m) + e;
    LeadingZeros(-n, d, -m, e);
  }

  lemma ExponentInjective(a: int, b: int)
    requires Exponent(a) == Exponent(b)
    ensures a == b
  {
    assert Exponent(a)[0] == Exponent(b)[0];
    assert Decimal(if a < 0 then -a else a) == Exponent(a)[1..];
    assert Decimal(if b < 0 then -b else b) == Exponent(b)[1..];
    DecimalInjective(if a < 0 then -a else a, if b < 0 then -b else b);
  }

  lemma ScientificInjective(d: JsString, a: int, e: JsString, b: int)
    requires d != [] && e != [] && AllDigits(d) && AllDigits(e)
    requires Mantissa(d) + [EXP] + Exponent(a) == Mantissa(e) + [EXP] + Exponent(b)
    ensures d == e && a == b
  {
    SplitAtSeparator(EXP, Mantissa(d), Exponent(a), Mantissa(e), Exponent(b));
    MantissaInjective(d, e);
    ExponentInjective(a, b);
  }

  lemma PointedInjective(d: JsString, n: nat, e: JsString, m: nat)
    requires AllDigits(d) && AllDigits(e) && n <= |d| && m <= |e|
    requires d[..n] + [DOT] + d[n..] == e[..m] + [DOT] + e[m..]
    ensures d == e && n == m
  {
    SplitAtSeparator(DOT, d[..n], d[n..], e[..m], e[m..]);
    assert d == d[..n] + d[n..] && e == e[..m] + e[m..];
  }

  lemma SameForm(d: JsString, n: int, e: JsString, m: int)
    requires d != [] && AllDigits(d) && d[0] != ZERO && e != [] && AllDigits(e) && e[0] != ZERO
    requires Magnitude(d, n) == Magnitude(e, m)
    ensures (Plain(d, n) <==> Plain(e, m)) && (Pointed(d, n) <==> Pointed(e, m)) && (Fraction(n) <==> Fraction(m))
  {
    FormOfText(d, n);
    FormOfText(e, m);
  }

  lemma PlainInjective(d: JsString, n: int, e: JsString, m: int)
    requires d != [] && e != [] && d[|d| - 1] != ZERO && e[|e| - 1] != ZERO
    requires Plain(d, n) && Plain(e, m) && Magnitude(d, n) == Magnitude(e, m)
    ensures d == e && n == m
  {
    TrailingZeros(d, n - |d|, e, m - |e|);
    assert |Magnitude(d, n)| == n && |Magnitude(e, m)| == m;
  }

  lemma ScientificForm(d: JsString, n: int, e: JsString, m: int)
    requires d != [] && e != [] && AllDigits(d) && AllDigits(e)
    requires !Plain(d, n) && !Pointed(d, n) && !Fraction(n) && !Plain(e, m) && !Pointed(e, m) && !Fraction(m)
    requires Magnitude(d, n) == Magnitude(e, m)
    ensures d == e && n == m
  {
    ScientificInjective(d, n - 1, e, m - 1);
  }

  lemma MagnitudeInjective(d: JsString, n: int, e: JsString, m: int)
    requires WellFormed(Finite(false, d, n)) && WellFormed(Finite(false, e, m))
    requires Magnitude(d, n) == Magnitude(e, m)
    ensures d == e && n == m
  {
    SameForm(d, n, e, m);
    if Plain(d, n) {
      PlainInjective(d, n, e, m);
    } else if Fraction(n) {
      FractionInjective(d, n, e, m);
    } else if Pointed(d, n) {
      PointedInjective(d, n, e, m);
    } else {
      ScientificForm(d, n, e, m);
    }
  }

  /** Two numbers print alike exactly when they are equal, reading -0 as 0. */
  lemma NumberTextInjective(x: Number, y: Number)
    requires WellFormed(x) && WellFormed(y)
    requires (x.Zero? || x.Finite?) && (y.Zero? || y.Finite?)
    ensures NumberText(x) == NumberText(y) <==> (x == y || (x.Zero? && y.Zero?))
  {
    if NumberText(x) == NumberText(y) {
      if x.Finite? { FormOfText(x.digits, x.exponent); SignOfText(x); }
      if y.Finite? { FormOfText(y.digits, y.exponent); SignOfText(y); }
      if x.Finite? && y.Finite? {
        assert x.negative == y.negative;
        var k := if x.negative then 1 else 0;
        assert Magnitude(x.digits, x.exponent) == NumberText(x)[k..];
        assert Magnitude(y.digits, y.exponent) == NumberText(y)[k..];
        MagnitudeInjective(x.digits, x.exponent, y.digits, y.exponent);
      }
    }
  }

  lemma SignOfText(x: Number)
    requires WellFormed(x) && x.Finite?
    ensures NumberText(x)[0] == MINUS <==> x.negative
    ensures NumberText(x) != [ZERO]
  {
    FormOfText(x.digits, x.exponent);
    if Fraction(x.exponent) {
      assert Magnitude(x.digits, x.exponent)[1] == DOT;
    }
  }

  /**
   * How a finite number is written: with an exponent exactly if it is at least 10^21 or below 10^-6, with
   * a point exactly if there are digits after it, and otherwise padded with zeros.
   */
  lemma NumberForm(x: Number)
    requires WellFormed(x) && x.Finite?
    ensures var t, k, n := Magnitude(x.digits, x.exponent), |x.digits|, x.exponent;
            && NumberText(x) == (if x.negative then [0x2D] else []) + t
            && (0x65 in t <==> n > 21 || n <= -6)
            && (0x2E in t <==> if n > 21 || n <= -6 then k > 1 else n < k)
            && (-6 < n <= 21 ==> |t| == if n >= k then n else if n > 0 then k + 1 else k + 2 - n)
            && (n > 21 || n <= -6 ==>
                  |t| == k + (if k > 1 then 1 else 0) + 2 + |Decimal(if n > 0 then n - 1 else 1 - n)|)
            && (0x2B in t <==> n > 21)
  {
    FormOfText(x.digits, x.exponent);
    PointOfText(x.digits, x.exponent);
    PlusOfText(x.digits, x.exponent);
  }

  lemma PointOfText(d: JsString, n: int)
    requires d != [] && AllDigits(d)
    ensures DOT in Magnitude(d, n) <==> if n > 21 || n <= -6 then |d| > 1 else n < |d|
  {
    var t := Magnitude(d, n);
    if Plain(d, n) {
    } else if Pointed(d, n) {
      assert t[n] == DOT;
    } else if Fraction(n) {
      assert t[1] == DOT;
    } else {
      assert |d| > 1 ==> t[1] == DOT;
      assert DOT !in Exponent(n - 1);
    }
  }

  lemma PlusOfText(d: JsString, n: int)
    requires d != [] && AllDigits(d)
    ensures PLUS in Magnitude(d, n) <==> n > 21
  {
    var t := Magnitude(d, n);
    if n > 21 {
      assert t[|Mantissa(d)| + 1] == Exponent(n - 1)[0] == PLUS;
    }
  }
}
