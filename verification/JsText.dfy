/** JavaScript strings: sequences of UTF-16 code units, with the code-unit
    order that `<` and `Array.prototype.sort` use on them. */
module JsText {

  type Unit = u: int | 0 <= u < 0x1_0000
  type JsString = seq<Unit>

  /** A character of the basic plane. */
  function Code(c: char): Unit {
    if c as int < 0x1_0000 then c as int else 0
  }

  predicate IsAscii(s: string) {
    forall i :: 0 <= i < |s| ==> s[i] as int < 128
  }

  /** A string literal of the source; all of them are ASCII. */
  function Ascii(s: string): (r: JsString)
    ensures |r| == |s| && forall i :: 0 <= i < |s| ==> r[i] == Code(s[i])
  {
    seq(|s|, i requires 0 <= i < |s| => Code(s[i]))
  }

  lemma AsciiInjective(s: string, t: string)
    requires IsAscii(s)
    requires IsAscii(t)
    ensures Ascii(s) == Ascii(t) <==> s == t
  {
    if Ascii(s) == Ascii(t) {
      assert |s| == |t|;
      forall i | 0 <= i < |s| ensures s[i] == t[i] {
        assert Ascii(s)[i] == Ascii(t)[i];
      }
    }
  }

  predicate Less(a: JsString, b: JsString) {
    b != [] && (a == [] || a[0] < b[0] || (a[0] == b[0] && Less(a[1..], b[1..])))
  }

  lemma {:induction false} LessTotal(a: JsString, b: JsString)
    ensures Less(a, b) || Less(b, a) || a == b
    ensures !(Less(a, b) && Less(b, a))
    ensures !Less(a, a)
  {
    if a != [] {
      LessTotal(a[1..], if b != [] then b[1..] else []);
      if b != [] && a[0] == b[0] {
        assert a == [a[0]] + a[1..] && b == [b[0]] + b[1..];
      }
    }
  }

  lemma {:induction false} LessTransitive(a: JsString, b: JsString, c: JsString)
    requires Less(a, b) && Less(b, c)
    ensures Less(a, c)
  {
    if a != [] && a[0] == b[0] == c[0] {
      LessTransitive(a[1..], b[1..], c[1..]);
    }
  }

  /**
   * The first place where `a` and `b` differ is `d`: there `a` ends, or its unit is the smaller number.
   */
  predicate FirstDifference(a: JsString, b: JsString, d: nat) {
    d <= |a| && d < |b| && a[..d] == b[..d] && (d == |a| || a[d] < b[d])
  }

  /** Code-unit order, told without recursion. */
  ghost predicate Precedes(a: JsString, b: JsString) {
    exists d :: FirstDifference(a, b, d)
  }

  lemma {:induction false} LessFirst(a: JsString, b: JsString) returns (d: nat)
    requires Less(a, b)
    ensures FirstDifference(a, b, d)
  {
    if a == [] || a[0] < b[0] {
      d := 0;
    } else {
      var k := LessFirst(a[1..], b[1..]);
      d := k + 1;
      assert a[..d] == [a[0]] + a[1..][..k] && b[..d] == [b[0]] + b[1..][..k];
    }
  }

  lemma {:induction false} FirstLess(a: JsString, b: JsString, d: nat)
    requires FirstDifference(a, b, d)
    ensures Less(a, b)
  {
    if d > 0 {
      assert a[0] == a[..d][0] == b[..d][0] == b[0];
      assert a[1..][..d - 1] == a[..d][1..] && b[1..][..d - 1] == b[..d][1..];
      FirstLess(a[1..], b[1..], d - 1);
    }
  }

  /** The sort order is the code-unit order. */
  lemma LessIsCodeUnitOrder(a: JsString, b: JsString)
    ensures Less(a, b) <==> Precedes(a, b)
  {
    if Less(a, b) {
      var d := LessFirst(a, b);
    }
    if d :| FirstDifference(a, b, d) {
      FirstLess(a, b, d);
    }
  }

  /** Two texts cut at the first occurrence of a separator agree piece by piece. */
  lemma SplitAtSeparator(c: Unit, p: JsString, q: JsString, p': JsString, q': JsString)
    requires c !in p && c !in p'
    requires p + [c] + q == p' + [c] + q'
    ensures p == p' && q == q'
  {
    var t, t' := p + [c] + q, p' + [c] + q';
    assert t[|p|] == c && forall i :: 0 <= i < |p| ==> t[i] == p[i] != c;
    assert t'[|p'|] == c && forall i :: 0 <= i < |p'| ==> t'[i] == p'[i] != c;
    assert |p| == |p'|;
    assert p == t[..|p|] && p' == t'[..|p|];
    assert q == t[|p| + 1..] && q' == t'[|p| + 1..];
  }

  /** `Array.prototype.join`. */
  function Join(parts: seq<JsString>, separator: JsString): JsString {
    if parts == [] then [] else if |parts| == 1 then parts[0]
    else parts[0] + separator + Join(parts[1..], separator)
  }
}
