/** `Array.prototype.sort` on a copy, ordered by a string key. */
module Sorting {
  import opened JsText

  function Insert<T>(key: T -> JsString, x: T, s: seq<T>): (r: seq<T>)
  {
    if s == [] then [x]
    else if Less(key(s[0]), key(x)) then [s[0]] + Insert(key, x, s[1..])
    else [x] + s
  }

  function SortBy<T>(key: T -> JsString, s: seq<T>): (r: seq<T>)
  {
    if s == [] then [] else Insert(key, s[0], SortBy(key, s[1..]))
  }

  ghost predicate DistinctKeys<T>(key: T -> JsString, s: seq<T>) {
    forall i, j :: 0 <= i < j < |s| ==> key(s[i]) != key(s[j])
  }

  ghost predicate Ascending<T>(key: T -> JsString, s: seq<T>) {
    forall i, j :: 0 <= i < j < |s| ==> Less(key(s[i]), key(s[j]))
  }

  lemma {:induction false} InsertKeeps<T>(key: T -> JsString, x: T, s: seq<T>)
    ensures multiset(Insert(key, x, s)) == multiset(s) + multiset{x}
  {
    if s != [] {
      InsertKeeps(key, x, s[1..]);
      assert s == [s[0]] + s[1..];
    }
  }

  lemma {:induction false} InsertAscending<T>(key: T -> JsString, x: T, s: seq<T>)
    requires Ascending(key, s)
    requires forall y <- s :: key(y) != key(x)
    ensures Ascending(key, Insert(key, x, s))
  {
    if s != [] {
      if Less(key(s[0]), key(x)) {
        InsertAscending(key, x, s[1..]);
        InsertKeeps(key, x, s[1..]);
        var r := Insert(key, x, s[1..]);
        forall i | 0 <= i < |r| ensures Less(key(s[0]), key(r[i])) {
          assert r[i] in multiset(r);
          assert r[i] in s[1..] || r[i] == x;
        }
      } else {
        LessTotal(key(s[0]), key(x));
        forall i | 0 <= i < |s| ensures Less(key(x), key(s[i])) {
          if i > 0 { LessTransitive(key(x), key(s[0]), key(s[i])); }
        }
      }
    }
  }

  /** The result is a permutation of the input, in ascending key order. */
  lemma {:induction false} SortSorts<T>(key: T -> JsString, s: seq<T>)
    ensures multiset(SortBy(key, s)) == multiset(s)
    ensures DistinctKeys(key, s) ==> Ascending(key, SortBy(key, s))
  {
    if s != [] {
      SortSorts(key, s[1..]);
      var r := SortBy(key, s[1..]);
      InsertKeeps(key, s[0], r);
      assert s == [s[0]] + s[1..];
      if DistinctKeys(key, s) {
        forall y | y in r ensures key(y) != key(s[0]) {
          assert y in multiset(r);
          assert y in s[1..];
        }
        InsertAscending(key, s[0], r);
      }
    }
  }

  lemma SameHead<T>(key: T -> JsString, a: seq<T>, b: seq<T>)
    requires Ascending(key, a) && Ascending(key, b)
    requires a != [] && b != [] && a[0] in b && b[0] in a
    ensures a[0] == b[0]
  {
    var i :| 0 <= i < |a| && a[i] == b[0];
    var j :| 0 <= j < |b| && b[j] == a[0];
    LessTotal(key(a[0]), key(b[0]));
  }

  lemma MultisetTail<T>(a: seq<T>)
    requires a != []
    ensures multiset(a[1..]) == multiset(a) - multiset{a[0]}
  {
    assert a == [a[0]] + a[1..];
  }

  lemma AscendingTail<T>(key: T -> JsString, a: seq<T>)
    requires a != [] && Ascending(key, a)
    ensures Ascending(key, a[1..])
  {
  }

  /** An ascending sequence is determined by the elements it holds. */
  lemma {:induction false} AscendingUnique<T>(key: T -> JsString, a: seq<T>, b: seq<T>)
    requires Ascending(key, a) && Ascending(key, b)
    requires multiset(a) == multiset(b)
    ensures a == b
  {
    assert |multiset(a)| == |multiset(b)|;
    if a != [] {
      assert a[0] in multiset(b) && b[0] in multiset(a);
      SameHead(key, a, b);
      MultisetTail(a);
      MultisetTail(b);
      AscendingTail(key, a);
      AscendingTail(key, b);
      AscendingUnique(key, a[1..], b[1..]);
      assert a == [a[0]] + a[1..] && b == [b[0]] + b[1..];
    }
  }

  lemma PermutationKeepsDistinctKeys<T>(key: T -> JsString, a: seq<T>, b: seq<T>)
    requires multiset(a) == multiset(b) && DistinctKeys(key, a)
    ensures DistinctKeys(key, b)
  {
    forall i, j | 0 <= i < j < |b| ensures key(b[i]) != key(b[j]) {
      assert b[i] in multiset(a) && b[j] in multiset(a);
      var k :| 0 <= k < |a| && a[k] == b[i];
      var l :| 0 <= l < |a| && a[l] == b[j];
      if k == l {
        TwiceIn(b, i, j);
        OnceIn(key, a, k);
      }
    }
  }

  lemma TwiceIn<T>(b: seq<T>, i: int, j: int)
    requires 0 <= i < j < |b| && b[i] == b[j]
    ensures multiset(b)[b[i]] >= 2
  {
    assert b == b[..i] + [b[i]] + b[i + 1..j] + [b[j]] + b[j + 1..];
  }

  lemma OnceIn<T>(key: T -> JsString, a: seq<T>, k: int)
    requires 0 <= k < |a| && DistinctKeys(key, a)
    ensures multiset(a)[a[k]] == 1
  {
    assert a == a[..k] + [a[k]] + a[k + 1..];
    assert a[k] !in a[..k] && a[k] !in a[k + 1..];
  }

  /** Sorting by distinct keys has one result, whatever the input order. */
  lemma SortOrderIndependent<T>(key: T -> JsString, a: seq<T>, b: seq<T>)
    requires multiset(a) == multiset(b) && DistinctKeys(key, a)
    ensures SortBy(key, a) == SortBy(key, b)
  {
    SortSorts(key, a);
    SortSorts(key, b);
    PermutationKeepsDistinctKeys(key, a, b);
    AscendingUnique(key, SortBy(key, a), SortBy(key, b));
  }

  ghost predicate SameElements<T>(a: seq<T>, b: seq<T>) {
    (forall x <- a :: x in b) && (forall x <- b :: x in a)
  }

  lemma SameMultiset<T>(key: T -> JsString, a: seq<T>, b: seq<T>)
    requires DistinctKeys(key, a) && DistinctKeys(key, b) && SameElements(a, b)
    ensures multiset(a) == multiset(b)
  {
    forall x | x in a || x in b ensures multiset(a)[x] == multiset(b)[x] {
      var i :| 0 <= i < |a| && a[i] == x;
      var j :| 0 <= j < |b| && b[j] == x;
      OnceIn(key, a, i);
      OnceIn(key, b, j);
    }
  }

  /** Two lists with distinct keys sort to the same list exactly when they hold
      the same elements. */
  lemma SortedEqual<T>(key: T -> JsString, a: seq<T>, b: seq<T>)
    requires DistinctKeys(key, a) && DistinctKeys(key, b)
    ensures SortBy(key, a) == SortBy(key, b) <==> SameElements(a, b)
  {
    if SortBy(key, a) == SortBy(key, b) {
      SortSorts(key, a);
      SortSorts(key, b);
      forall x | x in a ensures x in b { assert x in multiset(b); }
      forall x | x in b ensures x in a { assert x in multiset(a); }
    } else if SameElements(a, b) {
      SameMultiset(key, a, b);
      SortOrderIndependent(key, a, b);
    }
  }

  lemma SortHolds<T>(key: T -> JsString, s: seq<T>)
    ensures SameElements(SortBy(key, s), s) && |SortBy(key, s)| == |s|
  {
    SortSorts(key, s);
    assert |multiset(s)| == |multiset(SortBy(key, s))|;
    forall x | x in s ensures x in SortBy(key, s) { assert x in multiset(SortBy(key, s)); }
    forall x | x in SortBy(key, s) ensures x in s { assert x in multiset(s); }
  }

  // ---- Lists compared up to a relation on their elements ----

  ghost predicate Related<T>(eq: (T, T) -> bool, a: seq<T>, b: seq<T>) {
    (forall x <- a :: exists y <- b :: eq(x, y)) && (forall y <- b :: exists x <- a :: eq(x, y))
  }

  ghost predicate Pointwise<T>(eq: (T, T) -> bool, a: seq<T>, b: seq<T>) {
    |a| == |b| && forall i :: 0 <= i < |a| ==> eq(a[i], b[i])
  }

  function Keys<T>(key: T -> JsString, s: seq<T>): (r: seq<JsString>)
    ensures |r| == |s| && forall i :: 0 <= i < |r| ==> r[i] == key(s[i])
  {
    seq(|s|, i requires 0 <= i < |s| => key(s[i]))
  }

  function Itself(s: JsString): JsString { s }

  lemma AscendingKeys<T>(key: T -> JsString, s: seq<T>)
    requires Ascending(key, s)
    ensures Ascending(Itself, Keys(key, s)) && DistinctKeys(Itself, Keys(key, s)) && DistinctKeys(key, s)
  {
    forall i, j | 0 <= i < j < |s|
      ensures Less(Keys(key, s)[i], Keys(key, s)[j]) && Keys(key, s)[i] != Keys(key, s)[j]
    {
      LessTotal(key(s[i]), key(s[j]));
    }
  }

  lemma KeyWithin<T>(key: T -> JsString, eq: (T, T) -> bool, a: seq<T>, b: seq<T>)
    requires forall x <- a, y <- b :: eq(x, y) ==> key(x) == key(y)
    requires forall x <- a :: exists y <- b :: eq(x, y)
    ensures forall k <- Keys(key, a) :: k in Keys(key, b)
  {
    forall k | k in Keys(key, a) ensures k in Keys(key, b) {
      var i :| 0 <= i < |a| && Keys(key, a)[i] == k;
      assert a[i] in a;
      var y :| y in b && eq(a[i], y);
      var j :| 0 <= j < |b| && b[j] == y;
      assert Keys(key, b)[j] == k;
    }
  }

  lemma RelatedKeys<T>(key: T -> JsString, eq: (T, T) -> bool, a: seq<T>, b: seq<T>)
    requires forall x <- a, y <- b :: eq(x, y) ==> key(x) == key(y)
    requires Related(eq, a, b)
    ensures SameElements(Keys(key, a), Keys(key, b))
  {
    KeyWithin(key, eq, a, b);
    KeyWithin(key, (y: T, x: T) => eq(x, y), b, a);
  }

  /** When related elements share their key, two ascending lists are related
      exactly when they are related item by item. */
  lemma AscendingRelated<T>(key: T -> JsString, eq: (T, T) -> bool, a: seq<T>, b: seq<T>)
    requires Ascending(key, a) && Ascending(key, b)
    requires forall x <- a, y <- b :: eq(x, y) ==> key(x) == key(y)
    ensures Related(eq, a, b) <==> Pointwise(eq, a, b)
  {
    if Related(eq, a, b) {
      RelatedKeys(key, eq, a, b);
      AscendingKeys(key, a);
      AscendingKeys(key, b);
      SameMultiset(Itself, Keys(key, a), Keys(key, b));
      AscendingUnique(Itself, Keys(key, a), Keys(key, b));
      assert |a| == |b|;
      forall i | 0 <= i < |a| ensures eq(a[i], b[i]) {
        assert a[i] in a;
        var y :| y in b && eq(a[i], y);
        var j :| 0 <= j < |b| && b[j] == y;
        assert Keys(key, a)[i] == Keys(key, b)[i];
        assert key(b[i]) == key(b[j]);
      }
    }
    if Pointwise(eq, a, b) {
      forall x | x in a ensures exists y <- b :: eq(x, y) {
        var i :| 0 <= i < |a| && a[i] == x;
        assert b[i] in b;
      }
      forall y | y in b ensures exists x <- a :: eq(x, y) {
        var i :| 0 <= i < |b| && b[i] == y;
        assert a[i] in a;
      }
    }
  }

  lemma SortedRelated<T>(key: T -> JsString, eq: (T, T) -> bool, a: seq<T>, b: seq<T>)
    requires DistinctKeys(key, a) && DistinctKeys(key, b)
    requires forall x <- a, y <- b :: eq(x, y) ==> key(x) == key(y)
    ensures Related(eq, a, b) <==> Pointwise(eq, SortBy(key, a), SortBy(key, b))
  {
    SortHolds(key, a);
    SortHolds(key, b);
    SortSorts(key, a);
    SortSorts(key, b);
    AscendingRelated(key, eq, SortBy(key, a), SortBy(key, b));
  }

  /** Each key is before the next ones, and no key is repeated. */
  ghost predicate InCodeUnitOrder<T>(key: T -> JsString, s: seq<T>) {
    forall i, j :: 0 <= i < j < |s| ==> Precedes(key(s[i]), key(s[j]))
  }

  lemma AscendingIsCodeUnitOrder<T>(key: T -> JsString, s: seq<T>)
    ensures Ascending(key, s) <==> InCodeUnitOrder(key, s)
  {
    forall i, j | 0 <= i < j < |s| ensures Less(key(s[i]), key(s[j])) <==> Precedes(key(s[i]), key(s[j])) {
      LessIsCodeUnitOrder(key(s[i]), key(s[j]));
    }
  }

  /** With distinct keys the result is the input in code-unit order of the keys. */
  lemma SortIsCodeUnitOrder<T>(key: T -> JsString, s: seq<T>)
    requires DistinctKeys(key, s)
    ensures multiset(SortBy(key, s)) == multiset(s) && InCodeUnitOrder(key, SortBy(key, s))
  {
    SortSorts(key, s);
    AscendingIsCodeUnitOrder(key, SortBy(key, s));
  }
}
