/** The artifact cache: entries by hash, evicted least recently used first. */
module ArtifactCache {

  type Hash = string

  datatype CacheEntry = CacheEntry(bytes: nat, lastUsedAt: int)

  type Entries = map<Hash, CacheEntry>

  ghost function Total(m: Entries): nat {
    if m == map[] then 0 else var h :| h in m; m[h].bytes + Total(m - {h})
  }

  lemma {:induction false} TotalRemove(m: Entries, h: Hash)
    requires h in m
    ensures Total(m) == m[h].bytes + Total(m - {h})
    decreases |m|
  {
    var k :| k in m && Total(m) == m[k].bytes + Total(m - {k});
    if k != h {
      TotalRemove(m - {k}, h);
      TotalRemove(m - {h}, k);
      assert m - {k} - {h} == m - {h} - {k};
    }
  }

  function Touch(m: Entries, h: Hash, now: int): Entries {
    if h in m then m[h := m[h].(lastUsedAt := now)] else m
  }

  /** What an LRU eviction down to `cap` bytes leaves of `before`. */
  ghost predicate Evicted(before: Entries, after: Entries, cap: nat, active: set<Hash>) {
    // what is kept is unchanged, and nothing active goes
    && after.Keys <= before.Keys
    && (forall h <- after.Keys :: after[h] == before[h])
    && before.Keys * active <= after.Keys
    // it fits, or everything that is left is active
    && (Total(after) <= cap || after.Keys <= active)
    // nothing evicted was used after something inactive that is kept
    && (forall e <- before.Keys - after.Keys, k <- after.Keys - active :: before[e].lastUsedAt <= before[k].lastUsedAt)
    // and the last eviction was needed
    && (after != before ==> exists last <- before.Keys - after.Keys :: LastNeeded(before, after, cap, last))
  }

  ghost predicate LastNeeded(before: Entries, after: Entries, cap: nat, last: Hash)
    requires last in before
  {
    && (forall e <- before.Keys - after.Keys :: before[e].lastUsedAt <= before[last].lastUsedAt)
    && Total(after) + before[last].bytes > cap
  }

  /** The real sum never grows when entries go. */
  lemma {:induction false} TotalSubset(a: Entries, b: Entries)
    requires a.Keys <= b.Keys && forall h <- a.Keys :: a[h] == b[h]
    ensures Total(a) <= Total(b)
    decreases |b|
  {
    if b != map[] {
      var h :| h in b;
      TotalRemove(b, h);
      if h in a {
        TotalRemove(a, h);
        TotalSubset(a - {h}, b - {h});
      } else {
        TotalSubset(a, b - {h});
      }
    }
  }

  /** Below the cap nothing is evicted. */
  lemma NoEvictionBelowCap(before: Entries, after: Entries, cap: nat, active: set<Hash>)
    requires Evicted(before, after, cap, active) && Total(before) <= cap
    ensures after == before
  {
    if after != before {
      var last :| last in before.Keys - after.Keys && LastNeeded(before, after, cap, last);
      TotalRemove(before, last);
      TotalSubset(after, before - {last});
    }
  }

  ghost predicate DistinctUse(m: Entries) {
    forall h <- m.Keys, k <- m.Keys :: h != k ==> m[h].lastUsedAt != m[k].lastUsedAt
  }

  /** An entry that `a` still keeps was not evicted without need on the way to `b`. */
  lemma NotEvictedForNothing(before: Entries, a: Entries, b: Entries, cap: nat, active: set<Hash>, x: Hash)
    requires Evicted(before, a, cap, active) && Evicted(before, b, cap, active) && DistinctUse(before)
    requires b.Keys <= a.Keys && x in a
    ensures x in b
  {
    if x !in b {
      var last :| last in before.Keys - b.Keys && LastNeeded(before, b, cap, last);
      if last in a.Keys {
        TotalRemove(a, last);
        TotalSubset(b, a - {last});
      }
    }
  }

  lemma KeptTogether(before: Entries, a: Entries, b: Entries, cap: nat, active: set<Hash>, x: Hash, y: Hash)
    requires Evicted(before, a, cap, active) && Evicted(before, b, cap, active) && DistinctUse(before)
    requires x in a && x !in b && y in b
    ensures y in a
  {}

  /** Of two results one is contained in the other: both keep the most recently used. */
  lemma EvictionsNested(before: Entries, a: Entries, b: Entries, cap: nat, active: set<Hash>)
    requires Evicted(before, a, cap, active) && Evicted(before, b, cap, active) && DistinctUse(before)
    ensures a.Keys <= b.Keys || b.Keys <= a.Keys
  {
    if x :| x in a.Keys && x !in b.Keys {
      forall y | y in b.Keys ensures y in a.Keys {
        KeptTogether(before, a, b, cap, active, x, y);
      }
    }
  }

  /** With distinct recencies the four conditions leave exactly one result. */
  lemma EvictionUnique(before: Entries, a: Entries, b: Entries, cap: nat, active: set<Hash>)
    requires Evicted(before, a, cap, active) && Evicted(before, b, cap, active) && DistinctUse(before)
    ensures a == b
  {
    EvictionsNested(before, a, b, cap, active);
    if b.Keys <= a.Keys {
      forall x | x in a.Keys ensures x in b.Keys {
        NotEvictedForNothing(before, a, b, cap, active, x);
      }
    } else {
      forall x | x in b.Keys ensures x in a.Keys {
        NotEvictedForNothing(before, b, a, cap, active, x);
      }
    }
    assert a.Keys == b.Keys;
  }

  ghost predicate Ordered(m: Entries, early: set<Hash>, late: set<Hash>) {
    forall e <- early, l <- late :: e in m && l in m ==> m[e].lastUsedAt <= m[l].lastUsedAt
  }

  /** The keys of `m`, each once, least recently used first. */
  ghost predicate ByRecency(m: Entries, order: seq<Hash>) {
    && (forall h :: h in order <==> h in m)
    && (forall i, j :: 0 <= i < j < |order| ==> order[i] != order[j])
    && (forall i, j :: 0 <= i < j < |order| && order[i] in m && order[j] in m ==>
          m[order[i]].lastUsedAt <= m[order[j]].lastUsedAt)
  }

  lemma ByRecencyAppend(m: Entries, left: Entries, order: seq<Hash>, h: Hash)
    requires left.Keys <= m.Keys && h in left
    requires ByRecency(m - left.Keys, order) && Ordered(m, m.Keys - left.Keys, left.Keys)
    requires forall l <- left.Keys :: m[h].lastUsedAt <= m[l].lastUsedAt
    ensures ByRecency(m - (left - {h}).Keys, order + [h])
    ensures Ordered(m, m.Keys - (left - {h}).Keys, (left - {h}).Keys)
  {
    var next := order + [h];
    var gone := m - (left - {h}).Keys;
    forall g ensures g in next <==> g in gone {
      assert g in next <==> g in order || g == h;
    }
    forall i, j | 0 <= i < j < |next| && next[i] in gone && next[j] in gone
      ensures gone[next[i]].lastUsedAt <= gone[next[j]].lastUsedAt
    {
      assert next[i] == order[i] && order[i] in order;
      if j < |order| {
        assert order[j] in order;
      }
    }
  }

  ghost function Elements(s: seq<Hash>): set<Hash> {
    set h | h in s
  }

  lemma FirstOfSuffix(m: Entries, order: seq<Hash>, i: nat)
    requires ByRecency(m, order) && i < |order|
    ensures order[i] in Elements(order[i..])
    ensures Elements(order[i + 1..]) == Elements(order[i..]) - {order[i]}
    ensures forall l <- Elements(order[i..]) :: l in m && order[i] in m && m[order[i]].lastUsedAt <= m[l].lastUsedAt
  {
    assert order[i..] == [order[i]] + order[i + 1..];
    forall k | i < k < |order| ensures order[k] in order[i..] && order[k] != order[i] {}
    forall l | l in order[i..] ensures l in m && m[order[i]].lastUsedAt <= m[l].lastUsedAt {
      var k :| i <= k < |order| && order[k] == l;
    }
  }

  /** How far an eviction has come: the entries in `todo` have not been looked at yet. */
  ghost predicate Evicting(before: Entries, now: Entries, todo: set<Hash>, active: set<Hash>) {
    && todo <= now.Keys <= before.Keys
    && (forall h <- now.Keys :: now[h] == before[h])
    && before.Keys * active <= now.Keys
    && now.Keys - todo <= active
    && Ordered(before, before.Keys - todo, todo)
  }

  lemma EvictingAdvances(before: Entries, now: Entries, hash: Hash, todo: set<Hash>, active: set<Hash>)
    requires Evicting(before, now, todo, active) && hash in todo
    requires forall l <- todo :: before[hash].lastUsedAt <= before[l].lastUsedAt
    ensures Evicting(before, if hash in active then now else now - {hash}, todo - {hash}, active)
  {
  }

  lemma LastIsLatest(before: Entries, now: Entries, hash: Hash, todo: set<Hash>, cap: nat, active: set<Hash>)
    requires Evicting(before, now, todo, active) && hash in todo && Total(now) > cap
    ensures LastNeeded(before, now - {hash}, cap, hash)
  {
    TotalRemove(now, hash);
  }

  lemma EvictingEnds(before: Entries, now: Entries, todo: set<Hash>, cap: nat, active: set<Hash>)
    requires Evicting(before, now, todo, active)
    requires Total(now) <= cap || todo == {}
    requires now != before ==> exists last <- before.Keys - now.Keys :: LastNeeded(before, now, cap, last)
    ensures Evicted(before, now, cap, active)
  {
    forall e, k | e in before.Keys - now.Keys && k in now.Keys - active
      ensures before[e].lastUsedAt <= before[k].lastUsedAt
    {
      assert k in todo;
    }
  }

  class Cache {
    const maxBytes: nat
    var entries: Entries

    constructor (maxBytes: nat, found: Entries)
      ensures this.maxBytes == maxBytes && entries == found
    {
      this.maxBytes := maxBytes;
      entries := found;
    }

    method TotalBytes() returns (total: nat)
      ensures total == Total(entries)
    {
      total := 0;
      var left := entries;
      while left != map[]
        invariant left.Keys <= entries.Keys && forall h <- left.Keys :: left[h] == entries[h]
        invariant total + Total(left) == Total(entries)
        decreases |left|
      {
        var h :| h in left;
        TotalRemove(left, h);
        total := total + left[h].bytes;
        left := left - {h};
      }
    }

    method TouchEntry(hash: Hash, now: int)
      modifies this
      ensures entries == Touch(old(entries), hash, now)
    {
      if hash in entries {
        entries := entries[hash := entries[hash].(lastUsedAt := now)];
      }
    }

    method LeastRecent(left: Entries) returns (least: Hash)
      requires left != map[]
      ensures least in left && forall l <- left.Keys :: left[least].lastUsedAt <= left[l].lastUsedAt
    {
      least :| least in left;
      var rest := left - {least};
      while rest != map[]
        invariant least in left && rest.Keys <= left.Keys
        invariant forall l <- left.Keys - rest.Keys :: left[least].lastUsedAt <= left[l].lastUsedAt
        decreases |rest|
      {
        var h :| h in rest;
        if left[h].lastUsedAt < left[least].lastUsedAt {
          least := h;
        }
        rest := rest - {h};
      }
    }

    /** The library sort; entries used at the same time may come in either order. */
    method SortedByRecency() returns (order: seq<Hash>)
      ensures ByRecency(entries, order)
    {
      order := [];
      var left := entries;
      while left != map[]
        invariant left.Keys <= entries.Keys && forall h <- left.Keys :: left[h] == entries[h]
        invariant ByRecency(entries - left.Keys, order)
        invariant Ordered(entries, entries.Keys - left.Keys, left.Keys)
        decreases |left|
      {
        var h := LeastRecent(left);
        ByRecencyAppend(entries, left, order, h);
        order := order + [h];
        left := left - {h};
      }
      assert entries - left.Keys == entries;
    }

    /** Evicts least recently used entries that are not active until the rest fits. */
    method EvictIfNeeded(active: set<Hash>)
      modifies this
      ensures Evicted(old(entries), entries, maxBytes, active)
    {
      var total := TotalBytes();
      if total <= maxBytes {
        return;
      }
      var order := SortedByRecency();
      ghost var before, last: Hash := entries, "";
      assert order[0..] == order;
      var i := 0;
      while i < |order| && total > maxBytes
        invariant 0 <= i <= |order|
        invariant total == Total(entries)
        invariant Evicting(before, entries, Elements(order[i..]), active)
        invariant entries == before ||
                  (last in before.Keys - entries.Keys && LastNeeded(before, entries, maxBytes, last))
      {
        var hash := order[i];
        FirstOfSuffix(before, order, i);
        EvictingAdvances(before, entries, hash, Elements(order[i..]), active);
        if hash !in active {
          LastIsLatest(before, entries, hash, Elements(order[i..]), maxBytes, active);
          TotalRemove(entries, hash);
          total := total - entries[hash].bytes;
          entries := entries - {hash};
          last := hash;
        }
        i := i + 1;
      }
      EvictingEnds(before, entries, Elements(order[i..]), maxBytes, active);
    }

    /** The synchronous end of a download: the entry is recorded, then the cache is trimmed. */
    method CommitDownload(hash: Hash, bytes: nat, now: int, active: set<Hash>)
      modifies this
      ensures Evicted(old(entries)[hash := CacheEntry(bytes, now)], entries, maxBytes, active)
    {
      entries := entries[hash := CacheEntry(bytes, now)];
      EvictIfNeeded(active);
    }
  }
}
