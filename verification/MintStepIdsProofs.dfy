/** `mintStepIds` only repairs ids. */
module MintStepIdsProofs {
  import opened JsText
  import opened CanonicalJson
  import opened MintStepIds

  // ---- The ids of a tree, and the tree without them ----

  /** The ids of the step nodes, in document order. */
  function Ids(node: Value): seq<Value>
    decreases node, 1
  {
    if !node.Obj? then []
    else
      var shape := ShapeOf(node.fields);
      [Get(node.fields, ID)] + IdsAt(node.fields, shape.loop) +
      (if shape.branches.None? then [] else IdsOfLanes(node.fields[shape.branches.value].val.items)) +
      IdsAt(node.fields, shape.otherwise)
  }

  function IdsAt(fields: seq<Field>, at: Option<nat>): seq<Value>
    requires HoldsArray(fields, at)
    decreases fields, 1
  {
    if at.None? then [] else IdsOfList(fields[at.value].val.items)
  }

  function IdsOfList(items: seq<Value>): seq<Value>
    decreases items
  {
    if items == [] then [] else Ids(items[0]) + IdsOfList(items[1..])
  }

  function IdsOfLane(lane: Value): seq<Value>
    decreases lane, 0
  {
    if !lane.Obj? then [] else IdsAt(lane.fields, ArrayAt(lane.fields, STEPS))
  }

  function IdsOfLanes(lanes: seq<Value>): seq<Value>
    decreases lanes
  {
    if lanes == [] then [] else IdsOfLane(lanes[0]) + IdsOfLanes(lanes[1..])
  }

  function Drop(fields: seq<Field>, key: JsString): seq<Field> {
    var n := KeyIndex(fields, key);
    if n < |fields| then fields[..n] + fields[n + 1..] else fields
  }

  /** The tree with the id of every step node removed. */
  function Erase(node: Value): Value
    decreases node, 1
  {
    if !node.Obj? then node
    else
      var shape := ShapeOf(node.fields);
      var branches := if shape.branches.None? then [] else EraseLanes(node.fields[shape.branches.value].val.items);
      var loop, otherwise := EraseAt(node.fields, shape.loop), EraseAt(node.fields, shape.otherwise);
      Obj(Drop(Assemble(node.fields, shape, loop, branches, otherwise), ID))
  }

  function EraseAt(fields: seq<Field>, at: Option<nat>): seq<Value>
    requires HoldsArray(fields, at)
    decreases fields, 1
  {
    if at.None? then [] else EraseList(fields[at.value].val.items)
  }

  function EraseList(items: seq<Value>): seq<Value>
    decreases items
  {
    if items == [] then [] else [Erase(items[0])] + EraseList(items[1..])
  }

  function EraseLane(lane: Value): Value
    decreases lane, 0
  {
    if !lane.Obj? || ArrayAt(lane.fields, STEPS).None? then lane
    else
      var at := ArrayAt(lane.fields, STEPS);
      Obj(WithItems(lane.fields, at, EraseAt(lane.fields, at)))
  }

  function EraseLanes(lanes: seq<Value>): seq<Value>
    decreases lanes
  {
    if lanes == [] then [] else [EraseLane(lanes[0])] + EraseLanes(lanes[1..])
  }

  // ---- Rewriting a node keeps its shape ----

  ghost predicate SameKeys(a: seq<Field>, b: seq<Field>) {
    |a| == |b| && forall i :: 0 <= i < |a| ==> a[i].key == b[i].key
  }

  lemma {:induction false} SameKeysIndex(a: seq<Field>, b: seq<Field>, key: JsString)
    requires SameKeys(a, b)
    ensures KeyIndex(a, key) == KeyIndex(b, key)
  {
  }

  lemma KeysDiffer()
    ensures ID != KIND && ID != STEPS && ID != BRANCHES && ID != ELSE
    ensures KIND != STEPS && KIND != BRANCHES && KIND != ELSE && STEPS != BRANCHES && STEPS != ELSE && BRANCHES != ELSE
    ensures FOR_EACH != BRANCH
  {
    assert KIND[0] == 0x6B && ELSE[0] == 0x65;
  }

  lemma {:induction false} PutOther(fields: seq<Field>, key: JsString, val: Value, other: JsString)
    requires other != key
    ensures Get(Put(fields, key, val), other) == Get(fields, other)
    ensures ArrayAt(Put(fields, key, val), other) == ArrayAt(fields, other)
  {
    var p := Put(fields, key, val);
    var n, m := KeyIndex(fields, other), KeyIndex(p, other);
    if n < |fields| {
      assert p[n].key == other;
      assert m == n;
    }
  }

  lemma {:induction false} PutGet(fields: seq<Field>, key: JsString, val: Value)
    ensures Get(Put(fields, key, val), key) == val
  {
    var p := Put(fields, key, val);
    var n := KeyIndex(fields, key);
    assert p[n] == Field(key, val);
    assert KeyIndex(p, key) == n;
  }

  lemma ItemLookup(fields: seq<Field>, at: Option<nat>, items: seq<Value>, key: JsString)
    requires HoldsArray(fields, at)
    ensures ArrayAt(WithItems(fields, at, items), key) == ArrayAt(fields, key)
    ensures (at.Some? ==> fields[at.value].key != key) ==> Get(WithItems(fields, at, items), key) == Get(fields, key)
  {
    SameKeysIndex(fields, WithItems(fields, at, items), key);
  }

  /** Replacing an array by an array leaves every lookup as it is. */
  lemma WithItemsKeeps(fields: seq<Field>, at: Option<nat>, items: seq<Value>)
    requires HoldsArray(fields, at) && (at.Some? ==> fields[at.value].key != KIND && fields[at.value].key != ID)
    ensures var r := WithItems(fields, at, items);
      SameKeys(fields, r) && ShapeOf(r) == ShapeOf(fields) && Get(r, ID) == Get(fields, ID)
  {
    ItemsKeepShape(fields, at, items);
    ItemLookup(fields, at, items, ID);
  }

  lemma ItemsKeepShape(fields: seq<Field>, at: Option<nat>, items: seq<Value>)
    requires HoldsArray(fields, at) && (at.Some? ==> fields[at.value].key != KIND)
    ensures ShapeOf(WithItems(fields, at, items)) == ShapeOf(fields)
  {
    ItemLookup(fields, at, items, KIND);
    ItemLookup(fields, at, items, STEPS);
    ItemLookup(fields, at, items, BRANCHES);
    ItemLookup(fields, at, items, ELSE);
  }

  ghost predicate HasLists(r: seq<Field>, shape: Shape, loop: seq<Value>, branches: seq<Value>, otherwise: seq<Value>) {
    && (shape.loop.Some? ==> shape.loop.value < |r| && r[shape.loop.value].val == Arr(loop))
    && (shape.branches.Some? ==> shape.branches.value < |r| && r[shape.branches.value].val == Arr(branches))
    && (shape.otherwise.Some? ==> shape.otherwise.value < |r| && r[shape.otherwise.value].val == Arr(otherwise))
  }

  lemma ShapeKeys(fields: seq<Field>)
    ensures var shape := ShapeOf(fields);
      && (shape.loop.Some? ==> shape.branches.None? && shape.otherwise.None? && fields[shape.loop.value].key == STEPS)
      && (shape.branches.Some? ==> fields[shape.branches.value].key == BRANCHES)
      && (shape.otherwise.Some? ==> fields[shape.otherwise.value].key == ELSE)
  {
    KeysDiffer();
  }

  lemma AssembleShape(fields: seq<Field>, loop: seq<Value>, branches: seq<Value>, otherwise: seq<Value>)
    ensures var shape := ShapeOf(fields);
      var r := Assemble(fields, shape, loop, branches, otherwise);
      ShapeOf(r) == shape && Get(r, ID) == Get(fields, ID) && SameKeys(fields, r)
  {
    KeysDiffer();
    ShapeKeys(fields);
    var shape := ShapeOf(fields);
    WithItemsKeeps(fields, shape.loop, loop);
    var r1 := WithItems(fields, shape.loop, loop);
    WithItemsKeeps(r1, shape.branches, branches);
    var r2 := WithItems(r1, shape.branches, branches);
    WithItemsKeeps(r2, shape.otherwise, otherwise);
  }

  lemma AssembleAt(fields: seq<Field>, shape: Shape, loop: seq<Value>, branches: seq<Value>, otherwise: seq<Value>)
    requires HoldsArray(fields, shape.loop) && HoldsArray(fields, shape.branches) && HoldsArray(fields, shape.otherwise)
    requires shape.loop.Some? ==> shape.branches.None? && shape.otherwise.None?
    requires shape.branches.Some? ==> shape.branches != shape.otherwise
    ensures HasLists(Assemble(fields, shape, loop, branches, otherwise), shape, loop, branches, otherwise)
  {
  }

  lemma AssembleLists(fields: seq<Field>, loop: seq<Value>, branches: seq<Value>, otherwise: seq<Value>)
    ensures var shape := ShapeOf(fields);
            HasLists(Assemble(fields, shape, loop, branches, otherwise), shape, loop, branches, otherwise)
  {
    KeysDiffer();
    ShapeKeys(fields);
    AssembleAt(fields, ShapeOf(fields), loop, branches, otherwise);
  }

  lemma PutKeepsAt(r: seq<Field>, id: Value, at: nat)
    requires at < |r| && r[at].key != ID
    ensures at < |Put(r, ID, id)| && Put(r, ID, id)[at] == r[at]
  {}

  lemma PutLists(r: seq<Field>, id: Value, shape: Shape, loop: seq<Value>, branches: seq<Value>, otherwise: seq<Value>)
    requires shape == ShapeOf(r) && HasLists(r, shape, loop, branches, otherwise)
    ensures HasLists(Put(r, ID, id), shape, loop, branches, otherwise)
  {
    KeysDiffer();
    ShapeKeys(r);
    if shape.loop.Some? { PutKeepsAt(r, id, shape.loop.value); }
    if shape.branches.Some? { PutKeepsAt(r, id, shape.branches.value); }
    if shape.otherwise.Some? { PutKeepsAt(r, id, shape.otherwise.value); }
  }

  /** A rewritten node has the shape of the original, its new lists and its id. */
  lemma RewrittenShape(fields: seq<Field>, loop: seq<Value>, branches: seq<Value>, otherwise: seq<Value>, id: Value)
    ensures var shape := ShapeOf(fields);
      var r := Put(Assemble(fields, shape, loop, branches, otherwise), ID, id);
      ShapeOf(r) == shape && Get(r, ID) == id && HasLists(r, shape, loop, branches, otherwise)
  {
    KeysDiffer();
    AssembleShape(fields, loop, branches, otherwise);
    AssembleLists(fields, loop, branches, otherwise);
    var a := Assemble(fields, ShapeOf(fields), loop, branches, otherwise);
    PutShape(a, id);
    PutLists(a, id, ShapeOf(fields), loop, branches, otherwise);
  }

  lemma PutShape(a: seq<Field>, id: Value)
    ensures ShapeOf(Put(a, ID, id)) == ShapeOf(a) && Get(Put(a, ID, id), ID) == id
  {
    PutKeepsShape(a, id);
    PutGet(a, ID, id);
  }

  lemma PutKeepsShape(a: seq<Field>, id: Value)
    ensures ShapeOf(Put(a, ID, id)) == ShapeOf(a)
  {
    KeysDiffer();
    PutOther(a, ID, id, KIND);
    PutOther(a, ID, id, STEPS);
    PutOther(a, ID, id, BRANCHES);
    PutOther(a, ID, id, ELSE);
    SameShape(Put(a, ID, id), a);
  }

  lemma SameShape(a: seq<Field>, b: seq<Field>)
    requires Get(a, KIND) == Get(b, KIND) && ArrayAt(a, STEPS) == ArrayAt(b, STEPS)
    requires ArrayAt(a, BRANCHES) == ArrayAt(b, BRANCHES) && ArrayAt(a, ELSE) == ArrayAt(b, ELSE)
    ensures ShapeOf(a) == ShapeOf(b)
  {}

  // ---- The ids that come out ----

  /** The ids repaired one by one, left to right. */
  function Repair(mint: nat -> JsString, ids: seq<Value>, st: State): (seq<Value>, State) {
    if ids == [] then ([], st)
    else
      var (id, st1) := MintId(mint, ids[0], st);
      var (rest, st2) := Repair(mint, ids[1..], st1);
      ([Str(id)] + rest, st2)
  }

  lemma {:induction false} RepairConcat(mint: nat -> JsString, a: seq<Value>, b: seq<Value>, st: State)
    ensures var (r, st1) := Repair(mint, a, st);
      var (s, st2) := Repair(mint, b, st1);
      Repair(mint, a + b, st) == (r + s, st2)
  {
    if a == [] {
      assert a + b == b;
      assert [] + Repair(mint, b, st).0 == Repair(mint, b, st).0;
    } else {
      var (id, st1) := MintId(mint, a[0], st);
      RepairConcat(mint, a[1..], b, st1);
      assert (a + b)[1..] == a[1..] + b;
      var (r, st2) := Repair(mint, a[1..], st1);
      var (s, st3) := Repair(mint, b, st2);
      assert [Str(id)] + (r + s) == ([Str(id)] + r) + s;
    }
  }

  lemma {:induction false} MintedIds(mint: nat -> JsString, node: Value, st: State)
    ensures var (v, st') := MintNode(mint, node, st); Repair(mint, Ids(node), st) == (Ids(v), st')
    decreases node, 1
  {
    if node.Obj? {
      var fields, shape := node.fields, ShapeOf(node.fields);
      var (id, st1) := MintId(mint, Get(fields, ID), st);
      var (loop, st2) := MintAt(mint, fields, shape.loop, st1);
      var (branches, st3) := if shape.branches.None? then ([], st2)
        else MintLanes(mint, fields[shape.branches.value].val.items, st2);
      var (otherwise, st4) := MintAt(mint, fields, shape.otherwise, st3);
      RewrittenShape(fields, loop, branches, otherwise, Str(id));
      MintedAt(mint, fields, shape.loop, st1);
      if shape.branches.Some? { MintedLanes(mint, fields[shape.branches.value].val.items, st2); }
      MintedAt(mint, fields, shape.otherwise, st3);
      var b := if shape.branches.None? then [] else IdsOfLanes(fields[shape.branches.value].val.items);
      RepairFour(mint, Get(fields, ID), IdsAt(fields, shape.loop), b, IdsAt(fields, shape.otherwise), st);
    }
  }

  lemma RepairFour(mint: nat -> JsString, id: Value, a: seq<Value>, b: seq<Value>, c: seq<Value>, st: State)
    ensures var (s, st1) := MintId(mint, id, st);
      var (ra, st2) := Repair(mint, a, st1);
      var (rb, st3) := Repair(mint, b, st2);
      var (rc, st4) := Repair(mint, c, st3);
      Repair(mint, [id] + a + b + c, st) == ([Str(s)] + ra + rb + rc, st4)
  {
    RepairConcat(mint, [id] + a + b, c, st);
    RepairConcat(mint, [id] + a, b, st);
    RepairConcat(mint, [id], a, st);
    assert [id][1..] == [];
  }

  lemma {:induction false} MintedAt(mint: nat -> JsString, fields: seq<Field>, at: Option<nat>, st: State)
    requires HoldsArray(fields, at)
    ensures var (items, st') := MintAt(mint, fields, at, st);
      Repair(mint, IdsAt(fields, at), st) == (IdsOfList(items), st')
    decreases fields, 1
  {
    if at.Some? { MintedList(mint, fields[at.value].val.items, st); }
  }

  lemma {:induction false} MintedList(mint: nat -> JsString, items: seq<Value>, st: State)
    ensures var (r, st') := MintList(mint, items, st); Repair(mint, IdsOfList(items), st) == (IdsOfList(r), st')
    decreases items
  {
    if items != [] {
      var (head, st1) := MintNode(mint, items[0], st);
      var (tail, st2) := MintList(mint, items[1..], st1);
      MintedIds(mint, items[0], st);
      MintedList(mint, items[1..], st1);
      RepairConcat(mint, Ids(items[0]), IdsOfList(items[1..]), st);
      assert ([head] + tail)[1..] == tail;
    }
  }

  lemma {:induction false} MintedLane(mint: nat -> JsString, lane: Value, st: State)
    ensures var (r, st') := MintLane(mint, lane, st); Repair(mint, IdsOfLane(lane), st) == (IdsOfLane(r), st')
    decreases lane, 0
  {
    if lane.Obj? && ArrayAt(lane.fields, STEPS).Some? {
      var at := ArrayAt(lane.fields, STEPS);
      var (items, st1) := MintAt(mint, lane.fields, at, st);
      MintedAt(mint, lane.fields, at, st);
      SameKeysIndex(lane.fields, WithItems(lane.fields, at, items), STEPS);
    }
  }

  lemma {:induction false} MintedLanes(mint: nat -> JsString, lanes: seq<Value>, st: State)
    ensures var (r, st') := MintLanes(mint, lanes, st); Repair(mint, IdsOfLanes(lanes), st) == (IdsOfLanes(r), st')
    decreases lanes
  {
    if lanes != [] {
      var (head, st1) := MintLane(mint, lanes[0], st);
      var (tail, st2) := MintLanes(mint, lanes[1..], st1);
      MintedLane(mint, lanes[0], st);
      MintedLanes(mint, lanes[1..], st1);
      RepairConcat(mint, IdsOfLane(lanes[0]), IdsOfLanes(lanes[1..]), st);
      assert ([head] + tail)[1..] == tail;
    }
  }

  // ---- What repairing a list of ids guarantees ----

  /** The mints that repairing draws are well-formed ids, each new: the ids of
      the tree and the seen ids do not contain them, and none repeats. */
  ghost predicate FreshMints(mint: nat -> JsString, ids: seq<Value>, st: State) {
    var end := Repair(mint, ids, st).1.next;
    && (forall n: nat :: st.next <= n < end ==> IsStepId(mint(n)) && mint(n) !in st.seen && Str(mint(n)) !in ids)
    && (forall m: nat, n: nat :: st.next <= m < n < end ==> mint(m) != mint(n))
  }

  lemma FreshMintsLater(mint: nat -> JsString, ids: seq<Value>, st: State)
    requires FreshMints(mint, ids, st) && ids != []
    ensures FreshMints(mint, ids[1..], MintId(mint, ids[0], st).1)
    ensures NeedsMint(ids[0], st.seen) ==>
      IsStepId(mint(st.next)) && mint(st.next) !in st.seen && Str(mint(st.next)) !in ids
  {
    var st1 := MintId(mint, ids[0], st).1;
    RepairMints(mint, ids[1..], st1);
    assert Repair(mint, ids, st).1 == Repair(mint, ids[1..], st1).1;
    assert ids[0] in ids && forall v <- ids[1..] :: v in ids;
  }

  ghost predicate ValidIds(ids: seq<Value>, seen: set<JsString>) {
    && (forall i :: 0 <= i < |ids| ==> ids[i].Str? && IsStepId(ids[i].s) && ids[i].s !in seen)
    && (forall i, j :: 0 <= i < j < |ids| ==> ids[i] != ids[j])
  }

  /** A well-formed id that was not seen, here or before. */
  ghost predicate FirstSeen(ids: seq<Value>, i: int, seen: set<JsString>)
    requires 0 <= i < |ids|
  {
    ids[i].Str? && IsStepId(ids[i].s) && ids[i].s !in seen && ids[i] !in ids[..i]
  }

  function Texts(ids: seq<Value>): set<JsString> { set v | v in ids && v.Str? :: v.s }

  /** What is first seen later is first seen in the rest of the list, too. */
  lemma FirstSeenLater(mint: nat -> JsString, ids: seq<Value>, i: int, st: State)
    requires FreshMints(mint, ids, st) && 0 < i < |ids| && FirstSeen(ids, i, st.seen)
    ensures FirstSeen(ids[1..], i - 1, MintId(mint, ids[0], st).1.seen)
  {
    FreshMintsLater(mint, ids, st);
    assert ids[0] in ids[..i] && ids[i] in ids;
    assert ids[1..][..i - 1] == ids[..i][1..];
    assert forall v <- ids[..i][1..] :: v in ids[..i];
  }

  lemma {:induction false} RepairValid(mint: nat -> JsString, ids: seq<Value>, st: State)
    requires FreshMints(mint, ids, st)
    ensures var (r, st') := Repair(mint, ids, st);
      |r| == |ids| && ValidIds(r, st.seen) && st'.seen == st.seen + Texts(r)
  {
    if ids != [] {
      var (id, st1) := MintId(mint, ids[0], st);
      var (rest, st2) := Repair(mint, ids[1..], st1);
      FreshMintsLater(mint, ids, st);
      RepairValid(mint, ids[1..], st1);
      assert Texts([Str(id)] + rest) == {id} + Texts(rest);
    }
  }

  lemma {:induction false} RepairKeeps(mint: nat -> JsString, ids: seq<Value>, st: State, i: nat)
    requires FreshMints(mint, ids, st) && i < |ids| && FirstSeen(ids, i, st.seen)
    ensures i < |Repair(mint, ids, st).0| && Repair(mint, ids, st).0[i] == ids[i]
    decreases i
  {
    if i > 0 {
      FreshMintsLater(mint, ids, st);
      FirstSeenLater(mint, ids, i, st);
      RepairKeeps(mint, ids[1..], MintId(mint, ids[0], st).1, i - 1);
    }
  }

  lemma {:induction false} ValidNeedsNoMint(mint: nat -> JsString, ids: seq<Value>, st: State)
    requires ValidIds(ids, st.seen)
    ensures Repair(mint, ids, st).1.next == st.next
  {
    if ids != [] {
      var (id, st1) := MintId(mint, ids[0], st);
      assert forall i :: 0 <= i < |ids| - 1 ==> ids[1..][i] == ids[i + 1];
      ValidNeedsNoMint(mint, ids[1..], st1);
    }
  }

  lemma {:induction false} RepairMints(mint: nat -> JsString, ids: seq<Value>, st: State)
    ensures Repair(mint, ids, st).1.next >= st.next
  {
    if ids != [] { RepairMints(mint, ids[1..], MintId(mint, ids[0], st).1); }
  }

  // ---- Nothing but ids changes ----

  lemma DropPut(fields: seq<Field>, key: JsString, val: Value)
    ensures Drop(Put(fields, key, val), key) == Drop(fields, key)
  {
    var p := Put(fields, key, val);
    var n := KeyIndex(fields, key);
    assert p[n].key == key;
    assert KeyIndex(p, key) == n;
  }

  lemma WithItemsPut(fields: seq<Field>, at: Option<nat>, items: seq<Value>, id: Value)
    requires HoldsArray(fields, at) && (at.Some? ==> fields[at.value].key != ID)
    ensures WithItems(Put(fields, ID, id), at, items) == Put(WithItems(fields, at, items), ID, id)
  {
    SameKeysIndex(fields, WithItems(fields, at, items), ID);
  }

  lemma AssemblePutAt(
    fields: seq<Field>, shape: Shape, loop: seq<Value>, branches: seq<Value>, otherwise: seq<Value>, id: Value)
    requires HoldsArray(fields, shape.loop) && HoldsArray(fields, shape.branches) && HoldsArray(fields, shape.otherwise)
    requires shape.loop.Some? ==> fields[shape.loop.value].key != ID
    requires shape.branches.Some? ==> fields[shape.branches.value].key != ID
    requires shape.otherwise.Some? ==> fields[shape.otherwise.value].key != ID
    ensures Assemble(Put(fields, ID, id), shape, loop, branches, otherwise)
         == Put(Assemble(fields, shape, loop, branches, otherwise), ID, id)
  {
    var r1 := WithItems(fields, shape.loop, loop);
    var r2 := WithItems(r1, shape.branches, branches);
    WithItemsPut(fields, shape.loop, loop, id);
    WithItemsPut(r1, shape.branches, branches, id);
    WithItemsPut(r2, shape.otherwise, otherwise, id);
  }

  lemma AssemblePut(fields: seq<Field>, loop: seq<Value>, branches: seq<Value>, otherwise: seq<Value>, id: Value)
    ensures Assemble(Put(fields, ID, id), ShapeOf(fields), loop, branches, otherwise)
         == Put(Assemble(fields, ShapeOf(fields), loop, branches, otherwise), ID, id)
  {
    KeysDiffer();
    ShapeKeys(fields);
    AssemblePutAt(fields, ShapeOf(fields), loop, branches, otherwise, id);
  }

  lemma AssembleTwice(
    fields: seq<Field>, shape: Shape, a: seq<Value>, b: seq<Value>, c: seq<Value>,
    x: seq<Value>, y: seq<Value>, z: seq<Value>)
    requires HoldsArray(fields, shape.loop) && HoldsArray(fields, shape.branches) && HoldsArray(fields, shape.otherwise)
    ensures Assemble(Assemble(fields, shape, a, b, c), shape, x, y, z) == Assemble(fields, shape, x, y, z)
  {
  }

  lemma EraseRewritten(
    fields: seq<Field>, a: seq<Value>, b: seq<Value>, c: seq<Value>,
    x: seq<Value>, y: seq<Value>, z: seq<Value>, id: Value)
    ensures var shape := ShapeOf(fields);
      Drop(Assemble(Put(Assemble(fields, shape, a, b, c), ID, id), shape, x, y, z), ID) ==
      Drop(Assemble(fields, shape, x, y, z), ID)
  {
    var shape := ShapeOf(fields);
    var r := Assemble(fields, shape, a, b, c);
    AssembleShape(fields, a, b, c);
    AssemblePut(r, x, y, z, id);
    AssembleTwice(fields, shape, a, b, c, x, y, z);
    DropPut(Assemble(fields, shape, x, y, z), ID, id);
  }

  lemma {:induction false} MintedErases(mint: nat -> JsString, node: Value, st: State)
    ensures Erase(MintNode(mint, node, st).0) == Erase(node)
    decreases node, 1
  {
    if node.Obj? {
      var fields, shape := node.fields, ShapeOf(node.fields);
      var (id, st1) := MintId(mint, Get(fields, ID), st);
      var (loop, st2) := MintAt(mint, fields, shape.loop, st1);
      var (branches, st3) := if shape.branches.None? then ([], st2)
        else MintLanes(mint, fields[shape.branches.value].val.items, st2);
      var (otherwise, st4) := MintAt(mint, fields, shape.otherwise, st3);
      RewrittenShape(fields, loop, branches, otherwise, Str(id));
      if shape.loop.Some? { MintedListErases(mint, fields[shape.loop.value].val.items, st1); }
      if shape.branches.Some? { MintedLanesErase(mint, fields[shape.branches.value].val.items, st2); }
      if shape.otherwise.Some? { MintedListErases(mint, fields[shape.otherwise.value].val.items, st3); }
      var y := if shape.branches.None? then [] else EraseLanes(fields[shape.branches.value].val.items);
      EraseRewritten(fields, loop, branches, otherwise, EraseAt(fields, shape.loop), y,
        EraseAt(fields, shape.otherwise), Str(id));
    }
  }

  lemma {:induction false} MintedListErases(mint: nat -> JsString, items: seq<Value>, st: State)
    ensures EraseList(MintList(mint, items, st).0) == EraseList(items)
    decreases items
  {
    if items != [] {
      var (head, st1) := MintNode(mint, items[0], st);
      MintedErases(mint, items[0], st);
      MintedListErases(mint, items[1..], st1);
    }
  }

  lemma {:induction false} MintedLaneErases(mint: nat -> JsString, lane: Value, st: State)
    ensures EraseLane(MintLane(mint, lane, st).0) == EraseLane(lane)
    decreases lane, 0
  {
    if lane.Obj? && ArrayAt(lane.fields, STEPS).Some? {
      var at := ArrayAt(lane.fields, STEPS);
      var (items, st1) := MintAt(mint, lane.fields, at, st);
      MintedListErases(mint, lane.fields[at.value].val.items, st);
      ItemLookup(lane.fields, at, items, STEPS);
    }
  }

  lemma {:induction false} MintedLanesErase(mint: nat -> JsString, lanes: seq<Value>, st: State)
    ensures EraseLanes(MintLanes(mint, lanes, st).0) == EraseLanes(lanes)
    decreases lanes
  {
    if lanes != [] {
      var (head, st1) := MintLane(mint, lanes[0], st);
      MintedLaneErases(mint, lanes[0], st);
      MintedLanesErase(mint, lanes[1..], st1);
    }
  }

  // ---- A walk that mints nothing changes nothing ----

  lemma AssembleSame(fields: seq<Field>, shape: Shape, loop: seq<Value>, branches: seq<Value>, otherwise: seq<Value>)
    requires HoldsArray(fields, shape.loop) && HoldsArray(fields, shape.branches) && HoldsArray(fields, shape.otherwise)
    requires HasLists(fields, shape, loop, branches, otherwise)
    ensures Assemble(fields, shape, loop, branches, otherwise) == fields
  {
  }

  lemma PutSame(fields: seq<Field>, key: JsString)
    requires KeyIndex(fields, key) < |fields|
    ensures Put(fields, key, Get(fields, key)) == fields
  {
  }

  lemma UnmintedId(mint: nat -> JsString, fields: seq<Field>, st: State)
    requires MintId(mint, Get(fields, ID), st).1.next == st.next
    ensures Put(fields, ID, Str(MintId(mint, Get(fields, ID), st).0)) == fields
  {
    PutSame(fields, ID);
  }

  function LanesAt(mint: nat -> JsString, fields: seq<Field>, at: Option<nat>, st: State): (seq<Value>, State)
    requires HoldsArray(fields, at)
  {
    if at.None? then ([], st) else MintLanes(mint, fields[at.value].val.items, st)
  }

  /** Below a node ids are only ever minted, list after list. */
  lemma ChildrenMint(mint: nat -> JsString, fields: seq<Field>, st: State)
    ensures var shape := ShapeOf(fields);
      var st2 := MintAt(mint, fields, shape.loop, st).1;
      var st3 := LanesAt(mint, fields, shape.branches, st2).1;
      st.next <= st2.next <= st3.next <= MintChildren(mint, fields, st).1.next
  {
    var shape := ShapeOf(fields);
    var st2 := MintAt(mint, fields, shape.loop, st).1;
    var st3 := LanesAt(mint, fields, shape.branches, st2).1;
    AtMints(mint, fields, shape.loop, st);
    if shape.branches.Some? { LanesMint(mint, fields[shape.branches.value].val.items, st2); }
    AtMints(mint, fields, shape.otherwise, st3);
  }

  lemma {:induction false} UnmintedSame(mint: nat -> JsString, node: Value, st: State)
    requires MintNode(mint, node, st).1.next == st.next
    ensures MintNode(mint, node, st).0 == node
    decreases node, 1
  {
    if node.Obj? {
      var (id, st1) := MintId(mint, Get(node.fields, ID), st);
      ChildrenMint(mint, node.fields, st1);
      UnmintedChildrenSame(mint, node.fields, st1);
      UnmintedId(mint, node.fields, st);
    }
  }

  lemma {:induction false} UnmintedChildrenSame(mint: nat -> JsString, fields: seq<Field>, st: State)
    requires MintChildren(mint, fields, st).1.next == st.next
    ensures MintChildren(mint, fields, st).0 == fields
    decreases fields, 2
  {
    var shape := ShapeOf(fields);
    ChildrenMint(mint, fields, st);
    var (loop, st2) := MintAt(mint, fields, shape.loop, st);
    var (branches, st3) := LanesAt(mint, fields, shape.branches, st2);
    UnmintedAtSame(mint, fields, shape.loop, st);
    if shape.branches.Some? { UnmintedLanesSame(mint, fields[shape.branches.value].val.items, st2); }
    UnmintedAtSame(mint, fields, shape.otherwise, st3);
    AssembleSame(fields, shape, loop, branches, MintAt(mint, fields, shape.otherwise, st3).0);
  }

  lemma {:induction false} UnmintedAtSame(mint: nat -> JsString, fields: seq<Field>, at: Option<nat>, st: State)
    requires HoldsArray(fields, at) && MintAt(mint, fields, at, st).1.next == st.next
    ensures at.Some? ==> fields[at.value].val == Arr(MintAt(mint, fields, at, st).0)
    decreases fields, 1
  {
    if at.Some? { UnmintedListSame(mint, fields[at.value].val.items, st); }
  }

  lemma AtMints(mint: nat -> JsString, fields: seq<Field>, at: Option<nat>, st: State)
    requires HoldsArray(fields, at)
    ensures MintAt(mint, fields, at, st).1.next >= st.next
  {
    MintedAt(mint, fields, at, st);
    RepairMints(mint, IdsAt(fields, at), st);
  }

  lemma ListMints(mint: nat -> JsString, items: seq<Value>, st: State)
    ensures MintList(mint, items, st).1.next >= st.next
  {
    MintedList(mint, items, st);
    RepairMints(mint, IdsOfList(items), st);
  }

  lemma LanesMint(mint: nat -> JsString, lanes: seq<Value>, st: State)
    ensures MintLanes(mint, lanes, st).1.next >= st.next
  {
    MintedLanes(mint, lanes, st);
    RepairMints(mint, IdsOfLanes(lanes), st);
  }

  lemma {:induction false} UnmintedListSame(mint: nat -> JsString, items: seq<Value>, st: State)
    requires MintList(mint, items, st).1.next == st.next
    ensures MintList(mint, items, st).0 == items
    decreases items
  {
    if items != [] {
      var (head, st1) := MintNode(mint, items[0], st);
      MintedIds(mint, items[0], st);
      RepairMints(mint, Ids(items[0]), st);
      ListMints(mint, items[1..], st1);
      UnmintedSame(mint, items[0], st);
      UnmintedListSame(mint, items[1..], st1);
    }
  }

  lemma {:induction false} UnmintedLaneSame(mint: nat -> JsString, lane: Value, st: State)
    requires MintLane(mint, lane, st).1.next == st.next
    ensures MintLane(mint, lane, st).0 == lane
    decreases lane, 0
  {
    if lane.Obj? && ArrayAt(lane.fields, STEPS).Some? {
      var at := ArrayAt(lane.fields, STEPS);
      UnmintedListSame(mint, lane.fields[at.value].val.items, st);
    }
  }

  lemma {:induction false} UnmintedLanesSame(mint: nat -> JsString, lanes: seq<Value>, st: State)
    requires MintLanes(mint, lanes, st).1.next == st.next
    ensures MintLanes(mint, lanes, st).0 == lanes
    decreases lanes
  {
    if lanes != [] {
      var (head, st1) := MintLane(mint, lanes[0], st);
      MintedLane(mint, lanes[0], st);
      RepairMints(mint, IdsOfLane(lanes[0]), st);
      LanesMint(mint, lanes[1..], st1);
      UnmintedLaneSame(mint, lanes[0], st);
      UnmintedLanesSame(mint, lanes[1..], st1);
    }
  }

  // ---- Main results ----

  /** All step nodes of the result have well-formed ids, pairwise distinct and
      outside the given set; an unseen well-formed id is kept where it first
      occurs; and without ids the result is the input. */
  lemma MintOnlyRepairs(mint: nat -> JsString, value: Value, seen: set<JsString>)
    requires FreshMints(mint, Ids(value), State(seen, 0))
    ensures var result := MintNode(mint, value, State(seen, 0)).0;
      && ValidIds(Ids(result), seen)
      && |Ids(result)| == |Ids(value)|
      && (forall i :: 0 <= i < |Ids(value)| && FirstSeen(Ids(value), i, seen) ==> Ids(result)[i] == Ids(value)[i])
      && Erase(result) == Erase(value)
  {
    MintedIds(mint, value, State(seen, 0));
    RepairValid(mint, Ids(value), State(seen, 0));
    forall i | 0 <= i < |Ids(value)| && FirstSeen(Ids(value), i, seen)
      ensures Repair(mint, Ids(value), State(seen, 0)).0[i] == Ids(value)[i]
    {
      RepairKeeps(mint, Ids(value), State(seen, 0), i);
    }
    MintedErases(mint, value, State(seen, 0));
  }

  /** The seen set ends up with exactly the ids of the result added. */
  lemma MintRecordsSeen(mint: nat -> JsString, value: Value, seen: set<JsString>)
    requires FreshMints(mint, Ids(value), State(seen, 0))
    ensures var (result, st) := MintNode(mint, value, State(seen, 0)); st.seen == seen + Texts(Ids(result))
  {
    MintedIds(mint, value, State(seen, 0));
    RepairValid(mint, Ids(value), State(seen, 0));
  }

  /** A tree is left unchanged exactly when its ids were already valid. */
  lemma MintUnchanged(mint: nat -> JsString, value: Value, seen: set<JsString>)
    requires FreshMints(mint, Ids(value), State(seen, 0))
    ensures MintNode(mint, value, State(seen, 0)).0 == value <==> ValidIds(Ids(value), seen)
  {
    MintedIds(mint, value, State(seen, 0));
    RepairValid(mint, Ids(value), State(seen, 0));
    if ValidIds(Ids(value), seen) {
      ValidNeedsNoMint(mint, Ids(value), State(seen, 0));
      UnmintedSame(mint, value, State(seen, 0));
    }
  }
}
