/** Minting changes nothing but the ids of the step nodes, told path by path. */
module MintStepIdsKept {
  import opened JsText
  import opened CanonicalJson
  import opened MintStepIds
  import opened MintStepIdsProofs
  import opened MintStepIdsPaths

  function KeysOf(fields: seq<Field>): (r: seq<JsString>)
    ensures |r| == |fields| && forall i :: 0 <= i < |r| ==> r[i] == fields[i].key
  {
    seq(|fields|, i requires 0 <= i < |fields| => fields[i].key)
  }

  /** The same but for what lies deeper. */
  ghost predicate Alike(a: Value, b: Value) {
    match (a, b)
    case (Obj(f), Obj(g)) => KeysOf(g) == KeysOf(f)
    case (Arr(x), Arr(y)) => |y| == |x|
    case _ => a == b
  }

  /** The keys, and "id" at the end if it is not among them. */
  function WithId(keys: seq<JsString>): seq<JsString> {
    if Ascii("id") in keys then keys else keys + [Ascii("id")]
  }

  ghost predicate AlikeWithId(a: Value, b: Value) {
    a.Obj? && b.Obj? && KeysOf(b.fields) == WithId(KeysOf(a.fields))
  }

  ghost predicate SameAt(v: Value, r: Value, path: Path, step: bool) {
    match (At(v, path), At(r, path))
    case (Some(a), Some(b)) => if step then AlikeWithId(a, b) else Alike(a, b)
    case (None, None) => true
    case _ => false
  }

  /** The path leads to the id of a step node, or into it. */
  ghost predicate IdPath(v: Value, path: Path) {
    exists n :: 0 <= n < |path| && IsStep(v, path[..n]) && path[n] == Key(Ascii("id"))
  }

  // ---- the same notions for what lies below a node

  predicate ItemsStep(items: seq<Value>, path: Path) {
    path != [] && path[0].Index? && path[0].i < |items| && IsStep(items[path[0].i], path[1..])
  }

  ghost predicate ItemsIdPath(items: seq<Value>, path: Path) {
    path != [] && path[0].Index? && path[0].i < |items| && IdPath(items[path[0].i], path[1..])
  }

  predicate LaneStep(lane: Value, path: Path) {
    path != [] && path[0] == Key(Ascii("steps")) && ItemsStep(ItemsUnder(lane, "steps"), path[1..])
  }

  ghost predicate LaneIdPath(lane: Value, path: Path) {
    path != [] && path[0] == Key(Ascii("steps")) && ItemsIdPath(ItemsUnder(lane, "steps"), path[1..])
  }

  predicate LanesStep(lanes: seq<Value>, path: Path) {
    path != [] && path[0].Index? && path[0].i < |lanes| && LaneStep(lanes[path[0].i], path[1..])
  }

  ghost predicate LanesIdPath(lanes: seq<Value>, path: Path) {
    path != [] && path[0].Index? && path[0].i < |lanes| && LaneIdPath(lanes[path[0].i], path[1..])
  }

  // ---- the fields of a result

  lemma WithItemsLookup(fields: seq<Field>, key: JsString, at: Option<nat>, items: seq<Value>, name: JsString)
    requires at.Some? ==> at.value == KeyIndex(fields, key) < |fields|
    ensures Lookup(WithItems(fields, at, items), name) ==
            if at.Some? && name == key then Some(Arr(items)) else Lookup(fields, name)
    ensures KeysOf(WithItems(fields, at, items)) == KeysOf(fields)
  {
    var r := WithItems(fields, at, items);
    SameKeysIndex(fields, r, name);
    LookupIsGet(fields, name);
    LookupIsGet(r, name);
  }

  lemma PutLookup(fields: seq<Field>, val: Value, name: JsString)
    ensures Lookup(Put(fields, ID, val), name) == if name == ID then Some(val) else Lookup(fields, name)
  {
    var r := Put(fields, ID, val);
    LookupIsGet(fields, name);
    LookupIsGet(r, name);
    if name == ID {
      PutGet(fields, ID, val);
      assert r[KeyIndex(fields, ID)].key == ID;
    } else {
      PutOther(fields, ID, val, name);
      PutIndex(fields, val, name);
    }
  }

  lemma PutKeys(fields: seq<Field>, val: Value)
    ensures KeysOf(Put(fields, ID, val)) == WithId(KeysOf(fields))
  {
    var n := KeyIndex(fields, ID);
    if n < |fields| {
      assert KeysOf(fields)[n] == ID;
      assert KeysOf(Put(fields, ID, val)) == KeysOf(fields);
    } else {
      assert KeysOf(Put(fields, ID, val)) == KeysOf(fields) + [ID];
    }
  }

  lemma PutIndex(fields: seq<Field>, val: Value, name: JsString)
    requires name != ID
    ensures var r := Put(fields, ID, val);
            KeyIndex(r, name) == if KeyIndex(fields, name) < |fields| then KeyIndex(fields, name) else |r|
  {
    var r, n := Put(fields, ID, val), KeyIndex(fields, name);
    assert n < |fields| ==> r[n].key == name;
    assert forall i :: 0 <= i < n && i < |r| ==> r[i].key != name;
    assert n == |fields| && |r| > n ==> r[n].key == ID;
  }

  /** What a node has under a name after the walk. */
  function FieldAfter(mint: nat -> JsString, fields: seq<Field>, st: State, name: JsString): Option<Value> {
    var shape := ShapeOf(fields);
    var st1 := MintId(mint, Get(fields, ID), st).1;
    var (loop, st2) := MintAt(mint, fields, shape.loop, st1);
    var (lanes, st3) := LanesAt(mint, fields, shape.branches, st2);
    if shape.loop.Some? && name == STEPS then Some(Arr(loop))
    else if shape.branches.Some? && name == BRANCHES then Some(Arr(lanes))
    else if shape.otherwise.Some? && name == ELSE then Some(Arr(MintAt(mint, fields, shape.otherwise, st3).0))
    else Lookup(fields, name)
  }

  lemma AssembleLookup(
    fields: seq<Field>, loop: seq<Value>, lanes: seq<Value>, otherwise: seq<Value>, name: JsString)
    ensures var shape := ShapeOf(fields);
            var r := Assemble(fields, shape, loop, lanes, otherwise);
            && KeysOf(r) == KeysOf(fields)
            && Lookup(r, name) ==
               if shape.loop.Some? && name == STEPS then Some(Arr(loop))
               else if shape.branches.Some? && name == BRANCHES then Some(Arr(lanes))
               else if shape.otherwise.Some? && name == ELSE then Some(Arr(otherwise))
               else Lookup(fields, name)
  {
    KeysDiffer();
    var shape := ShapeOf(fields);
    var a := WithItems(fields, shape.loop, loop);
    WithItemsLookup(fields, STEPS, shape.loop, loop, name);
    SameKeysIndex(fields, a, BRANCHES);
    SameKeysIndex(fields, a, ELSE);
    var b := WithItems(a, shape.branches, lanes);
    WithItemsLookup(a, BRANCHES, shape.branches, lanes, name);
    SameKeysIndex(a, b, ELSE);
    WithItemsLookup(b, ELSE, shape.otherwise, otherwise, name);
  }

  lemma ResultFields(mint: nat -> JsString, fields: seq<Field>, st: State, name: JsString)
    requires name != ID
    ensures var r := MintNode(mint, Obj(fields), st).0;
            && r.Obj? && Lookup(r.fields, name) == FieldAfter(mint, fields, st, name)
            && AlikeWithId(Obj(fields), r)
  {
    var shape := ShapeOf(fields);
    var (id, st1) := MintId(mint, Get(fields, ID), st);
    var (loop, st2) := MintAt(mint, fields, shape.loop, st1);
    var (lanes, st3) := LanesAt(mint, fields, shape.branches, st2);
    var otherwise := MintAt(mint, fields, shape.otherwise, st3).0;
    AssembleLookup(fields, loop, lanes, otherwise, name);
    PutLookup(Assemble(fields, shape, loop, lanes, otherwise), Str(id), name);
    PutKeys(Assemble(fields, shape, loop, lanes, otherwise), Str(id));
  }

  // ---- how the notions go down a node

  lemma LoopStep(v: Value, path: Path)
    requires IsKind(v, "for_each") && path != [] && path[0] == Key(Ascii("steps"))
    ensures IsStep(v, path) <==> ItemsStep(ItemsUnder(v, "steps"), path[1..])
  {
    NamesDiffer();
    if EntersItem(v, "steps", path) { AtItem(v, "steps", path); }
    assert |path| >= 2 ==> path[1..][1..] == path[2..];
  }

  lemma ElseStep(v: Value, path: Path)
    requires IsKind(v, "branch") && path != [] && path[0] == Key(Ascii("else"))
    ensures IsStep(v, path) <==> ItemsStep(ItemsUnder(v, "else"), path[1..])
  {
    NamesDiffer();
    if EntersItem(v, "else", path) { AtItem(v, "else", path); }
    assert |path| >= 2 ==> path[1..][1..] == path[2..];
  }

  lemma BranchStep(v: Value, path: Path)
    requires IsKind(v, "branch") && path != [] && path[0] == Key(Ascii("branches"))
    ensures IsStep(v, path) <==> LanesStep(ItemsUnder(v, "branches"), path[1..])
  {
    NamesDiffer();
    if EntersLane(v, path) { AtLaneItem(v, path); }
    assert |path| >= 2 ==> path[1..][1..] == path[2..];
    assert |path| >= 3 ==> path[2..][1..] == path[3..];
    assert |path| >= 4 ==> path[3..][1..] == path[4..];
  }

  lemma NamesDiffer()
    ensures Ascii("steps") != Ascii("else") && Ascii("steps") != Ascii("branches") && Ascii("else") != Ascii("branches")
    ensures Ascii("for_each") != Ascii("branch")
    ensures Ascii("id") != Ascii("steps") && Ascii("id") != Ascii("else") && Ascii("id") != Ascii("branches")
  {}

  /** Parts of a path, cut again. */
  lemma CutPath(path: Path, from: nat, n: nat)
    requires from <= |path| && n <= |path| - from
    ensures path[from..][..n] == path[..from + n][from..]
    ensures n < |path| - from ==> path[from..][n] == path[from + n]
  {}

  lemma IdPathFrom(v: Value, path: Path, n: nat)
    requires n < |path| && IsStep(v, path[..n]) && path[n] == Key(Ascii("id"))
    ensures IdPath(v, path)
  {}

  lemma LoopIdPath(v: Value, path: Path)
    requires IsKind(v, "for_each") && path != [] && path[0] == Key(Ascii("steps"))
    requires ItemsIdPath(ItemsUnder(v, "steps"), path[1..])
    ensures IdPath(v, path)
  {
    var rest := path[1..][1..];
    var n :| 0 <= n < |rest| && IsStep(ItemsUnder(v, "steps")[path[1].i], rest[..n]) && rest[n] == Key(Ascii("id"));
    assert rest == path[2..];
    CutPath(path, 2, n);
    LoopStep(v, path[..n + 2]);
    assert path[..n + 2][1..][1..] == rest[..n];
    IdPathFrom(v, path, n + 2);
  }

  lemma ElseIdPath(v: Value, path: Path)
    requires IsKind(v, "branch") && path != [] && path[0] == Key(Ascii("else"))
    requires ItemsIdPath(ItemsUnder(v, "else"), path[1..])
    ensures IdPath(v, path)
  {
    var rest := path[1..][1..];
    var n :| 0 <= n < |rest| && IsStep(ItemsUnder(v, "else")[path[1].i], rest[..n]) && rest[n] == Key(Ascii("id"));
    assert rest == path[2..];
    CutPath(path, 2, n);
    ElseStep(v, path[..n + 2]);
    assert path[..n + 2][1..][1..] == rest[..n];
    IdPathFrom(v, path, n + 2);
  }

  lemma LaneIdAt(lane: Value, path: Path) returns (k: nat)
    requires LaneIdPath(lane, path)
    ensures k < |path| && LaneStep(lane, path[..k]) && path[k] == Key(Ascii("id"))
  {
    var rest := path[1..][1..];
    var n :| 0 <= n < |rest| && IsStep(ItemsUnder(lane, "steps")[path[1].i], rest[..n]) && rest[n] == Key(Ascii("id"));
    k := n + 2;
    assert path[..k][1..][1..] == rest[..n] && rest[n] == path[k];
  }

  lemma BranchIdPath(v: Value, path: Path)
    requires IsKind(v, "branch") && path != [] && path[0] == Key(Ascii("branches"))
    requires LanesIdPath(ItemsUnder(v, "branches"), path[1..])
    ensures IdPath(v, path)
  {
    var lane := ItemsUnder(v, "branches")[path[1].i];
    assert path[1..][1..] == path[2..];
    var k := LaneIdAt(lane, path[2..]);
    assert path[2..][..k] == path[..k + 2][2..] && path[2..][k] == path[k + 2];
    assert path[..k + 2][1..][1..] == path[..k + 2][2..];
    BranchStep(v, path[..k + 2]);
    IdPathFrom(v, path, k + 2);
  }

  // ---- the walk, path by path

  lemma SameItself(v: Value, path: Path)
    ensures SameAt(v, v, path, false)
  {}

  /** Two objects with one value under a name look alike from there on. */
  lemma SameField(v: Value, r: Value, name: JsString, path: Path, step: bool)
    requires v.Obj? && r.Obj? && path != [] && path[0] == Key(name)
    requires match (Lookup(v.fields, name), Lookup(r.fields, name))
             case (Some(a), Some(b)) => SameAt(a, b, path[1..], step)
             case (None, None) => true
             case _ => false
    ensures SameAt(v, r, path, step)
  {}

  lemma {:induction false} KeptItems(mint: nat -> JsString, items: seq<Value>, st: State, path: Path)
    requires !ItemsIdPath(items, path)
    ensures SameAt(Arr(items), Arr(MintList(mint, items, st).0), path, ItemsStep(items, path))
    decreases |path|, 0
  {
    var r := MintList(mint, items, st).0;
    MintedLength(mint, items, st);
    if path != [] && path[0].Index? && path[0].i < |items| {
      var sti := MintedItem(mint, items, st, path[0].i);
      KeptNode(mint, items[path[0].i], sti, path[1..]);
    }
  }

  lemma {:induction false} MintedLength(mint: nat -> JsString, items: seq<Value>, st: State)
    ensures |MintList(mint, items, st).0| == |items|
  {
    if items != [] { MintedLength(mint, items[1..], MintNode(mint, items[0], st).1); }
  }

  lemma {:induction false} MintedItem(mint: nat -> JsString, items: seq<Value>, st: State, i: nat)
    returns (sti: State)
    requires i < |items|
    ensures |MintList(mint, items, st).0| == |items|
    ensures MintList(mint, items, st).0[i] == MintNode(mint, items[i], sti).0
    decreases i
  {
    MintedLength(mint, items, st);
    if i == 0 {
      sti := st;
    } else {
      sti := MintedItem(mint, items[1..], MintNode(mint, items[0], st).1, i - 1);
    }
  }

  lemma {:induction false} LanesLength(mint: nat -> JsString, lanes: seq<Value>, st: State)
    ensures |MintLanes(mint, lanes, st).0| == |lanes|
  {
    if lanes != [] { LanesLength(mint, lanes[1..], MintLane(mint, lanes[0], st).1); }
  }

  lemma {:induction false} MintedLaneAt(mint: nat -> JsString, lanes: seq<Value>, st: State, i: nat)
    returns (sti: State)
    requires i < |lanes|
    ensures |MintLanes(mint, lanes, st).0| == |lanes|
    ensures MintLanes(mint, lanes, st).0[i] == MintLane(mint, lanes[i], sti).0
    decreases i
  {
    LanesLength(mint, lanes, st);
    if i == 0 {
      sti := st;
    } else {
      sti := MintedLaneAt(mint, lanes[1..], MintLane(mint, lanes[0], st).1, i - 1);
    }
  }

  /** A lane with an array of steps gets a new one and keeps the rest. */
  lemma LaneAfter(mint: nat -> JsString, lane: Value, st: State, name: JsString)
    requires lane.Obj? && ArrayAt(lane.fields, STEPS).Some?
    ensures var r := MintLane(mint, lane, st).0;
            && r.Obj? && KeysOf(r.fields) == KeysOf(lane.fields)
            && Lookup(r.fields, name) ==
               if name == STEPS then Some(Arr(MintList(mint, ItemsUnder(lane, "steps"), st).0))
               else Lookup(lane.fields, name)
  {
    var at := ArrayAt(lane.fields, STEPS);
    ItemsAre(lane.fields, "steps");
    WithItemsLookup(lane.fields, STEPS, at, MintList(mint, ItemsUnder(lane, "steps"), st).0, name);
  }

  lemma {:induction false} KeptLane(mint: nat -> JsString, lane: Value, st: State, path: Path)
    requires !LaneIdPath(lane, path)
    ensures SameAt(lane, MintLane(mint, lane, st).0, path, LaneStep(lane, path))
    decreases |path|, 1
  {
    if lane.Obj? && ArrayAt(lane.fields, STEPS).Some? {
      if path != [] && path[0].Key? {
        KeptInLane(mint, lane, st, path, path[0].name);
      } else {
        LaneAfter(mint, lane, st, STEPS);
      }
    } else {
      if lane.Obj? { ItemsAre(lane.fields, "steps"); }
      SameItself(lane, path);
    }
  }

  lemma {:induction false} KeptInLane(mint: nat -> JsString, lane: Value, st: State, path: Path, name: JsString)
    requires lane.Obj? && ArrayAt(lane.fields, STEPS).Some?
    requires !LaneIdPath(lane, path) && path != [] && path[0] == Key(name)
    ensures SameAt(lane, MintLane(mint, lane, st).0, path, LaneStep(lane, path))
    decreases |path|, 0
  {
    var r := MintLane(mint, lane, st).0;
    LaneAfter(mint, lane, st, name);
    LookupIsGet(lane.fields, name);
    ItemsAre(lane.fields, "steps");
    if name == STEPS {
      KeptItems(mint, ItemsUnder(lane, "steps"), st, path[1..]);
    } else if Lookup(lane.fields, name).Some? {
      SameItself(Lookup(lane.fields, name).value, path[1..]);
    }
    SameField(lane, r, name, path, LaneStep(lane, path));
  }

  lemma {:induction false} KeptLanes(mint: nat -> JsString, lanes: seq<Value>, st: State, path: Path)
    requires !LanesIdPath(lanes, path)
    ensures SameAt(Arr(lanes), Arr(MintLanes(mint, lanes, st).0), path, LanesStep(lanes, path))
    decreases |path|, 0
  {
    LanesLength(mint, lanes, st);
    if path != [] && path[0].Index? && path[0].i < |lanes| {
      var sti := MintedLaneAt(mint, lanes, st, path[0].i);
      KeptLane(mint, lanes[path[0].i], sti, path[1..]);
    }
  }

  lemma {:induction false} KeptLoop(mint: nat -> JsString, v: Value, st: State, path: Path, step: bool)
    requires v.Obj? && ShapeOf(v.fields).loop.Some? && path != [] && path[0] == Key(STEPS)
    requires !IdPath(v, path) && step == IsStep(v, path)
    ensures SameAt(v, MintNode(mint, v, st).0, path, step)
    decreases |path|, 1
  {
    var st1 := MintId(mint, Get(v.fields, ID), st).1;
    var items := ItemsUnder(v, "steps");
    KindIs(v.fields, "for_each");
    ItemsAre(v.fields, "steps");
    ResultFields(mint, v.fields, st, STEPS);
    LookupIsGet(v.fields, STEPS);
    LoopStep(v, path);
    if ItemsIdPath(items, path[1..]) { LoopIdPath(v, path); }
    KeptItems(mint, items, st1, path[1..]);
    SameField(v, MintNode(mint, v, st).0, STEPS, path, step);
  }

  lemma {:induction false} KeptElse(mint: nat -> JsString, v: Value, st: State, path: Path, step: bool)
    requires v.Obj? && ShapeOf(v.fields).otherwise.Some? && path != [] && path[0] == Key(ELSE)
    requires !IdPath(v, path) && step == IsStep(v, path)
    ensures SameAt(v, MintNode(mint, v, st).0, path, step)
    decreases |path|, 1
  {
    var shape := ShapeOf(v.fields);
    var st1 := MintId(mint, Get(v.fields, ID), st).1;
    var st2 := MintAt(mint, v.fields, shape.loop, st1).1;
    var st3 := LanesAt(mint, v.fields, shape.branches, st2).1;
    var items := ItemsUnder(v, "else");
    KindIs(v.fields, "branch");
    ItemsAre(v.fields, "else");
    KeysDiffer();
    ResultFields(mint, v.fields, st, ELSE);
    LookupIsGet(v.fields, ELSE);
    ElseStep(v, path);
    if ItemsIdPath(items, path[1..]) { ElseIdPath(v, path); }
    KeptItems(mint, items, st3, path[1..]);
    SameField(v, MintNode(mint, v, st).0, ELSE, path, step);
  }

  lemma {:induction false} KeptBranch(mint: nat -> JsString, v: Value, st: State, path: Path, step: bool)
    requires v.Obj? && ShapeOf(v.fields).branches.Some? && path != [] && path[0] == Key(BRANCHES)
    requires !IdPath(v, path) && step == IsStep(v, path)
    ensures SameAt(v, MintNode(mint, v, st).0, path, step)
    decreases |path|, 1
  {
    var shape := ShapeOf(v.fields);
    var st1 := MintId(mint, Get(v.fields, ID), st).1;
    var st2 := MintAt(mint, v.fields, shape.loop, st1).1;
    var lanes := ItemsUnder(v, "branches");
    KindIs(v.fields, "branch");
    ItemsAre(v.fields, "branches");
    KeysDiffer();
    ResultFields(mint, v.fields, st, BRANCHES);
    LookupIsGet(v.fields, BRANCHES);
    BranchStep(v, path);
    if LanesIdPath(lanes, path[1..]) { BranchIdPath(v, path); }
    KeptLanes(mint, lanes, st2, path[1..]);
    SameField(v, MintNode(mint, v, st).0, BRANCHES, path, step);
  }

  /** A field that is no list of steps keeps its value, and no step node lies in it. */
  lemma KeptField(mint: nat -> JsString, v: Value, st: State, path: Path, name: JsString)
    requires v.Obj? && path != [] && path[0] == Key(name) && name != ID
    requires var shape := ShapeOf(v.fields);
             && !(shape.loop.Some? && name == STEPS) && !(shape.branches.Some? && name == BRANCHES)
             && !(shape.otherwise.Some? && name == ELSE)
    ensures SameAt(v, MintNode(mint, v, st).0, path, false) && !IsStep(v, path)
  {
    var r := MintNode(mint, v, st).0;
    ResultFields(mint, v.fields, st, name);
    assert Lookup(r.fields, name) == Lookup(v.fields, name);
    if Lookup(v.fields, name).Some? { SameItself(Lookup(v.fields, name).value, path[1..]); }
    SameField(v, r, name, path, false);
    KindIs(v.fields, "for_each");
    KindIs(v.fields, "branch");
    ItemsAre(v.fields, "steps");
    ItemsAre(v.fields, "else");
    ItemsAre(v.fields, "branches");
  }

  /**
   * At every path that is not within the id of a step node, the result has what the value has: the same
   * scalar, an array of the same length, an object of the same keys in the same order, where a step node
   * without an id gets that key at its end.
   */
  lemma {:induction false} KeptNode(mint: nat -> JsString, v: Value, st: State, path: Path)
    requires !IdPath(v, path)
    ensures SameAt(v, MintNode(mint, v, st).0, path, IsStep(v, path))
    decreases |path|, 3
  {
    if !v.Obj? {
      SameItself(v, path);
    } else if path == [] {
      KeysDiffer();
      ResultFields(mint, v.fields, st, KIND);
    } else if path[0].Key? {
      if path[0].name == ID {
        IdPathFrom(v, path, 0);
      } else {
        KeptBelow(mint, v, st, path, path[0].name);
      }
    }
  }

  lemma {:induction false} KeptBelow(mint: nat -> JsString, v: Value, st: State, path: Path, name: JsString)
    requires v.Obj? && path != [] && path[0] == Key(name) && name != ID && !IdPath(v, path)
    ensures SameAt(v, MintNode(mint, v, st).0, path, IsStep(v, path))
    decreases |path|, 2
  {
    var shape := ShapeOf(v.fields);
    if shape.loop.Some? && name == STEPS {
      KeptLoop(mint, v, st, path, IsStep(v, path));
    } else if shape.branches.Some? && name == BRANCHES {
      KeptBranch(mint, v, st, path, IsStep(v, path));
    } else if shape.otherwise.Some? && name == ELSE {
      KeptElse(mint, v, st, path, IsStep(v, path));
    } else {
      KeptField(mint, v, st, path, name);
    }
  }

  // ---- the step nodes stay where they are

  lemma {:induction false} ItemsSamePaths(mint: nat -> JsString, items: seq<Value>, st: State, first: nat)
    ensures PathsOfItems(MintList(mint, items, st).0, first) == PathsOfItems(items, first)
    decreases items
  {
    if items != [] {
      var (head, st1) := MintNode(mint, items[0], st);
      var (tail, st2) := MintList(mint, items[1..], st1);
      SamePaths(mint, items[0], st);
      ItemsSamePaths(mint, items[1..], st1, first + 1);
      assert ([head] + tail)[1..] == tail;
    }
  }

  lemma {:induction false} LaneSamePaths(mint: nat -> JsString, lane: Value, st: State)
    ensures ItemPaths(MintLane(mint, lane, st).0, "steps") == ItemPaths(lane, "steps")
    decreases lane, 0
  {
    if lane.Obj? && ArrayAt(lane.fields, STEPS).Some? {
      LaneAfter(mint, lane, st, STEPS);
      ItemsAre(lane.fields, "steps");
      var items := ItemsUnder(lane, "steps");
      MintedLength(mint, items, st);
      ItemsSamePaths(mint, items, st, 0);
    }
  }

  lemma {:induction false} LanesSamePaths(mint: nat -> JsString, lanes: seq<Value>, st: State, first: nat)
    ensures PathsOfLanes(MintLanes(mint, lanes, st).0, first) == PathsOfLanes(lanes, first)
    decreases lanes
  {
    if lanes != [] {
      var (head, st1) := MintLane(mint, lanes[0], st);
      var (tail, st2) := MintLanes(mint, lanes[1..], st1);
      LaneSamePaths(mint, lanes[0], st);
      LanesSamePaths(mint, lanes[1..], st1, first + 1);
      assert ([head] + tail)[1..] == tail;
    }
  }

  lemma KindStays(mint: nat -> JsString, v: Value, st: State, kind: string)
    requires v.Obj?
    ensures IsKind(MintNode(mint, v, st).0, kind) <==> IsKind(v, kind)
  {
    KeysDiffer();
    ResultFields(mint, v.fields, st, KIND);
  }

  lemma {:induction false} LoopSamePaths(mint: nat -> JsString, v: Value, st: State)
    requires v.Obj?
    ensures LoopPaths(MintNode(mint, v, st).0) == LoopPaths(v)
    decreases v, 1
  {
    var st1 := MintId(mint, Get(v.fields, ID), st).1;
    var items := ItemsUnder(v, "steps");
    KindStays(mint, v, st, "for_each");
    KindIs(v.fields, "for_each");
    ItemsAre(v.fields, "steps");
    KeysDiffer();
    ResultFields(mint, v.fields, st, STEPS);
    LookupIsGet(v.fields, STEPS);
    if ShapeOf(v.fields).loop.Some? {
      MintedLength(mint, items, st1);
      ItemsSamePaths(mint, items, st1, 0);
    }
  }

  lemma {:induction false} ElseSamePaths(mint: nat -> JsString, v: Value, st: State)
    requires v.Obj?
    ensures ElsePaths(MintNode(mint, v, st).0) == ElsePaths(v)
    decreases v, 1
  {
    var shape := ShapeOf(v.fields);
    var st1 := MintId(mint, Get(v.fields, ID), st).1;
    var st2 := MintAt(mint, v.fields, shape.loop, st1).1;
    var st3 := LanesAt(mint, v.fields, shape.branches, st2).1;
    var items := ItemsUnder(v, "else");
    KindStays(mint, v, st, "branch");
    KindIs(v.fields, "branch");
    ItemsAre(v.fields, "else");
    KeysDiffer();
    ResultFields(mint, v.fields, st, ELSE);
    LookupIsGet(v.fields, ELSE);
    if shape.otherwise.Some? {
      MintedLength(mint, items, st3);
      ItemsSamePaths(mint, items, st3, 0);
    }
  }

  lemma {:induction false} BranchSamePaths(mint: nat -> JsString, v: Value, st: State)
    requires v.Obj?
    ensures BranchPaths(MintNode(mint, v, st).0) == BranchPaths(v)
    decreases v, 1
  {
    var lanes := ItemsUnder(v, "branches");
    KindStays(mint, v, st, "branch");
    if IsKind(v, "branch") {
      var st2 := LanesAfter(mint, v, st);
      LanesLength(mint, lanes, st2);
      if lanes != [] { LanesSamePaths(mint, lanes, st2, 0); }
    }
  }

  lemma LanesAfter(mint: nat -> JsString, v: Value, st: State) returns (st2: State)
    requires IsKind(v, "branch")
    ensures ItemsUnder(MintNode(mint, v, st).0, "branches") == MintLanes(mint, ItemsUnder(v, "branches"), st2).0
  {
    var st1 := MintId(mint, Get(v.fields, ID), st).1;
    st2 := MintAt(mint, v.fields, ShapeOf(v.fields).loop, st1).1;
    KindIs(v.fields, "branch");
    ItemsAre(v.fields, "branches");
    KeysDiffer();
    ResultFields(mint, v.fields, st, BRANCHES);
    LookupIsGet(v.fields, BRANCHES);
  }

  /** The result has its step nodes at the paths of the value, in the same order. */
  lemma {:induction false} SamePaths(mint: nat -> JsString, v: Value, st: State)
    ensures StepPaths(MintNode(mint, v, st).0) == StepPaths(v)
    decreases v, 2
  {
    if v.Obj? {
      LoopSamePaths(mint, v, st);
      BranchSamePaths(mint, v, st);
      ElseSamePaths(mint, v, st);
    }
  }

  // ---- main results

  /** `st_` and sixteen lower-case letters or digits. */
  predicate StepIdForm(id: Value) {
    && id.Str? && |id.s| == 19
    && id.s[0] == 0x73 && id.s[1] == 0x74 && id.s[2] == 0x5F
    && forall i :: 3 <= i < 19 ==> 0x30 <= id.s[i] <= 0x39 || 0x61 <= id.s[i] <= 0x7A
  }

  lemma FormIsStepId(s: JsString)
    ensures IsStepId(s) <==> StepIdForm(Str(s))
  {
    if |s| == 19 {
      assert s[..3] == [s[0], s[1], s[2]];
      assert Ascii("st_") == [0x73, 0x74, 0x5F];
    }
  }

  /**
   * Every step node of the result, wherever it stands, has a well-formed id outside the given set, and no
   * two have the same. They stand where those of the value stand.
   */
  lemma MintedSteps(mint: nat -> JsString, value: Value, seen: set<JsString>, p: Path, q: Path)
    requires FreshMints(mint, Ids(value), State(seen, 0))
    ensures var r := MintNode(mint, value, State(seen, 0)).0;
            && (IsStep(r, p) <==> IsStep(value, p))
            && (IsStep(r, p) ==> StepIdForm(IdAt(r, p)) && IdAt(r, p).s !in seen)
            && (IsStep(r, p) && IsStep(r, q) && p != q ==> IdAt(r, p) != IdAt(r, q))
  {
    var r := MintNode(mint, value, State(seen, 0)).0;
    MintOnlyRepairs(mint, value, seen);
    StepsStay(mint, value, State(seen, 0), p);
    if IsStep(r, p) { ValidAt(r, seen, p); }
    if IsStep(r, p) && IsStep(r, q) && p != q { DifferAt(r, seen, p, q); }
  }

  lemma ValidAt(r: Value, seen: set<JsString>, p: Path)
    requires ValidIds(Ids(r), seen) && IsStep(r, p)
    ensures StepIdForm(IdAt(r, p)) && IdAt(r, p).s !in seen
  {
    var i := IndexOfStep(r, p);
    FormIsStepId(IdAt(r, p).s);
  }

  lemma DifferAt(r: Value, seen: set<JsString>, p: Path, q: Path)
    requires ValidIds(Ids(r), seen) && IsStep(r, p) && IsStep(r, q) && p != q
    ensures IdAt(r, p) != IdAt(r, q)
  {
    var i := IndexOfStep(r, p);
    var j := IndexOfStep(r, q);
  }

  lemma StepsStay(mint: nat -> JsString, value: Value, st: State, p: Path)
    ensures IsStep(MintNode(mint, value, st).0, p) <==> IsStep(value, p)
  {
    SamePaths(mint, value, st);
    StepPathsExact(MintNode(mint, value, st).0, p);
    StepPathsExact(value, p);
  }

  lemma IndexOfStep(v: Value, p: Path) returns (i: nat)
    requires IsStep(v, p)
    ensures i < |StepPaths(v)| == |Ids(v)| && StepPaths(v)[i] == p && IdAt(v, p) == Ids(v)[i]
  {
    StepPathsExact(v, p);
    StepsCarry(v);
    i :| 0 <= i < |StepPaths(v)| && StepPaths(v)[i] == p;
    assert CarriesOne(v, StepPaths(v)[i], Ids(v)[i]);
  }

  /** An unseen well-formed id is kept at the first step node, in document order, that has it. */
  lemma FirstIdIsKept(mint: nat -> JsString, value: Value, seen: set<JsString>, i: nat)
    requires FreshMints(mint, Ids(value), State(seen, 0)) && i < |StepPaths(value)|
    requires var id := IdAt(value, StepPaths(value)[i]);
             && StepIdForm(id) && id.s !in seen
             && forall k :: 0 <= k < i ==> IdAt(value, StepPaths(value)[k]) != id
    ensures IdAt(MintNode(mint, value, State(seen, 0)).0, StepPaths(value)[i]) == IdAt(value, StepPaths(value)[i])
  {
    var r := MintNode(mint, value, State(seen, 0)).0;
    MintOnlyRepairs(mint, value, seen);
    SamePaths(mint, value, State(seen, 0));
    StepsCarry(r);
    StepsCarry(value);
    assert CarriesOne(r, StepPaths(r)[i], Ids(r)[i]) && CarriesOne(value, StepPaths(value)[i], Ids(value)[i]);
    forall k | 0 <= k < i ensures Ids(value)[k] != Ids(value)[i] {
      assert CarriesOne(value, StepPaths(value)[k], Ids(value)[k]);
    }
    FormIsStepId(Ids(value)[i].s);
    assert FirstSeen(Ids(value), i, seen);
  }
}
