/** Where the step nodes of a raw candidate stand, and what minting does at every path of it. */
module MintStepIdsPaths {
  import opened JsText
  import opened CanonicalJson
  import opened MintStepIds
  import opened MintStepIdsProofs

  datatype Part = Key(name: JsString) | Index(i: nat)

  type Path = seq<Part>

  // ---- going down a JSON tree

  /** The value of the first field with a name. */
  function Lookup(fields: seq<Field>, name: JsString): (r: Option<Value>)
    ensures r.Some? ==> exists i :: 0 <= i < |fields| && fields[i].val == r.value
  {
    if fields == [] then None
    else if fields[0].key == name then Some(fields[0].val)
    else Lookup(fields[1..], name)
  }

  function At(v: Value, path: Path): Option<Value>
    decreases |path|
  {
    if path == [] then Some(v)
    else match path[0]
      case Key(name) =>
        var c := if v.Obj? then Lookup(v.fields, name) else None;
        if c.Some? then At(c.value, path[1..]) else None
      case Index(i) => if v.Arr? && i < |v.items| then At(v.items[i], path[1..]) else None
  }

  predicate IsKind(v: Value, kind: string) {
    v.Obj? && Lookup(v.fields, Ascii("kind")) == Some(Str(Ascii(kind)))
  }

  /** The items of the array that an object has under a name. */
  function ItemsUnder(v: Value, name: string): (r: seq<Value>)
    ensures r != [] ==> v.Obj? && exists i :: 0 <= i < |v.fields| && v.fields[i].val == Arr(r)
  {
    if v.Obj? && Lookup(v.fields, Ascii(name)).Some? && Lookup(v.fields, Ascii(name)).value.Arr? then
      Lookup(v.fields, Ascii(name)).value.items
    else []
  }

  /** The path goes to an item of the array under a name. */
  predicate EntersItem(v: Value, name: string, path: Path) {
    |path| >= 2 && path[0] == Key(Ascii(name)) && path[1].Index? && path[1].i < |ItemsUnder(v, name)|
  }

  /** The path goes to an item of `steps` of a lane. */
  predicate EntersLane(v: Value, path: Path) {
    EntersItem(v, "branches", path) && EntersItem(ItemsUnder(v, "branches")[path[1].i], "steps", path[2..])
  }

  /**
   * The places of step nodes: the root; the items of "steps" of a loop; the items of "steps" of each
   * lane in "branches", and the items of "else", of a branch.
   */
  predicate StepPlace(v: Value, path: Path)
    decreases |path|
  {
    || path == []
    || (IsKind(v, "for_each") && EntersItem(v, "steps", path) &&
        StepPlace(ItemsUnder(v, "steps")[path[1].i], path[2..]))
    || (IsKind(v, "branch") && EntersItem(v, "else", path) &&
        StepPlace(ItemsUnder(v, "else")[path[1].i], path[2..]))
    || (IsKind(v, "branch") && EntersLane(v, path) &&
        StepPlace(ItemsUnder(ItemsUnder(v, "branches")[path[1].i], "steps")[path[3].i], path[4..]))
  }

  /** The path leads to a step node that is an object. */
  predicate IsStep(v: Value, path: Path) {
    StepPlace(v, path) && At(v, path).Some? && At(v, path).value.Obj?
  }

  /** The id of the object at a path, undefined if it has none. */
  function IdAt(v: Value, path: Path): Value {
    match At(v, path)
    case Some(Obj(fields)) => (match Lookup(fields, Ascii("id")) case Some(id) => id case None => Undefined)
    case _ => Undefined
  }

  // ---- lookups and the shape of a node

  lemma {:induction false} LookupIsGet(fields: seq<Field>, name: JsString)
    ensures var n := KeyIndex(fields, name);
            Lookup(fields, name) == if n < |fields| then Some(fields[n].val) else None
  {
    if fields != [] && fields[0].key != name {
      LookupIsGet(fields[1..], name);
    }
  }

  lemma ItemsAre(fields: seq<Field>, name: string)
    ensures ItemsUnder(Obj(fields), name) ==
            var at := ArrayAt(fields, Ascii(name)); if at.Some? then fields[at.value].val.items else []
  {
    LookupIsGet(fields, Ascii(name));
  }

  lemma KindIs(fields: seq<Field>, kind: string)
    ensures IsKind(Obj(fields), kind) <==> Get(fields, KIND) == Str(Ascii(kind))
  {
    LookupIsGet(fields, KIND);
  }

  // ---- the paths of the step nodes, in document order

  /** The paths below a prefix. */
  function Under(prefix: Path, paths: seq<Path>): (r: seq<Path>)
    ensures |r| == |paths| && forall k :: 0 <= k < |r| ==> r[k] == prefix + paths[k]
  {
    seq(|paths|, k requires 0 <= k < |paths| => prefix + paths[k])
  }

  function StepPaths(v: Value): seq<Path>
    decreases v, 2
  {
    if !v.Obj? then [] else [[]] + LoopPaths(v) + BranchPaths(v) + ElsePaths(v)
  }

  function LoopPaths(v: Value): seq<Path>
    decreases v, 1
  {
    if IsKind(v, "for_each") then ItemPaths(v, "steps") else []
  }

  function BranchPaths(v: Value): seq<Path>
    decreases v, 1
  {
    var lanes := ItemsUnder(v, "branches");
    if IsKind(v, "branch") && lanes != [] then Under([Key(Ascii("branches"))], PathsOfLanes(lanes, 0)) else []
  }

  function ElsePaths(v: Value): seq<Path>
    decreases v, 1
  {
    if IsKind(v, "branch") then ItemPaths(v, "else") else []
  }

  function ItemPaths(v: Value, name: string): seq<Path>
    decreases v, 0
  {
    var items := ItemsUnder(v, name);
    if items == [] then [] else Under([Key(Ascii(name))], PathsOfItems(items, 0))
  }

  /** Of items, the first of which has index `first`. */
  function PathsOfItems(items: seq<Value>, first: nat): seq<Path>
    decreases items
  {
    if items == [] then [] else Under([Index(first)], StepPaths(items[0])) + PathsOfItems(items[1..], first + 1)
  }

  function PathsOfLanes(lanes: seq<Value>, first: nat): seq<Path>
    decreases lanes
  {
    if lanes == [] then []
    else Under([Index(first)], ItemPaths(lanes[0], "steps")) + PathsOfLanes(lanes[1..], first + 1)
  }

  // ---- they carry the ids

  /** Each path leads to an object with the id of that index. */
  ghost predicate Carry(v: Value, paths: seq<Path>, ids: seq<Value>) {
    && |paths| == |ids|
    && forall k :: 0 <= k < |paths| ==> CarriesOne(v, paths[k], ids[k])
  }

  predicate CarriesOne(v: Value, path: Path, id: Value) {
    At(v, path).Some? && At(v, path).value.Obj? && IdAt(v, path) == id
  }

  lemma {:induction false} AtConcat(v: Value, p: Path, q: Path)
    ensures At(v, p + q) == match At(v, p) case Some(w) => At(w, q) case None => None
    decreases |p|
  {
    if p == [] {
      assert p + q == q;
    } else {
      assert (p + q)[1..] == p[1..] + q;
      match p[0] {
        case Key(name) =>
          var c := if v.Obj? then Lookup(v.fields, name) else None;
          if c.Some? { AtConcat(c.value, p[1..], q); }
        case Index(i) => if v.Arr? && i < |v.items| { AtConcat(v.items[i], p[1..], q); }
      }
    }
  }

  lemma CarryUnder(v: Value, prefix: Path, w: Value, paths: seq<Path>, ids: seq<Value>)
    requires At(v, prefix) == Some(w) && Carry(w, paths, ids)
    ensures Carry(v, Under(prefix, paths), ids)
  {
    forall k | 0 <= k < |paths| ensures CarriesOne(v, prefix + paths[k], ids[k]) {
      assert CarriesOne(w, paths[k], ids[k]);
      AtConcat(v, prefix, paths[k]);
    }
  }

  lemma CarryConcat(v: Value, p: seq<Path>, a: seq<Value>, q: seq<Path>, b: seq<Value>)
    requires Carry(v, p, a) && Carry(v, q, b)
    ensures Carry(v, p + q, a + b)
  {
    forall k | 0 <= k < |p + q| ensures CarriesOne(v, (p + q)[k], (a + b)[k]) {
      if k < |p| {
        assert CarriesOne(v, p[k], a[k]);
      } else {
        assert CarriesOne(v, q[k - |p|], b[k - |p|]);
      }
    }
  }

  lemma {:induction false} ItemsCarry(list: seq<Value>, first: nat, items: seq<Value>)
    requires first <= |list| && items == list[first..]
    ensures Carry(Arr(list), PathsOfItems(items, first), IdsOfList(items))
    decreases items
  {
    if items != [] {
      StepsCarry(items[0]);
      assert At(Arr(list), [Index(first)]) == Some(items[0]) by { assert [Index(first)][1..] == []; }
      CarryUnder(Arr(list), [Index(first)], items[0], StepPaths(items[0]), Ids(items[0]));
      ItemsCarry(list, first + 1, items[1..]);
      CarryConcat(Arr(list), Under([Index(first)], StepPaths(items[0])), Ids(items[0]),
                  PathsOfItems(items[1..], first + 1), IdsOfList(items[1..]));
    }
  }

  lemma {:induction false} ItemPathsCarry(v: Value, name: string)
    requires v.Obj?
    ensures Carry(v, ItemPaths(v, name), IdsAt(v.fields, ArrayAt(v.fields, Ascii(name))))
    decreases v, 0
  {
    var items := ItemsUnder(v, name);
    ItemsAre(v.fields, name);
    if items != [] {
      assert items[0..] == items;
      ItemsCarry(items, 0, items);
      AtName(v, name);
      CarryUnder(v, [Key(Ascii(name))], Arr(items), PathsOfItems(items, 0), IdsOfList(items));
    }
  }

  lemma AtName(v: Value, name: string)
    requires ItemsUnder(v, name) != []
    ensures At(v, [Key(Ascii(name))]) == Some(Arr(ItemsUnder(v, name)))
  {
    assert [Key(Ascii(name))][1..] == [];
  }

  lemma {:induction false} LaneCarries(lane: Value)
    ensures Carry(lane, ItemPaths(lane, "steps"), IdsOfLane(lane))
    decreases lane, 1
  {
    if lane.Obj? {
      ItemPathsCarry(lane, "steps");
    }
  }

  lemma {:induction false} LanesCarry(list: seq<Value>, first: nat, lanes: seq<Value>)
    requires first <= |list| && lanes == list[first..]
    ensures Carry(Arr(list), PathsOfLanes(lanes, first), IdsOfLanes(lanes))
    decreases lanes
  {
    if lanes != [] {
      LaneCarries(lanes[0]);
      assert At(Arr(list), [Index(first)]) == Some(lanes[0]) by { assert [Index(first)][1..] == []; }
      CarryUnder(Arr(list), [Index(first)], lanes[0], ItemPaths(lanes[0], "steps"), IdsOfLane(lanes[0]));
      LanesCarry(list, first + 1, lanes[1..]);
      CarryConcat(Arr(list), Under([Index(first)], ItemPaths(lanes[0], "steps")), IdsOfLane(lanes[0]),
                  PathsOfLanes(lanes[1..], first + 1), IdsOfLanes(lanes[1..]));
    }
  }

  /** The ids of the lists below a node, one kind of list at a time. */
  function LoopIds(fields: seq<Field>): seq<Value> { IdsAt(fields, ShapeOf(fields).loop) }

  function BranchIds(fields: seq<Field>): seq<Value> {
    var at := ShapeOf(fields).branches;
    if at.None? then [] else IdsOfLanes(fields[at.value].val.items)
  }

  function ElseIds(fields: seq<Field>): seq<Value> { IdsAt(fields, ShapeOf(fields).otherwise) }

  lemma {:induction false} LoopCarries(v: Value)
    requires v.Obj?
    ensures Carry(v, LoopPaths(v), LoopIds(v.fields))
    decreases v, 1
  {
    KindIs(v.fields, "for_each");
    ItemPathsCarry(v, "steps");
  }

  lemma {:induction false} ElseCarries(v: Value)
    requires v.Obj?
    ensures Carry(v, ElsePaths(v), ElseIds(v.fields))
    decreases v, 1
  {
    KindIs(v.fields, "branch");
    ItemPathsCarry(v, "else");
  }

  lemma {:induction false} BranchCarries(v: Value)
    requires v.Obj?
    ensures Carry(v, BranchPaths(v), BranchIds(v.fields))
    decreases v, 1
  {
    KindIs(v.fields, "branch");
    ItemsAre(v.fields, "branches");
    var lanes := ItemsUnder(v, "branches");
    if IsKind(v, "branch") && lanes != [] {
      assert lanes[0..] == lanes;
      LanesCarry(lanes, 0, lanes);
      AtName(v, "branches");
      CarryUnder(v, [Key(Ascii("branches"))], Arr(lanes), PathsOfLanes(lanes, 0), IdsOfLanes(lanes));
    }
  }

  lemma RootCarries(v: Value)
    requires v.Obj?
    ensures Carry(v, [[]], [Get(v.fields, ID)])
  {
    LookupIsGet(v.fields, ID);
  }

  /** The paths of the step nodes carry the ids of the tree, in its order. */
  lemma {:induction false} StepsCarry(v: Value)
    ensures Carry(v, StepPaths(v), Ids(v))
    decreases v, 2
  {
    if v.Obj? {
      RootCarries(v);
      LoopCarries(v);
      BranchCarries(v);
      ElseCarries(v);
      CarryConcat(v, [[]], [Get(v.fields, ID)], LoopPaths(v), LoopIds(v.fields));
      CarryConcat(v, [[]] + LoopPaths(v), [Get(v.fields, ID)] + LoopIds(v.fields), BranchPaths(v), BranchIds(v.fields));
      CarryConcat(v, [[]] + LoopPaths(v) + BranchPaths(v),
                  [Get(v.fields, ID)] + LoopIds(v.fields) + BranchIds(v.fields),
                  ElsePaths(v), ElseIds(v.fields));
    }
  }

  // ---- they are all of them, and only they

  lemma UnderHolds(prefix: Path, paths: seq<Path>, path: Path)
    requires path in paths
    ensures prefix + path in Under(prefix, paths)
  {
    var k :| 0 <= k < |paths| && paths[k] == path;
    assert Under(prefix, paths)[k] == prefix + path;
  }

  lemma UnderOnly(prefix: Path, paths: seq<Path>, path: Path) returns (rest: Path)
    requires path in Under(prefix, paths)
    ensures rest in paths && path == prefix + rest
  {
    var k :| 0 <= k < |paths| && Under(prefix, paths)[k] == path;
    rest := paths[k];
  }

  lemma {:induction false} ItemListed(items: seq<Value>, first: nat, i: nat, path: Path)
    requires i < |items| && path in StepPaths(items[i])
    ensures [Index(first + i)] + path in PathsOfItems(items, first)
    decreases i
  {
    if i == 0 {
      UnderHolds([Index(first)], StepPaths(items[0]), path);
    } else {
      ItemListed(items[1..], first + 1, i - 1, path);
    }
  }

  lemma {:induction false} LaneListed(lanes: seq<Value>, first: nat, i: nat, path: Path)
    requires i < |lanes| && path in ItemPaths(lanes[i], "steps")
    ensures [Index(first + i)] + path in PathsOfLanes(lanes, first)
    decreases i
  {
    if i == 0 {
      UnderHolds([Index(first)], ItemPaths(lanes[0], "steps"), path);
    } else {
      LaneListed(lanes[1..], first + 1, i - 1, path);
    }
  }

  lemma ItemPathListed(v: Value, name: string, path: Path)
    requires EntersItem(v, name, path) && path[2..] in StepPaths(ItemsUnder(v, name)[path[1].i])
    ensures path in ItemPaths(v, name)
  {
    var items, i := ItemsUnder(v, name), path[1].i;
    ItemListed(items, 0, i, path[2..]);
    UnderHolds([Key(Ascii(name))], PathsOfItems(items, 0), [Index(i)] + path[2..]);
    TwoParts(path);
  }

  lemma TwoParts(path: Path)
    requires |path| >= 2
    ensures path == [path[0]] + ([path[1]] + path[2..])
  {}

  lemma LanePathListed(v: Value, path: Path)
    requires IsKind(v, "branch") && EntersLane(v, path)
    requires path[4..] in StepPaths(ItemsUnder(ItemsUnder(v, "branches")[path[1].i], "steps")[path[3].i])
    ensures path in BranchPaths(v)
  {
    var lanes, i := ItemsUnder(v, "branches"), path[1].i;
    assert path[2..][2..] == path[4..];
    ItemPathListed(lanes[i], "steps", path[2..]);
    LaneListed(lanes, 0, i, path[2..]);
    UnderHolds([Key(Ascii("branches"))], PathsOfLanes(lanes, 0), [Index(i)] + path[2..]);
    TwoParts(path);
  }

  /** Going to an item takes two parts of the path. */
  lemma AtItem(v: Value, name: string, path: Path)
    requires EntersItem(v, name, path)
    ensures At(v, path) == At(ItemsUnder(v, name)[path[1].i], path[2..])
  {
    AtName(v, name);
    assert path == [Key(Ascii(name))] + path[1..] && path[1..][1..] == path[2..];
    AtConcat(v, [Key(Ascii(name))], path[1..]);
  }

  lemma AtLaneItem(v: Value, path: Path)
    requires EntersLane(v, path)
    ensures At(v, path) == At(ItemsUnder(ItemsUnder(v, "branches")[path[1].i], "steps")[path[3].i], path[4..])
  {
    AtItem(v, "branches", path);
    AtItem(ItemsUnder(v, "branches")[path[1].i], "steps", path[2..]);
    assert path[2..][2..] == path[4..];
  }

  /** Every step node is listed. */
  lemma {:induction false} StepIsListed(v: Value, path: Path)
    requires IsStep(v, path)
    ensures path in StepPaths(v)
    decreases |path|
  {
    if path == [] {
      assert StepPaths(v)[0] == [];
    } else if IsKind(v, "for_each") && EntersItem(v, "steps", path) &&
        StepPlace(ItemsUnder(v, "steps")[path[1].i], path[2..]) {
      AtItem(v, "steps", path);
      StepIsListed(ItemsUnder(v, "steps")[path[1].i], path[2..]);
      ItemPathListed(v, "steps", path);
    } else if IsKind(v, "branch") && EntersItem(v, "else", path) &&
        StepPlace(ItemsUnder(v, "else")[path[1].i], path[2..]) {
      AtItem(v, "else", path);
      StepIsListed(ItemsUnder(v, "else")[path[1].i], path[2..]);
      ItemPathListed(v, "else", path);
    } else {
      AtLaneItem(v, path);
      StepIsListed(ItemsUnder(ItemsUnder(v, "branches")[path[1].i], "steps")[path[3].i], path[4..]);
      LanePathListed(v, path);
    }
  }

  lemma HeadOnly(first: nat, paths: seq<Path>, path: Path)
    requires path in Under([Index(first)], paths)
    ensures path != [] && path[0] == Index(first) && path[1..] in paths
  {
    var rest := UnderOnly([Index(first)], paths, path);
    assert path[1..] == rest;
  }

  lemma {:induction false} ItemOnly(items: seq<Value>, first: nat, path: Path)
    requires path in PathsOfItems(items, first)
    ensures path != [] && path[0].Index? && first <= path[0].i < first + |items|
    ensures path[1..] in StepPaths(items[path[0].i - first])
    decreases items
  {
    if path in Under([Index(first)], StepPaths(items[0])) {
      HeadOnly(first, StepPaths(items[0]), path);
    } else {
      ItemOnly(items[1..], first + 1, path);
    }
  }

  lemma {:induction false} LaneOnly(lanes: seq<Value>, first: nat, path: Path)
    requires path in PathsOfLanes(lanes, first)
    ensures path != [] && path[0].Index? && first <= path[0].i < first + |lanes|
    ensures path[1..] in ItemPaths(lanes[path[0].i - first], "steps")
    decreases lanes
  {
    if path in Under([Index(first)], ItemPaths(lanes[0], "steps")) {
      HeadOnly(first, ItemPaths(lanes[0], "steps"), path);
    } else {
      LaneOnly(lanes[1..], first + 1, path);
      assert lanes[1..][path[0].i - first - 1] == lanes[path[0].i - first];
    }
  }

  lemma ItemPathOnly(v: Value, name: string, path: Path)
    requires path in ItemPaths(v, name)
    ensures EntersItem(v, name, path) && path[2..] in StepPaths(ItemsUnder(v, name)[path[1].i])
  {
    var items := ItemsUnder(v, name);
    var rest := UnderOnly([Key(Ascii(name))], PathsOfItems(items, 0), path);
    ItemOnly(items, 0, rest);
    assert rest == path[1..] && rest[1..] == path[2..];
  }

  lemma LanePathOnly(v: Value, path: Path)
    requires path in BranchPaths(v)
    ensures IsKind(v, "branch") && EntersLane(v, path)
    ensures path[4..] in StepPaths(ItemsUnder(ItemsUnder(v, "branches")[path[1].i], "steps")[path[3].i])
  {
    var lanes := ItemsUnder(v, "branches");
    var rest := UnderOnly([Key(Ascii("branches"))], PathsOfLanes(lanes, 0), path);
    LaneOnly(lanes, 0, rest);
    assert rest == path[1..] && rest[1..] == path[2..];
    ItemPathOnly(lanes[path[1].i], "steps", path[2..]);
    assert path[2..][2..] == path[4..];
  }

  /** Only places of step nodes are listed. */
  lemma {:induction false} ListedIsPlace(v: Value, path: Path)
    requires path in StepPaths(v)
    ensures StepPlace(v, path)
    decreases |path|
  {
    if path in LoopPaths(v) {
      ItemPathOnly(v, "steps", path);
      ListedIsPlace(ItemsUnder(v, "steps")[path[1].i], path[2..]);
    } else if path in ElsePaths(v) {
      ItemPathOnly(v, "else", path);
      ListedIsPlace(ItemsUnder(v, "else")[path[1].i], path[2..]);
    } else if path in BranchPaths(v) {
      LanePathOnly(v, path);
      ListedIsPlace(ItemsUnder(ItemsUnder(v, "branches")[path[1].i], "steps")[path[3].i], path[4..]);
    }
  }

  /** The listed paths are exactly those of the step nodes. */
  lemma StepPathsExact(v: Value, path: Path)
    ensures path in StepPaths(v) <==> IsStep(v, path)
  {
    if path in StepPaths(v) {
      ListedIsPlace(v, path);
      StepsCarry(v);
      var k :| 0 <= k < |StepPaths(v)| && StepPaths(v)[k] == path;
      assert CarriesOne(v, StepPaths(v)[k], Ids(v)[k]);
    }
    if IsStep(v, path) {
      StepIsListed(v, path);
    }
  }
}
