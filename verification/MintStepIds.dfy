/** `mintStepIds`: gives every step node of a raw candidate a well-formed id of
    its own and touches nothing else. */
module MintStepIds {
  import opened JsText
  import opened CanonicalJson

  datatype Option<+T> = None | Some(value: T)

  const ID := Ascii("id")
  const KIND := Ascii("kind")
  const STEPS := Ascii("steps")
  const BRANCHES := Ascii("branches")
  const ELSE := Ascii("else")
  const FOR_EACH := Ascii("for_each")
  const BRANCH := Ascii("branch")

  /** The step id pattern: `st_` and 16 lower-case letters or digits. */
  predicate IsStepId(s: JsString) {
    && |s| == 19
    && s[..3] == Ascii("st_")
    && forall i :: 3 <= i < 19 ==> 0x30 <= s[i] <= 0x39 || 0x61 <= s[i] <= 0x7A
  }

  // ---- Property access ----

  /** The index of a key, or the length when the object lacks it. */
  function KeyIndex(fields: seq<Field>, key: JsString): (n: nat)
    ensures n <= |fields|
    ensures n < |fields| ==> fields[n].key == key
    ensures forall i :: 0 <= i < n ==> fields[i].key != key
  {
    if fields == [] || fields[0].key == key then 0 else 1 + KeyIndex(fields[1..], key)
  }

  function Get(fields: seq<Field>, key: JsString): Value {
    var n := KeyIndex(fields, key);
    if n < |fields| then fields[n].val else Undefined
  }

  /** Assignment to a property: in place, or at the end when it is new. */
  function Put(fields: seq<Field>, key: JsString, val: Value): seq<Field> {
    var n := KeyIndex(fields, key);
    if n < |fields| then fields[n := Field(key, val)] else fields + [Field(key, val)]
  }

  /** The index of a key that holds an array. */
  function ArrayAt(fields: seq<Field>, key: JsString): (r: Option<nat>)
    ensures r.Some? ==> r.value < |fields| && fields[r.value].key == key && fields[r.value].val.Arr?
  {
    var n := KeyIndex(fields, key);
    if n < |fields| && fields[n].val.Arr? then Some(n) else None
  }

  /** Where the nested lists of a step node are. */
  datatype Shape = Shape(loop: Option<nat>, branches: Option<nat>, otherwise: Option<nat>)

  function ShapeOf(fields: seq<Field>): (r: Shape)
    ensures HoldsArray(fields, r.loop) && HoldsArray(fields, r.branches) && HoldsArray(fields, r.otherwise)
  {
    var kind := Get(fields, KIND);
    Shape(if kind == Str(FOR_EACH) then ArrayAt(fields, STEPS) else None,
          if kind == Str(BRANCH) then ArrayAt(fields, BRANCHES) else None,
          if kind == Str(BRANCH) then ArrayAt(fields, ELSE) else None)
  }

  /** An index, if any, that holds an array. */
  predicate HoldsArray(fields: seq<Field>, at: Option<nat>) {
    at.Some? ==> at.value < |fields| && fields[at.value].val.Arr?
  }

  function WithItems(fields: seq<Field>, at: Option<nat>, items: seq<Value>): (r: seq<Field>)
    ensures |r| == |fields|
  {
    if at.Some? && at.value < |fields| then fields[at.value := Field(fields[at.value].key, Arr(items))] else fields
  }

  function Assemble(
    fields: seq<Field>, shape: Shape, loop: seq<Value>, branches: seq<Value>, otherwise: seq<Value>): (r: seq<Field>)
    ensures |r| == |fields|
  {
    WithItems(WithItems(WithItems(fields, shape.loop, loop), shape.branches, branches), shape.otherwise, otherwise)
  }

  // ---- The walk ----

  /** The mutable part: the ids seen so far and how many ids were minted. */
  datatype State = State(seen: set<JsString>, next: nat)

  predicate NeedsMint(id: Value, seen: set<JsString>) {
    !id.Str? || !IsStepId(id.s) || id.s in seen
  }

  function MintId(mint: nat -> JsString, id: Value, st: State): (JsString, State) {
    if NeedsMint(id, st.seen) then (mint(st.next), State(st.seen + {mint(st.next)}, st.next + 1))
    else (id.s, State(st.seen + {id.s}, st.next))
  }

  function MintNode(mint: nat -> JsString, node: Value, st: State): (Value, State)
    decreases node, 1
  {
    if !node.Obj? then (node, st)
    else
      var (id, st1) := MintId(mint, Get(node.fields, ID), st);
      var (fields, st2) := MintChildren(mint, node.fields, st1);
      (Obj(Put(fields, ID, Str(id))), st2)
  }

  /** The part of `MintNode` below the node's own id. */
  function MintChildren(mint: nat -> JsString, fields: seq<Field>, st: State): (seq<Field>, State)
    decreases fields, 2
  {
    var shape := ShapeOf(fields);
    var (loop, st2) := MintAt(mint, fields, shape.loop, st);
    var (branches, st3) := if shape.branches.None? then ([], st2)
      else MintLanes(mint, fields[shape.branches.value].val.items, st2);
    var (otherwise, st4) := MintAt(mint, fields, shape.otherwise, st3);
    (Assemble(fields, shape, loop, branches, otherwise), st4)
  }

  function MintAt(mint: nat -> JsString, fields: seq<Field>, at: Option<nat>, st: State): (seq<Value>, State)
    requires HoldsArray(fields, at)
    decreases fields, 1
  {
    if at.None? then ([], st) else MintList(mint, fields[at.value].val.items, st)
  }

  function MintList(mint: nat -> JsString, items: seq<Value>, st: State): (seq<Value>, State)
    decreases items
  {
    if items == [] then ([], st)
    else
      var (head, st1) := MintNode(mint, items[0], st);
      var (tail, st2) := MintList(mint, items[1..], st1);
      ([head] + tail, st2)
  }

  function MintLane(mint: nat -> JsString, lane: Value, st: State): (Value, State)
    decreases lane, 0
  {
    if !lane.Obj? || ArrayAt(lane.fields, STEPS).None? then (lane, st)
    else
      var at := ArrayAt(lane.fields, STEPS);
      var (items, st1) := MintAt(mint, lane.fields, at, st);
      (Obj(WithItems(lane.fields, at, items)), st1)
  }

  function MintLanes(mint: nat -> JsString, lanes: seq<Value>, st: State): (seq<Value>, State)
    decreases lanes
  {
    if lanes == [] then ([], st)
    else
      var (head, st1) := MintLane(mint, lanes[0], st);
      var (tail, st2) := MintLanes(mint, lanes[1..], st1);
      ([head] + tail, st2)
  }

  /** The same walk as the source runs it, on mutable state. */
  class Minter {
    const mint: nat -> JsString
    var seenIds: set<JsString>
    var minted: nat

    constructor (mint: nat -> JsString, seen: set<JsString>)
      ensures this.mint == mint && State(seenIds, minted) == State(seen, 0)
    {
      this.mint := mint;
      seenIds, minted := seen, 0;
    }

    method NewStepId() returns (id: JsString)
      modifies this
      ensures id == mint(old(minted)) && minted == old(minted) + 1 && seenIds == old(seenIds)
    {
      id := mint(minted);
      minted := minted + 1;
    }

    method TakeId(given: Value) returns (id: JsString)
      modifies this
      ensures (id, State(seenIds, minted)) == MintId(mint, given, State(old(seenIds), old(minted)))
    {
      if NeedsMint(given, seenIds) { id := NewStepId(); } else { id := given.s; }
      seenIds := seenIds + {id};
    }

    method Visit(node: Value) returns (result: Value)
      modifies this
      ensures (result, State(seenIds, minted)) == MintNode(mint, node, State(old(seenIds), old(minted)))
      decreases node, 3
    {
      if !node.Obj? { return node; }
      var step := node.fields;
      var id := TakeId(Get(step, ID));
      var fields := VisitChildren(step);
      result := Obj(Put(fields, ID, Str(id)));
    }

    method VisitChildren(step: seq<Field>) returns (fields: seq<Field>)
      modifies this
      ensures (fields, State(seenIds, minted)) == MintChildren(mint, step, State(old(seenIds), old(minted)))
      decreases step, 3
    {
      var shape := ShapeOf(step);
      fields := VisitAt(step, step, shape.loop);
      if shape.branches.Some? {
        var lanes := VisitLanes(step[shape.branches.value].val.items);
        fields := WithItems(fields, shape.branches, lanes);
      }
      fields := VisitAt(step, fields, shape.otherwise);
    }

    method VisitAt(step: seq<Field>, fields: seq<Field>, at: Option<nat>) returns (result: seq<Field>)
      requires HoldsArray(step, at)
      modifies this
      ensures var (items, st) := MintAt(mint, step, at, State(old(seenIds), old(minted)));
        State(seenIds, minted) == st && result == WithItems(fields, at, items)
      decreases step, 2
    {
      result := fields;
      if at.Some? {
        var items := VisitList(step[at.value].val.items);
        result := WithItems(fields, at, items);
      }
    }

    method VisitList(items: seq<Value>) returns (result: seq<Value>)
      modifies this
      ensures (result, State(seenIds, minted)) == MintList(mint, items, State(old(seenIds), old(minted)))
      decreases items
    {
      if items == [] { return []; }
      var head := Visit(items[0]);
      var tail := VisitList(items[1..]);
      result := [head] + tail;
    }

    method VisitLanes(lanes: seq<Value>) returns (result: seq<Value>)
      modifies this
      ensures (result, State(seenIds, minted)) == MintLanes(mint, lanes, State(old(seenIds), old(minted)))
      decreases lanes
    {
      if lanes == [] { return []; }
      var head := lanes[0];
      if head.Obj? && ArrayAt(head.fields, STEPS).Some? {
        var at := ArrayAt(head.fields, STEPS);
        var fields := VisitAt(head.fields, head.fields, at);
        head := Obj(fields);
      }
      var tail := VisitLanes(lanes[1..]);
      result := [head] + tail;
    }
  }

  /** `mintStepIds(value, seen)`. */
  method RunMintStepIds(mint: nat -> JsString, value: Value, seen: set<JsString>) returns (result: Value)
    ensures result == MintNode(mint, value, State(seen, 0)).0
  {
    var minter := new Minter(mint, seen);
    result := minter.Visit(value);
  }
}
