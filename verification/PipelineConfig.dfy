/** The pipeline step tree and its document-order walk. */
module PipelineConfig {

  datatype Option<+T> = None | Some(value: T)

  /** A step, reduced to its id and its nested lists. `Action` stands for tool,
      infer, agent and state steps. */
  datatype Step =
    | Action(id: string)
    | Filter(id: string)
    | ForEach(id: string, body: seq<Step>, maxItems: nat, onItemError: ItemErrorPolicy)
    | Branch(id: string, lanes: seq<Lane>, otherwise: Option<StepList>)

  datatype ItemErrorPolicy = Continue | Halt

  datatype Lane = Lane(steps: seq<Step>)
  datatype StepList = StepList(steps: seq<Step>)

  datatype Slot = Body | Then | Else

  datatype PathPart = Index(i: nat) | Key(name: string)

  type Path = seq<PathPart>

  datatype Entry = Entry(
    step: Step,
    ancestors: seq<Step>,
    slot: Option<Slot>,
    branchIndex: Option<nat>,
    configPath: Path)

  /** Where a list of steps hangs in the tree. */
  datatype Context = Context(ancestors: seq<Step>, slot: Option<Slot>, branchIndex: Option<nat>, prefix: Path)

  const ROOT := Context([], None, None, [])

  function EntryAt(step: Step, at: Context, index: nat): Entry {
    Entry(step, at.ancestors, at.slot, at.branchIndex, at.prefix + [Index(index)])
  }

  function BodyContext(step: Step, at: Context, index: nat): Context {
    Context(at.ancestors + [step], Some(Body), None, at.prefix + [Index(index), Key("steps")])
  }

  function LaneContext(step: Step, at: Context, index: nat, lane: nat): Context {
    Context(at.ancestors + [step], Some(Then), Some(lane),
            at.prefix + [Index(index), Key("branches"), Index(lane), Key("steps")])
  }

  function ElseContext(step: Step, at: Context, index: nat): Context {
    Context(at.ancestors + [step], Some(Else), None, at.prefix + [Index(index), Key("else")])
  }

  // ---- walkSteps, as a function ----

  /** The entries of `list[from..]`, in document order. */
  function WalkList(list: seq<Step>, from: nat, at: Context): seq<Entry>
    requires from <= |list|
    decreases list, 3, |list| - from
  {
    if from == |list| then [] else WalkStep(list[from], at, from) + WalkList(list, from + 1, at)
  }

  function WalkStep(step: Step, at: Context, index: nat): seq<Entry>
    decreases step, 2
  {
    [EntryAt(step, at, index)] + WalkChildren(step, at, index)
  }

  function WalkChildren(step: Step, at: Context, index: nat): seq<Entry>
    decreases step, 1
  {
    match step
    case ForEach(_, body, _, _) => WalkList(body, 0, BodyContext(step, at, index))
    case Branch(_, lanes, otherwise) => WalkLanes(step, 0, at, index) + WalkElse(step, at, index)
    case _ => []
  }

  function WalkLanes(step: Step, lane: nat, at: Context, index: nat): seq<Entry>
    requires step.Branch? && lane <= |step.lanes|
    decreases step, 0, |step.lanes| - lane
  {
    if lane == |step.lanes| then []
    else WalkList(step.lanes[lane].steps, 0, LaneContext(step, at, index, lane)) + WalkLanes(step, lane + 1, at, index)
  }

  function WalkElse(step: Step, at: Context, index: nat): seq<Entry>
    requires step.Branch?
    decreases step, 0, 0
  {
    if step.otherwise.None? then [] else WalkList(step.otherwise.value.steps, 0, ElseContext(step, at, index))
  }

  function WalkSteps(steps: seq<Step>): seq<Entry> { WalkList(steps, 0, ROOT) }

  // ---- walkSteps, as the source runs it: a visitor that pushes entries ----

  class Walker {
    var entries: seq<Entry>

    constructor ()
      ensures entries == []
    {
      entries := [];
    }

    method Visit(list: seq<Step>, at: Context)
      modifies this
      ensures entries == old(entries) + WalkList(list, 0, at)
      decreases list, 3
    {
      for index := 0 to |list|
        invariant entries + WalkList(list, index, at) == old(entries) + WalkList(list, 0, at)
      {
        ghost var before := entries;
        var step := list[index];
        entries := entries + [EntryAt(step, at, index)];
        match step {
          case ForEach(_, body, _, _) => Visit(body, BodyContext(step, at, index));
          case Branch(_, _, _) => VisitBranch(step, at, index);
          case _ =>
        }
        assert entries == before + WalkStep(step, at, index);
      }
    }

    method VisitBranch(step: Step, at: Context, index: nat)
      requires step.Branch?
      modifies this
      ensures entries == old(entries) + WalkChildren(step, at, index)
      decreases step, 1
    {
      for lane := 0 to |step.lanes|
        invariant entries + WalkLanes(step, lane, at, index) == old(entries) + WalkLanes(step, 0, at, index)
      {
        Visit(step.lanes[lane].steps, LaneContext(step, at, index, lane));
      }
      assert entries + [] == entries;
      assert old(entries) + WalkChildren(step, at, index) == entries + WalkElse(step, at, index);
      if step.otherwise.Some? { Visit(step.otherwise.value.steps, ElseContext(step, at, index)); }
    }
  }

  method RunWalkSteps(steps: seq<Step>) returns (entries: seq<Entry>)
    ensures entries == WalkSteps(steps)
  {
    var walker := new Walker();
    walker.Visit(steps, ROOT);
    entries := walker.entries;
  }

  // ---- Addresses ----

  /** The entry that a path leads to, taken part by part from the root. */
  function Follow(list: seq<Step>, at: Context, path: Path): Option<Entry>
    decreases |path|, 1
  {
    if path == [] || !path[0].Index? || path[0].i >= |list| then None
    else FollowStep(list[path[0].i], at, path[0].i, path[1..])
  }

  function FollowStep(step: Step, at: Context, index: nat, rest: Path): Option<Entry>
    decreases |rest|, 2
  {
    if rest == [] then Some(EntryAt(step, at, index))
    else match step
      case ForEach(_, body, _, _) =>
        if rest[0] == Key("steps") then Follow(body, BodyContext(step, at, index), rest[1..]) else None
      case Branch(_, lanes, otherwise) =>
        if |rest| >= 3 && rest[0] == Key("branches") && rest[1].Index? && rest[1].i < |lanes| &&
           rest[2] == Key("steps")
        then
          Follow(lanes[rest[1].i].steps, LaneContext(step, at, index, rest[1].i), rest[3..])
        else if rest[0] == Key("else") && otherwise.Some? then
          Follow(otherwise.value.steps, ElseContext(step, at, index), rest[1..])
        else None
      case _ => None
  }

  // ---- findStep and stepsBefore ----

  ghost predicate DistinctIds(entries: seq<Entry>) {
    forall i, j :: 0 <= i < j < |entries| ==> entries[i].step.id != entries[j].step.id
  }

  /** The index of the first entry with an id, or the length. */
  function FirstIndex(entries: seq<Entry>, id: string): (n: nat)
    ensures n <= |entries|
    ensures n < |entries| ==> entries[n].step.id == id
    ensures forall i :: 0 <= i < n ==> entries[i].step.id != id
  {
    if entries == [] || entries[0].step.id == id then 0 else 1 + FirstIndex(entries[1..], id)
  }

  method FindStep(steps: seq<Step>, id: string) returns (r: Option<Step>)
    ensures r.None? <==> forall e <- WalkSteps(steps) :: e.step.id != id
    ensures var entries := WalkSteps(steps);
            r.Some? ==> FirstIndex(entries, id) < |entries| && r.value == entries[FirstIndex(entries, id)].step
    ensures DistinctIds(WalkSteps(steps)) ==> forall e <- WalkSteps(steps) :: e.step.id == id ==> r == Some(e.step)
  {
    var entries := RunWalkSteps(steps);
    for i := 0 to |entries|
      invariant forall k :: 0 <= k < i ==> entries[k].step.id != id
    {
      if entries[i].step.id == id {
        assert entries[i] in WalkSteps(steps);
        return Some(entries[i].step);
      }
    }
    return None;
  }

  function AncestorIds(e: Entry): set<string> { set a | a in e.ancestors :: a.id }

  /** The filter of stepsBefore: not an ancestor of the target, and not inside a
      loop that does not enclose the target. */
  predicate Kept(e: Entry, target: Entry) {
    && e.step.id !in AncestorIds(target)
    && forall a <- e.ancestors :: a.ForEach? ==> a.id in AncestorIds(target)
  }

  /** The steps of `entries[from..to]` that the filter keeps, in order. */
  function KeptSteps(entries: seq<Entry>, from: nat, to: nat, target: Entry): seq<Step>
    requires from <= to <= |entries|
    decreases |entries| - from
  {
    if from == to then []
    else (if Kept(entries[from], target) then [entries[from].step] else []) + KeptSteps(entries, from + 1, to, target)
  }

  function StepsBefore(steps: seq<Step>, id: string): seq<Step> {
    var entries := WalkSteps(steps);
    var n := FirstIndex(entries, id);
    if n == |entries| then [] else KeptSteps(entries, 0, n, entries[n])
  }

  lemma {:induction false} KeptStepsHolds(entries: seq<Entry>, from: nat, to: nat, target: Entry, step: Step)
    requires from <= to <= |entries|
    ensures step in KeptSteps(entries, from, to, target) <==>
            (exists k :: from <= k < to && entries[k].step == step && Kept(entries[k], target))
    decreases |entries| - from
  {
    if from < to { KeptStepsHolds(entries, from + 1, to, target, step); }
  }

  /** The indices of the entries before `to` that the filter keeps, in order. */
  ghost predicate AreKept(entries: seq<Entry>, from: nat, to: nat, target: Entry, kept: seq<nat>) {
    && (forall k :: k in kept <==> from <= k < to && k < |entries| && Kept(entries[k], target))
    && (forall i, j :: 0 <= i < j < |kept| ==> kept[i] < kept[j])
  }

  lemma {:induction false} KeptInOrder(entries: seq<Entry>, from: nat, to: nat, target: Entry) returns (kept: seq<nat>)
    requires from <= to <= |entries|
    ensures AreKept(entries, from, to, target, kept)
    ensures |KeptSteps(entries, from, to, target)| == |kept|
    ensures forall i :: 0 <= i < |kept| ==>
              kept[i] < |entries| && KeptSteps(entries, from, to, target)[i] == entries[kept[i]].step
    decreases |entries| - from
  {
    if from == to {
      kept := [];
    } else {
      var rest := KeptInOrder(entries, from + 1, to, target);
      kept := (if Kept(entries[from], target) then [from] else []) + rest;
      assert forall i :: 0 <= i < |rest| ==> rest[i] in rest;
    }
  }

  /**
   * `stepsBefore` lists, in document order and one for each, the entries before the first one with the id
   * that the filter keeps; and nothing if there is no such entry.
   */
  lemma StepsBeforeInOrder(steps: seq<Step>, id: string) returns (kept: seq<nat>)
    ensures var entries, n := WalkSteps(steps), FirstIndex(WalkSteps(steps), id);
            && (n == |entries| ==> StepsBefore(steps, id) == [])
            && (n < |entries| ==>
                  && AreKept(entries, 0, n, entries[n], kept)
                  && |StepsBefore(steps, id)| == |kept|
                  && forall i :: 0 <= i < |kept| ==>
                       kept[i] < |entries| && StepsBefore(steps, id)[i] == entries[kept[i]].step)
  {
    var entries, n := WalkSteps(steps), FirstIndex(WalkSteps(steps), id);
    kept := [];
    if n < |entries| {
      kept := KeptInOrder(entries, 0, n, entries[n]);
    }
  }
}
