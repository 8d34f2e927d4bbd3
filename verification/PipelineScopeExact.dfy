/** The converse of scope soundness: an output that `stepsBefore` lists is in
    scope in some execution, unless it sits in a lane that excludes the target. */
module PipelineScopeExact {
  import opened PipelineConfig
  import opened PipelineWalk
  import opened PipelineScope

  /** Every loop may run at least one item (the schema's minimum). */
  ghost predicate Loopable(entries: seq<Entry>) {
    forall e <- entries :: e.step.ForEach? ==> e.step.maxItems >= 1
  }

  ghost predicate IsExported(e: Entry, entries: seq<Entry>, at: Context) {
    e in entries && forall a <- e.ancestors :: a.ForEach? ==> a in at.ancestors
  }

  lemma LoopableParts(a: seq<Entry>, b: seq<Entry>)
    requires Loopable(a + b)
    ensures Loopable(a) && Loopable(b)
  {
    assert forall e <- a :: e in a + b;
    assert forall e <- b :: e in a + b;
  }

  // ---- A list can run to its end with a given export in scope ----

  function Choose(lane: nat): seq<bool>
  {
    if lane == 0 then [true] else [false] + Choose(lane - 1)
  }

  lemma {:induction false} ChooseHolds(lane: nat, n: nat)
    requires lane < n
    ensures FirstHolding(Choose(lane), n) == lane
  {
    if lane > 0 { ChooseHolds(lane - 1, n - 1); }
  }

  lemma {:induction false} NoneHolds(n: nat)
    ensures FirstHolding([], n) == n
  {
    if n > 0 { NoneHolds(n - 1); }
  }

  lemma {:induction false} ListCompletes(
    list: seq<Step>, from: nat, at: Context, e: Entry, scope: set<string>)
    returns (run: ListRun)
    requires from <= |list| && Fresh(WalkList(list, from, at), at)
    ensures var t := RunList(list, from, run, scope);
      t.status.Completed? && scope <= t.scope && (IsExported(e, WalkList(list, from, at), at) ==> e.step.id in t.scope)
    decreases list, 3, |list| - from
  {
    if from == |list| {
      run := ListRun([]);
    } else {
      FreshParts(WalkStep(list[from], at, from), WalkList(list, from + 1, at), at);
      var first := StepCompletes(list[from], at, from, e, scope);
      var rest := ListCompletes(list, from + 1, at, e, RunStep(list[from], first, scope).scope);
      run := ListRun([first] + rest.steps);
      assert run.steps[1..] == rest.steps;
    }
  }

  lemma {:induction false} StepCompletes(
    step: Step, at: Context, index: nat, e: Entry, scope: set<string>)
    returns (run: StepRun)
    requires Fresh(WalkStep(step, at, index), at)
    ensures var t := RunStep(step, run, scope);
      t.status.Completed? && scope <= t.scope && (IsExported(e, WalkStep(step, at, index), at) ==> e.step.id in t.scope)
    decreases step, 2
  {
    var self, children := EntryAt(step, at, index), WalkChildren(step, at, index);
    FreshInside(self, children, at, BodyContext(step, at, index));
    match step
    case Action(_) => run := StepRun(true, [], []);
    case Filter(_) => run := StepRun(true, [], []);
    case ForEach(_, _, _, _) =>
      run := StepRun(true, [], []);
      assert RunInside(step, run, scope) == RunItems(step, [], 0, scope);
      if IsExported(e, WalkStep(step, at, index), at) && e != self {
        NotExportedFromLoop(step, at, index, e);
      }
    case Branch(_, lanes, otherwise) =>
      run := BranchCompletes(step, at, index, e, scope);
      assert RunInside(step, run, scope).status.Completed?;
  }

  /** Nothing inside a loop is exported from it. */
  lemma NotExportedFromLoop(step: Step, at: Context, index: nat, e: Entry)
    requires step.ForEach? && Fresh(WalkStep(step, at, index), at) && e in WalkChildren(step, at, index)
    ensures !IsExported(e, WalkStep(step, at, index), at)
  {
    var inner := BodyContext(step, at, index);
    WalkChildrenNested(step, at, index);
    assert inner.ancestors <= e.ancestors;
    assert e.ancestors[|at.ancestors|] == inner.ancestors[|at.ancestors|] == step;
    assert step in e.ancestors;
    assert WalkStep(step, at, index)[0] in WalkStep(step, at, index);
  }

  lemma {:induction false} BranchCompletes(
    step: Step, at: Context, index: nat, e: Entry, scope: set<string>)
    returns (run: StepRun)
    requires step.Branch? && Fresh(WalkChildren(step, at, index), BodyContext(step, at, index))
    ensures var t := RunInside(step, run, scope);
      t.status.Completed? && scope <= t.scope
        && (IsExported(e, WalkChildren(step, at, index), at) ==> e.step.id in t.scope)
    decreases step, 1
  {
    var n := |step.lanes|;
    var a, b := WalkLanes(step, 0, at, index), WalkElse(step, at, index);
    FreshParts(a, b, BodyContext(step, at, index));
    if e in a {
      var lane := LaneOf(step, 0, at, index, e);
      var laneAt := LaneContext(step, at, index, lane);
      var inner := ListCompletes(step.lanes[lane].steps, 0, laneAt, e, scope);
      ChooseHolds(lane, n);
      run := StepRun(true, Choose(lane), [inner]);
    } else {
      NoneHolds(n);
      if step.otherwise.Some? {
        var inner := ListCompletes(step.otherwise.value.steps, 0, ElseContext(step, at, index), e, scope);
        run := StepRun(true, [], [inner]);
      } else {
        run := StepRun(true, [], []);
      }
    }
  }

  /** The lane an entry of a branch is in. */
  lemma {:induction false} LaneOf(step: Step, from: nat, at: Context, index: nat, e: Entry) returns (lane: nat)
    requires step.Branch? && from <= |step.lanes| && e in WalkLanes(step, from, at, index)
    requires Fresh(WalkLanes(step, from, at, index), BodyContext(step, at, index))
    ensures from <= lane < |step.lanes| && e in WalkList(step.lanes[lane].steps, 0, LaneContext(step, at, index, lane))
    ensures var inner := LaneContext(step, at, index, lane);
            Fresh(WalkList(step.lanes[lane].steps, 0, inner), inner)
    decreases |step.lanes| - from
  {
    var a := WalkList(step.lanes[from].steps, 0, LaneContext(step, at, index, from));
    var b := WalkLanes(step, from + 1, at, index);
    FreshParts(a, b, BodyContext(step, at, index));
    if e in a { lane := from; } else { lane := LaneOf(step, from + 1, at, index, e); }
  }

  // ---- A step can start with a given visible output in scope ----

  /** `e` comes before `t` and is visible from it. */
  ghost predicate SeenFrom(e: Entry, t: Entry, entries: seq<Entry>) {
    Visible(e, t) && exists k, j :: 0 <= k < j < |entries| && entries[k] == e && entries[j] == t
  }

  ghost predicate StartsWith(starts: seq<Start>, t: Entry, x: string) {
    exists s <- starts :: s.id == t.step.id && x in s.scope
  }

  lemma StartsWithin(a: seq<Start>, b: seq<Start>, t: Entry, x: string)
    requires StartsWith(a, t, x) || StartsWith(b, t, x)
    ensures StartsWith(a + b, t, x)
  {
    if StartsWith(a, t, x) {
      var s :| s in a && s.id == t.step.id && x in s.scope;
      assert s in a + b;
    } else {
      var s :| s in b && s.id == t.step.id && x in s.scope;
      assert s in a + b;
    }
  }

  /** With distinct ids, where the target is tells where the seen entry is. */
  lemma SeenSplit(a: seq<Entry>, b: seq<Entry>, e: Entry, t: Entry)
    requires DistinctIds(a + b) && SeenFrom(e, t, a + b)
    ensures t in a ==> SeenFrom(e, t, a)
    ensures t in b ==> e in a || SeenFrom(e, t, b)
  {
    var k, j :| 0 <= k < j < |a + b| && (a + b)[k] == e && (a + b)[j] == t;
    if t in a {
      var i :| 0 <= i < |a| && a[i] == t;
      assert (a + b)[i] == t;
      assert i == j && a[k] == e;
    }
    if t in b {
      var i :| 0 <= i < |b| && b[i] == t;
      assert (a + b)[|a| + i] == t;
      assert |a| + i == j;
      if k >= |a| { assert b[k - |a|] == e; } else { assert a[k] == e; }
    }
  }

  /** What is seen from a later step of the list is exported by an earlier one. */
  lemma SeenIsExported(a: seq<Entry>, b: seq<Entry>, at: Context, e: Entry, t: Entry)
    requires Fresh(a + b, at) && Nested(a, at) && Nested(b, at) && e in a && t in b && Kept(e, t)
    ensures IsExported(e, a, at)
  {
    forall x | x in e.ancestors && x.ForEach? ensures x in at.ancestors {
      var i :| 0 <= i < |e.ancestors| && e.ancestors[i] == x;
      if i < |at.ancestors| {
        assert e.ancestors[i] == at.ancestors[i];
      } else {
        var f :| f in a && f.step == x;
        var y :| y in t.ancestors && y.id == x.id;
        var j :| 0 <= j < |t.ancestors| && t.ancestors[j] == y;
        assert f in a + b && (j < |at.ancestors| ==> y in at.ancestors);
        if j >= |at.ancestors| {
          var g :| g in b && g.step == y;
          DistinctAcross(a, b, f, g);
        }
      }
    }
  }

  lemma {:induction false} ListReaches(
    list: seq<Step>, from: nat, at: Context, e: Entry, t: Entry, scope: set<string>)
    returns (run: ListRun)
    requires from <= |list| && Fresh(WalkList(list, from, at), at) && Loopable(WalkList(list, from, at))
    requires t in WalkList(list, from, at)
    requires e.step.id in scope || SeenFrom(e, t, WalkList(list, from, at))
    ensures StartsWith(RunList(list, from, run, scope).starts, t, e.step.id)
    decreases list, 3, |list| - from
  {
    var a, b := WalkStep(list[from], at, from), WalkList(list, from + 1, at);
    FreshParts(a, b, at);
    LoopableParts(a, b);
    if e.step.id !in scope { SeenSplit(a, b, e, t); }
    if t in a {
      var first := StepReaches(list[from], at, from, e, t, scope);
      run := ListRun([first]);
      ListStartsInFirst(list, from, run, scope, t, e.step.id);
    } else {
      if e.step.id !in scope && e in a {
        WalkStepNested(list[from], at, from);
        WalkListNested(list, from + 1, at);
        SeenIsExported(a, b, at, e, t);
      }
      var first := StepCompletes(list[from], at, from, e, scope);
      var after := RunStep(list[from], first, scope);
      var rest := ListReaches(list, from + 1, at, e, t, after.scope);
      run := ListRun([first] + rest.steps);
      assert run.steps[1..] == rest.steps;
      StartsWithin(after.starts, RunList(list, from + 1, rest, after.scope).starts, t, e.step.id);
    }
  }

  lemma ListStartsInFirst(list: seq<Step>, from: nat, run: ListRun, scope: set<string>, t: Entry, x: string)
    requires from < |list| && run.steps != [] && StartsWith(RunStep(list[from], run.steps[0], scope).starts, t, x)
    ensures StartsWith(RunList(list, from, run, scope).starts, t, x)
  {
    var first := RunStep(list[from], run.steps[0], scope);
    if first.status.Completed? {
      StartsWithin(first.starts, RunList(list, from + 1, ListRun(run.steps[1..]), first.scope).starts, t, x);
    }
  }

  lemma {:induction false} StepReaches(
    step: Step, at: Context, index: nat, e: Entry, t: Entry, scope: set<string>)
    returns (run: StepRun)
    requires Fresh(WalkStep(step, at, index), at) && Loopable(WalkStep(step, at, index))
    requires t in WalkStep(step, at, index)
    requires e.step.id in scope || SeenFrom(e, t, WalkStep(step, at, index))
    ensures StartsWith(RunStep(step, run, scope).starts, t, e.step.id)
    decreases step, 2
  {
    var self, children := EntryAt(step, at, index), WalkChildren(step, at, index);
    FreshInside(self, children, at, BodyContext(step, at, index));
    LoopableParts([self], children);
    if t == self {
      run := StepRun(true, [], []);
      if e.step.id !in scope { SeenSplit([self], children, e, t); }
      assert StartsWith([Start(step.id, scope)], t, e.step.id);
    } else {
      WalkChildrenNested(step, at, index);
      if e.step.id !in scope {
        SeenSplit([self], children, e, t);
        if e == self { SelfIsAncestor(step, at, index, t); }
      }
      assert self in WalkStep(step, at, index);
      run := InsideReaches(step, at, index, e, t, scope);
    }
    StartsWithin([Start(step.id, scope)], RunInside(step, run, scope).starts, t, e.step.id);
  }

  lemma SelfIsAncestor(step: Step, at: Context, index: nat, t: Entry)
    requires t in WalkChildren(step, at, index)
    ensures !Kept(EntryAt(step, at, index), t)
  {
    var inner := BodyContext(step, at, index);
    WalkChildrenNested(step, at, index);
    assert inner.ancestors <= t.ancestors && inner.ancestors[|at.ancestors|] == step;
    assert step in t.ancestors;
  }

  lemma {:induction false} InsideReaches(
    step: Step, at: Context, index: nat, e: Entry, t: Entry, scope: set<string>)
    returns (run: StepRun)
    requires Fresh(WalkChildren(step, at, index), BodyContext(step, at, index))
             && Loopable(WalkChildren(step, at, index))
    requires step.ForEach? ==> step.maxItems >= 1
    requires t in WalkChildren(step, at, index)
    requires e.step.id in scope || SeenFrom(e, t, WalkChildren(step, at, index))
    ensures StartsWith(RunInside(step, run, scope).starts, t, e.step.id)
    decreases step, 1
  {
    match step
    case ForEach(_, body, _, _) =>
      var inner := ListReaches(body, 0, BodyContext(step, at, index), e, t, scope);
      run := StepRun(true, [], [inner]);
      OneItem(step, inner, scope, t, e.step.id);
    case Branch(_, lanes, otherwise) =>
      var a, b := WalkLanes(step, 0, at, index), WalkElse(step, at, index);
      FreshParts(a, b, BodyContext(step, at, index));
      LoopableParts(a, b);
      if e.step.id !in scope { SeenSplit(a, b, e, t); }
      if t in a {
        run := LaneReaches(step, at, index, e, t, scope);
      } else {
        NoneHolds(|lanes|);
        if e.step.id !in scope && e in a { LaneAgainstElse(step, at, index, e, t); }
        var inner := ListReaches(otherwise.value.steps, 0, ElseContext(step, at, index), e, t, scope);
        run := StepRun(true, [], [inner]);
      }
  }

  lemma OneItem(step: Step, inner: ListRun, scope: set<string>, t: Entry, x: string)
    requires step.ForEach? && step.maxItems >= 1 && StartsWith(RunList(step.body, 0, inner, scope).starts, t, x)
    ensures StartsWith(RunInside(step, StepRun(true, [], [inner]), scope).starts, t, x)
  {
    var item := RunList(step.body, 0, inner, scope);
    StartsWithin(item.starts, RunItems(step, [inner], 1, scope).starts, t, x);
    assert RunInside(step, StepRun(true, [], [inner]), scope) == RunItems(step, [inner], 0, scope);
  }

  lemma {:induction false} LaneReaches(
    step: Step, at: Context, index: nat, e: Entry, t: Entry, scope: set<string>)
    returns (run: StepRun)
    requires step.Branch? && Fresh(WalkLanes(step, 0, at, index), BodyContext(step, at, index))
             && Loopable(WalkLanes(step, 0, at, index))
    requires t in WalkLanes(step, 0, at, index)
    requires e.step.id in scope || SeenFrom(e, t, WalkLanes(step, 0, at, index))
    ensures StartsWith(RunInside(step, run, scope).starts, t, e.step.id)
    decreases step, 0
  {
    var lane := LaneOf(step, 0, at, index, t);
    var laneAt := LaneContext(step, at, index, lane);
    var w := WalkList(step.lanes[lane].steps, 0, laneAt);
    WalkLanesHold(step, 0, at, index, lane);
    if e.step.id !in scope {
      var other := LaneOf(step, 0, at, index, e);
      if other != lane { LanesExclude(step, at, index, e, other, t, lane); }
      SeenWithin(w, WalkLanes(step, 0, at, index), e, t, step, lane, at, index);
    }
    var inner := ListReaches(step.lanes[lane].steps, 0, laneAt, e, t, scope);
    ChooseHolds(lane, |step.lanes|);
    run := StepRun(true, Choose(lane), [inner]);
  }

  /** The walk of one lane is a contiguous part of the walk of all lanes. */
  lemma {:induction false} LaneSegment(
    step: Step, from: nat, at: Context, index: nat, lane: nat)
    returns (pre: seq<Entry>, post: seq<Entry>)
    requires step.Branch? && from <= lane < |step.lanes|
    ensures WalkLanes(step, from, at, index) ==
            pre + WalkList(step.lanes[lane].steps, 0, LaneContext(step, at, index, lane)) + post
    decreases lane - from
  {
    if from == lane {
      pre, post := [], WalkLanes(step, from + 1, at, index);
    } else {
      pre, post := LaneSegment(step, from + 1, at, index, lane);
      pre := WalkList(step.lanes[from].steps, 0, LaneContext(step, at, index, from)) + pre;
    }
  }

  lemma SeenWithin(w: seq<Entry>, all: seq<Entry>, e: Entry, t: Entry, step: Step, lane: nat, at: Context, index: nat)
    requires step.Branch? && lane < |step.lanes|
             && w == WalkList(step.lanes[lane].steps, 0, LaneContext(step, at, index, lane))
    requires all == WalkLanes(step, 0, at, index) && DistinctIds(all) && SeenFrom(e, t, all) && e in w && t in w
    ensures SeenFrom(e, t, w)
  {
    var pre, post := LaneSegment(step, 0, at, index, lane);
    var k, j :| 0 <= k < j < |all| && all[k] == e && all[j] == t;
    var k', j' :| 0 <= k' < |w| && w[k'] == e && 0 <= j' < |w| && w[j'] == t;
    assert all[|pre| + k'] == e && all[|pre| + j'] == t;
    assert k == |pre| + k' && j == |pre| + j';
  }

  lemma LanesExclude(step: Step, at: Context, index: nat, e: Entry, l: nat, t: Entry, m: nat)
    requires step.Branch? && l < |step.lanes| && m < |step.lanes| && l != m
    requires e in WalkList(step.lanes[l].steps, 0, LaneContext(step, at, index, l))
    requires t in WalkList(step.lanes[m].steps, 0, LaneContext(step, at, index, m))
    ensures SiblingLanes(e.configPath, t.configPath)
  {
    WalkListOrdered(step.lanes[l].steps, 0, LaneContext(step, at, index, l));
    WalkListOrdered(step.lanes[m].steps, 0, LaneContext(step, at, index, m));
    var p, q, d := e.configPath, t.configPath, |at.prefix| + 2;
    var x, y := LaneContext(step, at, index, l).prefix, LaneContext(step, at, index, m).prefix;
    assert p[..|x|] == x && q[..|y|] == y;
    assert p[..d] == x[..d] == y[..d] == q[..d];
    assert p[d] == x[d] == Index(l) && q[d] == y[d] == Index(m) && p[d - 1] == x[d - 1];
  }

  lemma LaneAgainstElse(step: Step, at: Context, index: nat, e: Entry, t: Entry)
    requires step.Branch? && step.otherwise.Some? && e in WalkLanes(step, 0, at, index)
             && t in WalkElse(step, at, index)
    ensures SiblingLanes(e.configPath, t.configPath)
  {
    var inner := ElseContext(step, at, index);
    WalkLanesOrdered(step, 0, at, index);
    WalkListOrdered(step.otherwise.value.steps, 0, inner);
    var p, q, d := e.configPath, t.configPath, |at.prefix| + 1;
    var x, y := at.prefix + [Index(index), Key("branches")], inner.prefix;
    assert p[..|x|] == x && q[..|y|] == y;
    assert p[..d] == x[..d] == y[..d] == q[..d];
    assert p[d] == x[d] == Key("branches") && q[d] == y[d] == Key("else");
  }

  // ---- Main results ----

  lemma StartSeesVisible(steps: seq<Step>, k: nat, j: nat, run: ListRun)
    requires DistinctIds(WalkSteps(steps)) && k < j < |WalkSteps(steps)|
    requires StartsWith(Starts(steps, run), WalkSteps(steps)[j], WalkSteps(steps)[k].step.id)
    ensures Visible(WalkSteps(steps)[k], WalkSteps(steps)[j])
  {
    var w := WalkSteps(steps);
    RunListSound(steps, 0, ROOT, run, {});
    var s :| s in Starts(steps, run) && s.id == w[j].step.id && w[k].step.id in s.scope;
    assert SoundStart(s, w, {});
    var j' :| 0 <= j' < |w| && w[j'].step.id == s.id && s.scope <= {} + VisibleIds(w, j');
    assert j' == j;
    var k' :| 0 <= k' < j && Visible(w[k'], w[j]) && w[k'].step.id == w[k].step.id;
    assert k' == k;
  }

  lemma ListedIsKept(steps: seq<Step>, k: nat, j: nat)
    requires DistinctIds(WalkSteps(steps)) && k < j < |WalkSteps(steps)|
    ensures WalkSteps(steps)[k].step in StepsBefore(steps, WalkSteps(steps)[j].step.id) <==>
            Kept(WalkSteps(steps)[k], WalkSteps(steps)[j])
  {
    var w := WalkSteps(steps);
    assert FirstIndex(w, w[j].step.id) == j;
    KeptStepsHolds(w, 0, j, w[j], w[k].step);
    if k' :| 0 <= k' < j && w[k'].step == w[k].step && Kept(w[k'], w[j]) {
      assert k' == k;
    }
  }

  /** An earlier step's output can be in scope when a step starts exactly when
      `stepsBefore` lists it and no branch puts the two in different lanes. */
  lemma ScopeExact(steps: seq<Step>, k: nat, j: nat)
    requires DistinctIds(WalkSteps(steps)) && Loopable(WalkSteps(steps)) && k < j < |WalkSteps(steps)|
    ensures var e, t := WalkSteps(steps)[k], WalkSteps(steps)[j];
      (exists run :: StartsWith(Starts(steps, run), t, e.step.id)) <==>
        e.step in StepsBefore(steps, t.step.id) && !SiblingLanes(e.configPath, t.configPath)
  {
    var w := WalkSteps(steps);
    var e, t := w[k], w[j];
    ListedIsKept(steps, k, j);
    if run :| StartsWith(Starts(steps, run), t, e.step.id) {
      StartSeesVisible(steps, k, j, run);
    }
    if Visible(e, t) {
      assert SeenFrom(e, t, w);
      var run := ListReaches(steps, 0, ROOT, e, t, {});
      assert StartsWith(Starts(steps, run), t, e.step.id);
    }
  }

  const TWO_LANES := Branch("b", [Lane([Action("x")]), Lane([Action("y")])], None)

  /** `stepsBefore` lists steps of earlier sibling lanes on purpose; no execution
      has both, so the inclusion in ScopeSound is strict. */
  lemma SiblingLaneListedNeverSeen(run: ListRun)
    ensures Action("x") in StepsBefore([TWO_LANES], "y")
    ensures forall s <- Starts([TWO_LANES], run) :: s.id == "y" ==> "x" !in s.scope
  {
    var steps, w := [TWO_LANES], WalkSteps([TWO_LANES]);
    var laneX, laneY := LaneContext(TWO_LANES, ROOT, 0, 0), LaneContext(TWO_LANES, ROOT, 0, 1);
    var b, x, y := EntryAt(TWO_LANES, ROOT, 0), EntryAt(Action("x"), laneX, 0), EntryAt(Action("y"), laneY, 0);
    assert WalkList([Action("x")], 0, laneX) == [x];
    assert WalkList([Action("y")], 0, laneY) == [y];
    assert WalkLanes(TWO_LANES, 2, ROOT, 0) == [];
    assert WalkLanes(TWO_LANES, 1, ROOT, 0) == [y];
    assert WalkLanes(TWO_LANES, 0, ROOT, 0) == [x, y];
    assert WalkStep(TWO_LANES, ROOT, 0) == [b, x, y];
    assert WalkList(steps, 1, ROOT) == [];
    assert w == [b, x, y];
    ListedIsKept(steps, 1, 2);
    LanesExclude(TWO_LANES, ROOT, 0, x, 0, y, 1);
    forall s | s in Starts(steps, run) && s.id == "y" ensures "x" !in s.scope {
      if "x" in s.scope {
        assert StartsWith(Starts(steps, run), w[2], w[1].step.id);
        StartSeesVisible(steps, 1, 2, run);
      }
    }
  }
}
