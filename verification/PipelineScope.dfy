/** Scoping of step outputs: the static analysis `stepsBefore` against the
    executions of a pipeline. */
module PipelineScope {
  import opened PipelineConfig
  import opened PipelineWalk

  // ---- Executions ----

  /** The outcomes that decide one execution of a step: whether it succeeds (for
      a filter: whether `where` holds), which lane conditions hold, and the runs
      of its nested lists, one per loop item or one for the chosen lane. */
  datatype StepRun = StepRun(ok: bool, holds: seq<bool>, runs: seq<ListRun>)

  /** One outcome per step that the execution gets to. */
  datatype ListRun = ListRun(steps: seq<StepRun>)

  datatype Status = Completed | Dropped | Failed

  /** A step starts, with the outputs of these steps in scope. */
  datatype Start = Start(id: string, scope: set<string>)

  datatype Trace = Trace(starts: seq<Start>, scope: set<string>, status: Status)

  /** Steps run one after the other; a filter that does not hold or a failure
      ends the list, and so does the end of a partial execution. */
  function RunList(list: seq<Step>, from: nat, run: ListRun, scope: set<string>): Trace
    requires from <= |list|
    decreases list, 3, |list| - from
  {
    if from == |list| then Trace([], scope, Completed)
    else if run.steps == [] then Trace([], scope, Failed)
    else
      var t := RunStep(list[from], run.steps[0], scope);
      if !t.status.Completed? then t
      else
        var rest := RunList(list, from + 1, ListRun(run.steps[1..]), t.scope);
        Trace(t.starts + rest.starts, rest.scope, rest.status)
  }

  function RunStep(step: Step, run: StepRun, scope: set<string>): Trace
    decreases step, 2
  {
    var inner := RunInside(step, run, scope);
    Trace([Start(step.id, scope)] + inner.starts,
          if inner.status.Completed? then inner.scope + {step.id} else inner.scope,
          inner.status)
  }

  /** What happens inside a step, before its own output exists. */
  function RunInside(step: Step, run: StepRun, scope: set<string>): Trace
    decreases step, 1
  {
    match step
    case Action(_) => Trace([], scope, if run.ok then Completed else Failed)
    case Filter(_) => Trace([], scope, if run.ok then Completed else Dropped)
    case ForEach(_, _, maxItems, _) =>
      if !run.ok || |run.runs| > maxItems then Trace([], scope, Failed)
      else RunItems(step, run.runs, 0, scope)
    case Branch(_, lanes, otherwise) =>
      var lane := FirstHolding(run.holds, |lanes|);
      var inner := if run.runs == [] then ListRun([]) else run.runs[0];
      if lane < |lanes| then RunList(lanes[lane].steps, 0, inner, scope)
      else if otherwise.Some? then RunList(otherwise.value.steps, 0, inner, scope)
      else Trace([], scope, Completed)
  }

  /** Each item gets a copy of the scope, discarded when the item ends. */
  function RunItems(step: Step, runs: seq<ListRun>, item: nat, scope: set<string>): Trace
    requires step.ForEach? && item <= |runs|
    decreases step, 0, |runs| - item
  {
    if item == |runs| then Trace([], scope, Completed)
    else
      var t := RunList(step.body, 0, runs[item], scope);
      if t.status.Failed? && step.onItemError.Halt? then Trace(t.starts, scope, Failed)
      else
        var rest := RunItems(step, runs, item + 1, scope);
        Trace(t.starts + rest.starts, scope, rest.status)
  }

  /** The first lane whose condition holds, or `n` when none does. */
  function FirstHolding(holds: seq<bool>, n: nat): (lane: nat)
    ensures lane <= n
  {
    if n == 0 || (holds != [] && holds[0]) then 0
    else 1 + FirstHolding(if holds == [] then [] else holds[1..], n - 1)
  }

  // ---- What an execution may see ----

  /** Two addresses in different lanes of one branch: they first differ in the
      lane, or in `branches` against `else`. */
  ghost predicate SiblingLanes(p: Path, q: Path) {
    exists d :: 0 <= d < |p| && d < |q| && p[..d] == q[..d] && p[d] != q[d] &&
                (p[d].Key? || (d > 0 && p[d - 1] == Key("branches")))
  }

  /** Addressable, and not in a lane that excludes the target's lane. */
  ghost predicate Visible(e: Entry, target: Entry) {
    Kept(e, target) && !SiblingLanes(e.configPath, target.configPath)
  }

  ghost function VisibleIds(entries: seq<Entry>, j: nat): set<string>
    requires j < |entries|
  {
    set k | 0 <= k < j && Visible(entries[k], entries[j]) :: entries[k].step.id
  }

  /** The steps whose output outlives the list they are in: those that are in no
      loop except the ones around the list. */
  ghost function Exported(entries: seq<Entry>, at: Context): set<string> {
    set k | 0 <= k < |entries| &&
            (forall a <- entries[k].ancestors :: a.ForEach? ==> a in at.ancestors) :: entries[k].step.id
  }

  /** Each start is that of an entry, with a scope the entry may see. */
  ghost predicate Sound(starts: seq<Start>, entries: seq<Entry>, scope: set<string>) {
    forall s <- starts :: SoundStart(s, entries, scope)
  }

  ghost predicate SoundStart(s: Start, entries: seq<Entry>, scope: set<string>) {
    exists j :: 0 <= j < |entries| && entries[j].step.id == s.id && s.scope <= scope + VisibleIds(entries, j)
  }

  /** Step ids occur once, and not among the enclosing steps. */
  ghost predicate Fresh(entries: seq<Entry>, at: Context) {
    && DistinctIds(entries)
    && forall e <- entries, a <- at.ancestors :: e.step.id != a.id
  }

  /** A list hangs in a loop, a lane, an else or at the top. */
  ghost predicate ListContext(at: Context) {
    at.prefix == [] || at.prefix[|at.prefix| - 1] == Key("steps") || at.prefix[|at.prefix| - 1] == Key("else")
  }

  // ---- Facts about the walk ----

  /** Ancestors are the enclosing steps followed by steps of the walk itself. */
  ghost predicate Nested(entries: seq<Entry>, at: Context) {
    forall e <- entries ::
      && at.ancestors <= e.ancestors
      && forall k :: |at.ancestors| <= k < |e.ancestors| ==> exists f <- entries :: f.step == e.ancestors[k]
  }

  lemma NestedConcat(a: seq<Entry>, b: seq<Entry>, at: Context)
    requires Nested(a, at) && Nested(b, at)
    ensures Nested(a + b, at)
  {
    forall e | e in a + b
      ensures at.ancestors <= e.ancestors
      ensures forall k :: |at.ancestors| <= k < |e.ancestors| ==> exists f <- a + b :: f.step == e.ancestors[k]
    {
      forall k | |at.ancestors| <= k < |e.ancestors| ensures exists f <- a + b :: f.step == e.ancestors[k] {
        if e in a {
          var f :| f in a && f.step == e.ancestors[k];
          assert f in a + b;
        } else {
          var f :| f in b && f.step == e.ancestors[k];
          assert f in a + b;
        }
      }
    }
  }

  /** Entries nested under one step, with that step's entry in front. */
  lemma NestedUnder(e: Entry, children: seq<Entry>, at: Context, inner: Context)
    requires e.ancestors == at.ancestors && inner.ancestors == at.ancestors + [e.step]
    requires Nested(children, inner)
    ensures Nested([e] + children, at)
  {
    var all := [e] + children;
    forall f | f in all
      ensures at.ancestors <= f.ancestors
      ensures forall k :: |at.ancestors| <= k < |f.ancestors| ==> exists g <- all :: g.step == f.ancestors[k]
    {
      if f != e || f in children {
        assert f in children && inner.ancestors <= f.ancestors;
        forall k | |at.ancestors| <= k < |f.ancestors| ensures exists g <- all :: g.step == f.ancestors[k] {
          if k == |at.ancestors| {
            assert e in all && f.ancestors[k] == inner.ancestors[k];
          } else {
            var g :| g in children && g.step == f.ancestors[k];
            assert g in all;
          }
        }
      }
    }
  }

  lemma {:induction false} WalkListNested(list: seq<Step>, from: nat, at: Context)
    requires from <= |list|
    ensures Nested(WalkList(list, from, at), at)
    decreases list, 3, |list| - from
  {
    if from < |list| {
      WalkStepNested(list[from], at, from);
      WalkListNested(list, from + 1, at);
      NestedConcat(WalkStep(list[from], at, from), WalkList(list, from + 1, at), at);
    }
  }

  lemma {:induction false} WalkStepNested(step: Step, at: Context, index: nat)
    ensures Nested(WalkStep(step, at, index), at)
    decreases step, 2
  {
    var inner := BodyContext(step, at, index);
    WalkChildrenNested(step, at, index);
    NestedUnder(EntryAt(step, at, index), WalkChildren(step, at, index), at, inner);
  }

  lemma {:induction false} WalkChildrenNested(step: Step, at: Context, index: nat)
    ensures Nested(WalkChildren(step, at, index), BodyContext(step, at, index))
    decreases step, 1
  {
    match step
    case ForEach(_, body, _, _) => WalkListNested(body, 0, BodyContext(step, at, index));
    case Branch(_, lanes, otherwise) =>
      WalkLanesNested(step, 0, at, index);
      if otherwise.Some? { WalkListNested(otherwise.value.steps, 0, ElseContext(step, at, index)); }
      NestedConcat(WalkLanes(step, 0, at, index), WalkElse(step, at, index), BodyContext(step, at, index));
    case _ =>
  }

  lemma {:induction false} WalkLanesNested(step: Step, lane: nat, at: Context, index: nat)
    requires step.Branch? && lane <= |step.lanes|
    ensures Nested(WalkLanes(step, lane, at, index), BodyContext(step, at, index))
    decreases step, 0, |step.lanes| - lane
  {
    if lane < |step.lanes| {
      var inner := LaneContext(step, at, index, lane);
      WalkListNested(step.lanes[lane].steps, 0, inner);
      WalkLanesNested(step, lane + 1, at, index);
      NestedConcat(WalkList(step.lanes[lane].steps, 0, inner), WalkLanes(step, lane + 1, at, index),
        BodyContext(step, at, index));
    }
  }

  // ---- Soundness ----

  lemma SoundWiden(starts: seq<Start>, pre: seq<Entry>, mid: seq<Entry>, post: seq<Entry>, scope: set<string>)
    requires Sound(starts, mid, scope)
    ensures Sound(starts, pre + mid + post, scope)
  {
    var all := pre + mid + post;
    forall s | s in starts ensures SoundStart(s, all, scope) {
      var j :| 0 <= j < |mid| && mid[j].step.id == s.id && s.scope <= scope + VisibleIds(mid, j);
      assert all[|pre| + j] == mid[j];
      forall x | x in VisibleIds(mid, j) ensures x in VisibleIds(all, |pre| + j) {
        var k :| 0 <= k < j && Visible(mid[k], mid[j]) && mid[k].step.id == x;
        assert all[|pre| + k] == mid[k];
      }
    }
  }

  lemma SoundConcat(s: seq<Start>, t: seq<Start>, entries: seq<Entry>, scope: set<string>)
    requires Sound(s, entries, scope) && Sound(t, entries, scope)
    ensures Sound(s + t, entries, scope)
  {
  }

  /** Addresses in two steps of one list are not in sibling lanes. */
  lemma SameListNotSiblings(p: Path, q: Path, at: Context)
    requires ListContext(at)
    requires |at.prefix| < |p| && |at.prefix| < |q| && at.prefix == p[..|at.prefix|] && at.prefix == q[..|at.prefix|]
    requires p[|at.prefix|].Index? && p[|at.prefix|] != q[|at.prefix|]
    ensures !SiblingLanes(p, q)
  {
    var n := |at.prefix|;
    assert forall k :: 0 <= k < n ==> p[k] == at.prefix[k] == q[k];
    forall d | 0 <= d < |p| && d < |q| && p[..d] == q[..d] && p[d] != q[d] ensures d == n {
      if n < d { SameBefore(p, q, d, n); }
    }
    assert n > 0 ==> p[n - 1] == at.prefix[n - 1];
  }

  lemma SameBefore(p: Path, q: Path, d: nat, n: nat)
    requires n < d <= |p| && d <= |q| && p[..d] == q[..d]
    ensures p[n] == q[n]
  {
    assert p[n] == p[..d][n] && q[n] == q[..d][n];
  }

  /** What an earlier step of the list exports is visible from a later one. */
  lemma ExportedIsVisible(a: seq<Entry>, b: seq<Entry>, at: Context, from: nat, e: Entry, target: Entry)
    requires ListContext(at) && Fresh(a + b, at) && Nested(b, at)
    requires Below(a, at.prefix, Only(Index(from))) && Below(b, at.prefix, From(from + 1))
    requires e in a && target in b
    requires forall x <- e.ancestors :: x.ForEach? ==> x in at.ancestors
    ensures Visible(e, target)
  {
    SameListNotSiblings(e.configPath, target.configPath, at);
    forall k | 0 <= k < |target.ancestors| ensures target.ancestors[k].id != e.step.id {
      if k < |at.ancestors| {
        assert target.ancestors[k] in at.ancestors && e in a + b;
      } else {
        var f :| f in b && f.step == target.ancestors[k];
        DistinctAcross(a, b, e, f);
      }
    }
    forall x | x in e.ancestors && x.ForEach? ensures x.id in AncestorIds(target) {
      var k :| 0 <= k < |at.ancestors| && at.ancestors[k] == x;
      assert target.ancestors[k] == x;
    }
  }

  lemma DistinctAcross(a: seq<Entry>, b: seq<Entry>, e: Entry, f: Entry)
    requires DistinctIds(a + b) && e in a && f in b
    ensures e.step.id != f.step.id
  {
    var i :| 0 <= i < |a| && a[i] == e;
    var j :| 0 <= j < |b| && b[j] == f;
    assert (a + b)[i] == e && (a + b)[|a| + j] == f;
  }

  lemma VisibleAfter(a: seq<Entry>, b: seq<Entry>, at: Context, from: nat, j: nat)
    requires ListContext(at) && Fresh(a + b, at) && Nested(b, at) && j < |b|
    requires Below(a, at.prefix, Only(Index(from))) && Below(b, at.prefix, From(from + 1))
    ensures Exported(a, at) + VisibleIds(b, j) <= VisibleIds(a + b, |a| + j)
  {
    var n := |a| + j;
    assert (a + b)[n] == b[j];
    forall x | x in VisibleIds(b, j) ensures x in VisibleIds(a + b, n) {
      var k :| 0 <= k < j && Visible(b[k], b[j]) && b[k].step.id == x;
      assert (a + b)[|a| + k] == b[k];
    }
    forall x | x in Exported(a, at) ensures x in VisibleIds(a + b, n) {
      var k :| 0 <= k < |a| && (forall y <- a[k].ancestors :: y.ForEach? ==> y in at.ancestors) && a[k].step.id == x;
      ExportedIsVisible(a, b, at, from, a[k], b[j]);
      assert (a + b)[k] == a[k];
    }
  }

  lemma SoundAfter(
    starts: seq<Start>, a: seq<Entry>, b: seq<Entry>, at: Context, from: nat, before: set<string>, scope: set<string>)
    requires ListContext(at) && Fresh(a + b, at) && Nested(b, at)
    requires Below(a, at.prefix, Only(Index(from))) && Below(b, at.prefix, From(from + 1))
    requires Sound(starts, b, scope) && scope <= before + Exported(a, at)
    ensures Sound(starts, a + b, before)
  {
    forall s | s in starts ensures SoundStart(s, a + b, before) {
      assert SoundStart(s, b, scope);
      var j :| 0 <= j < |b| && b[j].step.id == s.id && s.scope <= scope + VisibleIds(b, j);
      VisibleAfter(a, b, at, from, j);
      assert (a + b)[|a| + j] == b[j];
    }
  }

  lemma SoundUnder(e: Entry, children: seq<Entry>, starts: seq<Start>, scope: set<string>)
    requires Sound(starts, children, scope)
    ensures Sound([Start(e.step.id, scope)] + starts, [e] + children, scope)
  {
    SoundWiden(starts, [e], children, [], scope);
    assert [e] + children + [] == [e] + children;
    assert SoundStart(Start(e.step.id, scope), [e] + children, scope) by {
      assert ([e] + children)[0] == e;
    }
  }

  lemma ExportedConcat(a: seq<Entry>, b: seq<Entry>, at: Context)
    ensures Exported(a, at) <= Exported(a + b, at) && Exported(b, at) <= Exported(a + b, at)
  {
    forall x | x in Exported(a, at) ensures x in Exported(a + b, at) {
      var k :| 0 <= k < |a| && (forall y <- a[k].ancestors :: y.ForEach? ==> y in at.ancestors) && a[k].step.id == x;
      assert (a + b)[k] == a[k];
    }
    forall x | x in Exported(b, at) ensures x in Exported(a + b, at) {
      var k :| 0 <= k < |b| && (forall y <- b[k].ancestors :: y.ForEach? ==> y in at.ancestors) && b[k].step.id == x;
      assert (a + b)[|a| + k] == b[k];
    }
  }

  /** A branch is no loop: what its lane exports, it exports. */
  lemma ExportedThroughBranch(entries: seq<Entry>, at: Context, inner: Context, step: Step)
    requires inner.ancestors == at.ancestors + [step] && !step.ForEach?
    ensures Exported(entries, inner) <= Exported(entries, at)
  {
  }

  lemma FreshParts(a: seq<Entry>, b: seq<Entry>, at: Context)
    requires Fresh(a + b, at)
    ensures Fresh(a, at) && Fresh(b, at)
  {
    forall i, j | 0 <= i < j < |a| ensures a[i].step.id != a[j].step.id {
      assert (a + b)[i] == a[i] && (a + b)[j] == a[j];
    }
    forall i, j | 0 <= i < j < |b| ensures b[i].step.id != b[j].step.id {
      assert (a + b)[|a| + i] == b[i] && (a + b)[|a| + j] == b[j];
    }
    assert forall e <- a :: e in a + b;
    assert forall e <- b :: e in a + b;
  }

  lemma FreshInside(e: Entry, children: seq<Entry>, at: Context, inner: Context)
    requires Fresh([e] + children, at) && inner.ancestors == at.ancestors + [e.step]
    ensures Fresh(children, inner)
  {
    FreshParts([e], children, at);
    forall f | f in children ensures f.step.id != e.step.id {
      DistinctAcross([e], children, e, f);
    }
  }

  lemma {:induction false} RunListSound(list: seq<Step>, from: nat, at: Context, run: ListRun, scope: set<string>)
    requires from <= |list| && ListContext(at) && Fresh(WalkList(list, from, at), at)
    ensures Sound(RunList(list, from, run, scope).starts, WalkList(list, from, at), scope)
    ensures RunList(list, from, run, scope).scope <= scope + Exported(WalkList(list, from, at), at)
    decreases list, 3, |list| - from
  {
    if from < |list| && run.steps != [] {
      var a, b := WalkStep(list[from], at, from), WalkList(list, from + 1, at);
      var t := RunStep(list[from], run.steps[0], scope);
      FreshParts(a, b, at);
      ExportedConcat(a, b, at);
      RunStepSound(list[from], at, from, run.steps[0], scope);
      SoundWiden(t.starts, [], a, b, scope);
      assert [] + a + b == a + b;
      if t.status.Completed? {
        var tail := ListRun(run.steps[1..]);
        var rest := RunList(list, from + 1, tail, t.scope);
        RunListSound(list, from + 1, at, tail, t.scope);
        WalkListNested(list, from + 1, at);
        WalkStepOrdered(list[from], at, from);
        WalkListOrdered(list, from + 1, at);
        SoundAfter(rest.starts, a, b, at, from, scope, t.scope);
        SoundConcat(t.starts, rest.starts, a + b, scope);
      }
    }
  }

  lemma {:induction false} RunStepSound(step: Step, at: Context, index: nat, run: StepRun, scope: set<string>)
    requires Fresh(WalkStep(step, at, index), at)
    ensures Sound(RunStep(step, run, scope).starts, WalkStep(step, at, index), scope)
    ensures RunStep(step, run, scope).scope <= scope + Exported(WalkStep(step, at, index), at)
    decreases step, 2
  {
    var e, children := EntryAt(step, at, index), WalkChildren(step, at, index);
    FreshInside(e, children, at, BodyContext(step, at, index));
    RunInsideSound(step, at, index, run, scope);
    SoundUnder(e, children, RunInside(step, run, scope).starts, scope);
    ExportedConcat([e], children, at);
    assert step.id in Exported([e], at) by { assert [e][0] == e; }
  }

  lemma {:induction false} RunInsideSound(step: Step, at: Context, index: nat, run: StepRun, scope: set<string>)
    requires Fresh(WalkChildren(step, at, index), BodyContext(step, at, index))
    ensures Sound(RunInside(step, run, scope).starts, WalkChildren(step, at, index), scope)
    ensures RunInside(step, run, scope).scope <= scope + Exported(WalkChildren(step, at, index), at)
    decreases step, 1
  {
    match step
    case ForEach(_, _, maxItems, _) =>
      if run.ok && |run.runs| <= maxItems { RunItemsSound(step, at, index, run.runs, 0, scope); }
    case Branch(_, lanes, otherwise) =>
      var lane := FirstHolding(run.holds, |lanes|);
      var inner := if run.runs == [] then ListRun([]) else run.runs[0];
      var a, b := WalkLanes(step, 0, at, index), WalkElse(step, at, index);
      FreshParts(a, b, BodyContext(step, at, index));
      ExportedConcat(a, b, at);
      if lane < |lanes| {
        RunLaneSound(step, at, index, 0, lane, inner, scope);
        SoundWiden(RunInside(step, run, scope).starts, [], a, b, scope);
        assert [] + a + b == a + b;
      } else if otherwise.Some? {
        var elseAt := ElseContext(step, at, index);
        RunListSound(otherwise.value.steps, 0, elseAt, inner, scope);
        ExportedThroughBranch(b, at, elseAt, step);
        SoundWiden(RunInside(step, run, scope).starts, a, b, [], scope);
        assert a + b + [] == a + b;
      }
    case _ =>
  }

  lemma {:induction false} RunLaneSound(
    step: Step, at: Context, index: nat, from: nat, lane: nat, run: ListRun, scope: set<string>)
    requires step.Branch? && from <= lane < |step.lanes|
    requires Fresh(WalkLanes(step, from, at, index), BodyContext(step, at, index))
    ensures Sound(RunList(step.lanes[lane].steps, 0, run, scope).starts, WalkLanes(step, from, at, index), scope)
    ensures RunList(step.lanes[lane].steps, 0, run, scope).scope <=
            scope + Exported(WalkLanes(step, from, at, index), at)
    decreases step, 0, |step.lanes| - from
  {
    var laneAt := LaneContext(step, at, index, from);
    var a, b := WalkList(step.lanes[from].steps, 0, laneAt), WalkLanes(step, from + 1, at, index);
    var starts := RunList(step.lanes[lane].steps, 0, run, scope).starts;
    FreshParts(a, b, BodyContext(step, at, index));
    ExportedConcat(a, b, at);
    if from == lane {
      RunListSound(step.lanes[lane].steps, 0, laneAt, run, scope);
      ExportedThroughBranch(a, at, laneAt, step);
      SoundWiden(starts, [], a, b, scope);
      assert [] + a + b == a + b;
    } else {
      RunLaneSound(step, at, index, from + 1, lane, run, scope);
      SoundWiden(starts, a, b, [], scope);
      assert a + b + [] == a + b;
    }
  }

  lemma {:induction false} RunItemsSound(
    step: Step, at: Context, index: nat, runs: seq<ListRun>, item: nat, scope: set<string>)
    requires step.ForEach? && item <= |runs|
    requires Fresh(WalkChildren(step, at, index), BodyContext(step, at, index))
    ensures Sound(RunItems(step, runs, item, scope).starts, WalkChildren(step, at, index), scope)
    ensures RunItems(step, runs, item, scope).scope == scope
    decreases step, 0, |runs| - item
  {
    if item < |runs| {
      RunListSound(step.body, 0, BodyContext(step, at, index), runs[item], scope);
      RunItemsSound(step, at, index, runs, item + 1, scope);
      SoundConcat(RunList(step.body, 0, runs[item], scope).starts, RunItems(step, runs, item + 1, scope).starts,
                  WalkChildren(step, at, index), scope);
    }
  }

  // ---- Main result ----

  /** The starts of one execution of a pipeline. */
  function Starts(steps: seq<Step>, run: ListRun): seq<Start> { RunList(steps, 0, run, {}).starts }

  function Ids(steps: seq<Step>): set<string> { set s | s in steps :: s.id }

  lemma VisibleListed(steps: seq<Step>, id: string, j: nat)
    requires DistinctIds(WalkSteps(steps)) && j < |WalkSteps(steps)| && WalkSteps(steps)[j].step.id == id
    ensures VisibleIds(WalkSteps(steps), j) <= Ids(StepsBefore(steps, id))
  {
    var w := WalkSteps(steps);
    assert FirstIndex(w, id) == j;
    forall x | x in VisibleIds(w, j) ensures x in Ids(StepsBefore(steps, id)) {
      var k :| 0 <= k < j && Visible(w[k], w[j]) && w[k].step.id == x;
      KeptStepsHolds(w, 0, j, w[j], w[k].step);
    }
  }

  /** In every execution, whatever the conditions, the item counts, the filters
      and the failures: when a step starts, every output in scope is that of a
      step that `stepsBefore` lists. */
  lemma ScopeSound(steps: seq<Step>, run: ListRun)
    requires DistinctIds(WalkSteps(steps))
    ensures forall s <- Starts(steps, run) :: s.scope <= Ids(StepsBefore(steps, s.id))
  {
    var w := WalkSteps(steps);
    RunListSound(steps, 0, ROOT, run, {});
    forall s | s in Starts(steps, run) ensures s.scope <= Ids(StepsBefore(steps, s.id)) {
      assert SoundStart(s, w, {});
      var j :| 0 <= j < |w| && w[j].step.id == s.id && s.scope <= {} + VisibleIds(w, j);
      VisibleListed(steps, s.id, j);
    }
  }
}
