/** `walkSteps` visits every address of the tree once, in document order. */
module PipelineWalk {
  import opened PipelineConfig

  // ---- Document order ----

  predicate PartLess(a: PathPart, b: PathPart) {
    match (a, b)
    case (Index(i), Index(j)) => i < j
    case (Key(k), Key(l)) => k == "branches" && l == "else"
    case _ => false
  }

  /** Document order on addresses: a container comes before what it holds. */
  ghost predicate PathLess(p: Path, q: Path) {
    p < q || exists k :: 0 <= k < |p| && k < |q| && p[..k] == q[..k] && PartLess(p[k], q[k])
  }

  ghost predicate Increasing(entries: seq<Entry>) {
    forall i, j :: 0 <= i < j < |entries| ==> PathLess(entries[i].configPath, entries[j].configPath)
  }

  /** What the part after a common prefix may be. */
  datatype Parts = From(i: nat) | Only(part: PathPart) | AnyKey

  predicate Allows(p: Parts, part: PathPart) {
    match p
    case From(i) => part.Index? && part.i >= i
    case Only(x) => part == x
    case AnyKey => part.Key?
  }

  /** Every path below starts with `prefix`, followed by a part that `p` allows. */
  ghost predicate Below(entries: seq<Entry>, prefix: Path, p: Parts) {
    forall e <- entries ::
      |prefix| < |e.configPath| && prefix == e.configPath[..|prefix|] && Allows(p, e.configPath[|prefix|])
  }

  lemma BelowLess(a: seq<Entry>, b: seq<Entry>, prefix: Path, p: Parts, q: Parts)
    requires Below(a, prefix, p) && Below(b, prefix, q)
    requires forall x, y :: Allows(p, x) && Allows(q, y) ==> PartLess(x, y)
    requires Increasing(a) && Increasing(b)
    ensures Increasing(a + b)
  {
    forall i, j | 0 <= i < j < |a + b| ensures PathLess((a + b)[i].configPath, (a + b)[j].configPath) {
      if i < |a| <= j {
        var x, y := a[i].configPath, b[j - |a|].configPath;
        assert a[i] in a && b[j - |a|] in b;
        assert x[..|prefix|] == y[..|prefix|] && PartLess(x[|prefix|], y[|prefix|]);
      }
    }
  }

  /** What lies below a longer prefix lies below its beginning. */
  lemma BelowShorter(entries: seq<Entry>, prefix: Path, part: PathPart, rest: Path, p: Parts)
    requires Below(entries, prefix + [part] + rest, p)
    ensures Below(entries, prefix, Only(part))
  {
    forall e | e in entries
      ensures |prefix| < |e.configPath| && prefix == e.configPath[..|prefix|] && e.configPath[|prefix|] == part
    {
      var long := prefix + [part] + rest;
      assert long == e.configPath[..|long|];
      assert e.configPath[..|prefix|] == long[..|prefix|];
      assert e.configPath[|prefix|] == long[|prefix|];
    }
  }

  lemma BelowStep(e: Entry, children: seq<Entry>, path: Path, p: Parts)
    requires e.configPath == path && Below(children, path, p) && Increasing(children)
    ensures Increasing([e] + children)
  {
    forall j | 0 <= j < |children| ensures PathLess(path, children[j].configPath) {
      assert children[j] in children;
      assert path < children[j].configPath;
    }
  }

  lemma {:induction false} WalkListOrdered(list: seq<Step>, from: nat, at: Context)
    requires from <= |list|
    ensures Increasing(WalkList(list, from, at))
    ensures Below(WalkList(list, from, at), at.prefix, From(from))
    decreases list, 3, |list| - from
  {
    if from < |list| {
      var a, b := WalkStep(list[from], at, from), WalkList(list, from + 1, at);
      WalkStepOrdered(list[from], at, from);
      WalkListOrdered(list, from + 1, at);
      BelowLess(a, b, at.prefix, Only(Index(from)), From(from + 1));
    }
  }

  lemma {:induction false} WalkStepOrdered(step: Step, at: Context, index: nat)
    ensures Increasing(WalkStep(step, at, index))
    ensures Below(WalkStep(step, at, index), at.prefix, Only(Index(index)))
    decreases step, 2
  {
    var path := at.prefix + [Index(index)];
    var children := WalkChildren(step, at, index);
    WalkChildrenOrdered(step, at, index);
    BelowStep(EntryAt(step, at, index), children, path, AnyKey);
    assert path + [] == path;
    BelowShorter(children, at.prefix, Index(index), [], AnyKey);
  }

  lemma {:induction false} WalkChildrenOrdered(step: Step, at: Context, index: nat)
    ensures Increasing(WalkChildren(step, at, index))
    ensures Below(WalkChildren(step, at, index), at.prefix + [Index(index)], AnyKey)
    decreases step, 1
  {
    var path := at.prefix + [Index(index)];
    match step
    case ForEach(_, body, _, _) =>
      var inner := BodyContext(step, at, index);
      WalkListOrdered(body, 0, inner);
      assert inner.prefix == path + [Key("steps")] + [];
      BelowShorter(WalkList(body, 0, inner), path, Key("steps"), [], From(0));
    case Branch(_, lanes, otherwise) =>
      var a, b := WalkLanes(step, 0, at, index), WalkElse(step, at, index);
      WalkLanesOrdered(step, 0, at, index);
      assert path + [Key("branches")] + [] == path + [Key("branches")];
      BelowShorter(a, path, Key("branches"), [], From(0));
      if otherwise.Some? {
        var inner := ElseContext(step, at, index);
        WalkListOrdered(otherwise.value.steps, 0, inner);
        assert inner.prefix == path + [Key("else")] + [];
        BelowShorter(b, path, Key("else"), [], From(0));
      }
      BelowLess(a, b, path, Only(Key("branches")), Only(Key("else")));
    case _ =>
  }

  lemma {:induction false} WalkLanesOrdered(step: Step, lane: nat, at: Context, index: nat)
    requires step.Branch? && lane <= |step.lanes|
    ensures Increasing(WalkLanes(step, lane, at, index))
    ensures Below(WalkLanes(step, lane, at, index), at.prefix + [Index(index), Key("branches")], From(lane))
    decreases step, 0, |step.lanes| - lane
  {
    if lane < |step.lanes| {
      var path := at.prefix + [Index(index), Key("branches")];
      var inner := LaneContext(step, at, index, lane);
      var a, b := WalkList(step.lanes[lane].steps, 0, inner), WalkLanes(step, lane + 1, at, index);
      WalkListOrdered(step.lanes[lane].steps, 0, inner);
      assert inner.prefix == path + [Index(lane)] + [Key("steps")];
      BelowShorter(a, path, Index(lane), [Key("steps")], From(0));
      WalkLanesOrdered(step, lane + 1, at, index);
      BelowLess(a, b, path, Only(Index(lane)), From(lane + 1));
    }
  }

  // ---- Every address is visited, and visited entries sit at their address ----

  ghost predicate Leads(list: seq<Step>, at: Context, e: Entry) {
    && |at.prefix| <= |e.configPath| && at.prefix == e.configPath[..|at.prefix|]
    && Follow(list, at, e.configPath[|at.prefix|..]) == Some(e)
  }

  ghost predicate StepLeads(step: Step, at: Context, index: nat, e: Entry) {
    var path := at.prefix + [Index(index)];
    && |path| <= |e.configPath| && path == e.configPath[..|path|]
    && FollowStep(step, at, index, e.configPath[|path|..]) == Some(e)
  }

  /** An entry led to from a nested list is led to from its container. */
  lemma ContextLeads(step: Step, at: Context, index: nat, list: seq<Step>, inner: Context, mid: Path, e: Entry)
    requires Leads(list, inner, e) && inner.prefix == at.prefix + [Index(index)] + mid
    requires forall rest :: FollowStep(step, at, index, mid + rest) == Follow(list, inner, rest)
    ensures StepLeads(step, at, index, e)
  {
    var n, m := |at.prefix| + 1, |inner.prefix|;
    var path := e.configPath;
    assert path[..n] == inner.prefix[..n];
    assert path[n..] == mid + path[m..] by {
      assert path == inner.prefix + path[m..];
    }
  }

  lemma {:induction false} WalkListLeads(list: seq<Step>, from: nat, at: Context, e: Entry)
    requires from <= |list| && e in WalkList(list, from, at)
    ensures Leads(list, at, e)
    decreases list, 3, |list| - from
  {
    if e in WalkStep(list[from], at, from) {
      WalkStepLeads(list[from], at, from, e);
      var path := e.configPath[|at.prefix|..];
      assert e.configPath[..|at.prefix| + 1][|at.prefix|] == Index(from);
      assert path[0] == Index(from) && path[1..] == e.configPath[|at.prefix| + 1..];
      assert e.configPath[..|at.prefix|] == e.configPath[..|at.prefix| + 1][..|at.prefix|];
    } else {
      WalkListLeads(list, from + 1, at, e);
    }
  }

  lemma {:induction false} WalkStepLeads(step: Step, at: Context, index: nat, e: Entry)
    requires e in WalkStep(step, at, index)
    ensures StepLeads(step, at, index, e)
    decreases step, 2
  {
    if e != EntryAt(step, at, index) {
      assert e in WalkChildren(step, at, index);
      match step
      case ForEach(_, body, _, _) =>
        var inner := BodyContext(step, at, index);
        WalkListLeads(body, 0, inner, e);
        ContextLeads(step, at, index, body, inner, [Key("steps")], e);
      case Branch(_, lanes, otherwise) =>
        if e in WalkLanes(step, 0, at, index) {
          WalkLanesLead(step, 0, at, index, e);
        } else {
          assert e in WalkElse(step, at, index);
          var inner := ElseContext(step, at, index);
          WalkListLeads(otherwise.value.steps, 0, inner, e);
          ContextLeads(step, at, index, otherwise.value.steps, inner, [Key("else")], e);
        }
    }
  }

  lemma {:induction false} WalkLanesLead(step: Step, lane: nat, at: Context, index: nat, e: Entry)
    requires step.Branch? && lane <= |step.lanes| && e in WalkLanes(step, lane, at, index)
    ensures StepLeads(step, at, index, e)
    decreases step, 0, |step.lanes| - lane
  {
    var list, inner := step.lanes[lane].steps, LaneContext(step, at, index, lane);
    if e in WalkList(list, 0, inner) {
      WalkListLeads(list, 0, inner, e);
      ContextLeads(step, at, index, list, inner, [Key("branches"), Index(lane), Key("steps")], e);
    } else {
      WalkLanesLead(step, lane + 1, at, index, e);
    }
  }

  lemma {:induction false} WalkListHolds(list: seq<Step>, from: nat, at: Context, i: nat)
    requires from <= i < |list|
    ensures forall e <- WalkStep(list[i], at, i) :: e in WalkList(list, from, at)
    decreases i - from
  {
    if from < i { WalkListHolds(list, from + 1, at, i); }
  }

  lemma {:induction false} WalkLanesHold(step: Step, from: nat, at: Context, index: nat, lane: nat)
    requires step.Branch? && from <= lane < |step.lanes|
    ensures forall e <- WalkList(step.lanes[lane].steps, 0, LaneContext(step, at, index, lane)) ::
              e in WalkLanes(step, from, at, index)
    decreases lane - from
  {
    if from < lane { WalkLanesHold(step, from + 1, at, index, lane); }
  }

  lemma LaneVisited(step: Step, at: Context, index: nat, lane: nat)
    requires step.Branch? && lane < |step.lanes|
    ensures forall e <- WalkList(step.lanes[lane].steps, 0, LaneContext(step, at, index, lane)) ::
              e in WalkStep(step, at, index)
  {
    WalkLanesHold(step, 0, at, index, lane);
    assert forall e <- WalkLanes(step, 0, at, index) :: e in WalkChildren(step, at, index);
  }

  lemma ElseVisited(step: Step, at: Context, index: nat)
    requires step.Branch?
    ensures forall e <- WalkElse(step, at, index) :: e in WalkStep(step, at, index)
  {
    assert forall e <- WalkElse(step, at, index) :: e in WalkChildren(step, at, index);
  }

  lemma {:induction false} FollowIsVisited(list: seq<Step>, at: Context, path: Path)
    requires Follow(list, at, path).Some?
    ensures Follow(list, at, path).value in WalkList(list, 0, at)
    ensures Follow(list, at, path).value.configPath == at.prefix + path
    decreases |path|, 1
  {
    var i := path[0].i;
    FollowStepIsVisited(list[i], at, i, path[1..]);
    WalkListHolds(list, 0, at, i);
    assert path == [Index(i)] + path[1..];
  }

  lemma {:induction false} FollowStepIsVisited(step: Step, at: Context, index: nat, rest: Path)
    requires FollowStep(step, at, index, rest).Some?
    ensures FollowStep(step, at, index, rest).value in WalkStep(step, at, index)
    ensures FollowStep(step, at, index, rest).value.configPath == at.prefix + [Index(index)] + rest
    decreases |rest|, 2
  {
    if rest != [] {
      match step
      case ForEach(_, body, _, _) =>
        FollowIsVisited(body, BodyContext(step, at, index), rest[1..]);
        assert rest == [Key("steps")] + rest[1..];
      case Branch(_, _, _) => FollowBranchIsVisited(step, at, index, rest);
    }
  }

  lemma {:induction false} FollowBranchIsVisited(step: Step, at: Context, index: nat, rest: Path)
    requires step.Branch? && rest != [] && FollowStep(step, at, index, rest).Some?
    ensures FollowStep(step, at, index, rest).value in WalkStep(step, at, index)
    ensures FollowStep(step, at, index, rest).value.configPath == at.prefix + [Index(index)] + rest
    decreases |rest|, 1
  {
    if rest[0] == Key("branches") {
      var lane := rest[1].i;
      FollowIsVisited(step.lanes[lane].steps, LaneContext(step, at, index, lane), rest[3..]);
      LaneVisited(step, at, index, lane);
      LanePath(at.prefix, index, lane, rest);
    } else {
      FollowIsVisited(step.otherwise.value.steps, ElseContext(step, at, index), rest[1..]);
      ElseVisited(step, at, index);
      ElsePath(at.prefix, index, rest);
    }
  }

  lemma LanePath(prefix: Path, index: nat, lane: nat, rest: Path)
    requires |rest| >= 3 && rest[..3] == [Key("branches"), Index(lane), Key("steps")]
    ensures prefix + [Index(index), Key("branches"), Index(lane), Key("steps")] + rest[3..] ==
            prefix + [Index(index)] + rest
  {
    assert rest == rest[..3] + rest[3..];
  }

  lemma ElsePath(prefix: Path, index: nat, rest: Path)
    requires rest != [] && rest[0] == Key("else")
    ensures prefix + [Index(index), Key("else")] + rest[1..] == prefix + [Index(index)] + rest
  {
    assert rest == [rest[0]] + rest[1..];
  }

  /** The walk is the document-order list of the tree's addresses: an address
      occurs in it exactly when it leads to a step, with the step, ancestors,
      slot and lane found on the way, and addresses strictly increase. */
  lemma WalkIsExact(steps: seq<Step>)
    ensures Increasing(WalkSteps(steps))
    ensures forall e <- WalkSteps(steps) :: Follow(steps, ROOT, e.configPath) == Some(e)
    ensures forall path :: Follow(steps, ROOT, path).Some? ==>
              exists e <- WalkSteps(steps) :: e.configPath == path
  {
    WalkListOrdered(steps, 0, ROOT);
    forall e | e in WalkSteps(steps) ensures Follow(steps, ROOT, e.configPath) == Some(e) {
      WalkListLeads(steps, 0, ROOT, e);
      assert e.configPath[0..] == e.configPath;
    }
    forall path | Follow(steps, ROOT, path).Some? ensures exists e <- WalkSteps(steps) :: e.configPath == path {
      FollowIsVisited(steps, ROOT, path);
      assert ROOT.prefix + path == path;
    }
  }

  lemma PathLessIrreflexive(p: Path)
    ensures !PathLess(p, p)
  {
  }

  /** No address is visited twice. */
  lemma WalkPathsDistinct(steps: seq<Step>, i: int, j: int)
    requires 0 <= i < j < |WalkSteps(steps)|
    ensures WalkSteps(steps)[i].configPath != WalkSteps(steps)[j].configPath
  {
    WalkListOrdered(steps, 0, ROOT);
    PathLessIrreflexive(WalkSteps(steps)[i].configPath);
  }
}
