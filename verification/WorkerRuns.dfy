/** What holds after any run of the worker, however its steps interleave. */
module WorkerRuns {
  import opened ArtifactCache
  import opened WorkerModel
  import opened WorkerRegistry
  import opened WorkerCapacity
  import opened WorkerPorts
  import opened WorkerInflight

  ghost predicate Safe(c: Config, s: Worker) {
    Registry(s) && Capacity(c, s) && Artifacts(s) && Ports(c, s) && Accounting(s)
  }

  lemma InitialSafe(c: Config, found: Entries)
    ensures Safe(c, Initial(found)) && Exact(Initial(found))
  {
    assert Initial(found).ActiveHashes() == {};
  }

  lemma StepSafe(c: Config, s: Worker, step: Step)
    requires Safe(c, s) && Enabled(c, s, step)
    ensures Safe(c, Apply(c, s, step))
  {
    StepKeepsRegistry(c, s, step);
    StepKeepsCapacity(c, s, step);
    StepKeepsArtifacts(c, s, step);
    StepKeepsPorts(c, s, step);
    StepKeepsAccounting(c, s, step);
  }

  /** Every state that any run reaches is safe. */
  lemma {:induction false} RunSafe(c: Config, start: Worker, steps: seq<Step>)
    requires Safe(c, start) && CanRun(c, start, steps)
    ensures Safe(c, After(c, start, steps))
  {
    if steps != [] {
      RunSafe(c, start, steps[..|steps| - 1]);
      StepSafe(c, After(c, start, steps[..|steps| - 1]), steps[|steps| - 1]);
    }
  }

  // ---- capacity, single boot, artifacts

  /** At most `maxAgents` hashes are active and the gauge counts them. */
  lemma RunWithinCap(c: Config, found: Entries, steps: seq<Step>)
    requires CanRun(c, Initial(found), steps)
    ensures var s := After(c, Initial(found), steps); s.ActiveCount() == |s.ActiveHashes()| <= c.maxAgents
  {
    InitialSafe(c, found);
    RunSafe(c, Initial(found), steps);
    ActiveCountIsSize(After(c, Initial(found), steps));
  }

  /** Two boots in progress are of different hashes. */
  lemma RunBootsOnce(c: Config, found: Entries, steps: seq<Step>, id: Id, other: Id)
    requires CanRun(c, Initial(found), steps)
    requires var s := After(c, Initial(found), steps); id in s.boots && other in s.boots && id != other
    ensures var s := After(c, Initial(found), steps); s.boots[id].hash != s.boots[other].hash
  {
    InitialSafe(c, found);
    RunSafe(c, Initial(found), steps);
  }

  /** Becoming an agent never replaces one: until then the hash was not routed anywhere. */
  lemma RunNeverOverwrites(c: Config, found: Entries, steps: seq<Step>, id: Id, now: int)
    requires CanRun(c, Initial(found), steps)
    requires BootEnabled(c, After(c, Initial(found), steps), id, Healthy(now))
    ensures var s := After(c, Initial(found), steps); s.boots[id].hash !in s.running
  {
    InitialSafe(c, found);
    RunSafe(c, Initial(found), steps);
  }

  /** The artifact of every running agent and of every boot past its download is in the cache. */
  lemma RunKeepsArtifacts(c: Config, found: Entries, steps: seq<Step>)
    requires CanRun(c, Initial(found), steps)
    ensures var s := After(c, Initial(found), steps);
            InCache(s.running, s.boots, s.downloads, s.entries)
  {
    InitialSafe(c, found);
    RunSafe(c, Initial(found), steps);
  }

  // ---- ports

  function BurnSteps(steps: seq<Step>): nat {
    if steps == [] then 0
    else BurnSteps(steps[..|steps| - 1]) + if Burns(steps[|steps| - 1]) then 1 else 0
  }

  lemma {:induction false} BurnsCounted(c: Config, start: Worker, steps: seq<Step>)
    requires Safe(c, start) && CanRun(c, start, steps)
    ensures |After(c, start, steps).burned| == |start.burned| + BurnSteps(steps)
  {
    if steps != [] {
      var prefix := steps[..|steps| - 1];
      BurnsCounted(c, start, prefix);
      RunSafe(c, start, prefix);
      StepBurns(c, After(c, start, prefix), steps[|steps| - 1]);
    }
  }

  /** All searches for a free port together skip at most as many ports as the pool has, so each ends. */
  lemma RunPortSearchEnds(c: Config, found: Entries, steps: seq<Step>)
    requires CanRun(c, Initial(found), steps) && c.minPort <= c.maxPort
    ensures BurnSteps(steps) <= c.maxPort - c.minPort + 1
  {
    InitialSafe(c, found);
    RunSafe(c, Initial(found), steps);
    BurnsCounted(c, Initial(found), steps);
    BurnedFit(c, After(c, Initial(found), steps));
  }

  /** The pool holds as many ports as there are boots, agents and stops with a port, and burned ports. */
  lemma RunConservesPorts(c: Config, found: Entries, steps: seq<Step>)
    requires CanRun(c, Initial(found), steps)
    ensures var s := After(c, Initial(found), steps); Ports(c, s) && |s.taken| == |Holders(s)|
  {
    InitialSafe(c, found);
    RunSafe(c, Initial(found), steps);
    AllocatedCountIsHolders(c, After(c, Initial(found), steps));
  }

  // ---- in-flight accounting

  /** The total never exceeds the counters, nor the counters the requests open on running agents. */
  lemma RunBoundsInflight(c: Config, found: Entries, steps: seq<Step>)
    requires CanRun(c, Initial(found), steps)
    ensures var s := After(c, Initial(found), steps);
            && s.inflightTotal <= Sum(s.running) <= |OpenOnAgents(s.running, s.requests)|
            && CountsNotNegative(s.running)
  {
    InitialSafe(c, found);
    RunSafe(c, Initial(found), steps);
    TotalBelowOpen(After(c, Initial(found), steps));
  }

  ghost predicate AlwaysExact(c: Config, start: Worker, steps: seq<Step>)
    requires CanRun(c, start, steps)
  {
    Exact(After(c, start, steps)) && (steps == [] || AlwaysExact(c, start, steps[..|steps| - 1]))
  }

  ghost predicate NeverMiscounts(c: Config, start: Worker, steps: seq<Step>)
    requires CanRun(c, start, steps)
  {
    steps == [] ||
    (NeverMiscounts(c, start, steps[..|steps| - 1]) &&
     !Miscounts(After(c, start, steps[..|steps| - 1]), steps[|steps| - 1]))
  }

  /** The counters are exact throughout a run if and only if no step of it miscounts. */
  lemma {:induction false} RunExactIff(c: Config, start: Worker, steps: seq<Step>)
    requires Safe(c, start) && Exact(start) && CanRun(c, start, steps)
    ensures AlwaysExact(c, start, steps) <==> NeverMiscounts(c, start, steps)
  {
    if steps != [] {
      var prefix := steps[..|steps| - 1];
      RunExactIff(c, start, prefix);
      RunSafe(c, start, prefix);
      if AlwaysExact(c, start, prefix) {
        ExactUnlessMiscounted(c, After(c, start, prefix), steps[|steps| - 1]);
      }
    }
  }

  /** An agent takes over a hash that still has a request open on an earlier one. */
  ghost predicate OutlivesRestart(s: Worker, step: Step) {
    && step.OfBoot? && step.boot.Healthy? && step.id in s.boots
    && exists q :: q in s.requests && s.requests[q].hash == s.boots[step.id].hash
  }

  ghost predicate NoneOutlives(c: Config, start: Worker, steps: seq<Step>)
    requires CanRun(c, start, steps)
  {
    steps == [] ||
    (NoneOutlives(c, start, steps[..|steps| - 1]) &&
     !OutlivesRestart(After(c, start, steps[..|steps| - 1]), steps[|steps| - 1]))
  }

  ghost predicate NoneStale(running: map<Hash, Handle>, requests: map<RequestId, Request>) {
    forall q <- requests.Keys ::
      requests[q].hash in running ==> running[requests[q].hash].id == requests[q].id
  }

  lemma {:induction false} StopsKeepFresh(s: Worker, hashes: seq<Hash>, now: int)
    requires NoneStale(s.running, s.requests)
    ensures NoneStale(StopAgents(s, hashes, now).running, StopAgents(s, hashes, now).requests)
  {
    StopsKeepCounts(s, hashes, now);
  }

  ghost predicate FreshAfter(t: Worker) {
    NoneStale(t.running, t.requests)
  }

  lemma ReadyKeepsFresh(s: Worker, id: Id, now: int)
    requires NoneStale(s.running, s.requests)
    requires id in s.boots && s.boots[id].phase.Polling?
    requires forall q <- s.requests.Keys :: s.requests[q].hash != s.boots[id].hash
    ensures FreshAfter(BootReady(s, id, now))
  {}

  lemma BootKeepsFresh(c: Config, s: Worker, id: Id, e: BootEvent)
    requires NoneStale(s.running, s.requests) && BootEnabled(c, s, id, e) && !OutlivesRestart(s, OfBoot(id, e))
    ensures FreshAfter(BootApply(c, s, id, e))
  {
    BootEventLeaves(c, s, id, e);
    if e.Healthy? {
      ReadyKeepsFresh(s, id, e.now);
    }
  }

  lemma StopKeepsFresh(c: Config, s: Worker, e: StopEvent)
    requires NoneStale(s.running, s.requests) && StopEnabled(c, s, e)
    ensures FreshAfter(StopApply(c, s, e))
  {
    match e
    case StopAll(hashes, now) => StopsKeepFresh(s, hashes, now);
    case SweepIdle(hashes, now) => StopsKeepFresh(s, hashes, now);
    case Exits(id) =>
    case ExitSeen(id) =>
    case StopOne(hash, now) =>
    case Escalates(id) =>
    case StopEnds(id) =>
  }

  lemma EnsureKeepsFresh(c: Config, s: Worker, hash: Hash, now: int, onDisk: bool)
    requires NoneStale(s.running, s.requests)
    ensures FreshAfter(EnsureAgent(c, s, hash, now, onDisk))
  {
    match EnsureOutcome(c, s, hash)
    case NoCapacity =>
    case Joined =>
    case Reused => ReuseKeepsFresh(s, hash, now);
    case Booting(_) => StartKeepsFresh(s, hash, now, onDisk);
  }

  lemma ReuseKeepsFresh(s: Worker, hash: Hash, now: int)
    requires NoneStale(s.running, s.requests) && hash in s.running
    ensures FreshAfter(Reuse(s, hash, now))
  {}

  lemma StartKeepsFresh(s: Worker, hash: Hash, now: int, onDisk: bool)
    requires NoneStale(s.running, s.requests)
    ensures FreshAfter(StartBoot(s, hash, now, onDisk))
  {}

  lemma ServerKeepsFresh(c: Config, s: Worker, e: ServerEvent)
    requires NoneStale(s.running, s.requests) && ServerEnabled(c, s, e)
    ensures FreshAfter(ServerApply(c, s, e))
  {
    match e
    case AcceptEnsure(q) =>
    case EnsureInvalid(q) =>
    case EnsureBody(q, hash, now, onDisk) =>
      EnsureKeepsFresh(c, s.(awaitingBody := s.awaitingBody - {q}), hash, now, onDisk);
    case Begins(q, hash, now) => assert FreshAfter(BeginRequest(s, q, hash, now));
    case Finishes(q, now) => assert FreshAfter(FinishRequest(s, q, now));
    case Drains =>
  }

  lemma StepKeepsFresh(c: Config, s: Worker, step: Step)
    requires NoneStale(s.running, s.requests) && Enabled(c, s, step) && !OutlivesRestart(s, step)
    ensures FreshAfter(Apply(c, s, step))
  {
    match step
    case OfBoot(id, e) => BootKeepsFresh(c, s, id, e);
    case OfDownload(hash, e) => assert FreshAfter(DownloadApply(s, hash, e));
    case OfStop(e) => StopKeepsFresh(c, s, e);
    case OfServer(e) => ServerKeepsFresh(c, s, e);
  }

  /** Where no request outlives a restart of its hash, nothing is ever miscounted. */
  lemma {:induction false} NoneOutlivesNeverMiscounts(c: Config, start: Worker, steps: seq<Step>)
    requires NoneStale(start.running, start.requests) && CanRun(c, start, steps) && NoneOutlives(c, start, steps)
    ensures NeverMiscounts(c, start, steps) && FreshAfter(After(c, start, steps))
  {
    if steps != [] {
      var prefix := steps[..|steps| - 1];
      NoneOutlivesNeverMiscounts(c, start, prefix);
      StepKeepsFresh(c, After(c, start, prefix), steps[|steps| - 1]);
    }
  }

  /** In such a run total, counters and open requests agree at the end, as at every step before. */
  lemma RunExact(c: Config, found: Entries, steps: seq<Step>)
    requires CanRun(c, Initial(found), steps) && NoneOutlives(c, Initial(found), steps)
    ensures var s := After(c, Initial(found), steps);
            Exact(s) && s.inflightTotal == Sum(s.running) == |OpenOnAgents(s.running, s.requests)|
  {
    InitialSafe(c, found);
    NoneOutlivesNeverMiscounts(c, Initial(found), steps);
    RunExactIff(c, Initial(found), steps);
    RunSafe(c, Initial(found), steps);
    TotalBelowOpen(After(c, Initial(found), steps));
  }

  /** In such a run the idle sweep stops only agents that serve nobody. */
  lemma RunSweepSparesTheBusy(c: Config, found: Entries, steps: seq<Step>, hashes: seq<Hash>, now: int, h: Hash)
    requires CanRun(c, Initial(found), steps) && NoneOutlives(c, Initial(found), steps)
    requires var s := After(c, Initial(found), steps);
             StopEnabled(c, s, SweepIdle(hashes, now)) && h in s.running && h !in StopAgents(s, hashes, now).running
    ensures var s := After(c, Initial(found), steps); OpenOn(s.requests, s.running[h].id) == {}
  {
    RunExact(c, found, steps);
    SweepSparesTheBusy(c, After(c, Initial(found), steps), hashes, now, h);
  }

  // ---- draining

  ghost predicate SameDrain(s: Worker, t: Worker) {
    t.draining == s.draining && t.awaitingBody == s.awaitingBody
  }

  lemma {:induction false} StopsKeepDrain(s: Worker, hashes: seq<Hash>, now: int)
    ensures SameDrain(s, StopAgents(s, hashes, now))
  {
    if hashes != [] {
      StopsKeepDrain(s, hashes[..|hashes| - 1], now);
    }
  }

  lemma StopKeepsDrain(c: Config, s: Worker, e: StopEvent)
    requires StopEnabled(c, s, e)
    ensures SameDrain(s, StopApply(c, s, e))
  {
    match e
    case StopAll(hashes, now) => StopsKeepDrain(s, hashes, now);
    case SweepIdle(hashes, now) => StopsKeepDrain(s, hashes, now);
    case Exits(id) =>
    case ExitSeen(id) =>
    case StopOne(hash, now) =>
    case Escalates(id) =>
    case StopEnds(id) =>
  }

  lemma ReuseKeepsDrain(s: Worker, hash: Hash, now: int)
    requires hash in s.running
    ensures SameDrain(s, Reuse(s, hash, now))
  {}

  lemma StartKeepsDrain(s: Worker, hash: Hash, now: int, onDisk: bool)
    ensures SameDrain(s, StartBoot(s, hash, now, onDisk))
  {}

  lemma EnsureKeepsDrain(c: Config, s: Worker, hash: Hash, now: int, onDisk: bool)
    ensures SameDrain(s, EnsureAgent(c, s, hash, now, onDisk))
  {
    match EnsureOutcome(c, s, hash)
    case NoCapacity =>
    case Joined =>
    case Reused => ReuseKeepsDrain(s, hash, now);
    case Booting(_) => StartKeepsDrain(s, hash, now, onDisk);
  }

  lemma ServerKeepsDrain(c: Config, s: Worker, e: ServerEvent)
    requires ServerEnabled(c, s, e) && s.draining
    ensures ServerApply(c, s, e).draining && ServerApply(c, s, e).awaitingBody <= s.awaitingBody
  {
    match e
    case EnsureInvalid(q) =>
    case EnsureBody(q, hash, now, onDisk) =>
      EnsureKeepsDrain(c, s.(awaitingBody := s.awaitingBody - {q}), hash, now, onDisk);
    case Finishes(q, now) => assert SameDrain(s, FinishRequest(s, q, now));
    case Drains =>
  }

  /** The drain flag is only ever raised, and no ensure is accepted once it is up. */
  lemma DrainStays(c: Config, s: Worker, step: Step)
    requires Enabled(c, s, step) && s.draining
    ensures Apply(c, s, step).draining && Apply(c, s, step).awaitingBody <= s.awaitingBody
  {
    match step
    case OfBoot(id, e) => BootEventLeaves(c, s, id, e);
    case OfDownload(hash, e) =>
    case OfStop(e) => StopKeepsDrain(c, s, e);
    case OfServer(e) => ServerKeepsDrain(c, s, e);
  }

  /** Draining with no accepted ensure outstanding: nothing becomes active in any continuation. */
  lemma {:induction false} QuietAfterDrain(c: Config, s: Worker, steps: seq<Step>)
    requires Safe(c, s) && s.draining && s.awaitingBody == {} && CanRun(c, s, steps)
    ensures After(c, s, steps).draining && After(c, s, steps).awaitingBody == {}
    ensures ActivatesNothing(s, After(c, s, steps))
  {
    if steps != [] {
      var prefix, step := steps[..|steps| - 1], steps[|steps| - 1];
      QuietAfterDrain(c, s, prefix);
      RunSafe(c, s, prefix);
      DrainStays(c, After(c, s, prefix), step);
      OnlyEnsureActivates(c, After(c, s, prefix), step);
    }
  }

  lemma InactiveOutcome(c: Config, s: Worker, hash: Hash)
    requires !s.IsActive(hash)
    ensures EnsureOutcome(c, s, hash) == if s.ActiveCount() >= c.maxAgents then NoCapacity else Booting(s.next)
  {}

  lemma StartedIsActive(s: Worker, hash: Hash, now: int, onDisk: bool, h: Hash)
    ensures StartBoot(s, hash, now, onDisk).IsActive(h) <==> s.IsActive(h) || h == hash
  {}

  /** An ensure makes its own hash active and no other, if it boots it. */
  lemma EnsureActivatesIff(c: Config, s: Worker, hash: Hash, now: int, onDisk: bool, h: Hash)
    requires !s.IsActive(h)
    ensures EnsureAgent(c, s, hash, now, onDisk).IsActive(h) <==> h == hash && s.ActiveCount() < c.maxAgents
  {
    match EnsureOutcome(c, s, hash)
    case NoCapacity =>
    case Joined =>
    case Reused =>
    case Booting(_) =>
      if s.IsActive(hash) {
      } else {
        InactiveOutcome(c, s, hash);
      }
      StartedIsActive(s, hash, now, onDisk, h);
  }

  /**
   * The drain check comes before the body is read, so an ensure accepted earlier still boots an
   * agent while draining, whatever hash it names, if and only if the cap leaves room.
   */
  lemma AcceptedEnsureBootsWhileDraining(c: Config, s: Worker, q: RequestId, hash: Hash, now: int, onDisk: bool)
    requires s.draining && q in s.awaitingBody && !s.IsActive(hash)
    ensures Enabled(c, s, OfServer(EnsureBody(q, hash, now, onDisk)))
    ensures Apply(c, s, OfServer(EnsureBody(q, hash, now, onDisk))).IsActive(hash) <==> s.ActiveCount() < c.maxAgents
  {
    EnsureActivatesIff(c, s.(awaitingBody := s.awaitingBody - {q}), hash, now, onDisk, hash);
  }

  ghost predicate CanActivate(c: Config, s: Worker, hash: Hash) {
    exists step :: Activates(c, s, step, hash)
  }

  ghost predicate Activates(c: Config, s: Worker, step: Step, hash: Hash) {
    Enabled(c, s, step) && !s.IsActive(hash) && Apply(c, s, step).IsActive(hash)
  }

  lemma ActivationIsEnsure(c: Config, s: Worker, step: Step, hash: Hash)
    requires PendingBoots(s.pending, s.boots) && Activates(c, s, step, hash)
    ensures s.awaitingBody != {} && s.ActiveCount() < c.maxAgents
  {
    if IsEnsure(step) {
      var e := step.server;
      assert e.q in s.awaitingBody;
      EnsureActivatesIff(c, s.(awaitingBody := s.awaitingBody - {e.q}), e.hash, e.now, e.onDisk, hash);
    } else {
      OnlyEnsureActivates(c, s, step);
    }
  }

  /**
   * While draining, a hash can become active if and only if an accepted ensure waits for its body
   * and the cap leaves room.
   */
  lemma DrainingActivatesIff(c: Config, s: Worker, hash: Hash)
    requires Safe(c, s) && s.draining && !s.IsActive(hash)
    ensures CanActivate(c, s, hash) <==> s.awaitingBody != {} && s.ActiveCount() < c.maxAgents
  {
    if step :| Activates(c, s, step, hash) {
      ActivationIsEnsure(c, s, step, hash);
    }
    if s.ActiveCount() < c.maxAgents {
      if q :| q in s.awaitingBody {
        AcceptedEnsureBootsWhileDraining(c, s, q, hash, 0, true);
        assert Activates(c, s, OfServer(EnsureBody(q, hash, 0, true)), hash);
      }
    }
  }
}
