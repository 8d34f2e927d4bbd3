/** Which agents the idle sweep stops, told by what happened to them in the run before it. */
module WorkerIdle {
  import opened ArtifactCache
  import opened WorkerModel
  import opened WorkerRegistry
  import opened WorkerInflight
  import opened WorkerRuns

  datatype Moment = Never | At(time: int)

  /**
   * When a step uses the agent of `h`: it becomes ready, is ensured again, or a request to it begins
   * or ends.
   */
  function UsedAt(s: Worker, step: Step, h: Hash): Moment {
    match step
    case OfBoot(id, Healthy(now)) => if id in s.boots && s.boots[id].hash == h then At(now) else Never
    case OfServer(EnsureBody(_, hash, now, _)) => if hash == h && h in s.running then At(now) else Never
    case OfServer(Begins(_, hash, now)) => if hash == h then At(now) else Never
    case OfServer(Finishes(q, now)) =>
      if q in s.requests && s.requests[q].hash == h && h in s.running then At(now) else Never
    case _ => Never
  }

  /** The time of the latest use in a run, which need not be the greatest. */
  ghost function LastUse(c: Config, start: Worker, steps: seq<Step>, h: Hash): Moment
    requires CanRun(c, start, steps)
  {
    if steps == [] then Never
    else
      var prefix := steps[..|steps| - 1];
      var used := UsedAt(After(c, start, prefix), steps[|steps| - 1], h);
      if used.At? then used else LastUse(c, start, prefix, h)
  }

  /** The activity time of each routed handle is that of the step if it uses it, and is else what it was. */
  ghost predicate Tells(s: Worker, step: Step, running: map<Hash, Handle>) {
    forall h <- running.Keys ::
      match UsedAt(s, step, h)
      case At(time) => running[h].lastActivityAt == time
      case Never => h in s.running && running[h].lastActivityAt == s.running[h].lastActivityAt
  }

  ghost predicate TimesStay(s: map<Hash, Handle>, t: map<Hash, Handle>) {
    forall h <- t.Keys :: h in s && t[h].lastActivityAt == s[h].lastActivityAt
  }

  lemma {:induction false} StopsKeepTimes(s: Worker, hashes: seq<Hash>, now: int)
    ensures TimesStay(s.running, StopAgents(s, hashes, now).running)
  {
    if hashes != [] {
      StopsKeepTimes(s, hashes[..|hashes| - 1], now);
    }
  }

  lemma StopTells(c: Config, s: Worker, e: StopEvent)
    requires StopEnabled(c, s, e)
    ensures TimesStay(s.running, StopApply(c, s, e).running)
  {
    match e
    case StopAll(hashes, now) => StopsKeepTimes(s, hashes, now);
    case SweepIdle(hashes, now) => StopsKeepTimes(s, hashes, now);
    case Exits(id) =>
    case ExitSeen(id) =>
    case StopOne(hash, now) =>
    case Escalates(id) =>
    case StopEnds(id) =>
  }

  lemma BootTells(c: Config, s: Worker, id: Id, e: BootEvent)
    requires BootEnabled(c, s, id, e)
    ensures Tells(s, OfBoot(id, e), BootApply(c, s, id, e).running)
  {
    if !e.Healthy? {
      BootEventLeaves(c, s, id, e);
    }
  }

  /** The handle of `hash` is marked as used, if it is routed, and no other time changes. */
  ghost predicate Marks(s: map<Hash, Handle>, t: map<Hash, Handle>, hash: Hash, now: int) {
    && t.Keys == s.Keys
    && forall h <- t.Keys :: t[h].lastActivityAt == if h == hash then now else s[h].lastActivityAt
  }

  lemma EnsureMarks(c: Config, s: Worker, hash: Hash, now: int, onDisk: bool)
    requires RunningReady(s.running)
    ensures Marks(s.running, EnsureAgent(c, s, hash, now, onDisk).running, hash, now)
  {
    match EnsureOutcome(c, s, hash)
    case NoCapacity =>
    case Joined =>
    case Reused => ReuseMarks(s, hash, now);
    case Booting(_) => StartMarksNothing(s, hash, now, onDisk);
  }

  lemma ReuseMarks(s: Worker, hash: Hash, now: int)
    requires hash in s.running
    ensures Marks(s.running, Reuse(s, hash, now).running, hash, now)
  {}

  lemma StartMarksNothing(s: Worker, hash: Hash, now: int, onDisk: bool)
    ensures StartBoot(s, hash, now, onDisk).running == s.running
  {}

  lemma BeginMarks(s: Worker, q: RequestId, hash: Hash, now: int)
    requires hash in s.running
    ensures Marks(s.running, BeginRequest(s, q, hash, now).running, hash, now)
  {}

  lemma FinishMarks(s: Worker, q: RequestId, now: int)
    requires q in s.requests
    ensures Marks(s.running, FinishRequest(s, q, now).running, s.requests[q].hash, now)
  {}

  lemma EnsureTells(s: Worker, q: RequestId, hash: Hash, now: int, onDisk: bool, running: map<Hash, Handle>)
    requires Marks(s.running, running, hash, now)
    ensures Tells(s, OfServer(EnsureBody(q, hash, now, onDisk)), running)
  {}

  lemma BeginTells(s: Worker, q: RequestId, hash: Hash, now: int, running: map<Hash, Handle>)
    requires Marks(s.running, running, hash, now)
    ensures Tells(s, OfServer(Begins(q, hash, now)), running)
  {}

  lemma FinishTells(s: Worker, q: RequestId, now: int, running: map<Hash, Handle>)
    requires q in s.requests && Marks(s.running, running, s.requests[q].hash, now)
    ensures Tells(s, OfServer(Finishes(q, now)), running)
  {}

  lemma ServerTells(c: Config, s: Worker, e: ServerEvent)
    requires RunningReady(s.running) && ServerEnabled(c, s, e)
    ensures Tells(s, OfServer(e), ServerApply(c, s, e).running)
  {
    match e
    case AcceptEnsure(q) =>
    case EnsureInvalid(q) =>
    case EnsureBody(q, hash, now, onDisk) =>
      EnsureMarks(c, s.(awaitingBody := s.awaitingBody - {q}), hash, now, onDisk);
      EnsureTells(s, q, hash, now, onDisk, ServerApply(c, s, e).running);
    case Begins(q, hash, now) =>
      BeginMarks(s, q, hash, now);
      BeginTells(s, q, hash, now, ServerApply(c, s, e).running);
    case Finishes(q, now) =>
      FinishMarks(s, q, now);
      FinishTells(s, q, now, ServerApply(c, s, e).running);
    case Drains =>
  }

  lemma StepTells(c: Config, s: Worker, step: Step)
    requires RunningReady(s.running) && Enabled(c, s, step)
    ensures Tells(s, step, Apply(c, s, step).running)
  {
    match step
    case OfBoot(id, e) => BootTells(c, s, id, e);
    case OfDownload(hash, e) =>
    case OfStop(e) => StopTells(c, s, e);
    case OfServer(e) => ServerTells(c, s, e);
  }

  /** After any run the activity time of a routed agent is that of its latest use. */
  lemma {:induction false} ActivityIsLastUse(c: Config, found: Entries, steps: seq<Step>, h: Hash)
    requires CanRun(c, Initial(found), steps) && h in After(c, Initial(found), steps).running
    ensures LastUse(c, Initial(found), steps, h) ==
            At(After(c, Initial(found), steps).running[h].lastActivityAt)
  {
    if steps != [] {
      var prefix, step := steps[..|steps| - 1], steps[|steps| - 1];
      var s := After(c, Initial(found), prefix);
      InitialSafe(c, found);
      RunSafe(c, Initial(found), prefix);
      StepTells(c, s, step);
      if UsedAt(s, step, h) == Never {
        ActivityIsLastUse(c, found, prefix, h);
      }
    }
  }

  lemma SweepStops(c: Config, s: Worker, hashes: seq<Hash>, now: int, h: Hash)
    requires RunningReady(s.running) && StopEnabled(c, s, SweepIdle(hashes, now)) && h in s.running
    ensures var t := StopAgents(s, hashes, now);
            && (h !in t.running <==> s.running[h].inflight == 0 && now - s.running[h].lastActivityAt >= c.idleStopMs)
            && (h in t.running ==> t.running[h] == s.running[h])
  {
    StopsOnlyListed(s, hashes, now, h);
  }

  /**
   * The idle sweep takes an agent out of the routing map if and only if it counts no request and its
   * latest use lies the idle window or more back. It leaves the others as they are.
   */
  lemma SweepStopsIff(c: Config, found: Entries, steps: seq<Step>, hashes: seq<Hash>, now: int, h: Hash)
    requires CanRun(c, Initial(found), steps)
    requires var s := After(c, Initial(found), steps); StopEnabled(c, s, SweepIdle(hashes, now)) && h in s.running
    ensures var s, used := After(c, Initial(found), steps), LastUse(c, Initial(found), steps, h);
            var t := StopAgents(s, hashes, now);
            && used.At?
            && (h !in t.running <==> s.running[h].inflight == 0 && now - used.time >= c.idleStopMs)
            && (h in t.running ==> t.running[h] == s.running[h])
  {
    var s := After(c, Initial(found), steps);
    InitialSafe(c, found);
    RunSafe(c, Initial(found), steps);
    ActivityIsLastUse(c, found, steps, h);
    SweepStops(c, s, hashes, now, h);
  }

  /**
   * Where no request outlives a restart of its hash, that is: if and only if no request is open on it
   * and its latest use lies the idle window or more back.
   */
  lemma ExactSweepStopsIff(c: Config, found: Entries, steps: seq<Step>, hashes: seq<Hash>, now: int, h: Hash)
    requires CanRun(c, Initial(found), steps) && NoneOutlives(c, Initial(found), steps)
    requires var s := After(c, Initial(found), steps); StopEnabled(c, s, SweepIdle(hashes, now)) && h in s.running
    ensures var s, used := After(c, Initial(found), steps), LastUse(c, Initial(found), steps, h);
            && used.At?
            && (h !in StopAgents(s, hashes, now).running <==>
                OpenOn(s.requests, s.running[h].id) == {} && now - used.time >= c.idleStopMs)
  {
    SweepStopsIff(c, found, steps, hashes, now, h);
    RunExact(c, found, steps);
  }

  // ---- the same by the steps of the run

  lemma {:induction false} CanRunPrefix(c: Config, start: Worker, steps: seq<Step>, k: nat)
    requires CanRun(c, start, steps) && k <= |steps|
    ensures CanRun(c, start, steps[..k])
    ensures k < |steps| ==> Enabled(c, After(c, start, steps[..k]), steps[k])
  {
    if k < |steps| {
      var prefix := steps[..|steps| - 1];
      if k < |prefix| {
        CanRunPrefix(c, start, prefix, k);
        assert prefix[..k] == steps[..k];
      }
    } else {
      assert steps[..k] == steps;
    }
  }

  /** The k-th step of a run uses the agent of `h` at `time`. */
  ghost predicate UsesAt(c: Config, start: Worker, steps: seq<Step>, k: nat, h: Hash, time: int) {
    && k < |steps| && CanRun(c, start, steps[..k])
    && UsedAt(After(c, start, steps[..k]), steps[k], h) == At(time)
  }

  /** The latest use is one of the steps, and no later step is a use. */
  lemma {:induction false} LastUseIsLast(c: Config, start: Worker, steps: seq<Step>, h: Hash) returns (k: nat)
    requires CanRun(c, start, steps) && LastUse(c, start, steps, h).At?
    ensures UsesAt(c, start, steps, k, h, LastUse(c, start, steps, h).time)
    ensures forall j: nat, time: int :: UsesAt(c, start, steps, j, h, time) ==> j <= k
  {
    var prefix := steps[..|steps| - 1];
    if UsedAt(After(c, start, prefix), steps[|steps| - 1], h).At? {
      k := |steps| - 1;
    } else {
      k := LastUseIsLast(c, start, prefix, h);
      assert prefix[..k] == steps[..k];
      forall j: nat, time: int | UsesAt(c, start, steps, j, h, time) ensures j <= k {
        if j < |prefix| {
          assert prefix[..j] == steps[..j];
          assert UsesAt(c, start, prefix, j, h, time);
        }
      }
    }
  }

  /** An agent that was used within the window is kept, if what used it later was within it too. */
  lemma RecentlyUsedIsKept(
    c: Config, found: Entries, steps: seq<Step>, hashes: seq<Hash>, now: int, h: Hash, k: nat, time: int)
    requires CanRun(c, Initial(found), steps)
    requires var s := After(c, Initial(found), steps); StopEnabled(c, s, SweepIdle(hashes, now)) && h in s.running
    requires UsesAt(c, Initial(found), steps, k, h, time) && now - time < c.idleStopMs
    requires forall j: nat, later: int :: k < j && UsesAt(c, Initial(found), steps, j, h, later) ==>
               now - later < c.idleStopMs
    ensures h in StopAgents(After(c, Initial(found), steps), hashes, now).running
  {
    SweepStopsIff(c, found, steps, hashes, now, h);
    var last := LastUseIsLast(c, Initial(found), steps, h);
    assert k <= last;
  }

  /** An agent that counts no request and was used only before the window is stopped. */
  lemma LongUnusedIsStopped(
    c: Config, found: Entries, steps: seq<Step>, hashes: seq<Hash>, now: int, h: Hash)
    requires CanRun(c, Initial(found), steps)
    requires var s := After(c, Initial(found), steps);
             StopEnabled(c, s, SweepIdle(hashes, now)) && h in s.running && s.running[h].inflight == 0
    requires forall k: nat, time: int :: UsesAt(c, Initial(found), steps, k, h, time) ==> now - time >= c.idleStopMs
    ensures h !in StopAgents(After(c, Initial(found), steps), hashes, now).running
  {
    SweepStopsIff(c, found, steps, hashes, now, h);
    var last := LastUseIsLast(c, Initial(found), steps, h);
  }
}
