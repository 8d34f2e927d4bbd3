/** The request counters: what the drain loop and the idle sweep read, against what is really open. */
module WorkerInflight {
  import opened ArtifactCache
  import opened WorkerModel
  import opened WorkerRegistry
  import P = PortPool

  ghost function Sum(running: map<Hash, Handle>): int {
    if running == map[] then 0
    else var h :| h in running; running[h].inflight + Sum(running - {h})
  }

  lemma {:induction false} SumRemove(running: map<Hash, Handle>, h: Hash)
    requires h in running
    ensures Sum(running) == running[h].inflight + Sum(running - {h})
    decreases |running|
  {
    var k :| k in running && Sum(running) == running[k].inflight + Sum(running - {k});
    if k != h {
      SumRemove(running - {k}, h);
      SumRemove(running - {h}, k);
      assert running - {k} - {h} == running - {h} - {k};
    }
  }

  lemma SumUpdate(running: map<Hash, Handle>, h: Hash, handle: Handle)
    ensures Sum(running[h := handle]) ==
            Sum(running) + handle.inflight - (if h in running then running[h].inflight else 0)
  {
    SumRemove(running[h := handle], h);
    assert running[h := handle] - {h} == running - {h};
    if h in running {
      SumRemove(running, h);
    } else {
      assert running - {h} == running;
    }
  }

  lemma {:induction false} SumNotNegative(running: map<Hash, Handle>)
    requires CountsNotNegative(running)
    ensures Sum(running) >= 0
    decreases |running|
  {
    if h :| h in running {
      SumRemove(running, h);
      SumNotNegative(running - {h});
    } else {
      assert running == map[];
    }
  }

  /** The open requests that were begun on process `id`. */
  function OpenOn(requests: map<RequestId, Request>, id: Id): set<RequestId> {
    set q | q in requests && requests[q].id == id
  }

  ghost predicate CountsNotNegative(running: map<Hash, Handle>) {
    forall h <- running.Keys :: running[h].inflight >= 0
  }

  ghost predicate CountsBounded(running: map<Hash, Handle>, requests: map<RequestId, Request>) {
    forall h <- running.Keys :: running[h].inflight <= |OpenOn(requests, running[h].id)|
  }

  /** A request belongs to a process that is or was the agent of its hash. */
  ghost predicate RequestsKnown(
    requests: map<RequestId, Request>, running: map<Hash, Handle>, boots: map<Id, Boot>, next: Id)
  {
    forall q <- requests.Keys ::
      && requests[q].id < next
      && (requests[q].id in boots ==> boots[requests[q].id].phase.Settled?)
      && (forall h <- running.Keys :: running[h].id == requests[q].id ==> h == requests[q].hash)
  }

  /** The one-sided bounds, which hold in every state of every run. */
  ghost predicate Accounting(s: Worker) {
    && CountsNotNegative(s.running)
    && CountsBounded(s.running, s.requests)
    && s.inflightTotal <= Sum(s.running)
    && RequestsKnown(s.requests, s.running, s.boots, s.next)
  }

  /** The counters are exactly the open requests. */
  ghost predicate Exact(s: Worker) {
    && s.inflightTotal == Sum(s.running)
    && forall h <- s.running.Keys :: s.running[h].inflight == |OpenOn(s.requests, s.running[h].id)|
  }

  /** The parts of the state the counters depend on. */
  ghost predicate SameCounters(s: Worker, t: Worker) {
    && t.inflightTotal == s.inflightTotal
    && t.requests == s.requests
    && t.running == s.running
  }

  lemma OpenGrows(requests: map<RequestId, Request>, q: RequestId, r: Request, id: Id)
    requires q !in requests
    ensures |OpenOn(requests[q := r], id)| == |OpenOn(requests, id)| + if id == r.id then 1 else 0
  {
    if id == r.id {
      assert OpenOn(requests[q := r], id) == OpenOn(requests, id) + {q};
    } else {
      assert OpenOn(requests[q := r], id) == OpenOn(requests, id);
    }
  }

  lemma OpenShrinks(requests: map<RequestId, Request>, q: RequestId, id: Id)
    requires q in requests
    ensures |OpenOn(requests - {q}, id)| == |OpenOn(requests, id)| - if id == requests[q].id then 1 else 0
  {
    if id == requests[q].id {
      assert OpenOn(requests, id) == OpenOn(requests - {q}, id) + {q};
    } else {
      assert OpenOn(requests - {q}, id) == OpenOn(requests, id);
    }
  }

  // ---- beginning and finishing

  lemma BeginCounts(s: Worker, q: RequestId, hash: Hash, now: int)
    requires Registry(s) && q !in s.requests && hash in s.running
    ensures var t := BeginRequest(s, q, hash, now);
            && Sum(t.running) == Sum(s.running) + 1
            && forall h <- s.running.Keys ::
                 && t.running[h].id == s.running[h].id
                 && t.running[h].inflight == s.running[h].inflight + (if h == hash then 1 else 0)
                 && |OpenOn(t.requests, t.running[h].id)| ==
                    |OpenOn(s.requests, s.running[h].id)| + (if h == hash then 1 else 0)
  {
    var t := BeginRequest(s, q, hash, now);
    SumUpdate(s.running, hash, t.running[hash]);
    forall h | h in s.running
      ensures |OpenOn(t.requests, t.running[h].id)| ==
              |OpenOn(s.requests, s.running[h].id)| + (if h == hash then 1 else 0)
    {
      OpenGrows(s.requests, q, Request(hash, s.running[hash].id), s.running[h].id);
      if s.running[h].id == s.running[hash].id {
        RunningIdsDiffer(s, h, hash);
      }
    }
  }

  lemma BeginKeepsAccounting(s: Worker, q: RequestId, hash: Hash, now: int)
    requires Registry(s) && Accounting(s) && q !in s.requests && hash in s.running
    ensures Accounting(BeginRequest(s, q, hash, now))
  {
    BeginCounts(s, q, hash, now);
    var t := BeginRequest(s, q, hash, now);
    assert t.running.Keys == s.running.Keys;
    assert CountsBounded(t.running, t.requests);
    forall h | h in t.running && s.running[h].id == s.running[hash].id ensures h == hash {
      RunningIdsDiffer(s, h, hash);
    }
    assert RequestsKnown(t.requests, t.running, t.boots, t.next);
  }

  lemma BeginKeepsExact(s: Worker, q: RequestId, hash: Hash, now: int)
    requires Registry(s) && Exact(s) && q !in s.requests && hash in s.running
    ensures Exact(BeginRequest(s, q, hash, now))
  {
    BeginCounts(s, q, hash, now);
    assert BeginRequest(s, q, hash, now).running.Keys == s.running.Keys;
  }

  /** The agent the request was begun on is gone, and another one runs the same artifact. */
  predicate Stale(s: Worker, q: RequestId)
    requires q in s.requests
  {
    s.requests[q].hash in s.running && s.running[s.requests[q].hash].id != s.requests[q].id
  }

  lemma FinishCounts(s: Worker, q: RequestId, now: int)
    requires RequestsKnown(s.requests, s.running, s.boots, s.next) && q in s.requests
    ensures var t, hash := FinishRequest(s, q, now), s.requests[q].hash;
            && t.running.Keys == s.running.Keys
            && t.requests == s.requests - {q}
            && (forall h <- s.running.Keys :: h != hash ==>
                  t.running[h] == s.running[h] &&
                  |OpenOn(t.requests, t.running[h].id)| == |OpenOn(s.requests, s.running[h].id)|)
            && (hash in s.running ==>
                  && t.running[hash].id == s.running[hash].id
                  && t.running[hash].inflight == Max0(s.running[hash].inflight - 1)
                  && |OpenOn(t.requests, t.running[hash].id)| ==
                     |OpenOn(s.requests, s.running[hash].id)| - (if Stale(s, q) then 0 else 1)
                  && Sum(t.running) == Sum(s.running) + t.running[hash].inflight - s.running[hash].inflight
                  && t.inflightTotal == Max0(s.inflightTotal - 1))
            && (hash !in s.running ==> t.running == s.running && t.inflightTotal == s.inflightTotal)
  {
    var t, hash := FinishRequest(s, q, now), s.requests[q].hash;
    if hash in s.running {
      SumUpdate(s.running, hash, t.running[hash]);
    }
    forall h | h in s.running
      ensures |OpenOn(t.requests, t.running[h].id)| ==
              |OpenOn(s.requests, s.running[h].id)| - (if s.running[h].id == s.requests[q].id then 1 else 0)
    {
      OpenShrinks(s.requests, q, s.running[h].id);
    }
  }

  lemma OpenAtLeastOne(requests: map<RequestId, Request>, q: RequestId)
    requires q in requests
    ensures |OpenOn(requests, requests[q].id)| >= 1
  {
    assert q in OpenOn(requests, requests[q].id);
  }

  lemma FinishKeepsAccounting(s: Worker, q: RequestId, now: int)
    requires Accounting(s) && q in s.requests
    ensures Accounting(FinishRequest(s, q, now))
  {
    FinishCounts(s, q, now);
    FinishKeepsBounds(s, q, now);
    SumNotNegative(FinishRequest(s, q, now).running);
  }

  lemma FinishKeepsBounds(s: Worker, q: RequestId, now: int)
    requires Accounting(s) && q in s.requests
    ensures var t := FinishRequest(s, q, now);
            && CountsNotNegative(t.running) && CountsBounded(t.running, t.requests)
            && RequestsKnown(t.requests, t.running, t.boots, t.next)
  {
    FinishKeepsKnown(s, q, now);
    FinishCounts(s, q, now);
    OpenAtLeastOne(s.requests, q);
  }

  lemma FinishKeepsKnown(s: Worker, q: RequestId, now: int)
    requires RequestsKnown(s.requests, s.running, s.boots, s.next) && q in s.requests
    ensures var t := FinishRequest(s, q, now); RequestsKnown(t.requests, t.running, t.boots, t.next)
  {
    FinishCounts(s, q, now);
  }

  lemma {:induction false} CountBelowSum(running: map<Hash, Handle>, h: Hash)
    requires CountsNotNegative(running) && h in running
    ensures running[h].inflight <= Sum(running)
  {
    SumRemove(running, h);
    SumNotNegative(running - {h});
  }

  /** Ending a request keeps the counters exact unless it outlived its agent while something is counted. */
  lemma FinishKeepsExact(s: Worker, q: RequestId, now: int)
    requires Accounting(s) && Exact(s) && q in s.requests
    ensures Exact(FinishRequest(s, q, now)) <==> !(Stale(s, q) && s.inflightTotal > 0)
  {
    FinishCounts(s, q, now);
    OpenAtLeastOne(s.requests, q);
    var hash := s.requests[q].hash;
    if hash in s.running {
      CountBelowSum(s.running, hash);
    }
  }

  // ---- the other steps

  lemma StopKeepsCounts(s: Worker, hash: Hash, now: int)
    requires hash in s.running
    ensures Sum(StopAgent(s, hash, now).running) == Sum(s.running) - s.running[hash].inflight
    ensures Accounting(s) ==> Accounting(StopAgent(s, hash, now))
    ensures Exact(s) ==> Exact(StopAgent(s, hash, now))
  {
    SumRemove(s.running, hash);
  }

  lemma {:induction false} StopsKeepCounts(s: Worker, hashes: seq<Hash>, now: int)
    ensures Accounting(s) ==> Accounting(StopAgents(s, hashes, now))
    ensures Exact(s) ==> Exact(StopAgents(s, hashes, now))
    ensures StopAgents(s, hashes, now).requests == s.requests
    ensures forall h <- StopAgents(s, hashes, now).running.Keys ::
              h in s.running && StopAgents(s, hashes, now).running[h] == s.running[h]
  {
    if hashes != [] {
      var mid := StopAgents(s, hashes[..|hashes| - 1], now);
      StopsKeepCounts(s, hashes[..|hashes| - 1], now);
      if hashes[|hashes| - 1] in mid.running {
        StopKeepsCounts(mid, hashes[|hashes| - 1], now);
      }
    }
  }

  lemma ExitKeepsCounts(s: Worker, id: Id)
    requires id in s.watches
    ensures Accounting(s) ==> Accounting(ExitHandler(s, id))
    ensures Exact(s) ==> Exact(ExitHandler(s, id))
  {
    var hash := s.watches[id].hash;
    if hash in s.running {
      SumRemove(s.running, hash);
    }
  }

  lemma ReadyKeepsCounts(s: Worker, id: Id, now: int)
    requires id in s.boots && s.boots[id].phase.Polling? && s.boots[id].hash !in s.running
    requires RequestsKnown(s.requests, s.running, s.boots, s.next)
    ensures Accounting(s) ==> Accounting(BootReady(s, id, now))
    ensures Exact(s) ==> Exact(BootReady(s, id, now))
  {
    var t := BootReady(s, id, now);
    SumUpdate(s.running, s.boots[id].hash, t.running[s.boots[id].hash]);
    assert OpenOn(s.requests, id) == {};
  }

  lemma SameKeepsCounts(s: Worker, t: Worker)
    requires SameCounters(s, t)
    requires forall id <- t.boots.Keys :: id < s.next ==>
               id in s.boots && (s.boots[id].phase.Settled? ==> t.boots[id].phase.Settled?)
    requires s.next <= t.next
    ensures Accounting(s) ==> Accounting(t)
    ensures Exact(s) ==> Exact(t)
  {}

  lemma ReuseKeepsCounts(s: Worker, hash: Hash, now: int)
    requires hash in s.running
    ensures Accounting(s) ==> Accounting(Reuse(s, hash, now))
    ensures Exact(s) ==> Exact(Reuse(s, hash, now))
  {
    SumUpdate(s.running, hash, Reuse(s, hash, now).running[hash]);
  }

  lemma StartBootKeepsCounts(s: Worker, hash: Hash, now: int, onDisk: bool)
    ensures Accounting(s) ==> Accounting(StartBoot(s, hash, now, onDisk))
    ensures Exact(s) ==> Exact(StartBoot(s, hash, now, onDisk))
  {
    SameKeepsCounts(s, StartBoot(s, hash, now, onDisk));
  }

  lemma EnsureKeepsCounts(c: Config, s: Worker, hash: Hash, now: int, onDisk: bool)
    ensures Accounting(s) ==> Accounting(EnsureAgent(c, s, hash, now, onDisk))
    ensures Exact(s) ==> Exact(EnsureAgent(c, s, hash, now, onDisk))
  {
    match EnsureOutcome(c, s, hash)
    case NoCapacity =>
    case Joined =>
    case Reused => ReuseKeepsCounts(s, hash, now);
    case Booting(_) => StartBootKeepsCounts(s, hash, now, onDisk);
  }

  lemma FetchKeepsCounts(s: Worker, id: Id)
    requires id in s.boots && !s.boots[id].phase.Settled? && s.boots[id].hash in s.downloads
    ensures Accounting(s) ==> Accounting(DownloadSettled(s, id))
    ensures Exact(s) ==> Exact(DownloadSettled(s, id))
  {
    SameKeepsCounts(s, DownloadSettled(s, id));
  }

  lemma AllocateKeepsCounts(s: Worker, id: Id, answer: P.Result<Port>)
    requires id in s.boots && !s.boots[id].phase.Settled?
    ensures Accounting(s) ==> Accounting(Allocate(s, id, answer))
    ensures Exact(s) ==> Exact(Allocate(s, id, answer))
  {
    SameKeepsCounts(s, Allocate(s, id, answer));
  }

  lemma BusyKeepsCounts(s: Worker, id: Id, answer: P.Result<Port>)
    requires id in s.boots && s.boots[id].phase.Probing?
    ensures Accounting(s) ==> Accounting(ProbeBusy(s, id, answer))
    ensures Exact(s) ==> Exact(ProbeBusy(s, id, answer))
  {
    SameKeepsCounts(s, ProbeBusy(s, id, answer));
  }

  lemma FreeKeepsCounts(s: Worker, id: Id, spawned: bool)
    requires id in s.boots && s.boots[id].phase.Probing?
    ensures Accounting(s) ==> Accounting(ProbeFree(s, id, spawned))
    ensures Exact(s) ==> Exact(ProbeFree(s, id, spawned))
  {
    SameKeepsCounts(s, ProbeFree(s, id, spawned));
  }

  lemma BootKeepsCounts(c: Config, s: Worker, id: Id, e: BootEvent)
    requires BootsNotRunning(s.running, s.boots) && RequestsKnown(s.requests, s.running, s.boots, s.next)
    requires BootEnabled(c, s, id, e)
    ensures Accounting(s) ==> Accounting(BootApply(c, s, id, e))
    ensures Exact(s) ==> Exact(BootApply(c, s, id, e))
  {
    match e
    case DownloadSettles => FetchKeepsCounts(s, id);
    case PortAllocated(answer) => AllocateKeepsCounts(s, id, answer);
    case PortBusy(answer) => BusyKeepsCounts(s, id, answer);
    case PortFree(spawned) => FreeKeepsCounts(s, id, spawned);
    case Healthy(now) => ReadyKeepsCounts(s, id, now);
    case Unhealthy => SameKeepsCounts(s, BootNotReady(s, id));
    case GiveUp => SameKeepsCounts(s, Released(s, id));
    case Settles => SameKeepsCounts(s, BootSettled(s, id));
  }

  lemma StopEventKeepsCounts(c: Config, s: Worker, e: StopEvent)
    requires StopEnabled(c, s, e)
    ensures Accounting(s) ==> Accounting(StopApply(c, s, e))
    ensures Exact(s) ==> Exact(StopApply(c, s, e))
  {
    match e
    case Exits(id) => SameKeepsCounts(s, StopApply(c, s, e));
    case ExitSeen(id) => ExitKeepsCounts(s, id);
    case StopOne(hash, now) =>
      if hash in s.running {
        StopKeepsCounts(s, hash, now);
      }
    case StopAll(hashes, now) => StopsKeepCounts(s, hashes, now);
    case SweepIdle(hashes, now) => StopsKeepCounts(s, hashes, now);
    case Escalates(id) => SameKeepsCounts(s, StopEscalate(s, id));
    case StopEnds(id) => SameKeepsCounts(s, StopDone(s, id));
  }

  lemma DownloadKeepsCounts(s: Worker, hash: Hash, e: DownloadEvent)
    ensures Accounting(s) ==> Accounting(DownloadApply(s, hash, e))
    ensures Exact(s) ==> Exact(DownloadApply(s, hash, e))
  {
    SameKeepsCounts(s, DownloadApply(s, hash, e));
  }

  lemma BodyKeepsCounts(c: Config, s: Worker, e: ServerEvent)
    requires e.EnsureBody? && ServerEnabled(c, s, e)
    ensures Accounting(s) ==> Accounting(ServerApply(c, s, e))
    ensures Exact(s) ==> Exact(ServerApply(c, s, e))
  {
    var t := s.(awaitingBody := s.awaitingBody - {e.q});
    SameKeepsCounts(s, t);
    EnsureKeepsCounts(c, t, e.hash, e.now, e.onDisk);
  }

  lemma ServerKeepsAccounting(c: Config, s: Worker, e: ServerEvent)
    requires Registry(s) && Accounting(s) && ServerEnabled(c, s, e)
    ensures Accounting(ServerApply(c, s, e))
  {
    match e
    case AcceptEnsure(q) => SameKeepsCounts(s, ServerApply(c, s, e));
    case EnsureInvalid(q) => SameKeepsCounts(s, ServerApply(c, s, e));
    case EnsureBody(q, hash, now, onDisk) => BodyKeepsCounts(c, s, e);
    case Begins(q, hash, now) => BeginKeepsAccounting(s, q, hash, now);
    case Finishes(q, now) => FinishKeepsAccounting(s, q, now);
    case Drains => SameKeepsCounts(s, ServerApply(c, s, e));
  }

  /** Every step keeps the one-sided bounds. */
  lemma StepKeepsAccounting(c: Config, s: Worker, step: Step)
    requires Registry(s) && Accounting(s) && Enabled(c, s, step)
    ensures Accounting(Apply(c, s, step))
  {
    match step
    case OfBoot(id, e) => BootKeepsCounts(c, s, id, e);
    case OfDownload(hash, e) => DownloadKeepsCounts(s, hash, e);
    case OfStop(e) => StopEventKeepsCounts(c, s, e);
    case OfServer(e) => ServerKeepsAccounting(c, s, e);
  }

  /** The one step that can spoil the counters: a request ends after its agent was replaced. */
  predicate Miscounts(s: Worker, step: Step) {
    && step.OfServer? && step.server.Finishes?
    && step.server.q in s.requests && Stale(s, step.server.q) && s.inflightTotal > 0
  }

  lemma ServerKeepsExact(c: Config, s: Worker, e: ServerEvent)
    requires Registry(s) && Accounting(s) && Exact(s) && ServerEnabled(c, s, e)
    ensures Exact(ServerApply(c, s, e)) <==> !Miscounts(s, OfServer(e))
  {
    match e
    case AcceptEnsure(q) => SameKeepsCounts(s, ServerApply(c, s, e));
    case EnsureInvalid(q) => SameKeepsCounts(s, ServerApply(c, s, e));
    case EnsureBody(q, hash, now, onDisk) => BodyKeepsCounts(c, s, e);
    case Begins(q, hash, now) => BeginKeepsExact(s, q, hash, now);
    case Finishes(q, now) => FinishKeepsExact(s, q, now);
    case Drains => SameKeepsCounts(s, ServerApply(c, s, e));
  }

  /** From exact counters a step leads to exact counters if and only if it does not miscount. */
  lemma ExactUnlessMiscounted(c: Config, s: Worker, step: Step)
    requires Registry(s) && Accounting(s) && Exact(s) && Enabled(c, s, step)
    ensures Exact(Apply(c, s, step)) <==> !Miscounts(s, step)
  {
    match step
    case OfBoot(id, e) => BootKeepsCounts(c, s, id, e);
    case OfDownload(hash, e) => DownloadKeepsCounts(s, hash, e);
    case OfStop(e) => StopEventKeepsCounts(c, s, e);
    case OfServer(e) => ServerKeepsExact(c, s, e);
  }

  // ---- what the bounds mean

  predicate IsAgent(running: map<Hash, Handle>, id: Id) {
    exists h :: h in running && running[h].id == id
  }

  function OpenOnAgents(running: map<Hash, Handle>, requests: map<RequestId, Request>): set<RequestId> {
    set q | q in requests && IsAgent(running, requests[q].id)
  }

  ghost predicate IdsDiffer(running: map<Hash, Handle>) {
    forall h <- running.Keys, k <- running.Keys :: running[h].id == running[k].id ==> h == k
  }

  lemma OpenOnSplits(running: map<Hash, Handle>, requests: map<RequestId, Request>, h: Hash)
    requires IdsDiffer(running) && h in running
    ensures |OpenOnAgents(running, requests)| ==
            |OpenOn(requests, running[h].id)| + |OpenOnAgents(running - {h}, requests)|
  {
    var one, rest := OpenOn(requests, running[h].id), OpenOnAgents(running - {h}, requests);
    var id := running[h].id;
    forall i ensures IsAgent(running, i) <==> i == id || IsAgent(running - {h}, i) {
      if k :| k in running && running[k].id == i {
        assert k == h || k in running - {h};
      }
    }
    assert OpenOnAgents(running, requests) == one + rest;
    assert one * rest == {};
  }

  /** The sum of the counters is at most the open requests of running agents, and exactly that when exact. */
  lemma {:induction false} SumBelowOpen(running: map<Hash, Handle>, requests: map<RequestId, Request>)
    requires IdsDiffer(running)
    ensures CountsBounded(running, requests) ==> Sum(running) <= |OpenOnAgents(running, requests)|
    ensures (forall h <- running.Keys :: running[h].inflight == |OpenOn(requests, running[h].id)|) ==>
              Sum(running) == |OpenOnAgents(running, requests)|
    decreases |running|
  {
    if h :| h in running {
      SumRemove(running, h);
      OpenOnSplits(running, requests, h);
      SumBelowOpen(running - {h}, requests);
    } else {
      assert running == map[];
      assert OpenOnAgents(running, requests) == {};
    }
  }

  lemma TotalBelowOpen(s: Worker)
    requires Registry(s) && Accounting(s)
    ensures s.inflightTotal <= Sum(s.running) <= |OpenOnAgents(s.running, s.requests)| <= |s.requests|
    ensures Exact(s) ==> s.inflightTotal == |OpenOnAgents(s.running, s.requests)|
  {
    assert IdsDiffer(s.running) by {
      forall h, k | h in s.running && k in s.running && s.running[h].id == s.running[k].id ensures h == k {
        RunningIdsDiffer(s, h, k);
      }
    }
    SumBelowOpen(s.running, s.requests);
    P.SubsetSize(OpenOnAgents(s.running, s.requests), s.requests.Keys);
  }

  /** With exact counters the idle sweep stops only agents that serve nobody. */
  lemma SweepSparesTheBusy(c: Config, s: Worker, hashes: seq<Hash>, now: int, h: Hash)
    requires Exact(s) && StopEnabled(c, s, SweepIdle(hashes, now))
    requires h in s.running && h !in StopAgents(s, hashes, now).running
    ensures OpenOn(s.requests, s.running[h].id) == {}
  {
    StopsOnlyListed(s, hashes, now, h);
    assert h in s.IdleHashes(now, c.idleStopMs);
  }

  lemma {:induction false} StopsOnlyListed(s: Worker, hashes: seq<Hash>, now: int, h: Hash)
    requires h in s.running
    ensures h in hashes <==> h !in StopAgents(s, hashes, now).running
    ensures h !in hashes ==> StopAgents(s, hashes, now).running[h] == s.running[h]
  {
    if hashes != [] {
      assert hashes == hashes[..|hashes| - 1] + [hashes[|hashes| - 1]];
      StopsOnlyListed(s, hashes[..|hashes| - 1], now, h);
    }
  }
}
