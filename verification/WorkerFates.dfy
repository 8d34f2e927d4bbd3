/** What has become of every boot attempt: no process is lost without having exited or been signalled. */
module WorkerFates {
  import opened ArtifactCache
  import opened WorkerModel
  import opened WorkerRegistry
  import opened WorkerInflight
  import P = PortPool

  ghost predicate Unsettled(boots: map<Id, Boot>, id: Id) {
    id in boots && !boots[id].phase.Settled?
  }

  /** The attempt is still booting or is an agent that requests are routed to. */
  ghost predicate Alive(s: Worker, id: Id) {
    Unsettled(s.boots, id) || IsAgent(s.running, id)
  }

  predicate Ended(p: Processes, id: Id) {
    id in p.spawned ==> id in p.exited || id in p.signalled
  }

  ghost predicate Fates(s: Worker) {
    && (forall id: Id :: id < s.next ==> Alive(s, id) || Ended(s.processes, id))
    && (forall id <- s.processes.spawned :: id < s.next)
    && (forall id <- s.boots.Keys :: BootFate(s.boots[id].phase, s.processes, id))
  }

  /** A boot that has no process yet has spawned none, and one that is given up has been killed. */
  predicate BootFate(phase: Phase, p: Processes, id: Id) {
    && (phase.Downloading? || phase.Fetched? || phase.Probing? ==> id !in p.spawned)
    && (phase.Killing? ==> id in p.signalled)
  }

  ghost predicate ProcessesGrow(p: Processes, q: Processes) {
    p.exited <= q.exited && p.signalled <= q.signalled && p.spawned <= q.spawned
  }

  /** One boot changes, nobody stops being an agent, and `id` itself stays alive or has ended. */
  lemma BootChangeKeepsFates(s: Worker, t: Worker, id: Id)
    requires Fates(s) && id in s.boots && id in t.boots && t.boots == s.boots[id := t.boots[id]] && t.next == s.next
    requires ProcessesGrow(s.processes, t.processes) && t.processes.spawned <= s.processes.spawned + {id}
    requires id < s.next
    requires forall i: Id :: i != id && IsAgent(s.running, i) ==> IsAgent(t.running, i)
    requires Alive(t, id) || Ended(t.processes, id)
    requires BootFate(t.boots[id].phase, t.processes, id)
    ensures Fates(t)
  {
    forall i: Id | i < t.next ensures Alive(t, i) || Ended(t.processes, i) {
      assert Alive(s, i) || Ended(s.processes, i);
    }
  }

  lemma SameAgents(s: map<Hash, Handle>, t: map<Hash, Handle>)
    requires s.Keys == t.Keys && forall h <- s.Keys :: s[h].id == t[h].id
    ensures forall i: Id :: IsAgent(s, i) <==> IsAgent(t, i)
  {
    forall i: Id ensures IsAgent(s, i) <==> IsAgent(t, i) {
      if h :| h in s && s[h].id == i { assert t[h].id == i; }
      if h :| h in t && t[h].id == i { assert s[h].id == i; }
    }
  }

  lemma FetchKeepsFates(s: Worker, id: Id)
    requires Fates(s) && id < s.next && id in s.boots && s.boots[id].phase.Downloading?
             && s.boots[id].hash in s.downloads
    ensures Fates(DownloadSettled(s, id))
  {
    BootChangeKeepsFates(s, DownloadSettled(s, id), id);
  }

  lemma AllocateKeepsFates(s: Worker, id: Id, answer: P.Result<Port>)
    requires Fates(s) && id < s.next && id in s.boots && (s.boots[id].phase.Fetched? || s.boots[id].phase.Probing?)
    ensures Fates(Allocate(s, id, answer))
  {
    BootChangeKeepsFates(s, Allocate(s, id, answer), id);
  }

  lemma BusyKeepsFates(s: Worker, id: Id, answer: P.Result<Port>)
    requires Fates(s) && id < s.next && id in s.boots && s.boots[id].phase.Probing?
    ensures Fates(ProbeBusy(s, id, answer))
  {
    BootChangeKeepsFates(s, ProbeBusy(s, id, answer), id);
  }

  lemma FreeKeepsFates(s: Worker, id: Id, spawned: bool)
    requires Fates(s) && id < s.next && id in s.boots && s.boots[id].phase.Probing?
    ensures Fates(ProbeFree(s, id, spawned))
  {
    BootChangeKeepsFates(s, ProbeFree(s, id, spawned), id);
  }

  lemma ReadyKeepsFates(s: Worker, id: Id, now: int)
    requires Fates(s) && id < s.next && id in s.boots && s.boots[id].phase.Polling? && s.boots[id].hash !in s.running
    ensures Fates(BootReady(s, id, now))
  {
    var t, hash := BootReady(s, id, now), s.boots[id].hash;
    assert t.running[hash].id == id;
    forall i: Id | i != id && IsAgent(s.running, i) ensures IsAgent(t.running, i) {
      var h :| h in s.running && s.running[h].id == i;
      assert t.running[h].id == i;
    }
    BootChangeKeepsFates(s, t, id);
  }

  lemma UnhealthyKeepsFates(s: Worker, id: Id)
    requires Fates(s) && id < s.next && id in s.boots && s.boots[id].phase.Polling?
    ensures Fates(BootNotReady(s, id))
  {
    BootChangeKeepsFates(s, BootNotReady(s, id), id);
  }

  lemma GiveUpKeepsFates(s: Worker, id: Id)
    requires Fates(s) && id < s.next && id in s.boots && s.boots[id].phase.Killing?
    ensures Fates(Released(s, id))
  {
    BootChangeKeepsFates(s, Released(s, id), id);
  }

  lemma SettlesKeepsFates(s: Worker, id: Id)
    requires Fates(s) && id in s.boots && s.boots[id].phase.Settled?
    ensures Fates(BootSettled(s, id))
  {
    var t := BootSettled(s, id);
    forall i: Id | i < t.next ensures Alive(t, i) || Ended(t.processes, i) {
      assert Alive(s, i) || Ended(s.processes, i);
    }
  }

  lemma BootKeepsFates(c: Config, s: Worker, id: Id, e: BootEvent)
    requires Registry(s) && Fates(s) && BootEnabled(c, s, id, e)
    ensures Fates(BootApply(c, s, id, e))
  {
    match e
    case DownloadSettles => FetchKeepsFates(s, id);
    case PortAllocated(answer) => AllocateKeepsFates(s, id, answer);
    case PortBusy(answer) => BusyKeepsFates(s, id, answer);
    case PortFree(spawned) => FreeKeepsFates(s, id, spawned);
    case Healthy(now) => ReadyKeepsFates(s, id, now);
    case Unhealthy => UnhealthyKeepsFates(s, id);
    case GiveUp => GiveUpKeepsFates(s, id);
    case Settles => SettlesKeepsFates(s, id);
  }

  /** The agent of `hash` goes; its process has exited or been signalled. */
  lemma LeavesKeepsFates(s: Worker, t: Worker, hash: Hash)
    requires Fates(s) && hash in s.running && t.running == s.running - {hash}
    requires t.boots == s.boots && t.next == s.next && t.processes.spawned == s.processes.spawned
    requires ProcessesGrow(s.processes, t.processes) && Ended(t.processes, s.running[hash].id)
    ensures Fates(t)
  {
    forall i: Id | i < t.next ensures Alive(t, i) || Ended(t.processes, i) {
      assert Alive(s, i) || Ended(s.processes, i);
      if h :| h in s.running && s.running[h].id == i {
        if h != hash {
          assert h in t.running && t.running[h].id == i;
        }
      }
    }
  }

  lemma SameKeepsFates(s: Worker, t: Worker)
    requires Fates(s) && t.boots == s.boots && t.next == s.next && t.processes.spawned == s.processes.spawned
    requires ProcessesGrow(s.processes, t.processes)
    requires forall i: Id :: IsAgent(s.running, i) ==> IsAgent(t.running, i)
    ensures Fates(t)
  {
    forall i: Id | i < t.next ensures Alive(t, i) || Ended(t.processes, i) {
      assert Alive(s, i) || Ended(s.processes, i);
    }
  }

  lemma StopKeepsFates(s: Worker, hash: Hash, now: int)
    requires Fates(s)
    ensures Fates(StopAgent(s, hash, now))
  {
    if hash in s.running {
      LeavesKeepsFates(s, StopAgent(s, hash, now), hash);
    }
  }

  lemma {:induction false} StopsKeepFates(s: Worker, hashes: seq<Hash>, now: int)
    requires Fates(s)
    ensures Fates(StopAgents(s, hashes, now))
  {
    if hashes != [] {
      StopsKeepFates(s, hashes[..|hashes| - 1], now);
      StopKeepsFates(StopAgents(s, hashes[..|hashes| - 1], now), hashes[|hashes| - 1], now);
    }
  }

  lemma ExitKeepsFates(s: Worker, id: Id)
    requires Fates(s) && id in s.watches && id in s.processes.exited
    ensures Fates(ExitHandler(s, id))
  {
    var hash, t := s.watches[id].hash, ExitHandler(s, id);
    ExitedStays(s, id);
    if hash in s.running && s.running[hash].id == id {
      LeavesKeepsFates(s, t, hash);
    } else {
      SameKeepsFates(s, t);
    }
  }

  lemma ExitedStays(s: Worker, id: Id)
    requires id in s.watches
    ensures var t, hash := ExitHandler(s, id), s.watches[id].hash;
            && t.boots == s.boots && t.next == s.next && t.processes == s.processes
            && t.running == if hash in s.running && s.running[hash].id == id then s.running - {hash} else s.running
  {}

  lemma StopEventKeepsFates(c: Config, s: Worker, e: StopEvent)
    requires Fates(s) && StopEnabled(c, s, e)
    ensures Fates(StopApply(c, s, e))
  {
    match e
    case Exits(id) => SameKeepsFates(s, StopApply(c, s, e));
    case ExitSeen(id) => ExitKeepsFates(s, id);
    case StopOne(hash, now) => StopKeepsFates(s, hash, now);
    case StopAll(hashes, now) => StopsKeepFates(s, hashes, now);
    case SweepIdle(hashes, now) => StopsKeepFates(s, hashes, now);
    case Escalates(id) => SameKeepsFates(s, StopEscalate(s, id));
    case StopEnds(id) => SameKeepsFates(s, StopDone(s, id));
  }

  lemma StartBootKeepsFates(s: Worker, hash: Hash, now: int, onDisk: bool)
    requires Fates(s) && s.next !in s.boots
    ensures Fates(StartBoot(s, hash, now, onDisk))
  {
    var t := StartBoot(s, hash, now, onDisk);
    forall i: Id | i < t.next ensures Alive(t, i) || Ended(t.processes, i) {
      if i < s.next {
        assert Alive(s, i) || Ended(s.processes, i);
      }
    }
  }

  lemma EnsureKeepsFates(c: Config, s: Worker, hash: Hash, now: int, onDisk: bool)
    requires Fates(s) && s.next !in s.boots
    ensures Fates(EnsureAgent(c, s, hash, now, onDisk))
  {
    match EnsureOutcome(c, s, hash)
    case NoCapacity =>
    case Joined =>
    case Reused =>
      SameAgents(s.running, Reuse(s, hash, now).running);
      SameKeepsFates(s, Reuse(s, hash, now));
    case Booting(_) => StartBootKeepsFates(s, hash, now, onDisk);
  }

  lemma EndKeepsFates(s: Worker, hash: Hash, now: int)
    requires Fates(s)
    ensures Fates(EndRequest(s, hash, now))
  {
    if hash in s.running {
      SameAgents(s.running, EndRequest(s, hash, now).running);
      SameKeepsFates(s, EndRequest(s, hash, now));
    }
  }

  lemma FinishKeepsFates(s: Worker, q: RequestId, now: int)
    requires Fates(s) && q in s.requests
    ensures Fates(FinishRequest(s, q, now))
  {
    EndKeepsFates(s.(requests := s.requests - {q}), s.requests[q].hash, now);
  }

  lemma BeginKeepsFates(s: Worker, q: RequestId, hash: Hash, now: int)
    requires Fates(s) && hash in s.running
    ensures Fates(BeginRequest(s, q, hash, now))
  {
    SameAgents(s.running, BeginRequest(s, q, hash, now).running);
    SameKeepsFates(s, BeginRequest(s, q, hash, now));
  }

  lemma ServerKeepsFates(c: Config, s: Worker, e: ServerEvent)
    requires Fates(s) && s.next !in s.boots && ServerEnabled(c, s, e)
    ensures Fates(ServerApply(c, s, e))
  {
    match e
    case AcceptEnsure(q) => SameKeepsFates(s, ServerApply(c, s, e));
    case EnsureInvalid(q) => SameKeepsFates(s, ServerApply(c, s, e));
    case EnsureBody(q, hash, now, onDisk) =>
      var t := s.(awaitingBody := s.awaitingBody - {q});
      SameKeepsFates(s, t);
      EnsureKeepsFates(c, t, hash, now, onDisk);
    case Begins(q, hash, now) => BeginKeepsFates(s, q, hash, now);
    case Finishes(q, now) => FinishKeepsFates(s, q, now);
    case Drains => SameKeepsFates(s, ServerApply(c, s, e));
  }

  lemma DownloadKeepsFates(s: Worker, hash: Hash, e: DownloadEvent)
    requires Fates(s)
    ensures Fates(DownloadApply(s, hash, e))
  {
    SameKeepsFates(s, DownloadApply(s, hash, e));
  }

  /** Every step keeps count of what became of each attempt. */
  lemma StepKeepsFates(c: Config, s: Worker, step: Step)
    requires Registry(s) && Fates(s) && Enabled(c, s, step)
    ensures Fates(Apply(c, s, step))
  {
    match step
    case OfBoot(id, e) => BootKeepsFates(c, s, id, e);
    case OfDownload(hash, e) => DownloadKeepsFates(s, hash, e);
    case OfStop(e) => StopEventKeepsFates(c, s, e);
    case OfServer(e) => ServerKeepsFates(c, s, e);
  }

  // ---- nobody comes back

  /** Attempts known at `s` that have left `boots`, or have also stopped being an agent, stay so. */
  ghost predicate NoReturn(s: Worker, t: Worker) {
    && s.next <= t.next
    && (forall id <- t.boots.Keys :: id < s.next ==> id in s.boots)
    && (forall id: Id :: IsAgent(t.running, id) ==> IsAgent(s.running, id) || id in s.boots)
  }

  lemma FewerAgentsNoReturn(s: Worker, t: Worker)
    requires t.next == s.next && t.boots.Keys <= s.boots.Keys
    requires forall h <- t.running.Keys :: h in s.running && t.running[h].id == s.running[h].id
    ensures NoReturn(s, t)
  {
    forall id: Id | IsAgent(t.running, id) ensures IsAgent(s.running, id) {
      var h :| h in t.running && t.running[h].id == id;
      assert s.running[h].id == id;
    }
  }

  lemma HealthyNoReturn(s: Worker, id: Id, now: int)
    requires id in s.boots && s.boots[id].phase.Polling?
    ensures NoReturn(s, BootReady(s, id, now))
  {
    var t := BootReady(s, id, now);
    forall i: Id | IsAgent(t.running, i) ensures IsAgent(s.running, i) || i in s.boots {
      var h :| h in t.running && t.running[h].id == i;
      if h != s.boots[id].hash {
        assert s.running[h].id == i;
      }
    }
  }

  lemma FetchNoReturn(s: Worker, id: Id)
    requires id in s.boots && s.boots[id].hash in s.downloads
    ensures NoReturn(s, DownloadSettled(s, id))
  {
    FewerAgentsNoReturn(s, DownloadSettled(s, id));
  }

  lemma AllocateNoReturn(s: Worker, id: Id, answer: P.Result<Port>)
    requires id in s.boots
    ensures NoReturn(s, Allocate(s, id, answer))
  {
    FewerAgentsNoReturn(s, Allocate(s, id, answer));
  }

  lemma UnhealthyNoReturn(s: Worker, id: Id)
    requires id in s.boots && s.boots[id].phase.Polling?
    ensures NoReturn(s, BootNotReady(s, id))
  {
    FewerAgentsNoReturn(s, BootNotReady(s, id));
  }

  lemma GiveUpNoReturn(s: Worker, id: Id)
    requires id in s.boots && s.boots[id].phase.Killing?
    ensures NoReturn(s, Released(s, id))
  {
    FewerAgentsNoReturn(s, Released(s, id));
  }

  lemma SettlesNoReturn(s: Worker, id: Id)
    requires id in s.boots
    ensures NoReturn(s, BootSettled(s, id))
  {
    FewerAgentsNoReturn(s, BootSettled(s, id));
  }

  lemma BusyNoReturn(s: Worker, id: Id, answer: P.Result<Port>)
    requires id in s.boots && s.boots[id].phase.Probing?
    ensures NoReturn(s, ProbeBusy(s, id, answer))
  {
    FewerAgentsNoReturn(s, ProbeBusy(s, id, answer));
  }

  lemma FreeNoReturn(s: Worker, id: Id, spawned: bool)
    requires id in s.boots && s.boots[id].phase.Probing?
    ensures NoReturn(s, ProbeFree(s, id, spawned))
  {
    FewerAgentsNoReturn(s, ProbeFree(s, id, spawned));
  }

  lemma BootNoReturn(c: Config, s: Worker, id: Id, e: BootEvent)
    requires BootEnabled(c, s, id, e)
    ensures NoReturn(s, BootApply(c, s, id, e))
  {
    match e
    case DownloadSettles => FetchNoReturn(s, id);
    case PortAllocated(answer) => AllocateNoReturn(s, id, answer);
    case PortBusy(answer) => BusyNoReturn(s, id, answer);
    case PortFree(spawned) => FreeNoReturn(s, id, spawned);
    case Healthy(now) => HealthyNoReturn(s, id, now);
    case Unhealthy => UnhealthyNoReturn(s, id);
    case GiveUp => GiveUpNoReturn(s, id);
    case Settles => SettlesNoReturn(s, id);
  }

  lemma StopNoReturn(c: Config, s: Worker, e: StopEvent)
    requires StopEnabled(c, s, e)
    ensures NoReturn(s, StopApply(c, s, e))
  {
    match e
    case Exits(id) => FewerAgentsNoReturn(s, StopApply(c, s, e));
    case ExitSeen(id) => FewerAgentsNoReturn(s, ExitHandler(s, id));
    case StopOne(hash, now) => FewerAgentsNoReturn(s, StopAgent(s, hash, now));
    case StopAll(hashes, now) => StopsNoReturn(s, hashes, now);
    case SweepIdle(hashes, now) => StopsNoReturn(s, hashes, now);
    case Escalates(id) => FewerAgentsNoReturn(s, StopEscalate(s, id));
    case StopEnds(id) => FewerAgentsNoReturn(s, StopDone(s, id));
  }

  lemma {:induction false} StopsShrinkAgents(s: Worker, hashes: seq<Hash>, now: int)
    ensures var t := StopAgents(s, hashes, now);
            && t.next == s.next && t.boots == s.boots
            && forall h <- t.running.Keys :: h in s.running && t.running[h] == s.running[h]
  {
    if hashes != [] {
      StopsShrinkAgents(s, hashes[..|hashes| - 1], now);
    }
  }

  lemma StopsNoReturn(s: Worker, hashes: seq<Hash>, now: int)
    ensures NoReturn(s, StopAgents(s, hashes, now))
  {
    StopsShrinkAgents(s, hashes, now);
    FewerAgentsNoReturn(s, StopAgents(s, hashes, now));
  }

  lemma StartBootNoReturn(s: Worker, hash: Hash, now: int, onDisk: bool)
    ensures NoReturn(s, StartBoot(s, hash, now, onDisk))
  {
    var t := StartBoot(s, hash, now, onDisk);
    assert t.running == s.running && t.boots.Keys == s.boots.Keys + {s.next};
  }

  lemma EnsureNoReturn(c: Config, s: Worker, hash: Hash, now: int, onDisk: bool)
    ensures NoReturn(s, EnsureAgent(c, s, hash, now, onDisk))
  {
    match EnsureOutcome(c, s, hash)
    case NoCapacity =>
    case Joined =>
    case Reused => FewerAgentsNoReturn(s, Reuse(s, hash, now));
    case Booting(_) => StartBootNoReturn(s, hash, now, onDisk);
  }

  lemma ServerNoReturn(c: Config, s: Worker, e: ServerEvent)
    requires ServerEnabled(c, s, e)
    ensures NoReturn(s, ServerApply(c, s, e))
  {
    match e
    case AcceptEnsure(q) => FewerAgentsNoReturn(s, ServerApply(c, s, e));
    case EnsureInvalid(q) => FewerAgentsNoReturn(s, ServerApply(c, s, e));
    case EnsureBody(q, hash, now, onDisk) =>
      EnsureNoReturn(c, s.(awaitingBody := s.awaitingBody - {q}), hash, now, onDisk);
    case Begins(q, hash, now) => FewerAgentsNoReturn(s, BeginRequest(s, q, hash, now));
    case Finishes(q, now) => FewerAgentsNoReturn(s, FinishRequest(s, q, now));
    case Drains => FewerAgentsNoReturn(s, ServerApply(c, s, e));
  }

  lemma DownloadNoReturn(s: Worker, hash: Hash, e: DownloadEvent)
    ensures NoReturn(s, DownloadApply(s, hash, e))
  {
    FewerAgentsNoReturn(s, DownloadApply(s, hash, e));
  }

  /** An attempt that has left both maps never comes back: a new boot has a new id. */
  lemma StepNoReturn(c: Config, s: Worker, step: Step)
    requires Enabled(c, s, step)
    ensures NoReturn(s, Apply(c, s, step))
  {
    match step
    case OfBoot(id, e) => BootNoReturn(c, s, id, e);
    case OfDownload(hash, e) => DownloadNoReturn(s, hash, e);
    case OfStop(e) => StopNoReturn(c, s, e);
    case OfServer(e) => ServerNoReturn(c, s, e);
  }
}
