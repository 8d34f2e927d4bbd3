/** Who is running, booting or stopping: what every step keeps about the manager's two maps. */
module WorkerRegistry {
  import opened ArtifactCache
  import opened WorkerModel
  import P = PortPool

  ghost predicate IdsKnown(running: map<Hash, Handle>, boots: map<Id, Boot>, stops: map<Id, Stop>, next: Id) {
    && (forall id <- boots.Keys :: id < next)
    && (forall id <- stops.Keys :: id < next)
    && (forall h <- running.Keys :: running[h].id < next)
  }

  /** `pending` names exactly the boots in progress, so no hash is booted twice at a time. */
  ghost predicate PendingBoots(pending: map<Hash, Id>, boots: map<Id, Boot>) {
    && (forall h <- pending.Keys :: pending[h] in boots && boots[pending[h]].hash == h)
    && (forall id <- boots.Keys :: boots[id].hash in pending && pending[boots[id].hash] == id)
  }

  /** A boot that has not settled belongs to a hash that is not running. */
  ghost predicate BootsNotRunning(running: map<Hash, Handle>, boots: map<Id, Boot>) {
    && (forall id <- boots.Keys :: !boots[id].phase.Settled? ==> boots[id].hash !in running)
    && (forall h <- running.Keys :: running[h].id in boots ==> boots[running[h].id].phase.Settled?)
  }

  ghost predicate RunningReady(running: map<Hash, Handle>) {
    forall h <- running.Keys :: running[h].state == Ready
  }

  ghost predicate RunningWatched(running: map<Hash, Handle>, watches: map<Id, Watch>) {
    forall h <- running.Keys :: running[h].id in watches && watches[running[h].id] == Watch(h, running[h].port)
  }

  ghost predicate StopsApart(running: map<Hash, Handle>, boots: map<Id, Boot>, stops: map<Id, Stop>) {
    && (forall id <- stops.Keys :: id in boots ==> boots[id].phase.Settled?)
    && (forall h <- running.Keys :: running[h].id !in stops)
    && (forall id <- stops.Keys :: stops[id].handle.id == id)
  }

  ghost predicate Registry(s: Worker) {
    && IdsKnown(s.running, s.boots, s.stops, s.next)
    && PendingBoots(s.pending, s.boots)
    && BootsNotRunning(s.running, s.boots)
    && RunningReady(s.running)
    && RunningWatched(s.running, s.watches)
    && StopsApart(s.running, s.boots, s.stops)
  }

  /** The parts of the state that `Registry` speaks of. */
  ghost predicate SameRegistry(s: Worker, t: Worker) {
    && s.running == t.running && s.pending == t.pending && s.boots == t.boots
    && s.watches == t.watches && s.stops == t.stops && s.next == t.next
  }

  lemma RunningIdsDiffer(s: Worker, h: Hash, k: Hash)
    requires Registry(s) && h in s.running && k in s.running && s.running[h].id == s.running[k].id
    ensures h == k
  {
    assert s.watches[s.running[h].id].hash == h;
  }

  lemma SameKeeps(s: Worker, t: Worker)
    requires Registry(s) && SameRegistry(s, t)
    ensures Registry(t)
  {}

  lemma NewBootKeeps(s: Worker, t: Worker, hash: Hash, phase: Phase)
    requires Registry(s) && hash !in s.running && hash !in s.pending
    requires t.boots == s.boots[s.next := Boot(hash, phase)] && t.pending == s.pending[hash := s.next]
    requires SameRegistry(s.(boots := t.boots, pending := t.pending, next := s.next + 1), t)
    ensures Registry(t)
  {
    assert s.next !in s.boots && s.next !in s.stops;
    assert PendingBoots(t.pending, t.boots) by {
      forall id | id in t.boots ensures t.boots[id].hash in t.pending && t.pending[t.boots[id].hash] == id {
        if id != s.next {
          assert s.boots[id].hash in s.pending;
        }
      }
      forall h | h in t.pending ensures t.pending[h] in t.boots && t.boots[t.pending[h]].hash == h {
        if h != hash {
          assert s.pending[h] in s.boots && s.pending[h] != s.next;
        }
      }
    }
  }

  lemma StartBootKeeps(c: Config, s: Worker, hash: Hash, now: int, onDisk: bool)
    requires Registry(s) && EnsureOutcome(c, s, hash).Booting?
    ensures Registry(StartBoot(s, hash, now, onDisk))
  {
    var t := StartBoot(s, hash, now, onDisk);
    assert hash !in s.running && hash !in s.pending;
    NewBootKeeps(s, t, hash, t.boots[s.next].phase);
  }

  /** The handle at `hash` may change its counters, nothing else. */
  lemma CountersKeep(s: Worker, t: Worker, hash: Hash)
    requires Registry(s) && hash in s.running && hash in t.running
    requires SameRegistry(s.(running := t.running), t)
    requires t.running == s.running[hash := t.running[hash]]
    requires t.running[hash].id == s.running[hash].id && t.running[hash].port == s.running[hash].port
    requires t.running[hash].state == s.running[hash].state
    ensures Registry(t)
  {}

  lemma PhaseKeeps(s: Worker, t: Worker, id: Id)
    requires Registry(s) && id in s.boots && !s.boots[id].phase.Settled?
    requires id in t.boots && t.boots == s.boots[id := t.boots[id]] && t.boots[id].hash == s.boots[id].hash
    requires SameRegistry(s.(boots := t.boots), t)
    ensures Registry(t)
  {}

  /** A process that becomes healthy enters the routing map where no handle was. */
  lemma BootReadyKeeps(s: Worker, id: Id, now: int)
    requires Registry(s) && id in s.boots && s.boots[id].phase.Polling?
    ensures Registry(BootReady(s, id, now))
    ensures s.boots[id].hash !in s.running
  {
    var hash, port := s.boots[id].hash, s.boots[id].phase.port;
    var t := BootReady(s, id, now);
    assert hash !in s.running && id !in s.stops;
    PollingIsNoAgent(s, id);
    ReadyWatched(s.running, s.watches, hash, Handle(id, port, Ready, 0, now));
    ReadyBootsNotRunning(s, id, now);
    ReadyStopsApart(s, id, now);
  }

  lemma ReadyWatched(running: map<Hash, Handle>, watches: map<Id, Watch>, hash: Hash, handle: Handle)
    requires RunningWatched(running, watches) && forall h <- running.Keys :: running[h].id != handle.id
    ensures RunningWatched(running[hash := handle], watches[handle.id := Watch(hash, handle.port)])
  {}

  lemma ReadyStopsApart(s: Worker, id: Id, now: int)
    requires Registry(s) && id in s.boots && s.boots[id].phase.Polling?
    ensures var t := BootReady(s, id, now); StopsApart(t.running, t.boots, t.stops)
  {}

  lemma PollingIsNoAgent(s: Worker, id: Id)
    requires Registry(s) && id in s.boots && s.boots[id].phase.Polling?
    ensures forall h <- s.running.Keys :: s.running[h].id != id
  {
    forall h <- s.running.Keys ensures s.running[h].id != id {
      assert s.running[h].id in s.boots ==> s.boots[s.running[h].id].phase.Settled?;
    }
  }

  lemma ReadyBootsNotRunning(s: Worker, id: Id, now: int)
    requires Registry(s) && id in s.boots && s.boots[id].phase.Polling?
    ensures var t := BootReady(s, id, now); BootsNotRunning(t.running, t.boots)
  {
    var t := BootReady(s, id, now);
    forall i | i in t.boots && !t.boots[i].phase.Settled? ensures t.boots[i].hash !in t.running {
      assert i != id;
      assert s.pending[s.boots[i].hash] == i;
    }
  }

  lemma BootSettledKeeps(s: Worker, id: Id)
    requires Registry(s) && id in s.boots && s.boots[id].phase.Settled?
    ensures Registry(BootSettled(s, id))
  {}

  lemma LeavesKeep(s: Worker, t: Worker, hash: Hash)
    requires Registry(s) && hash in s.running
    requires t.running == s.running - {hash} && t.watches == s.watches - {s.running[hash].id}
    requires SameRegistry(s.(running := t.running, watches := t.watches), t)
    ensures Registry(t)
  {
    forall h | h in t.running ensures t.running[h].id != s.running[hash].id {
      if s.running[h].id == s.running[hash].id {
        RunningIdsDiffer(s, h, hash);
        assert false;
      }
    }
  }

  lemma UnwatchKeeps(s: Worker, t: Worker, id: Id)
    requires Registry(s) && id in s.watches
    requires s.watches[id].hash in s.running ==> s.running[s.watches[id].hash].id != id
    requires t.watches == s.watches - {id} && SameRegistry(s.(watches := t.watches), t)
    ensures Registry(t)
  {
    forall h | h in t.running ensures t.running[h].id != id {
      assert RunningWatched(s.running, s.watches);
    }
  }

  lemma ExitLeaves(s: Worker, id: Id)
    requires Registry(s) && id in s.watches
    requires s.watches[id].hash in s.running && s.running[s.watches[id].hash].id == id
    ensures Registry(ExitHandler(s, id))
  {
    LeavesKeep(s, ExitHandler(s, id), s.watches[id].hash);
  }

  lemma ExitKeeps(s: Worker, id: Id)
    requires Registry(s) && id in s.watches
    ensures Registry(ExitHandler(s, id))
  {
    var hash := s.watches[id].hash;
    if hash in s.running && s.running[hash].id == id {
      ExitLeaves(s, id);
    } else {
      UnwatchKeeps(s, ExitHandler(s, id), id);
    }
  }

  lemma StopKeeps(s: Worker, hash: Hash, now: int)
    requires Registry(s)
    ensures Registry(StopAgent(s, hash, now))
  {
    if hash in s.running {
      var t := StopAgent(s, hash, now);
      forall h | h in t.running ensures t.running[h].id != s.running[hash].id {
        if s.running[h].id == s.running[hash].id {
          RunningIdsDiffer(s, h, hash);
          assert false;
        }
      }
    }
  }

  lemma {:induction false} StopsKeep(s: Worker, hashes: seq<Hash>, now: int)
    requires Registry(s)
    ensures Registry(StopAgents(s, hashes, now))
  {
    if hashes != [] {
      StopsKeep(s, hashes[..|hashes| - 1], now);
      StopKeeps(StopAgents(s, hashes[..|hashes| - 1], now), hashes[|hashes| - 1], now);
    }
  }

  lemma EnsureKeeps(c: Config, s: Worker, hash: Hash, now: int, onDisk: bool)
    requires Registry(s)
    ensures Registry(EnsureAgent(c, s, hash, now, onDisk))
  {
    match EnsureOutcome(c, s, hash)
    case NoCapacity =>
    case Joined =>
    case Reused => CountersKeep(s, Reuse(s, hash, now), hash);
    case Booting(_) => StartBootKeeps(c, s, hash, now, onDisk);
  }

  lemma FinishKeeps(s: Worker, q: RequestId, now: int)
    requires Registry(s) && q in s.requests
    ensures Registry(FinishRequest(s, q, now))
  {
    if s.requests[q].hash in s.running {
      CountersKeep(s, FinishRequest(s, q, now), s.requests[q].hash);
    }
  }

  lemma DownloadSettledKeeps(s: Worker, id: Id)
    requires Registry(s) && id in s.boots && s.boots[id].phase.Downloading? && s.boots[id].hash in s.downloads
    ensures Registry(DownloadSettled(s, id))
  {
    PhaseKeeps(s, DownloadSettled(s, id), id);
  }

  lemma AllocateKeeps(s: Worker, id: Id, answer: P.Result<Port>)
    requires Registry(s) && id in s.boots && s.boots[id].phase.Fetched?
    ensures Registry(Allocate(s, id, answer))
  {
    PhaseKeeps(s, Allocate(s, id, answer), id);
  }

  lemma NotReadyKeeps(s: Worker, id: Id)
    requires Registry(s) && id in s.boots && s.boots[id].phase.Polling?
    ensures Registry(BootNotReady(s, id))
  {
    PhaseKeeps(s, BootNotReady(s, id), id);
  }

  lemma ReleasedKeeps(s: Worker, id: Id)
    requires Registry(s) && id in s.boots && s.boots[id].phase.HoldsPort()
    ensures Registry(Released(s, id))
  {
    PhaseKeeps(s, Released(s, id), id);
  }

  lemma BusyKeeps(s: Worker, id: Id, answer: P.Result<Port>)
    requires Registry(s) && id in s.boots && s.boots[id].phase.Probing?
    ensures Registry(ProbeBusy(s, id, answer))
  {
    PhaseKeeps(s, ProbeBusy(s, id, answer), id);
  }

  lemma FreeKeeps(s: Worker, id: Id, spawned: bool)
    requires Registry(s) && id in s.boots && s.boots[id].phase.Probing?
    ensures Registry(ProbeFree(s, id, spawned))
  {
    PhaseKeeps(s, ProbeFree(s, id, spawned), id);
  }

  lemma StopEndKeeps(s: Worker, t: Worker, id: Id)
    requires Registry(s) && id in s.stops
    requires t.stops == s.stops - {id}
             || (id in t.stops && t.stops == s.stops[id := t.stops[id]] && t.stops[id].handle.id == id)
    requires SameRegistry(s.(stops := t.stops), t)
    ensures Registry(t)
  {}

  lemma BootKeepsRegistry(c: Config, s: Worker, id: Id, e: BootEvent)
    requires Registry(s) && BootEnabled(c, s, id, e)
    ensures Registry(BootApply(c, s, id, e))
  {
    match e
    case DownloadSettles => DownloadSettledKeeps(s, id);
    case PortAllocated(answer) => AllocateKeeps(s, id, answer);
    case PortBusy(answer) => BusyKeeps(s, id, answer);
    case PortFree(spawned) => FreeKeeps(s, id, spawned);
    case Healthy(now) => BootReadyKeeps(s, id, now);
    case Unhealthy => NotReadyKeeps(s, id);
    case GiveUp => ReleasedKeeps(s, id);
    case Settles => BootSettledKeeps(s, id);
  }

  lemma StopKeepsRegistry(c: Config, s: Worker, e: StopEvent)
    requires Registry(s) && StopEnabled(c, s, e)
    ensures Registry(StopApply(c, s, e))
  {
    match e
    case Exits(id) => SameKeeps(s, StopApply(c, s, e));
    case ExitSeen(id) => ExitKeeps(s, id);
    case StopOne(hash, now) => StopKeeps(s, hash, now);
    case StopAll(hashes, now) => StopsKeep(s, hashes, now);
    case SweepIdle(hashes, now) => StopsKeep(s, hashes, now);
    case Escalates(id) => StopEndKeeps(s, StopEscalate(s, id), id);
    case StopEnds(id) => StopEndKeeps(s, StopDone(s, id), id);
  }

  lemma DownloadKeepsRegistry(s: Worker, hash: Hash, e: DownloadEvent)
    requires Registry(s)
    ensures Registry(DownloadApply(s, hash, e))
  {
    SameKeeps(s, DownloadApply(s, hash, e));
  }

  lemma ServerKeepsRegistry(c: Config, s: Worker, e: ServerEvent)
    requires Registry(s) && ServerEnabled(c, s, e)
    ensures Registry(ServerApply(c, s, e))
  {
    match e
    case AcceptEnsure(q) => SameKeeps(s, ServerApply(c, s, e));
    case EnsureInvalid(q) => SameKeeps(s, ServerApply(c, s, e));
    case EnsureBody(q, hash, now, onDisk) =>
      var t := s.(awaitingBody := s.awaitingBody - {q});
      SameKeeps(s, t);
      EnsureKeeps(c, t, hash, now, onDisk);
    case Begins(q, hash, now) => CountersKeep(s, BeginRequest(s, q, hash, now), hash);
    case Finishes(q, now) => FinishKeeps(s, q, now);
    case Drains => SameKeeps(s, ServerApply(c, s, e));
  }

  /** Every step keeps the registry, whatever else is in progress. */
  lemma StepKeepsRegistry(c: Config, s: Worker, step: Step)
    requires Registry(s) && Enabled(c, s, step)
    ensures Registry(Apply(c, s, step))
  {
    match step
    case OfBoot(id, e) => BootKeepsRegistry(c, s, id, e);
    case OfDownload(hash, e) => DownloadKeepsRegistry(s, hash, e);
    case OfStop(e) => StopKeepsRegistry(c, s, e);
    case OfServer(e) => ServerKeepsRegistry(c, s, e);
  }

  // ---- what a boot leaves alone

  /** The stretches of a boot do not touch requests, stops or the drain flag. */
  ghost predicate BootLeaves(s: Worker, t: Worker) {
    && t.requests == s.requests && t.inflightTotal == s.inflightTotal
    && t.stops == s.stops && t.awaitingBody == s.awaitingBody && t.draining == s.draining
    && t.processes.exited == s.processes.exited && s.processes.signalled <= t.processes.signalled
  }

  lemma FetchLeaves(s: Worker, id: Id)
    requires id in s.boots && s.boots[id].hash in s.downloads
    ensures BootLeaves(s, DownloadSettled(s, id)) && DownloadSettled(s, id).running == s.running
  {}

  lemma AllocateLeaves(s: Worker, id: Id, answer: P.Result<Port>)
    requires id in s.boots
    ensures BootLeaves(s, Allocate(s, id, answer)) && Allocate(s, id, answer).running == s.running
  {}

  lemma BusyLeaves(s: Worker, id: Id, answer: P.Result<Port>)
    requires id in s.boots && s.boots[id].phase.Probing?
    ensures BootLeaves(s, ProbeBusy(s, id, answer)) && ProbeBusy(s, id, answer).running == s.running
  {}

  lemma FreeLeaves(s: Worker, id: Id, spawned: bool)
    requires id in s.boots && s.boots[id].phase.Probing?
    ensures BootLeaves(s, ProbeFree(s, id, spawned)) && ProbeFree(s, id, spawned).running == s.running
  {}

  lemma EndOfBootLeaves(s: Worker, id: Id)
    requires id in s.boots
    ensures s.boots[id].phase.Polling? ==>
              BootLeaves(s, BootNotReady(s, id)) && BootNotReady(s, id).running == s.running
    ensures s.boots[id].phase.Killing? ==> BootLeaves(s, Released(s, id)) && Released(s, id).running == s.running
    ensures BootLeaves(s, BootSettled(s, id)) && BootSettled(s, id).running == s.running
  {}

  lemma BootEventLeaves(c: Config, s: Worker, id: Id, e: BootEvent)
    requires BootEnabled(c, s, id, e)
    ensures BootLeaves(s, BootApply(c, s, id, e))
    ensures !e.Healthy? ==> BootApply(c, s, id, e).running == s.running
  {
    match e
    case DownloadSettles => FetchLeaves(s, id);
    case PortAllocated(answer) => AllocateLeaves(s, id, answer);
    case PortBusy(answer) => BusyLeaves(s, id, answer);
    case PortFree(spawned) => FreeLeaves(s, id, spawned);
    case Healthy(now) => assert BootLeaves(s, BootReady(s, id, now));
    case Unhealthy => EndOfBootLeaves(s, id);
    case GiveUp => EndOfBootLeaves(s, id);
    case Settles => EndOfBootLeaves(s, id);
  }
}
