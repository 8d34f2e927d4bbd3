/** Every taken port has exactly one holder, in every interleaving. */
module WorkerPorts {
  import opened ArtifactCache
  import opened WorkerModel
  import opened WorkerRegistry
  import P = PortPool

  /** Who holds a port; a burned port is taken with nobody to give it back. */
  datatype Holder = ByBoot(id: Id) | ByAgent(hash: Hash) | ByStop(id: Id) | Nobody(port: Port)

  predicate Holds(s: Worker, o: Holder, port: Port) {
    match o
    case ByBoot(id) => id in s.boots && s.boots[id].phase.HoldsPort() && s.boots[id].phase.port == port
    case ByAgent(hash) => hash in s.running && s.running[hash].port == port
    case ByStop(id) => id in s.stops && s.stops[id].handle.port == port
    case Nobody(p) => p in s.burned && p == port
  }

  ghost predicate HeldAreTaken(s: Worker) {
    forall o, p :: Holds(s, o, p) ==> p in s.taken
  }

  ghost predicate TakenAreHeld(s: Worker) {
    forall p <- s.taken :: exists o :: Holds(s, o, p)
  }

  ghost predicate HoldersDiffer(s: Worker) {
    forall o, n, p :: Holds(s, o, p) && Holds(s, n, p) ==> o == n
  }

  /** The taken ports are shared out among boots, agents, stops and burned ports, one holder each. */
  ghost predicate Ports(c: Config, s: Worker) {
    && HeldAreTaken(s)
    && TakenAreHeld(s)
    && HoldersDiffer(s)
    && s.taken <= P.Range(c.minPort, c.maxPort)
  }

  // ---- the four ways a step can change who holds what

  ghost predicate SameHolders(s: Worker, t: Worker) {
    && s.taken == t.taken
    && forall o, p :: Holds(t, o, p) <==> Holds(s, o, p)
  }

  ghost predicate Gains(s: Worker, t: Worker, o: Holder, port: Port) {
    && t.taken == s.taken + {port}
    && forall n, p :: Holds(t, n, p) <==> (n == o && p == port) || Holds(s, n, p)
  }

  ghost predicate Loses(s: Worker, t: Worker, o: Holder, port: Port) {
    && t.taken == s.taken - {port} && Holds(s, o, port)
    && forall n, p :: Holds(t, n, p) <==> n != o && Holds(s, n, p)
  }

  ghost predicate Moves(s: Worker, t: Worker, o: Holder, n: Holder, port: Port) {
    && t.taken == s.taken && Holds(s, o, port) && o != n
    && forall m, p :: Holds(t, m, p) <==> (m == n && p == port) || (m != o && Holds(s, m, p))
  }

  lemma SameKeepsPorts(c: Config, s: Worker, t: Worker)
    requires Ports(c, s) && SameHolders(s, t)
    ensures Ports(c, t)
  {
    forall p | p in t.taken ensures exists o :: Holds(t, o, p) {
      var o :| Holds(s, o, p);
      assert Holds(t, o, p);
    }
  }

  lemma GainKeepsPorts(c: Config, s: Worker, t: Worker, o: Holder, port: Port)
    requires Ports(c, s) && Gains(s, t, o, port)
    requires port !in s.taken && port in P.Range(c.minPort, c.maxPort)
    ensures Ports(c, t)
  {
    assert Holds(t, o, port);
    forall p | p in t.taken ensures exists n :: Holds(t, n, p) {
      if p != port {
        var n :| Holds(s, n, p);
        assert Holds(t, n, p);
      }
    }
    forall n | Holds(t, n, port) ensures n == o {
      assert !Holds(s, n, port);
    }
  }

  lemma LossKeepsPorts(c: Config, s: Worker, t: Worker, o: Holder, port: Port)
    requires Ports(c, s) && Loses(s, t, o, port)
    ensures Ports(c, t)
  {
    forall n, p | Holds(t, n, p) ensures p in t.taken {
      assert Holds(s, n, p) && n != o;
    }
    forall p | p in t.taken ensures exists n :: Holds(t, n, p) {
      var n :| Holds(s, n, p);
      assert n != o by {
        if n == o {
          OnePortEach(s, o, p, port);
        }
      }
      assert Holds(t, n, p);
    }
  }

  lemma OnePortEach(s: Worker, o: Holder, p: Port, q: Port)
    requires Holds(s, o, p) && Holds(s, o, q)
    ensures p == q
  {}

  lemma MoveKeepsPorts(c: Config, s: Worker, t: Worker, o: Holder, n: Holder, port: Port)
    requires Ports(c, s) && Moves(s, t, o, n, port)
    ensures Ports(c, t)
  {
    assert Holds(t, n, port);
    forall p | p in t.taken ensures exists m :: Holds(t, m, p) {
      if p != port {
        var m :| Holds(s, m, p);
        assert m != o by {
          if m == o {
            OnePortEach(s, o, p, port);
          }
        }
        assert Holds(t, m, p);
      }
    }
    forall m, p | Holds(t, m, p) ensures p in t.taken {
      assert Holds(s, if m == n && p == port then o else m, p);
    }
    forall m | Holds(t, m, port) ensures m == n {
      assert m != n ==> m != o && Holds(s, m, port);
    }
  }

  // ---- what each stretch does to the holders

  lemma PhaseSame(s: Worker, t: Worker, id: Id)
    requires id in s.boots && id in t.boots && t.boots == s.boots[id := t.boots[id]]
    requires s.boots[id].phase.HoldsPort() == t.boots[id].phase.HoldsPort()
    requires s.boots[id].phase.HoldsPort() ==> s.boots[id].phase.port == t.boots[id].phase.port
    requires t.taken == s.taken && t.burned == s.burned && t.running == s.running && t.stops == s.stops
    ensures SameHolders(s, t)
  {}

  lemma StartBootSame(s: Worker, hash: Hash, now: int, onDisk: bool)
    requires s.next !in s.boots
    ensures SameHolders(s, StartBoot(s, hash, now, onDisk))
  {}

  lemma HandleSame(s: Worker, t: Worker, hash: Hash)
    requires hash in s.running && hash in t.running && t.running == s.running[hash := t.running[hash]]
    requires t.running[hash].port == s.running[hash].port
    requires t.taken == s.taken && t.burned == s.burned && t.boots == s.boots && t.stops == s.stops
    ensures SameHolders(s, t)
  {}

  lemma AllocateGains(s: Worker, id: Id, port: Port)
    requires id in s.boots && !s.boots[id].phase.HoldsPort()
    ensures Gains(s, Allocate(s, id, P.Ok(port)), ByBoot(id), port)
  {}

  /** A port that turned out to be in use stays taken and is never held by a boot again. */
  lemma BurnMoves(s: Worker, t: Worker, id: Id)
    requires id in s.boots && s.boots[id].phase.HoldsPort() && s.boots[id].phase.port !in s.burned
    requires t == InPhase(s.(burned := s.burned + {s.boots[id].phase.port}), id, Settled)
    ensures Moves(s, t, ByBoot(id), Nobody(s.boots[id].phase.port), s.boots[id].phase.port)
  {}

  lemma ReleasedLoses(s: Worker, id: Id)
    requires id in s.boots && s.boots[id].phase.HoldsPort()
    ensures Loses(s, Released(s, id), ByBoot(id), s.boots[id].phase.port)
  {}

  lemma ReadyMoves(s: Worker, id: Id, now: int)
    requires id in s.boots && s.boots[id].phase.Polling? && s.boots[id].hash !in s.running
    ensures Moves(s, BootReady(s, id, now), ByBoot(id), ByAgent(s.boots[id].hash), s.boots[id].phase.port)
  {}

  lemma SettledSame(s: Worker, id: Id)
    requires id in s.boots && s.boots[id].phase.Settled?
    ensures SameHolders(s, BootSettled(s, id))
  {}

  lemma ExitLoses(s: Worker, id: Id)
    requires Registry(s) && id in s.watches
    ensures var hash, t := s.watches[id].hash, ExitHandler(s, id);
            if hash in s.running && s.running[hash].id == id
            then Loses(s, t, ByAgent(hash), s.running[hash].port)
            else SameHolders(s, t)
  {}

  lemma StopMoves(s: Worker, hash: Hash, now: int)
    requires hash in s.running && s.running[hash].id !in s.stops
    ensures Moves(s, StopAgent(s, hash, now), ByAgent(hash), ByStop(s.running[hash].id), s.running[hash].port)
  {}

  lemma EscalateSame(s: Worker, id: Id)
    requires id in s.stops
    ensures SameHolders(s, StopEscalate(s, id))
  {}

  lemma StopDoneLoses(s: Worker, id: Id)
    requires id in s.stops
    ensures Loses(s, StopDone(s, id), ByStop(id), s.stops[id].handle.port)
  {}

  // ---- every step keeps the ports shared out

  lemma AllocateKeepsPorts(c: Config, s: Worker, id: Id, answer: P.Result<Port>)
    requires Ports(c, s) && id in s.boots && !s.boots[id].phase.HoldsPort() && Answers(c, s.taken, answer)
    ensures Ports(c, Allocate(s, id, answer))
  {
    var t := Allocate(s, id, answer);
    if answer.Ok? {
      AllocateGains(s, id, answer.value);
      GainKeepsPorts(c, s, t, ByBoot(id), answer.value);
    } else {
      PhaseSame(s, t, id);
      SameKeepsPorts(c, s, t);
    }
  }

  lemma NotYetBurned(s: Worker, id: Id)
    requires HoldersDiffer(s) && id in s.boots && s.boots[id].phase.HoldsPort()
    ensures s.boots[id].phase.port !in s.burned
  {
    var port := s.boots[id].phase.port;
    if port in s.burned {
      assert Holds(s, ByBoot(id), port) && Holds(s, Nobody(port), port);
      assert false;
    }
  }

  lemma BusyKeepsPorts(c: Config, s: Worker, id: Id, answer: P.Result<Port>)
    requires Ports(c, s) && id in s.boots && s.boots[id].phase.Probing? && Answers(c, s.taken, answer)
    ensures Ports(c, ProbeBusy(s, id, answer))
  {
    var port := s.boots[id].phase.port;
    NotYetBurned(s, id);
    var mid := InPhase(s.(burned := s.burned + {port}), id, Settled);
    BurnMoves(s, mid, id);
    MoveKeepsPorts(c, s, mid, ByBoot(id), Nobody(port), port);
    AllocateKeepsPorts(c, mid, id, answer);
    assert mid.boots[id := Boot(s.boots[id].hash, Settled)] == mid.boots;
    SameBoots(s, mid, id, answer);
  }

  lemma SameBoots(s: Worker, mid: Worker, id: Id, answer: P.Result<Port>)
    requires id in s.boots && s.boots[id].phase.Probing?
    requires mid == InPhase(s.(burned := s.burned + {s.boots[id].phase.port}), id, Settled)
    ensures Allocate(mid, id, answer) == ProbeBusy(s, id, answer)
  {}

  lemma ReleasedKeepsPorts(c: Config, s: Worker, id: Id)
    requires Ports(c, s) && id in s.boots && s.boots[id].phase.HoldsPort()
    ensures Ports(c, Released(s, id))
  {
    ReleasedLoses(s, id);
    LossKeepsPorts(c, s, Released(s, id), ByBoot(id), s.boots[id].phase.port);
  }

  lemma PhaseKeepsPorts(c: Config, s: Worker, t: Worker, id: Id)
    requires Ports(c, s)
    requires id in s.boots && id in t.boots && t.boots == s.boots[id := t.boots[id]]
    requires s.boots[id].phase.HoldsPort() == t.boots[id].phase.HoldsPort()
    requires s.boots[id].phase.HoldsPort() ==> s.boots[id].phase.port == t.boots[id].phase.port
    requires t.taken == s.taken && t.burned == s.burned && t.running == s.running && t.stops == s.stops
    ensures Ports(c, t)
  {
    PhaseSame(s, t, id);
    SameKeepsPorts(c, s, t);
  }

  lemma FreeKeepsPorts(c: Config, s: Worker, id: Id, spawned: bool)
    requires Ports(c, s) && id in s.boots && s.boots[id].phase.Probing?
    ensures Ports(c, ProbeFree(s, id, spawned))
  {
    if spawned {
      PhaseKeepsPorts(c, s, ProbeFree(s, id, spawned), id);
    } else {
      ReleasedKeepsPorts(c, s, id);
    }
  }

  lemma ReadyKeepsPorts(c: Config, s: Worker, id: Id, now: int)
    requires Ports(c, s) && id in s.boots && s.boots[id].phase.Polling? && s.boots[id].hash !in s.running
    ensures Ports(c, BootReady(s, id, now))
  {
    ReadyMoves(s, id, now);
    MoveKeepsPorts(c, s, BootReady(s, id, now), ByBoot(id), ByAgent(s.boots[id].hash), s.boots[id].phase.port);
  }

  lemma BootKeepsPorts(c: Config, s: Worker, id: Id, e: BootEvent)
    requires BootsNotRunning(s.running, s.boots) && Ports(c, s) && BootEnabled(c, s, id, e)
    ensures Ports(c, BootApply(c, s, id, e))
  {
    match e
    case DownloadSettles => PhaseKeepsPorts(c, s, DownloadSettled(s, id), id);
    case PortAllocated(answer) => AllocateKeepsPorts(c, s, id, answer);
    case PortBusy(answer) => BusyKeepsPorts(c, s, id, answer);
    case PortFree(spawned) => FreeKeepsPorts(c, s, id, spawned);
    case Healthy(now) => ReadyKeepsPorts(c, s, id, now);
    case Unhealthy => PhaseKeepsPorts(c, s, BootNotReady(s, id), id);
    case GiveUp => ReleasedKeepsPorts(c, s, id);
    case Settles =>
      SettledSame(s, id);
      SameKeepsPorts(c, s, BootSettled(s, id));
  }

  lemma ExitKeepsPorts(c: Config, s: Worker, id: Id)
    requires Registry(s) && Ports(c, s) && id in s.watches
    ensures Ports(c, ExitHandler(s, id))
  {
    var hash, t := s.watches[id].hash, ExitHandler(s, id);
    ExitLoses(s, id);
    if hash in s.running && s.running[hash].id == id {
      LossKeepsPorts(c, s, t, ByAgent(hash), s.running[hash].port);
    } else {
      SameKeepsPorts(c, s, t);
    }
  }

  lemma StopAgentKeepsPorts(c: Config, s: Worker, hash: Hash, now: int)
    requires Registry(s) && Ports(c, s)
    ensures Ports(c, StopAgent(s, hash, now))
  {
    if hash in s.running {
      StopMoves(s, hash, now);
      MoveKeepsPorts(c, s, StopAgent(s, hash, now), ByAgent(hash), ByStop(s.running[hash].id), s.running[hash].port);
    }
  }

  lemma {:induction false} StopAgentsKeepPorts(c: Config, s: Worker, hashes: seq<Hash>, now: int)
    requires Registry(s) && Ports(c, s)
    ensures Ports(c, StopAgents(s, hashes, now))
  {
    if hashes != [] {
      StopsKeep(s, hashes[..|hashes| - 1], now);
      StopAgentsKeepPorts(c, s, hashes[..|hashes| - 1], now);
      StopAgentKeepsPorts(c, StopAgents(s, hashes[..|hashes| - 1], now), hashes[|hashes| - 1], now);
    }
  }

  lemma StopEndsKeepPorts(c: Config, s: Worker, id: Id)
    requires Ports(c, s) && id in s.stops
    ensures Ports(c, StopDone(s, id)) && Ports(c, StopEscalate(s, id))
  {
    StopDoneLoses(s, id);
    LossKeepsPorts(c, s, StopDone(s, id), ByStop(id), s.stops[id].handle.port);
    EscalateSame(s, id);
    SameKeepsPorts(c, s, StopEscalate(s, id));
  }

  lemma StopKeepsPorts(c: Config, s: Worker, e: StopEvent)
    requires Registry(s) && Ports(c, s) && StopEnabled(c, s, e)
    ensures Ports(c, StopApply(c, s, e))
  {
    match e
    case Exits(id) => SameKeepsPorts(c, s, StopApply(c, s, e));
    case ExitSeen(id) => ExitKeepsPorts(c, s, id);
    case StopOne(hash, now) => StopAgentKeepsPorts(c, s, hash, now);
    case StopAll(hashes, now) => StopAgentsKeepPorts(c, s, hashes, now);
    case SweepIdle(hashes, now) => StopAgentsKeepPorts(c, s, hashes, now);
    case Escalates(id) => StopEndsKeepPorts(c, s, id);
    case StopEnds(id) => StopEndsKeepPorts(c, s, id);
  }

  lemma EnsureSame(c: Config, s: Worker, hash: Hash, now: int, onDisk: bool)
    requires s.next !in s.boots
    ensures SameHolders(s, EnsureAgent(c, s, hash, now, onDisk))
  {
    match EnsureOutcome(c, s, hash)
    case NoCapacity =>
    case Joined =>
    case Reused => HandleSame(s, Reuse(s, hash, now), hash);
    case Booting(_) => StartBootSame(s, hash, now, onDisk);
  }

  lemma FinishSame(s: Worker, q: RequestId, now: int)
    requires q in s.requests
    ensures SameHolders(s, FinishRequest(s, q, now))
  {
    if s.requests[q].hash in s.running {
      HandleSame(s, FinishRequest(s, q, now), s.requests[q].hash);
    }
  }

  lemma BodySame(c: Config, s: Worker, e: ServerEvent)
    requires s.next !in s.boots && e.EnsureBody? && ServerEnabled(c, s, e)
    ensures SameHolders(s, ServerApply(c, s, e))
  {
    var t := s.(awaitingBody := s.awaitingBody - {e.q});
    assert SameHolders(s, t);
    EnsureSame(c, t, e.hash, e.now, e.onDisk);
  }

  lemma ServerSame(c: Config, s: Worker, e: ServerEvent)
    requires s.next !in s.boots && ServerEnabled(c, s, e)
    ensures SameHolders(s, ServerApply(c, s, e))
  {
    match e
    case AcceptEnsure(q) =>
    case EnsureInvalid(q) =>
    case EnsureBody(q, hash, now, onDisk) => BodySame(c, s, e);
    case Begins(q, hash, now) => HandleSame(s, BeginRequest(s, q, hash, now), hash);
    case Finishes(q, now) => FinishSame(s, q, now);
    case Drains =>
  }

  lemma DownloadSame(s: Worker, hash: Hash, e: DownloadEvent)
    ensures SameHolders(s, DownloadApply(s, hash, e))
  {}

  /** Every step keeps each taken port with exactly one holder. */
  lemma StepKeepsPorts(c: Config, s: Worker, step: Step)
    requires Registry(s) && Ports(c, s) && Enabled(c, s, step)
    ensures Ports(c, Apply(c, s, step))
  {
    match step
    case OfBoot(id, e) => BootKeepsPorts(c, s, id, e);
    case OfDownload(hash, e) =>
      DownloadSame(s, hash, e);
      SameKeepsPorts(c, s, DownloadApply(s, hash, e));
    case OfStop(e) => StopKeepsPorts(c, s, e);
    case OfServer(e) =>
      ServerSame(c, s, e);
      SameKeepsPorts(c, s, ServerApply(c, s, e));
  }

  // ---- who gives a port back

  /** The step is the holder's own: its boot failing, its process exiting, its stop ending. */
  predicate GivesBack(s: Worker, step: Step, o: Holder) {
    match o
    case ByBoot(id) => step.OfBoot? && step.id == id && (step.boot.GiveUp? || step.boot == PortFree(false))
    case ByAgent(hash) => hash in s.running && step == OfStop(ExitSeen(s.running[hash].id))
    case ByStop(id) => step == OfStop(StopEnds(id))
    case Nobody(port) => false
  }

  ghost predicate KeepsTaken(s: Worker, t: Worker) {
    s.taken <= t.taken && s.burned == t.burned
  }

  /** Of the stretches of a boot two can give its port back and one burns it. */
  ghost predicate TakenAfter(s: Worker, id: Id, e: BootEvent, t: Worker)
    requires id in s.boots
    requires e.GiveUp? || e.PortFree? || e.PortBusy? ==> s.boots[id].phase.HoldsPort()
  {
    if e.GiveUp? || e == PortFree(false) then t.taken == s.taken - {s.boots[id].phase.port} && t.burned == s.burned
    else if e.PortBusy? then s.taken <= t.taken && t.burned == s.burned + {s.boots[id].phase.port}
    else KeepsTaken(s, t)
  }

  lemma FetchTaken(s: Worker, id: Id)
    requires id in s.boots && s.boots[id].hash in s.downloads
    ensures KeepsTaken(s, DownloadSettled(s, id))
  {}

  lemma AllocateTaken(s: Worker, id: Id, answer: P.Result<Port>)
    requires id in s.boots
    ensures KeepsTaken(s, Allocate(s, id, answer))
  {}

  lemma BusyTaken(s: Worker, id: Id, answer: P.Result<Port>)
    requires id in s.boots && s.boots[id].phase.Probing?
    ensures TakenAfter(s, id, PortBusy(answer), ProbeBusy(s, id, answer))
  {
    AllocateTaken(s.(burned := s.burned + {s.boots[id].phase.port}), id, answer);
  }

  lemma FreeTaken(s: Worker, id: Id, spawned: bool)
    requires id in s.boots && s.boots[id].phase.Probing?
    ensures TakenAfter(s, id, PortFree(spawned), ProbeFree(s, id, spawned))
  {}

  lemma BootTaken(c: Config, s: Worker, id: Id, e: BootEvent)
    requires BootEnabled(c, s, id, e)
    ensures TakenAfter(s, id, e, BootApply(c, s, id, e))
  {
    match e
    case DownloadSettles => FetchTaken(s, id);
    case PortAllocated(answer) => AllocateTaken(s, id, answer);
    case PortBusy(answer) => BusyTaken(s, id, answer);
    case PortFree(spawned) => FreeTaken(s, id, spawned);
    case Healthy(now) => assert KeepsTaken(s, BootReady(s, id, now));
    case Unhealthy => assert KeepsTaken(s, BootNotReady(s, id));
    case GiveUp => assert Released(s, id).taken == s.taken - {s.boots[id].phase.port};
    case Settles => assert KeepsTaken(s, BootSettled(s, id));
  }

  lemma BootReleases(c: Config, s: Worker, id: Id, e: BootEvent, port: Port)
    requires BootEnabled(c, s, id, e) && port in s.taken && port !in BootApply(c, s, id, e).taken
    ensures Holds(s, ByBoot(id), port) && (e.GiveUp? || e == PortFree(false))
  {
    BootTaken(c, s, id, e);
  }

  lemma {:induction false} StopsReleaseNothing(s: Worker, hashes: seq<Hash>, now: int)
    ensures StopAgents(s, hashes, now).taken == s.taken
    ensures StopAgents(s, hashes, now).burned == s.burned
  {
    if hashes != [] {
      StopsReleaseNothing(s, hashes[..|hashes| - 1], now);
    }
  }

  lemma StartBootTaken(s: Worker, hash: Hash, now: int, onDisk: bool)
    ensures KeepsTaken(s, StartBoot(s, hash, now, onDisk))
  {}

  lemma EnsureReleasesNothing(c: Config, s: Worker, hash: Hash, now: int, onDisk: bool)
    ensures KeepsTaken(s, EnsureAgent(c, s, hash, now, onDisk))
  {
    match EnsureOutcome(c, s, hash)
    case NoCapacity =>
    case Joined =>
    case Reused => assert KeepsTaken(s, Reuse(s, hash, now));
    case Booting(_) => StartBootTaken(s, hash, now, onDisk);
  }

  lemma ServerReleasesNothing(c: Config, s: Worker, e: ServerEvent)
    requires ServerEnabled(c, s, e)
    ensures KeepsTaken(s, ServerApply(c, s, e))
  {
    if e.EnsureBody? {
      var t := s.(awaitingBody := s.awaitingBody - {e.q});
      assert KeepsTaken(s, t);
      EnsureReleasesNothing(c, t, e.hash, e.now, e.onDisk);
    }
  }

  lemma StopReleases(c: Config, s: Worker, e: StopEvent, port: Port) returns (o: Holder)
    requires Registry(s) && StopEnabled(c, s, e) && port in s.taken && port !in StopApply(c, s, e).taken
    ensures Holds(s, o, port) && GivesBack(s, OfStop(e), o)
  {
    match e
    case ExitSeen(id) =>
      ExitLoses(s, id);
      o := ByAgent(s.watches[id].hash);
    case StopEnds(id) => o := ByStop(id);
    case StopAll(hashes, now) => StopsReleaseNothing(s, hashes, now); assert false;
    case SweepIdle(hashes, now) => StopsReleaseNothing(s, hashes, now); assert false;
    case Exits(id) => assert false;
    case StopOne(hash, now) => assert false;
    case Escalates(id) => assert false;
  }

  lemma OthersReleaseNothing(c: Config, s: Worker, step: Step)
    requires Enabled(c, s, step) && !step.OfBoot? && !step.OfStop?
    ensures KeepsTaken(s, Apply(c, s, step))
  {
    match step
    case OfDownload(hash, e) => assert KeepsTaken(s, DownloadApply(s, hash, e));
    case OfServer(e) => ServerReleasesNothing(c, s, e);
  }

  /** A port is given back by its one holder and by nobody else, and the holder has then let go of it. */
  lemma ReleasedByItsHolder(c: Config, s: Worker, step: Step, port: Port) returns (o: Holder)
    requires Registry(s) && Ports(c, s) && Enabled(c, s, step)
    requires port in s.taken && port !in Apply(c, s, step).taken
    ensures Holds(s, o, port) && GivesBack(s, step, o)
    ensures forall n :: Holds(s, n, port) ==> n == o
    ensures forall n :: !Holds(Apply(c, s, step), n, port)
  {
    if step.OfBoot? {
      BootReleases(c, s, step.id, step.boot, port);
      o := ByBoot(step.id);
    } else if step.OfStop? {
      o := StopReleases(c, s, step.stop, port);
    } else {
      OthersReleaseNothing(c, s, step);
      assert false;
    }
    StepKeepsPorts(c, s, step);
  }

  // ---- burned ports

  predicate Burns(step: Step) {
    step.OfBoot? && step.boot.PortBusy?
  }

  lemma StopBurnsNothing(c: Config, s: Worker, e: StopEvent)
    requires StopEnabled(c, s, e)
    ensures StopApply(c, s, e).burned == s.burned
  {
    match e
    case StopAll(hashes, now) => StopsReleaseNothing(s, hashes, now);
    case SweepIdle(hashes, now) => StopsReleaseNothing(s, hashes, now);
    case Exits(id) =>
    case ExitSeen(id) =>
    case StopOne(hash, now) =>
    case Escalates(id) =>
    case StopEnds(id) =>
  }

  lemma BurnsNothing(c: Config, s: Worker, step: Step)
    requires Enabled(c, s, step) && !Burns(step)
    ensures Apply(c, s, step).burned == s.burned
  {
    match step
    case OfBoot(id, e) => BootTaken(c, s, id, e);
    case OfDownload(hash, e) =>
    case OfStop(e) => StopBurnsNothing(c, s, e);
    case OfServer(e) => ServerReleasesNothing(c, s, e);
  }

  /** A busy probe burns one more port; nothing else changes what is burned, and no port is unburned. */
  lemma StepBurns(c: Config, s: Worker, step: Step)
    requires HoldersDiffer(s) && Enabled(c, s, step)
    ensures s.burned <= Apply(c, s, step).burned
    ensures |Apply(c, s, step).burned| == |s.burned| + if Burns(step) then 1 else 0
  {
    if Burns(step) {
      BootTaken(c, s, step.id, step.boot);
      NotYetBurned(s, step.id);
    } else {
      BurnsNothing(c, s, step);
    }
  }

  lemma BurnedFit(c: Config, s: Worker)
    requires Ports(c, s) && c.minPort <= c.maxPort
    ensures |s.burned| <= c.maxPort - c.minPort + 1
  {
    forall p | p in s.burned ensures p in s.taken {
      assert Holds(s, Nobody(p), p);
    }
    P.SubsetSize(s.burned, P.Range(c.minPort, c.maxPort));
  }

  // ---- counting

  ghost function Holders(s: Worker): set<Holder> {
    (set id | id in s.boots && s.boots[id].phase.HoldsPort() :: ByBoot(id)) +
    (set h | h in s.running :: ByAgent(h)) +
    (set id | id in s.stops :: ByStop(id)) +
    (set p | p in s.burned :: Nobody(p))
  }

  function PortOf(s: Worker, o: Holder): (p: Port)
    requires o in Holders(s)
    ensures Holds(s, o, p)
  {
    match o
    case ByBoot(id) => s.boots[id].phase.port
    case ByAgent(hash) => s.running[hash].port
    case ByStop(id) => s.stops[id].handle.port
    case Nobody(port) => port
  }

  lemma HoldersAreHolders(s: Worker, o: Holder, p: Port)
    requires Holds(s, o, p)
    ensures o in Holders(s) && PortOf(s, o) == p
  {}

  lemma {:induction false} ImageSize<A, B>(from: set<A>, to: set<B>, f: map<A, B>)
    requires f.Keys == from && f.Values == to
    requires forall a <- from, b <- from :: f[a] == f[b] ==> a == b
    ensures |from| == |to|
    decreases |from|
  {
    if a :| a in from {
      var rest := f - {a};
      forall b | b in to - {f[a]} ensures b in rest.Values {
        var k :| k in f && f[k] == b;
        assert k in rest;
      }
      assert rest.Values == to - {f[a]};
      assert rest.Keys == from - {a};
      ImageSize(from - {a}, to - {f[a]}, rest);
      assert f[a] in f.Values;
    } else {
      assert from == {};
      assert f == map[];
    }
  }

  /** The pool's own count is the number of holders. */
  lemma AllocatedCountIsHolders(c: Config, s: Worker)
    requires Ports(c, s)
    ensures |s.taken| == |Holders(s)|
  {
    var f := map o | o in Holders(s) :: PortOf(s, o);
    forall p | p in s.taken ensures p in f.Values {
      var o :| Holds(s, o, p);
      HoldersAreHolders(s, o, p);
      assert f[o] == p;
    }
    assert f.Values == s.taken;
    ImageSize(Holders(s), s.taken, f);
  }
}
