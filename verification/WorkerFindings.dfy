/**
 * Runs in which the request counters are not what the drain loop and the idle sweep take them for.
 * An agent crashes and is booted again while a request to it is still open.
 */
module WorkerFindings {
  import opened ArtifactCache
  import opened WorkerModel
  import opened WorkerInflight
  import P = PortPool

  /** The worker after an undisturbed boot of a cached artifact. */
  function Booted(s: Worker, hash: Hash, port: Port, now: int): Worker {
    s.(taken := s.taken + {port},
       running := s.running[hash := Handle(s.next, port, Ready, 0, now)],
       watches := s.watches[s.next := Watch(hash, port)],
       entries := Touch(s.entries, hash, now),
       processes := s.processes.(spawned := s.processes.spawned + {s.next}),
       next := s.next + 1)
  }

  ghost predicate Reaches(c: Config, start: Worker, steps: seq<Step>, s: Worker) {
    CanRun(c, start, steps) && After(c, start, steps) == s
  }

  lemma Extend(c: Config, start: Worker, steps: seq<Step>, s: Worker, step: Step)
    requires Reaches(c, start, steps, s) && Enabled(c, s, step)
    ensures Reaches(c, start, steps + [step], Apply(c, s, step))
  {
    RunExtends(c, start, steps, step);
  }

  lemma BootStarts(c: Config, s: Worker, q: RequestId, hash: Hash, now: int)
    requires !s.draining && q !in s.awaitingBody && hash in s.entries && !s.IsActive(hash)
             && s.ActiveCount() < c.maxAgents
    requires s.next !in s.boots
    ensures var t := Apply(c, s, OfServer(AcceptEnsure(q)));
            && Enabled(c, t, OfServer(EnsureBody(q, hash, now, true)))
            && Apply(c, t, OfServer(EnsureBody(q, hash, now, true))) == StartBoot(s, hash, now, true)
  {
    var t := s.(awaitingBody := s.awaitingBody + {q});
    assert t.(awaitingBody := t.awaitingBody - {q}) == s;
  }

  lemma BootProceeds(c: Config, s: Worker, hash: Hash, port: Port, now: int)
    requires hash in s.entries && !s.IsActive(hash) && s.next !in s.boots
    ensures var id, t0 := s.next, StartBoot(s, hash, now, true);
            var t1 := Allocate(t0, id, P.Ok(port));
            && t0.boots[id].phase == Fetched && t0.taken == s.taken
            && t1.boots[id].phase.Probing?
            && var t2 := ProbeFree(t1, id, true);
            && t2.boots[id].phase.Polling?
            && var t3 := BootReady(t2, id, now);
            && t3.boots[id].phase.Settled?
            && BootSettled(t3, id) == Booted(s, hash, port, now)
  {
    var t0 := StartBoot(s, hash, now, true);
    var t3 := BootReady(ProbeFree(Allocate(t0, s.next, P.Ok(port)), s.next, true), s.next, now);
    assert t3.boots - {s.next} == s.boots;
    assert t3.pending - {hash} == s.pending;
  }

  lemma BootRuns(c: Config, start: Worker, steps: seq<Step>, s: Worker, q: RequestId, hash: Hash, port: Port, now: int)
    returns (more: seq<Step>)
    requires Reaches(c, start, steps, s)
    requires !s.draining && q !in s.awaitingBody && hash in s.entries && !s.IsActive(hash)
             && s.ActiveCount() < c.maxAgents
    requires s.next !in s.boots && P.LowestFree(c.minPort, c.maxPort, s.taken, port)
    ensures Reaches(c, start, more, Booted(s, hash, port, now))
  {
    var id := s.next;
    BootStarts(c, s, q, hash, now);
    BootProceeds(c, s, hash, port, now);
    Extend(c, start, steps, s, OfServer(AcceptEnsure(q)));
    more := steps + [OfServer(AcceptEnsure(q))];
    Extend(c, start, more, Apply(c, s, OfServer(AcceptEnsure(q))), OfServer(EnsureBody(q, hash, now, true)));
    more := more + [OfServer(EnsureBody(q, hash, now, true))];
    var t := StartBoot(s, hash, now, true);
    Extend(c, start, more, t, OfBoot(id, PortAllocated(P.Ok(port))));
    more := more + [OfBoot(id, PortAllocated(P.Ok(port)))];
    t := Allocate(t, id, P.Ok(port));
    Extend(c, start, more, t, OfBoot(id, PortFree(true)));
    more := more + [OfBoot(id, PortFree(true))];
    t := ProbeFree(t, id, true);
    Extend(c, start, more, t, OfBoot(id, Healthy(now)));
    more := more + [OfBoot(id, Healthy(now))];
    Extend(c, start, more, BootReady(t, id, now), OfBoot(id, Settles));
    more := more + [OfBoot(id, Settles)];
  }

  function Example(): Config {
    Config(1, 3, 2, 100, 1000)
  }

  function Found(a: Hash, b: Hash): Entries {
    map[a := CacheEntry(1, 0), b := CacheEntry(1, 0)]
  }

  /** A state reached in the example in which nothing is booting. */
  ghost predicate Rests(
    a: Hash, b: Hash, steps: seq<Step>, s: Worker, running: map<Hash, Handle>, requests: map<RequestId, Request>)
  {
    && Reaches(Example(), Initial(Found(a, b)), steps, s)
    && !s.draining && s.awaitingBody == {} && s.entries.Keys == {a, b} && s.pending == map[] && s.boots == map[]
    && s.running == running && s.requests == requests
  }

  lemma NothingPending(s: Worker)
    requires s.pending == map[]
    ensures s.ActiveCount() == |s.running|
  {
    assert s.pending.Keys - s.running.Keys == {};
  }

  lemma BootRests(
    a: Hash, b: Hash, steps: seq<Step>, s: Worker, hash: Hash, port: Port)
    returns (more: seq<Step>, t: Worker)
    requires Rests(a, b, steps, s, s.running, s.requests) && hash in {a, b} && hash !in s.running && |s.running| < 2
    requires P.LowestFree(1, 3, s.taken, port)
    ensures Rests(a, b, more, t, s.running[hash := Handle(s.next, port, Ready, 0, 0)], s.requests)
    ensures t.taken == s.taken + {port} && t.next == s.next + 1 && t.inflightTotal == s.inflightTotal
    ensures t.watches == s.watches[s.next := Watch(hash, port)] && t.processes.spawned == s.processes.spawned + {s.next}
  {
    NothingPending(s);
    assert !s.IsActive(hash) && s.ActiveCount() < Example().maxAgents;
    t := Booted(s, hash, port, 0);
    BootedRests(s, hash, port);
    more := BootRuns(Example(), Initial(Found(a, b)), steps, s, 0, hash, port, 0);
  }

  lemma BootedRests(s: Worker, hash: Hash, port: Port)
    requires hash in s.entries
    ensures var t := Booted(s, hash, port, 0);
            && t.draining == s.draining && t.awaitingBody == s.awaitingBody && t.entries.Keys == s.entries.Keys
            && t.pending == s.pending && t.boots == s.boots && t.requests == s.requests
            && t.running == s.running[hash := Handle(s.next, port, Ready, 0, 0)]
  {}

  lemma StepRests(a: Hash, b: Hash, steps: seq<Step>, s: Worker, step: Step, t: Worker)
    requires Rests(a, b, steps, s, s.running, s.requests) && Enabled(Example(), s, step)
             && t == Apply(Example(), s, step)
    requires t.entries.Keys == s.entries.Keys && t.pending == s.pending && t.boots == s.boots
    requires t.draining == s.draining && t.awaitingBody == s.awaitingBody
    ensures Rests(a, b, steps + [step], t, t.running, t.requests)
  {
    Extend(Example(), Initial(Found(a, b)), steps, s, step);
  }

  lemma SetFirst<V>(a: Hash, b: Hash, x: V, y: V, z: V)
    requires a != b
    ensures map[a := x, b := y][a := z] == map[a := z, b := y]
  {}

  lemma SetSecond<V>(a: Hash, b: Hash, x: V, y: V, z: V)
    requires a != b
    ensures map[a := x, b := y][b := z] == map[a := x, b := z]
  {}

  lemma BeginRests(a: Hash, b: Hash, steps: seq<Step>, s: Worker, q: RequestId, hash: Hash)
    requires Rests(a, b, steps, s, s.running, s.requests) && q !in s.requests && hash in s.running
             && s.running[hash].state == Ready
    ensures var t, h := BeginRequest(s, q, hash, 0), s.running[hash];
            && Rests(a, b, steps + [OfServer(Begins(q, hash, 0))], t,
                     s.running[hash := Handle(h.id, h.port, Ready, h.inflight + 1, 0)],
                     s.requests[q := Request(hash, h.id)])
            && t.inflightTotal == s.inflightTotal + 1
            && t.taken == s.taken && t.next == s.next && t.watches == s.watches && t.processes == s.processes
  {
    StepRests(a, b, steps, s, OfServer(Begins(q, hash, 0)), BeginRequest(s, q, hash, 0));
  }

  lemma ExitsRests(a: Hash, b: Hash, steps: seq<Step>, s: Worker, id: Id)
    requires Rests(a, b, steps, s, s.running, s.requests) && id in s.processes.spawned
    ensures var t := s.(processes := s.processes.(exited := s.processes.exited + {id}));
            Rests(a, b, steps + [OfStop(Exits(id))], t, t.running, t.requests)
  {
    StepRests(a, b, steps, s, OfStop(Exits(id)), s.(processes := s.processes.(exited := s.processes.exited + {id})));
  }

  lemma SeenRests(a: Hash, b: Hash, steps: seq<Step>, s: Worker, id: Id)
    requires Rests(a, b, steps, s, s.running, s.requests) && id in s.watches && id in s.processes.exited
    ensures var t := ExitHandler(s, id); Rests(a, b, steps + [OfStop(ExitSeen(id))], t, t.running, t.requests)
  {
    StepRests(a, b, steps, s, OfStop(ExitSeen(id)), ExitHandler(s, id));
  }

  lemma StartRests(a: Hash, b: Hash)
    ensures Rests(a, b, [], Initial(Found(a, b)), map[], map[])
  {}

  lemma LowestFrees(taken: set<Port>)
    ensures taken == {} ==> P.LowestFree(1, 3, taken, 1)
    ensures taken == {1} ==> P.LowestFree(1, 3, taken, 2)
    ensures taken == {2} ==> P.LowestFree(1, 3, taken, 1)
  {}

  lemma FirstRuns(a: Hash, b: Hash) returns (steps: seq<Step>, s: Worker)
    ensures Rests(a, b, steps, s, map[a := Handle(0, 1, Ready, 0, 0)], map[])
    ensures s.taken == {1} && s.inflightTotal == 0 && s.next == 1
    ensures s.watches == map[0 := Watch(a, 1)] && s.processes.spawned == {0}
  {
    StartRests(a, b);
    LowestFrees({});
    steps, s := BootRests(a, b, [], Initial(Found(a, b)), a, 1);
  }

  lemma BothRun(a: Hash, b: Hash) returns (steps: seq<Step>, s: Worker)
    requires a != b
    ensures Rests(a, b, steps, s, map[a := Handle(0, 1, Ready, 0, 0), b := Handle(1, 2, Ready, 0, 0)], map[])
    ensures s.taken == {1, 2} && s.inflightTotal == 0 && s.next == 2
    ensures 0 in s.watches && s.watches[0] == Watch(a, 1) && 0 in s.processes.spawned
  {
    steps, s := FirstRuns(a, b);
    LowestFrees(s.taken);
    steps, s := BootRests(a, b, steps, s, b, 2);
  }

  lemma BothServe(a: Hash, b: Hash) returns (steps: seq<Step>, s: Worker)
    requires a != b
    ensures Rests(a, b, steps, s, map[a := Handle(0, 1, Ready, 1, 0), b := Handle(1, 2, Ready, 0, 0)],
                  map[0 := Request(a, 0)])
    ensures s.taken == {1, 2} && s.inflightTotal == 1 && s.next == 2
    ensures 0 in s.watches && s.watches[0] == Watch(a, 1) && 0 in s.processes.spawned
  {
    steps, s := BothRun(a, b);
    BeginRests(a, b, steps, s, 0, a);
    SetFirst(a, b, Handle(0, 1, Ready, 0, 0), Handle(1, 2, Ready, 0, 0), Handle(0, 1, Ready, 1, 0));
    steps := steps + [OfServer(Begins(0, a, 0))];
    s := BeginRequest(s, 0, a, 0);
  }

  lemma FirstExits(a: Hash, b: Hash) returns (steps: seq<Step>, s: Worker)
    requires a != b
    ensures Rests(a, b, steps, s, map[a := Handle(0, 1, Ready, 1, 0), b := Handle(1, 2, Ready, 0, 0)],
                  map[0 := Request(a, 0)])
    ensures s.taken == {1, 2} && s.inflightTotal == 1 && s.next == 2
    ensures 0 in s.watches && s.watches[0] == Watch(a, 1) && 0 in s.processes.exited
  {
    steps, s := BothServe(a, b);
    ExitsRests(a, b, steps, s, 0);
    steps := steps + [OfStop(Exits(0))];
    s := s.(processes := s.processes.(exited := s.processes.exited + {0}));
  }

  /** The process of the first crashes, and the exit callback takes its handle away. */
  lemma FirstCrashed(a: Hash, b: Hash) returns (steps: seq<Step>, s: Worker)
    requires a != b
    ensures Rests(a, b, steps, s, map[b := Handle(1, 2, Ready, 0, 0)], map[0 := Request(a, 0)])
    ensures s.taken == {2} && s.inflightTotal == 0 && s.next == 2
  {
    steps, s := FirstExits(a, b);
    SeenRests(a, b, steps, s, 0);
    steps := steps + [OfStop(ExitSeen(0))];
    CrashTakesAway(s, a, b);
    s := ExitHandler(s, 0);
  }

  lemma CrashTakesAway(s: Worker, a: Hash, b: Hash)
    requires a != b && s.running == map[a := Handle(0, 1, Ready, 1, 0), b := Handle(1, 2, Ready, 0, 0)]
    requires s.taken == {1, 2} && s.inflightTotal == 1 && 0 in s.watches && s.watches[0] == Watch(a, 1)
    ensures var t := ExitHandler(s, 0);
            t.running == map[b := Handle(1, 2, Ready, 0, 0)] && t.taken == {2} && t.inflightTotal == 0
            && t.next == s.next && t.requests == s.requests
  {}

  lemma FirstRestarted(a: Hash, b: Hash) returns (steps: seq<Step>, s: Worker)
    requires a != b
    ensures Rests(a, b, steps, s, map[a := Handle(2, 1, Ready, 0, 0), b := Handle(1, 2, Ready, 0, 0)],
                  map[0 := Request(a, 0)])
    ensures s.inflightTotal == 0
  {
    steps, s := FirstCrashed(a, b);
    LowestFrees(s.taken);
    steps, s := BootRests(a, b, steps, s, a, 1);
  }

  // ---- the total

  /** The first agent was restarted while request 0 is open; request 1 is open on the second. */
  lemma SecondServes(a: Hash, b: Hash) returns (steps: seq<Step>, s: Worker)
    requires a != b
    ensures Rests(a, b, steps, s, map[a := Handle(2, 1, Ready, 0, 0), b := Handle(1, 2, Ready, 1, 0)],
                  map[0 := Request(a, 0), 1 := Request(b, 1)])
    ensures s.inflightTotal == 1
  {
    steps, s := FirstRestarted(a, b);
    BeginRests(a, b, steps, s, 1, b);
    SetSecond(a, b, Handle(2, 1, Ready, 0, 0), Handle(1, 2, Ready, 0, 0), Handle(1, 2, Ready, 1, 0));
    steps := steps + [OfServer(Begins(1, b, 0))];
    s := BeginRequest(s, 1, b, 0);
  }

  /** The drain loop can read zero while a request is open on a running agent. */
  lemma TotalMissesAnOpenRequest(a: Hash, b: Hash) returns (steps: seq<Step>, s: Worker)
    requires a != b
    ensures Rests(a, b, steps, s, map[a := Handle(2, 1, Ready, 0, 0), b := Handle(1, 2, Ready, 1, 0)],
                  map[1 := Request(b, 1)])
    ensures s.inflightTotal == 0 && OpenOnAgents(s.running, s.requests) == {1}
  {
    steps, s := SecondServes(a, b);
    var t := FinishRequest(s, 0, 0);
    StepRests(a, b, steps, s, OfServer(Finishes(0, 0)), t);
    steps, s := steps + [OfServer(Finishes(0, 0))], t;
    assert s.requests == map[1 := Request(b, 1)];
    assert s.running[b].id == 1;
  }

  lemma StopBoth(s: Worker, a: Hash, b: Hash)
    requires a != b && a in s.running && b in s.running
    ensures StopAgents(s, [a, b], 0) == StopAgent(StopAgent(s, a, 0), b, 0)
    ensures StopAgents(s, [a, b], 0).inflightTotal == s.inflightTotal - s.running[a].inflight - s.running[b].inflight
  {
    assert [a, b][..1] == [a] && [a][..0] == [];
    assert StopAgents(s, [a], 0) == StopAgent(s, a, 0);
  }

  /** Stopping all agents, as a drain or a fence does, then leaves the total below zero. */
  lemma TotalGoesNegative(a: Hash, b: Hash) returns (steps: seq<Step>, s: Worker)
    requires a != b
    ensures Reaches(Example(), Initial(Found(a, b)), steps, s)
    ensures s.inflightTotal == -1
  {
    steps, s := TotalMissesAnOpenRequest(a, b);
    StopBoth(s, a, b);
    Extend(Example(), Initial(Found(a, b)), steps, s, OfStop(StopAll([a, b], 0)));
    steps := steps + [OfStop(StopAll([a, b], 0))];
    s := StopAgents(s, [a, b], 0);
  }

  // ---- the idle sweep

  /** The restarted agent serves request 1; the request of its predecessor is still open. */
  lemma SuccessorServes(a: Hash, b: Hash) returns (steps: seq<Step>, s: Worker)
    requires a != b
    ensures Rests(a, b, steps, s, map[a := Handle(2, 1, Ready, 1, 0), b := Handle(1, 2, Ready, 0, 0)],
                  map[0 := Request(a, 0), 1 := Request(a, 2)])
    ensures s.inflightTotal == 1
  {
    steps, s := FirstRestarted(a, b);
    BeginRests(a, b, steps, s, 1, a);
    SetFirst(a, b, Handle(2, 1, Ready, 0, 0), Handle(1, 2, Ready, 0, 0), Handle(2, 1, Ready, 1, 0));
    steps := steps + [OfServer(Begins(1, a, 0))];
    s := BeginRequest(s, 1, a, 0);
  }

  /** The old request ends and is taken off the successor, which now looks idle. */
  lemma SuccessorMiscounted(a: Hash, b: Hash) returns (steps: seq<Step>, s: Worker)
    requires a != b
    ensures Rests(a, b, steps, s, map[a := Handle(2, 1, Ready, 0, 0), b := Handle(1, 2, Ready, 0, 0)],
                  map[1 := Request(a, 2)])
  {
    steps, s := SuccessorServes(a, b);
    var t := FinishRequest(s, 0, 0);
    StepRests(a, b, steps, s, OfServer(Finishes(0, 0)), t);
    steps, s := steps + [OfServer(Finishes(0, 0))], t;
    assert s.requests == map[1 := Request(a, 2)];
  }

  lemma BothIdle(s: Worker, a: Hash, b: Hash)
    requires s.running == map[a := Handle(2, 1, Ready, 0, 0), b := Handle(1, 2, Ready, 0, 0)]
    ensures s.IdleHashes(1000, 1000) == {a, b} && Lists([a, b], {a, b})
  {}

  /** After a miscount the idle sweep can stop an agent that serves a request. */
  lemma SweepStopsTheBusy(a: Hash, b: Hash) returns (steps: seq<Step>, s: Worker)
    requires a != b
    ensures Reaches(Example(), Initial(Found(a, b)), steps, s)
    ensures a in s.running && OpenOn(s.requests, s.running[a].id) == {1}
    ensures Enabled(Example(), s, OfStop(SweepIdle([a, b], 1000)))
    ensures a !in StopAgents(s, [a, b], 1000).running
  {
    steps, s := SuccessorMiscounted(a, b);
    BothIdle(s, a, b);
    StopsOnlyListed(s, [a, b], 1000, a);
  }
}
