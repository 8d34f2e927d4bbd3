/** A fenced worker: the tick loop and the agent manager together. */
module Fencing {
  import opened ArtifactCache
  import opened WorkerModel
  import opened WorkerRegistry
  import opened WorkerInflight
  import opened WorkerFates
  import R = Registration

  /** Where the tick loop is suspended. A fence awaits boots first, then the stops it started. */
  datatype TickPhase =
    | Resting
    | Registering
    | Heartbeating
    | AwaitingBoots(waiting: set<Id>)
    | AwaitingStops(waiting: set<Id>)

  /** `fenced` and `fenceAt` record the last fence: the attempts it found, and the next id at that moment. */
  datatype Node = Node(worker: Worker, reg: R.Reg, phase: TickPhase, fenced: set<Id>, fenceAt: Id)

  datatype Setup = Setup(worker: Config, mode: R.Mode, interval: int)

  datatype Event =
    | Starts
    | Ticks
    | RegisterReturns(response: R.Response)
    | HeartbeatReturns(response: R.Response)
    | BootsAwaited(hashes: seq<Hash>, now: int)
    | StopsAwaited
    | Halts
    | Deregisters
    | Works(step: Step)

  function AgentIds(running: map<Hash, Handle>): set<Id> {
    set h | h in running :: running[h].id
  }

  function PendingIds(pending: map<Hash, Id>): set<Id> {
    set h | h in pending :: pending[h]
  }

  function NewNode(found: Entries): Node {
    Node(Initial(found), R.Fresh(), Resting, {}, 0)
  }

  function SendsNext(reg: R.Reg): TickPhase {
    if R.NextRequest(reg) == R.Heartbeat then Heartbeating else Registering
  }

  ghost predicate Allowed(u: Setup, n: Node, e: Event) {
    match e
    case Starts => n.phase.Resting? && !n.reg.started && !n.reg.stopped
    case Ticks => n.phase.Resting? && n.reg.timer.Some?
    case RegisterReturns(response) => n.phase.Registering?
    case HeartbeatReturns(response) => n.phase.Heartbeating?
    case BootsAwaited(hashes, now) =>
      && n.phase.AwaitingBoots? && n.phase.waiting !! n.worker.boots.Keys
      && StopEnabled(u.worker, n.worker, StopAll(hashes, now))
    case StopsAwaited => n.phase.AwaitingStops? && n.phase.waiting !! n.worker.stops.Keys
    case Halts => true
    case Deregisters => n.reg.stopped
    case Works(step) => Enabled(u.worker, n.worker, step)
  }

  ghost function Perform(u: Setup, n: Node, e: Event): Node
    requires Allowed(u, n, e)
  {
    match e
    case Starts => n.(reg := R.TickStarts(n.reg.(started := true)), phase := SendsNext(n.reg))
    case Ticks => n.(reg := R.TickStarts(n.reg), phase := SendsNext(n.reg))
    case RegisterReturns(response) =>
      n.(reg := R.Registered(u.mode, u.interval, n.reg, response), phase := Resting)
    case HeartbeatReturns(response) =>
      var m := n.(reg := R.HeartbeatAnswered(u.mode, u.interval, n.reg, response));
      if R.IsFenced(response) then
        m.(phase := AwaitingBoots(PendingIds(n.worker.pending)),
           fenced := PendingIds(n.worker.pending) + AgentIds(n.worker.running),
           fenceAt := n.worker.next)
      else
        m.(phase := Resting)
    case BootsAwaited(hashes, now) =>
      n.(worker := StopAgents(n.worker, hashes, now), phase := AwaitingStops(AgentIds(n.worker.running)))
    case StopsAwaited => n.(reg := R.FenceEnds(u.interval, n.reg), phase := Resting)
    case Halts => n.(reg := R.Stopped(n.reg))
    case Deregisters => n.(reg := R.Forgotten(n.reg))
    case Works(step) => n.(worker := Apply(u.worker, n.worker, step))
  }

  ghost predicate CanPlay(u: Setup, start: Node, events: seq<Event>)
    decreases |events|, 0
  {
    events == [] ||
    (CanPlay(u, start, events[..|events| - 1]) &&
     Allowed(u, Played(u, start, events[..|events| - 1]), events[|events| - 1]))
  }

  ghost function Played(u: Setup, start: Node, events: seq<Event>): Node
    requires CanPlay(u, start, events)
    decreases |events|, 1
  {
    if events == [] then start
    else Perform(u, Played(u, start, events[..|events| - 1]), events[|events| - 1])
  }

  // ---- the invariant

  ghost predicate Gone(s: Worker, id: Id) {
    id !in s.boots && !IsAgent(s.running, id)
  }

  /** While boots are awaited a fenced attempt is awaited or past booting; afterwards it is gone. */
  ghost predicate FencedGoes(phase: TickPhase, fenced: set<Id>, s: Worker) {
    if phase.AwaitingBoots? then forall id <- fenced :: id in s.boots ==> id in phase.waiting
    else forall id <- fenced :: Gone(s, id)
  }

  /** Whatever is still there from before the fence is what the fence found. */
  ghost predicate OldAreFenced(fenced: set<Id>, fenceAt: Id, s: Worker) {
    && fenceAt <= s.next
    && (forall id <- fenced :: id < fenceAt)
    && (forall id: Id :: id < fenceAt && !Gone(s, id) ==> id in fenced)
  }

  /** An unregistered loop holds no session token; a stopped one ticks no more. */
  predicate TokenDropped(reg: R.Reg, phase: TickPhase) {
    && (reg.stopped ==> reg.timer.None?)
    && (!reg.stopped ==>
          && (!reg.registered ==> reg.token.None?)
          && (phase.Heartbeating? ==> reg.registered))
  }

  ghost predicate Fenced(n: Node) {
    && Registry(n.worker) && Fates(n.worker)
    && FencedGoes(n.phase, n.fenced, n.worker)
    && OldAreFenced(n.fenced, n.fenceAt, n.worker)
    && TokenDropped(n.reg, n.phase)
  }

  lemma StartFenced(found: Entries)
    ensures Fenced(NewNode(found))
  {}

  lemma GoneStays(s: Worker, t: Worker, id: Id)
    requires NoReturn(s, t) && id < s.next && Gone(s, id)
    ensures Gone(t, id)
  {}

  lemma WorkKeepsGoing(phase: TickPhase, fenced: set<Id>, fenceAt: Id, s: Worker, t: Worker)
    requires NoReturn(s, t) && FencedGoes(phase, fenced, s) && OldAreFenced(fenced, fenceAt, s)
    ensures FencedGoes(phase, fenced, t) && OldAreFenced(fenced, fenceAt, t)
  {
    forall id: Id | id < fenceAt && Gone(s, id) ensures Gone(t, id) {
      GoneStays(s, t, id);
    }
  }

  lemma WorkKeepsFenced(u: Setup, n: Node, step: Step)
    requires Fenced(n) && Enabled(u.worker, n.worker, step)
    ensures Fenced(Perform(u, n, Works(step)))
  {
    var t := Apply(u.worker, n.worker, step);
    StepNoReturn(u.worker, n.worker, step);
    StepKeepsRegistry(u.worker, n.worker, step);
    StepKeepsFates(u.worker, n.worker, step);
    WorkKeepsGoing(n.phase, n.fenced, n.fenceAt, n.worker, t);
  }

  lemma {:induction false} AllListedStopped(s: Worker, hashes: seq<Hash>, now: int)
    ensures forall h <- hashes :: h !in StopAgents(s, hashes, now).running
    ensures StopAgents(s, hashes, now).running.Keys <= s.running.Keys
  {
    if hashes != [] {
      AllListedStopped(s, hashes[..|hashes| - 1], now);
      assert hashes == hashes[..|hashes| - 1] + [hashes[|hashes| - 1]];
    }
  }

  /** The snapshot is taken after the awaited boots have left, so it holds every fenced agent. */
  lemma SnapshotKeepsFenced(u: Setup, n: Node, hashes: seq<Hash>, now: int)
    requires Fenced(n) && Allowed(u, n, BootsAwaited(hashes, now))
    ensures Fenced(Perform(u, n, BootsAwaited(hashes, now)))
  {
    var t := StopAgents(n.worker, hashes, now);
    StopsNoReturn(n.worker, hashes, now);
    StopsKeep(n.worker, hashes, now);
    StopsKeepFates(n.worker, hashes, now);
    WorkKeepsGoing(n.phase, n.fenced, n.fenceAt, n.worker, t);
    AllListedStopped(n.worker, hashes, now);
    assert t.running.Keys == {};
    StopsShrinkAgents(n.worker, hashes, now);
    forall id | id in n.fenced ensures Gone(t, id) {}
  }

  /** Every attempt in either map when the fence begins is recorded. */
  lemma FenceRecords(s: Worker, id: Id)
    requires Registry(s) && !Gone(s, id)
    ensures id in PendingIds(s.pending) + AgentIds(s.running) && id < s.next
  {
    if id in s.boots {
      assert s.pending[s.boots[id].hash] == id;
    } else {
      var h :| h in s.running && s.running[h].id == id;
      assert s.running[h].id in AgentIds(s.running);
    }
  }

  lemma FenceStarts(s: Worker)
    requires Registry(s)
    ensures FencedGoes(AwaitingBoots(PendingIds(s.pending)), PendingIds(s.pending) + AgentIds(s.running), s)
    ensures OldAreFenced(PendingIds(s.pending) + AgentIds(s.running), s.next, s)
  {
    forall id: Id | !Gone(s, id) ensures id in PendingIds(s.pending) + AgentIds(s.running) {
      FenceRecords(s, id);
    }
    forall id | id in s.boots ensures id in PendingIds(s.pending) {
      assert s.pending[s.boots[id].hash] == id;
    }
  }

  lemma HeartbeatKeepsFenced(u: Setup, n: Node, response: R.Response)
    requires Fenced(n) && n.phase.Heartbeating?
    ensures Fenced(Perform(u, n, HeartbeatReturns(response)))
  {
    if R.IsFenced(response) {
      FenceStarts(n.worker);
    }
  }

  lemma EventKeepsFenced(u: Setup, n: Node, e: Event)
    requires Fenced(n) && Allowed(u, n, e)
    ensures Fenced(Perform(u, n, e))
  {
    match e
    case Works(step) => WorkKeepsFenced(u, n, step);
    case BootsAwaited(hashes, now) => SnapshotKeepsFenced(u, n, hashes, now);
    case HeartbeatReturns(response) => HeartbeatKeepsFenced(u, n, response);
    case Starts =>
    case Ticks =>
    case RegisterReturns(response) =>
    case StopsAwaited =>
    case Halts =>
    case Deregisters =>
  }

  lemma {:induction false} PlayKeepsFenced(u: Setup, start: Node, events: seq<Event>)
    requires Fenced(start) && CanPlay(u, start, events)
    ensures Fenced(Played(u, start, events))
  {
    if events != [] {
      PlayKeepsFenced(u, start, events[..|events| - 1]);
      EventKeepsFenced(u, Played(u, start, events[..|events| - 1]), events[|events| - 1]);
    }
  }

  /** The next thing the loop does is to send a register request. */
  predicate AboutToRegister(n: Node) {
    n.phase.Resting? && n.reg.timer.Some? && !n.reg.registered
  }

  /**
   * Whenever a worker is about to register again, everything the last fence found has settled, has
   * left the routing map, and has exited or been signalled; whatever is booting or running was
   * ensured after the 404 answer; and the session token is gone.
   */
  lemma FencedBeforeRegister(u: Setup, found: Entries, events: seq<Event>)
    requires CanPlay(u, NewNode(found), events)
    ensures var n := Played(u, NewNode(found), events);
            AboutToRegister(n) ==>
              && (forall id <- n.fenced :: Gone(n.worker, id) && Ended(n.worker.processes, id))
              && (forall id: Id :: !Gone(n.worker, id) ==> id >= n.fenceAt)
              && n.reg.token.None? && R.RequestCredential(u.mode, n.reg) == R.Bootstrap
  {
    StartFenced(found);
    PlayKeepsFenced(u, NewNode(found), events);
    var n := Played(u, NewNode(found), events);
    if AboutToRegister(n) {
      forall id | id in n.fenced ensures Ended(n.worker.processes, id) {
        assert Alive(n.worker, id) || Ended(n.worker.processes, id);
      }
    }
  }

  /** An attempt that is not gone keeps its hash active. */
  lemma HashOfAttempt(s: Worker, id: Id) returns (h: Hash)
    requires Registry(s) && !Gone(s, id)
    ensures h in s.ActiveHashes()
  {
    if id in s.boots {
      h := s.boots[id].hash;
    } else {
      h :| h in s.running && s.running[h].id == id;
    }
  }

  lemma AttemptOfHash(s: Worker, h: Hash) returns (id: Id)
    requires Registry(s) && h in s.ActiveHashes()
    ensures !Gone(s, id) && id < s.next
  {
    id := if h in s.running then s.running[h].id else s.pending[h];
  }

  /** No hash is active exactly when every attempt is gone. */
  lemma NothingActive(s: Worker)
    requires Registry(s)
    ensures s.ActiveHashes() == {} <==> forall id: Id :: id < s.next ==> Gone(s, id)
  {
    if id: Id :| id < s.next && !Gone(s, id) {
      var h := HashOfAttempt(s, id);
    }
    if h :| h in s.ActiveHashes() {
      var id := AttemptOfHash(s, h);
    }
  }

  /**
   * A worker about to register again has nothing left if and only if every attempt begun since the
   * 404 answer is gone; in particular when there was none.
   */
  lemma NothingLeftAtRegister(u: Setup, found: Entries, events: seq<Event>)
    requires CanPlay(u, NewNode(found), events) && AboutToRegister(Played(u, NewNode(found), events))
    ensures var n := Played(u, NewNode(found), events);
            && (n.worker.ActiveHashes() == {} <==>
                forall id: Id :: n.fenceAt <= id < n.worker.next ==> Gone(n.worker, id))
            && (n.worker.next == n.fenceAt ==> n.worker.ActiveHashes() == {})
  {
    StartFenced(found);
    PlayKeepsFenced(u, NewNode(found), events);
    FencedBeforeRegister(u, found, events);
    NothingActive(Played(u, NewNode(found), events).worker);
  }
}
