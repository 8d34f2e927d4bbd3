/**
 * The worker runtime as a state machine: the agent manager, its port pool, its artifact cache and
 * the request bookkeeping of its HTTP server. A step is what happens between two suspension points
 * of the event loop; the steps of any number of boots, stops, crashes and requests interleave
 * freely. A boot attempt has its own id and is also the identity of the process it spawns.
 */
module WorkerModel {
  import opened ArtifactCache
  import P = PortPool

  type Id = nat
  type RequestId = nat
  type Port = P.Port

  datatype Config = Config(minPort: Port, maxPort: Port, maxAgents: nat, maxBytes: nat, idleStopMs: int)

  datatype AgentState = Ready | Stopping

  datatype Handle = Handle(id: Id, port: Port, state: AgentState, inflight: int, lastActivityAt: int)

  /** Where a boot is suspended. Only the last three hold a port. */
  datatype Phase =
    | Downloading
    | Fetched
    | Settled
    | Probing(port: Port)
    | Polling(port: Port)
    | Killing(port: Port)
  {
    predicate HoldsPort() {
      Probing? || Polling? || Killing?
    }

    /** The boot is past the download and will still start or run a process from the artifact. */
    predicate UsesArtifact() {
      Fetched? || HoldsPort()
    }
  }

  datatype Boot = Boot(hash: Hash, phase: Phase)

  /** The exit callback registered when a process becomes an agent. */
  datatype Watch = Watch(hash: Hash, port: Port)

  datatype Stop = Stop(handle: Handle, escalated: bool)

  datatype Download = Active | Committed | Rejected

  datatype Request = Request(hash: Hash, id: Id)

  datatype Processes = Processes(spawned: set<Id>, exited: set<Id>, signalled: set<Id>, killed: set<Id>)

  datatype Worker = Worker(
    taken: set<Port>,
    burned: set<Port>,
    running: map<Hash, Handle>,
    pending: map<Hash, Id>,
    boots: map<Id, Boot>,
    watches: map<Id, Watch>,
    stops: map<Id, Stop>,
    entries: Entries,
    downloads: map<Hash, Download>,
    inflightTotal: int,
    requests: map<RequestId, Request>,
    awaitingBody: set<RequestId>,
    draining: bool,
    processes: Processes,
    next: Id)
  {
    predicate IsActive(hash: Hash) {
      hash in running || hash in pending
    }

    function ActiveHashes(): set<Hash> {
      running.Keys + pending.Keys
    }

    function ActiveCount(): nat {
      |running| + |pending.Keys - running.Keys|
    }

    predicate IsIdle(hash: Hash, now: int, idleStopMs: int) {
      && hash in running
      && running[hash].state == Ready
      && running[hash].inflight == 0
      && now - running[hash].lastActivityAt >= idleStopMs
    }

    function IdleHashes(now: int, idleStopMs: int): set<Hash> {
      set h | h in running && IsIdle(h, now, idleStopMs)
    }
  }

  function Max0(x: int): int {
    if x > 0 then x else 0
  }

  function Initial(found: Entries): Worker {
    Worker({}, {}, map[], map[], map[], map[], map[], found, map[], 0, map[], {}, false, Processes({}, {}, {}, {}), 0)
  }

  // ---- ensuring an agent

  datatype Ensured = NoCapacity | Reused | Joined | Booting(id: Id)

  /** The outcome of the stretch that checks the capacity and calls the manager. */
  function EnsureOutcome(c: Config, s: Worker, hash: Hash): Ensured {
    if !s.IsActive(hash) && s.ActiveCount() >= c.maxAgents then NoCapacity
    else if hash in s.running && s.running[hash].state == Ready then Reused
    else if hash in s.pending then Joined
    else Booting(s.next)
  }

  function StartBoot(s: Worker, hash: Hash, now: int, onDisk: bool): Worker {
    var id := s.next;
    var t := s.(pending := s.pending[hash := id], next := s.next + 1);
    if hash in s.entries && onDisk then
      t.(entries := Touch(s.entries, hash, now), boots := s.boots[id := Boot(hash, Fetched)])
    else
      t.(downloads := if hash in s.downloads then s.downloads else s.downloads[hash := Active],
         boots := s.boots[id := Boot(hash, Downloading)])
  }

  function Reuse(s: Worker, hash: Hash, now: int): Worker
    requires hash in s.running
  {
    s.(running := s.running[hash := s.running[hash].(lastActivityAt := now)],
       entries := Touch(s.entries, hash, now))
  }

  function EnsureAgent(c: Config, s: Worker, hash: Hash, now: int, onDisk: bool): Worker {
    match EnsureOutcome(c, s, hash)
    case NoCapacity => s
    case Joined => s
    case Reused => Reuse(s, hash, now)
    case Booting(_) => StartBoot(s, hash, now, onDisk)
  }

  // ---- one boot

  function InPhase(s: Worker, id: Id, phase: Phase): Worker
    requires id in s.boots
  {
    s.(boots := s.boots[id := s.boots[id].(phase := phase)])
  }

  function DownloadSettled(s: Worker, id: Id): Worker
    requires id in s.boots && s.boots[id].hash in s.downloads
  {
    var hash := s.boots[id].hash;
    InPhase(s.(downloads := s.downloads - {hash}), id, if s.downloads[hash] == Committed then Fetched else Settled)
  }

  /** `port` is what the pool answers; without one the boot fails. */
  function Allocate(s: Worker, id: Id, port: P.Result<Port>): Worker
    requires id in s.boots
  {
    if port.Ok? then InPhase(s.(taken := s.taken + {port.value}), id, Probing(port.value))
    else InPhase(s, id, Settled)
  }

  function ProbeBusy(s: Worker, id: Id, port: P.Result<Port>): Worker
    requires id in s.boots && s.boots[id].phase.Probing?
  {
    Allocate(s.(burned := s.burned + {s.boots[id].phase.port}), id, port)
  }

  function Released(s: Worker, id: Id): Worker
    requires id in s.boots && s.boots[id].phase.HoldsPort()
  {
    InPhase(s.(taken := s.taken - {s.boots[id].phase.port}), id, Settled)
  }

  function ProbeFree(s: Worker, id: Id, spawned: bool): Worker
    requires id in s.boots && s.boots[id].phase.Probing?
  {
    if spawned then
      InPhase(s.(processes := s.processes.(spawned := s.processes.spawned + {id})), id, Polling(s.boots[id].phase.port))
    else
      Released(s, id)
  }

  function BootReady(s: Worker, id: Id, now: int): Worker
    requires id in s.boots && s.boots[id].phase.Polling?
  {
    var hash, port := s.boots[id].hash, s.boots[id].phase.port;
    InPhase(s.(running := s.running[hash := Handle(id, port, Ready, 0, now)],
               watches := s.watches[id := Watch(hash, port)]), id, Settled)
  }

  function BootNotReady(s: Worker, id: Id): Worker
    requires id in s.boots && s.boots[id].phase.Polling?
  {
    var processes := s.processes.(signalled := s.processes.signalled + {id}, killed := s.processes.killed + {id});
    InPhase(s.(processes := processes), id, Killing(s.boots[id].phase.port))
  }

  /** The promise of a settled boot leaves `pending`. */
  function BootSettled(s: Worker, id: Id): Worker
    requires id in s.boots
  {
    s.(pending := s.pending - {s.boots[id].hash}, boots := s.boots - {id})
  }

  // ---- exits and stops

  function ExitHandler(s: Worker, id: Id): Worker
    requires id in s.watches
  {
    var hash := s.watches[id].hash;
    var t := s.(watches := s.watches - {id});
    if hash in s.running && s.running[hash].id == id then
      t.(running := s.running - {hash},
         taken := s.taken - {s.watches[id].port},
         inflightTotal := s.inflightTotal - s.running[hash].inflight)
    else
      t
  }

  function StopAgent(s: Worker, hash: Hash, now: int): Worker {
    if hash !in s.running then s else
      var handle := s.running[hash];
      s.(running := s.running - {hash},
         inflightTotal := s.inflightTotal - handle.inflight,
         entries := Touch(s.entries, hash, now),
         stops := s.stops[handle.id := Stop(handle.(state := Stopping), false)],
         processes := s.processes.(signalled := s.processes.signalled + {handle.id}))
  }

  function StopAgents(s: Worker, hashes: seq<Hash>, now: int): Worker {
    if hashes == [] then s else StopAgent(StopAgents(s, hashes[..|hashes| - 1], now), hashes[|hashes| - 1], now)
  }

  function StopEscalate(s: Worker, id: Id): Worker
    requires id in s.stops
  {
    s.(stops := s.stops[id := s.stops[id].(escalated := true)],
       processes := s.processes.(killed := s.processes.killed + {id}))
  }

  function StopDone(s: Worker, id: Id): Worker
    requires id in s.stops
  {
    s.(stops := s.stops - {id}, taken := s.taken - {s.stops[id].handle.port})
  }

  // ---- proxied requests

  function BeginRequest(s: Worker, q: RequestId, hash: Hash, now: int): Worker
    requires hash in s.running
  {
    var h := s.running[hash];
    s.(running := s.running[hash := h.(inflight := h.inflight + 1, lastActivityAt := now)],
       inflightTotal := s.inflightTotal + 1,
       requests := s.requests[q := Request(hash, h.id)])
  }

  function EndRequest(s: Worker, hash: Hash, now: int): Worker {
    if hash !in s.running then s else
      var h := s.running[hash];
      s.(running := s.running[hash := h.(inflight := Max0(h.inflight - 1), lastActivityAt := now)],
         inflightTotal := Max0(s.inflightTotal - 1))
  }

  function FinishRequest(s: Worker, q: RequestId, now: int): Worker
    requires q in s.requests
  {
    EndRequest(s.(requests := s.requests - {q}), s.requests[q].hash, now)
  }

  // ---- the transition relation

  /** What can happen to one boot. */
  datatype BootEvent =
    | DownloadSettles
    | PortAllocated(answer: P.Result<Port>)
    | PortBusy(answer: P.Result<Port>)
    | PortFree(spawned: bool)
    | Healthy(now: int)
    | Unhealthy
    | GiveUp
    | Settles

  datatype DownloadEvent = Commits(bytes: nat, now: int, after: Entries) | Fails

  datatype StopEvent =
    | Exits(id: Id)
    | ExitSeen(id: Id)
    | StopOne(hash: Hash, now: int)
    | StopAll(hashes: seq<Hash>, now: int)
    | SweepIdle(hashes: seq<Hash>, now: int)
    | Escalates(id: Id)
    | StopEnds(id: Id)

  datatype ServerEvent =
    | AcceptEnsure(q: RequestId)
    | EnsureInvalid(q: RequestId)
    | EnsureBody(q: RequestId, hash: Hash, now: int, onDisk: bool)
    | Begins(q: RequestId, hash: Hash, now: int)
    | Finishes(q: RequestId, now: int)
    | Drains

  datatype Step =
    | OfBoot(id: Id, boot: BootEvent)
    | OfDownload(hash: Hash, download: DownloadEvent)
    | OfStop(stop: StopEvent)
    | OfServer(server: ServerEvent)

  ghost predicate Answers(c: Config, taken: set<Port>, answer: P.Result<Port>) {
    match answer
    case Ok(port) => P.LowestFree(c.minPort, c.maxPort, taken, port)
    case Exhausted => taken == P.Range(c.minPort, c.maxPort)
    case InvalidRange => false
  }

  ghost predicate BootEnabled(c: Config, s: Worker, id: Id, e: BootEvent) {
    && id in s.boots
    && match e
       case DownloadSettles =>
         && s.boots[id].phase.Downloading?
         && s.boots[id].hash in s.downloads && s.downloads[s.boots[id].hash] != Active
       case PortAllocated(answer) => s.boots[id].phase.Fetched? && Answers(c, s.taken, answer)
       case PortBusy(answer) => s.boots[id].phase.Probing? && Answers(c, s.taken, answer)
       case PortFree(spawned) => s.boots[id].phase.Probing?
       case Healthy(now) => s.boots[id].phase.Polling?
       case Unhealthy => s.boots[id].phase.Polling?
       case GiveUp => s.boots[id].phase.Killing?
       case Settles => s.boots[id].phase.Settled?
  }

  ghost function BootApply(c: Config, s: Worker, id: Id, e: BootEvent): Worker
    requires BootEnabled(c, s, id, e)
  {
    match e
    case DownloadSettles => DownloadSettled(s, id)
    case PortAllocated(answer) => Allocate(s, id, answer)
    case PortBusy(answer) => ProbeBusy(s, id, answer)
    case PortFree(spawned) => ProbeFree(s, id, spawned)
    case Healthy(now) => BootReady(s, id, now)
    case Unhealthy => BootNotReady(s, id)
    case GiveUp => Released(s, id)
    case Settles => BootSettled(s, id)
  }

  ghost predicate DownloadEnabled(c: Config, s: Worker, hash: Hash, e: DownloadEvent) {
    && hash in s.downloads && s.downloads[hash] == Active
    && (e.Commits? ==>
          Evicted(s.entries[hash := CacheEntry(e.bytes, e.now)], e.after, c.maxBytes, s.ActiveHashes()))
  }

  function DownloadApply(s: Worker, hash: Hash, e: DownloadEvent): Worker {
    match e
    case Commits(bytes, now, after) => s.(entries := after, downloads := s.downloads[hash := Committed])
    case Fails => s.(downloads := s.downloads[hash := Rejected])
  }

  ghost predicate StopEnabled(c: Config, s: Worker, e: StopEvent) {
    match e
    case Exits(id) => id in s.processes.spawned
    case ExitSeen(id) => id in s.watches && id in s.processes.exited
    case StopOne(hash, now) => true
    case StopAll(hashes, now) => Lists(hashes, s.running.Keys)
    case SweepIdle(hashes, now) => Lists(hashes, s.IdleHashes(now, c.idleStopMs))
    case Escalates(id) => id in s.stops && !s.stops[id].escalated
    case StopEnds(id) => id in s.stops && (s.stops[id].escalated || id in s.processes.exited)
  }

  ghost function StopApply(c: Config, s: Worker, e: StopEvent): Worker
    requires StopEnabled(c, s, e)
  {
    match e
    case Exits(id) => s.(processes := s.processes.(exited := s.processes.exited + {id}))
    case ExitSeen(id) => ExitHandler(s, id)
    case StopOne(hash, now) => StopAgent(s, hash, now)
    case StopAll(hashes, now) => StopAgents(s, hashes, now)
    case SweepIdle(hashes, now) => StopAgents(s, hashes, now)
    case Escalates(id) => StopEscalate(s, id)
    case StopEnds(id) => StopDone(s, id)
  }

  /** `hashes` goes through `these`, in whatever order. */
  predicate Lists(hashes: seq<Hash>, these: set<Hash>) {
    && (forall h <- hashes :: h in these)
    && (forall h <- these :: h in hashes)
  }

  ghost predicate ServerEnabled(c: Config, s: Worker, e: ServerEvent) {
    match e
    case AcceptEnsure(q) => !s.draining && q !in s.awaitingBody
    case EnsureInvalid(q) => q in s.awaitingBody
    case EnsureBody(q, hash, now, onDisk) => q in s.awaitingBody
    case Begins(q, hash, now) =>
      !s.draining && q !in s.requests && hash in s.running && s.running[hash].state == Ready
    case Finishes(q, now) => q in s.requests
    case Drains => true
  }

  ghost function ServerApply(c: Config, s: Worker, e: ServerEvent): Worker
    requires ServerEnabled(c, s, e)
  {
    match e
    case AcceptEnsure(q) => s.(awaitingBody := s.awaitingBody + {q})
    case EnsureInvalid(q) => s.(awaitingBody := s.awaitingBody - {q})
    case EnsureBody(q, hash, now, onDisk) =>
      EnsureAgent(c, s.(awaitingBody := s.awaitingBody - {q}), hash, now, onDisk)
    case Begins(q, hash, now) => BeginRequest(s, q, hash, now)
    case Finishes(q, now) => FinishRequest(s, q, now)
    case Drains => s.(draining := true)
  }

  ghost predicate Enabled(c: Config, s: Worker, step: Step) {
    match step
    case OfBoot(id, e) => BootEnabled(c, s, id, e)
    case OfDownload(hash, e) => DownloadEnabled(c, s, hash, e)
    case OfStop(e) => StopEnabled(c, s, e)
    case OfServer(e) => ServerEnabled(c, s, e)
  }

  ghost function Apply(c: Config, s: Worker, step: Step): Worker
    requires Enabled(c, s, step)
  {
    match step
    case OfBoot(id, e) => BootApply(c, s, id, e)
    case OfDownload(hash, e) => DownloadApply(s, hash, e)
    case OfStop(e) => StopApply(c, s, e)
    case OfServer(e) => ServerApply(c, s, e)
  }

  // ---- runs

  ghost predicate CanRun(c: Config, start: Worker, steps: seq<Step>)
    decreases |steps|, 0
  {
    steps == [] ||
    (CanRun(c, start, steps[..|steps| - 1]) &&
     Enabled(c, After(c, start, steps[..|steps| - 1]), steps[|steps| - 1]))
  }

  ghost function After(c: Config, start: Worker, steps: seq<Step>): Worker
    requires CanRun(c, start, steps)
    decreases |steps|, 1
  {
    if steps == [] then start
    else Apply(c, After(c, start, steps[..|steps| - 1]), steps[|steps| - 1])
  }

  lemma RunExtends(c: Config, start: Worker, steps: seq<Step>, step: Step)
    requires CanRun(c, start, steps) && Enabled(c, After(c, start, steps), step)
    ensures CanRun(c, start, steps + [step])
    ensures After(c, start, steps + [step]) == Apply(c, After(c, start, steps), step)
  {
    assert (steps + [step])[..|steps|] == steps;
  }
}
