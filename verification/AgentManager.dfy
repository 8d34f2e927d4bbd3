/** The agent manager as the object it is: handles and maps updated in place, one method a stretch. */
module AgentManager {
  import opened ArtifactCache
  import opened WorkerModel
  import P = PortPool
  import Inflight = WorkerInflight

  class AgentHandle {
    const hash: Hash
    const id: Id
    const port: Port
    var state: AgentState
    var inflight: int
    var lastActivityAt: int

    function Value(): Handle
      reads this
    {
      Handle(id, port, state, inflight, lastActivityAt)
    }

    constructor (hash: Hash, id: Id, port: Port, now: int)
      ensures this.hash == hash && Value() == Handle(id, port, Ready, 0, now)
    {
      this.hash, this.id, this.port := hash, id, port;
      state, inflight, lastActivityAt := Ready, 0, now;
    }
  }

  /** A `stopAgent` call that has not returned. */
  datatype SuspendedStop = Suspended(handle: AgentHandle, escalated: bool)

  class Manager {
    const maxAgents: nat
    const idleStopMs: int
    const cache: Cache
    const ports: P.Pool
    var running: map<Hash, AgentHandle>
    var pending: map<Hash, Id>
    var inflightTotal: int
    var boots: map<Id, Boot>
    var watches: map<Id, Watch>
    var stopping: map<Id, SuspendedStop>
    var downloads: map<Hash, Download>
    var next: Id
    ghost var handles: set<AgentHandle>
    // what the server and the operating system know
    ghost var burned: set<Port>
    ghost var requests: map<RequestId, Request>
    ghost var awaitingBody: set<RequestId>
    ghost var draining: bool
    ghost var processes: Processes

    ghost predicate Valid()
      reads this, ports, handles
    {
      && ports.Valid()
      && (forall h <- running.Keys :: running[h] in handles && running[h].hash == h)
      && (forall id <- stopping.Keys :: stopping[id].handle in handles && stopping[id].handle.id == id)
      && (forall h <- running.Keys, id <- stopping.Keys :: running[h] != stopping[id].handle)
    }

    ghost function Running(): map<Hash, Handle>
      requires Valid()
      reads this, ports, handles
    {
      map h | h in running :: running[h].Value()
    }

    ghost function Stopping(): map<Id, Stop>
      requires Valid()
      reads this, ports, handles
    {
      map id | id in stopping :: Stop(stopping[id].handle.Value(), stopping[id].escalated)
    }

    ghost function State(): Worker
      requires Valid()
      reads this, cache, ports, handles
    {
      Worker(ports.taken, burned, Running(), pending, boots, watches, Stopping(), cache.entries, downloads,
             inflightTotal, requests, awaitingBody, draining, processes, next)
    }

    function Settings(): Config {
      Config(ports.min, ports.max, maxAgents, cache.maxBytes, idleStopMs)
    }

    constructor (maxAgents: nat, idleStopMs: int, cache: Cache, ports: P.Pool)
      requires ports.Valid() && ports.taken == {}
      ensures Valid() && State() == Initial(cache.entries)
      ensures Settings() == Config(ports.min, ports.max, maxAgents, cache.maxBytes, idleStopMs)
    {
      this.maxAgents, this.idleStopMs, this.cache, this.ports := maxAgents, idleStopMs, cache, ports;
      running, pending, inflightTotal := map[], map[], 0;
      boots, watches, stopping, downloads, next := map[], map[], map[], map[], 0;
      burned, requests, awaitingBody, draining := {}, map[], {}, false;
      processes, handles := Processes({}, {}, {}, {}), {};
    }

    method IsActive(hash: Hash) returns (active: bool)
      requires Valid()
      ensures active == State().IsActive(hash)
    {
      active := hash in running || hash in pending;
    }

    method ActiveCount() returns (count: nat)
      requires Valid()
      ensures count == State().ActiveCount()
    {
      var booting := CountOutside(pending.Keys, running.Keys);
      SameSize(running, State().running);
      count := |running| + booting;
    }

    lemma ActiveSize()
      requires Valid()
      ensures State().ActiveCount() == |running.Keys + pending.Keys|
    {
      SameSize(running, State().running);
      UnionSize(running, pending);
    }

    /** Writing to the handle of `hash` shows nowhere else: no two hashes share one, nor does a stop. */
    twostate lemma OneHandleChanged(hash: Hash)
      requires old(Valid()) && Valid() && hash in running
      requires running == old(running) && stopping == old(stopping)
      requires handles == old(handles) && forall h <- handles :: h != running[hash] ==> unchanged(h)
      ensures Running() == old(Running())[hash := running[hash].Value()]
      ensures Stopping() == old(Stopping())
    {
      forall h | h in running && h != hash ensures running[h].Value() == old(running[h].Value()) {
        assert running[h].hash == h && running[hash].hash == hash;
        assert running[h] in handles;
      }
      forall id | id in stopping ensures stopping[id].handle.Value() == old(stopping[id].handle.Value()) {
        assert stopping[id].handle in handles && stopping[id].handle != running[hash];
      }
    }

    twostate lemma SameHandles()
      requires old(Valid()) && Valid()
      requires running == old(running) && stopping == old(stopping)
      requires handles == old(handles) && forall h <- handles :: unchanged(h)
      ensures Running() == old(Running()) && Stopping() == old(Stopping())
    {
      forall h | h in running ensures running[h].Value() == old(running[h].Value()) {
        assert running[h] in handles;
      }
      forall id | id in stopping ensures stopping[id].handle.Value() == old(stopping[id].handle.Value()) {
        assert stopping[id].handle in handles;
      }
    }

    twostate lemma OneHandleMore(hash: Hash, new handle: AgentHandle)
      requires old(Valid()) && Valid() && handle in handles
      requires running == old(running)[hash := handle] && stopping == old(stopping)
      requires forall h <- old(handles) :: unchanged(h)
      ensures Running() == old(Running())[hash := handle.Value()] && Stopping() == old(Stopping())
    {
      forall h | h in running && h != hash ensures running[h].Value() == old(running[h].Value()) {
        assert running[h] in old(handles);
      }
      forall id | id in stopping ensures stopping[id].handle.Value() == old(stopping[id].handle.Value()) {
        assert stopping[id].handle in old(handles);
      }
    }

    twostate lemma OneHandleLeft(hash: Hash)
      requires old(Valid()) && Valid()
      requires running == old(running) - {hash} && stopping == old(stopping)
      requires handles == old(handles) && forall h <- handles :: unchanged(h)
      ensures Running() == old(Running()) - {hash} && Stopping() == old(Stopping())
    {
      forall h | h in running ensures running[h].Value() == old(running[h].Value()) {
        assert running[h] in handles;
      }
      forall id | id in stopping ensures stopping[id].handle.Value() == old(stopping[id].handle.Value()) {
        assert stopping[id].handle in handles;
      }
    }

    twostate lemma OneHandleStops(hash: Hash)
      requires old(Valid()) && Valid() && hash in old(running) && running == old(running) - {hash}
      requires stopping == old(stopping)[old(running)[hash].id := Suspended(old(running)[hash], false)]
      requires handles == old(handles) && forall h <- handles :: h != old(running)[hash] ==> unchanged(h)
      ensures Running() == old(Running()) - {hash}
      ensures Stopping() == old(Stopping())[old(running)[hash].id := Stop(old(running)[hash].Value(), false)]
    {
      forall h | h in running ensures running[h].Value() == old(running[h].Value()) {
        assert running[h].hash == h && old(running)[hash].hash == hash;
        assert running[h] in handles;
      }
      forall id | id in stopping && id != old(running)[hash].id
        ensures stopping[id].handle.Value() == old(stopping[id].handle.Value())
      {
        assert stopping[id].handle in handles && stopping[id].handle != old(running)[hash];
      }
    }

    method BeginRequest(ghost q: RequestId, hash: Hash, now: int) returns (begun: bool)
      requires Valid()
      modifies this, handles
      ensures Valid()
      ensures begun <==> hash in old(State()).running && old(State()).running[hash].state == Ready
      ensures State() == if begun then WorkerModel.BeginRequest(old(State()), q, hash, now) else old(State())
    {
      if hash !in running || running[hash].state != Ready {
        return false;
      }
      var handle := running[hash];
      requests := requests[q := Request(hash, handle.id)];
      handle.inflight := handle.inflight + 1;
      handle.lastActivityAt := now;
      inflightTotal := inflightTotal + 1;
      OneHandleChanged(hash);
      return true;
    }

    method EndRequest(hash: Hash, now: int)
      requires Valid()
      modifies this, handles
      ensures Valid()
      ensures State() == WorkerModel.EndRequest(old(State()), hash, now)
    {
      if hash in running {
        var handle := running[hash];
        handle.inflight := if handle.inflight - 1 > 0 then handle.inflight - 1 else 0;
        handle.lastActivityAt := now;
        inflightTotal := if inflightTotal - 1 > 0 then inflightTotal - 1 else 0;
        OneHandleChanged(hash);
      }
    }

    // ---- ensuring

    /** The server's capacity check, then the manager's own lookup. */
    method Decide(hash: Hash) returns (outcome: Ensured)
      requires Valid()
      ensures outcome == EnsureOutcome(Settings(), State(), hash)
      ensures outcome == NoCapacity <==>
                hash !in running && hash !in pending && |running.Keys + pending.Keys| >= maxAgents
      ensures hash in running && running[hash].state == Ready ==> outcome == Reused
      ensures hash !in running && hash in pending ==> outcome == Joined
    {
      ActiveSize();
      var active := IsActive(hash);
      if !active {
        var count := ActiveCount();
        if count >= maxAgents {
          return NoCapacity;
        }
      }
      if hash in running && running[hash].state == Ready {
        return Reused;
      }
      if hash in pending {
        return Joined;
      }
      return Booting(next);
    }

    /** Check and call share one stretch, so nothing happens between them. */
    method EnsureAgent(hash: Hash, now: int, onDisk: bool) returns (outcome: Ensured)
      requires Valid()
      modifies this, cache, handles
      ensures Valid()
      ensures outcome == EnsureOutcome(Settings(), old(State()), hash)
      ensures State() == WorkerModel.EnsureAgent(Settings(), old(State()), hash, now, onDisk)
    {
      outcome := Decide(hash);
      if outcome.Reused? {
        Reuse(hash, now);
      } else if outcome.Booting? {
        StartBoot(hash, now, onDisk);
      }
    }

    method Reuse(hash: Hash, now: int)
      requires Valid() && hash in running
      modifies this, cache, handles
      ensures Valid()
      ensures State() == WorkerModel.Reuse(old(State()), hash, now)
    {
      running[hash].lastActivityAt := now;
      OneHandleChanged(hash);
      cache.TouchEntry(hash, now);
    }

    /** The cache's answer before its first suspension: a hit, or a download under way. */
    method AskCache(hash: Hash, now: int, onDisk: bool) returns (phase: Phase)
      modifies this`downloads, cache
      ensures var hit := hash in old(cache.entries) && onDisk;
              && phase == (if hit then Fetched else Downloading)
              && cache.entries == (if hit then Touch(old(cache.entries), hash, now) else old(cache.entries))
              && downloads == (if hit || hash in old(downloads) then old(downloads) else old(downloads)[hash := Active])
    {
      if hash in cache.entries && onDisk {
        cache.TouchEntry(hash, now);
        return Fetched;
      }
      if hash !in downloads {
        downloads := downloads[hash := Active];
      }
      return Downloading;
    }

    /** Up to its first suspension a boot asks the cache; then the promise is recorded as pending. */
    method StartBoot(hash: Hash, now: int, onDisk: bool)
      requires Valid()
      modifies this, cache
      ensures Valid()
      ensures State() == WorkerModel.StartBoot(old(State()), hash, now, onDisk)
    {
      var phase := AskCache(hash, now, onDisk);
      boots := boots[next := Boot(hash, phase)];
      pending := pending[hash := next];
      next := next + 1;
      SameHandles();
      StartedState(old(State()), State(), hash, now, onDisk);
    }

    static lemma StartedHit(s: Worker, t: Worker, hash: Hash, now: int)
      requires hash in s.entries && t.entries == Touch(s.entries, hash, now) && t.downloads == s.downloads
      requires t.boots == s.boots[s.next := Boot(hash, Fetched)]
      requires t == s.(entries := t.entries, downloads := t.downloads, boots := t.boots,
                       pending := s.pending[hash := s.next], next := s.next + 1)
      ensures t == WorkerModel.StartBoot(s, hash, now, true)
    {}

    static lemma StartedMiss(s: Worker, t: Worker, hash: Hash, now: int, onDisk: bool)
      requires !(hash in s.entries && onDisk) && t.entries == s.entries
      requires t.downloads == (if hash in s.downloads then s.downloads else s.downloads[hash := Active])
      requires t.boots == s.boots[s.next := Boot(hash, Downloading)]
      requires t == s.(entries := t.entries, downloads := t.downloads, boots := t.boots,
                       pending := s.pending[hash := s.next], next := s.next + 1)
      ensures t == WorkerModel.StartBoot(s, hash, now, onDisk)
    {}

    static lemma StartedState(s: Worker, t: Worker, hash: Hash, now: int, onDisk: bool)
      requires var hit := hash in s.entries && onDisk;
               && t.entries == (if hit then Touch(s.entries, hash, now) else s.entries)
               && t.downloads == (if hit || hash in s.downloads then s.downloads else s.downloads[hash := Active])
               && t.boots == s.boots[s.next := Boot(hash, if hit then Fetched else Downloading)]
      requires t == s.(entries := t.entries, downloads := t.downloads, boots := t.boots,
                       pending := s.pending[hash := s.next], next := s.next + 1)
      ensures t == WorkerModel.StartBoot(s, hash, now, onDisk)
    {
      if hash in s.entries && onDisk {
        StartedHit(s, t, hash, now);
      } else {
        StartedMiss(s, t, hash, now, onDisk);
      }
    }

    // ---- one boot

    method CommitDownload(hash: Hash, bytes: nat, now: int) returns (ghost after: Entries)
      requires Valid() && hash in downloads && downloads[hash] == Active
      modifies this, cache
      ensures Valid()
      ensures DownloadEnabled(Settings(), old(State()), hash, Commits(bytes, now, after))
      ensures State() == DownloadApply(old(State()), hash, Commits(bytes, now, after))
    {
      assert Running().Keys == running.Keys;
      cache.CommitDownload(hash, bytes, now, running.Keys + pending.Keys);
      downloads := downloads[hash := Committed];
      after := cache.entries;
      SameHandles();
    }

    method DownloadSettles(id: Id)
      requires Valid() && BootEnabled(Settings(), State(), id, BootEvent.DownloadSettles)
      modifies this
      ensures Valid()
      ensures State() == DownloadSettled(old(State()), id)
    {
      var boot := boots[id];
      var committed := downloads[boot.hash] == Committed;
      downloads := downloads - {boot.hash};
      boots := boots[id := boot.(phase := if committed then Fetched else Settled)];
      SameHandles();
    }

    /** One turn of the search for a free port, up to the probe. */
    method AllocatePort(id: Id) returns (answer: P.Result<Port>)
      requires Valid() && id in boots
      modifies this, ports
      ensures Valid()
      ensures Answers(Settings(), old(State()).taken, answer)
      ensures State() == Allocate(old(State()), id, answer)
    {
      answer := ports.Allocate();
      boots := boots[id := boots[id].(phase := if answer.Ok? then Probing(answer.value) else Settled)];
      SameHandles();
    }

    method PortBusy(id: Id) returns (answer: P.Result<Port>)
      requires Valid() && id in boots && boots[id].phase.Probing?
      modifies this, ports
      ensures Valid()
      ensures Answers(Settings(), old(State()).taken, answer)
      ensures State() == ProbeBusy(old(State()), id, answer)
    {
      burned := burned + {boots[id].phase.port};
      SameHandles();
      answer := AllocatePort(id);
    }

    method PortFree(id: Id, spawned: bool)
      requires Valid() && id in boots && boots[id].phase.Probing?
      modifies this, ports
      ensures Valid()
      ensures State() == ProbeFree(old(State()), id, spawned)
    {
      var port := boots[id].phase.port;
      if spawned {
        processes := processes.(spawned := processes.spawned + {id});
        boots := boots[id := boots[id].(phase := Polling(port))];
      } else {
        ports.Release(port);
        boots := boots[id := boots[id].(phase := Settled)];
      }
      SameHandles();
    }

    method Healthy(id: Id, now: int)
      requires Valid() && id in boots && boots[id].phase.Polling?
      modifies this
      ensures Valid()
      ensures State() == BootReady(old(State()), id, now)
    {
      var boot := boots[id];
      var handle := new AgentHandle(boot.hash, id, boot.phase.port, now);
      handles := handles + {handle};
      running := running[boot.hash := handle];
      watches := watches[id := Watch(boot.hash, boot.phase.port)];
      boots := boots[id := boot.(phase := Settled)];
      OneHandleMore(boot.hash, handle);
    }

    method Unhealthy(id: Id)
      requires Valid() && id in boots && boots[id].phase.Polling?
      modifies this
      ensures Valid()
      ensures State() == BootNotReady(old(State()), id)
    {
      processes := processes.(signalled := processes.signalled + {id}, killed := processes.killed + {id});
      boots := boots[id := boots[id].(phase := Killing(boots[id].phase.port))];
      SameHandles();
    }

    method GiveUp(id: Id)
      requires Valid() && id in boots && boots[id].phase.Killing?
      modifies this, ports
      ensures Valid()
      ensures State() == Released(old(State()), id)
    {
      ports.Release(boots[id].phase.port);
      boots := boots[id := boots[id].(phase := Settled)];
      SameHandles();
    }

    method Settles(id: Id)
      requires Valid() && id in boots
      modifies this
      ensures Valid()
      ensures State() == BootSettled(old(State()), id)
    {
      pending := pending - {boots[id].hash};
      boots := boots - {id};
      SameHandles();
    }

    // ---- exits and stops

    /** The exit callback acts only while its own process is the agent. */
    method ExitSeen(id: Id)
      requires Valid() && id in watches
      modifies this, ports
      ensures Valid()
      ensures State() == ExitHandler(old(State()), id)
    {
      var watch := watches[id];
      watches := watches - {id};
      SameHandles();
      if watch.hash in running && running[watch.hash].id == id {
        Drop(watch.hash, watch.port);
      }
    }

    method Drop(hash: Hash, port: Port)
      requires Valid() && hash in running
      modifies this`running, this`inflightTotal, ports
      ensures Valid()
      ensures State() == old(State()).(running := old(State()).running - {hash}, taken := old(State()).taken - {port},
                           inflightTotal := old(State()).inflightTotal - old(State()).running[hash].inflight)
    {
      inflightTotal := inflightTotal - running[hash].inflight;
      running := running - {hash};
      ports.Release(port);
      OneHandleLeft(hash);
    }

    static lemma StoppedState(s: Worker, t: Worker, hash: Hash, now: int)
      requires hash in s.running
      requires t.running == s.running - {hash}
      requires t.stops == s.stops[s.running[hash].id := Stop(s.running[hash].(state := AgentState.Stopping), false)]
      requires t.inflightTotal == s.inflightTotal - s.running[hash].inflight
      requires t.processes == s.processes.(signalled := s.processes.signalled + {s.running[hash].id})
      requires t.entries == Touch(s.entries, hash, now)
      requires t == s.(running := t.running, stops := t.stops, inflightTotal := t.inflightTotal,
                       processes := t.processes, entries := t.entries)
      ensures t == WorkerModel.StopAgent(s, hash, now)
    {}

    /** The agent leaves the routing map at once, before its process has ended. */
    method StopAgent(hash: Hash, now: int)
      requires Valid()
      modifies this, cache, handles
      ensures Valid()
      ensures running == old(running) - {hash}
      ensures State() == WorkerModel.StopAgent(old(State()), hash, now)
      ensures handles == old(handles)
    {
      if hash in running {
        Leave(hash);
        label Left:
        cache.TouchEntry(hash, now);
        SameHandles@Left();
        StoppedState(old(State()), State(), hash, now);
      } else {
        assert running == running - {hash};
      }
    }

    method Leave(hash: Hash)
      requires Valid() && hash in running
      modifies this`running, this`inflightTotal, this`stopping, this`processes, running[hash]
      ensures Valid() && handles == old(handles)
      ensures running == old(running) - {hash}
      ensures forall h <- running.Keys :: running[h].Value() == old(running[h].Value())
      ensures var handle := old(Running())[hash];
              && Running() == old(Running()) - {hash}
              && Stopping() == old(Stopping())[handle.id := Stop(handle.(state := AgentState.Stopping), false)]
              && inflightTotal == old(inflightTotal) - handle.inflight
              && processes == old(processes).(signalled := old(processes).signalled + {handle.id})
    {
      var handle := running[hash];
      handle.state := AgentState.Stopping;
      running := running - {hash};
      inflightTotal := inflightTotal - handle.inflight;
      stopping := stopping[handle.id := Suspended(handle, false)];
      processes := processes.(signalled := processes.signalled + {handle.id});
      OneHandleStops(hash);
      forall h | h in running ensures running[h].Value() == old(running[h].Value()) {
        assert running[h].hash == h && handle.hash == hash;
      }
    }

    method StopEscalates(id: Id)
      requires Valid() && id in stopping
      modifies this
      ensures Valid()
      ensures State() == StopEscalate(old(State()), id)
    {
      stopping := stopping[id := stopping[id].(escalated := true)];
      processes := processes.(killed := processes.killed + {id});
      assert Running() == old(Running());
      assert Stopping() == old(Stopping())[id := Stop(stopping[id].handle.Value(), true)];
    }

    method StopEnds(id: Id)
      requires Valid() && id in stopping
      modifies this, ports
      ensures Valid()
      ensures State() == StopDone(old(State()), id)
    {
      ports.Release(stopping[id].handle.port);
      stopping := stopping - {id};
      assert Running() == old(Running());
      assert Stopping() == old(Stopping()) - {id};
    }

    /** One turn of a loop that stops agents; `start` is the state before the loop. */
    method StopNext(hash: Hash, now: int, ghost start: Worker, ghost stopped: seq<Hash>)
      requires Valid() && hash in running && State() == StopAgents(start, stopped, now)
      modifies this, cache, handles
      ensures Valid() && handles == old(handles)
      ensures State() == StopAgents(start, stopped + [hash], now)
      ensures running == old(running) - {hash} && Running() == old(Running()) - {hash}
    {
      StopsOneMore(start, stopped, hash, now);
      StopAgent(hash, now);
      assert State().running == old(State()).running - {hash};
    }

    /** One round of the sweep, over the agents that ran when it began. */
    method StopIfIdle(hash: Hash, now: int, ghost start: Worker, ghost left: set<Hash>, ghost stopped: seq<Hash>)
      returns (ghost more: seq<Hash>)
      requires Valid() && State() == StopAgents(start, stopped, now) && hash in left
      requires IdleStopped(start.running, left, stopped, now, idleStopMs)
      modifies this, cache, handles
      ensures Valid() && handles == old(handles)
      ensures IdleStopped(start.running, left - {hash}, more, now, idleStopMs)
      ensures State() == StopAgents(start, more, now)
    {
      IdleStoppedNext(start.running, left, stopped, hash, now, idleStopMs);
      Inflight.StopsOnlyListed(start, stopped, now, hash);
      more := stopped;
      if IsIdle(running[hash], now) {
        StopNext(hash, now, start, stopped);
        more := stopped + [hash];
      }
    }

    predicate IsIdle(handle: AgentHandle, now: int)
      reads handle
    {
      IsIdleHandle(handle.Value(), now, idleStopMs)
    }

    /** Stops every ready agent that serves nobody and has been quiet long enough, all in one stretch. */
    method SweepIdle(now: int) returns (ghost stopped: seq<Hash>)
      requires Valid()
      modifies this, cache, handles
      ensures Valid()
      ensures Lists(stopped, old(State()).IdleHashes(now, idleStopMs))
      ensures State() == StopAgents(old(State()), stopped, now)
      ensures Sweeps(old(Running()), running.Keys, now, idleStopMs)
    {
      stopped := [];
      ghost var start := State();
      var left := running.Keys;
      while left != {}
        invariant Valid() && handles == old(handles)
        invariant State() == StopAgents(start, stopped, now)
        invariant IdleStopped(start.running, left, stopped, now, idleStopMs)
        decreases left
      {
        var hash :| hash in left;
        stopped := StopIfIdle(hash, now, start, left, stopped);
        left := left - {hash};
      }
      IdleAreListed(start, stopped, now, idleStopMs);
      SweepLeaves(start, stopped, now, idleStopMs);
    }

    /** The second half of `stopAll`: every agent in the routing map is stopped in one stretch. */
    method StopAllRunning(now: int) returns (ghost stopped: seq<Hash>)
      requires Valid()
      modifies this, cache, handles
      ensures Valid() && Lists(stopped, old(running).Keys)
      ensures State() == StopAgents(old(State()), stopped, now)
    {
      stopped := [];
      ghost var done: set<Hash> := {};
      var left := running.Keys;
      while left != {}
        invariant Valid() && handles == old(handles)
        invariant State() == StopAgents(old(State()), stopped, now)
        invariant left <= running.Keys && left + done == old(running).Keys && Lists(stopped, done)
        decreases left
      {
        var hash :| hash in left;
        StopNext(hash, now, old(State()), stopped);
        ListsNext(stopped, done, hash);
        stopped := stopped + [hash];
        left, done := left - {hash}, done + {hash};
      }
      assert done == old(running).Keys;
    }
  }

  lemma ListsNext(hashes: seq<Hash>, these: set<Hash>, hash: Hash)
    requires Lists(hashes, these)
    ensures Lists(hashes + [hash], these + {hash})
  {}

  ghost predicate IdleStopped(
    before: map<Hash, Handle>, left: set<Hash>, stopped: seq<Hash>, now: int, idleStopMs: int)
  {
    && left <= before.Keys
    && forall h :: h in stopped <==> h !in left && h in before && IsIdleHandle(before[h], now, idleStopMs)
  }

  lemma IdleStoppedNext(
    before: map<Hash, Handle>, left: set<Hash>, stopped: seq<Hash>, hash: Hash, now: int, idleStopMs: int)
    requires IdleStopped(before, left, stopped, now, idleStopMs) && hash in left
    ensures IdleStopped(before, left - {hash},
                        if IsIdleHandle(before[hash], now, idleStopMs) then stopped + [hash] else stopped,
                        now, idleStopMs)
  {}

  /** How many of `keys` are not among `known`. */
  method CountOutside(keys: set<Hash>, known: set<Hash>) returns (count: nat)
    ensures count == |keys - known|
  {
    count := 0;
    var left := keys;
    ghost var seen: set<Hash> := {};
    while left != {}
      invariant left !! seen && left + seen == keys
      invariant count == |seen - known|
      decreases |left|
    {
      var hash :| hash in left;
      OneMoreSeen(seen, known, hash);
      if hash !in known {
        count := count + 1;
      }
      left, seen := left - {hash}, seen + {hash};
    }
    assert seen == keys;
  }

  lemma OneMoreSeen(seen: set<Hash>, known: set<Hash>, hash: Hash)
    requires hash !in seen
    ensures |(seen + {hash}) - known| == |seen - known| + if hash in known then 0 else 1
  {
    if hash in known {
      assert (seen + {hash}) - known == seen - known;
    } else {
      assert (seen + {hash}) - known == (seen - known) + {hash};
    }
  }

  lemma SameSize<V, W>(m: map<Hash, V>, n: map<Hash, W>)
    requires m.Keys == n.Keys
    ensures |m| == |n|
  {
    assert |m| == |m.Keys| && |n| == |n.Keys|;
  }

  lemma UnionSize<V, W>(m: map<Hash, V>, n: map<Hash, W>)
    ensures |m.Keys + n.Keys| == |m| + |n.Keys - m.Keys|
  {
    assert m.Keys + n.Keys == m.Keys + (n.Keys - m.Keys) && |m| == |m.Keys|;
  }

  predicate IsIdleHandle(handle: Handle, now: int, idleStopMs: int) {
    handle.state == Ready && handle.inflight == 0 && now - handle.lastActivityAt >= idleStopMs
  }

  lemma StopsOneMore(s: Worker, hashes: seq<Hash>, hash: Hash, now: int)
    ensures StopAgents(s, hashes + [hash], now) == StopAgent(StopAgents(s, hashes, now), hash, now)
  {
    assert (hashes + [hash])[..|hashes|] == hashes;
  }

  /** What a sweep leaves: an agent goes if it is ready, counts no request and was last used the window or more ago. */
  ghost predicate Sweeps(before: map<Hash, Handle>, left: set<Hash>, now: int, idleStopMs: int) {
    && left <= before.Keys
    && forall h <- before.Keys ::
         h !in left <==>
         before[h].state == Ready && before[h].inflight == 0 && now - before[h].lastActivityAt >= idleStopMs
  }

  lemma {:induction false} NoneAppear(s: Worker, hashes: seq<Hash>, now: int)
    ensures StopAgents(s, hashes, now).running.Keys <= s.running.Keys
  {
    if hashes != [] {
      NoneAppear(s, hashes[..|hashes| - 1], now);
    }
  }

  lemma SweepLeaves(s: Worker, hashes: seq<Hash>, now: int, idleStopMs: int)
    requires Lists(hashes, s.IdleHashes(now, idleStopMs))
    ensures Sweeps(s.running, StopAgents(s, hashes, now).running.Keys, now, idleStopMs)
  {
    NoneAppear(s, hashes, now);
    forall h <- s.running.Keys ensures h in hashes <==> h !in StopAgents(s, hashes, now).running {
      Inflight.StopsOnlyListed(s, hashes, now, h);
    }
  }

  lemma IdleAreListed(s: Worker, hashes: seq<Hash>, now: int, idleStopMs: int)
    requires IdleStopped(s.running, {}, hashes, now, idleStopMs)
    ensures Lists(hashes, s.IdleHashes(now, idleStopMs))
  {}
}
