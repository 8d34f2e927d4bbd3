/** What one ensure does, after any run: refused, reused, joined or booted. */
module WorkerEnsures {
  import opened ArtifactCache
  import opened WorkerModel
  import opened WorkerRegistry
  import opened WorkerCapacity
  import opened WorkerRuns

  /** Only the activity time of one routed handle differs. */
  ghost predicate OnlyTouched(s: map<Hash, Handle>, t: map<Hash, Handle>, hash: Hash, now: int) {
    && t.Keys == s.Keys && hash in s
    && t[hash].id == s[hash].id && t[hash].port == s[hash].port && t[hash].state == s[hash].state
    && t[hash].inflight == s[hash].inflight && t[hash].lastActivityAt == now
    && forall h <- s.Keys :: h != hash ==> t[h] == s[h]
  }

  /** Only the recency of one cache entry differs. */
  ghost predicate OnlyRecent(s: Entries, t: Entries, hash: Hash, now: int) {
    && t.Keys == s.Keys && hash in s
    && t[hash].bytes == s[hash].bytes && t[hash].lastUsedAt == now
    && forall h <- s.Keys :: h != hash ==> t[h] == s[h]
  }

  ghost predicate SameExceptTimes(s: Worker, t: Worker) {
    t == s.(running := t.running, entries := t.entries)
  }

  lemma ReuseTouches(s: Worker, hash: Hash, now: int)
    requires hash in s.running && hash in s.entries
    ensures var t := Reuse(s, hash, now);
            && OnlyTouched(s.running, t.running, hash, now) && OnlyRecent(s.entries, t.entries, hash, now)
            && SameExceptTimes(s, t)
  {}

  /** What begins with a boot of `hash`, whose artifact is found in the cache or downloaded. */
  ghost predicate Boots(s: Worker, t: Worker, hash: Hash, found: bool, now: int) {
    var id := s.next;
    && t.pending == s.pending[hash := id] && t.boots.Keys == s.boots.Keys + {id} && t.next > id
    && t.boots[id].hash == hash && (forall i <- s.boots.Keys :: t.boots[i] == s.boots[i])
    && (if found then
          t.boots[id].phase == Fetched && t.downloads == s.downloads && OnlyRecent(s.entries, t.entries, hash, now)
        else
          && t.boots[id].phase == Downloading && t.downloads.Keys == s.downloads.Keys + {hash}
          && t.downloads[hash] == Active && t.entries == s.entries)
    && t.running == s.running && t.taken == s.taken && t.requests == s.requests
    && t.inflightTotal == s.inflightTotal && t.processes == s.processes
  }

  lemma FoundBoots(s: Worker, hash: Hash, now: int)
    requires s.next !in s.boots && hash in s.entries
    ensures Boots(s, StartBoot(s, hash, now, true), hash, true, now)
  {}

  lemma MissingBoots(s: Worker, hash: Hash, now: int, onDisk: bool)
    requires s.next !in s.boots && !(hash in s.entries && onDisk) && hash !in s.downloads
    ensures Boots(s, StartBoot(s, hash, now, onDisk), hash, false, now)
  {}

  lemma NewId(s: Worker)
    requires Registry(s)
    ensures s.next !in s.boots && s.next !in s.stops && forall h <- s.running.Keys :: s.running[h].id != s.next
  {}

  lemma NothingDownloads(s: Worker, hash: Hash)
    requires Artifacts(s) && Registry(s) && hash !in s.pending
    ensures hash !in s.downloads
  {}

  lemma AfterIsSafe(c: Config, found: Entries, steps: seq<Step>)
    requires CanRun(c, Initial(found), steps)
    ensures Safe(c, After(c, Initial(found), steps))
  {
    InitialSafe(c, found);
    RunSafe(c, Initial(found), steps);
  }

  /**
   * An ensure is refused if and only if its hash is neither running nor booting and as many hashes
   * as the cap allows are. A refusal changes nothing.
   */
  lemma EnsureRefusedIff(c: Config, found: Entries, steps: seq<Step>, hash: Hash, now: int, onDisk: bool)
    requires CanRun(c, Initial(found), steps)
    ensures var s := After(c, Initial(found), steps);
            && (EnsureOutcome(c, s, hash) == NoCapacity <==>
                hash !in s.running && hash !in s.pending && |s.running.Keys + s.pending.Keys| >= c.maxAgents)
            && (EnsureOutcome(c, s, hash) == NoCapacity ==> EnsureAgent(c, s, hash, now, onDisk) == s)
  {
    ActiveCountIsSize(After(c, Initial(found), steps));
  }

  /** An ensure of a running hash reuses its agent whatever the load, and boots nothing. */
  lemma EnsureReusesRunning(c: Config, found: Entries, steps: seq<Step>, hash: Hash, now: int, onDisk: bool)
    requires CanRun(c, Initial(found), steps) && hash in After(c, Initial(found), steps).running
    ensures var s := After(c, Initial(found), steps);
            var t := EnsureAgent(c, s, hash, now, onDisk);
            && EnsureOutcome(c, s, hash) == Reused
            && OnlyTouched(s.running, t.running, hash, now) && OnlyRecent(s.entries, t.entries, hash, now)
            && SameExceptTimes(s, t)
  {
    var s := After(c, Initial(found), steps);
    AfterIsSafe(c, found, steps);
    RunningIsReused(c, s, hash);
    ReuseTouches(s, hash, now);
  }

  lemma RunningIsReused(c: Config, s: Worker, hash: Hash)
    requires Registry(s) && Artifacts(s) && hash in s.running
    ensures EnsureOutcome(c, s, hash) == Reused && hash in s.entries
  {}

  /** An ensure of a hash that is booting and not running waits for that boot, whatever the load. */
  lemma EnsureJoinsPending(c: Config, found: Entries, steps: seq<Step>, hash: Hash, now: int, onDisk: bool)
    requires CanRun(c, Initial(found), steps)
    requires var s := After(c, Initial(found), steps); hash in s.pending && hash !in s.running
    ensures var s := After(c, Initial(found), steps);
            EnsureOutcome(c, s, hash) == Joined && EnsureAgent(c, s, hash, now, onDisk) == s
  {}

  lemma InactiveBoots(s: Worker, hash: Hash, now: int, onDisk: bool)
    requires Registry(s) && Artifacts(s) && !s.IsActive(hash)
    ensures Boots(s, StartBoot(s, hash, now, onDisk), hash, hash in s.entries && onDisk, now)
  {
    NewId(s);
    NothingDownloads(s, hash);
    if hash in s.entries && onDisk {
      FoundBoots(s, hash, now);
    } else {
      MissingBoots(s, hash, now, onDisk);
    }
  }

  lemma RoomBoots(c: Config, s: Worker, hash: Hash, now: int, onDisk: bool)
    requires hash !in s.running && hash !in s.pending && |s.running.Keys + s.pending.Keys| < c.maxAgents
    ensures EnsureOutcome(c, s, hash) == Booting(s.next)
    ensures EnsureAgent(c, s, hash, now, onDisk) == StartBoot(s, hash, now, onDisk)
  {
    ActiveCountIsSize(s);
  }

  /**
   * Otherwise a boot with a new id begins. It holds no port yet, and the artifact is at hand exactly
   * if the cache has it, else a download of it is under way.
   */
  lemma EnsureBootsInactive(c: Config, found: Entries, steps: seq<Step>, hash: Hash, now: int, onDisk: bool)
    requires CanRun(c, Initial(found), steps)
    requires var s := After(c, Initial(found), steps);
             hash !in s.running && hash !in s.pending && |s.running.Keys + s.pending.Keys| < c.maxAgents
    ensures var s := After(c, Initial(found), steps);
            && EnsureOutcome(c, s, hash) == Booting(s.next)
            && s.next !in s.boots && s.next !in s.stops && (forall h <- s.running.Keys :: s.running[h].id != s.next)
            && Boots(s, EnsureAgent(c, s, hash, now, onDisk), hash, hash in s.entries && onDisk, now)
  {
    var s := After(c, Initial(found), steps);
    AfterIsSafe(c, found, steps);
    NewId(s);
    RoomBoots(c, s, hash, now, onDisk);
    InactiveBoots(s, hash, now, onDisk);
  }

  lemma OutcomeIgnoresBodies(c: Config, s: Worker, waiting: set<RequestId>, hash: Hash)
    ensures EnsureOutcome(c, s.(awaitingBody := waiting), hash) == EnsureOutcome(c, s, hash)
  {}

  lemma ReuseIgnoresBodies(s: Worker, waiting: set<RequestId>, hash: Hash, now: int)
    requires hash in s.running
    ensures Reuse(s.(awaitingBody := waiting), hash, now) == Reuse(s, hash, now).(awaitingBody := waiting)
  {}

  lemma BootIgnoresBodies(s: Worker, waiting: set<RequestId>, hash: Hash, now: int, onDisk: bool)
    ensures StartBoot(s.(awaitingBody := waiting), hash, now, onDisk) ==
            StartBoot(s, hash, now, onDisk).(awaitingBody := waiting)
  {
    if hash in s.entries && onDisk {
      FoundIgnoresBodies(s, waiting, hash, now);
    } else {
      MissingIgnoresBodies(s, waiting, hash, now, onDisk);
    }
  }

  lemma FoundIgnoresBodies(s: Worker, waiting: set<RequestId>, hash: Hash, now: int)
    requires hash in s.entries
    ensures StartBoot(s.(awaitingBody := waiting), hash, now, true) ==
            StartBoot(s, hash, now, true).(awaitingBody := waiting)
  {}

  lemma MissingIgnoresBodies(s: Worker, waiting: set<RequestId>, hash: Hash, now: int, onDisk: bool)
    requires !(hash in s.entries && onDisk)
    ensures StartBoot(s.(awaitingBody := waiting), hash, now, onDisk) ==
            StartBoot(s, hash, now, onDisk).(awaitingBody := waiting)
  {}

  lemma EnsureIgnoresBodies(c: Config, s: Worker, waiting: set<RequestId>, hash: Hash, now: int, onDisk: bool)
    ensures EnsureAgent(c, s.(awaitingBody := waiting), hash, now, onDisk) ==
            EnsureAgent(c, s, hash, now, onDisk).(awaitingBody := waiting)
  {
    OutcomeIgnoresBodies(c, s, waiting, hash);
    match EnsureOutcome(c, s, hash)
    case NoCapacity =>
    case Joined =>
    case Reused => ReuseIgnoresBodies(s, waiting, hash, now);
    case Booting(_) => BootIgnoresBodies(s, waiting, hash, now, onDisk);
  }

  /** The request whose body has come waits no longer; all else is the ensure. */
  lemma EnsureBodyEnsures(c: Config, s: Worker, q: RequestId, hash: Hash, now: int, onDisk: bool)
    requires q in s.awaitingBody
    ensures Enabled(c, s, OfServer(EnsureBody(q, hash, now, onDisk)))
    ensures Apply(c, s, OfServer(EnsureBody(q, hash, now, onDisk))) ==
            EnsureAgent(c, s, hash, now, onDisk).(awaitingBody := s.awaitingBody - {q})
  {
    EnsureIgnoresBodies(c, s, s.awaitingBody - {q}, hash, now, onDisk);
  }
}
