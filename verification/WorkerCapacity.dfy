/** The agent cap, and the artifacts that may not leave the cache. */
module WorkerCapacity {
  import opened ArtifactCache
  import opened WorkerModel
  import opened WorkerRegistry
  import P = PortPool

  // ---- capacity

  ghost predicate Capacity(c: Config, s: Worker) {
    |s.ActiveHashes()| <= c.maxAgents
  }

  /** The gauge counts running and booting hashes, each once. */
  lemma ActiveCountIsSize(s: Worker)
    ensures s.ActiveCount() == |s.ActiveHashes()|
  {
    assert s.ActiveHashes() == s.running.Keys + (s.pending.Keys - s.running.Keys);
  }

  lemma StartBootActivates(s: Worker, hash: Hash, now: int, onDisk: bool)
    ensures StartBoot(s, hash, now, onDisk).ActiveHashes() == s.ActiveHashes() + {hash}
  {
    var t := StartBoot(s, hash, now, onDisk);
    assert t.running == s.running;
    assert t.pending == s.pending[hash := s.next];
  }

  lemma ReuseActivates(s: Worker, hash: Hash, now: int)
    requires hash in s.running
    ensures Reuse(s, hash, now).ActiveHashes() == s.ActiveHashes()
  {
    assert Reuse(s, hash, now).running.Keys == s.running.Keys;
  }

  lemma OneMore(s: set<Hash>, hash: Hash)
    ensures hash !in s ==> |s + {hash}| == |s| + 1
    ensures hash in s ==> s + {hash} == s
  {}

  lemma EnsureKeepsCapacity(c: Config, s: Worker, hash: Hash, now: int, onDisk: bool)
    requires Capacity(c, s)
    ensures Capacity(c, EnsureAgent(c, s, hash, now, onDisk))
  {
    match EnsureOutcome(c, s, hash)
    case NoCapacity =>
    case Joined =>
    case Reused => ReuseActivates(s, hash, now);
    case Booting(_) =>
      ActiveCountIsSize(s);
      StartBootActivates(s, hash, now, onDisk);
      OneMore(s.ActiveHashes(), hash);
  }

  lemma {:induction false} StopsShrink(s: Worker, hashes: seq<Hash>, now: int)
    ensures StopAgents(s, hashes, now).running.Keys <= s.running.Keys
    ensures StopAgents(s, hashes, now).pending == s.pending
    ensures StopAgents(s, hashes, now).boots == s.boots
  {
    if hashes != [] {
      StopsShrink(s, hashes[..|hashes| - 1], now);
    }
  }

  /** No hash became active between `s` and `t`. */
  ghost predicate ActivatesNothing(s: Worker, t: Worker) {
    forall h :: t.IsActive(h) ==> s.IsActive(h)
  }

  lemma HealthyActivatesNothing(s: Worker, id: Id, now: int)
    requires id in s.boots && s.boots[id].phase.Polling? && s.boots[id].hash in s.pending
    ensures ActivatesNothing(s, BootReady(s, id, now))
  {
  }

  lemma SettlesActivatesNothing(s: Worker, id: Id)
    requires id in s.boots
    ensures ActivatesNothing(s, BootSettled(s, id))
  {}

  lemma PhaseActivatesNothing(s: Worker, t: Worker)
    requires s.running == t.running && s.pending == t.pending
    ensures ActivatesNothing(s, t)
  {}

  lemma FetchActivatesNothing(s: Worker, id: Id)
    requires id in s.boots && s.boots[id].hash in s.downloads
    ensures ActivatesNothing(s, DownloadSettled(s, id))
  {
    PhaseActivatesNothing(s, DownloadSettled(s, id));
  }

  lemma AllocateActivatesNothing(s: Worker, id: Id, answer: P.Result<Port>)
    requires id in s.boots
    ensures ActivatesNothing(s, Allocate(s, id, answer))
  {
    PhaseActivatesNothing(s, Allocate(s, id, answer));
  }

  lemma BusyActivatesNothing(s: Worker, id: Id, answer: P.Result<Port>)
    requires id in s.boots && s.boots[id].phase.Probing?
    ensures ActivatesNothing(s, ProbeBusy(s, id, answer))
  {
    PhaseActivatesNothing(s, ProbeBusy(s, id, answer));
  }

  lemma FreeActivatesNothing(s: Worker, id: Id, spawned: bool)
    requires id in s.boots && s.boots[id].phase.Probing?
    ensures ActivatesNothing(s, ProbeFree(s, id, spawned))
  {
    PhaseActivatesNothing(s, ProbeFree(s, id, spawned));
  }

  lemma BootActivatesNothing(c: Config, s: Worker, id: Id, e: BootEvent)
    requires PendingBoots(s.pending, s.boots) && BootEnabled(c, s, id, e)
    ensures ActivatesNothing(s, BootApply(c, s, id, e))
  {
    match e
    case DownloadSettles => FetchActivatesNothing(s, id);
    case PortAllocated(answer) => AllocateActivatesNothing(s, id, answer);
    case PortBusy(answer) => BusyActivatesNothing(s, id, answer);
    case PortFree(spawned) => FreeActivatesNothing(s, id, spawned);
    case Healthy(now) => HealthyActivatesNothing(s, id, now);
    case Unhealthy => PhaseActivatesNothing(s, BootNotReady(s, id));
    case GiveUp => PhaseActivatesNothing(s, Released(s, id));
    case Settles => SettlesActivatesNothing(s, id);
  }

  lemma FinishActivatesNothing(s: Worker, q: RequestId, now: int)
    requires q in s.requests
    ensures ActivatesNothing(s, FinishRequest(s, q, now))
  {
    var hash := s.requests[q].hash;
    if hash in s.running {
      assert FinishRequest(s, q, now).running.Keys == s.running.Keys;
    }
  }

  lemma StopActivatesNothing(c: Config, s: Worker, e: StopEvent)
    requires StopEnabled(c, s, e)
    ensures ActivatesNothing(s, StopApply(c, s, e))
  {
    match e
    case StopAll(hashes, now) => StopsShrink(s, hashes, now);
    case SweepIdle(hashes, now) => StopsShrink(s, hashes, now);
    case Exits(id) =>
    case ExitSeen(id) =>
    case StopOne(hash, now) =>
    case Escalates(id) =>
    case StopEnds(id) =>
  }

  lemma ServerActivatesNothing(c: Config, s: Worker, e: ServerEvent)
    requires ServerEnabled(c, s, e) && !e.EnsureBody?
    ensures ActivatesNothing(s, ServerApply(c, s, e))
  {
    if e.Finishes? {
      FinishActivatesNothing(s, e.q, e.now);
    }
  }

  lemma DownloadActivatesNothing(s: Worker, hash: Hash, e: DownloadEvent)
    ensures ActivatesNothing(s, DownloadApply(s, hash, e))
  {
    PhaseActivatesNothing(s, DownloadApply(s, hash, e));
  }

  predicate IsEnsure(step: Step) {
    step.OfServer? && step.server.EnsureBody?
  }

  /** Only an ensure can make a hash active. */
  lemma OnlyEnsureActivates(c: Config, s: Worker, step: Step)
    requires PendingBoots(s.pending, s.boots) && Enabled(c, s, step) && !IsEnsure(step)
    ensures ActivatesNothing(s, Apply(c, s, step))
  {
    match step
    case OfBoot(id, e) => BootActivatesNothing(c, s, id, e);
    case OfDownload(hash, e) => DownloadActivatesNothing(s, hash, e);
    case OfStop(e) => StopActivatesNothing(c, s, e);
    case OfServer(e) => ServerActivatesNothing(c, s, e);
  }

  lemma FewerActive(c: Config, s: Worker, t: Worker)
    requires Capacity(c, s) && ActivatesNothing(s, t)
    ensures Capacity(c, t)
  {
    forall h | h in t.ActiveHashes() ensures h in s.ActiveHashes() {
      assert t.IsActive(h);
    }
    P.SubsetSize(t.ActiveHashes(), s.ActiveHashes());
  }

  lemma BodyKeepsCapacity(c: Config, s: Worker, e: ServerEvent)
    requires Capacity(c, s) && e.EnsureBody? && ServerEnabled(c, s, e)
    ensures Capacity(c, ServerApply(c, s, e))
  {
    var t := s.(awaitingBody := s.awaitingBody - {e.q});
    FewerActive(c, s, t);
    EnsureKeepsCapacity(c, t, e.hash, e.now, e.onDisk);
  }

  lemma StepKeepsCapacity(c: Config, s: Worker, step: Step)
    requires Registry(s) && Capacity(c, s) && Enabled(c, s, step)
    ensures Capacity(c, Apply(c, s, step))
  {
    if IsEnsure(step) {
      BodyKeepsCapacity(c, s, step.server);
    } else {
      OnlyEnsureActivates(c, s, step);
      FewerActive(c, s, Apply(c, s, step));
    }
  }

  // ---- artifacts

  ghost predicate InCache(
    running: map<Hash, Handle>, boots: map<Id, Boot>, downloads: map<Hash, Download>, entries: Entries)
  {
    && (forall h <- running.Keys :: h in entries)
    && (forall id <- boots.Keys :: boots[id].phase.UsesArtifact() ==> boots[id].hash in entries)
    && (forall h <- downloads.Keys :: downloads[h] == Committed ==> h in entries)
  }

  /** A download serves exactly one boot, the pending one of its hash, which waits for it. */
  ghost predicate DownloadsAwaited(pending: map<Hash, Id>, boots: map<Id, Boot>, downloads: map<Hash, Download>) {
    && (forall h <- downloads.Keys :: h in pending && pending[h] in boots && boots[pending[h]].phase.Downloading?)
    && (forall id <- boots.Keys :: boots[id].phase.Downloading? ==> boots[id].hash in downloads)
  }

  ghost predicate Artifacts(s: Worker) {
    InCache(s.running, s.boots, s.downloads, s.entries) && DownloadsAwaited(s.pending, s.boots, s.downloads)
  }

  lemma NewDownloadAwaited(
    pending: map<Hash, Id>, boots: map<Id, Boot>, downloads: map<Hash, Download>, hash: Hash, id: Id)
    requires PendingBoots(pending, boots) && DownloadsAwaited(pending, boots, downloads)
    requires hash !in pending && id !in boots
    ensures hash !in downloads
    ensures DownloadsAwaited(pending[hash := id], boots[id := Boot(hash, Downloading)], downloads[hash := Active])
    ensures DownloadsAwaited(pending[hash := id], boots[id := Boot(hash, Fetched)], downloads)
  {
    forall h | h in downloads ensures h != hash && pending[h] != id {}
  }

  lemma NewBootInCache(s: Worker, hash: Hash, now: int, onDisk: bool)
    requires InCache(s.running, s.boots, s.downloads, s.entries)
    ensures var t := StartBoot(s, hash, now, onDisk); InCache(t.running, t.boots, t.downloads, t.entries)
  {}

  lemma NewBootKeepsArtifacts(s: Worker, hash: Hash, now: int, onDisk: bool)
    requires PendingBoots(s.pending, s.boots) && Artifacts(s)
    requires hash !in s.pending && s.next !in s.boots
    ensures Artifacts(StartBoot(s, hash, now, onDisk))
  {
    NewDownloadAwaited(s.pending, s.boots, s.downloads, hash, s.next);
    NewBootInCache(s, hash, now, onDisk);
  }

  lemma EnsureKeepsArtifacts(c: Config, s: Worker, hash: Hash, now: int, onDisk: bool)
    requires Registry(s) && Artifacts(s)
    ensures Artifacts(EnsureAgent(c, s, hash, now, onDisk))
  {
    if EnsureOutcome(c, s, hash).Booting? {
      NewBootKeepsArtifacts(s, hash, now, onDisk);
    }
  }

  /** The eviction after a download spares everything active, so also what was just downloaded. */
  lemma DownloadKeepsArtifacts(c: Config, s: Worker, hash: Hash, e: DownloadEvent)
    requires PendingBoots(s.pending, s.boots) && Artifacts(s) && DownloadEnabled(c, s, hash, e)
    ensures Artifacts(DownloadApply(s, hash, e))
    ensures e.Commits? ==> hash in DownloadApply(s, hash, e).entries
  {
    if e.Commits? {
      var before := s.entries[hash := CacheEntry(e.bytes, e.now)];
      forall h | h in s.ActiveHashes() && h in before ensures h in e.after {
        assert h in before.Keys * s.ActiveHashes();
      }
      forall id | id in s.boots ensures s.boots[id].hash in s.ActiveHashes() {}
      forall h | h in s.downloads ensures h in s.ActiveHashes() {}
    }
  }

  lemma {:induction false} StopsKeepArtifacts(s: Worker, hashes: seq<Hash>, now: int)
    requires Artifacts(s)
    ensures Artifacts(StopAgents(s, hashes, now))
  {
    if hashes != [] {
      StopsKeepArtifacts(s, hashes[..|hashes| - 1], now);
    }
  }

  lemma DownloadSettledKeepsArtifacts(s: Worker, id: Id)
    requires PendingBoots(s.pending, s.boots) && Artifacts(s)
    requires id in s.boots && s.boots[id].phase.Downloading? && s.boots[id].hash in s.downloads
    ensures Artifacts(DownloadSettled(s, id))
  {
    var t := DownloadSettled(s, id);
    forall h | h in t.downloads ensures s.pending[h] != id {
      assert s.pending[h] in s.boots && s.boots[s.pending[h]].hash == h;
    }
    forall i | i in t.boots && t.boots[i].phase.Downloading? ensures t.boots[i].hash in t.downloads {
      assert s.pending[s.boots[i].hash] == i && s.pending[s.boots[id].hash] == id;
    }
  }

  /** A boot past its download may change phase, become an agent or be forgotten. */
  lemma LaterPhaseKeepsArtifacts(s: Worker, t: Worker, id: Id)
    requires PendingBoots(s.pending, s.boots) && Artifacts(s)
    requires id in s.boots && s.boots[id].phase.UsesArtifact() && id in t.boots && !t.boots[id].phase.Downloading?
    requires t.boots == s.boots[id := t.boots[id]] && t.boots[id].hash == s.boots[id].hash
    requires t.running.Keys <= s.running.Keys + {s.boots[id].hash}
    requires t.pending == s.pending && t.entries == s.entries && t.downloads == s.downloads
    ensures Artifacts(t)
  {
    forall h | h in s.downloads ensures s.pending[h] != id {}
  }

  lemma SettledKeepsArtifacts(s: Worker, id: Id)
    requires PendingBoots(s.pending, s.boots) && Artifacts(s)
    requires id in s.boots && s.boots[id].phase.Settled?
    ensures Artifacts(BootSettled(s, id))
  {
    forall h | h in s.downloads ensures s.pending[h] != id && h != s.boots[id].hash {
      assert s.pending[s.boots[id].hash] == id;
    }
  }

  lemma BusyKeepsArtifacts(s: Worker, id: Id, answer: P.Result<Port>)
    requires PendingBoots(s.pending, s.boots) && Artifacts(s)
    requires id in s.boots && s.boots[id].phase.Probing?
    ensures Artifacts(ProbeBusy(s, id, answer))
  {
    LaterPhaseKeepsArtifacts(s, ProbeBusy(s, id, answer), id);
  }

  lemma FreeKeepsArtifacts(s: Worker, id: Id, spawned: bool)
    requires PendingBoots(s.pending, s.boots) && Artifacts(s)
    requires id in s.boots && s.boots[id].phase.Probing?
    ensures Artifacts(ProbeFree(s, id, spawned))
  {
    LaterPhaseKeepsArtifacts(s, ProbeFree(s, id, spawned), id);
  }

  lemma AllocateKeepsArtifacts(s: Worker, id: Id, answer: P.Result<Port>)
    requires PendingBoots(s.pending, s.boots) && Artifacts(s)
    requires id in s.boots && s.boots[id].phase.Fetched?
    ensures Artifacts(Allocate(s, id, answer))
  {
    LaterPhaseKeepsArtifacts(s, Allocate(s, id, answer), id);
  }

  lemma BootKeepsArtifacts(c: Config, s: Worker, id: Id, e: BootEvent)
    requires PendingBoots(s.pending, s.boots) && Artifacts(s) && BootEnabled(c, s, id, e)
    ensures Artifacts(BootApply(c, s, id, e))
  {
    match e
    case DownloadSettles => DownloadSettledKeepsArtifacts(s, id);
    case PortAllocated(answer) => AllocateKeepsArtifacts(s, id, answer);
    case PortBusy(answer) => BusyKeepsArtifacts(s, id, answer);
    case PortFree(spawned) => FreeKeepsArtifacts(s, id, spawned);
    case Healthy(now) => LaterPhaseKeepsArtifacts(s, BootReady(s, id, now), id);
    case Unhealthy => LaterPhaseKeepsArtifacts(s, BootNotReady(s, id), id);
    case GiveUp => LaterPhaseKeepsArtifacts(s, Released(s, id), id);
    case Settles => SettledKeepsArtifacts(s, id);
  }

  /** A stop may take agents away and touch entries, no more. */
  lemma FewerKeepArtifacts(s: Worker, t: Worker)
    requires Artifacts(s) && (forall h <- t.running.Keys :: h in s.running)
             && (forall h <- s.entries.Keys :: h in t.entries)
    requires t.boots == s.boots && t.pending == s.pending && t.downloads == s.downloads
    ensures Artifacts(t)
  {}

  lemma ExitKeepsArtifacts(s: Worker, id: Id)
    requires Artifacts(s) && id in s.watches
    ensures Artifacts(ExitHandler(s, id))
  {
    var hash := s.watches[id].hash;
    if hash in s.running && s.running[hash].id == id {
      assert InCache(s.running - {hash}, s.boots, s.downloads, s.entries);
    }
  }

  lemma StopOneKeepsArtifacts(s: Worker, hash: Hash, now: int)
    requires Artifacts(s)
    ensures Artifacts(StopAgent(s, hash, now))
  {
    FewerKeepArtifacts(s, StopAgent(s, hash, now));
  }

  lemma StopKeepsArtifacts(c: Config, s: Worker, e: StopEvent)
    requires Artifacts(s) && StopEnabled(c, s, e)
    ensures Artifacts(StopApply(c, s, e))
  {
    match e
    case StopAll(hashes, now) => StopsKeepArtifacts(s, hashes, now);
    case SweepIdle(hashes, now) => StopsKeepArtifacts(s, hashes, now);
    case Exits(id) => FewerKeepArtifacts(s, StopApply(c, s, e));
    case ExitSeen(id) => ExitKeepsArtifacts(s, id);
    case StopOne(hash, now) => StopOneKeepsArtifacts(s, hash, now);
    case Escalates(id) => FewerKeepArtifacts(s, StopEscalate(s, id));
    case StopEnds(id) => FewerKeepArtifacts(s, StopDone(s, id));
  }

  lemma ServerKeepsArtifacts(c: Config, s: Worker, e: ServerEvent)
    requires Registry(s) && Artifacts(s) && ServerEnabled(c, s, e)
    ensures Artifacts(ServerApply(c, s, e))
  {
    if e.EnsureBody? {
      var t := s.(awaitingBody := s.awaitingBody - {e.q});
      SameKeeps(s, t);
      EnsureKeepsArtifacts(c, t, e.hash, e.now, e.onDisk);
    }
  }

  /** No step takes away an artifact that is running or being booted. */
  lemma StepKeepsArtifacts(c: Config, s: Worker, step: Step)
    requires Registry(s) && Artifacts(s) && Enabled(c, s, step)
    ensures Artifacts(Apply(c, s, step))
  {
    match step
    case OfBoot(id, e) => BootKeepsArtifacts(c, s, id, e);
    case OfDownload(hash, e) => DownloadKeepsArtifacts(c, s, hash, e);
    case OfStop(e) => StopKeepsArtifacts(c, s, e);
    case OfServer(e) => ServerKeepsArtifacts(c, s, e);
  }
}
