# A verified model of the agent platform's runtime, pipelines and compiler

This Dafny project models the parts of the platform whose correctness rests on ordering, recursion or
text that must not be ambiguous, and proves what they promise. `dafny verify dfyconfig.toml` checks it all.

**The worker runtime.** One worker boots one process per artifact hash, shares ports from a pool, keeps
an LRU cache of artifacts, counts proxied requests, caps active agents, and stops everything when the
control plane fences it. `WorkerModel` is a state machine in which a step is what happens between two
suspension points of the event loop; the steps of any number of boots, stops, exits, sweeps, downloads
and requests interleave freely. A boot attempt has an id of its own, which is also the identity of its
process, so "one boot per hash" is proved and not built in. `WorkerRegistry`, `WorkerCapacity`,
`WorkerPorts`, `WorkerInflight` and `WorkerFates` prove what every step keeps; `WorkerRuns` lifts that to
whole runs; `WorkerEnsures` says what an ensure does after any run and `WorkerIdle` what the idle sweep stops; `Fencing` adds the register-and-heartbeat loop. `AgentManager`, `PortPool`, `ArtifactCache`
and `Registration` hold the same code in its own form, objects updated in place, each method proved to
compute the model's step. `SessionActivity` and `SandboxReaper` model the sandbox sweep.

**Pipelines.** `PipelineConfig` holds the step tree with its walk, lookup and scope analysis;
`PipelineWalk` proves the walk exact; `PipelineScope` gives the execution semantics (sequential lists,
first matching lane, a copy of the scope per loop item that is discarded) and proves the analysis sound
against it; `PipelineScopeExact` proves when it is exact. `MintStepIds` is the id repair on raw JSON
trees, `MintStepIdsProofs` what it guarantees if the mints it draws are fresh, and `MintStepIdsFresh` that
such mints exist. `MintStepIdsPaths` tells the places of step nodes by their paths, `MintStepIdsKept` what
minting does at every path.

**The compiler.** `CanonicalJson` is the canonical text of a JSON value, with its numbers (`JsonNumber`),
strings (`JsonQuote`) and key order (`JsText`, `Sorting`); `CanonicalJsonProofs` proves it unambiguous,
`CanonicalJsonUtf8` that hashing its UTF-8 form loses nothing. `JsonReader` is a reader of JSON texts,
written from the grammar; `JsonReaderProofs` proves that it reads the canonical text back. `AgentHash` is the
text an agent's hash is taken of, `AgentHashReads` what it says when read, `Compile` the compile pipeline
around opaque code generators, `CompiledFiles` what is in its result, `CompileRefusals` which error it reports.

**Texts and streams.** `SpanRewrite` (reference rewriting), `StepPreview` (byte-capped previews),
`Changelog` and `ReleaseNotes` (a changelog printer and its reader), `LinePrefixer` (line splitting).

## Where the code and its comments part

The model follows the code. Where a comment promises more, the exact boundary is proved:

- `endRequest` says a request whose agent is gone was already reconciled (`apps/worker/src/agents.ts:461-462`).
  That is so only while no new agent runs the same hash: `WorkerInflight.ExactUnlessMiscounted` is the
  exact condition, and `WorkerFindings` holds runs after which the total is 0 with a request open, the
  total is negative, or the idle sweep stops an agent that serves a request. All begin with a crash. The
  drain loop (`apps/worker/src/supervisor.ts:154-156`) reads that total.
- "Stop accepting ensures" while draining (`apps/worker/src/supervisor.ts:45-49`) does not cover ensures
  whose body is still being read: `WorkerRuns.DrainingActivatesIff` is the exact condition, and
  `WorkerRuns.QuietAfterDrain` says that nothing starts once none is left.
- A fence promises that a hash never runs on two workers (`apps/worker/src/registration.ts:89-95`). What
  was there at the 404 is stopped first (`Fencing.FencedBeforeRegister`); what is ensured between the 404
  and the next register request is not (`FencingFindings.EnsuredBeforeRegisterStillRuns`).
  `Fencing.NothingLeftAtRegister` is the exact condition.
- Backing off is quicker than succeeding when the heartbeat interval is above the cap:
  `Registration.BackoffSlowsDown`.
- `canonicalJson` is described as never collapsing distinct inputs (`packages/compiler/src/hash.ts:28-33`);
  it reads undefined array items as null and -0 as 0, which `CanonicalJson.Equivalent` spells out.
- `stepsBefore` lists steps of earlier sibling lanes on purpose; `PipelineScopeExact.ScopeExact` says that
  this is the only difference from what executions can see.

## Model

| member | source | states |
|---|---|---|
| `WorkerRuns.RunSafe` | apps/worker/src/agents.ts:93-482 | every state that any run from a safe state reaches is safe: registry, cap, artifacts, ports and one-sided request accounting hold together, for every interleaving of boots, stops, exits, downloads, sweeps and requests |
| `WorkerRuns.RunWithinCap` | apps/worker/src/server.ts:251-265 | after any run the union of running and booting hashes has at most `maxAgents` members, and the capacity gauge is exactly its size |
| `WorkerRuns.RunBootsOnce` | apps/worker/src/agents.ts:405-410 | two boots in progress are never of one hash |
| `WorkerRuns.RunNeverOverwrites` | apps/worker/src/agents.ts:312-323 | when a boot becomes healthy its hash is routed to no handle, so entering the routing map replaces nobody |
| `WorkerRuns.RunKeepsArtifacts` | apps/worker/src/cache.ts:203-211 | after any run every running hash, every hash booting past its download, and every committed download has a cache entry |
| `WorkerRuns.RunConservesPorts` | apps/worker/src/agents.ts:224-380 | after any run each taken port has exactly one holder among booting attempts, agents, stops in progress and burned ports, and the pool counts exactly the holders |
| `WorkerRuns.RunPortSearchEnds` | apps/worker/src/agents.ts:224-232 | over a whole run at most as many ports are burned as the range has, so every search for a free port ends |
| `WorkerRuns.RunBoundsInflight` | apps/worker/src/agents.ts:445-463 | after any run total <= sum of the handles' counts <= requests open on running agents, and no count is negative |
| `WorkerRuns.RunExactIff` | apps/worker/src/agents.ts:445-463 | the counters are exact at every state of a run if and only if no request ends on a successor of its agent while the total is positive |
| `WorkerRuns.RunExact` | apps/worker/src/agents.ts:445-463 | where no request outlives a restart of its hash, total, sum of counts and requests open on agents are equal |
| `WorkerRuns.QuietAfterDrain` | apps/worker/src/server.ts:237-240 | once draining with no accepted ensure still waiting for its body, no continuation makes any hash active |
| `WorkerRuns.AcceptedEnsureBootsWhileDraining` | apps/worker/src/server.ts:237-265 | an ensure accepted before the drain activates its hash while draining, from the cache or by a download, if and only if the cap leaves room |
| `WorkerRuns.DrainingActivatesIff` | apps/worker/src/server.ts:237-265 | while draining some step makes a given inactive hash active if and only if an accepted ensure still waits for its body and the cap leaves room |
| `WorkerRuns.RunSweepSparesTheBusy` | apps/worker/src/agents.ts:382-394 | in a run in which no request outlives a restart of its hash, an agent taken away by the idle sweep has no open request |
| `WorkerEnsures.EnsureRefusedIff` | apps/worker/src/server.ts:251-265 | after any run an ensure is refused if and only if its hash is neither running nor booting and the union of running and booting hashes has reached the cap; a refusal changes nothing |
| `WorkerEnsures.EnsureReusesRunning` | apps/worker/src/agents.ts:397-404 | after any run an ensure of a running hash is a reuse whatever the load: no boot begins, the handle keeps id, port, state and count, and only its activity time and its cache entry's recency become the present time |
| `WorkerEnsures.EnsureJoinsPending` | apps/worker/src/agents.ts:405-410 | after any run an ensure of a hash that is booting and not running joins that boot and changes nothing |
| `WorkerEnsures.EnsureBootsInactive` | apps/worker/src/agents.ts:405-410 | after any run, with room, an ensure of an inactive hash begins one boot with an id nobody has, no port yet, and the artifact from the cache or a download of its own |
| `WorkerEnsures.EnsureBodyEnsures` | apps/worker/src/server.ts:237-265 | the step that reads the body of an accepted ensure is that ensure, and its request waits no longer |
| `WorkerIdle.ActivityIsLastUse` | apps/worker/src/agents.ts:397-463 | after any run the activity time of a routed agent is the time of its latest use: becoming ready, an ensure, the begin or the end of a request |
| `WorkerIdle.SweepStopsIff` | apps/worker/src/agents.ts:382-394 | after any run the idle sweep stops an agent if and only if it counts no request and its latest use lies the window or more back; it leaves the others as they are |
| `WorkerIdle.ExactSweepStopsIff` | apps/worker/src/agents.ts:382-394 | where no request outlives a restart of its hash: if and only if no request is open on it and its latest use lies the window or more back |
| `WorkerIdle.RecentlyUsedIsKept` | apps/worker/src/agents.ts:382-404 | an agent that some step of the run used within the window is kept, if later uses were within it too |
| `WorkerIdle.LongUnusedIsStopped` | apps/worker/src/agents.ts:382-394 | an agent that counts no request and that no step used within the window is stopped |
| `WorkerRegistry.StepKeepsRegistry` | apps/worker/src/agents.ts:397-411 | every step keeps: pending names exactly the boots in progress, an unsettled boot's hash is not running, every routed handle is ready and watched, stops and agents are disjoint |
| `WorkerRegistry.NewBootKeeps` | apps/worker/src/agents.ts:397-411 | a new attempt for a hash that is neither running nor pending keeps the registry: check, boot and the entry in pending share one stretch |
| `WorkerRegistry.BootReadyKeeps` | apps/worker/src/agents.ts:312-339 | a healthy attempt enters the routing map at a hash that held no handle, and the registry is kept |
| `WorkerRegistry.ExitKeeps` | apps/worker/src/agents.ts:327-339 | the exit callback, acting only while its own process is the agent, keeps the registry in every interleaving |
| `WorkerRegistry.StopKeeps` | apps/worker/src/agents.ts:349-354 | taking a handle out of the routing map before its process has ended keeps the registry |
| `WorkerRegistry.RunningIdsDiffer` | apps/worker/src/agents.ts:327-329 | no process is the agent of two hashes |
| `WorkerCapacity.ActiveCountIsSize` | apps/worker/src/agents.ts:429-435 | running plus pending-but-not-running is the size of the union |
| `WorkerCapacity.EnsureKeepsCapacity` | apps/worker/src/server.ts:254-265 | the capacity check and the boot it guards keep the union within the cap |
| `WorkerCapacity.OnlyEnsureActivates` | apps/worker/src/agents.ts:425-435 | no step other than an ensure makes a hash running or booting that was neither |
| `WorkerCapacity.StepKeepsCapacity` | apps/worker/src/server.ts:254-265 | every step keeps the cap |
| `WorkerCapacity.DownloadKeepsArtifacts` | apps/worker/src/cache.ts:203-211 | the eviction after a download removes nothing that runs or boots, nor the artifact just downloaded |
| `WorkerCapacity.NewDownloadAwaited` | apps/worker/src/cache.ts:238-245 | a new boot never joins a download begun for an earlier one: each download is awaited by exactly the pending boot of its hash |
| `WorkerCapacity.StepKeepsArtifacts` | apps/worker/src/supervisor.ts:78-83 | every step keeps artifacts in use in the cache; rests on the guard counting booting hashes as running |
| `WorkerPorts.StepKeepsPorts` | apps/worker/src/agents.ts:224-380 | every step keeps each taken port with exactly one holder, inside the range |
| `WorkerPorts.ReleasedByItsHolder` | apps/worker/src/agents.ts:343-380 | a port is given back only by its one holder, through that holder's own step, and nobody holds it afterwards |
| `WorkerPorts.ExitLoses` | apps/worker/src/agents.ts:327-339 | the exit callback releases its agent's port exactly when the process is still the agent of its hash |
| `WorkerPorts.StopMoves` | apps/worker/src/agents.ts:349-378 | a stop takes the port over from the agent, so the exit callback no longer can release it |
| `WorkerPorts.BusyKeepsPorts` | apps/worker/src/agents.ts:216-232 | a busy port moves from the boot to the burned ones and the next port is one nobody holds |
| `WorkerPorts.StepBurns` | apps/worker/src/agents.ts:224-232 | a busy probe burns exactly one port that was not burned; no other step changes what is burned and none is ever unburned |
| `WorkerPorts.BurnedFit` | apps/worker/src/agents.ts:224-232 | burned ports never outnumber the range |
| `WorkerPorts.AllocatedCountIsHolders` | apps/worker/src/ports.ts:37-37 | the pool's own count equals the number of boots, agents and stops with a port plus the burned ports |
| `WorkerInflight.StepKeepsAccounting` | apps/worker/src/agents.ts:327-463 | every step keeps: counts not negative, each at most its agent's open requests, total at most the sum |
| `WorkerInflight.ExactUnlessMiscounted` | apps/worker/src/agents.ts:454-463 | from exact counters a step leads to exact counters if and only if it is not the end of a request whose agent was replaced while the total is positive |
| `WorkerInflight.FinishKeepsExact` | apps/worker/src/agents.ts:454-463 | the same for the end of one request, whatever the agent at its hash now counts |
| `WorkerInflight.StopKeepsCounts` | apps/worker/src/agents.ts:352-354 | a stop subtracts exactly what the sum loses |
| `WorkerInflight.TotalBelowOpen` | apps/worker/src/agents.ts:441-463 | total <= sum <= requests open on running agents <= all open requests, with equality of the first three when exact |
| `WorkerInflight.SweepSparesTheBusy` | apps/worker/src/agents.ts:382-394 | with exact counters the idle sweep stops only agents with no open request |
| `WorkerInflight.StopsOnlyListed` | apps/worker/src/agents.ts:415-418 | stopping a list of hashes takes exactly the listed ones out of the routing map |
| `WorkerFindings.TotalMissesAnOpenRequest` | apps/worker/src/agents.ts:454-463 | for any two artifacts a run exists, with one crash and one restart, after which the total is 0 although a running agent serves an open request |
| `WorkerFindings.TotalGoesNegative` | apps/worker/src/agents.ts:352-354 | for any two artifacts that run goes on, by stopping all agents, to a total of -1 |
| `WorkerFindings.SweepStopsTheBusy` | apps/worker/src/agents.ts:382-394 | for any two artifacts a run exists after which the idle sweep stops an agent that serves an open request, because a request of its crashed predecessor was taken off its count |
| `WorkerFates.StepKeepsFates` | apps/worker/src/agents.ts:288-380 | every step keeps: an attempt that no longer boots nor runs as an agent has spawned nothing, has exited, or has been signalled |
| `WorkerFates.StepNoReturn` | apps/worker/src/agents.ts:405-410 | an attempt that has left both maps never comes back; a later boot of its hash is another attempt |
| `Fencing.FencedBeforeRegister` | apps/worker/src/registration.ts:188-207 | in every run, when a worker is about to register again, everything that ran or booted at the last 404 has settled, left the routing map, and exited or been signalled; what is there was ensured later; the session token is gone |
| `Fencing.SnapshotKeepsFenced` | apps/worker/src/agents.ts:415-418 | awaiting the pending boots before taking the snapshot of running agents leaves none of the fenced ones behind |
| `Fencing.FenceRecords` | apps/worker/src/agents.ts:415-416 | every attempt in either map when the fence begins is awaited or will be in the snapshot |
| `Fencing.EventKeepsFenced` | apps/worker/src/registration.ts:167-237 | every event of the loop and of the agents keeps the fencing invariant |
| `Fencing.NothingLeftAtRegister` | apps/worker/src/registration.ts:188-207 | when the worker is about to register again nothing runs or boots if and only if every attempt begun since the last 404 is gone; so nothing does when there was none |
| `FencingFindings.EnsuredBeforeRegisterStillRuns` | apps/worker/src/registration.ts:188-207 | for any cached artifact a run exists in which it is running when the worker is about to register again: it was ensured in the heartbeat interval between the end of the fence and the register request |
| `Registration.BackoffGrows` | apps/worker/src/registration.ts:239-247 | each further failure waits at least as long as the one before, and none beyond the cap |
| `Registration.BackoffDoubles` | apps/worker/src/registration.ts:239-247 | the interval without failures, twice that after the first, doubled by each of the next four, capped at a minute, and the same from the fifth on |
| `Registration.RegisterAnswers` | apps/worker/src/registration.ts:159-181 | 200 to 299 registers, clears the failures and may bring a token; any other end is one more failure; the next tick waits the delay for the failures there are |
| `Registration.HeartbeatAnswers` | apps/worker/src/registration.ts:183-236 | the same for a heartbeat, by status: 404, 401 or 403, 200 to 299, anything else |
| `Registration.BackoffSlowsDown` | apps/worker/src/registration.ts:239-247 | failing waits no shorter than succeeding if and only if the interval is within the cap |
| `Registration.Credentials` | apps/worker/src/registration.ts:131-140 | registering never presents a session token; a heartbeat presents exactly the token held, else the bootstrap secret |
| `Registration.AnswersKeepTokenFit` | apps/worker/src/registration.ts:159-226 | no answer leaves a token in shared-secret mode; 404, 401 and 403, and only they, unregister a registered worker, and they drop its token |
| `Registration.Loop.StartTick` | apps/worker/src/registration.ts:167-187 | an unregistered worker registers, never with a session token; a registered one sends a heartbeat with exactly the token it holds; nothing else changes but the timer |
| `Registration.Loop.HeartbeatDone` | apps/worker/src/registration.ts:183-236 | 404, 401 and 403, and only they, give up the registration, always with the token; the fence is called for exactly on 404, which schedules nothing; after any other answer a loop that is not stopped has its next tick set to the delay that its failures call for; failures grow exactly on the other non-success answers |
| `AgentManager.Manager.Decide` | apps/worker/src/server.ts:254-265 | refused if and only if the hash is neither running nor booting and their union has reached the cap; a ready agent is reused and a pending boot joined whatever the load |
| `AgentManager.Manager.EnsureAgent` | apps/worker/src/agents.ts:397-411 | the outcome and the state after an ensure are those of the model's step, for handles and maps updated in place |
| `AgentManager.Manager.Reuse` | apps/worker/src/agents.ts:400-404 | only the handle's activity time and the cache entry's recency change |
| `AgentManager.Manager.StartBoot` | apps/worker/src/agents.ts:405-410 | the first stretch of a boot: the cache is asked, then the boot is recorded as pending |
| `AgentManager.Manager.AskCache` | apps/worker/src/cache.ts:226-246 | a hit touches the entry; a miss starts a download unless one is under way |
| `AgentManager.Manager.ActiveCount` | apps/worker/src/agents.ts:429-435 | counts running and booting hashes, each once |
| `AgentManager.CountOutside` | apps/worker/src/agents.ts:431-433 | how many pending hashes are not running |
| `AgentManager.Manager.CommitDownload` | apps/worker/src/cache.ts:203-211 | records the entry, evicts with running and booting hashes protected |
| `AgentManager.Manager.DownloadSettles` | apps/worker/src/cache.ts:239-245 | the download leaves the map and its boot goes on or fails |
| `AgentManager.Manager.AllocatePort` | apps/worker/src/agents.ts:224-228 | takes the lowest free port, or fails the boot when there is none |
| `AgentManager.Manager.PortBusy` | apps/worker/src/agents.ts:227-231 | burns the probed port and takes the next |
| `AgentManager.Manager.PortFree` | apps/worker/src/agents.ts:241-250 | spawns on the probed port, or gives it back if spawning throws |
| `AgentManager.Manager.Healthy` | apps/worker/src/agents.ts:312-339 | the routing map gains a new ready handle and its exit watch; no other handle changes |
| `AgentManager.Manager.Unhealthy` | apps/worker/src/agents.ts:288-306 | the process is killed; the port is still held |
| `AgentManager.Manager.GiveUp` | apps/worker/src/agents.ts:306-346 | the port goes back and the boot settles |
| `AgentManager.Manager.Settles` | apps/worker/src/agents.ts:407-408 | the settled promise leaves `pending` |
| `AgentManager.Manager.ExitSeen` | apps/worker/src/agents.ts:327-339 | acts only if the exited process is still the agent of its hash |
| `AgentManager.Manager.StopAgent` | apps/worker/src/agents.ts:349-378 | the handle leaves the routing map at once, its count leaves the total, the process is signalled |
| `AgentManager.Manager.StopEscalates` | apps/worker/src/agents.ts:371-375 | a stop that timed out kills |
| `AgentManager.Manager.StopEnds` | apps/worker/src/agents.ts:376-378 | the port goes back when the stop ends |
| `AgentManager.Manager.SweepIdle` | apps/worker/src/agents.ts:382-394 | stops exactly the agents that are ready, count no request and were last used the window or more ago |
| `AgentManager.Manager.StopAllRunning` | apps/worker/src/agents.ts:415-418 | stops every agent in the routing map |
| `AgentManager.Manager.BeginRequest` | apps/worker/src/agents.ts:445-452 | counts a request on a ready agent and in the total, or refuses |
| `AgentManager.Manager.EndRequest` | apps/worker/src/agents.ts:454-463 | uncounts at the hash, clamped at zero, in both places |
| `PortPool.Pool.Create` | apps/worker/src/ports.ts:28-31 | a range is refused exactly when it is empty |
| `PortPool.Pool.Allocate` | apps/worker/src/ports.ts:38-46 | hands out the lowest free port, and fails exactly when every port of the range is taken |
| `PortPool.Pool.Release` | apps/worker/src/ports.ts:47-49 | takes the port out of the taken set |
| `ArtifactCache.EvictionUnique` | apps/worker/src/cache.ts:119-138 | with distinct recencies the LRU conditions leave exactly one result |
| `ArtifactCache.NoEvictionBelowCap` | apps/worker/src/cache.ts:119-121 | what fits is left alone |
| `ArtifactCache.EvictionsNested` | apps/worker/src/cache.ts:119-138 | two results always keep nested sets of entries |
| `ArtifactCache.Cache.EvictIfNeeded` | apps/worker/src/cache.ts:119-138 | afterwards it fits or only active entries are left; nothing active went; what went is no more recent than any inactive entry kept; the last eviction was needed; what stays is unchanged |
| `ArtifactCache.Cache.SortedByRecency` | apps/worker/src/cache.ts:122-124 | each hash once, least recently used first |
| `ArtifactCache.Cache.TotalBytes` | apps/worker/src/cache.ts:107-111 | the sum over all entries |
| `ArtifactCache.Cache.TouchEntry` | apps/worker/src/cache.ts:113-116 | only an existing entry's time changes |
| `ArtifactCache.Cache.CommitDownload` | apps/worker/src/cache.ts:209-210 | the new entry is recorded before the eviction looks at the cache |
| `SessionActivity.Activity.Record` | apps/worker/src/supervisor.ts:113-120 | the record stays: last note of each of the sessions noted last, at most the maximum of them, in the order of those notes |
| `SessionActivity.RecordKeepsTail` | apps/worker/src/supervisor.ts:113-120 | dropping the oldest, deleting and reinserting does to the bounded record what one more note does to the history |
| `SessionActivity.LastNotesAppend` | apps/worker/src/supervisor.ts:118-119 | one more note removes its session's earlier one and goes last |
| `SessionActivity.RecentlyNoted` | apps/worker/src/supervisor.ts:111-120 | a session stays recorded with its latest time until as many others as the maximum have been noted after it |
| `SandboxReaper.SweepOnce` | apps/worker/src/sandbox-reaper.ts:98-125 | asks docker to stop exactly the containers idle at the scan and idle again at their own check, and reports those whose stop succeeded |
| `SandboxReaper.AttemptsAreIdle` | apps/worker/src/sandbox-reaper.ts:103-109 | a container is attempted if and only if it is idle at its own check; each once, in the order of the scan |
| `SandboxReaper.UsedSandboxIsNotAttempted` | apps/worker/src/sandbox-reaper.ts:103-109 | a session resumed between the scan and its check is not attempted, unless too many others have been used since |
| `SandboxReaper.ReportedIfStopped` | apps/worker/src/sandbox-reaper.ts:103-123 | an id is reported if and only if some idle container with it passed the second check and stopped |
| `SandboxReaper.SelectIdle` | apps/worker/src/sandbox-reaper.ts:51-60 | selects all containers idle past the window and only those |
| `SandboxReaper.SelectAppends` | apps/worker/src/sandbox-reaper.ts:51-60 | the selection keeps the order of the containers, each as often as it is listed |
| `SandboxReaper.IdleIff` | apps/worker/src/sandbox-reaper.ts:35-60 | idle if and only if neither the start nor the recorded use lies within the window |
| `SandboxReaper.StartedSandboxIsNotAttempted` | apps/worker/src/sandbox-reaper.ts:35-43 | a container started within the window is not attempted, whatever is recorded |
| `SandboxReaper.UsedSandboxIsKept` | apps/worker/src/supervisor.ts:107-120 | a session used within the window keeps its container unless too many others have been used since |
| `PipelineWalk.WalkIsExact` | packages/shared/src/pipeline-config.ts:481-519 | addresses increase strictly; each leads to its step with its ancestors, slot and lane; every address of the tree is in the walk |
| `PipelineWalk.WalkPathsDistinct` | packages/shared/src/pipeline-config.ts:481-519 | no address is visited twice |
| `PipelineConfig.Walker.Visit` | packages/shared/src/pipeline-config.ts:484-516 | the recursive visitor appends exactly the entries of its list, in order |
| `PipelineConfig.Walker.VisitBranch` | packages/shared/src/pipeline-config.ts:499-514 | lanes first, in order, then the else list |
| `PipelineConfig.RunWalkSteps` | packages/shared/src/pipeline-config.ts:482-519 | the walk of a whole tree |
| `PipelineConfig.FindStep` | packages/shared/src/pipeline-config.ts:522-530 | with repeated ids the first step with the id in document order, and none exactly when no step has it |
| `PipelineConfig.KeptStepsHolds` | packages/shared/src/pipeline-config.ts:556-568 | what the filter keeps |
| `PipelineConfig.StepsBeforeInOrder` | packages/shared/src/pipeline-config.ts:546-568 | lists, in document order and one for each, the entries before the first one with the id that the filter keeps; nothing if there is none |
| `PipelineScope.ScopeSound` | packages/shared/src/pipeline-config.ts:532-569 | in every execution of a tree with distinct ids, when a step starts every output in scope is of a step that `stepsBefore` lists for it |
| `PipelineScope.RunListSound` | packages/shared/src/pipeline-config.ts:271-308 | the same for any list at any place of the tree and any scope it starts with |
| `PipelineScopeExact.ScopeExact` | packages/shared/src/pipeline-config.ts:532-569 | an earlier step's output can be in scope in some execution if and only if `stepsBefore` lists it and no branch puts the two in different lanes |
| `PipelineScopeExact.ListedIsKept` | packages/shared/src/pipeline-config.ts:550-568 | an earlier step is listed if and only if it is no ancestor and every loop around it is around the target |
| `PipelineScopeExact.SiblingLaneListedNeverSeen` | packages/shared/src/pipeline-config.ts:541-544 | a step of an earlier sibling lane is listed though no execution has it in scope |
| `MintStepIdsProofs.MintOnlyRepairs` | packages/shared/src/copilot.ts:215-228 | with the ids read off in document order: if the mints drawn are well-formed, distinct, unseen and not among the ids of the tree, all ids of the result are well-formed, distinct and outside the given set; a first unseen well-formed id is kept; without ids the result is the input |
| `MintStepIdsKept.MintedSteps` | packages/shared/src/copilot.ts:215-272 | step nodes are the objects at the root, at the items of "steps" of a "for_each", at those of "steps" of each lane in "branches" and at those of "else" of a "branch": in the result each has an id of the form `st_` and 16 lower-case letters or digits outside the given set, no two the same, and they stand where those of the value stand |
| `MintStepIdsKept.KeptNode` | packages/shared/src/copilot.ts:230-272 | at every path not within the id of a step node the result has what the value has: the same scalar, an array as long, an object with the same keys in the same order, plus an id at the end of a step node that had none |
| `MintStepIdsKept.FirstIdIsKept` | packages/shared/src/copilot.ts:238-245 | an unseen well-formed id stays at the first step node in document order that has it |
| `MintStepIdsPaths.StepPathsExact` | packages/shared/src/copilot.ts:248-267 | the listing of step nodes, node before lists and list after list, holds exactly the paths of step nodes |
| `MintStepIdsPaths.StepsCarry` | packages/shared/src/copilot.ts:248-267 | the ids of the tree are those at the listed paths, in that order |
| `MintStepIdsProofs.MintRecordsSeen` | packages/shared/src/copilot.ts:246-246 | the seen set gains exactly the ids of the result |
| `MintStepIdsProofs.MintUnchanged` | packages/shared/src/copilot.ts:238-245 | the value is unchanged if and only if its ids were already valid |
| `MintStepIdsProofs.MintedIds` | packages/shared/src/copilot.ts:230-272 | the tree walk repairs the ids in document order |
| `MintStepIdsProofs.MintedErases` | packages/shared/src/copilot.ts:237-269 | the walk changes nothing but ids |
| `MintStepIdsFresh.CountedMintsFresh` | packages/shared/src/copilot.ts:216-228 | counting mints meets that hypothesis for any tree and any seen set that hold none of the counted ids |
| `MintStepIdsFresh.LoopIsRepaired` | packages/shared/src/copilot.ts:230-272 | a loop with one step, neither with an id, and a nonempty seen set: both get well-formed, distinct, unseen ids |
| `MintStepIds.Minter.Visit` | packages/shared/src/copilot.ts:232-270 | the visitor on mutable state computes the specified tree and seen set |
| `MintStepIds.Minter.TakeId` | packages/shared/src/copilot.ts:238-246 | an id is kept or replaced, and then seen |
| `MintStepIds.Minter.VisitLanes` | packages/shared/src/copilot.ts:250-263 | lanes without a step array pass through |
| `MintStepIds.RunMintStepIds` | packages/shared/src/copilot.ts:230-272 | the whole walk from a given seen set |
| `CanonicalJsonProofs.CanonicalTextInjective` | packages/compiler/src/hash.ts:34-59 | two accepted values print one text if and only if they are equal up to key order, undefined fields, undefined items read as null, and the sign of zero |
| `CanonicalJsonProofs.CanonicalTextAccepts` | packages/compiler/src/hash.ts:34-49 | refuses exactly the values with a non-finite number or an unsupported type in a place that is printed |
| `CanonicalJsonProofs.TextPrintsNormalForm` | packages/compiler/src/hash.ts:50-58 | the text is the print of the normal form |
| `JsonReaderProofs.CanonicalTextReads` | packages/compiler/src/hash.ts:26-59 | a reader of JSON texts (RFC 8259, sections 2 to 7) reads the canonical text back as the value, up to key order, undefined and the sign of zero, with the keys of every object in code-unit order |
| `JsonReaderProofs.ValueRead` | packages/compiler/src/hash.ts:34-59 | the same for a value within a text, whatever may follow it |
| `JsText.LessIsCodeUnitOrder` | packages/compiler/src/hash.ts:54-55 | one key sorts before another if and only if, where they first differ, it ends or has the smaller code unit |
| `CanonicalJsonProofs.PrintInjective` | packages/compiler/src/hash.ts:50-58 | a printed value followed by anything that cannot continue it determines value and rest |
| `CanonicalJsonProofs.NormalFormsAgree` | packages/compiler/src/hash.ts:28-33 | normal forms are equal exactly for equivalent values |
| `CanonicalJsonUtf8.CanonicalTextWellFormed` | packages/compiler/src/hash.ts:111-111 | the canonical text has a UTF-8 form whatever strings the value holds |
| `JsonQuote.QuoteInjective` | packages/compiler/src/hash.ts:39-39 | a string token (RFC 8259, section 7) determines its string and what follows it |
| `JsonQuote.QuoteForm` | packages/compiler/src/hash.ts:39-39 | a string is written as it is where RFC 8259 allows that, else with the two-unit escape if there is one, else with a lower-case six-unit escape |
| `JsonQuote.QuoteWellFormed` | packages/compiler/src/hash.ts:39-39 | a string token has no half of a surrogate pair |
| `JsonNumber.NumberTextInjective` | packages/compiler/src/hash.ts:44-44 | two finite numbers print alike exactly when equal, reading -0 as 0 |
| `JsonNumber.NumberForm` | packages/compiler/src/hash.ts:44-44 | how a number is written (ECMA-262, Number::toString): an exponent exactly from 10^21 on and below 10^-6, a point exactly if digits follow it, and no digit more than that takes |
| `JsonNumber.NumberTextUnits` | packages/compiler/src/hash.ts:44-44 | a number token consists of number units only, so any other unit ends it |
| `AgentHash.HashTextDeterminesInputs` | packages/compiler/src/hash.ts:66-111 | for distinct slugs, equal texts if and only if agent id, slugs, model, versions, epoch, compiler version, dev flag, definition and resolved entries agree up to key and list order |
| `AgentHashReads.HashTextReads` | packages/compiler/src/hash.ts:66-111 | read as JSON the text is the compile input under the names of the source, with connections and skills in code-unit order of their slugs |
| `AgentHash.HashTextDeterminesFrame` | packages/compiler/src/hash.ts:61-111 | whatever the slugs, equal texts if and only if all of these agree and the entry lists agree item by item in sorted order |
| `AgentHash.DistinctAgentsNeverCollide` | packages/compiler/src/hash.ts:79-86 | two agents with different ids never share a text, whatever their connections and skills |
| `AgentHash.HashTextOrderIndependent` | packages/compiler/src/hash.ts:96-103 | permuting the resolved entries changes nothing |
| `Sorting.SortOrderIndependent` | packages/compiler/src/hash.ts:98-103 | sorting permutations of one list with distinct keys gives one result |
| `Sorting.SortIsCodeUnitOrder` | packages/compiler/src/hash.ts:98-103 | with distinct keys the result is the input in code-unit order |
| `Compile.JoinAccepts` | packages/compiler/src/compile.ts:130-167 | a join is accepted if and only if referenced and resolved ids coincide and the slugs are well-formed and distinct |
| `Compile.ValidateJoin` | packages/compiler/src/compile.ts:130-167 | the loops report the first error in the order the source checks |
| `Compile.AcceptedSlugsDistinct` | packages/compiler/src/compile.ts:155-166 | accepted inputs have distinct slugs, which is what gives the sort one result |
| `Compile.CompileAgent` | packages/compiler/src/compile.ts:352-423 | the compiler's steps compute the outcome that the rows below describe |
| `CompiledFiles.CompiledFilesAre` | packages/compiler/src/compile.ts:374-423 | of an accepted input: the hash is the SHA-256 of the canonical text; at each path stands the last skill file emitted for it, else the connection emitted for it, else what the compiler writes there itself (package.json, tsconfig.json, agent.ts, instructions.md, platform-auth.ts with that hash and the dev flag, env.ts if a connection needs it, platform-token.ts if one uses oauth, eve.ts); no other path is there |
| `CompiledFiles.CompileAccepts` | packages/compiler/src/compile.ts:352-390 | accepted if and only if the definition parses, header, connection and skill checks pass, both joins hold, all references resolve and the input has a canonical text |
| `CompileRefusals.RefusedForFirst` | packages/compiler/src/compile.ts:356-390 | the error is that of the first failing check in the order of the source, for the first entry that fails it |
| `CompileRefusals.JoinReportsFirst` | packages/compiler/src/compile.ts:130-167 | the first id without an entry, else the first entry that is not referenced, else the first malformed or repeated slug |
| `Compile.CompileOrderIndependent` | packages/compiler/src/compile.ts:374-423 | permuting connections or skills never changes acceptance, nor, on acceptance, the files or the hash |
| `SpanRewrite.RewriteBackwards` | packages/shared/src/render.ts:88-105 | rewriting from the end gives what one pass from the left gives: gaps as they are, each span replaced, skipped kinds verbatim |
| `SpanRewrite.RewriteOne` | packages/compiler/src/instructions.ts:87-97 | replacing one span leaves the text right up to the span before it |
| `SpanRewrite.SkippedLeavesText` | packages/shared/src/render.ts:88-102 | references that are all skipped leave the text as it was |
| `SpanRewrite.ValidatePersona` | packages/compiler/src/instructions.ts:45-85 | accepts if and only if every reference resolves, else reports the first that does not |
| `StepPreview.PreviewIsLongestPrefix` | packages/shared/src/pipeline-events.ts:152-167 | of an over-long text the preview is the longest prefix of whole characters within 2048 bytes of UTF-8 (RFC 3629, section 3), less trailing U+FFFD; before that it has at least 2045 bytes |
| `StepPreview.PreviewFits` | packages/shared/src/pipeline-events.ts:152-167 | the preview is a prefix, fits the cap, and is the text itself when that fits; there is none exactly when there is no text |
| `StepPreview.DecodeOfCut` | packages/shared/src/pipeline-events.ts:160-165 | decoding a cut text gives its whole characters and one U+FFFD if the cut fell inside one |
| `StepPreview.StripsOnlyReplacements` | packages/shared/src/pipeline-events.ts:165-166 | stripping removes trailing U+FFFD and nothing else |
| `StepPreview.DecodeEncode` | packages/shared/src/pipeline-events.ts:160-164 | decoding undoes encoding |
| `Changelog.RoundTrip` | scripts/release/decide.ts:56-76 | for any changelog text and any section, what is inserted is what is read back |
| `Changelog.TrimIsExact` | scripts/release/decide.ts:73-73 | trimming takes white space off both ends, all of it and nothing else |
| `Changelog.OlderUnchanged` | scripts/release/changelog.ts:55-70 | in any changelog, also an empty one or one with a preamble only, the new section goes right after the preamble, and preamble and older releases stay as they were |
| `Changelog.RepeatedInserts` | scripts/release/changelog.ts:55-70 | from any changelog, any number of inserts read newest first, between the preamble and the older releases |
| `Changelog.FirstIsLeast` | scripts/release/changelog.ts:58-62 | the offset is that of the first line that begins a release, and is found exactly when there is one |
| `ReleaseNotes.RenderedIsSection` | scripts/release/changelog.ts:42-53 | a section rendered from single-line entries has one heading line and no other line that looks like one |
| `ReleaseNotes.RenderedRoundTrip` | scripts/release/changelog.ts:42-70 | rendering, inserting and extracting gives the heading and the trimmed body |
| `ReleaseNotes.PrintedOnce` | scripts/release/changelog.ts:47-50 | the printed lines of a section are the line of each entry exactly once, a title per class that has entries, and a blank line between classes; nothing else |
| `ReleaseNotes.PrintedUnderHeadings` | scripts/release/changelog.ts:17-53 | breaking changes, then features, then fixes: each under its heading, an entry under the one that its marker and bumps give it |
| `ReleaseNotes.LineIs` | scripts/release/changelog.ts:28-40 | a line names the packages without the repository's scope, in order, then the summary without the marker |
| `ReleaseNotes.EachLineOnce` | scripts/release/changelog.ts:47-50 | the lines of the three classes together are the lines of the entries, each as often as it occurs |
| `ReleaseNotes.BlockOf` | scripts/release/changelog.ts:47-53 | each class with entries is printed as one block set off by blank lines: its title, then the lines of its entries in their order |
| `ReleaseNotes.OnlyItsClass` | scripts/release/changelog.ts:20-26 | a block holds exactly the entries of its class |
| `ReleaseNotes.SummaryOnOneLine` | scripts/release/changesets.ts:50-50 | a parsed summary has no line feed |
| `LinePrefixer.ChunksDoNotMatter` | scripts/dev/stream.ts:15-37 | however a text is cut, pushes and the flush give the formatted lines of the whole text |
| `LinePrefixer.SplitIsExact` | scripts/dev/stream.ts:26-26 | the lines joined by line feeds are the text, and none holds one |
| `LinePrefixer.FormattedAt` | scripts/dev/stream.ts:22-24 | a line comes out after the prefix, without one carriage return at its end |
| `LinePrefixer.Prefixer.Push` | scripts/dev/stream.ts:25-29 | complete lines come out, the rest is held back; what came out and what is held back are those of all chunks pushed so far |
| `LinePrefixer.Prefixer.Flush` | scripts/dev/stream.ts:30-35 | the held-back rest comes out once; with it, all that came out since the last flush is the formatted lines of the whole text, however it was cut |

## Left out

- I/O is not modelled: downloads, spawning, signals, health checks, timers, docker and HTTP are steps or parameters whose outcome is free; clocks are parameters, one value a stretch.
- SHA-256, token cryptography and request authentication: claims are about the text that is hashed; an accepted request is one step.
- The generators, the definition schema, header and connection field checks, and instruction rendering inside compile are opaque functions of the sorted inputs (`Compile.Toolchain`); the reference parser is represented by the sorted, disjoint spans it returns.
- The pipeline runner is not part of this model; executions follow the semantics written at `packages/shared/src/pipeline-config.ts:271-308` and `:532-545`, with conditions, item counts and failures free.
- JavaScript values are JSON-shaped trees with undefined and non-finite numbers; sparse arrays, `toJSON`, class instances and cycles are not. A number is its shortest decimal form, so the conversion from binary is taken as given.
- JavaScript's property order is the order of a field list; integer-like keys, which come first in an object, are not singled out.
- `ArtifactCache.Cache.SortedByRecency`: leaves the order of entries with equal times open, because the map does not keep insertion order.
- `AgentHash.HashTextDeterminesFrame`: takes the sort to keep the order of entries with equal slugs; the comparator of the source never answers 0, which leaves that order to the engine. Accepted joins have no equal slugs (`Compile.AcceptedSlugsDistinct`).
- The boot scan of the cache directory, disk errors during eviction and artifact extraction; a cache entry whose files are gone is the `onDisk` flag.
- `WorkerModel`: a wait that ends by timeout is a step that is always possible, so no claim depends on time passing.
- Stopping one agent is a step of the model at any time, so the for-all claims cover it; the worker itself stops agents only all together or in the idle sweep, and the runs in `WorkerFindings` use only those.
- `Fencing.FencedBeforeRegister`: is about one start of the loop; stopping and starting it again while a tick is in flight gives two loops.
- The heartbeat sent by `beginDrain` changes no state of the loop and is not a step.
- `SpanRewrite.RewriteBackwards`: the blocks around the rewritten text (connection and skill lists, trigger context lines) and path lookup in trigger data are easy folds and not modelled.
- `StepPreview.PreviewIsLongestPrefix`: the decoder's byte order mark rule is left out; a JSON text never begins with U+FEFF.
- `ReleaseNotes.RenderedRoundTrip`: asks for single-line summaries, names, version and date, which is what the changeset parser delivers (`ReleaseNotes.SummaryOnOneLine`).
- `PipelineScopeExact.ScopeExact`: asks that every loop may run at least one item.
- Hash and path syntax checks and error responses of the HTTP server: an ensure with an invalid body is one step, a refused request none.
- The dispatch-token replay guard, status bodies, environment assembly, logging, metrics, configuration parsing, the control plane and all user interface code.
