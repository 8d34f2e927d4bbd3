/** The sandbox sweep: it stops idle containers, looking at the recorded activity twice. */
module SandboxReaper {
  import opened SessionActivity

  datatype Container = Container(id: string, session: string, startedAt: int)

  /** What `activityOf` answers at one moment. */
  type Recorded = map<string, int>

  function Max(a: int, b: int): int {
    if a > b then a else b
  }

  function EffectiveLastActivity(c: Container, recorded: Recorded): int {
    if c.session in recorded then Max(c.startedAt, recorded[c.session]) else c.startedAt
  }

  predicate IsIdle(c: Container, now: int, idleStopMs: int, recorded: Recorded) {
    now - EffectiveLastActivity(c, recorded) >= idleStopMs
  }

  function SelectIdle(containers: seq<Container>, now: int, idleStopMs: int, recorded: Recorded): (r: seq<Container>)
    ensures forall c <- r :: c in containers && IsIdle(c, now, idleStopMs, recorded)
    ensures forall c <- containers :: IsIdle(c, now, idleStopMs, recorded) ==> c in r
  {
    if containers == [] then []
    else (if IsIdle(containers[0], now, idleStopMs, recorded) then [containers[0]] else []) +
         SelectIdle(containers[1..], now, idleStopMs, recorded)
  }

  /**
   * One sweep. `atScan` is what is recorded when the containers have been listed, `atCheck(k)` what
   * is recorded when the k-th idle one comes up, and `stops(k)` whether stopping it succeeds.
   * `attempts` are the positions, among the idle ones, of the containers that docker is asked to stop.
   */
  method SweepOnce(containers: seq<Container>, now: int, idleStopMs: int,
                   atScan: Recorded, atCheck: nat -> Recorded, stops: nat -> bool)
    returns (scanned: nat, stopped: seq<string>, attempts: seq<nat>)
    ensures scanned == |containers|
    ensures var idle := SelectIdle(containers, now, idleStopMs, atScan);
            && attempts == Attempts(idle, |idle|, now, idleStopMs, atCheck)
            && stopped == StoppedIds(idle, |idle|, now, idleStopMs, atCheck, stops)
  {
    scanned := |containers|;
    var idle := SelectIdle(containers, now, idleStopMs, atScan);
    stopped, attempts := [], [];
    var k := 0;
    while k < |idle|
      invariant 0 <= k <= |idle|
      invariant attempts == Attempts(idle, k, now, idleStopMs, atCheck)
      invariant stopped == StoppedIds(idle, k, now, idleStopMs, atCheck, stops)
    {
      var lastActivity := EffectiveLastActivity(idle[k], atCheck(k));
      if now - lastActivity >= idleStopMs {
        attempts := attempts + [k];
        if stops(k) {
          stopped := stopped + [idle[k].id];
        }
      }
      k := k + 1;
    }
  }

  /** The positions of those of the first `n` that are still idle at their check. */
  function Attempts(idle: seq<Container>, n: nat, now: int, idleStopMs: int, atCheck: nat -> Recorded): seq<nat>
    requires n <= |idle|
  {
    if n == 0 then []
    else Attempts(idle, n - 1, now, idleStopMs, atCheck) +
         if IsIdle(idle[n - 1], now, idleStopMs, atCheck(n - 1)) then [n - 1] else []
  }

  /** Exactly the ones still idle at their own check are attempted, once each and in order. */
  lemma {:induction false} AttemptsAreIdle(
    idle: seq<Container>, n: nat, now: int, idleStopMs: int, atCheck: nat -> Recorded)
    requires n <= |idle|
    ensures var attempts := Attempts(idle, n, now, idleStopMs, atCheck);
            && (forall k :: k in attempts <==> 0 <= k < n && IsIdle(idle[k], now, idleStopMs, atCheck(k)))
            && (forall i, j :: 0 <= i < j < |attempts| ==> attempts[i] < attempts[j])
  {
    if n > 0 {
      AttemptsAreIdle(idle, n - 1, now, idleStopMs, atCheck);
      var before := Attempts(idle, n - 1, now, idleStopMs, atCheck);
      assert forall i :: 0 <= i < |before| ==> before[i] in before;
    }
  }

  /** The ids of those of the first `n` that are still idle at their check and could be stopped. */
  function StoppedIds(
    idle: seq<Container>, n: nat, now: int, idleStopMs: int, atCheck: nat -> Recorded, stops: nat -> bool): seq<string>
    requires n <= |idle|
  {
    if n == 0 then []
    else StoppedIds(idle, n - 1, now, idleStopMs, atCheck, stops) +
         if IsIdle(idle[n - 1], now, idleStopMs, atCheck(n - 1)) && stops(n - 1) then [idle[n - 1].id] else []
  }

  /** The k-th idle container carries `id`, is idle at its check, and its stop succeeds. */
  predicate StoppedAt(
    idle: seq<Container>, k: nat, id: string, now: int, idleStopMs: int, atCheck: nat -> Recorded, stops: nat -> bool)
  {
    k < |idle| && idle[k].id == id && IsIdle(idle[k], now, idleStopMs, atCheck(k)) && stops(k)
  }

  /** An id is reported if and only if a container with it was idle at its check and the stop succeeded. */
  lemma {:induction false} ReportedIfStopped(
    idle: seq<Container>, id: string, n: nat, now: int, idleStopMs: int, atCheck: nat -> Recorded, stops: nat -> bool)
    requires n <= |idle|
    ensures id in StoppedIds(idle, n, now, idleStopMs, atCheck, stops) <==>
            exists k: nat :: k < n && StoppedAt(idle, k, id, now, idleStopMs, atCheck, stops)
  {
    if n > 0 {
      ReportedIfStopped(idle, id, n - 1, now, idleStopMs, atCheck, stops);
      if StoppedAt(idle, n - 1, id, now, idleStopMs, atCheck, stops) {
        assert id in [idle[n - 1].id];
      }
    }
  }

  /** `activityOf` looks sessions up in the record. */
  ghost predicate Agrees(recorded: Recorded, entries: seq<Note>) {
    && (forall n <- entries :: n.session in recorded && recorded[n.session] == n.at)
    && (forall s <- recorded.Keys :: Has(entries, s))
  }

  /**
   * A session that was used within the idle window keeps its container, as long as fewer than the
   * record's size of other sessions have been used since.
   */
  lemma UsedSandboxIsKept(
    c: Container, history: seq<Note>, i: nat, max: nat, now: int, idleStopMs: int, recorded: Recorded)
    requires i < |history| && history[i].session == c.session && !Has(history[i + 1..], c.session)
    requires |LastNotes(history[i + 1..])| < max && now - history[i].at < idleStopMs
    requires Agrees(recorded, Tail(LastNotes(history), max))
    ensures !IsIdle(c, now, idleStopMs, recorded)
  {
    RecentlyNoted(history, i, max);
  }

  /** So a sweep does not even try to stop it. */
  lemma UsedSandboxIsNotAttempted(
    idle: seq<Container>, k: nat, now: int, idleStopMs: int, atCheck: nat -> Recorded,
    history: seq<Note>, i: nat, max: nat)
    requires k < |idle|
    requires i < |history| && history[i].session == idle[k].session && !Has(history[i + 1..], idle[k].session)
    requires |LastNotes(history[i + 1..])| < max && now - history[i].at < idleStopMs
    requires Agrees(atCheck(k), Tail(LastNotes(history), max))
    ensures k !in Attempts(idle, |idle|, now, idleStopMs, atCheck)
  {
    AttemptsAreIdle(idle, |idle|, now, idleStopMs, atCheck);
    UsedSandboxIsKept(idle[k], history, i, max, now, idleStopMs, atCheck(k));
  }

  /** Nor to stop a container that was started within the window, whatever is recorded of its session. */
  lemma StartedSandboxIsNotAttempted(
    idle: seq<Container>, k: nat, now: int, idleStopMs: int, atCheck: nat -> Recorded)
    requires k < |idle| && now - idle[k].startedAt < idleStopMs
    ensures k !in Attempts(idle, |idle|, now, idleStopMs, atCheck)
  {
    AttemptsAreIdle(idle, |idle|, now, idleStopMs, atCheck);
  }

  /**
   * A container is idle if and only if neither its start nor what is recorded of its session lies within
   * the window.
   */
  lemma IdleIff(c: Container, now: int, idleStopMs: int, recorded: Recorded)
    ensures IsIdle(c, now, idleStopMs, recorded) <==>
            && now - c.startedAt >= idleStopMs
            && (c.session in recorded ==> now - recorded[c.session] >= idleStopMs)
  {}

  /** The selection keeps the order of the containers, and each as often as it is listed. */
  lemma {:induction false} SelectAppends(
    containers: seq<Container>, c: Container, now: int, idleStopMs: int, recorded: Recorded)
    ensures SelectIdle(containers + [c], now, idleStopMs, recorded) ==
            SelectIdle(containers, now, idleStopMs, recorded) +
            if IsIdle(c, now, idleStopMs, recorded) then [c] else []
  {
    if containers == [] {
      assert [c][1..] == [] && [] + [c] == [c];
    } else {
      SelectAppends(containers[1..], c, now, idleStopMs, recorded);
      SelectCons(containers[0], containers[1..] + [c], now, idleStopMs, recorded);
      assert containers + [c] == [containers[0]] + (containers[1..] + [c]);
      Regroup(if IsIdle(containers[0], now, idleStopMs, recorded) then [containers[0]] else [],
              SelectIdle(containers[1..], now, idleStopMs, recorded),
              if IsIdle(c, now, idleStopMs, recorded) then [c] else []);
    }
  }

  lemma Regroup(a: seq<Container>, b: seq<Container>, c: seq<Container>)
    ensures (a + b) + c == a + (b + c)
  {}

  lemma SelectCons(first: Container, rest: seq<Container>, now: int, idleStopMs: int, recorded: Recorded)
    ensures SelectIdle([first] + rest, now, idleStopMs, recorded) ==
            (if IsIdle(first, now, idleStopMs, recorded) then [first] else []) +
            SelectIdle(rest, now, idleStopMs, recorded)
  {
    assert ([first] + rest)[1..] == rest;
  }
}
