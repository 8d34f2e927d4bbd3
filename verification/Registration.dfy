/** The register-then-heartbeat loop of a worker, one stretch of `tick` at a time. */
module Registration {

  datatype Option<T> = None | Some(value: T)

  datatype Mode = SharedSecret | WorkerToken

  datatype Credential = Bootstrap | Session(token: string)

  /** What a request comes back with; `workerToken` is the non-empty string of that name in the body, if any. */
  datatype Response = Failed | Answered(status: int, workerToken: Option<string>)

  datatype Request = Register | Heartbeat

  datatype Reg = Reg(
    started: bool,
    stopped: bool,
    registered: bool,
    failures: nat,
    token: Option<string>,
    timer: Option<int>)

  const BACKOFF_CAP_MS := 60_000

  function Pow2(n: nat): (p: int)
    ensures p >= 1
  {
    if n == 0 then 1 else 2 * Pow2(n - 1)
  }

  function Min(a: int, b: int): int {
    if a < b then a else b
  }

  function Delay(interval: int, failures: nat): int {
    if failures == 0 then interval else Min(interval * Pow2(Min(failures, 5)), BACKOFF_CAP_MS)
  }

  function ScheduleNext(interval: int, r: Reg): Reg {
    if r.stopped then r else r.(timer := Some(Delay(interval, r.failures)))
  }

  function Captured(mode: Mode, r: Reg, workerToken: Option<string>): Reg {
    if mode == WorkerToken && workerToken.Some? then r.(token := workerToken) else r
  }

  function AuthHeaders(mode: Mode, r: Reg, useToken: bool): Credential {
    if useToken && mode == WorkerToken && r.token.Some? then Session(r.token.value) else Bootstrap
  }

  /** The timer has fired. */
  function TickStarts(r: Reg): Reg {
    r.(timer := None)
  }

  function NextRequest(r: Reg): Request {
    if r.registered then Heartbeat else Register
  }

  function RequestCredential(mode: Mode, r: Reg): Credential {
    AuthHeaders(mode, r, r.registered)
  }

  function Succeeded(interval: int, r: Reg): Reg {
    ScheduleNext(interval, r.(failures := 0))
  }

  function FailedOnce(interval: int, r: Reg): Reg {
    ScheduleNext(interval, r.(failures := r.failures + 1))
  }

  predicate IsOk(response: Response) {
    response.Answered? && 200 <= response.status < 300
  }

  predicate IsFenced(response: Response) {
    response.Answered? && response.status == 404
  }

  predicate IsRejected(response: Response) {
    response.Answered? && (response.status == 401 || response.status == 403)
  }

  function Registered(mode: Mode, interval: int, r: Reg, response: Response): Reg {
    if IsOk(response) then Succeeded(interval, Captured(mode, r, response.workerToken).(registered := true))
    else FailedOnce(interval, r)
  }

  function Forgotten(r: Reg): Reg {
    r.(registered := false, token := None)
  }

  /** A fenced worker schedules nothing yet: its agents are stopped first, see `FenceEnds`. */
  function HeartbeatAnswered(mode: Mode, interval: int, r: Reg, response: Response): Reg {
    if IsFenced(response) then Forgotten(r)
    else if IsRejected(response) then Succeeded(interval, Forgotten(r))
    else if IsOk(response) then Succeeded(interval, Captured(mode, r, response.workerToken))
    else FailedOnce(interval, r)
  }

  function FenceEnds(interval: int, r: Reg): Reg {
    Succeeded(interval, r)
  }

  function Stopped(r: Reg): Reg {
    r.(stopped := true, started := false, timer := None)
  }

  function Fresh(): Reg {
    Reg(false, false, false, 0, None, None)
  }

  // ---- properties

  lemma {:induction false} Pow2Grows(m: nat, n: nat)
    requires m <= n
    ensures Pow2(m) <= Pow2(n)
    decreases n
  {
    if m < n {
      Pow2Grows(m, n - 1);
    }
  }

  lemma TimesGrows(interval: int, a: int, b: int)
    requires interval >= 0 && a <= b
    ensures interval * a <= interval * b
  {}

  /** Each further failure waits at least as long as the one before, and none longer than the cap. */
  lemma BackoffGrows(interval: nat, failures: nat, more: nat)
    requires 0 < failures <= more
    ensures Delay(interval, failures) <= Delay(interval, more) <= BACKOFF_CAP_MS
  {
    Pow2Grows(Min(failures, 5), Min(more, 5));
    TimesGrows(interval, Pow2(Min(failures, 5)), Pow2(Min(more, 5)));
  }

  /**
   * A loop that has not failed waits the interval; the first failure doubles that and each of the next
   * four doubles it again, up to a minute; further failures change nothing.
   */
  lemma BackoffDoubles(interval: nat, failures: nat)
    ensures Delay(interval, 0) == interval
    ensures Delay(interval, 1) == Min(2 * interval, 60_000)
    ensures 1 <= failures < 5 ==> Delay(interval, failures + 1) == Min(2 * Delay(interval, failures), 60_000)
    ensures failures >= 5 ==> Delay(interval, failures) == Delay(interval, 5)
  {
    assert Pow2(1) == 2 * Pow2(0);
    if 1 <= failures < 5 {
      DoubleTimes(interval, Pow2(failures));
      assert Pow2(failures + 1) == 2 * Pow2(failures);
    }
  }

  lemma DoubleTimes(interval: int, p: int)
    ensures interval * (2 * p) == 2 * (interval * p)
  {}

  /** Failing waits no shorter than succeeding, unless the interval itself is above the cap. */
  lemma BackoffSlowsDown(interval: nat, failures: nat)
    requires failures > 0
    ensures Delay(interval, failures) >= interval <==> interval <= BACKOFF_CAP_MS
  {
    TimesGrows(interval, 1, Pow2(Min(failures, 5)));
  }

  /** A session token is held only in the mode that issues them. */
  predicate TokenFits(mode: Mode, r: Reg) {
    r.token.Some? ==> mode == WorkerToken
  }

  /** Registering never presents a session token, and a heartbeat presents exactly the one held. */
  lemma Credentials(mode: Mode, r: Reg)
    requires TokenFits(mode, r)
    ensures NextRequest(r) == Register ==> RequestCredential(mode, r) == Bootstrap
    ensures NextRequest(r) == Heartbeat ==>
              RequestCredential(mode, r) == if r.token.Some? then Session(r.token.value) else Bootstrap
  {}

  /** No answer makes the loop hold a token it should not have, and 404, 401 and 403 make it drop its own. */
  lemma AnswersKeepTokenFit(mode: Mode, interval: int, r: Reg, response: Response)
    requires TokenFits(mode, r)
    ensures TokenFits(mode, Registered(mode, interval, r, response))
    ensures TokenFits(mode, HeartbeatAnswered(mode, interval, r, response))
    ensures r.registered ==>
              (IsFenced(response) || IsRejected(response) <==>
               !HeartbeatAnswered(mode, interval, r, response).registered)
    ensures IsFenced(response) || IsRejected(response) ==> HeartbeatAnswered(mode, interval, r, response).token == None
  {}

  /** The token after an answer: the one it brings, in worker-token mode, else the one held. */
  function TokenAfter(mode: Mode, r: Reg, brought: Option<string>): Option<string> {
    if mode == WorkerToken && brought.Some? then brought else r.token
  }

  /** A register request that is answered with 200 to 299 registers; any other end of it is a failure. */
  lemma RegisterAnswers(mode: Mode, interval: int, r: Reg, response: Response)
    ensures var t := Registered(mode, interval, r, response);
            && (if response.Answered? && 200 <= response.status < 300 then
                  t.registered && t.failures == 0 && t.token == TokenAfter(mode, r, response.workerToken)
                else
                  t.registered == r.registered && t.failures == r.failures + 1 && t.token == r.token)
            && t.timer == (if r.stopped then r.timer else Some(Delay(interval, t.failures)))
            && t.started == r.started && t.stopped == r.stopped
  {}

  /**
   * A heartbeat: 404 unregisters and leaves the rest to the fence, 401 and 403 unregister and go on at
   * once, 200 to 299 may renew the token, and any other end is a failure.
   */
  lemma HeartbeatAnswers(mode: Mode, interval: int, r: Reg, response: Response)
    ensures var t := HeartbeatAnswered(mode, interval, r, response);
            && (if response.Answered? && response.status == 404 then
                  !t.registered && t.token == None && t.failures == r.failures && t.timer == r.timer
                else if response.Answered? && (response.status == 401 || response.status == 403) then
                  !t.registered && t.token == None && t.failures == 0
                else if response.Answered? && 200 <= response.status < 300 then
                  && t.registered == r.registered && t.failures == 0
                  && t.token == TokenAfter(mode, r, response.workerToken)
                else
                  t.registered == r.registered && t.failures == r.failures + 1 && t.token == r.token)
            && (!(response.Answered? && response.status == 404) ==>
                  t.timer == if r.stopped then r.timer else Some(Delay(interval, t.failures)))
            && t.started == r.started && t.stopped == r.stopped
  {}

  /**
   * What holds between two stretches of the loop: a token only in worker-token mode, no tick
   * scheduled once stopped, and a scheduled one after the delay that the failures so far call for.
   */
  predicate Consistent(mode: Mode, interval: int, r: Reg) {
    && TokenFits(mode, r)
    && !(r.started && r.stopped)
    && (r.stopped ==> r.timer == None)
    && (r.timer.Some? ==> r.timer.value == Delay(interval, r.failures))
  }

  class Loop {
    const mode: Mode
    const interval: int
    var started: bool
    var stopped: bool
    var registered: bool
    var failures: nat
    var token: Option<string>
    var timer: Option<int>

    function State(): Reg
      reads this
    {
      Reg(started, stopped, registered, failures, token, timer)
    }

    ghost predicate Valid()
      reads this
    {
      Consistent(mode, interval, State())
    }

    constructor (mode: Mode, interval: int)
      ensures Valid() && State() == Fresh() && this.mode == mode && this.interval == interval
    {
      this.mode, this.interval := mode, interval;
      started, stopped, registered, failures, token, timer := false, false, false, 0, None, None;
    }

    method Schedule()
      modifies this
      ensures State() == ScheduleNext(interval, old(State()))
    {
      if stopped {
        return;
      }
      timer := Some(Delay(interval, failures));
    }

    method Capture(workerToken: Option<string>)
      modifies this
      ensures State() == Captured(mode, old(State()), workerToken)
    {
      if mode == WorkerToken && workerToken.Some? {
        token := workerToken;
      }
    }

    /** Registering never presents a session token, and a heartbeat presents exactly the one held. */
    method StartTick() returns (request: Request, credential: Credential)
      requires Valid()
      modifies this
      ensures Valid() && State() == old(State()).(timer := None)
      ensures request == Register <==> !registered
      ensures request == Register ==> credential == Bootstrap
      ensures request == Heartbeat ==> credential == if token.Some? then Session(token.value) else Bootstrap
    {
      timer := None;
      request := if registered then Heartbeat else Register;
      credential := AuthHeaders(mode, State(), registered);
    }

    method RegisterAnswered(response: Response)
      requires Valid()
      modifies this
      ensures Valid() && State() == Registered(mode, interval, old(State()), response)
    {
      if response.Answered? && 200 <= response.status < 300 {
        Capture(response.workerToken);
        registered := true;
        failures := 0;
      } else {
        failures := failures + 1;
      }
      Schedule();
    }

    /**
     * Answers whether the agents have to be stopped before the loop goes on. Only then is nothing
     * scheduled, and only a 404, 401 or 403 gives up the registration, always with its token.
     */
    method HeartbeatDone(response: Response) returns (fenced: bool)
      requires Valid()
      modifies this
      ensures Valid() && State() == HeartbeatAnswered(mode, interval, old(State()), response)
      ensures fenced <==> IsFenced(response)
      ensures fenced ==> timer == old(timer) && failures == old(failures)
      ensures !fenced && !stopped ==> timer == Some(Delay(interval, failures))
      ensures IsFenced(response) || IsRejected(response) ==> !registered && token == None
      ensures !IsFenced(response) && !IsRejected(response) ==> registered == old(registered)
      ensures failures > old(failures) <==> !IsFenced(response) && !IsRejected(response) && !IsOk(response)
    {
      fenced := false;
      if response.Answered? && response.status == 404 {
        registered := false;
        token := None;
        return true;
      }
      if response.Answered? && (response.status == 401 || response.status == 403) {
        registered := false;
        token := None;
        failures := 0;
      } else if response.Answered? && 200 <= response.status < 300 {
        Capture(response.workerToken);
        failures := 0;
      } else {
        failures := failures + 1;
      }
      Schedule();
    }

    method FenceDone()
      requires Valid()
      modifies this
      ensures Valid() && State() == FenceEnds(interval, old(State()))
    {
      failures := 0;
      Schedule();
    }

    /** Answers whether a first tick is to run now; a started loop is left alone. */
    method Start() returns (tick: bool)
      requires Valid()
      modifies this
      ensures Valid()
      ensures tick <==> !old(started)
      ensures State() == if tick then old(State()).(started := true, stopped := false) else old(State())
    {
      if started {
        return false;
      }
      started, stopped := true, false;
      return true;
    }

    method Stop()
      requires Valid()
      modifies this
      ensures Valid() && State() == Stopped(old(State()))
    {
      stopped, started := true, false;
      timer := None;
    }

    method Deregistered()
      requires Valid()
      modifies this
      ensures Valid() && State() == Forgotten(old(State()))
    {
      registered := false;
      token := None;
    }
  }
}
