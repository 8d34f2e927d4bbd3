/** A fence stops what it found; what is ensured before the next register request keeps running. */
module FencingFindings {
  import opened ArtifactCache
  import opened WorkerModel
  import opened WorkerFindings
  import opened WorkerInflight
  import opened Fencing
  import R = Registration

  ghost predicate Leads(u: Setup, start: Node, events: seq<Event>, n: Node) {
    CanPlay(u, start, events) && Played(u, start, events) == n
  }

  lemma Continue(u: Setup, start: Node, events: seq<Event>, n: Node, e: Event)
    requires Leads(u, start, events, n) && Allowed(u, n, e)
    ensures Leads(u, start, events + [e], Perform(u, n, e))
  {
    assert (events + [e])[..|events|] == events;
  }

  /** The worker's own runs are runs of the node. */
  lemma {:induction false} WorkerRuns(u: Setup, start: Node, events: seq<Event>, n: Node, steps: seq<Step>, t: Worker)
    returns (more: seq<Event>)
    requires Leads(u, start, events, n) && Reaches(u.worker, n.worker, steps, t)
    ensures Leads(u, start, more, n.(worker := t))
  {
    if steps == [] {
      more := events;
    } else {
      var prefix := steps[..|steps| - 1];
      var mid := After(u.worker, n.worker, prefix);
      more := WorkerRuns(u, start, events, n, prefix, mid);
      Continue(u, start, more, n.(worker := mid), Works(steps[|steps| - 1]));
      more := more + [Works(steps[|steps| - 1])];
    }
  }

  const OK := R.Answered(200, R.None)

  const NOT_FOUND := R.Answered(404, R.None)

  lemma Heartbeats(u: Setup, found: Entries) returns (events: seq<Event>, n: Node)
    ensures Leads(u, NewNode(found), events, n)
    ensures n.phase.Heartbeating? && n.worker == Initial(found) && !n.reg.stopped
  {
    n := NewNode(found);
    Continue(u, NewNode(found), [], n, Starts);
    events, n := [] + [Starts], Perform(u, n, Starts);
    Continue(u, NewNode(found), events, n, RegisterReturns(OK));
    events, n := events + [RegisterReturns(OK)], Perform(u, n, RegisterReturns(OK));
    Continue(u, NewNode(found), events, n, Ticks);
    events, n := events + [Ticks], Perform(u, n, Ticks);
  }

  /** An idle worker is fenced: nothing is pending and nothing runs, so the fence ends at once. */
  lemma FencedIdle(u: Setup, found: Entries) returns (events: seq<Event>, n: Node)
    ensures Leads(u, NewNode(found), events, n)
    ensures AboutToRegister(n) && n.worker == Initial(found)
  {
    events, n := Heartbeats(u, found);
    Continue(u, NewNode(found), events, n, HeartbeatReturns(NOT_FOUND));
    events, n := events + [HeartbeatReturns(NOT_FOUND)], Perform(u, n, HeartbeatReturns(NOT_FOUND));
    assert n.phase.waiting == {};
    Continue(u, NewNode(found), events, n, BootsAwaited([], 0));
    events, n := events + [BootsAwaited([], 0)], Perform(u, n, BootsAwaited([], 0));
    assert n.phase.waiting == {};
    Continue(u, NewNode(found), events, n, StopsAwaited);
    events, n := events + [StopsAwaited], Perform(u, n, StopsAwaited);
  }

  /**
   * After the fence the loop waits one heartbeat interval before it registers again. An agent that
   * is ensured meanwhile is running when the register request is sent.
   */
  lemma EnsuredBeforeRegisterStillRuns(u: Setup, found: Entries, hash: Hash) returns (events: seq<Event>, n: Node)
    requires hash in found && u.worker.maxAgents > 0 && u.worker.minPort <= u.worker.maxPort
    ensures Leads(u, NewNode(found), events, n) && AboutToRegister(n) && hash in n.worker.running
  {
    events, n := FencedIdle(u, found);
    var s := n.worker;
    var steps := BootRuns(u.worker, s, [], s, 0, hash, u.worker.minPort, 0);
    var t := Booted(s, hash, u.worker.minPort, 0);
    events := WorkerRuns(u, NewNode(found), events, n, steps, t);
    n := n.(worker := t);
  }
}
