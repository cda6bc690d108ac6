/** Held calls and approval requests: in every reachable state they match one to one. */
module HeldCalls {
  import opened Common
  import opened SessionStore
  import opened Interception
  import Approvals

  /** The request id a recorded attempt carries in its scoring detail. */
  function RequestIdOf(a: CallAttempt): Option<string> {
    if a.scoringDetail.Some? then a.scoringDetail.value.approvalRequestId else None
  }

  /** Attempt `i` of the session carries request id `id`. */
  predicate Carries(sessions: Sessions, sid: string, i: int, id: string) {
    && 0 <= i < |AttemptsOf(sessions, sid)|
    && RequestIdOf(AttemptsOf(sessions, sid)[i]) == Some(id)
  }

  /** A request for exactly this session's call. */
  predicate IsRequestFor(r: Approvals.Request, sid: string, call: ToolCall) {
    r.sessionId == sid && r.toolName == call.toolName && r.params == call.params
  }

  /** An attempt is held exactly when it carries an id, and that id is a request for its own call. */
  ghost predicate HeldAttemptsHaveRequests(sessions: Sessions, queue: Approvals.Queue) {
    forall sid, i {:trigger AttemptsOf(sessions, sid)[i]} :: 0 <= i < |AttemptsOf(sessions, sid)| ==>
      var a := AttemptsOf(sessions, sid)[i];
      && (a.outcome.PendingApproval? <==> RequestIdOf(a).Some?)
      && (RequestIdOf(a).Some? ==>
            RequestIdOf(a).value in queue && IsRequestFor(queue[RequestIdOf(a).value], sid, a.call))
  }

  ghost predicate RequestsHaveAttempts(sessions: Sessions, queue: Approvals.Queue) {
    forall id :: id in queue ==> exists sid, i :: Carries(sessions, sid, i, id)
  }

  ghost predicate NoIdTwice(sessions: Sessions) {
    forall id, sid, i, sid', i' ::
      Carries(sessions, sid, i, id) && Carries(sessions, sid', i', id) ==> sid == sid' && i == i'
  }

  /** Held attempts and requests are in bijection. */
  ghost predicate Bijection(sessions: Sessions, queue: Approvals.Queue) {
    && HeldAttemptsHaveRequests(sessions, queue)
    && RequestsHaveAttempts(sessions, queue)
    && NoIdTwice(sessions)
  }

  /** The store after one more attempt, position by position. */
  lemma AppendCarries(sessions: Sessions, sid: string, a: CallAttempt)
    ensures forall s, i, id :: Carries(Append(sessions, sid, a), s, i, id) <==>
              Carries(sessions, s, i, id)
              || (s == sid && i == |AttemptsOf(sessions, sid)| && RequestIdOf(a) == Some(id))
  {
    var after := Append(sessions, sid, a);
    forall s, i, id
      ensures Carries(after, s, i, id) <==>
              Carries(sessions, s, i, id)
              || (s == sid && i == |AttemptsOf(sessions, sid)| && RequestIdOf(a) == Some(id))
    {
      if s == sid {
        assert AttemptsOf(after, s) == AttemptsOf(sessions, sid) + [a];
      } else {
        assert AttemptsOf(after, s) == AttemptsOf(sessions, s);
      }
    }
  }

  lemma AppendWithoutIdKeepsBijection(sessions: Sessions, queue: Approvals.Queue, sid: string, a: CallAttempt)
    requires Bijection(sessions, queue)
    requires !a.outcome.PendingApproval? && RequestIdOf(a).None?
    ensures Bijection(Append(sessions, sid, a), queue)
  {
    var after := Append(sessions, sid, a);
    AppendCarries(sessions, sid, a);
    assert AttemptsOf(after, sid) == AttemptsOf(sessions, sid) + [a];
    forall s | s != sid ensures AttemptsOf(after, s) == AttemptsOf(sessions, s) {
    }
    forall id | id in queue ensures exists s, i :: Carries(after, s, i, id) {
      var s, i :| Carries(sessions, s, i, id);
      assert Carries(after, s, i, id);
    }
  }

  lemma HoldingKeepsBijection(
    sessions: Sessions, queue: Approvals.Queue, sid: string, a: CallAttempt, id: string, r: Approvals.Request)
    requires Bijection(sessions, queue) && id !in queue
    requires a.outcome.PendingApproval? && RequestIdOf(a) == Some(id) && IsRequestFor(r, sid, a.call)
    ensures Bijection(Append(sessions, sid, a), queue[id := r])
  {
    var after, queue' := Append(sessions, sid, a), queue[id := r];
    AppendCarries(sessions, sid, a);
    assert AttemptsOf(after, sid) == AttemptsOf(sessions, sid) + [a];
    forall s | s != sid ensures AttemptsOf(after, s) == AttemptsOf(sessions, s) {
    }
    forall s, i, k | Carries(sessions, s, i, k) ensures k in queue {
      assert RequestIdOf(AttemptsOf(sessions, s)[i]).value in queue;
    }
    assert Carries(after, sid, |AttemptsOf(sessions, sid)|, id);
    forall id' | id' in queue' ensures exists s, i :: Carries(after, s, i, id') {
      if id' != id {
        var s, i :| Carries(sessions, s, i, id');
        assert Carries(after, s, i, id');
      }
    }
  }

  /** Deciding and expiring change a request's outcome only, never whose call it is. */
  lemma QueueOpsKeepBijection(timeout: real, sessions: Sessions, queue: Approvals.Queue, op: Approvals.Op)
    requires Bijection(sessions, queue) && !op.Submit?
    ensures Bijection(sessions, Approvals.AfterOp(timeout, queue, op))
  {
    var queue' := Approvals.AfterOp(timeout, queue, op);
    assert queue'.Keys == queue.Keys;
    assert forall id, sid, call ::
        id in queue && IsRequestFor(queue[id], sid, call) ==> IsRequestFor(queue'[id], sid, call);
  }

  lemma CallKeepsBijection(cfg: Config, w: World, c: Call)
    requires Bijection(w.sessions, w.queue) && c.requestId !in w.queue
    ensures Bijection(AfterCall(cfg, w, c).sessions, AfterCall(cfg, w, c).queue)
  {
    var d := Dispose(cfg, w, c);
    match d
    case Raise =>
    case Permit(detail) =>
      AppendWithoutIdKeepsBijection(w.sessions, w.queue, c.sessionId, CallAttempt(CallRecord(c), Allowed, detail));
    case Refuse(detail) =>
      AppendWithoutIdKeepsBijection(w.sessions, w.queue, c.sessionId, CallAttempt(CallRecord(c), Blocked, detail));
    case Hold(flags) =>
      HoldingKeepsBijection(
        w.sessions, w.queue, c.sessionId,
        CallAttempt(CallRecord(c), PendingApproval, DetailOf(flags, Some(c.requestId))),
        c.requestId, Approvals.NewRequest(SubmitOp(c)));
  }

  /**
   * In every reachable state each PENDING_APPROVAL attempt carries the id of exactly one request, made for
   * the same session, tool and parameters, and every request belongs to exactly one such attempt.
   */
  lemma {:induction false} HeldCallsMatchRequests(cfg: Config, timeout: real, events: seq<Event>)
    requires FreshIds(cfg, timeout, EMPTY, events)
    ensures var w := Run(cfg, timeout, EMPTY, events); Bijection(w.sessions, w.queue)
  {
    if events != [] {
      var front, e := events[..|events| - 1], events[|events| - 1];
      forall i | 0 <= i < |front| && front[i].Intercept?
        ensures front[i].call.requestId !in Run(cfg, timeout, EMPTY, front[..i]).queue
      {
        assert front[..i] == events[..i] && front[i] == events[i];
      }
      HeldCallsMatchRequests(cfg, timeout, front);
      var w := Run(cfg, timeout, EMPTY, front);
      match e
      case Intercept(c) =>
        assert events[|events| - 1].Intercept?;
        CallKeepsBijection(cfg, w, c);
      case Queue(op) =>
        if !op.Submit? {
          QueueOpsKeepBijection(timeout, w.sessions, w.queue, op);
        }
    }
  }
}
