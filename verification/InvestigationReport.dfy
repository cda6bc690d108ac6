/** The per-session investigation report (src/simulacrum/investigation/report.py). */
module InvestigationReports {
  import opened Common
  import opened SessionStore
  import opened HeldCalls
  import Approvals
  import opened ApprovalObjects

  datatype CallReportEntry = CallReportEntry(
    call: ToolCall, outcome: CallOutcome, scoringDetail: Option<ScoringDetail>,
    approvalOutcome: Option<Approvals.ApprovalOutcome>,
    approvalDecidedByRole: Option<Approvals.ApproverRole>)

  datatype InvestigationReport = InvestigationReport(
    sessionId: string, totalCalls: nat, calls: seq<CallReportEntry>, flaggedCallCount: nat,
    outcomeBreakdown: map<CallOutcome, nat>)

  /** The two clock readings available to the look-up for the i-th call. */
  type Clock = nat -> (real, real)

  /** The approval queue, if the report is given one. */
  type QueueView = Option<Approvals.Queue>

  /** The request that an entry looks up, if any. */
  function LookedUp(a: CallAttempt): Option<string> {
    if a.outcome.PendingApproval? then RequestIdOf(a) else None
  }

  /** Looking up a held call polls its request, which may expire it. */
  function AfterLookUp(timeout: real, view: QueueView, a: CallAttempt, t: (real, real)): QueueView {
    if view.None? || LookedUp(a).None? then view
    else Some(Approvals.AfterOp(timeout, view.value, Approvals.Get(LookedUp(a).value, t.0, t.1)))
  }

  function ViewAfter(timeout: real, view: QueueView, attempts: seq<CallAttempt>, clock: Clock, n: nat): QueueView
    requires n <= |attempts|
  {
    if n == 0 then view
    else AfterLookUp(timeout, ViewAfter(timeout, view, attempts, clock, n - 1), attempts[n - 1], clock(n - 1))
  }

  /** Outcome and role reported for an attempt. */
  datatype Approval = Approval(outcome: Option<Approvals.ApprovalOutcome>, role: Option<Approvals.ApproverRole>)

  function ApprovalOf(timeout: real, view: QueueView, a: CallAttempt, t: (real, real)): Approval {
    if view.None? || LookedUp(a).None? || LookedUp(a).value !in view.value then Approval(None, None)
    else
      var r := Approvals.Polled(timeout, view.value[LookedUp(a).value], t.0, t.1);
      Approval(Some(r.outcome), r.decidedByRole)
  }

  function EntryOf(a: CallAttempt, approval: Approval): CallReportEntry {
    CallReportEntry(a.call, a.outcome, a.scoringDetail, approval.outcome, approval.role)
  }

  /** The first `n` entries of a report. */
  function EntriesOf(
    timeout: real, view: QueueView, attempts: seq<CallAttempt>, clock: Clock, n: nat): (r: seq<CallReportEntry>)
    requires n <= |attempts|
    ensures |r| == n
  {
    if n == 0 then []
    else
      var before := ViewAfter(timeout, view, attempts, clock, n - 1);
      EntriesOf(timeout, view, attempts, clock, n - 1)
      + [EntryOf(attempts[n - 1], ApprovalOf(timeout, before, attempts[n - 1], clock(n - 1)))]
  }

  predicate IsFlagged(a: CallAttempt) {
    a.scoringDetail.Some? && a.scoringDetail.value.flaggedDetectorCount > 0
  }

  function FlaggedTest(): CallAttempt -> bool {
    (a: CallAttempt) => IsFlagged(a)
  }

  function OfOutcome(o: CallOutcome): CallAttempt -> bool {
    (a: CallAttempt) => a.outcome == o
  }

  /** How many attempts ended in the outcome. */
  function OutcomeCount(attempts: seq<CallAttempt>, o: CallOutcome): nat {
    |Filter(attempts, OfOutcome(o))|
  }

  /**
   * The counts of a report: the breakdown lists exactly the outcomes that occur, with how often they do,
   * and the flagged calls are those with a positive detector count.
   */
  ghost predicate Tallied(counts: map<CallOutcome, nat>, flagged: nat, attempts: seq<CallAttempt>) {
    && flagged == |Filter(attempts, FlaggedTest())|
    && forall o :: (o in counts <==> OutcomeCount(attempts, o) > 0)
                && (o in counts ==> counts[o] == OutcomeCount(attempts, o))
  }

  function CountOutcome(counts: map<CallOutcome, nat>, o: CallOutcome): map<CallOutcome, nat> {
    counts[o := 1 + if o in counts then counts[o] else 0]
  }

  lemma TalliedSnoc(counts: map<CallOutcome, nat>, flagged: nat, attempts: seq<CallAttempt>, a: CallAttempt)
    requires Tallied(counts, flagged, attempts)
    ensures Tallied(CountOutcome(counts, a.outcome), flagged + if IsFlagged(a) then 1 else 0, attempts + [a])
  {
    FilterSnoc(attempts, a, FlaggedTest());
    forall o ensures OutcomeCount(attempts + [a], o) == OutcomeCount(attempts, o) + if a.outcome == o then 1 else 0 {
      FilterSnoc(attempts, a, OfOutcome(o));
    }
  }

  /** Counts one more attempt. */
  method Tally(counts: map<CallOutcome, nat>, flagged: nat, a: CallAttempt, ghost seen: seq<CallAttempt>)
    returns (counts': map<CallOutcome, nat>, flagged': nat)
    requires Tallied(counts, flagged, seen)
    ensures Tallied(counts', flagged', seen + [a])
  {
    TalliedSnoc(counts, flagged, seen, a);
    counts' := CountOutcome(counts, a.outcome);
    flagged' := flagged;
    if a.scoringDetail.Some? && a.scoringDetail.value.flaggedDetectorCount > 0 {
      flagged' := flagged + 1;
    }
  }

  /** A queue is optional; one that is given must be valid. */
  ghost predicate Usable(queue: ApprovalQueue?)
    reads queue
  {
    queue != null ==> queue.Valid()
  }

  ghost function ViewOf(queue: ApprovalQueue?): QueueView
    reads queue, if queue == null then {} else queue.requests.Values
  {
    if queue == null then None else Some(queue.Abstract())
  }

  /** Without a time limit of its own, a missing queue has none. */
  function TimeoutOf(queue: ApprovalQueue?): real {
    if queue == null then 0.0 else queue.timeout
  }

  method LookUp(queue: ApprovalQueue?, a: CallAttempt, t: (real, real)) returns (approval: Approval)
    requires Usable(queue)
    modifies if queue == null then {} else queue.requests.Values
    ensures Usable(queue)
    ensures approval == ApprovalOf(TimeoutOf(queue), old(ViewOf(queue)), a, t)
    ensures ViewOf(queue) == AfterLookUp(TimeoutOf(queue), old(ViewOf(queue)), a, t)
  {
    approval := Approval(None, None);
    if a.outcome.PendingApproval? && a.scoringDetail.Some? && queue != null {
      var id := a.scoringDetail.value.approvalRequestId;
      if id.Some? {
        var request := queue.Get(id.value, t.0, t.1);
        if request.Some? {
          approval := Approval(Some(request.value.outcome), request.value.decidedByRole);
        }
      }
    }
  }

  lemma ReportStep(timeout: real, view: QueueView, attempts: seq<CallAttempt>, clock: Clock, i: nat, before: QueueView)
    requires i < |attempts| && before == ViewAfter(timeout, view, attempts, clock, i)
    ensures ViewAfter(timeout, view, attempts, clock, i + 1) == AfterLookUp(timeout, before, attempts[i], clock(i))
    ensures EntriesOf(timeout, view, attempts, clock, i + 1)
         == EntriesOf(timeout, view, attempts, clock, i)
            + [EntryOf(attempts[i], ApprovalOf(timeout, before, attempts[i], clock(i)))]
  {
  }

  method GenerateInvestigationReport(
    store: InMemorySessionStore, queue: ApprovalQueue?, sessionId: string, clock: Clock)
    returns (report: InvestigationReport)
    requires Usable(queue)
    modifies if queue == null then {} else queue.requests.Values
    ensures Usable(queue)
    ensures var attempts := AttemptsOf(store.sessions, sessionId);
      && report.sessionId == sessionId && report.totalCalls == |attempts|
      && report.calls == EntriesOf(TimeoutOf(queue), old(ViewOf(queue)), attempts, clock, |attempts|)
      && Tallied(report.outcomeBreakdown, report.flaggedCallCount, attempts)
      && ViewOf(queue) == ViewAfter(TimeoutOf(queue), old(ViewOf(queue)), attempts, clock, |attempts|)
  {
    var attempts := store.GetAttempts(sessionId);
    var entries: seq<CallReportEntry> := [];
    var outcomeCounts: map<CallOutcome, nat> := map[];
    var flaggedCount := 0;
    ghost var view, seen := ViewOf(queue), [];

    var i := 0;
    while i < |attempts|
      invariant 0 <= i <= |attempts|
      invariant Usable(queue)
      invariant seen == attempts[..i] && Tallied(outcomeCounts, flaggedCount, seen)
      invariant entries == EntriesOf(TimeoutOf(queue), view, attempts, clock, i)
      invariant ViewOf(queue) == ViewAfter(TimeoutOf(queue), view, attempts, clock, i)
    {
      var attempt := attempts[i];
      outcomeCounts, flaggedCount := Tally(outcomeCounts, flaggedCount, attempt, seen);
      seen := seen + [attempt];
      ghost var before := ViewOf(queue);
      var approval := LookUp(queue, attempt, clock(i));
      ReportStep(TimeoutOf(queue), view, attempts, clock, i, before);
      entries := entries + [EntryOf(attempt, approval)];
      i := i + 1;
    }
    assert seen == attempts;
    report := InvestigationReport(sessionId, |entries|, entries, flaggedCount, outcomeCounts);
  }

  // ---------------------------------------------------------------------------------------------
  // What the report accounts for

  /** The outcome counts add up to the number of calls: every call is counted once. */
  lemma {:induction false} OutcomeCountsSumToTotal(attempts: seq<CallAttempt>)
    ensures OutcomeCount(attempts, Allowed) + OutcomeCount(attempts, Blocked)
          + OutcomeCount(attempts, ToolError) + OutcomeCount(attempts, PendingApproval) == |attempts|
  {
    if attempts != [] {
      OutcomeCountsSumToTotal(attempts[..|attempts| - 1]);
    }
  }

  /** The positions of the attempts that ended in the outcome. */
  function EndedIn(attempts: seq<CallAttempt>, o: CallOutcome): set<int> {
    set i | 0 <= i < |attempts| && attempts[i].outcome == o
  }

  /**
   * The numbers of a report: the breakdown names the outcomes that occur, each with the number of attempts that ended
   * so, and the flagged calls are the attempts scored with at least one flag.
   */
  lemma TalliesMean(counts: map<CallOutcome, nat>, flagged: nat, attempts: seq<CallAttempt>)
    requires Tallied(counts, flagged, attempts)
    ensures flagged == |set i | 0 <= i < |attempts| && attempts[i].scoringDetail.Some?
                                && attempts[i].scoringDetail.value.flaggedDetectorCount >= 1|
    ensures forall o :: o in counts <==> EndedIn(attempts, o) != {}
    ensures forall o :: o in counts ==> counts[o] == |EndedIn(attempts, o)|
  {
    var scored := set i | 0 <= i < |attempts| && attempts[i].scoringDetail.Some?
                          && attempts[i].scoringDetail.value.flaggedDetectorCount >= 1;
    FilterCountsPositions(attempts, FlaggedTest());
    assert Positions(attempts, FlaggedTest()) == scored;
    forall o
      ensures OutcomeCount(attempts, o) == |EndedIn(attempts, o)|
    {
      FilterCountsPositions(attempts, OfOutcome(o));
      assert Positions(attempts, OfOutcome(o)) == EndedIn(attempts, o);
    }
    assert forall o :: |EndedIn(attempts, o)| > 0 <==> EndedIn(attempts, o) != {};
  }

  /** Without a queue, for a call that was not held, or for a request the queue does not know, no decision is shown. */
  lemma EntryWithoutDecision(
    timeout: real, view: QueueView, attempts: seq<CallAttempt>, clock: Clock, i: nat)
    requires i < |attempts|
    requires || view.None? || !attempts[i].outcome.PendingApproval? || RequestIdOf(attempts[i]).None?
             || RequestIdOf(attempts[i]).value !in view.value
    ensures var entry, a := EntriesOf(timeout, view, attempts, clock, |attempts|)[i], attempts[i];
            entry == CallReportEntry(a.call, a.outcome, a.scoringDetail, None, None)
  {
    EntryAt(timeout, view, attempts, clock, |attempts|, i);
    LookUpsOnlyExpire(timeout, view, attempts, clock, i);
  }

  /** Making a report leaves the queue as it is, but for requests that it finds overdue and so expires. */
  lemma {:induction false} LookUpsOnlyExpire(
    timeout: real, view: QueueView, attempts: seq<CallAttempt>, clock: Clock, n: nat)
    requires n <= |attempts|
    ensures var view' := ViewAfter(timeout, view, attempts, clock, n);
            if view.None? then view'.None?
            else
              && view'.Some? && view'.value.Keys == view.value.Keys
              && forall id :: id in view.value ==>
                   || view'.value[id] == view.value[id]
                   || (&& view.value[id].outcome == Approvals.Pending
                       && view'.value[id]
                          == view.value[id].(outcome := Approvals.Expired, decidedAt := view'.value[id].decidedAt)
                       && exists i :: 0 <= i < n && LookedUp(attempts[i]) == Some(id)
                                      && clock(i).0 - view.value[id].submittedAt >= timeout)
  {
    if n > 0 {
      LookUpsOnlyExpire(timeout, view, attempts, clock, n - 1);
      assert LookedUp(attempts[n - 1]).Some? ==> LookedUp(attempts[n - 1]) == Some(LookedUp(attempts[n - 1]).value);
    }
  }

  lemma {:induction false} EntryAt(
    timeout: real, view: QueueView, attempts: seq<CallAttempt>, clock: Clock, n: nat, i: nat)
    requires i < n <= |attempts|
    ensures var before := ViewAfter(timeout, view, attempts, clock, i);
            EntriesOf(timeout, view, attempts, clock, n)[i]
            == EntryOf(attempts[i], ApprovalOf(timeout, before, attempts[i], clock(i)))
  {
    if i < n - 1 {
      EntryAt(timeout, view, attempts, clock, n - 1, i);
    }
  }

  /** Looking up other calls does not touch this call's request, because no two calls share one. */
  lemma {:induction false} LookUpsBeforeLeaveRequest(
    timeout: real, sessions: Sessions, q: Approvals.Queue, sid: string, clock: Clock, n: nat, i: nat)
    requires Bijection(sessions, q)
    requires n <= i < |AttemptsOf(sessions, sid)| && RequestIdOf(AttemptsOf(sessions, sid)[i]).Some?
    ensures var attempts := AttemptsOf(sessions, sid); var id := RequestIdOf(attempts[i]).value;
            var view := ViewAfter(timeout, Some(q), attempts, clock, n);
            id in q && view.Some? && id in view.value && view.value[id] == q[id]
  {
    var attempts := AttemptsOf(sessions, sid);
    var id := RequestIdOf(attempts[i]).value;
    if n > 0 {
      LookUpsBeforeLeaveRequest(timeout, sessions, q, sid, clock, n - 1, i);
      if LookedUp(attempts[n - 1]) == Some(id) {
        assert Carries(sessions, sid, n - 1, id) && Carries(sessions, sid, i, id);
      }
    }
  }

  /**
   * With the queue of the same run at hand, exactly the held entries of a report carry an approval outcome,
   * and it is the outcome of the request made for that very call, as a look at it at that moment shows it.
   */
  lemma HeldEntriesCarryTheirDecision(
    timeout: real, sessions: Sessions, q: Approvals.Queue, sid: string, clock: Clock, i: nat)
    requires Bijection(sessions, q) && i < |AttemptsOf(sessions, sid)|
    ensures var attempts := AttemptsOf(sessions, sid); var a := attempts[i];
            var entry := EntriesOf(timeout, Some(q), attempts, clock, |attempts|)[i];
            && entry.call == a.call && entry.outcome == a.outcome && entry.scoringDetail == a.scoringDetail
            && (entry.approvalOutcome.Some? <==> a.outcome.PendingApproval?)
            && (a.outcome.PendingApproval? ==>
                  && RequestIdOf(a).Some? && RequestIdOf(a).value in q
                  && var r := q[RequestIdOf(a).value];
                     && IsRequestFor(r, sid, a.call)
                     && entry.approvalOutcome
                        == Some(if r.outcome == Approvals.Pending && clock(i).0 - r.submittedAt >= timeout
                                then Approvals.Expired else r.outcome)
                     && entry.approvalDecidedByRole == r.decidedByRole)
  {
    var attempts := AttemptsOf(sessions, sid);
    EntryAt(timeout, Some(q), attempts, clock, |attempts|, i);
    if RequestIdOf(attempts[i]).Some? {
      LookUpsBeforeLeaveRequest(timeout, sessions, q, sid, clock, i, i);
    }
  }
}
