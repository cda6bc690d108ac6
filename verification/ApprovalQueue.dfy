/**
 * The human-approval queue (src/simulacrum/tier_engine/approval_queue.py). Requests expire lazily:
 * a pending request turns EXPIRED only when someone looks at it after its deadline.
 * Each operation gets the clock readings it takes: `now`, then `later`.
 */
module Approvals {
  import opened Common

  datatype ApprovalOutcome = Pending | Approved | Denied | Expired

  datatype ApproverRole = TaskInitiatingUser | OpsSecurityApprover

  datatype Request = Request(
    sessionId: string, toolName: string, params: Params, submittedAt: real,
    outcome: ApprovalOutcome, decidedAt: Option<real>, decidedByRole: Option<ApproverRole>)

  type Queue = map<string, Request>

  datatype Op =
    | Submit(id: string, sessionId: string, toolName: string, params: Params, now: real)
    | Get(id: string, now: real, later: real)
    | Decide(id: string, approved: bool, role: ApproverRole, now: real, later: real)

  /** What the caller sees: the whole request, or one of the two errors. */
  datatype Result =
    | UnknownRequest
    | AlreadyDecided(outcome: ApprovalOutcome)
    | Shows(request: Request)

  predicate Overdue(timeout: real, submittedAt: real, now: real) {
    now - submittedAt >= timeout
  }

  function ExpiredAt(r: Request, at: real): Request {
    r.(outcome := Expired, decidedAt := Some(at))
  }

  /** The request as `get` leaves it. */
  function Polled(timeout: real, r: Request, now: real, later: real): Request {
    if r.outcome.Pending? && Overdue(timeout, r.submittedAt, now) then ExpiredAt(r, later) else r
  }

  function Verdict(approved: bool): ApprovalOutcome {
    if approved then Approved else Denied
  }

  function NewRequest(op: Op): Request
    requires op.Submit?
  {
    Request(op.sessionId, op.toolName, op.params, op.now, Pending, None, None)
  }

  function AfterGet(timeout: real, q: Queue, id: string, now: real, later: real): Queue {
    if id in q then q[id := Polled(timeout, q[id], now, later)] else q
  }

  function Decided(r: Request, approved: bool, role: ApproverRole, at: real): Request {
    r.(outcome := Verdict(approved), decidedAt := Some(at), decidedByRole := Some(role))
  }

  function AfterOp(timeout: real, q: Queue, op: Op): Queue {
    match op
    case Submit(id, _, _, _, _) => q[id := NewRequest(op)]
    case Get(id, now, later) => AfterGet(timeout, q, id, now, later)
    case Decide(id, approved, role, now, later) =>
      var polled := AfterGet(timeout, q, id, now, later);
      if id in polled && polled[id].outcome.Pending? then polled[id := Decided(polled[id], approved, role, later)]
      else polled
  }

  function ResultOf(timeout: real, q: Queue, op: Op): Result {
    match op
    case Submit(_, _, _, _, _) => Shows(NewRequest(op))
    case Get(id, now, later) =>
      if id !in q then UnknownRequest else Shows(Polled(timeout, q[id], now, later))
    case Decide(id, approved, role, now, later) =>
      if id !in q then UnknownRequest
      else
        var r := Polled(timeout, q[id], now, later);
        if r.outcome.Pending? then Shows(Decided(r, approved, role, later)) else AlreadyDecided(r.outcome)
  }

  function Results(timeout: real, q: Queue, ops: seq<Op>): seq<Result>
    decreases ops
  {
    if ops == [] then []
    else [ResultOf(timeout, q, ops[0])] + Results(timeout, AfterOp(timeout, q, ops[0]), ops[1..])
  }

  function AfterOps(timeout: real, q: Queue, ops: seq<Op>): Queue
    decreases ops
  {
    if ops == [] then q else AfterOps(timeout, AfterOp(timeout, q, ops[0]), ops[1..])
  }

  // ---------------------------------------------------------------------------------------------
  // The eager queue: each request expires by itself, exactly at its deadline

  datatype Ruling = Ruling(approved: bool, role: ApproverRole, at: real)

  /** A request as it was submitted, and at most one human ruling; its record is a function of the time. */
  datatype EagerRequest = EagerRequest(submitted: Request, ruling: Option<Ruling>)

  type EagerQueue = map<string, EagerRequest>

  function RecordAt(timeout: real, e: EagerRequest, t: real): Request {
    if e.ruling.Some? then Decided(e.submitted, e.ruling.value.approved, e.ruling.value.role, e.ruling.value.at)
    else if Overdue(timeout, e.submitted.submittedAt, t) then ExpiredAt(e.submitted, e.submitted.submittedAt + timeout)
    else e.submitted
  }

  predicate OpenAt(timeout: real, e: EagerRequest, t: real) {
    e.ruling.None? && !Overdue(timeout, e.submitted.submittedAt, t)
  }

  function Ruled(e: EagerRequest, approved: bool, role: ApproverRole, at: real): EagerRequest {
    e.(ruling := Some(Ruling(approved, role, at)))
  }

  function EagerAfterOp(timeout: real, q: EagerQueue, op: Op): EagerQueue {
    match op
    case Submit(id, _, _, _, _) => q[id := EagerRequest(NewRequest(op), None)]
    case Get(_, _, _) => q
    case Decide(id, approved, role, now, later) =>
      if id in q && OpenAt(timeout, q[id], now) then q[id := Ruled(q[id], approved, role, later)] else q
  }

  function EagerResultOf(timeout: real, q: EagerQueue, op: Op): Result {
    match op
    case Submit(_, _, _, _, _) => Shows(NewRequest(op))
    case Get(id, now, _) => if id !in q then UnknownRequest else Shows(RecordAt(timeout, q[id], now))
    case Decide(id, approved, role, now, later) =>
      if id !in q then UnknownRequest
      else if OpenAt(timeout, q[id], now) then Shows(RecordAt(timeout, Ruled(q[id], approved, role, later), now))
      else AlreadyDecided(RecordAt(timeout, q[id], now).outcome)
  }

  function EagerResults(timeout: real, e: EagerQueue, ops: seq<Op>): seq<Result>
    decreases ops
  {
    if ops == [] then []
    else [EagerResultOf(timeout, e, ops[0])] + EagerResults(timeout, EagerAfterOp(timeout, e, ops[0]), ops[1..])
  }

  function EagerAfterOps(timeout: real, e: EagerQueue, ops: seq<Op>): EagerQueue
    decreases ops
  {
    if ops == [] then e else EagerAfterOps(timeout, EagerAfterOp(timeout, e, ops[0]), ops[1..])
  }

  // ---------------------------------------------------------------------------------------------
  // Refinement

  /** A record without the time stamp of an expiry. */
  function WithoutExpiryTime(r: Request): Request {
    if r.outcome.Expired? then r.(decidedAt := None) else r
  }

  function Untimed(result: Result): Result {
    if result.Shows? then Shows(WithoutExpiryTime(result.request)) else result
  }

  function AllUntimed(results: seq<Result>): seq<Result> {
    Map(results, r => Untimed(r))
  }

  /** How a stored request and an eager one agree when the clock has reached `t`. */
  ghost predicate Agree(timeout: real, r: Request, e: EagerRequest, t: real) {
    && e.submitted.outcome.Pending?
    && if r.outcome.Pending? then e.ruling.None? && r == e.submitted
       else WithoutExpiryTime(r) == WithoutExpiryTime(RecordAt(timeout, e, t))
            && (r.outcome.Expired? <==> e.ruling.None?)
  }

  ghost predicate QueuesAgree(timeout: real, q: Queue, e: EagerQueue, t: real) {
    q.Keys == e.Keys && forall id :: id in q ==> Agree(timeout, q[id], e[id], t)
  }

  /** The clock readings of the operations never go back, starting from `t`. */
  ghost predicate InOrder(t: real, ops: seq<Op>)
    decreases ops
  {
    ops != [] ==> t <= ops[0].now && InOrder(ops[0].now, ops[1..])
  }

  lemma AgreementLasts(timeout: real, r: Request, e: EagerRequest, t: real, now: real, later: real)
    requires Agree(timeout, r, e, t) && t <= now
    ensures Agree(timeout, r, e, now) && Agree(timeout, Polled(timeout, r, now, later), e, now)
    ensures WithoutExpiryTime(Polled(timeout, r, now, later)) == WithoutExpiryTime(RecordAt(timeout, e, now))
    ensures Polled(timeout, r, now, later).outcome == RecordAt(timeout, e, now).outcome
    ensures Polled(timeout, r, now, later).outcome.Pending? <==> OpenAt(timeout, e, now)
  {
  }

  lemma RefinementStep(timeout: real, q: Queue, e: EagerQueue, t: real, op: Op)
    requires QueuesAgree(timeout, q, e, t) && t <= op.now
    ensures Untimed(ResultOf(timeout, q, op)) == Untimed(EagerResultOf(timeout, e, op))
    ensures QueuesAgree(timeout, AfterOp(timeout, q, op), EagerAfterOp(timeout, e, op), op.now)
  {
    forall id | id in q
      ensures Agree(timeout, q[id], e[id], op.now)
    {
      AgreementLasts(timeout, q[id], e[id], t, op.now, op.now);
    }
    if !op.Submit? && op.id in q {
      AgreementLasts(timeout, q[op.id], e[op.id], t, op.now, op.later);
      if op.Decide? && OpenAt(timeout, e[op.id], op.now) {
        RulingAgrees(timeout, q[op.id], e[op.id], op);
      }
    }
  }

  lemma RulingAgrees(timeout: real, r: Request, e: EagerRequest, op: Op)
    requires op.Decide? && Agree(timeout, r, e, op.now) && OpenAt(timeout, e, op.now)
    ensures var e' := Ruled(e, op.approved, op.role, op.later);
            Decided(r, op.approved, op.role, op.later) == RecordAt(timeout, e', op.now)
            && Agree(timeout, Decided(r, op.approved, op.role, op.later), e', op.now)
  {
  }

  /**
   * Lazy expiry looks like eager expiry: whatever operations are performed, with a clock that never goes back,
   * every one of them returns what it would return if each request expired by itself exactly at
   * `submitted_at + timeout`, the `decided_at` of an expired request excepted.
   */
  lemma {:induction false} LazyExpiryRefinesEager(timeout: real, q: Queue, e: EagerQueue, t: real, ops: seq<Op>)
    requires QueuesAgree(timeout, q, e, t) && InOrder(t, ops)
    ensures AllUntimed(Results(timeout, q, ops)) == AllUntimed(EagerResults(timeout, e, ops))
    ensures var t' := if ops == [] then t else ops[|ops| - 1].now;
            QueuesAgree(timeout, AfterOps(timeout, q, ops), EagerAfterOps(timeout, e, ops), t')
    decreases ops
  {
    if ops != [] {
      var q', e', tail := AfterOp(timeout, q, ops[0]), EagerAfterOp(timeout, e, ops[0]), ops[1..];
      RefinementStep(timeout, q, e, t, ops[0]);
      LazyExpiryRefinesEager(timeout, q', e', ops[0].now, tail);
      UntimedCons(ResultOf(timeout, q, ops[0]), Results(timeout, q', tail));
      UntimedCons(EagerResultOf(timeout, e, ops[0]), EagerResults(timeout, e', tail));
    }
  }

  lemma UntimedCons(first: Result, rest: seq<Result>)
    ensures AllUntimed([first] + rest) == [Untimed(first)] + AllUntimed(rest)
  {
  }

  predicate LooksAt(op: Op, id: string) {
    !op.Submit? && op.id == id
  }

  /** The second clock reading of the first operation that looks at a request past its deadline. */
  function FirstLateLook(timeout: real, submittedAt: real, ops: seq<Op>, id: string): Option<real>
    decreases ops
  {
    if ops == [] then None
    else if LooksAt(ops[0], id) && Overdue(timeout, submittedAt, ops[0].now) then Some(ops[0].later)
    else FirstLateLook(timeout, submittedAt, ops[1..], id)
  }

  predicate Resubmits(op: Op, id: string) {
    op.Submit? && op.id == id
  }

  ghost predicate NoResubmission(ops: seq<Op>, id: string) {
    forall i :: 0 <= i < |ops| ==> !Resubmits(ops[i], id)
  }

  /**
   * The stamp of an expiry is the reading of the first look past the deadline: a pending request that is stored
   * as expired later on has that `decided_at`, and one that is still stored as pending has had no such look.
   */
  lemma {:induction false} ExpiryIsStampedByFirstLateLook(timeout: real, q: Queue, ops: seq<Op>, id: string)
    requires id in q && q[id].outcome.Pending? && NoResubmission(ops, id)
    ensures var q', look := AfterOps(timeout, q, ops), FirstLateLook(timeout, q[id].submittedAt, ops, id);
            && id in q'
            && (q'[id].outcome.Pending? ==> look.None? && q'[id] == q[id])
            && (q'[id].outcome.Expired? ==> look.Some? && q'[id] == ExpiredAt(q[id], look.value))
    decreases ops
  {
    if ops != [] {
      var q', tail := AfterOp(timeout, q, ops[0]), ops[1..];
      assert !Resubmits(ops[0], id);
      assert NoResubmission(tail, id) by {
        assert forall i :: 0 <= i < |tail| ==> tail[i] == ops[i + 1];
      }
      if q'[id].outcome.Pending? {
        ExpiryIsStampedByFirstLateLook(timeout, q', tail, id);
      } else {
        ResolvedIsForGood(timeout, q', tail, id);
      }
    }
  }

  // ---------------------------------------------------------------------------------------------
  // What a poll changes

  /** A poll changes the queue exactly if its request is pending and overdue, and then only that request. */
  lemma PollChangesQueueIff(timeout: real, q: Queue, poll: Op)
    requires poll.Get?
    ensures AfterOp(timeout, q, poll) != q <==> Expires(timeout, q, poll)
    ensures Expires(timeout, q, poll) ==>
              AfterOp(timeout, q, poll) == q[poll.id := ExpiredAt(q[poll.id], poll.later)]
  {
    if poll.id in q && !Expires(timeout, q, poll) {
      assert q[poll.id := q[poll.id]] == q;
    }
  }

  /** The poll is the first look at a request past its deadline. */
  predicate Expires(timeout: real, q: Queue, poll: Op)
    requires poll.Get?
  {
    poll.id in q && q[poll.id].outcome.Pending? && Overdue(timeout, q[poll.id].submittedAt, poll.now)
  }

  /** Operation `i` shows the record of the request that had this id at the beginning. */
  predicate ShowsRecord(ops: seq<Op>, id: string, i: int) {
    && 0 <= i < |ops| && ops[i].Get? && ops[i].id == id
    && forall j :: 0 <= j < i ==> !Resubmits(ops[j], id)
  }

  /** The second clock reading of the first look at a request. */
  function FirstLook(ops: seq<Op>, id: string): real
    decreases ops
  {
    if ops == [] then 0.0 else if LooksAt(ops[0], id) then ops[0].later else FirstLook(ops[1..], id)
  }

  /** Two runs of results that differ in the stamp of one expired request only. */
  ghost predicate DifferInStamp(
    with: seq<Result>, without: seq<Result>, ops: seq<Op>, id: string, r: Request, x: real, y: real)
  {
    && |with| == |ops| && |without| == |ops|
    && forall i :: 0 <= i < |ops| ==>
         if ShowsRecord(ops, id, i) then with[i] == Shows(ExpiredAt(r, x)) && without[i] == Shows(ExpiredAt(r, y))
         else with[i] == without[i]
  }

  lemma DifferInStampCons(
    a: Result, with: seq<Result>, b: Result, without: seq<Result>,
    ops: seq<Op>, id: string, r: Request, x: real, y: real)
    requires ops != [] && !Resubmits(ops[0], id)
    requires if ops[0].Get? && ops[0].id == id then a == Shows(ExpiredAt(r, x)) && b == Shows(ExpiredAt(r, y))
             else a == b
    requires DifferInStamp(with, without, ops[1..], id, r, x, y)
    ensures DifferInStamp([a] + with, [b] + without, ops, id, r, x, y)
  {
    forall i | 0 < i < |ops|
      ensures ShowsRecord(ops, id, i) <==> ShowsRecord(ops[1..], id, i - 1)
    {
      if ShowsRecord(ops, id, i) {
        assert forall j :: 0 <= j < i - 1 ==> ops[1..][j] == ops[j + 1];
      }
      if ShowsRecord(ops[1..], id, i - 1) {
        assert forall j :: 0 < j < i ==> ops[j] == ops[1..][j - 1];
      }
    }
  }

  lemma {:induction false} ResultsLength(timeout: real, q: Queue, ops: seq<Op>)
    ensures |Results(timeout, q, ops)| == |ops|
    decreases ops
  {
    if ops != [] {
      ResultsLength(timeout, AfterOp(timeout, q, ops[0]), ops[1..]);
    }
  }

  /** After a new request has taken the id nothing differs any more. */
  lemma ResubmittedShowsNothing(
    timeout: real, q1: Queue, q2: Queue, ops: seq<Op>, id: string, r: Request, x: real, y: real)
    requires ops != [] && Resubmits(ops[0], id) && AfterOp(timeout, q1, ops[0]) == AfterOp(timeout, q2, ops[0])
    ensures DifferInStamp(Results(timeout, q1, ops), Results(timeout, q2, ops), ops, id, r, x, y)
  {
    ResultsLength(timeout, q1, ops);
    ResultsLength(timeout, q2, ops);
    assert Results(timeout, q1, ops) == Results(timeout, q2, ops);
    forall i | 0 <= i < |ops|
      ensures !ShowsRecord(ops, id, i)
    {
    }
  }

  /** Two queues that differ in the stamp of one expired request. */
  lemma {:induction false} StampIsAllThatDiffers(
    timeout: real, q: Queue, ops: seq<Op>, id: string, r: Request, x: real, y: real)
    ensures DifferInStamp(
              Results(timeout, q[id := ExpiredAt(r, x)], ops), Results(timeout, q[id := ExpiredAt(r, y)], ops),
              ops, id, r, x, y)
    decreases ops
  {
    if ops != [] {
      var q1, q2, op := q[id := ExpiredAt(r, x)], q[id := ExpiredAt(r, y)], ops[0];
      var rest := AfterOp(timeout, q1, op);
      if Resubmits(op, id) {
        assert rest == AfterOp(timeout, q2, op);
        ResubmittedShowsNothing(timeout, q1, q2, ops, id, r, x, y);
      } else {
        assert rest == rest[id := ExpiredAt(r, x)];
        assert AfterOp(timeout, q2, op) == rest[id := ExpiredAt(r, y)];
        StampIsAllThatDiffers(timeout, rest, ops[1..], id, r, x, y);
        DifferInStampCons(
          ResultOf(timeout, q1, op), Results(timeout, rest, ops[1..]),
          ResultOf(timeout, q2, op), Results(timeout, rest[id := ExpiredAt(r, y)], ops[1..]), ops, id, r, x, y);
      }
    }
  }

  /**
   * Every later look shows the stamp `x` of an early expiry where without it it shows the reading of the first
   * later look; nothing else differs.
   */
  lemma {:induction false} EarlyExpiryIsSeenAs(
    timeout: real, q: Queue, t: real, ops: seq<Op>, id: string, r: Request, x: real)
    requires r.outcome.Pending? && Overdue(timeout, r.submittedAt, t) && InOrder(t, ops)
    ensures DifferInStamp(
              Results(timeout, q[id := ExpiredAt(r, x)], ops), Results(timeout, q[id := r], ops),
              ops, id, r, x, FirstLook(ops, id))
    decreases ops
  {
    if ops != [] {
      var q1, q2, op, y := q[id := ExpiredAt(r, x)], q[id := r], ops[0], FirstLook(ops, id);
      var rest := AfterOp(timeout, q1, op);
      if Resubmits(op, id) {
        assert rest == AfterOp(timeout, q2, op);
        ResubmittedShowsNothing(timeout, q1, q2, ops, id, r, x, y);
      } else {
        assert rest == rest[id := ExpiredAt(r, x)];
        var rest2 := AfterOp(timeout, q2, op);
        if LooksAt(op, id) {
          assert rest2 == rest[id := ExpiredAt(r, op.later)];
          StampIsAllThatDiffers(timeout, rest, ops[1..], id, r, x, y);
        } else {
          assert rest2 == rest[id := r];
          EarlyExpiryIsSeenAs(timeout, rest, op.now, ops[1..], id, r, x);
        }
        DifferInStampCons(
          ResultOf(timeout, q1, op), Results(timeout, rest, ops[1..]),
          ResultOf(timeout, q2, op), Results(timeout, rest2, ops[1..]), ops, id, r, x, y);
      }
    }
  }

  /** `with` is `without` with one more result at position `i`. */
  predicate OneMoreResultAt(with: seq<Result>, without: seq<Result>, i: nat) {
    && |with| == |without| + 1 && i <= |without|
    && with[..i] == without[..i]
    && with[i + 1..] == without[i..]
  }

  lemma {:induction false} ResultsConcat(timeout: real, q: Queue, before: seq<Op>, after: seq<Op>)
    ensures Results(timeout, q, before + after)
         == Results(timeout, q, before) + Results(timeout, AfterOps(timeout, q, before), after)
    decreases before
  {
    if before == [] {
      assert before + after == after;
    } else {
      assert (before + after)[1..] == before[1..] + after;
      ResultsConcat(timeout, AfterOp(timeout, q, before[0]), before[1..], after);
    }
  }

  lemma {:induction false} InOrderFrom(t: real, before: seq<Op>, poll: Op, after: seq<Op>)
    requires InOrder(t, before + [poll] + after)
    ensures InOrder(poll.now, after)
    decreases before
  {
    var ops := before + [poll] + after;
    if before == [] {
      assert ops[1..] == after;
    } else {
      assert ops[1..] == before[1..] + [poll] + after;
      InOrderFrom(ops[0].now, before[1..], poll, after);
    }
  }

  /** What the results of the operations after a poll are, with it and without it. */
  lemma PollIsSeenAs(timeout: real, q: Queue, poll: Op, after: seq<Op>)
    requires poll.Get? && InOrder(poll.now, after)
    ensures var with, without := Results(timeout, AfterOp(timeout, q, poll), after), Results(timeout, q, after);
            if Expires(timeout, q, poll)
            then DifferInStamp(with, without, after, poll.id, q[poll.id], poll.later, FirstLook(after, poll.id))
            else with == without
  {
    PollChangesQueueIff(timeout, q, poll);
    if Expires(timeout, q, poll) {
      assert q[poll.id := q[poll.id]] == q;
      EarlyExpiryIsSeenAs(timeout, q, poll.now, after, poll.id, q[poll.id], poll.later);
    }
  }

  /** A later operation shows the stamp that the poll left, and would show another one without the poll. */
  ghost predicate PollIsSeen(timeout: real, q: Queue, poll: Op, after: seq<Op>)
    requires poll.Get?
  {
    && Expires(timeout, q, poll)
    && poll.later != FirstLook(after, poll.id)
    && exists i :: ShowsRecord(after, poll.id, i)
  }

  /** With the results of the operations before, of the poll, and of those after it. */
  lemma ResultsAroundPoll(timeout: real, q: Queue, before: seq<Op>, poll: Op, after: seq<Op>)
    requires poll.Get?
    ensures var q' := AfterOps(timeout, q, before);
            var with, without := Results(timeout, AfterOp(timeout, q', poll), after), Results(timeout, q', after);
            && |Results(timeout, q, before)| == |before|
            && Results(timeout, q, before + [poll] + after)
               == Results(timeout, q, before) + [ResultOf(timeout, q', poll)] + with
            && Results(timeout, q, before + after) == Results(timeout, q, before) + without
  {
    var q' := AfterOps(timeout, q, before);
    ResultsLength(timeout, q, before);
    ResultsConcat(timeout, q, before, after);
    ResultsConcat(timeout, q, before, [poll] + after);
    ResultsCons(timeout, q', poll, after);
    assert before + [poll] + after == before + ([poll] + after);
    RegroupResults(
      Results(timeout, q, before), ResultOf(timeout, q', poll), Results(timeout, AfterOp(timeout, q', poll), after));
  }

  lemma ResultsCons(timeout: real, q: Queue, op: Op, rest: seq<Op>)
    ensures Results(timeout, q, [op] + rest)
         == [ResultOf(timeout, q, op)] + Results(timeout, AfterOp(timeout, q, op), rest)
  {
    assert ([op] + rest)[1..] == rest;
  }

  lemma RegroupResults(front: seq<Result>, middle: Result, rest: seq<Result>)
    ensures front + ([middle] + rest) == front + [middle] + rest
  {
  }

  lemma OneMoreIffSame(front: seq<Result>, middle: Result, with: seq<Result>, without: seq<Result>)
    ensures OneMoreResultAt(front + [middle] + with, front + without, |front|) <==> with == without
  {
    assert (front + [middle] + with)[|front| + 1..] == with;
    assert (front + without)[|front|..] == without;
    assert (front + [middle] + with)[..|front|] == front == (front + without)[..|front|];
  }

  /**
   * A poll can be added or left out without changing any other result, exactly unless it is the first look past
   * the deadline, some later `get` shows that request, and the first later look reads another time.
   */
  lemma ExtraPollingIsUnobservableIff(timeout: real, q: Queue, t: real, before: seq<Op>, poll: Op, after: seq<Op>)
    requires poll.Get? && InOrder(t, before + [poll] + after)
    ensures OneMoreResultAt(Results(timeout, q, before + [poll] + after), Results(timeout, q, before + after), |before|)
            <==> !PollIsSeen(timeout, AfterOps(timeout, q, before), poll, after)
  {
    var q' := AfterOps(timeout, q, before);
    var with, without := Results(timeout, AfterOp(timeout, q', poll), after), Results(timeout, q', after);
    ResultsAroundPoll(timeout, q, before, poll, after);
    OneMoreIffSame(Results(timeout, q, before), ResultOf(timeout, q', poll), with, without);
    InOrderFrom(t, before, poll, after);
    PollIsSeenAs(timeout, q', poll, after);
    if PollIsSeen(timeout, q', poll, after) {
      var i :| ShowsRecord(after, poll.id, i);
      assert with[i] != without[i];
    }
  }

  lemma StampIsUntimed(
    with: seq<Result>, without: seq<Result>, ops: seq<Op>, id: string, r: Request, x: real, y: real)
    requires DifferInStamp(with, without, ops, id, r, x, y)
    ensures AllUntimed(with) == AllUntimed(without)
  {
    forall i | 0 <= i < |ops|
      ensures Untimed(with[i]) == Untimed(without[i])
    {
      if !ShowsRecord(ops, id, i) {
        assert with[i] == without[i];
      }
    }
  }

  lemma UntimedConcat(a: seq<Result>, b: seq<Result>)
    ensures AllUntimed(a + b) == AllUntimed(a) + AllUntimed(b)
  {
  }

  lemma UntimedAround(front: seq<Result>, middle: Result, rest: seq<Result>)
    ensures AllUntimed(front + [middle] + rest) == AllUntimed(front) + [Untimed(middle)] + AllUntimed(rest)
  {
    UntimedConcat(front + [middle], rest);
    UntimedConcat(front, [middle]);
  }

  /** No poll ever changes what else anybody sees of outcomes, roles, errors and the times of human decisions. */
  lemma ExtraPollingHidesNoOutcome(timeout: real, q: Queue, t: real, before: seq<Op>, poll: Op, after: seq<Op>)
    requires poll.Get? && InOrder(t, before + [poll] + after)
    ensures OneMoreResultAt(
              AllUntimed(Results(timeout, q, before + [poll] + after)),
              AllUntimed(Results(timeout, q, before + after)), |before|)
  {
    var q' := AfterOps(timeout, q, before);
    var front, middle := Results(timeout, q, before), ResultOf(timeout, q', poll);
    var with, without := Results(timeout, AfterOp(timeout, q', poll), after), Results(timeout, q', after);
    ResultsAroundPoll(timeout, q, before, poll, after);
    InOrderFrom(t, before, poll, after);
    PollIsSeenAs(timeout, q', poll, after);
    if Expires(timeout, q', poll) {
      StampIsUntimed(with, without, after, poll.id, q'[poll.id], poll.later, FirstLook(after, poll.id));
    }
    UntimedAround(front, middle, with);
    UntimedConcat(front, without);
    OneMoreIffSame(AllUntimed(front), Untimed(middle), AllUntimed(with), AllUntimed(without));
  }

  /** A resolved request keeps its whole record for good; only a new request under its id replaces it. */
  lemma {:induction false} ResolvedIsForGood(timeout: real, q: Queue, ops: seq<Op>, id: string)
    requires id in q && !q[id].outcome.Pending?
    requires NoResubmission(ops, id)
    ensures var q' := AfterOps(timeout, q, ops); id in q' && q'[id] == q[id]
    decreases ops
  {
    if ops != [] {
      assert !Resubmits(ops[0], id);
      assert forall i :: 0 <= i < |ops[1..]| ==> ops[1..][i] == ops[i + 1];
      ResolvedIsForGood(timeout, AfterOp(timeout, q, ops[0]), ops[1..], id);
    }
  }

  // ---------------------------------------------------------------------------------------------
  // What becomes of one request

  /** Nobody decides the request, and no other request takes its id. */
  ghost predicate LeftAlone(ops: seq<Op>, id: string) {
    forall i :: 0 <= i < |ops| ==> !Resubmits(ops[i], id) && !(ops[i].Decide? && ops[i].id == id)
  }

  lemma LeftAloneTail(ops: seq<Op>, id: string)
    requires ops != [] && LeftAlone(ops, id)
    ensures LeftAlone(ops[1..], id) && !Resubmits(ops[0], id) && !(ops[0].Decide? && ops[0].id == id)
  {
    assert forall i :: 0 <= i < |ops[1..]| ==> ops[1..][i] == ops[i + 1];
  }

  /** A record as `submit` makes it. */
  predicate IsNew(r: Request, submittedAt: real) {
    r.submittedAt == submittedAt && r.outcome == Pending && r.decidedAt == None && r.decidedByRole == None
  }

  /** A request that no one decides stays as it is while the clock is short of its deadline. */
  lemma {:induction false} UndecidedStays(
    timeout: real, q: Queue, id: string, ops: seq<Op>, s: real, t: real, now: real)
    requires id in q && IsNew(q[id], s) && LeftAlone(ops, id)
    requires InOrderUntil(t, ops, now) && now - s < timeout
    ensures var q' := AfterOps(timeout, q, ops); id in q' && q'[id] == q[id]
    decreases ops
  {
    if ops != [] {
      LeftAloneTail(ops, id);
      InOrderIsBelow(t, ops, now);
      UndecidedStays(timeout, AfterOp(timeout, q, ops[0]), id, ops[1..], s, ops[0].now, now);
    }
  }

  /** The clock readings never go back, from `t` at the beginning to `now` after the last operation. */
  ghost predicate InOrderUntil(t: real, ops: seq<Op>, now: real)
    decreases ops
  {
    if ops == [] then t <= now else t <= ops[0].now && InOrderUntil(ops[0].now, ops[1..], now)
  }

  lemma {:induction false} InOrderIsBelow(t: real, ops: seq<Op>, now: real)
    requires InOrderUntil(t, ops, now)
    ensures t <= now && (ops != [] ==> ops[0].now <= now)
    decreases ops
  {
    if ops != [] {
      InOrderIsBelow(ops[0].now, ops[1..], now);
    }
  }

  /** An undecided request is stored as pending or as expired after its deadline, and otherwise as submitted. */
  lemma {:induction false} UndecidedExpiresAtMost(timeout: real, q: Queue, id: string, ops: seq<Op>, s: real)
    requires id in q && LeftAlone(ops, id)
    requires IsNew(q[id], s) || (q[id].outcome == Expired && q[id].decidedByRole == None && q[id].submittedAt == s)
    ensures var q' := AfterOps(timeout, q, ops);
            && id in q' && q'[id] == q[id].(outcome := q'[id].outcome, decidedAt := q'[id].decidedAt)
            && (IsNew(q'[id], s) || (q'[id].outcome == Expired && q'[id].decidedByRole == None))
    decreases ops
  {
    if ops != [] {
      LeftAloneTail(ops, id);
      UndecidedExpiresAtMost(timeout, AfterOp(timeout, q, ops[0]), id, ops[1..], s);
    }
  }

  /**
   * A request that no one has decided shows as pending, just as it was submitted at `s`, to a look at `t` exactly if
   * `t - s` is short of the timeout, and as expired, with no role, otherwise; whoever looked at it before.
   */
  lemma UndecidedShows(
    timeout: real, q: Queue, id: string, sessionId: string, toolName: string, params: Params, s: real,
    ops: seq<Op>, t: real, later: real)
    requires LeftAlone(ops, id) && InOrderUntil(s, ops, t)
    ensures var q' := AfterOps(timeout, q, [Submit(id, sessionId, toolName, params, s)] + ops);
            var shown := ResultOf(timeout, q', Get(id, t, later));
            && shown.Shows?
            && (t - s < timeout ==>
                  shown.request == Request(sessionId, toolName, params, s, Pending, None, None))
            && (t - s >= timeout ==>
                  && shown.request.outcome == Expired && shown.request.decidedAt.Some?
                  && shown.request
                     == Request(sessionId, toolName, params, s, Expired, shown.request.decidedAt, None))
  {
    var submit := Submit(id, sessionId, toolName, params, s);
    var q1 := AfterOp(timeout, q, submit);
    assert ([submit] + ops)[1..] == ops;
    UndecidedExpiresAtMost(timeout, q1, id, ops, s);
    if t - s < timeout {
      UndecidedStays(timeout, q1, id, ops, s, s, t);
    } else {
      StoredExpiryIsStamped(timeout, q1, id, ops, s);
    }
  }

  lemma StoredExpiryIsStamped(timeout: real, q: Queue, id: string, ops: seq<Op>, s: real)
    requires id in q && IsNew(q[id], s) && LeftAlone(ops, id)
    ensures var q' := AfterOps(timeout, q, ops);
            id in q' && (q'[id].outcome == Expired ==> q'[id].decidedAt.Some?)
  {
    ExpiryIsStampedByFirstLateLook(timeout, q, ops, id);
    UndecidedExpiresAtMost(timeout, q, id, ops, s);
  }

  /**
   * The first decision on a request, if its first clock reading comes before the deadline, stands for good: it returns,
   * and every later look shows, the request as submitted with APPROVED for an approval and DENIED for a denial, with
   * the role and the decision's second reading; whoever looks, decides again or submits other requests meanwhile.
   */
  lemma FirstRulingStands(
    timeout: real, q: Queue, id: string, sessionId: string, toolName: string, params: Params, s: real,
    before: seq<Op>, approved: bool, role: ApproverRole, now: real, later: real,
    after: seq<Op>, t: real, t': real)
    requires LeftAlone(before, id) && InOrderUntil(s, before, now) && now - s < timeout
    requires NoResubmission(after, id)
    ensures var ruled := Request(
              sessionId, toolName, params, s, if approved then Approved else Denied, Some(later), Some(role));
            var q1 := AfterOps(timeout, q, [Submit(id, sessionId, toolName, params, s)] + before);
            var decide := Decide(id, approved, role, now, later);
            && ResultOf(timeout, q1, decide) == Shows(ruled)
            && ResultOf(timeout, AfterOps(timeout, AfterOp(timeout, q1, decide), after), Get(id, t, t')) == Shows(ruled)
  {
    var submit, decide := Submit(id, sessionId, toolName, params, s), Decide(id, approved, role, now, later);
    var q0 := AfterOp(timeout, q, submit);
    assert ([submit] + before)[1..] == before;
    UndecidedStays(timeout, q0, id, before, s, s, now);
    var q1 := AfterOps(timeout, q, [submit] + before);
    ResolvedIsForGood(timeout, AfterOp(timeout, q1, decide), after, id);
  }

  /** A decision whose first reading reaches the deadline is refused as too late, and the request stays expired. */
  lemma LateRulingIsRefused(
    timeout: real, q: Queue, id: string, sessionId: string, toolName: string, params: Params, s: real,
    before: seq<Op>, approved: bool, role: ApproverRole, now: real, later: real)
    requires LeftAlone(before, id) && InOrderUntil(s, before, now) && now - s >= timeout
    ensures var q1 := AfterOps(timeout, q, [Submit(id, sessionId, toolName, params, s)] + before);
            var decide := Decide(id, approved, role, now, later);
            && ResultOf(timeout, q1, decide) == AlreadyDecided(Expired)
            && id in AfterOp(timeout, q1, decide) && AfterOp(timeout, q1, decide)[id].outcome == Expired
            && AfterOp(timeout, q1, decide)[id].decidedByRole == None
  {
    var submit := Submit(id, sessionId, toolName, params, s);
    assert ([submit] + before)[1..] == before;
    UndecidedExpiresAtMost(timeout, AfterOp(timeout, q, submit), id, before, s);
  }

  // ---------------------------------------------------------------------------------------------
  // The number of pending requests

  function PendingIds(q: Queue): set<string> {
    set id | id in q && q[id].outcome.Pending?
  }

  /** The requests still waiting for a human at time `t`. */
  function LiveIds(timeout: real, e: EagerQueue, t: real): set<string> {
    set id | id in e && OpenAt(timeout, e[id], t)
  }

  lemma {:induction false} SubsetIsSmaller<T>(a: set<T>, b: set<T>)
    requires a <= b
    ensures |a| <= |b|
  {
    if a != {} {
      var x :| x in a;
      SubsetIsSmaller(a - {x}, b - {x});
    }
  }

  /**
   * The stored pending count never under-counts: at any time, every live request is stored as PENDING,
   * and the stored PENDING requests that are not live are exactly those past their deadline.
   */
  lemma PendingCountNeverUndercounts(timeout: real, q: Queue, e: EagerQueue, t: real)
    requires QueuesAgree(timeout, q, e, t)
    ensures |LiveIds(timeout, e, t)| <= |PendingIds(q)|
    ensures PendingIds(q) - LiveIds(timeout, e, t)
         == set id | id in PendingIds(q) && Overdue(timeout, q[id].submittedAt, t)
  {
    SubsetIsSmaller(LiveIds(timeout, e, t), PendingIds(q));
  }
}

/** The queue as objects: a dictionary of requests whose fields are updated in place. */
module ApprovalObjects {
  import opened Common
  import opened Approvals

  class ApprovalRequest {
    const requestId: string
    const sessionId: string
    const toolName: string
    const params: Params
    const submittedAt: real
    var outcome: ApprovalOutcome
    var decidedAt: Option<real>
    var decidedByRole: Option<ApproverRole>

    constructor (requestId: string, sessionId: string, toolName: string, params: Params, submittedAt: real)
      ensures this.requestId == requestId
      ensures Abstract() == Request(sessionId, toolName, params, submittedAt, Pending, None, None)
    {
      this.requestId, this.sessionId, this.toolName := requestId, sessionId, toolName;
      this.params, this.submittedAt := params, submittedAt;
      outcome, decidedAt, decidedByRole := Pending, None, None;
    }

    function Abstract(): Request
      reads this
    {
      Request(sessionId, toolName, params, submittedAt, outcome, decidedAt, decidedByRole)
    }
  }

  class ApprovalQueue {
    const timeout: real
    var requests: map<string, ApprovalRequest>

    ghost predicate Valid()
      reads this
    {
      forall id :: id in requests ==> requests[id].requestId == id
    }

    ghost function Abstract(): Queue
      reads this, requests.Values
    {
      map id | id in requests :: requests[id].Abstract()
    }

    constructor (timeout: real)
      ensures this.timeout == timeout && Valid() && Abstract() == map[]
    {
      this.timeout, requests := timeout, map[];
    }

    /** `id` stands for the fresh UUID. */
    method Submit(id: string, sessionId: string, toolName: string, params: Params, now: real)
      returns (request: ApprovalRequest)
      requires Valid()
      modifies this
      ensures Valid() && fresh(request)
      ensures requests == old(requests)[id := request]
      ensures Abstract() == AfterOp(timeout, old(Abstract()), Op.Submit(id, sessionId, toolName, params, now))
    {
      request := new ApprovalRequest(id, sessionId, toolName, params, now);
      requests := requests[id := request];
    }

    method Get(id: string, now: real, later: real) returns (request: Option<ApprovalRequest>)
      requires Valid()
      modifies requests.Values
      ensures Valid()
      ensures request == if id in requests then Some(requests[id]) else None
      ensures Abstract() == AfterOp(timeout, old(Abstract()), Op.Get(id, now, later))
      ensures ResultOf(timeout, old(Abstract()), Op.Get(id, now, later))
           == if id in requests then Shows(requests[id].Abstract()) else UnknownRequest
    {
      if id !in requests {
        return None;
      }
      var r := requests[id];
      if r.outcome.Pending? {
        if now - r.submittedAt >= timeout {
          r.outcome, r.decidedAt := Expired, Some(later);
        }
      }
      return Some(r);
    }

    /** Writes a verdict into a request's fields. */
    method Record(id: string, approved: bool, role: ApproverRole, at: real)
      requires Valid() && id in requests
      modifies requests[id]
      ensures Valid()
      ensures Abstract() == old(Abstract())[id := Decided(old(Abstract())[id], approved, role, at)]
    {
      var r := requests[id];
      r.outcome := if approved then Approved else Denied;
      r.decidedAt := Some(at);
      r.decidedByRole := Some(role);
    }

    method Decide(id: string, approved: bool, role: ApproverRole, now: real, later: real) returns (result: Result)
      requires Valid()
      modifies requests.Values
      ensures Valid()
      ensures Abstract() == AfterOp(timeout, old(Abstract()), Op.Decide(id, approved, role, now, later))
      ensures result == ResultOf(timeout, old(Abstract()), Op.Decide(id, approved, role, now, later))
    {
      var found := Get(id, now, later);
      if found.None? {
        return UnknownRequest;
      }
      if !found.value.outcome.Pending? {
        return AlreadyDecided(found.value.outcome);
      }
      Record(id, approved, role, later);
      return Shows(found.value.Abstract());
    }
  }
}
