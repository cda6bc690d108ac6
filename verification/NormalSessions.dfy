/** Generated normal sessions against the detectors, for every random source. */
module NormalSessions {
  import opened Common
  import opened ResponseTiers
  import opened FakeTools
  import opened SessionStore
  import opened TaskSim
  import opened Detectors
  import opened Interception
  import Runs = InterceptionRuns

  // ---------------------------------------------------------------------------------------------
  // The shape of a generated session

  function Named(name: string): ToolCall -> bool {
    (c: ToolCall) => c.toolName == name
  }

  function CountName(calls: seq<ToolCall>, name: string): nat {
    |Filter(calls, Named(name))|
  }

  /** The call is one that the step group's parameter generator makes. */
  ghost predicate MadeBy(g: StepGroup, s: Source, c: ToolCall) {
    c.toolName == g.toolName && exists p: nat :: c.params == ParamsOf(g.kind, s, p)
  }

  /** Every call comes from one of the groups, numbered in order. */
  ghost predicate MadeByGroups(groups: seq<StepGroup>, s: Source, calls: seq<ToolCall>) {
    forall j :: 0 <= j < |calls| ==>
      calls[j].turnIndex == j && exists g :: g in groups && MadeBy(g, s, calls[j])
  }

  lemma MadeByGroupsSnoc(groups: seq<StepGroup>, g: StepGroup, s: Source, calls: seq<ToolCall>, c: ToolCall)
    requires MadeByGroups(groups, s, calls) && g in groups && MadeBy(g, s, c) && c.turnIndex == |calls|
    ensures MadeByGroups(groups, s, calls + [c])
  {
    var calls' := calls + [c];
    forall j | 0 <= j < |calls'|
      ensures calls'[j].turnIndex == j && exists h :: h in groups && MadeBy(h, s, calls'[j])
    {
      if j < |calls| {
        assert calls'[j] == calls[j];
        var h :| h in groups && MadeBy(h, s, calls[j]);
        assert MadeBy(h, s, calls'[j]);
      }
    }
  }

  lemma {:induction false} AddedCallsAreMade(groups: seq<StepGroup>, g: StepGroup, s: Source, p: Progress, n: nat)
    requires g in groups && MadeByGroups(groups, s, p.calls)
    ensures MadeByGroups(groups, s, AddCalls(g, s, p, n).calls)
  {
    if n > 0 {
      var before := AddCalls(g, s, p, n - 1);
      AddedCallsAreMade(groups, g, s, p, n - 1);
      var c := ToolCall(g.toolName, ParamsOf(g.kind, s, before.drawn), |before.calls|);
      assert MadeBy(g, s, c);
      MadeByGroupsSnoc(groups, g, s, before.calls, c);
    }
  }

  lemma {:induction false} AddedCallsAreCounted(g: StepGroup, s: Source, p: Progress, n: nat, name: string)
    ensures CountName(AddCalls(g, s, p, n).calls, name)
         == CountName(p.calls, name) + if g.toolName == name then n else 0
  {
    if n > 0 {
      var before := AddCalls(g, s, p, n - 1);
      AddedCallsAreCounted(g, s, p, n - 1, name);
      FilterSnoc(before.calls, ToolCall(g.toolName, ParamsOf(g.kind, s, before.drawn), |before.calls|), Named(name));
    }
  }

  ghost predicate ShortGroups(groups: seq<StepGroup>) {
    forall k :: 0 <= k < |groups| ==> groups[k].minRepeat <= groups[k].maxRepeat <= 6
  }

  lemma {:induction false} GroupCallsAreMade(groups: seq<StepGroup>, s: Source, start: Progress, k: nat)
    requires ShortGroups(groups) && k <= |groups| && MadeByGroups(groups, s, start.calls)
    ensures MadeByGroups(groups, s, GroupsProgress(groups, s, start, k).calls)
  {
    if k > 0 {
      GroupCallsAreMade(groups, s, start, k - 1);
      var g, p := groups[k - 1], GroupsProgress(groups, s, start, k - 1);
      var n := RandInt(s.draws, p.drawn, g.minRepeat, g.maxRepeat);
      AddedCallsAreMade(groups, g, s, p.(drawn := p.drawn + 1), n);
    }
  }

  lemma GroupIsCounted(g: StepGroup, s: Source, p: Progress, name: string)
    requires g.minRepeat <= g.maxRepeat <= 6
    ensures CountName(AddGroup(g, s, p).calls, name) <= CountName(p.calls, name) + if g.toolName == name then 6 else 0
  {
    var n := RandInt(s.draws, p.drawn, g.minRepeat, g.maxRepeat);
    AddedCallsAreCounted(g, s, p.(drawn := p.drawn + 1), n, name);
  }

  /** At most how often the first `k` groups use a tool. */
  function MaxUses(groups: seq<StepGroup>, k: nat, name: string): nat
    requires k <= |groups|
  {
    if k == 0 then 0 else MaxUses(groups, k - 1, name) + if groups[k - 1].toolName == name then 6 else 0
  }

  lemma MaxUsesOfTwo(groups: seq<StepGroup>, name: string)
    requires |groups| == 2 && groups[0].toolName != groups[1].toolName
    ensures MaxUses(groups, 2, name) <= 6
  {
    assert MaxUses(groups, 1, name) == if groups[0].toolName == name then 6 else 0;
  }

  lemma {:induction false} GroupCallsAreCounted(
    groups: seq<StepGroup>, s: Source, start: Progress, k: nat, name: string)
    requires ShortGroups(groups) && k <= |groups| && start.calls == []
    ensures CountName(GroupsProgress(groups, s, start, k).calls, name) <= MaxUses(groups, k, name)
  {
    if k > 0 {
      GroupCallsAreCounted(groups, s, start, k - 1, name);
      GroupIsCounted(groups[k - 1], s, GroupsProgress(groups, s, start, k - 1), name);
    }
  }

  lemma TemplateToolsDiffer(t: TaskType)
    ensures Template(t)[0].toolName != Template(t)[1].toolName
  {
    var a, b := Template(t)[0].toolName, Template(t)[1].toolName;
    match t
    case InboxTriage => assert a[2] == 'a' && b[2] == 'p';
    case FlightBooking => assert a[0] == 's' && b[0] == 'b';
    case CalendarScheduling => assert a[0] == 'g' && b[0] == 'a';
    case FileSharing => assert a[0] == 'l' && b[0] == 's';
    case ContactUpdate => assert a[0] == 's' && b[0] == 'u';
  }

  /** What the detectors need to know of a session: its calls come from the groups, no tool more than six times. */
  ghost predicate WellShaped(groups: seq<StepGroup>, s: Source, calls: seq<ToolCall>) {
    MadeByGroups(groups, s, calls) && forall name :: CountName(calls, name) <= 6
  }

  lemma GroupsAreWellShaped(groups: seq<StepGroup>, s: Source, start: Progress)
    requires |groups| == 2 && groups[0].toolName != groups[1].toolName && ShortGroups(groups) && start.calls == []
    ensures WellShaped(groups, s, GroupsProgress(groups, s, start, 2).calls)
  {
    GroupCallsAreMade(groups, s, start, 2);
    forall name
      ensures CountName(GroupsProgress(groups, s, start, 2).calls, name) <= 6
    {
      GroupCallsAreCounted(groups, s, start, 2, name);
      MaxUsesOfTwo(groups, name);
    }
  }

  lemma TemplateIsShort(t: TaskType)
    ensures ShortGroups(Template(t))
  {
  }

  lemma SessionIsWellShaped(t: TaskType, s: Source, pos: nat)
    ensures WellShaped(Template(t), s, SessionCalls(t, s, pos))
  {
    TemplateToolsDiffer(t);
    TemplateIsShort(t);
    GroupsAreWellShaped(Template(t), s, Progress([], pos));
  }

  // ---------------------------------------------------------------------------------------------
  // What the detectors rely on

  /** The registries know the tools, schemas and baseline of some step groups, none of them of high value. */
  ghost predicate Knows(cfg: Config, baseline: set<string>, groups: seq<StepGroup>) {
    forall g :: g in groups ==>
      && g.toolName in cfg.tiers && g.toolName in cfg.impls
      && !cfg.tiers[g.toolName].IrreversibleHighValue?
      && g.toolName in cfg.schemas && cfg.schemas[g.toolName] == SchemaOf(g.kind)
      && g.toolName in baseline
      && (g.toolName in OutboundTools() ==> g.kind.InboxReply? && g.toolName == "reply_to_email")
  }

  lemma ParamsFitSchema(kind: ParamKind, s: Source, p: nat)
    ensures ParamsOf(kind, s, p).Keys == SchemaOf(kind).requiredParams
  {
    match kind
    case InboxRead =>
    case InboxReply =>
    case FlightSearch =>
    case FlightBook =>
    case CalendarGet =>
    case CalendarAdd =>
    case FileList =>
    case FileShare =>
    case ContactSearch =>
    case ContactFields =>
  }

  lemma {:induction false} DecimalIsShort(n: nat, digits: nat, bound: nat)
    requires digits >= 1 && n < bound && bound == PowerOfTen(digits)
    ensures |Decimal(n)| <= digits
  {
    if n >= 10 {
      DecimalIsShort(n / 10, digits - 1, PowerOfTen(digits - 1));
    }
  }

  function PowerOfTen(k: nat): nat {
    if k == 0 then 1 else 10 * PowerOfTen(k - 1)
  }

  lemma RepliesAreShort(s: Source, p: nat)
    requires Fit(s)
    ensures var params := ParamsOf(InboxReply, s, p);
            forall k :: k in params ==> |params[k]| <= DEFAULT_CONTENT_SIZE_THRESHOLD
  {
    var id := RandInt(s.draws, p, 1, 999);
    assert PowerOfTen(3) == 1000 by {
      assert PowerOfTen(1) == 10 && PowerOfTen(2) == 100;
    }
    DecimalIsShort(id, 3, 1000);
    assert s.words(Bodies) != [];
    assert Pick(s, p + 1, Bodies) in s.words(Bodies);
  }

  // ---------------------------------------------------------------------------------------------
  // Replay

  /** The recorded attempts are those of the first calls of the session, and none of them was blocked. */
  ghost predicate Replays(attempts: seq<CallAttempt>, calls: seq<ToolCall>, n: nat) {
    && n <= |calls| && |attempts| == n
    && forall j :: 0 <= j < n ==> attempts[j].call == calls[j] && !attempts[j].outcome.Blocked?
  }

  lemma {:induction false} SameToolCount(attempts: seq<CallAttempt>, calls: seq<ToolCall>, n: nat, name: string)
    requires Replays(attempts, calls, n)
    ensures |SameTool(attempts, name)| == CountName(calls[..n], name)
  {
    if n > 0 {
      var front := attempts[..n - 1];
      SameToolCount(front, calls, n - 1, name);
      assert attempts == front + [attempts[n - 1]];
      FilterSnoc(front, attempts[n - 1], OfTool(name));
      assert calls[..n] == calls[..n - 1] + [calls[n - 1]];
      FilterSnoc(calls[..n - 1], calls[n - 1], Named(name));
    }
  }

  lemma ReplayedAttempt(
    groups: seq<StepGroup>, s: Source, calls: seq<ToolCall>, attempts: seq<CallAttempt>, n: nat, a: CallAttempt)
    requires MadeByGroups(groups, s, calls) && Replays(attempts, calls, n) && a in attempts
    ensures !a.outcome.Blocked? && exists g :: g in groups && a.call.toolName == g.toolName
  {
    var j :| 0 <= j < |attempts| && attempts[j] == a;
    assert a.call == calls[j];
    var g :| g in groups && MadeBy(g, s, calls[j]);
  }

  lemma GroupOf(groups: seq<StepGroup>, s: Source, calls: seq<ToolCall>, n: nat) returns (g: StepGroup, p: nat)
    requires MadeByGroups(groups, s, calls) && n < |calls|
    ensures g in groups && calls[n].toolName == g.toolName && calls[n].params == ParamsOf(g.kind, s, p)
  {
    assert calls[n].turnIndex == n;
    g :| g in groups && MadeBy(g, s, calls[n]);
    p :| calls[n].params == ParamsOf(g.kind, s, p);
  }

  lemma PriorCallsOfTool(calls: seq<ToolCall>, attempts: seq<CallAttempt>, n: nat)
    requires n < |calls| && Replays(attempts, calls, n)
    ensures |SameTool(attempts, calls[n].toolName)| + 1 <= CountName(calls, calls[n].toolName)
  {
    var name := calls[n].toolName;
    SameToolCount(attempts, calls, n, name);
    FilterSnoc(calls[..n], calls[n], Named(name));
    assert calls[..n + 1] == calls[..n] + [calls[n]];
    FilterOfPrefix(calls, n + 1, Named(name));
  }

  lemma LoopRateStaysSilent(groups: seq<StepGroup>, s: Source, calls: seq<ToolCall>, attempts: seq<CallAttempt>, n: nat)
    requires WellShaped(groups, s, calls) && n < |calls| && Replays(attempts, calls, n)
    ensures !LoopRateFlagged(CheckToolLoopRate(attempts, calls[n].toolName, calls[n].params, DEFAULT_RATE_THRESHOLD))
  {
    PriorCallsOfTool(calls, attempts, n);
    var prior := SameTool(attempts, calls[n].toolName);
    if prior != [] {
      assert prior[|prior| - 1] in prior;
      FilterMembers(attempts, OfTool(calls[n].toolName));
      ReplayedAttempt(groups, s, calls, attempts, n, prior[|prior| - 1]);
    }
  }

  lemma OutboundAreReplies(
    cfg: Config, baseline: set<string>, groups: seq<StepGroup>, s: Source,
    calls: seq<ToolCall>, attempts: seq<CallAttempt>, n: nat)
    requires Knows(cfg, baseline, groups) && MadeByGroups(groups, s, calls) && Replays(attempts, calls, n)
    ensures |PriorOutbound(attempts)| <= |SameTool(attempts, "reply_to_email")|
  {
    forall a | a in attempts && IsOutbound()(a)
      ensures OfTool("reply_to_email")(a)
    {
      ReplayedAttempt(groups, s, calls, attempts, n, a);
      var g :| g in groups && a.call.toolName == g.toolName;
    }
    FilterMonotone(attempts, IsOutbound(), OfTool("reply_to_email"));
  }

  lemma OutboundCallIsShort(
    cfg: Config, baseline: set<string>, groups: seq<StepGroup>, s: Source, calls: seq<ToolCall>, n: nat)
    requires Knows(cfg, baseline, groups) && Fit(s) && MadeByGroups(groups, s, calls)
    requires n < |calls| && calls[n].toolName in OutboundTools()
    ensures calls[n].toolName == "reply_to_email"
    ensures forall k :: k in calls[n].params ==> |calls[n].params[k]| <= DEFAULT_CONTENT_SIZE_THRESHOLD
  {
    var g, p := GroupOf(groups, s, calls, n);
    RepliesAreShort(s, p);
  }

  lemma ExfiltrationStaysSilent(
    cfg: Config, baseline: set<string>, groups: seq<StepGroup>, s: Source,
    calls: seq<ToolCall>, attempts: seq<CallAttempt>, n: nat)
    requires Knows(cfg, baseline, groups) && Fit(s) && WellShaped(groups, s, calls)
    requires n < |calls| && Replays(attempts, calls, n)
    ensures !ExfiltrationFlagged(CheckExfiltration(
               attempts, calls[n].toolName, calls[n].params,
               DEFAULT_OUTBOUND_FREQUENCY_THRESHOLD, DEFAULT_CONTENT_SIZE_THRESHOLD))
  {
    if calls[n].toolName in OutboundTools() {
      OutboundCallIsShort(cfg, baseline, groups, s, calls, n);
      OutboundAreReplies(cfg, baseline, groups, s, calls, attempts, n);
      PriorCallsOfTool(calls, attempts, n);
    }
    OutboundPassesIff(
      attempts, calls[n].toolName, calls[n].params,
      DEFAULT_OUTBOUND_FREQUENCY_THRESHOLD, DEFAULT_CONTENT_SIZE_THRESHOLD);
  }

  lemma SchemaStaysSilent(
    cfg: Config, baseline: set<string>, groups: seq<StepGroup>, s: Source, calls: seq<ToolCall>, n: nat)
    requires Knows(cfg, baseline, groups) && MadeByGroups(groups, s, calls) && n < |calls|
    ensures calls[n].toolName in cfg.tiers && calls[n].toolName in cfg.impls && calls[n].toolName in baseline
    ensures !cfg.tiers[calls[n].toolName].IrreversibleHighValue?
    ensures calls[n].toolName in cfg.schemas
    ensures !IsViolation(CheckSchema(cfg.schemas, calls[n].toolName, calls[n].params).value)
  {
    var g, p := GroupOf(groups, s, calls, n);
    ParamsFitSchema(g.kind, s, p);
    ConformsIffKeysFit(cfg.schemas, calls[n].toolName, calls[n].params);
  }

  lemma EscalationStaysSilent(
    cfg: Config, baseline: set<string>, groups: seq<StepGroup>, s: Source,
    calls: seq<ToolCall>, attempts: seq<CallAttempt>, n: nat)
    requires Knows(cfg, baseline, groups) && MadeByGroups(groups, s, calls)
    requires n < |calls| && Replays(attempts, calls, n)
    ensures !IsEscalated(baseline, attempts, calls[n].toolName)
  {
    SchemaStaysSilent(cfg, baseline, groups, s, calls, n);
    forall a | a in attempts
      ensures !OutsideBaseline(baseline, a)
    {
      ReplayedAttempt(groups, s, calls, attempts, n, a);
      var h :| h in groups && a.call.toolName == h.toolName;
    }
    EscalatedIffSomethingOutside(baseline, attempts, calls[n].toolName);
  }

  /**
   * For every random source, each call of a generated session, made after the earlier ones were recorded and
   * none of them blocked, leaves all four structural detectors silent: only the opaque ones can flag it.
   */
  lemma StructuralDetectorsStaySilent(
    cfg: Config, baseline: set<string>, groups: seq<StepGroup>, s: Source, calls: seq<ToolCall>,
    attempts: seq<CallAttempt>, n: nat, divergent: bool, suspicious: bool)
    requires Knows(cfg, baseline, groups) && Fit(s) && WellShaped(groups, s, calls)
    requires n < |calls| && Replays(attempts, calls, n)
    ensures RunScoring(cfg.schemas, baseline, attempts, calls[n].toolName, calls[n].params, divergent, suspicious)
         == DetectorFlags(false, divergent, false, false, false, suspicious)
  {
    SchemaStaysSilent(cfg, baseline, groups, s, calls, n);
    EscalationStaysSilent(cfg, baseline, groups, s, calls, attempts, n);
    LoopRateStaysSilent(groups, s, calls, attempts, n);
    ExfiltrationStaysSilent(cfg, baseline, groups, s, calls, attempts, n);
  }

  /**
   * The session's events are the first `n` calls, in order, each scored, with whatever findings of the opaque
   * detectors, in shadow mode or not; calls of other sessions and queue operations may come in between.
   */
  ghost predicate PlaysBack(events: seq<Event>, sid: string, t: TaskType, calls: seq<ToolCall>, n: nat) {
    if events == [] then n == 0
    else
      var front, e := events[..|events| - 1], events[|events| - 1];
      if e.Intercept? && e.call.sessionId == sid
      then 0 < n <= |calls| && IsReplayOf(e.call, t, calls[n - 1]) && PlaysBack(front, sid, t, calls, n - 1)
      else PlaysBack(front, sid, t, calls, n)
  }

  predicate IsReplayOf(c: Call, t: TaskType, call: ToolCall) {
    c.task == t && CallRecord(c) == call && c.verdict.Scored?
  }

  /** What the pipeline makes of a call that only the opaque detectors can flag. */
  ghost predicate OnlyOpaqueFlags(cfg: Config, w: World, c: Call)
    requires c.verdict.Scored?
  {
    var silent := !c.verdict.divergent && !c.verdict.suspicious;
    && FlagsOf(cfg, w, c) == DetectorFlags(false, c.verdict.divergent, false, false, false, c.verdict.suspicious)
    && (ReplyTo(cfg, w, c) == Result(Allow, None, false, c.shadowMode) <==> silent)
    && (silent ==> Runs.RunsTool(cfg, w, c))
  }

  lemma ReplayedCallHasOpaqueFlagsOnly(
    cfg: Config, w: World, c: Call, t: TaskType, groups: seq<StepGroup>, s: Source, calls: seq<ToolCall>, n: nat)
    requires Knows(cfg, cfg.baselines(t), groups) && Fit(s) && WellShaped(groups, s, calls)
    requires n < |calls| && IsReplayOf(c, t, calls[n])
    requires Replays(AttemptsOf(w.sessions, c.sessionId), calls, n)
    ensures OnlyOpaqueFlags(cfg, w, c)
  {
    var v := c.verdict;
    StructuralDetectorsStaySilent(
      cfg, cfg.baselines(t), groups, s, calls, AttemptsOf(w.sessions, c.sessionId), n, v.divergent, v.suspicious);
    SchemaStaysSilent(cfg, cfg.baselines(t), groups, s, calls, n);
    OpaqueFlagsDecide(cfg, w, c, FlagsOf(cfg, w, c));
  }

  lemma OpaqueFlagsDecide(cfg: Config, w: World, c: Call, flags: DetectorFlags)
    requires c.verdict.Scored? && c.toolName in cfg.tiers && c.toolName in cfg.impls && flags == FlagsOf(cfg, w, c)
    requires flags == DetectorFlags(false, c.verdict.divergent, false, false, false, c.verdict.suspicious)
    ensures OnlyOpaqueFlags(cfg, w, c)
  {
    assert FlaggedDetectorCount(flags) == 0 <==> !c.verdict.divergent && !c.verdict.suspicious;
  }

  /** A scored call of a tool that is not of high value is never blocked. */
  lemma ScoredCallIsNotBlocked(cfg: Config, w: World, c: Call)
    requires c.verdict.Scored? && c.toolName in cfg.tiers && !cfg.tiers[c.toolName].IrreversibleHighValue?
    ensures var d := Dispose(cfg, w, c); d.Permit? || d.Hold?
  {
  }

  lemma UnblockedIsReplayed(cfg: Config, w: World, c: Call, d: Disposition, calls: seq<ToolCall>, n: nat)
    requires (d.Permit? || d.Hold?) && n < |calls| && CallRecord(c) == calls[n]
    requires Replays(AttemptsOf(w.sessions, c.sessionId), calls, n)
    ensures Replays(AttemptsOf(Apply(cfg, w, c, d).sessions, c.sessionId), calls, n + 1)
  {
    var before, after := AttemptsOf(w.sessions, c.sessionId), AttemptsOf(Apply(cfg, w, c, d).sessions, c.sessionId);
    var outcome := if d.Permit? then Allowed else PendingApproval;
    var detail := if d.Permit? then d.detail else DetailOf(d.flags, Some(c.requestId));
    assert after == before + [CallAttempt(CallRecord(c), outcome, detail)];
  }

  /** A played-back call is recorded without being blocked. */
  lemma PlayBackStep(
    cfg: Config, w: World, c: Call, t: TaskType, groups: seq<StepGroup>, s: Source, calls: seq<ToolCall>, n: nat)
    requires Knows(cfg, cfg.baselines(t), groups) && WellShaped(groups, s, calls)
    requires n < |calls| && IsReplayOf(c, t, calls[n])
    requires Replays(AttemptsOf(w.sessions, c.sessionId), calls, n)
    ensures Replays(AttemptsOf(AfterCall(cfg, w, c).sessions, c.sessionId), calls, n + 1)
  {
    SchemaStaysSilent(cfg, cfg.baselines(t), groups, s, calls, n);
    ScoredCallIsNotBlocked(cfg, w, c);
    UnblockedIsReplayed(cfg, w, c, Dispose(cfg, w, c), calls, n);
  }

  /** Other sessions' calls and queue operations leave a session's record alone. */
  lemma OtherEventsLeaveSession(cfg: Config, timeout: real, w: World, e: Event, sid: string)
    requires e.Intercept? ==> e.call.sessionId != sid
    ensures AttemptsOf(AfterEvent(cfg, timeout, w, e).sessions, sid) == AttemptsOf(w.sessions, sid)
  {
    if e.Intercept? {
      Runs.ApplyAppendsOne(cfg, w, e.call, Dispose(cfg, w, e.call));
    }
  }

  /** Playing back the next call of the session extends its record by that call. */
  ghost predicate PlayBackExtends(cfg: Config, sid: string, t: TaskType, calls: seq<ToolCall>) {
    forall w: World, c: Call, n {:trigger AfterCall(cfg, w, c), calls[n]} ::
      (&& 0 <= n < |calls| && c.sessionId == sid && IsReplayOf(c, t, calls[n])
       && Replays(AttemptsOf(w.sessions, sid), calls, n)) ==>
        Replays(AttemptsOf(AfterCall(cfg, w, c).sessions, sid), calls, n + 1)
  }

  lemma {:induction false} PlayedBackHistory(
    cfg: Config, timeout: real, events: seq<Event>, sid: string, t: TaskType, calls: seq<ToolCall>, n: nat)
    requires PlayBackExtends(cfg, sid, t, calls) && PlaysBack(events, sid, t, calls, n)
    ensures Replays(AttemptsOf(Run(cfg, timeout, EMPTY, events).sessions, sid), calls, n)
  {
    if events != [] {
      var front, e := events[..|events| - 1], events[|events| - 1];
      var w := Run(cfg, timeout, EMPTY, front);
      if e.Intercept? && e.call.sessionId == sid {
        PlayedBackHistory(cfg, timeout, front, sid, t, calls, n - 1);
      } else {
        PlayedBackHistory(cfg, timeout, front, sid, t, calls, n);
        OtherEventsLeaveSession(cfg, timeout, w, e, sid);
      }
    }
  }

  /**
   * No false positives on any seed: played back from a fresh store through the pipeline, whatever the opaque
   * detectors find on the way, no call of a generated session is flagged by a structural detector, and each call
   * is answered ALLOW exactly when the opaque detectors are silent on it; then its tool runs.
   */
  lemma GeneratedSessionIsAllowedIff(
    cfg: Config, timeout: real, events: seq<Event>, c: Call, t: TaskType, s: Source, pos: nat, n: nat)
    requires Knows(cfg, cfg.baselines(t), Template(t)) && Fit(s)
    requires n < |SessionCalls(t, s, pos)| && IsReplayOf(c, t, SessionCalls(t, s, pos)[n])
    requires PlaysBack(events, c.sessionId, t, SessionCalls(t, s, pos), n)
    ensures OnlyOpaqueFlags(cfg, Run(cfg, timeout, EMPTY, events), c)
  {
    var groups, calls := Template(t), SessionCalls(t, s, pos);
    SessionIsWellShaped(t, s, pos);
    forall w: World, c': Call, k
      | 0 <= k < |calls| && c'.sessionId == c.sessionId && IsReplayOf(c', t, calls[k])
        && Replays(AttemptsOf(w.sessions, c.sessionId), calls, k)
      ensures Replays(AttemptsOf(AfterCall(cfg, w, c').sessions, c.sessionId), calls, k + 1)
    {
      PlayBackStep(cfg, w, c', t, groups, s, calls, k);
    }
    PlayedBackHistory(cfg, timeout, events, c.sessionId, t, calls, n);
    ReplayedCallHasOpaqueFlagsOnly(cfg, Run(cfg, timeout, EMPTY, events), c, t, groups, s, calls, n);
  }

  lemma DefaultSchemaOf(t: TaskType, g: StepGroup)
    requires g in Template(t)
    ensures g.toolName in DefaultSchemas() && DefaultSchemas()[g.toolName] == SchemaOf(g.kind)
  {
    match t
    case InboxTriage =>
    case FlightBooking =>
    case CalendarScheduling =>
    case FileSharing =>
    case ContactUpdate =>
  }

  lemma DefaultTierOf(t: TaskType, g: StepGroup)
    requires g in Template(t)
    ensures g.toolName in DefaultTiers() && !DefaultTiers()[g.toolName].IrreversibleHighValue?
    ensures g.toolName in OutboundTools() ==> g.kind.InboxReply? && g.toolName == "reply_to_email"
  {
    match t
    case InboxTriage =>
    case FlightBooking =>
    case CalendarScheduling =>
    case FileSharing =>
    case ContactUpdate =>
  }

  /** The default registries know every task template, and the default word lists are usable. */
  lemma DefaultsKnowTemplates(cfg: Config, t: TaskType)
    requires cfg.tiers == DefaultTiers() && cfg.impls == DefaultTiers().Keys && cfg.schemas == DefaultSchemas()
    requires cfg.baselines(t) == BaselineFootprint(t)
    ensures Knows(cfg, cfg.baselines(t), Template(t))
  {
    forall g | g in Template(t)
      ensures g.toolName in cfg.tiers && !cfg.tiers[g.toolName].IrreversibleHighValue?
      ensures g.toolName in cfg.schemas && cfg.schemas[g.toolName] == SchemaOf(g.kind)
      ensures g.toolName in cfg.baselines(t)
      ensures g.toolName in OutboundTools() ==> g.kind.InboxReply? && g.toolName == "reply_to_email"
    {
      DefaultSchemaOf(t, g);
      DefaultTierOf(t, g);
    }
  }
}
