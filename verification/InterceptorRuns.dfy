/** What every run of the guarded call pipeline keeps. */
module InterceptionRuns {
  import opened Common
  import opened RiskTiers
  import opened ResponseTiers
  import opened FakeTools
  import opened SessionStore
  import opened TaskSim
  import opened Detectors
  import opened Interception

  // ---------------------------------------------------------------------------------------------
  // One attempt per call

  /** `s` is the store `before` with exactly one more attempt, for this call, in its own session. */
  ghost predicate OneAttemptAppended(before: Sessions, after: Sessions, c: Call) {
    && (exists outcome, detail ::
          AttemptsOf(after, c.sessionId)
          == AttemptsOf(before, c.sessionId) + [CallAttempt(CallRecord(c), outcome, detail)])
    && forall sid :: sid != c.sessionId ==> AttemptsOf(after, sid) == AttemptsOf(before, sid)
  }

  lemma ApplyAppendsOne(cfg: Config, w: World, c: Call, d: Disposition)
    ensures if d.Raise? then Apply(cfg, w, c, d) == w
            else OneAttemptAppended(w.sessions, Apply(cfg, w, c, d).sessions, c)
  {
    if !d.Raise? {
      var outcome := if d.Permit? then Allowed else if d.Refuse? then Blocked else PendingApproval;
      var detail := if d.Hold? then DetailOf(d.flags, Some(c.requestId)) else d.detail;
      assert AttemptsOf(Apply(cfg, w, c, d).sessions, c.sessionId)
          == AttemptsOf(w.sessions, c.sessionId) + [CallAttempt(CallRecord(c), outcome, detail)];
    }
  }

  /**
   * A call either raises with store, queue and execution log unchanged, or appends exactly one attempt;
   * the one exception that comes after an attempt was recorded needs a tool with a tier and no body.
   */
  lemma EveryCallIsRecordedOnce(cfg: Config, w: World, c: Call)
    ensures var r, w' := ReplyTo(cfg, w, c), AfterCall(cfg, w, c);
      && (r.ScoringError? || r.UnregisteredTool? ==> w' == w)
      && (r.Result? || r.MissingImplementation? ==> OneAttemptAppended(w.sessions, w'.sessions, c))
      && (r.MissingImplementation? ==> c.toolName in cfg.tiers && c.toolName !in cfg.impls)
  {
    ApplyAppendsOne(cfg, w, c, Dispose(cfg, w, c));
  }

  // ---------------------------------------------------------------------------------------------
  // The execution log and the attempt log

  type Trail = seq<(string, Params)>

  /** Tool and parameters of a session's executed bodies, in order. */
  function ExecutedIn(executed: seq<Execution>, sid: string): Trail {
    Map(Filter(executed, RunFor(sid)), (e: Execution) => (e.toolName, e.params))
  }

  function RunFor(sid: string): Execution -> bool {
    (e: Execution) => e.sessionId == sid
  }

  /** Tool and parameters of the ALLOWED attempts, in order. */
  function AllowedIn(attempts: seq<CallAttempt>): Trail {
    Map(Filter(attempts, WasAllowed()), (a: CallAttempt) => (a.call.toolName, a.call.params))
  }

  function WasAllowed(): CallAttempt -> bool {
    (a: CallAttempt) => a.outcome.Allowed?
  }

  lemma ExecutedSnoc(executed: seq<Execution>, e: Execution, sid: string)
    ensures ExecutedIn(executed + [e], sid)
         == ExecutedIn(executed, sid) + if e.sessionId == sid then [(e.toolName, e.params)] else []
  {
    FilterSnoc(executed, e, RunFor(sid));
  }

  lemma AllowedSnoc(attempts: seq<CallAttempt>, a: CallAttempt)
    ensures AllowedIn(attempts + [a])
         == AllowedIn(attempts) + if a.outcome.Allowed? then [(a.call.toolName, a.call.params)] else []
  {
    FilterSnoc(attempts, a, WasAllowed());
  }

  ghost predicate LogsAgree(w: World) {
    forall sid :: ExecutedIn(w.executed, sid) == AllowedIn(AttemptsOf(w.sessions, sid))
  }

  predicate RunsUnder(cfg: Config, c: Call, d: Disposition) {
    d.Permit? && c.toolName in cfg.tiers && c.toolName in cfg.impls
  }

  /** Whether the call's tool body runs. */
  predicate RunsTool(cfg: Config, w: World, c: Call) {
    RunsUnder(cfg, c, Dispose(cfg, w, c))
  }

  function This(c: Call): Trail {
    [(c.toolName, c.params)]
  }

  /** What one call adds to the execution log, session by session. */
  lemma ApplyExtendsExecutions(cfg: Config, w: World, c: Call, d: Disposition, sid: string)
    ensures ExecutedIn(Apply(cfg, w, c, d).executed, sid)
         == ExecutedIn(w.executed, sid) + (if sid == c.sessionId && RunsUnder(cfg, c, d) then This(c) else [])
  {
    if RunsUnder(cfg, c, d) {
      ExecutedSnoc(w.executed, Execution(c.sessionId, c.toolName, c.params), sid);
    }
  }

  /** What one call adds to the ALLOWED attempts, session by session. */
  lemma ApplyExtendsAllowed(cfg: Config, w: World, c: Call, d: Disposition, sid: string)
    ensures AllowedIn(AttemptsOf(Apply(cfg, w, c, d).sessions, sid))
         == AllowedIn(AttemptsOf(w.sessions, sid)) + (if sid == c.sessionId && d.Permit? then This(c) else [])
  {
    ApplyAppendsOne(cfg, w, c, d);
    if !d.Raise? && sid == c.sessionId {
      var before, after := AttemptsOf(w.sessions, sid), AttemptsOf(Apply(cfg, w, c, d).sessions, sid);
      var a := after[|after| - 1];
      assert after == before + [a];
      AllowedSnoc(before, a);
    }
  }

  lemma ApplyKeepsLogsInStepIff(cfg: Config, w: World, c: Call, d: Disposition)
    requires LogsAgree(w)
    ensures LogsAgree(Apply(cfg, w, c, d)) <==> (d.Permit? ==> c.toolName in cfg.tiers && c.toolName in cfg.impls)
  {
    var w' := Apply(cfg, w, c, d);
    forall sid
      ensures ExecutedIn(w'.executed, sid) == AllowedIn(AttemptsOf(w'.sessions, sid))
           || (sid == c.sessionId && d.Permit? && !(c.toolName in cfg.tiers && c.toolName in cfg.impls))
    {
      ApplyExtendsExecutions(cfg, w, c, d, sid);
      ApplyExtendsAllowed(cfg, w, c, d, sid);
    }
    ApplyExtendsExecutions(cfg, w, c, d, c.sessionId);
    ApplyExtendsAllowed(cfg, w, c, d, c.sessionId);
  }

  /** Only tools with a tier are ever let through. */
  lemma PermittedHasTier(cfg: Config, w: World, c: Call)
    requires Dispose(cfg, w, c).Permit?
    ensures c.toolName in cfg.tiers
  {
    FailsOpenIffReversible(cfg.tiers, c.toolName);
  }

  /**
   * The two logs stay in step through a call exactly when a call that is let through has an implementation: else
   * the attempt is recorded as ALLOWED, no body runs, and the reply is the missing implementation.
   */
  lemma LogsStayInStepIff(cfg: Config, w: World, c: Call)
    requires LogsAgree(w)
    ensures LogsAgree(AfterCall(cfg, w, c)) <==> (Dispose(cfg, w, c).Permit? ==> c.toolName in cfg.impls)
    ensures LogsAgree(AfterCall(cfg, w, c)) <==> !ReplyTo(cfg, w, c).MissingImplementation?
  {
    ImplementationIsMissingIff(cfg, w, c);
    ApplyKeepsLogsInStepIff(cfg, w, c, Dispose(cfg, w, c));
    if Dispose(cfg, w, c).Permit? {
      PermittedHasTier(cfg, w, c);
    }
  }

  lemma ImplementationIsMissingIff(cfg: Config, w: World, c: Call)
    ensures ReplyTo(cfg, w, c).MissingImplementation? <==>
            Dispose(cfg, w, c).Permit? && !(c.toolName in cfg.tiers && c.toolName in cfg.impls)
  {
    FailsOpenIffReversible(cfg.tiers, c.toolName);
  }

  /**
   * In every run, shadow mode included, the executed tool bodies of a session are its ALLOWED attempts,
   * in the same order, with the same tools and parameters, if every tool with a tier has an implementation.
   */
  lemma {:induction false} ExecutedAreTheAllowedAttempts(cfg: Config, timeout: real, events: seq<Event>)
    requires cfg.tiers.Keys <= cfg.impls
    ensures LogsAgree(Run(cfg, timeout, EMPTY, events))
  {
    if events != [] {
      var front, e := events[..|events| - 1], events[|events| - 1];
      ExecutedAreTheAllowedAttempts(cfg, timeout, front);
      if e.Intercept? {
        var w := Run(cfg, timeout, EMPTY, front);
        LogsStayInStepIff(cfg, w, e.call);
        if Dispose(cfg, w, e.call).Permit? {
          PermittedHasTier(cfg, w, e.call);
        }
      }
    }
  }

  /** A call that is let through whatever the detectors find. */
  function ShadowCall(tool: string): Call {
    Call("s", InboxTriage, tool, map[], 0, true, Scored(false, false), "id", 0.0)
  }

  /** One shadow call of a tool with a tier and no implementation brings the logs out of step. */
  lemma MissingImplementationBreaksLogs(cfg: Config, timeout: real, tool: string)
    requires tool in cfg.tiers && tool !in cfg.impls
    ensures !LogsAgree(Run(cfg, timeout, EMPTY, [Intercept(ShadowCall(tool))]))
  {
    var events := [Intercept(ShadowCall(tool))];
    assert events[..0] == [];
    LogsStayInStepIff(cfg, EMPTY, ShadowCall(tool));
    assert Run(cfg, timeout, EMPTY, events) == AfterCall(cfg, EMPTY, ShadowCall(tool));
  }

  /** The two logs agree in every run exactly when every tool with a tier has an implementation. */
  lemma LogsAgreeInEveryRunIff(cfg: Config, timeout: real)
    ensures (forall events :: LogsAgree(Run(cfg, timeout, EMPTY, events))) <==> cfg.tiers.Keys <= cfg.impls
  {
    if cfg.tiers.Keys <= cfg.impls {
      forall events
        ensures LogsAgree(Run(cfg, timeout, EMPTY, events))
      {
        ExecutedAreTheAllowedAttempts(cfg, timeout, events);
      }
    } else {
      var tool :| tool in cfg.tiers && tool !in cfg.impls;
      MissingImplementationBreaksLogs(cfg, timeout, tool);
    }
  }

  // ---------------------------------------------------------------------------------------------
  // Execution caps

  /** How many entries of a trail use one of the tools. */
  function CountTools(trail: Trail, tools: set<string>): nat {
    |Filter(trail, UsesOneOf(tools))|
  }

  function UsesOneOf(tools: set<string>): ((string, Params)) -> bool {
    (x: (string, Params)) => x.0 in tools
  }

  /**
   * With shadow mode off, the body of an irreversible tool runs only on a call that was scored
   * and that no detector flagged; in particular never while the breaker is open.
   */
  lemma IrreversibleRunsOnlyUnflagged(cfg: Config, w: World, c: Call)
    requires RunsTool(cfg, w, c) && Irreversible(cfg.tiers[c.toolName]) && !c.shadowMode
    ensures c.verdict.Scored? && FlaggedDetectorCount(FlagsOf(cfg, w, c)) == 0
  {
  }

  /** The cap for one group of irreversible tools that a detector counts together. */
  ghost predicate Capped(w: World, sid: string, tools: set<string>, cap: nat) {
    CountTools(ExecutedIn(w.executed, sid), tools) <= cap
  }

  /** A test that counts a group of tools, and silences no unflagged call beyond the cap. */
  ghost predicate Guards(cfg: Config, w: World, c: Call, tools: set<string>, p: CallAttempt -> bool, cap: nat) {
    c.toolName in tools && RunsTool(cfg, w, c) && !c.shadowMode ==>
      |Filter(AttemptsOf(w.sessions, c.sessionId), p)| < cap
  }

  /** No more executions of the tools than the cap, nor than recorded attempts at them. */
  ghost predicate Bounded(w: World, sid: string, tools: set<string>, p: CallAttempt -> bool, cap: nat) {
    && Capped(w, sid, tools, cap)
    && CountTools(ExecutedIn(w.executed, sid), tools) <= |Filter(AttemptsOf(w.sessions, sid), p)|
  }

  ghost predicate Tests(p: CallAttempt -> bool, tools: set<string>) {
    forall a :: p(a) <==> a.call.toolName in tools
  }

  lemma ExecutionsAfter(cfg: Config, w: World, c: Call, d: Disposition, sid: string, tools: set<string>)
    ensures CountTools(ExecutedIn(Apply(cfg, w, c, d).executed, sid), tools)
         == CountTools(ExecutedIn(w.executed, sid), tools)
            + if c.sessionId == sid && RunsUnder(cfg, c, d) && c.toolName in tools then 1 else 0
  {
    ApplyExtendsExecutions(cfg, w, c, d, sid);
    FilterSnoc(ExecutedIn(w.executed, sid), (c.toolName, c.params), UsesOneOf(tools));
  }

  lemma AttemptsAfter(
    cfg: Config, w: World, c: Call, d: Disposition, sid: string, tools: set<string>, p: CallAttempt -> bool)
    requires Tests(p, tools)
    ensures |Filter(AttemptsOf(Apply(cfg, w, c, d).sessions, sid), p)|
         == |Filter(AttemptsOf(w.sessions, sid), p)|
            + if c.sessionId == sid && !d.Raise? && c.toolName in tools then 1 else 0
  {
    ApplyAppendsOne(cfg, w, c, d);
    if c.sessionId == sid && !d.Raise? {
      var before, after := AttemptsOf(w.sessions, sid), AttemptsOf(Apply(cfg, w, c, d).sessions, sid);
      var a := after[|after| - 1];
      assert after == before + [a];
      FilterSnoc(before, a, p);
    }
  }

  lemma CapStep(cfg: Config, w: World, c: Call, sid: string, tools: set<string>, p: CallAttempt -> bool, cap: nat)
    requires Tests(p, tools) && Bounded(w, sid, tools, p, cap)
    requires Guards(cfg, w, c, tools, p, cap) && (c.sessionId == sid ==> !c.shadowMode)
    ensures Bounded(AfterCall(cfg, w, c), sid, tools, p, cap)
  {
    var d := Dispose(cfg, w, c);
    ExecutionsAfter(cfg, w, c, d, sid, tools);
    AttemptsAfter(cfg, w, c, d, sid, tools, p);
  }

  lemma {:induction false} GuardedToolsAreCapped(
    cfg: Config, timeout: real, events: seq<Event>, sid: string, tools: set<string>, p: CallAttempt -> bool, cap: nat)
    requires Tests(p, tools) && NoShadow(events, sid)
    requires forall w, c :: Guards(cfg, w, c, tools, p, cap)
    ensures Bounded(Run(cfg, timeout, EMPTY, events), sid, tools, p, cap)
  {
    if events != [] {
      var front, e := events[..|events| - 1], events[|events| - 1];
      FrontHasNoShadow(events, sid);
      GuardedToolsAreCapped(cfg, timeout, front, sid, tools, p, cap);
      if e.Intercept? {
        CapStep(cfg, Run(cfg, timeout, EMPTY, front), e.call, sid, tools, p, cap);
      }
    }
  }

  ghost predicate OutboundToolsAreIrreversible(cfg: Config) {
    forall t :: t in OutboundTools() && t in cfg.tiers ==> Irreversible(cfg.tiers[t])
  }

  lemma ExfiltrationDetectorGuards(cfg: Config, w: World, c: Call)
    requires OutboundToolsAreIrreversible(cfg)
    ensures Guards(cfg, w, c, OutboundTools(), IsOutbound(), DEFAULT_OUTBOUND_FREQUENCY_THRESHOLD - 1)
  {
    if c.toolName in OutboundTools() && RunsTool(cfg, w, c) && !c.shadowMode {
      IrreversibleRunsOnlyUnflagged(cfg, w, c);
      OutboundPassesIff(
        AttemptsOf(w.sessions, c.sessionId), c.toolName, c.params,
        DEFAULT_OUTBOUND_FREQUENCY_THRESHOLD, DEFAULT_CONTENT_SIZE_THRESHOLD);
    }
  }

  lemma LoopRateDetectorGuards(cfg: Config, w: World, c: Call, tool: string)
    requires tool in cfg.tiers && Irreversible(cfg.tiers[tool])
    ensures Guards(cfg, w, c, {tool}, OfTool(tool), DEFAULT_RATE_THRESHOLD - 1)
  {
    if c.toolName == tool && RunsTool(cfg, w, c) && !c.shadowMode {
      IrreversibleRunsOnlyUnflagged(cfg, w, c);
    }
  }

  lemma FrontHasNoShadow(events: seq<Event>, sid: string)
    requires events != [] && NoShadow(events, sid)
    ensures NoShadow(events[..|events| - 1], sid)
    ensures var e := events[|events| - 1]; e.Intercept? && e.call.sessionId == sid ==> !e.call.shadowMode
  {
    assert events[|events| - 1] in events;
  }

  /**
   * Whatever is called, and however the breaker behaves, a session whose calls are not in shadow mode
   * executes at most `frequency_threshold - 1` outbound calls in all.
   */
  lemma OutboundExecutionsAreCapped(cfg: Config, timeout: real, events: seq<Event>, sid: string)
    requires OutboundToolsAreIrreversible(cfg) && NoShadow(events, sid)
    ensures Capped(Run(cfg, timeout, EMPTY, events), sid, OutboundTools(), DEFAULT_OUTBOUND_FREQUENCY_THRESHOLD - 1)
  {
    var tools, p, cap := OutboundTools(), IsOutbound(), DEFAULT_OUTBOUND_FREQUENCY_THRESHOLD - 1;
    forall w, c
      ensures Guards(cfg, w, c, tools, p, cap)
    {
      ExfiltrationDetectorGuards(cfg, w, c);
    }
    GuardedToolsAreCapped(cfg, timeout, events, sid, tools, p, cap);
  }

  /** So it is with the default tiers, whatever else the pipeline is configured with. */
  lemma DefaultOutboundExecutionsAreCapped(cfg: Config, timeout: real, events: seq<Event>, sid: string)
    requires cfg.tiers == DefaultTiers() && NoShadow(events, sid)
    ensures Capped(Run(cfg, timeout, EMPTY, events), sid, OutboundTools(), DEFAULT_OUTBOUND_FREQUENCY_THRESHOLD - 1)
  {
    OutboundExecutionsAreCapped(cfg, timeout, events, sid);
  }

  /** The same for any one irreversible tool: at most `rate_threshold - 1` executions. */
  lemma IrreversibleExecutionsAreCapped(cfg: Config, timeout: real, events: seq<Event>, sid: string, tool: string)
    requires NoShadow(events, sid) && tool in IrreversibleTools(cfg)
    ensures Capped(Run(cfg, timeout, EMPTY, events), sid, {tool}, DEFAULT_RATE_THRESHOLD - 1)
  {
    var tools, p, cap := {tool}, OfTool(tool), DEFAULT_RATE_THRESHOLD - 1;
    forall w, c
      ensures Guards(cfg, w, c, tools, p, cap)
    {
      LoopRateDetectorGuards(cfg, w, c, tool);
    }
    GuardedToolsAreCapped(cfg, timeout, events, sid, tools, p, cap);
  }

  // ---------------------------------------------------------------------------------------------
  // Sticky escalation

  /** Every call of the session is made for the same task. */
  ghost predicate FixedTask(events: seq<Event>, sid: string, task: TaskType) {
    forall e :: e in events && e.Intercept? && e.call.sessionId == sid ==> e.call.task == task
  }

  ghost predicate HasLeftBaseline(cfg: Config, w: World, sid: string, task: TaskType) {
    exists a :: a in AttemptsOf(w.sessions, sid) && OutsideBaseline(cfg.baselines(task), a)
  }

  /** The tools of the irreversible tiers. */
  function IrreversibleTools(cfg: Config): set<string> {
    set t | t in cfg.tiers && Irreversible(cfg.tiers[t])
  }

  lemma HistoryOnlyGrows(cfg: Config, timeout: real, w: World, e: Event, sid: string)
    ensures AttemptsOf(w.sessions, sid) <= AttemptsOf(AfterEvent(cfg, timeout, w, e).sessions, sid)
  {
    if e.Intercept? {
      ApplyAppendsOne(cfg, w, e.call, Dispose(cfg, w, e.call));
    }
  }

  /** A call of an irreversible tool does not run when its tool, or anything recorded, lies outside the baseline. */
  lemma EscalatedRunsNothingIrreversible(cfg: Config, w: World, c: Call)
    requires !c.shadowMode && c.toolName in IrreversibleTools(cfg)
    requires HasLeftBaseline(cfg, w, c.sessionId, c.task) || c.toolName !in cfg.baselines(c.task)
    ensures !RunsTool(cfg, w, c)
  {
    if RunsTool(cfg, w, c) {
      IrreversibleRunsOnlyUnflagged(cfg, w, c);
      EscalatedIffSomethingOutside(cfg.baselines(c.task), AttemptsOf(w.sessions, c.sessionId), c.toolName);
    }
  }

  /**
   * Escalation is sticky: once a session has any recorded attempt outside its task's baseline, whatever
   * came of it, no irreversible tool executes in that session for the rest of any run without shadow mode.
   */
  lemma {:induction false} EscalationIsSticky(
    cfg: Config, timeout: real, w: World, events: seq<Event>, sid: string, task: TaskType)
    requires HasLeftBaseline(cfg, w, sid, task)
    requires NoShadow(events, sid) && FixedTask(events, sid, task)
    ensures HasLeftBaseline(cfg, Run(cfg, timeout, w, events), sid, task)
    ensures CountTools(ExecutedIn(Run(cfg, timeout, w, events).executed, sid), IrreversibleTools(cfg))
         == CountTools(ExecutedIn(w.executed, sid), IrreversibleTools(cfg))
  {
    if events != [] {
      var front, e := events[..|events| - 1], events[|events| - 1];
      assert e in events;
      FrontHasNoShadow(events, sid);
      EscalationIsSticky(cfg, timeout, w, front, sid, task);
      var w' := Run(cfg, timeout, w, front);
      HistoryOnlyGrows(cfg, timeout, w', e, sid);
      var a :| a in AttemptsOf(w'.sessions, sid) && OutsideBaseline(cfg.baselines(task), a);
      assert a in AttemptsOf(AfterEvent(cfg, timeout, w', e).sessions, sid);
      if e.Intercept? {
        QuietCall(cfg, w', e.call, sid);
      }
    }
  }

  /** A call that runs no irreversible tool in the session leaves the session's count of those as it was. */
  lemma QuietCall(cfg: Config, w: World, c: Call, sid: string)
    requires c.sessionId == sid ==> !c.shadowMode
    requires c.sessionId == sid ==>
               (|| HasLeftBaseline(cfg, w, sid, c.task)
                || c.toolName !in cfg.baselines(c.task)
                || c.toolName !in IrreversibleTools(cfg))
    ensures var tools := IrreversibleTools(cfg);
            CountTools(ExecutedIn(AfterCall(cfg, w, c).executed, sid), tools)
            == CountTools(ExecutedIn(w.executed, sid), tools)
  {
    ExecutionsAfter(cfg, w, c, Dispose(cfg, w, c), sid, IrreversibleTools(cfg));
    if c.sessionId == sid && c.toolName in IrreversibleTools(cfg) {
      EscalatedRunsNothingIrreversible(cfg, w, c);
    }
  }

  lemma OffTaskStep(cfg: Config, w: World, c: Call, sid: string, tool: string)
    requires tool in IrreversibleTools(cfg) && forall task :: tool !in cfg.baselines(task)
    requires c.sessionId == sid ==> !c.shadowMode
    ensures CountTools(ExecutedIn(AfterCall(cfg, w, c).executed, sid), {tool})
         == CountTools(ExecutedIn(w.executed, sid), {tool})
  {
    ExecutionsAfter(cfg, w, c, Dispose(cfg, w, c), sid, {tool});
    if c.toolName == tool && c.sessionId == sid {
      EscalatedRunsNothingIrreversible(cfg, w, c);
    }
  }

  /** An irreversible tool outside every task's baseline never executes at all without shadow mode. */
  lemma {:induction false} OffTaskIrreversibleNeverRuns(
    cfg: Config, timeout: real, events: seq<Event>, sid: string, tool: string)
    requires tool in IrreversibleTools(cfg) && forall task :: tool !in cfg.baselines(task)
    requires NoShadow(events, sid)
    ensures CountTools(ExecutedIn(Run(cfg, timeout, EMPTY, events).executed, sid), {tool}) == 0
  {
    if events != [] {
      var front, e := events[..|events| - 1], events[|events| - 1];
      FrontHasNoShadow(events, sid);
      OffTaskIrreversibleNeverRuns(cfg, timeout, front, sid, tool);
      if e.Intercept? {
        var w := Run(cfg, timeout, EMPTY, front);
        OffTaskStep(cfg, w, e.call, sid, tool);
      }
    }
  }

  predicate IsAttackTarget(tool: string) {
    tool == "send_payment" || tool == "delete_data" || tool == "modify_permissions" || tool == "set_forwarding_rule"
  }

  lemma AttackTargetsAreOffTask(tool: string, task: TaskType)
    requires IsAttackTarget(tool)
    ensures tool !in BaselineFootprint(task)
  {
    match task
    case InboxTriage =>
    case FlightBooking =>
    case CalendarScheduling =>
    case FileSharing =>
    case ContactUpdate =>
  }

  /** With the default tiers and templates the attack-target tools never execute, for any task and any calls. */
  lemma AttackTargetsNeverExecute(cfg: Config, timeout: real, events: seq<Event>, sid: string, tool: string)
    requires cfg.tiers == DefaultTiers() && forall task :: cfg.baselines(task) == BaselineFootprint(task)
    requires IsAttackTarget(tool) && NoShadow(events, sid)
    ensures CountTools(ExecutedIn(Run(cfg, timeout, EMPTY, events).executed, sid), {tool}) == 0
  {
    assert tool in IrreversibleTools(cfg);
    forall task
      ensures tool !in cfg.baselines(task)
    {
      AttackTargetsAreOffTask(tool, task);
    }
    OffTaskIrreversibleNeverRuns(cfg, timeout, events, sid, tool);
  }

  // ---------------------------------------------------------------------------------------------
  // Shadow mode

  /**
   * Shadow mode never holds a call, and it refuses one exactly while the breaker is open for a tool that is not
   * registered as reversible. The body runs exactly for a tool with tier and implementation, unless scoring
   * raises, or the breaker is open and the tool irreversible.
   */
  lemma ShadowModeExecutesIff(cfg: Config, w: World, c: Call)
    requires c.shadowMode
    ensures var d, registered := Dispose(cfg, w, c), c.toolName in cfg.tiers;
      && !d.Hold?
      && (d.Refuse? <==> c.verdict.CircuitOpen? && !(registered && !Irreversible(cfg.tiers[c.toolName])))
      && (RunsTool(cfg, w, c) <==>
          && registered && c.toolName in cfg.impls && !c.verdict.ScoringRaised?
          && !(c.verdict.CircuitOpen? && Irreversible(cfg.tiers[c.toolName])))
  {
    FailsOpenIffReversible(cfg.tiers, c.toolName);
  }

  /** A shadow call that is blocked: the breaker is open and the tool a payment. */
  lemma ShadowModeCanBlock(task: TaskType, schemas: map<string, ToolSchema>, baselines: Baselines)
    ensures var cfg := Config(map["send_payment" := IrreversibleHighValue], {"send_payment"}, schemas, baselines);
            var c := Call("s", task, "send_payment", map[], 0, true, CircuitOpen, "id", 0.0);
            && cfg.tiers.Keys == cfg.impls
            && ReplyTo(cfg, EMPTY, c) == Result(Block, None, true, false)
            && !RunsTool(cfg, EMPTY, c)
  {
    assert map["send_payment" := IrreversibleHighValue].Keys == {"send_payment"};
  }

  /** What the caller is told agrees with what happened: `allowed` exactly when the body ran. */
  lemma AllowedIffExecuted(cfg: Config, w: World, c: Call)
    ensures var r := ReplyTo(cfg, w, c);
      && (r.Result? ==> (IsAllowed(r) <==> RunsTool(cfg, w, c)))
      && (RunsTool(cfg, w, c) ==> r.Result?)
      && (r.Result? ==> (r.approvalRequestId.Some? <==> Dispose(cfg, w, c).Hold?))
  {
    FailsOpenIffReversible(cfg.tiers, c.toolName);
  }
}
