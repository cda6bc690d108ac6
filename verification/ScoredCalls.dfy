/**
 * What the answer to a call is, read off the session's history, the call and the tables: which detectors fire,
 * and what is answered, recorded, requested and executed.
 */
module ScoredCalls {
  import opened Common
  import opened RiskTiers
  import opened ResponseTiers
  import opened FakeTools
  import opened SessionStore
  import opened Detectors
  import opened Interception
  import Runs = InterceptionRuns
  import Approvals

  datatype Detector = Schema | Divergence | Escalation | LoopRate | Exfiltration | ContentPattern

  const DETECTORS := {Schema, Divergence, Escalation, LoopRate, Exfiltration, ContentPattern}

  /** How many recorded attempts, of whatever outcome, use one of the tools. */
  function AttemptsAt(history: seq<CallAttempt>, tools: set<string>): nat {
    |set i | 0 <= i < |history| && history[i].call.toolName in tools|
  }

  /** The latest attempt at the tool was blocked and had other parameters. */
  ghost predicate FollowsBlockedVariant(history: seq<CallAttempt>, toolName: string, params: Params) {
    exists i ::
      && 0 <= i < |history| && history[i].call.toolName == toolName
      && (forall j :: i < j < |history| ==> history[j].call.toolName != toolName)
      && history[i].outcome.Blocked? && history[i].call.params != params
  }

  predicate FitsSchema(schema: ToolSchema, params: Params) {
    && (forall k :: k in schema.requiredParams ==> k in params)
    && (forall k :: k in params ==> k in schema.requiredParams || k in schema.optionalParams)
  }

  /** When a detector fires on a call whose scoring comes through. */
  ghost predicate Fires(cfg: Config, w: World, c: Call, d: Detector)
    requires c.verdict.Scored?
  {
    var history, baseline := AttemptsOf(w.sessions, c.sessionId), cfg.baselines(c.task);
    var outbound := {"reply_to_email", "set_forwarding_rule", "send_payment"};
    match d
    case Schema => c.toolName in cfg.schemas && !FitsSchema(cfg.schemas[c.toolName], c.params)
    case Divergence => c.verdict.divergent
    case Escalation => c.toolName !in baseline || exists a :: a in history && a.call.toolName !in baseline
    case LoopRate =>
      AttemptsAt(history, {c.toolName}) + 1 >= 7 || FollowsBlockedVariant(history, c.toolName, c.params)
    case Exfiltration =>
      && c.toolName in outbound
      && (AttemptsAt(history, outbound) + 1 >= 7 || exists k :: k in c.params && |c.params[k]| > 150)
    case ContentPattern => c.verdict.suspicious
  }

  /** The detectors that fire. */
  ghost function Firing(cfg: Config, w: World, c: Call): set<Detector>
    requires c.verdict.Scored?
  {
    set d | d in DETECTORS && Fires(cfg, w, c, d)
  }

  // ---------------------------------------------------------------------------------------------
  // The flags

  lemma FilterIsAttemptsAt(history: seq<CallAttempt>, tools: set<string>, p: CallAttempt -> bool)
    requires Runs.Tests(p, tools)
    ensures |Filter(history, p)| == AttemptsAt(history, tools)
  {
    FilterCountsPositions(history, p);
    var using := set i | 0 <= i < |history| && history[i].call.toolName in tools;
    assert Positions(history, p) == using;
  }

  lemma SchemaFlagMeans(cfg: Config, w: World, c: Call)
    requires c.verdict.Scored?
    ensures FlagsOf(cfg, w, c).schema <==> Fires(cfg, w, c, Schema)
  {
    if c.toolName in cfg.schemas {
      ConformsIffKeysFit(cfg.schemas, c.toolName, c.params);
    }
  }

  lemma EscalationFlagMeans(cfg: Config, w: World, c: Call)
    requires c.verdict.Scored?
    ensures FlagsOf(cfg, w, c).escalation <==> Fires(cfg, w, c, Escalation)
  {
    EscalatedIffSomethingOutside(cfg.baselines(c.task), AttemptsOf(w.sessions, c.sessionId), c.toolName);
  }

  lemma LoopRateFlagMeans(cfg: Config, w: World, c: Call)
    requires c.verdict.Scored?
    ensures FlagsOf(cfg, w, c).loopRate <==> Fires(cfg, w, c, LoopRate)
  {
    var history := AttemptsOf(w.sessions, c.sessionId);
    FilterIsAttemptsAt(history, {c.toolName}, OfTool(c.toolName));
    RetryKindIsDecidedByLatestAttempt(history, c.toolName, c.params, DEFAULT_RATE_THRESHOLD);
    if FollowsBlockedVariant(history, c.toolName, c.params) {
      var i :| && 0 <= i < |history| && history[i].call.toolName == c.toolName
               && (forall j :: i < j < |history| ==> history[j].call.toolName != c.toolName)
               && history[i].outcome.Blocked? && history[i].call.params != c.params;
      assert IsLatestOfTool(history, c.toolName, i);
    }
  }

  lemma ExfiltrationFlagMeans(cfg: Config, w: World, c: Call)
    requires c.verdict.Scored?
    ensures FlagsOf(cfg, w, c).exfiltration <==> Fires(cfg, w, c, Exfiltration)
  {
    var history := AttemptsOf(w.sessions, c.sessionId);
    FilterIsAttemptsAt(history, OutboundTools(), IsOutbound());
    OutboundPassesIff(
      history, c.toolName, c.params, DEFAULT_OUTBOUND_FREQUENCY_THRESHOLD, DEFAULT_CONTENT_SIZE_THRESHOLD);
  }

  /** Each flag of a scored call says that its detector fires. */
  lemma FlagsMean(cfg: Config, w: World, c: Call)
    requires c.verdict.Scored?
    ensures FlagsOf(cfg, w, c) == DetectorFlags(
              Fires(cfg, w, c, Schema), Fires(cfg, w, c, Divergence), Fires(cfg, w, c, Escalation),
              Fires(cfg, w, c, LoopRate), Fires(cfg, w, c, Exfiltration), Fires(cfg, w, c, ContentPattern))
  {
    SchemaFlagMeans(cfg, w, c);
    EscalationFlagMeans(cfg, w, c);
    LoopRateFlagMeans(cfg, w, c);
    ExfiltrationFlagMeans(cfg, w, c);
  }

  lemma WithoutDetector(s: set<Detector>, d: Detector)
    ensures |s| == |s - {d}| + if d in s then 1 else 0
  {
    if d in s {
      assert s == (s - {d}) + {d};
    } else {
      assert s - {d} == s;
    }
  }

  function Has(s: set<Detector>, d: Detector): nat {
    if d in s then 1 else 0
  }

  lemma WithoutThree(s: set<Detector>, d: Detector, e: Detector, f: Detector, rest: set<Detector>)
    requires d != e && d != f && e != f && rest == s - {d, e, f}
    ensures |s| == |rest| + Has(s, d) + Has(s, e) + Has(s, f)
  {
    var s1 := s - {d};
    var s2 := s1 - {e};
    WithoutDetector(s, d);
    WithoutDetector(s1, e);
    WithoutDetector(s2, f);
    assert Has(s1, e) == Has(s, e) && Has(s2, f) == Has(s, f);
    assert s2 - {f} == rest;
  }

  lemma NoOtherDetector(s: set<Detector>)
    requires Schema !in s && Divergence !in s && Escalation !in s
    requires LoopRate !in s && Exfiltration !in s && ContentPattern !in s
    ensures s == {}
  {
    if d :| d in s {
      match d
      case Schema =>
      case Divergence =>
      case Escalation =>
      case LoopRate =>
      case Exfiltration =>
      case ContentPattern =>
    }
  }

  lemma DetectorsCounted(s: set<Detector>)
    ensures |s| == Has(s, Schema) + Has(s, Divergence) + Has(s, Escalation)
                 + Has(s, LoopRate) + Has(s, Exfiltration) + Has(s, ContentPattern)
  {
    var rest := s - {Schema, Divergence, Escalation};
    var none := rest - {LoopRate, Exfiltration, ContentPattern};
    WithoutThree(s, Schema, Divergence, Escalation, rest);
    WithoutThree(rest, LoopRate, Exfiltration, ContentPattern, none);
    NoOtherDetector(none);
  }

  /** The count of raised flags is the number of detectors they stand for. */
  lemma CountIsCardinality(f: DetectorFlags, firing: set<Detector>)
    requires f == DetectorFlags(
               Schema in firing, Divergence in firing, Escalation in firing,
               LoopRate in firing, Exfiltration in firing, ContentPattern in firing)
    ensures FlaggedDetectorCount(f) == |firing|
  {
    DetectorsCounted(firing);
  }

  /** The count is the number of detectors that fire. */
  lemma CountMeans(cfg: Config, w: World, c: Call)
    requires c.verdict.Scored?
    ensures FlaggedDetectorCount(FlagsOf(cfg, w, c)) == |Firing(cfg, w, c)|
  {
    FlagsMean(cfg, w, c);
    CountIsCardinality(FlagsOf(cfg, w, c), Firing(cfg, w, c));
  }

  // ---------------------------------------------------------------------------------------------
  // The answer

  /** The table of responses, in its own words. */
  ghost predicate CallsForBlock(tier: RiskTier, firing: set<Detector>) {
    firing != {} && tier == IrreversibleHighValue
  }

  ghost predicate CallsForApproval(tier: RiskTier, firing: set<Detector>) {
    || (firing != {} && tier == IrreversibleLowValue)
    || (|firing| >= 2 && tier in {ReadOnly, ReversibleWrite})
  }

  ghost predicate CallsForFlag(tier: RiskTier, firing: set<Detector>) {
    |firing| == 1 && tier in {ReadOnly, ReversibleWrite}
  }

  ghost predicate TableSays(answer: ResponseTier, tier: RiskTier, firing: set<Detector>) {
    && (answer == Allow <==> firing == {})
    && (answer == Block <==> CallsForBlock(tier, firing))
    && (answer == RequireApproval <==> CallsForApproval(tier, firing))
    && (answer == Flag <==> CallsForFlag(tier, firing))
  }

  lemma TierMeans(cfg: Config, w: World, c: Call)
    requires c.verdict.Scored? && c.toolName in cfg.tiers
    ensures TableSays(TierOf(cfg, w, c), cfg.tiers[c.toolName], Firing(cfg, w, c))
  {
    CountMeans(cfg, w, c);
    var firing := Firing(cfg, w, c);
    assert |firing| == 0 <==> firing == {};
  }

  /**
   * The reply to a scored call of a tool with a tier. A tool without an implementation fails unless the call is held
   * or refused; otherwise the reply carries the response that the table gives for the detectors that fire, in shadow
   * mode too.
   */
  lemma ScoredCallIsAnswered(cfg: Config, w: World, c: Call)
    requires c.verdict.Scored? && c.toolName in cfg.tiers
    ensures var r, tier, firing := ReplyTo(cfg, w, c), cfg.tiers[c.toolName], Firing(cfg, w, c);
            var stopped := !c.shadowMode && (CallsForBlock(tier, firing) || CallsForApproval(tier, firing));
            && (r == MissingImplementation <==> c.toolName !in cfg.impls && !stopped)
            && (r != MissingImplementation ==>
                  && r.Result? && TableSays(r.tier, tier, firing)
                  && !r.guardrailBypassed && r.shadowModeActive == c.shadowMode
                  && r.approvalRequestId
                     == if !c.shadowMode && CallsForApproval(tier, firing) then Some(c.requestId) else None)
  {
    TierMeans(cfg, w, c);
  }

  /** A scored call of a tool with tier and implementation is answered ALLOW exactly when no detector fires. */
  lemma AllowedIffNothingFires(cfg: Config, w: World, c: Call)
    requires c.verdict.Scored? && c.toolName in cfg.tiers && c.toolName in cfg.impls
    ensures ReplyTo(cfg, w, c) == Result(Allow, None, false, c.shadowMode)
            <==> forall d :: d in DETECTORS ==> !Fires(cfg, w, c, d)
  {
    ScoredCallIsAnswered(cfg, w, c);
    if Firing(cfg, w, c) == {} {
      forall d | d in DETECTORS
        ensures !Fires(cfg, w, c, d)
      {
        assert d !in Firing(cfg, w, c);
      }
    }
  }

  ghost function RecordedOutcome(c: Call, tier: RiskTier, firing: set<Detector>): CallOutcome {
    if c.shadowMode then Allowed
    else if CallsForBlock(tier, firing) then Blocked
    else if CallsForApproval(tier, firing) then PendingApproval
    else Allowed
  }

  ghost function FlagsFor(firing: set<Detector>): DetectorFlags {
    DetectorFlags(
      Schema in firing, Divergence in firing, Escalation in firing,
      LoopRate in firing, Exfiltration in firing, ContentPattern in firing)
  }

  ghost function DetailFor(firing: set<Detector>, requestId: Option<string>): ScoringDetail {
    ScoringDetail(FlagsFor(firing), |firing|, requestId)
  }

  lemma ScoredCallIsDisposed(cfg: Config, w: World, c: Call)
    requires c.verdict.Scored? && c.toolName in cfg.tiers
    ensures var firing := Firing(cfg, w, c);
            && DetailOf(FlagsFor(firing), Some(c.requestId)) == Some(DetailFor(firing, Some(c.requestId)))
            && Dispose(cfg, w, c)
               == match RecordedOutcome(c, cfg.tiers[c.toolName], firing)
                  case Blocked => Refuse(Some(DetailFor(firing, None)))
                  case PendingApproval => Hold(FlagsFor(firing))
                  case _ => Permit(Some(DetailFor(firing, None)))
  {
    TierMeans(cfg, w, c);
    FlagsMean(cfg, w, c);
    CountMeans(cfg, w, c);
    assert FlagsOf(cfg, w, c) == FlagsFor(Firing(cfg, w, c));
  }

  /**
   * What a scored call of a tool with a tier leaves behind: one attempt, with outcome, flags, count and approval id;
   * a request exactly if it is held; and an execution exactly if it is neither held nor refused and the tool has an
   * implementation.
   */
  lemma ScoredCallLeaves(cfg: Config, w: World, c: Call)
    requires c.verdict.Scored? && c.toolName in cfg.tiers
    ensures var w', firing := AfterCall(cfg, w, c), Firing(cfg, w, c);
            var outcome := RecordedOutcome(c, cfg.tiers[c.toolName], firing);
            var held := outcome == PendingApproval;
            var detail := DetailFor(firing, if held then Some(c.requestId) else None);
            && AttemptsOf(w'.sessions, c.sessionId)
               == AttemptsOf(w.sessions, c.sessionId)
                  + [CallAttempt(ToolCall(c.toolName, c.params, c.turnIndex), outcome, Some(detail))]
            && w'.queue
               == (if held
                   then w.queue[c.requestId := Approvals.Request(
                     c.sessionId, c.toolName, c.params, c.now, Approvals.Pending, None, None)]
                   else w.queue)
            && w'.executed
               == w.executed + (if outcome == Allowed && c.toolName in cfg.impls
                                then [Execution(c.sessionId, c.toolName, c.params)] else [])
  {
    ScoredCallIsDisposed(cfg, w, c);
  }

  /**
   * The other calls. While the breaker is open, a registered reversible tool is recorded as ALLOWED and run, and any
   * other call is recorded as BLOCKED, without scoring detail; a call whose scoring raises, or of a tool without a
   * tier, leaves nothing.
   */
  lemma UnscoredCallIsAnswered(cfg: Config, w: World, c: Call)
    requires !c.verdict.Scored? || c.toolName !in cfg.tiers
    ensures var r, w' := ReplyTo(cfg, w, c), AfterCall(cfg, w, c);
            var passes := c.toolName in cfg.tiers && cfg.tiers[c.toolName] in {ReadOnly, ReversibleWrite};
            match c.verdict
            case ScoringRaised(m) => r == ScoringError(m) && w' == w
            case Scored(_, _) => r == UnregisteredTool && w' == w
            case CircuitOpen =>
              && r == (if !passes then Result(Block, None, true, false)
                       else if c.toolName in cfg.impls then Result(Allow, None, true, false)
                       else MissingImplementation)
              && AttemptsOf(w'.sessions, c.sessionId)
                 == AttemptsOf(w.sessions, c.sessionId)
                    + [CallAttempt(
                         ToolCall(c.toolName, c.params, c.turnIndex), if passes then Allowed else Blocked, None)]
              && w'.queue == w.queue
              && w'.executed
                 == w.executed + (if passes && c.toolName in cfg.impls
                                  then [Execution(c.sessionId, c.toolName, c.params)] else [])
  {
    FailsOpenIffReversible(cfg.tiers, c.toolName);
  }

  // ---------------------------------------------------------------------------------------------
  // Over runs

  ghost predicate RequestsAreNotHighValue(cfg: Config, w: World) {
    forall id :: id in w.queue ==>
      w.queue[id].toolName in cfg.tiers && cfg.tiers[w.queue[id].toolName] != IrreversibleHighValue
  }

  lemma RequestsStayNotHighValue(cfg: Config, timeout: real, w: World, e: Event)
    requires RequestsAreNotHighValue(cfg, w)
    ensures RequestsAreNotHighValue(cfg, AfterEvent(cfg, timeout, w, e))
  {
    if e.Intercept? {
      if e.call.verdict.Scored? && e.call.toolName in cfg.tiers {
        ScoredCallLeaves(cfg, w, e.call);
      } else {
        UnscoredCallIsAnswered(cfg, w, e.call);
      }
    }
  }

  /** No run ever asks a person to approve a call of a high-value tool: such calls are refused outright. */
  lemma {:induction false} HighValueIsNeverUpForApproval(cfg: Config, timeout: real, events: seq<Event>)
    ensures RequestsAreNotHighValue(cfg, Run(cfg, timeout, EMPTY, events))
  {
    if events != [] {
      HighValueIsNeverUpForApproval(cfg, timeout, events[..|events| - 1]);
      RequestsStayNotHighValue(
        cfg, timeout, Run(cfg, timeout, EMPTY, events[..|events| - 1]), events[|events| - 1]);
    }
  }
}
