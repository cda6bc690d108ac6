/**
 * The guarded call pipeline (src/simulacrum/interception/interceptor.py) as a state machine over the
 * session store, the approval queue and the log of executed tool bodies. What the circuit breaker and
 * the two opaque detectors answer is part of a call's input, so every statement below holds for either
 * breaker and for any embedder or language model.
 */
module Interception {
  import opened Common
  import opened RiskTiers
  import opened ResponseTiers
  import opened FakeTools
  import opened SessionStore
  import opened TaskSim
  import opened Detectors
  import Approvals

  datatype Config = Config(
    tiers: map<string, RiskTier>, impls: set<string>, schemas: map<string, ToolSchema>, baselines: Baselines)

  /** How the guarded scoring ended: refused by the breaker, failed, or with the opaque detectors' findings. */
  datatype Verdict = CircuitOpen | ScoringRaised(message: string) | Scored(divergent: bool, suspicious: bool)

  datatype Call = Call(
    sessionId: string, task: TaskType, toolName: string, params: Params, turnIndex: int, shadowMode: bool,
    verdict: Verdict, requestId: string, now: real)

  datatype World = World(sessions: Sessions, queue: Approvals.Queue, executed: seq<Execution>)

  const EMPTY := World(map[], map[], [])

  // ---------------------------------------------------------------------------------------------
  // Scoring

  function CountFlag(b: bool): nat {
    if b then 1 else 0
  }

  function FlaggedDetectorCount(f: DetectorFlags): nat {
    CountFlag(f.schema) + CountFlag(f.divergence) + CountFlag(f.escalation)
    + CountFlag(f.loopRate) + CountFlag(f.exfiltration) + CountFlag(f.contentPattern)
  }

  function RunScoring(
    schemas: map<string, ToolSchema>, baseline: set<string>, attempts: seq<CallAttempt>,
    toolName: string, params: Params, divergent: bool, suspicious: bool): DetectorFlags
  {
    var violation := CheckSchema(schemas, toolName, params);
    DetectorFlags(
      violation.Some? && IsViolation(violation.value),
      divergent,
      IsEscalated(baseline, attempts, toolName),
      LoopRateFlagged(CheckToolLoopRate(attempts, toolName, params, DEFAULT_RATE_THRESHOLD)),
      ExfiltrationFlagged(
        CheckExfiltration(
          attempts, toolName, params, DEFAULT_OUTBOUND_FREQUENCY_THRESHOLD, DEFAULT_CONTENT_SIZE_THRESHOLD)),
      suspicious)
  }

  function FlagsOf(cfg: Config, w: World, c: Call): DetectorFlags
    requires c.verdict.Scored?
  {
    RunScoring(
      cfg.schemas, cfg.baselines(c.task), AttemptsOf(w.sessions, c.sessionId), c.toolName, c.params,
      c.verdict.divergent, c.verdict.suspicious)
  }

  function TierOf(cfg: Config, w: World, c: Call): ResponseTier
    requires c.verdict.Scored? && c.toolName in cfg.tiers
  {
    DecideResponseTier(FlaggedDetectorCount(FlagsOf(cfg, w, c)), cfg.tiers[c.toolName])
  }

  // ---------------------------------------------------------------------------------------------
  // One step

  function CallRecord(c: Call): ToolCall {
    ToolCall(c.toolName, c.params, c.turnIndex)
  }

  function DetailOf(flags: DetectorFlags, requestId: Option<string>): Option<ScoringDetail> {
    Some(ScoringDetail(flags, FlaggedDetectorCount(flags), requestId))
  }

  function Recorded(w: World, c: Call, outcome: CallOutcome, detail: Option<ScoringDetail>): World {
    w.(sessions := Append(w.sessions, c.sessionId, CallAttempt(CallRecord(c), outcome, detail)))
  }

  /** `tool_registry.call`: the body runs only for a tool with a tier and an implementation. */
  function Executed(cfg: Config, w: World, c: Call): World {
    if c.toolName in cfg.tiers && c.toolName in cfg.impls
    then w.(executed := w.executed + [Execution(c.sessionId, c.toolName, c.params)])
    else w
  }

  function SubmitOp(c: Call): Approvals.Op {
    Approvals.Submit(c.requestId, c.sessionId, c.toolName, c.params, c.now)
  }

  function Held(w: World, c: Call, flags: DetectorFlags): World {
    var submitted := w.(queue := w.queue[c.requestId := Approvals.NewRequest(SubmitOp(c))]);
    Recorded(submitted, c, PendingApproval, DetailOf(flags, Some(c.requestId)))
  }

  /** What the pipeline decides to do with a call. */
  datatype Disposition =
    | Raise                                         // nothing is recorded
    | Permit(detail: Option<ScoringDetail>)         // recorded as ALLOWED, then the tool is called
    | Refuse(detail: Option<ScoringDetail>)         // recorded as BLOCKED
    | Hold(flags: DetectorFlags)                    // submitted for approval, recorded as PENDING_APPROVAL

  function DisposeScored(flags: DetectorFlags, tier: ResponseTier, shadowMode: bool): Disposition {
    if shadowMode then Permit(DetailOf(flags, None))
    else match tier
      case Block => Refuse(DetailOf(flags, None))
      case RequireApproval => Hold(flags)
      case Allow => Permit(DetailOf(flags, None))
      case Flag => Permit(DetailOf(flags, None))
  }

  function Dispose(cfg: Config, w: World, c: Call): Disposition {
    match c.verdict
    case ScoringRaised(_) => Raise
    case CircuitOpen => if FailPolicyFor(cfg.tiers, c.toolName).FailOpen? then Permit(None) else Refuse(None)
    case Scored(_, _) =>
      if c.toolName !in cfg.tiers then Raise
      else DisposeScored(FlagsOf(cfg, w, c), TierOf(cfg, w, c), c.shadowMode)
  }

  function Apply(cfg: Config, w: World, c: Call, d: Disposition): World {
    match d
    case Raise => w
    case Permit(detail) => Executed(cfg, Recorded(w, c, Allowed, detail), c)
    case Refuse(detail) => Recorded(w, c, Blocked, detail)
    case Hold(flags) => Held(w, c, flags)
  }

  function AfterCall(cfg: Config, w: World, c: Call): World {
    Apply(cfg, w, c, Dispose(cfg, w, c))
  }

  datatype Reply =
    | ScoringError(message: string)   // the exception of the scoring path, re-raised by the breaker
    | UnregisteredTool                // tier lookup failed after scoring
    | MissingImplementation           // the attempt is already recorded when the tool call fails
    | Result(tier: ResponseTier, approvalRequestId: Option<string>, guardrailBypassed: bool, shadowModeActive: bool)

  /** `InterceptionResult.allowed`. */
  predicate IsAllowed(r: Reply)
    requires r.Result?
  {
    r.shadowModeActive || Proceeds(r.tier)
  }

  function ReplyScored(cfg: Config, c: Call, tier: ResponseTier): Reply {
    if c.toolName !in cfg.impls && (c.shadowMode || Proceeds(tier)) then MissingImplementation
    else
      Result(tier, if !c.shadowMode && tier.RequireApproval? then Some(c.requestId) else None, false, c.shadowMode)
  }

  function ReplyTo(cfg: Config, w: World, c: Call): Reply {
    match c.verdict
    case ScoringRaised(m) => ScoringError(m)
    case CircuitOpen =>
      if FailPolicyFor(cfg.tiers, c.toolName).FailClosed? then Result(Block, None, true, false)
      else if c.toolName in cfg.impls then Result(Allow, None, true, false)
      else MissingImplementation
    case Scored(_, _) =>
      if c.toolName !in cfg.tiers then UnregisteredTool
      else ReplyScored(cfg, c, TierOf(cfg, w, c))
  }

  // ---------------------------------------------------------------------------------------------
  // Runs

  /** Calls come interleaved with people looking at the queue and deciding. */
  datatype Event = Intercept(call: Call) | Queue(op: Approvals.Op)

  function AfterEvent(cfg: Config, timeout: real, w: World, e: Event): World {
    match e
    case Intercept(c) => AfterCall(cfg, w, c)
    case Queue(op) => if op.Submit? then w else w.(queue := Approvals.AfterOp(timeout, w.queue, op))
  }

  function Run(cfg: Config, timeout: real, w: World, events: seq<Event>): World {
    if events == [] then w
    else AfterEvent(cfg, timeout, Run(cfg, timeout, w, events[..|events| - 1]), events[|events| - 1])
  }

  ghost predicate NoShadow(events: seq<Event>, sessionId: string) {
    forall e :: e in events && e.Intercept? && e.call.sessionId == sessionId ==> !e.call.shadowMode
  }

  /** Request ids are fresh: no earlier request of the run has the same one. */
  ghost predicate FreshIds(cfg: Config, timeout: real, w: World, events: seq<Event>) {
    forall i :: 0 <= i < |events| && events[i].Intercept? ==>
      events[i].call.requestId !in Run(cfg, timeout, w, events[..i]).queue
  }
}
