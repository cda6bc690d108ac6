/** `intercept_and_call` itself: it drives breaker, store, queue and tools, one step of the state machine. */
module InterceptAndCalls {
  import opened Common
  import opened RiskTiers
  import opened ResponseTiers
  import opened FakeTools
  import opened SessionStore
  import opened TaskSim
  import opened Detectors
  import opened Interception
  import opened CircuitBreakers
  import opened RedisBreakerObjects
  import opened ApprovalObjects
  import Runs = InterceptionRuns

  /** The answers of the divergence and content-pattern detectors, or the exception one of them raises. */
  type OpaqueFindings = FnResult<(bool, bool)>

  /** The clock readings of a call: two by the breaker, one by the queue. */
  datatype Readings = Readings(breakerNow: real, breakerLater: real, queueNow: real)

  /** What the breaker makes of the scoring path. */
  function VerdictOf(executes: bool, findings: OpaqueFindings): Verdict {
    if !executes then Verdict.CircuitOpen
    else match findings
      case Exception(m) => ScoringRaised(m)
      case Value(v) => Scored(v.0, v.1)
  }

  /** The scoring path as the breaker sees it. */
  function ScoringResult(
    schemas: map<string, ToolSchema>, baseline: set<string>, attempts: seq<CallAttempt>,
    toolName: string, params: Params, findings: OpaqueFindings): FnResult<DetectorFlags>
  {
    match findings
    case Exception(m) => Exception(m)
    case Value(v) => Value(RunScoring(schemas, baseline, attempts, toolName, params, v.0, v.1))
  }

  ghost function ConfigOf(tools: FakeToolRegistry, schemas: SchemaRegistry, baselines: Baselines): Config
    reads tools, tools.tierRegistry, schemas
  {
    Config(tools.tierRegistry.tools, tools.impls.Keys, schemas.schemas, baselines)
  }

  ghost function WorldOf(tools: FakeToolRegistry, store: InMemorySessionStore, queue: ApprovalQueue): World
    reads tools, store, queue, queue.requests.Values
  {
    World(store.sessions, queue.Abstract(), tools.executed)
  }

  ghost function BreakerAttempt(findings: OpaqueFindings, t: Readings): Attempt {
    Attempt(t.breakerNow, t.breakerLater, findings.Value?)
  }

  ghost function VerdictAt(settings: Settings, state: BreakerState, findings: OpaqueFindings, t: Readings): Verdict {
    VerdictOf(Executes(settings, state, BreakerAttempt(findings, t)), findings)
  }

  /** Records the call as ALLOWED, then runs the tool. */
  method RecordAndRun(
    tools: FakeToolRegistry, store: InMemorySessionStore, ghost queue: ApprovalQueue, ghost schemas: SchemaRegistry,
    ghost baselines: Baselines, ghost c: Call, sessionId: string, record: ToolCall, detail: Option<ScoringDetail>)
    returns (toolResult: Option<Params>)
    requires c.sessionId == sessionId && CallRecord(c) == record
    modifies tools`executed, store
    ensures WorldOf(tools, store, queue)
         == Apply(ConfigOf(tools, schemas, baselines), old(WorldOf(tools, store, queue)), c, Permit(detail))
    ensures toolResult.Some? <==> c.toolName in tools.tierRegistry.tools && c.toolName in tools.impls
    ensures toolResult.Some? ==> toolResult.value == tools.impls[c.toolName](c.params)
  {
    store.AppendAttempt(sessionId, record, Allowed, detail);
    toolResult := tools.Call(sessionId, record.toolName, record.params);
  }

  /** Submits the call for approval, then records it as PENDING_APPROVAL. */
  method SubmitAndRecord(
    ghost tools: FakeToolRegistry, store: InMemorySessionStore, queue: ApprovalQueue, ghost c: Call,
    flags: DetectorFlags, sessionId: string, record: ToolCall, requestId: string, now: real)
    requires queue.Valid()
    requires c.sessionId == sessionId && CallRecord(c) == record && c.requestId == requestId && c.now == now
    modifies store, queue
    ensures queue.Valid()
    ensures WorldOf(tools, store, queue) == Held(old(WorldOf(tools, store, queue)), c, flags)
  {
    var request := queue.Submit(requestId, sessionId, record.toolName, record.params, now);
    store.AppendAttempt(sessionId, record, PendingApproval, DetailOf(flags, Some(requestId)));
  }

  /** The part after a successful scoring and tier lookup. */
  method Respond(
    tools: FakeToolRegistry, store: InMemorySessionStore, queue: ApprovalQueue, ghost schemas: SchemaRegistry,
    ghost baselines: Baselines, ghost c: Call, flags: DetectorFlags, responseTier: ResponseTier, sessionId: string,
    record: ToolCall, shadowMode: bool, requestId: string, now: real)
    returns (reply: Reply, toolResult: Option<Params>)
    requires queue.Valid() && record.toolName in tools.tierRegistry.tools
    requires c.sessionId == sessionId && CallRecord(c) == record && c.requestId == requestId && c.now == now
    requires c.shadowMode == shadowMode
    modifies tools`executed, store, queue
    ensures queue.Valid()
    ensures var d := DisposeScored(flags, responseTier, shadowMode);
            && WorldOf(tools, store, queue)
            == Apply(ConfigOf(tools, schemas, baselines), old(WorldOf(tools, store, queue)), c, d)
            && reply == ReplyScored(ConfigOf(tools, schemas, baselines), c, responseTier)
            && (toolResult.Some? <==> d.Permit? && c.toolName in tools.impls)
            && (toolResult.Some? ==> toolResult.value == tools.impls[c.toolName](c.params))
  {
    toolResult := None;
    if shadowMode || Proceeds(responseTier) {
      toolResult := RecordAndRun(tools, store, queue, schemas, baselines, c, sessionId, record, DetailOf(flags, None));
      reply := if toolResult.Some? then Result(responseTier, None, false, shadowMode) else MissingImplementation;
    } else if responseTier.Block? {
      store.AppendAttempt(sessionId, record, Blocked, DetailOf(flags, None));
      reply := Result(responseTier, None, false, shadowMode);
    } else {
      SubmitAndRecord(tools, store, queue, c, flags, sessionId, record, requestId, now);
      reply := Result(responseTier, Some(requestId), false, shadowMode);
    }
  }

  /** The part taken while the breaker is open: the tool's fail policy decides. */
  method Bypass(
    tools: FakeToolRegistry, store: InMemorySessionStore, ghost queue: ApprovalQueue, ghost schemas: SchemaRegistry,
    ghost baselines: Baselines, ghost c: Call, sessionId: string, record: ToolCall)
    returns (reply: Reply, toolResult: Option<Params>)
    requires c.sessionId == sessionId && CallRecord(c) == record && c.verdict.CircuitOpen?
    modifies tools`executed, store
    ensures var cfg, w := ConfigOf(tools, schemas, baselines), old(WorldOf(tools, store, queue));
            && WorldOf(tools, store, queue) == Interception.AfterCall(cfg, w, c)
            && reply == ReplyTo(cfg, w, c)
            && (toolResult.Some? <==> Runs.RunsTool(cfg, w, c))
            && (toolResult.Some? ==> c.toolName in tools.impls && toolResult.value == tools.impls[c.toolName](c.params))
  {
    var tier := tools.tierRegistry.Get(record.toolName);
    if tier.Some? && TierFailPolicy(tier.value).FailOpen? {
      toolResult := RecordAndRun(tools, store, queue, schemas, baselines, c, sessionId, record, None);
      reply := if toolResult.Some? then Result(Allow, None, true, false) else MissingImplementation;
    } else {
      store.AppendAttempt(sessionId, record, Blocked, None);
      reply, toolResult := Result(Block, None, true, false), None;
    }
  }

  /** What the breaker's caller sees of the scoring path, by verdict. */
  function ScoringSeen(
    schemas: map<string, ToolSchema>, baseline: set<string>, attempts: seq<CallAttempt>,
    toolName: string, params: Params, verdict: Verdict): CallResult<DetectorFlags>
  {
    match verdict
    case CircuitOpen => CallResult.CircuitOpen
    case ScoringRaised(message) => Raised(message)
    case Scored(divergent, suspicious) =>
      Returned(RunScoring(schemas, baseline, attempts, toolName, params, divergent, suspicious))
  }

  /** The scoring path, guarded by the breaker. */
  method Score(
    schemas: SchemaRegistry, baselines: Baselines, store: InMemorySessionStore, breaker: CircuitBreaker,
    findings: OpaqueFindings, task: TaskType, sessionId: string, toolName: string, params: Params, t: Readings)
    returns (scoring: CallResult<DetectorFlags>)
    modifies breaker
    ensures breaker.Abstract()
         == CircuitBreakers.AfterCall(breaker.settings, old(breaker.Abstract()), BreakerAttempt(findings, t))
    ensures var verdict := VerdictAt(breaker.settings, old(breaker.Abstract()), findings, t);
            scoring == ScoringSeen(
              schemas.schemas, baselines(task), AttemptsOf(store.sessions, sessionId), toolName, params, verdict)
  {
    var attempts := store.GetAttempts(sessionId);
    var schemaTable, baseline := schemas.schemas, baselines(task);
    scoring := breaker.Call(
      () => ScoringResult(schemaTable, baseline, attempts, toolName, params, findings), t.breakerNow, t.breakerLater);
  }

  /** The scoring path, guarded by a Redis breaker with no other replica's command in between. */
  method ScoreThroughRedis(
    schemas: SchemaRegistry, baselines: Baselines, store: InMemorySessionStore, breaker: RedisCircuitBreaker,
    findings: OpaqueFindings, task: TaskType, sessionId: string, toolName: string, params: Params, t: Readings)
    returns (scoring: CallResult<DetectorFlags>)
    requires breaker.Valid()
    modifies breaker.server
    ensures breaker.Valid()
    ensures breaker.Abstract()
         == CircuitBreakers.AfterCall(breaker.settings, old(breaker.Abstract()), BreakerAttempt(findings, t))
    ensures var verdict := VerdictAt(breaker.settings, old(breaker.Abstract()), findings, t);
            scoring == ScoringSeen(
              schemas.schemas, baselines(task), AttemptsOf(store.sessions, sessionId), toolName, params, verdict)
  {
    var attempts := store.GetAttempts(sessionId);
    var schemaTable, baseline := schemas.schemas, baselines(task);
    scoring := breaker.Call(
      () => ScoringResult(schemaTable, baseline, attempts, toolName, params, findings), t.breakerNow, t.breakerLater);
  }

  /** Everything after the breaker has answered. */
  method Finish(
    tools: FakeToolRegistry, ghost schemas: SchemaRegistry, ghost baselines: Baselines, store: InMemorySessionStore,
    queue: ApprovalQueue, ghost c: Call, scoring: CallResult<DetectorFlags>, sessionId: string, record: ToolCall,
    shadowMode: bool, requestId: string, now: real)
    returns (reply: Reply, toolResult: Option<Params>)
    requires queue.Valid()
    requires c == Call(
               sessionId, c.task, record.toolName, record.params, record.turnIndex, shadowMode, c.verdict,
               requestId, now)
    requires scoring == ScoringSeen(
               schemas.schemas, baselines(c.task), AttemptsOf(store.sessions, sessionId),
               c.toolName, c.params, c.verdict)
    modifies tools`executed, store, queue
    ensures queue.Valid()
    ensures var cfg, w := ConfigOf(tools, schemas, baselines), old(WorldOf(tools, store, queue));
            && WorldOf(tools, store, queue) == Interception.AfterCall(cfg, w, c)
            && reply == ReplyTo(cfg, w, c)
            && (toolResult.Some? <==> Runs.RunsTool(cfg, w, c))
            && (toolResult.Some? ==> c.toolName in tools.impls && toolResult.value == tools.impls[c.toolName](c.params))
  {
    match scoring
    case Raised(m) =>
      return ScoringError(m), None;
    case CircuitOpen =>
      reply, toolResult := Bypass(tools, store, queue, schemas, baselines, c, sessionId, record);
    case Returned(flags) =>
      var tier := tools.tierRegistry.Get(record.toolName);
      if tier.None? {
        return UnregisteredTool, None;
      }
      var responseTier := DecideResponseTier(FlaggedDetectorCount(flags), tier.value);
      reply, toolResult := Respond(
        tools, store, queue, schemas, baselines, c, flags, responseTier, sessionId, record, shadowMode, requestId, now);
  }

  /**
   * One guarded call. The breaker moves as its own specification says, and everything else moves as the
   * state machine does on the breaker's verdict.
   */
  method InterceptAndCall(
    tools: FakeToolRegistry, schemas: SchemaRegistry, baselines: Baselines, store: InMemorySessionStore,
    breaker: CircuitBreaker, queue: ApprovalQueue, findings: OpaqueFindings, task: TaskType, sessionId: string,
    toolName: string, params: Params, turnIndex: int, shadowMode: bool, requestId: string, t: Readings)
    returns (reply: Reply, toolResult: Option<Params>)
    requires queue.Valid()
    modifies tools`executed, store, breaker, queue
    ensures queue.Valid()
    ensures breaker.Abstract()
         == CircuitBreakers.AfterCall(breaker.settings, old(breaker.Abstract()), BreakerAttempt(findings, t))
    ensures var verdict := VerdictAt(breaker.settings, old(breaker.Abstract()), findings, t);
            var c := Call(sessionId, task, toolName, params, turnIndex, shadowMode, verdict, requestId, t.queueNow);
            var cfg, w := ConfigOf(tools, schemas, baselines), old(WorldOf(tools, store, queue));
            && WorldOf(tools, store, queue) == Interception.AfterCall(cfg, w, c)
            && reply == ReplyTo(cfg, w, c)
            && (toolResult.Some? <==> Runs.RunsTool(cfg, w, c))
            && (toolResult.Some? ==> toolName in tools.impls && toolResult.value == tools.impls[toolName](params))
  {
    ghost var verdict := VerdictAt(breaker.settings, breaker.Abstract(), findings, t);
    ghost var c := Call(sessionId, task, toolName, params, turnIndex, shadowMode, verdict, requestId, t.queueNow);
    var scoring := Score(schemas, baselines, store, breaker, findings, task, sessionId, toolName, params, t);
    reply, toolResult := Finish(
      tools, schemas, baselines, store, queue, c, scoring, sessionId, ToolCall(toolName, params, turnIndex),
      shadowMode, requestId, t.queueNow);
  }

  /** The same call with a Redis breaker, which takes the place of the in-memory one. */
  method InterceptAndCallThroughRedis(
    tools: FakeToolRegistry, schemas: SchemaRegistry, baselines: Baselines, store: InMemorySessionStore,
    breaker: RedisCircuitBreaker, queue: ApprovalQueue, findings: OpaqueFindings, task: TaskType, sessionId: string,
    toolName: string, params: Params, turnIndex: int, shadowMode: bool, requestId: string, t: Readings)
    returns (reply: Reply, toolResult: Option<Params>)
    requires queue.Valid() && breaker.Valid()
    modifies tools`executed, store, breaker.server, queue
    ensures queue.Valid() && breaker.Valid()
    ensures breaker.Abstract()
         == CircuitBreakers.AfterCall(breaker.settings, old(breaker.Abstract()), BreakerAttempt(findings, t))
    ensures var verdict := VerdictAt(breaker.settings, old(breaker.Abstract()), findings, t);
            var c := Call(sessionId, task, toolName, params, turnIndex, shadowMode, verdict, requestId, t.queueNow);
            var cfg, w := ConfigOf(tools, schemas, baselines), old(WorldOf(tools, store, queue));
            && WorldOf(tools, store, queue) == Interception.AfterCall(cfg, w, c)
            && reply == ReplyTo(cfg, w, c)
            && (toolResult.Some? <==> Runs.RunsTool(cfg, w, c))
            && (toolResult.Some? ==> toolName in tools.impls && toolResult.value == tools.impls[toolName](params))
  {
    ghost var verdict := VerdictAt(breaker.settings, breaker.Abstract(), findings, t);
    ghost var c := Call(sessionId, task, toolName, params, turnIndex, shadowMode, verdict, requestId, t.queueNow);
    var scoring := ScoreThroughRedis(
      schemas, baselines, store, breaker, findings, task, sessionId, toolName, params, t);
    reply, toolResult := Finish(
      tools, schemas, baselines, store, queue, c, scoring, sessionId, ToolCall(toolName, params, turnIndex),
      shadowMode, requestId, t.queueNow);
  }
}
