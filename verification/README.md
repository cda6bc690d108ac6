# Simulacrum's interception layer: a verified model

Simulacrum guards the tool calls of an agent. Each call is scored by six detectors against the session's whole
recorded history; a tier engine turns the number of flags and the tool's risk tier into ALLOW, FLAG,
REQUIRE_APPROVAL or BLOCK; the call is recorded and then executed, held for a human, or refused. A circuit breaker
protects the scoring path, and while it is open the tool's own fail policy decides.

This project models that layer as one state machine over unboundedly many calls, and proves what every run of it
keeps. Beside it stand the circuit breakers (in memory, and as a protocol of interleaved Redis commands), the approval
queue with its lazy expiry, the Redis session store with its sliding time to live, the session and attack generators,
the investigation report, the drift scheduler, the call printer and parser, and the evaluation arithmetic.

| file | content |
|---|---|
| `CircuitBreaker.dfy` | the timed breaker: invariant, execution bound, the class |
| `RedisCircuitBreaker.dfy` | replicas as interleaved Redis commands, simulation by the in-memory breaker, the class |
| `RiskTiers.dfy`, `FakeTools.dfy`, `Detectors.dfy`, `SessionStore.dfy` | registries, tiers, structural detectors, store |
| `Interceptor.dfy`, `ScoredCalls.dfy`, `InterceptorRuns.dfy`, `InterceptAndCall.dfy` | one call as a step, what its answer means, theorems over all runs, the method |
| `ApprovalQueue.dfy`, `HeldCalls.dfy`, `InvestigationReport.dfy` | approvals, held calls against requests, the report |
| `RedisSessionStore.dfy` | the store with a time to live against the in-memory store |
| `TaskSim.dfy`, `GeneratedSessions.dfy`, `NormalSessions.dfy`, `ExfiltrationAttack.dfy` | generators against detectors, for every random source |
| `DriftScheduler.dfy`, `CallText.dfy` | amortised drift checks; printing and parsing calls |
| `Psi.dfy`, `CalibrationReport.dfy`, `CalibrationPoisoning.dfy`, `Embedding.dfy` | evaluation arithmetic over reals |
| `Common.dfy` | filters, minimum, optional values |

Code that computes a value is a function, and what it means is stated in lemmas. Objects that change are classes whose
methods are proved equal to a function of the old state, and the theorems over runs are about those functions. What the
divergence and content-pattern detectors answer, and what the breaker decides, are inputs of a pipeline step, so each
theorem over runs holds for any embedder, any language model and either breaker. `InterceptAndCalls.InterceptAndCall`
and `InterceptAndCalls.InterceptAndCallThroughRedis` close the circle with the two breakers.

## Assumptions

- The in-memory objects serve one call at a time, and clock readings never go back. Redis replicas share one clock and
  equal settings, and each Redis command is atomic. A key is gone from the moment its time to live has elapsed.
- Approval request ids are fresh where a statement says `FreshIds`. Sessions keep one task type where it says
  `FixedTask`; `start_session` (`src/simulacrum/api/state.py:130-135`) would let a second call for the same session
  change it.
- The pipeline's tier registry is the one inside its tool registry; the source takes the two separately
  (`src/simulacrum/interception/interceptor.py:234-235`). `FakeToolRegistry.register` keeps tiers and implementations in
  step; `LogsAgreeInEveryRunIff` says what happens otherwise. Tool bodies do not raise.
- In the statements about a session's writes the push and the refresh of one write are not separated by another write to
  the same session. `InterleavedWritesAgreeIff` lifts this.
- Arithmetic is over exact reals. The logarithm is any strictly increasing function that is 0 at 1, the square root any
  function that is not negative and squares back, the word hash any function.
- A random source is an arbitrary stream of numbers, each reduced to the range asked for.

## Where the code and its documentation differ

- The comment on shadow mode (`src/simulacrum/interception/interceptor.py:311-316`) says that it never blocks or holds.
  While the breaker is open the fail policy is applied before shadow mode is looked at, so a shadow call of an
  irreversible tool, or of one that is not registered, is blocked. It is never held. `ShadowModeExecutesIff` gives the
  exact conditions, for every tool; `ShadowModeCanBlock` is an instance.
- `RedisCircuitBreaker.call` is described as a "Real, multi-instance-safe version of CircuitBreaker.call()"
  (`src/simulacrum/interception/redis_circuit_breaker.py:81`). Replicas do share one state, but it need not be a state
  that `CircuitBreaker` can be in. The keys stand for such a state exactly when the stamp is present if and only if the
  count has reached the threshold (`ReachableIffCoherent`). A success's two DELs between another replica's INCR and SET
  leave the breaker open with no failure counted, for any threshold (`OverlapEscapesEveryInMemoryBreaker`). It takes
  such a collision: wrapped functions may overlap freely as long as no SET of the stamp is pending while a DEL of it is
  (`ApartUpdatesStayInMemoryReachable`), which a lock around the key updates alone ensures (`LockKeepsUpdatesApart`).
  And every such collision can end in a state of that kind (`CollisionCanEscape`), so nothing weaker than keeping the two
  apart is safe.
- A comment in the Redis store says of an actively used session that it never expires in the middle of its use
  (`src/simulacrum/session/redis_store.py:95-97`). That fails when the old deadline falls between the push and the
  refresh of one write; the list is then lost, this write included. A read is the list since the last idle gap exactly
  when no write since that gap was split in this way (`ReadsSinceLastIdleGapIff`), and it is the in-memory store's
  answer exactly when every refresh came less than a time to live after the one before (`AgreesWithInMemoryStoreIff`).
- A failure threshold of zero or less trips on the first failure, like a threshold of one. The execution bound uses
  that effective threshold.
- The printed form of a call is read back exactly when the conditions in `ParseUndoesPrintIffPlain` hold. They include
  that the tool name has no whitespace at its ends.
- PSI is unchanged by a change of unit exactly when the baseline is not constant, or the change is a mere shift, or there
  are at most two bins: the margin of 0.01 around a constant baseline does not scale (`UnitMattersIffBaselineConstant`).
- Looking at an approval request is not free of effects: the first look past the deadline leaves its own clock reading as
  `decided_at` (`src/simulacrum/tier_engine/approval_queue.py:98-101`). Outcomes, roles and errors are those of a queue
  that expires by itself; the stamp is not, and `ExtraPollingIsUnobservableIff` says exactly when a poll shows.

## Model

| member | source | states |
|---|---|---|
| CircuitBreakers.CountIsTrailingFailures | src/simulacrum/interception/circuit_breaker.py:65-82 | After every sequence of calls the stored count is the length of the trailing run of failed executions; stored OPEN, with a time stamp, holds exactly when that run reached the threshold. |
| CircuitBreakers.ExecutionBound | src/simulacrum/interception/circuit_breaker.py:47-82 | Any span of time T throughout which executed calls fail, whatever happened before, sees at most threshold + floor(T / recovery_timeout) executions of the wrapped function. |
| CircuitBreakers.ExecutionsArePaidFor | src/simulacrum/interception/circuit_breaker.py:47-82 | The inductive invariant behind the bound: executions beyond the threshold are each paid for by a whole recovery timeout. |
| CircuitBreakers.CircuitBreaker.State | src/simulacrum/interception/circuit_breaker.py:47-52 | An OPEN breaker shows CLOSED once the recovery timeout has passed since it opened. |
| CircuitBreakers.CircuitBreaker.Call | src/simulacrum/interception/circuit_breaker.py:54-82 | The new state and the caller's view are those of the specification; `fn` counts only when the breaker is not open, and its exception is raised again. |
| RedisBreakerProtocol.StoredCountIsIncrsSinceReset | src/simulacrum/interception/redis_circuit_breaker.py:96-101 | In every interleaving of any number of replicas the stored count equals the INCRs since the last DEL of the count. |
| RedisBreakerProtocol.TripNeedsThresholdFailures | src/simulacrum/interception/redis_circuit_breaker.py:96-98 | Every SET of opened_at follows, in the same replica, an INCR that completed at least failure_threshold INCRs with no DEL of the count among them. |
| RedisBreakerProtocol.OpenBreakerNeverRunsFn | src/simulacrum/interception/redis_circuit_breaker.py:69-92 | A replica whose GET saw a stamp, and whose one clock reading after it is before stamp + recovery_timeout, never runs `fn` in that call, whatever the others do and whatever the clock shows later. |
| RedisBreakerProtocol.SimulationAt | src/simulacrum/interception/redis_circuit_breaker.py:79-103 | The simulation relation between keys, phase of the active call and in-memory state holds at every point of every run without overlap. |
| RedisBreakerProtocol.NonOverlappingReplicasAreOneBreaker | src/simulacrum/interception/redis_circuit_breaker.py:69-103 | Replicas sharing a name, one call at a time, are one in-memory breaker: same acceptances, same count, same visible state, key present exactly when stored OPEN. |
| RedisBreakerProtocol.ReachableIffCoherent | src/simulacrum/interception/redis_circuit_breaker.py:69-102 | The keys stand for a state that some run of an in-memory breaker reaches exactly when opened_at is present if and only if the count has reached the threshold. |
| RedisBreakerProtocol.ApartUpdatesStayInMemoryReachable | src/simulacrum/interception/redis_circuit_breaker.py:93-103 | In every interleaving in which no replica is about to SET opened_at while another is about to DEL it, however the wrapped functions overlap, every state without a call in progress is one an in-memory breaker reaches. |
| RedisBreakerProtocol.CollisionCanEscape | src/simulacrum/interception/redis_circuit_breaker.py:93-103 | The converse: from any run in which a SET of opened_at is pending while a DEL of it is, some continuation, at whatever clock reading, leaves no call in progress and a state that no in-memory breaker reaches. |
| RedisBreakerProtocol.LockKeepsUpdatesApart | src/simulacrum/interception/redis_circuit_breaker.py:95-102 | Mutual exclusion of the key updates, and not of the wrapped functions, keeps SET and DEL apart. |
| RedisBreakerProtocol.OverlapEscapesEveryInMemoryBreaker | src/simulacrum/interception/redis_circuit_breaker.py:95-102 | For any settings, two overlapping calls can leave the breaker open with no failure counted, which no sequence of calls of an in-memory breaker does. |
| RedisBreakerObjects.KeysOfDifferentBreakersAreDistinct | src/simulacrum/interception/redis_circuit_breaker.py:46-51 | Breakers with different names share no key, and no count key is a stamp key. |
| RedisBreakerObjects.RedisCircuitBreaker.State | src/simulacrum/interception/redis_circuit_breaker.py:69-77 | The state read from the keys is the in-memory breaker's visible state. |
| RedisBreakerObjects.RedisCircuitBreaker.Call | src/simulacrum/interception/redis_circuit_breaker.py:79-103 | One call moves the two keys as the in-memory breaker moves its fields, returns what it returns, and touches no other key. |
| RiskTiers.FailsOpenIffReversible | src/simulacrum/risk_tiers/tiers.py:24-39 | With the guardrail unavailable exactly the registered reversible tools still run; an unregistered tool fails closed. |
| RiskTiers.ToolRegistry.Register | src/simulacrum/risk_tiers/tiers.py:54-62 | A second registration of a name fails and changes nothing. |
| ResponseTiers.MoreEvidenceNeverMilder | src/simulacrum/tier_engine/response_tier.py:27-54 | More flags, or a riskier tool, never give a milder response. |
| FakeTools.FakeToolRegistry.Register | src/simulacrum/interception/fake_tools.py:30-32 | Registration extends both registries or neither, so tiers and implementations stay in step. |
| FakeTools.FakeToolRegistry.Call | src/simulacrum/interception/fake_tools.py:34-41 | The body runs, once, exactly for a tool with a tier and an implementation. |
| FakeTools.DefaultTiersByTier | src/simulacrum/interception/fake_tools.py:106-147 | Which default tools have which tier, and that there are no others. |
| Detectors.ConformsIffKeysFit | src/simulacrum/detectors/schema.py:60-69 | No violation exactly when all required parameters are given and no parameter that is not allowed. |
| Detectors.ViolationNamesParams | src/simulacrum/detectors/schema.py:63-69 | A violation lists exactly the required parameters not given and the given ones not allowed; there is no finding exactly for a tool without a schema. |
| Detectors.EscalatedIffSomethingOutside | src/simulacrum/detectors/permission_escalation.py:42-52 | Escalation is flagged exactly when the call's tool, or any recorded attempt of whatever outcome, lies outside the task's baseline. |
| Detectors.RetryKindIsDecidedByLatestAttempt | src/simulacrum/detectors/loop_rate.py:58-82 | A call is an evasion (benign) retry exactly when the latest attempt at the same tool was blocked (ended in a tool error) with other parameters. |
| Detectors.OutboundPassesIff | src/simulacrum/detectors/exfiltration.py:56-81 | An outbound call passes exactly when the session's outbound count, this call included, is below the threshold and every value is short. |
| Detectors.ResultsCountAttempts | src/simulacrum/detectors/loop_rate.py:58-79 | The two counts are one more than the number of recorded attempts, of whatever outcome, at the same tool or at any outbound tool; the anomalous parameters are those with long values. |
| InterceptionRuns.EveryCallIsRecordedOnce | src/simulacrum/interception/interceptor.py:253-347 | A call either raises with store, queue and execution log unchanged or appends exactly one attempt, in its own session; the one exception after recording needs a tier without an implementation. |
| InterceptionRuns.LogsStayInStepIff | src/simulacrum/interception/interceptor.py:272-347 | The executed bodies and the ALLOWED attempts stay equal through a call exactly when a call that is let through has an implementation. |
| InterceptionRuns.ExecutedAreTheAllowedAttempts | src/simulacrum/interception/interceptor.py:272-347 | If every tool with a tier has an implementation, then in every run, shadow mode included, a session's executed tool bodies are its ALLOWED attempts, in order, with the same tools and parameters. |
| InterceptionRuns.MissingImplementationBreaksLogs | src/simulacrum/interception/fake_tools.py:34-41 | A run that fails this: one shadow call of a tool with a tier and no implementation. |
| InterceptionRuns.LogsAgreeInEveryRunIff | src/simulacrum/interception/interceptor.py:272-347 | The two logs agree in every run exactly when every tool with a tier has an implementation. |
| InterceptionRuns.IrreversibleRunsOnlyUnflagged | src/simulacrum/interception/interceptor.py:269-347 | Outside shadow mode an irreversible tool runs only on a scored call that no detector flagged; never while the breaker is open. |
| InterceptionRuns.OutboundExecutionsAreCapped | src/simulacrum/detectors/exfiltration.py:65-78 | In every run without shadow mode a session executes at most frequency_threshold - 1 outbound calls in all, also counting steps with the breaker open, if the outbound tools have irreversible tiers. |
| InterceptionRuns.DefaultOutboundExecutionsAreCapped | src/simulacrum/interception/fake_tools.py:110-137 | With the default tiers that condition holds, and the cap with it. |
| InterceptionRuns.IrreversibleExecutionsAreCapped | src/simulacrum/detectors/loop_rate.py:58-79 | In every run without shadow mode a session executes at most rate_threshold - 1 calls of any one irreversible tool. |
| InterceptionRuns.EscalationIsSticky | src/simulacrum/interception/interceptor.py:202-205 | Once any attempt outside the baseline is recorded, no irreversible tool executes in that session for the rest of the run. |
| InterceptionRuns.OffTaskIrreversibleNeverRuns | src/simulacrum/interception/interceptor.py:301-347 | An irreversible tool outside every task's baseline never executes in a run without shadow mode. |
| InterceptionRuns.AttackTargetsNeverExecute | src/simulacrum/interception/fake_tools.py:130-145 | With the default tiers and templates send_payment, set_forwarding_rule, delete_data and modify_permissions never execute. |
| InterceptionRuns.ShadowModeExecutesIff | src/simulacrum/interception/interceptor.py:225-321 | A shadow call is never held; it is refused exactly while the breaker is open for a tool not registered as reversible; its body runs exactly for a tool with tier and implementation, unless scoring raises or the breaker is open and the tool irreversible. |
| InterceptionRuns.ShadowModeCanBlock | src/simulacrum/interception/interceptor.py:269-296 | A shadow call that is blocked: the breaker is open and the tool a payment. |
| InterceptionRuns.AllowedIffExecuted | src/simulacrum/interception/interceptor.py:171-175 | `allowed` is true exactly when the tool body ran, and an approval id is returned exactly when the call was held. |
| ScoredCalls.FlagsMean | src/simulacrum/interception/interceptor.py:178-222 | Each of the six flags of a scored call says, in terms of history, call and tables alone, that its detector fires. |
| ScoredCalls.CountMeans | src/simulacrum/interception/interceptor.py:123-138 | The flag count is the number of detectors that fire. |
| ScoredCalls.TierMeans | src/simulacrum/tier_engine/response_tier.py:27-54 | ALLOW iff nothing fires; BLOCK iff something fires on a high-value tool; approval iff something fires on a low-value irreversible tool or two detectors fire on a reversible one; FLAG iff just one fires on a reversible one. |
| ScoredCalls.AllowedIffNothingFires | src/simulacrum/interception/interceptor.py:301-362 | A scored call is answered ALLOW exactly when none of the six detectors fires, for any configuration. |
| ScoredCalls.ScoredCallIsAnswered | src/simulacrum/interception/interceptor.py:301-362 | The whole reply to a scored call, in shadow mode too: response, approval id, bypass and shadow marks, or the missing implementation. |
| ScoredCalls.ScoredCallLeaves | src/simulacrum/interception/interceptor.py:310-347 | What it leaves: one attempt with outcome, flags, count and approval id, a fresh pending request exactly if held, an execution exactly if let through. |
| ScoredCalls.UnscoredCallIsAnswered | src/simulacrum/interception/interceptor.py:269-302 | Reply and traces of a call with the breaker open, with failing scoring, or of a tool without a tier. |
| ScoredCalls.HighValueIsNeverUpForApproval | src/simulacrum/interception/interceptor.py:322-328 | No run ever makes an approval request for a call of a high-value tool. |
| InterceptAndCalls.Bypass | src/simulacrum/interception/interceptor.py:269-296 | With the breaker open, store, log and reply are those of the step: recorded and run under a fail-open tier, recorded as BLOCKED otherwise. |
| InterceptAndCalls.Respond | src/simulacrum/interception/interceptor.py:301-362 | After scoring, store, queue, log and reply are those of the step for the response tier and shadow mode. |
| InterceptAndCalls.Score | src/simulacrum/interception/interceptor.py:255-268 | The breaker moves as its specification says and hands back the scoring result, the exception of an opaque detector, or that it is open. |
| InterceptAndCalls.Finish | src/simulacrum/interception/interceptor.py:269-362 | Everything after the breaker's answer is one step of the state machine on that answer. |
| InterceptAndCalls.InterceptAndCall | src/simulacrum/interception/interceptor.py:232-362 | One call over the objects is one step of the state machine on the breaker's verdict: the whole new store, queue, execution log, breaker state, reply and tool result. |
| InterceptAndCalls.InterceptAndCallThroughRedis | src/simulacrum/interception/interceptor.py:238-268 | The same with the Redis breaker in the in-memory one's place. |
| SessionStore.InMemorySessionStore.AppendAttempt | src/simulacrum/session/store.py:61-64 | The session's list grows by this attempt at the end; other sessions keep theirs. |
| HeldCalls.HeldCallsMatchRequests | src/simulacrum/interception/interceptor.py:327-341 | In every reachable state PENDING_APPROVAL attempts and approval requests are in bijection, with the same session, tool and parameters. |
| Approvals.LazyExpiryRefinesEager | src/simulacrum/tier_engine/approval_queue.py:92-131 | Every submit, get and decide returns the record or error it would return if each request expired by itself exactly at submitted_at + timeout, except for the decided_at of an expired request. |
| Approvals.ExpiryIsStampedByFirstLateLook | src/simulacrum/tier_engine/approval_queue.py:98-101 | That decided_at is the reading of the first look past the deadline, and a request still stored as pending has had no such look. |
| Approvals.PollChangesQueueIff | src/simulacrum/tier_engine/approval_queue.py:92-104 | A poll changes the queue exactly if its request is pending and overdue, and then only that request's record. |
| Approvals.PollIsSeenAs | src/simulacrum/tier_engine/approval_queue.py:98-104 | After such a poll every later look at the request shows the poll's reading where without it it would show that of the first later look; no other result differs. |
| Approvals.ExtraPollingIsUnobservableIff | src/simulacrum/tier_engine/approval_queue.py:92-104 | A poll can be added or dropped without changing any other result, exactly unless it is the first look past the deadline, a later get shows the request, and the first later look reads another time. |
| Approvals.ExtraPollingHidesNoOutcome | src/simulacrum/tier_engine/approval_queue.py:92-131 | It never changes any other result but for the decided_at of an expired request. |
| Approvals.ResolvedIsForGood | src/simulacrum/tier_engine/approval_queue.py:106-131 | A resolved request keeps its whole record under every later operation. |
| Approvals.FirstRulingStands | src/simulacrum/tier_engine/approval_queue.py:120-131 | The first decision with its first reading before submitted_at + timeout returns, and every later get shows, APPROVED for an approval and DENIED for a denial, with that role and the decision's second reading. |
| Approvals.LateRulingIsRefused | src/simulacrum/tier_engine/approval_queue.py:120-125 | A decision at or after the deadline is refused as expired and leaves no role. |
| Approvals.UndecidedShows | src/simulacrum/tier_engine/approval_queue.py:82-104 | A request no one decided shows to a look at t as it was submitted iff t - submitted_at is short of the timeout, and as expired otherwise. |
| Approvals.PendingCountNeverUndercounts | src/simulacrum/tier_engine/approval_queue.py:75-76 | The stored pending count is at least the number of truly live requests; the surplus are exactly the overdue ones. |
| ApprovalObjects.ApprovalQueue.Submit | src/simulacrum/tier_engine/approval_queue.py:78-90 | A fresh pending request is added under its id, and nothing else changes. |
| ApprovalObjects.ApprovalQueue.Get | src/simulacrum/tier_engine/approval_queue.py:92-104 | The fields of the request, and no others, change as the specification's poll does. |
| ApprovalObjects.ApprovalQueue.Decide | src/simulacrum/tier_engine/approval_queue.py:106-131 | State and result are those of the specification: unknown, already resolved, or the recorded verdict with time and role. |
| InvestigationReports.GenerateInvestigationReport | src/simulacrum/investigation/report.py:58-106 | Entries, outcome breakdown and flagged count are those of the attempts, and the queue is left as polling the held calls in order leaves it. |
| InvestigationReports.OutcomeCountsSumToTotal | src/simulacrum/investigation/report.py:64-66 | The outcome counts add up to the number of calls. |
| InvestigationReports.TalliesMean | src/simulacrum/investigation/report.py:60-69 | The breakdown names exactly the outcomes that occur, each with its number of attempts, and the flagged calls are the attempts whose recorded flag count is positive. |
| InvestigationReports.EntryWithoutDecision | src/simulacrum/investigation/report.py:71-98 | Without a queue, for a call not held, or for an unknown request, an entry shows the attempt and no decision. |
| InvestigationReports.LookUpsOnlyExpire | src/simulacrum/investigation/report.py:78-86 | Making a report changes no request but overdue pending ones of held calls, which it expires. |
| InvestigationReports.HeldEntriesCarryTheirDecision | src/simulacrum/investigation/report.py:71-98 | With the run's own queue exactly the held entries carry an approval outcome, that of the request made for that very call. |
| RedisSessionStore.KeyIsInjective | src/simulacrum/session/redis_store.py:49-50 | Different sessions never share a key. |
| RedisSessionStore.RedisSessionStore.AppendAttempt | src/simulacrum/session/redis_store.py:89-98 | A write is a push and a refresh, each at its own time, on the session's key. |
| RedisSessionStore.ReadsSinceLastIdleGapIff | src/simulacrum/session/redis_store.py:94-105 | A read returns exactly the session's attempts since its last idle gap of at least the time to live, if and only if no write since that gap was split by the old deadline; other sessions and earlier history play no part. |
| RedisSessionStore.AgreesWithInMemoryStoreIff | src/simulacrum/session/store.py:61-76 | Both stores give the same attempts exactly when the session is empty or every refresh, and the read, came less than a time to live after the refresh before; then also the same calls and footprint. |
| RedisSessionStore.InterleavedWritesAgreeIff | src/simulacrum/session/redis_store.py:94-105 | With the pushes and refreshes of any number of replicas interleaved, the server gives what an in-memory store gives for the same pushes exactly when the session is empty, or every command and the read came less than a time to live after the last refresh before it. |
| RedisSessionStore.WriteIsKeptIff | src/simulacrum/session/redis_store.py:94-98 | A write can be read right after it exactly when the old deadline does not fall between its push and its refresh. |
| RedisSessionStore.SlowRefreshLosesWrite | src/simulacrum/session/redis_store.py:94-98 | A session in use whose second write is lost. |
| RedisSessionStore.NoTimeToLiveKeepsNothing | src/simulacrum/session/redis_store.py:98 | A time to live that is not positive keeps nothing. |
| TaskSim.DefaultWordsAreUsable | src/simulacrum/task_sim/session.py:96-102 | The word lists are not empty and no reply body is longer than the content threshold. |
| TaskSim.GenerateSession | src/simulacrum/task_sim/session.py:218-233 | The nested loops make the specified calls, numbered in order, and consume exactly the specified draws. |
| GeneratedSessions.GeneratesExactlyNormalSessions | src/simulacrum/task_sim/session.py:85-228 | Over all random sources the generator makes exactly the sessions of the template's form: its two tools in order, each within its repeat bounds, numbered from 0, each call with any parameters its generator can draw. |
| GeneratedSessions.DecimalIsTheNumber | src/simulacrum/task_sim/session.py:86 | The decimal text of a drawn number stands for it and has no leading zero. |
| GeneratedSessions.TwoDigitsAreTheNumber | src/simulacrum/task_sim/session.py:123 | Months and days are written with two digits that stand for them. |
| TaskSim.BaselineIsTheTemplatesTools | src/simulacrum/detectors/permission_escalation.py:20-27 | A tool is in a task's baseline exactly if a step group of its template uses it. |
| NormalSessions.SessionIsWellShaped | src/simulacrum/task_sim/session.py:179-228 | For every random source each call comes from a step group of the template and no tool occurs more than six times. |
| NormalSessions.StructuralDetectorsStaySilent | src/simulacrum/interception/interceptor.py:190-222 | Each call of a generated session, after the earlier ones were recorded unblocked, leaves all four structural detectors silent. |
| NormalSessions.GeneratedSessionIsAllowedIff | src/simulacrum/task_sim/session.py:218-233 | For every random source, replaying a generated session with whatever findings of the opaque detectors keeps the structural flags of every call false, and a call is answered ALLOW exactly when the opaque detectors are silent on it; then its tool runs. |
| NormalSessions.DefaultsKnowTemplates | src/simulacrum/detectors/schema.py:72-121 | The default tiers, schemas and baselines know every tool of every template, none of high value, so the theorem applies to them. |
| ExfiltrationAttack.AttackIndexIsFirstToFire | src/simulacrum/attack_suite/exfiltration.py:64-95 | If the normal part stays below the threshold, attack_call_index is exactly the first call whose outbound count reaches it. |
| ExfiltrationAttack.EveryFrequencyAttackIsLabelledExactly | src/simulacrum/attack_suite/exfiltration.py:63-98 | That holds for every random source and task type. |
| ExfiltrationAttack.AttackSessionIs | src/simulacrum/attack_suite/exfiltration.py:63-98 | The attack is the normal session followed by as many outbound calls as bring the count to seven, at least one, taking the three turns and numbered on; the label is the last. |
| DriftScheduling.DriftScheduler.RunOnce | src/simulacrum/attribution/drift_scheduler.py:49-76 | The session's standing moves as specified, other sessions are untouched, and the standing decision is returned. |
| DriftScheduling.PassesAreAmortised | src/simulacrum/attribution/drift_trigger.py:21-29 | After each pass fewer than `interval` calls are unchecked, the decision's call count is the last-checked count, and every detector run is paid for by `interval` calls. |
| DriftScheduling.DetectorRunsAreBounded | src/simulacrum/attribution/drift_scheduler.py:64-76 | The detector has run at most len(history) / interval times. |
| DriftScheduling.StandingDecisionIsLastCheck | src/simulacrum/attribution/drift_scheduler.py:64-76 | The standing decision is the detector's answer to the task text and whole history of the last pass that checked, and there is none exactly while every history is shorter than the interval. |
| CallText.ParseCall | src/simulacrum/evaluation/goal_drift_structural_test.py:68-77 | The loop computes the parse that the specification reads off the pieces. |
| CallText.ParseUndoesPrintIffPlain | src/simulacrum/api/state.py:165-167 | Parsing undoes printing exactly for calls whose name, keys and values avoid what the format uses, empty parameters included. |
| CallText.ParseMeans | src/simulacrum/evaluation/goal_drift_structural_test.py:68-77 | For any text: it fails exactly without "("; the name precedes the first one; closing parentheses at the end go; and each key has the value of the last piece that gives it. |
| CallText.ClosingParenthesisIsLost | src/simulacrum/evaluation/goal_drift_structural_test.py:71 | A last value that ends in ")" is not read back. |
| CalibrationReports.ComputeReliabilityBins | src/simulacrum/evaluation/calibration_report.py:70-105 | The loops give one entry per bin, and fail exactly when some sample's index is out of range. |
| CalibrationReports.BinsPartitionSamples | src/simulacrum/evaluation/calibration_report.py:81-84 | Every sample is in exactly one bin: sizes, attacks and squared errors add up to the whole. |
| CalibrationReports.BrierBoundsReliabilityGap | src/simulacrum/evaluation/calibration_report.py:54-105 | The Brier score is at least the count-weighted mean of the squared gaps between mean prediction and observed frequency. |
| CalibrationReports.FrequenciesRecoverBaseRate | src/simulacrum/evaluation/calibration_report.py:97-104 | Count-weighted observed frequencies add up to the attacks in the sample. |
| CalibrationReports.MeansLieInTheirBins | src/simulacrum/evaluation/calibration_report.py:86-104 | Probabilities always find a bin, and each non-empty bin's mean prediction lies in its range. |
| CalibrationReports.BrierOfConcat | src/simulacrum/evaluation/calibration_report.py:62-67 | The score of two samples together is the mean of their scores weighted by size; with the next row this fixes the score. |
| CalibrationReports.BrierOfOne | src/simulacrum/evaluation/calibration_report.py:62-67 | One sample scores the square of its error, and no sample has no score. |
| CalibrationReports.BinIndexMeans | src/simulacrum/evaluation/calibration_report.py:81-84 | Which bin takes any prediction, also beyond [0, 1], where negative indices count from the end. |
| CalibrationReports.BinEntryMeans | src/simulacrum/evaluation/calibration_report.py:86-104 | An entry has its nth part of [0, 1] as range, the number of its samples, and the means of their predictions and outcomes. |
| CalibrationReports.PseudoProbabilityMeans | src/simulacrum/evaluation/calibration_report.py:50-51 | Linear from 1 at similarity -1 to 0 at 1, constant beyond. |
| CalibrationPoisoning.MinMarginSeesOnlyTheSmallest | src/simulacrum/adversarial/calibration_poisoning.py:25-32 | The min-margin threshold depends on the single smallest sample only. |
| CalibrationPoisoning.OneSampleSetsMinMargin | src/simulacrum/adversarial/calibration_poisoning.py:25-32 | One added sample brings about any lower threshold. |
| CalibrationPoisoning.PoisoningNeverHelpsMinMargin | src/simulacrum/adversarial/calibration_poisoning.py:67-83 | When the poisoned samples contain the clean ones, the threshold and the catch count never rise. |
| CalibrationPoisoning.PoisonedPercentileIsSandwiched | src/simulacrum/adversarial/calibration_poisoning.py:102-104 | With k samples added, the percentile threshold stays between the clean order statistics i - k and i, i being the index for n + k. |
| CalibrationPoisoning.PoisoningTestReports | src/simulacrum/adversarial/calibration_poisoning.py:67-83 | Each threshold lies the margin below the least of its samples, and each count is the number of attacks more than the margin below all of them; it fails exactly without samples. |
| CalibrationPoisoning.PercentileIndexMeans | src/simulacrum/adversarial/calibration_poisoning.py:103 | The index is one less than the whole part of n * p / 100, and 0 when that is not positive. |
| CalibrationPoisoning.PercentileThresholdIsOrderStatistic | src/simulacrum/adversarial/calibration_poisoning.py:102-104 | The threshold is a sample with at most `index` samples below it and more than `index` not above it; it fails exactly without that many samples. |
| PopulationStability.BinDistribution | src/simulacrum/drift/psi.py:41-58 | The nested loops compute each bin's share of the values, floored at 0.0001. |
| PopulationStability.ComputePsi | src/simulacrum/drift/psi.py:61-105 | The result, or which error is raised, is that of the specification. |
| PopulationStability.BinsPartitionValues | src/simulacrum/drift/psi.py:78-93 | Every baseline value and every clipped current value falls in exactly one bin, so counts sum to the total. |
| PopulationStability.PsiIsDivergence | src/simulacrum/drift/psi.py:95-98 | PSI is never negative, and zero exactly when the two binned distributions agree. |
| PopulationStability.PsiIsSumOfEntropies | src/simulacrum/drift/psi.py:87-98 | PSI is the sum of the two relative entropies of the shares of baseline and current values per bin, values beyond the edges counting for the nearest bin, shares floored at 0.0001. |
| PopulationStability.EdgesSpanBaseline | src/simulacrum/drift/psi.py:78-85 | The edges go in equal steps from the least to the greatest baseline value, or from 0.01 below to 0.01 above a single one. |
| PopulationStability.PsiClassifies | src/simulacrum/drift/psi.py:100-105 | Significant iff above 0.25, moderate iff in (0.1, 0.25], never both, neither when the shares agree. |
| PopulationStability.PsiFailsIff | src/simulacrum/drift/psi.py:72-76 | Too little data exactly below 30 values on either side; division by zero exactly for zero bins. |
| PopulationStability.PsiIgnoresOrder | src/simulacrum/drift/psi.py:61-105 | The result does not depend on the order of the samples. |
| PopulationStability.PsiIgnoresUnit | src/simulacrum/drift/psi.py:78-98 | A positive scaling plus shift of both samples moves the edges and nothing else, if the baseline is not constant or the scale is one. |
| PopulationStability.UnitMattersIffBaselineConstant | src/simulacrum/drift/psi.py:61-98 | For each bin count the index is unchanged by a change of unit for all current values exactly when the baseline is not constant, or the scale is one, or there are at most two bins, or the baseline is too small to compute anything. |
| Embeddings.CosineTimesNormsIsDot | src/simulacrum/attribution/embedding.py:50-56 | Cosine similarity times the two norms is the dot product, and it is 0 for a null vector; this fixes it. |
| Embeddings.DotFromFront | src/simulacrum/attribution/embedding.py:51 | The dot product is the first pair's product plus that of the rest, and stops at the shorter vector. |
| Embeddings.ScoresOneIffParallel | src/simulacrum/attribution/embedding.py:50-56 | Vectors of one length score 1 exactly if one is a positive multiple of the other, and not null. |
| Embeddings.CosineIsWithinOne | src/simulacrum/attribution/embedding.py:50-56 | Cosine similarity lies in [-1, 1] for all vectors, of equal length or not (Cauchy-Schwarz). |
| Embeddings.CosineIsSymmetric | src/simulacrum/attribution/embedding.py:50-56 | It is symmetric. |
| Embeddings.CosineIgnoresScale | src/simulacrum/attribution/embedding.py:50-56 | It is invariant under positive scaling. |
| Embeddings.Embed | src/simulacrum/attribution/embedding.py:102-108 | The loop counts, per bucket, the words that are neither empty nor stopwords; it fails exactly when the dimension is zero and some word counts. |
| Embeddings.BagCountsWords | src/simulacrum/attribution/embedding.py:103-107 | Each component is the number of words, neither empty nor stopwords, whose hash falls in its bucket. |
| Embeddings.BagSimilarity | src/simulacrum/attribution/embedding.py:97-108 | Bags of words have similarity in [0, 1], whatever the order of their words. |
| Embeddings.PseudoProbabilityOfCosine | src/simulacrum/evaluation/calibration_report.py:50-51 | The clip never changes a cosine score, and scores that are not negative map into [0, 0.5]. |

## Left out

- The language-model classes, MiniLM, the content-pattern and redaction regular expressions: foreign code; the two opaque detectors are inputs.
- FastAPI routes, settings, authentication, Prometheus metrics, dashboards: plumbing around the modelled operations.
- The asyncio loop of the drift scheduler: sequences of `run_once` are modelled.
- Redis networking, crashes between commands, JSON text and the text form of numbers: stored attempts and stamps are values.
- SHA-256, UUIDs and the inside of `random.Random`: an arbitrary hash, given ids, an arbitrary stream. The session id that `generate_session` draws at the end is not modelled.
- The default registries are given as the tables that `build_default_registry` and `build_default_schema_registry` leave behind, not as their registration calls; the stub tools' return values are arbitrary functions of the parameters.
- The numbers and names inside `scoring_detail`: which detectors flagged, their count and the approval id are kept.
- Splitting, stripping and lower-casing text before embedding: words are given.
- The haystack document and its shuffle, the content-size attack session, the other attack suites, AgentDojo loading, promotion gate, version tracker: data, or true but easy.
- `to_redacted_dict` of the report: renaming of fields around a regular expression.
- Floating-point rounding: a value that rounds across a bin edge can fall in the neighbouring bin.
- CalibrationReports.ComputeReliabilityBins: with `n_bins` zero the code fails while it indexes an empty list, which is the out-of-range error here.
- InterceptAndCalls.InterceptAndCall: uses the in-memory session store; that the Redis store gives the same attempts, and when, is proved separately.
- InterceptAndCalls.InterceptAndCallThroughRedis: like RedisBreakerObjects.RedisCircuitBreaker.Call, has no other replica's command in between; interleavings are the protocol module's subject.
