/**
 * The Redis-backed breaker (src/simulacrum/interception/redis_circuit_breaker.py) as a protocol:
 * any number of replicas share two keys, and every single Redis command, clock reading and
 * return of the wrapped function is one step that may interleave with the steps of the others.
 * All replicas read one clock and have equal settings.
 */
module RedisBreakerProtocol {
  import opened Common
  import opened CircuitBreakers

  /** The two keys of one breaker name. */
  datatype Keys = Keys(failureCount: Option<int>, openedAt: Option<real>)

  /** Where a replica stands inside `call`. */
  datatype Phase =
    | Idle                        // not inside `call`
    | SawOpenedAt(stamp: real)    // GET opened_at returned a stamp; the clock is read next
    | Rejecting                   // OPEN; GET failure_count for the message is next
    | Running                     // the wrapped function is running
    | Incrementing                // it raised; INCR failure_count is next
    | Tripping                    // INCR reached the threshold; the clock is read next
    | Setting(stamp: real)        // SET opened_at is next
    | ClearingCount               // it returned; DEL failure_count is next
    | ClearingOpenedAt            // DEL opened_at is next

  datatype Action =
    | GetOpenedAt | ReadClock | GetCount
    | FnReturns | FnRaises
    | Incr | ReadTripClock | SetOpenedAt
    | DelCount | DelOpenedAt

  /** One step: which replica, what it does, and the shared clock at that moment. */
  datatype Event = Event(replica: nat, action: Action, at: real)

  datatype System = System(keys: Keys, phases: map<nat, Phase>)

  const INITIAL := System(Keys(None, None), map[])

  function PhaseOf(s: System, r: nat): Phase {
    if r in s.phases then s.phases[r] else Idle
  }

  function Count(keys: Keys): int {
    if keys.failureCount.Some? then keys.failureCount.value else 0
  }

  predicate Enabled(s: System, e: Event) {
    match e.action
    case GetOpenedAt => PhaseOf(s, e.replica).Idle?
    case ReadClock => PhaseOf(s, e.replica).SawOpenedAt?
    case GetCount => PhaseOf(s, e.replica).Rejecting?
    case FnReturns => PhaseOf(s, e.replica).Running?
    case FnRaises => PhaseOf(s, e.replica).Running?
    case Incr => PhaseOf(s, e.replica).Incrementing?
    case ReadTripClock => PhaseOf(s, e.replica).Tripping?
    case SetOpenedAt => PhaseOf(s, e.replica).Setting?
    case DelCount => PhaseOf(s, e.replica).ClearingCount?
    case DelOpenedAt => PhaseOf(s, e.replica).ClearingOpenedAt?
  }

  function NextKeys(s: System, e: Event): Keys
    requires Enabled(s, e)
  {
    match e.action
    case Incr => s.keys.(failureCount := Some(Count(s.keys) + 1))
    case SetOpenedAt => s.keys.(openedAt := Some(PhaseOf(s, e.replica).stamp))
    case DelCount => s.keys.(failureCount := None)
    case DelOpenedAt => s.keys.(openedAt := None)
    case _ => s.keys
  }

  function NextPhase(cfg: Settings, s: System, e: Event): Phase
    requires Enabled(s, e)
  {
    match e.action
    case GetOpenedAt => if s.keys.openedAt.Some? then SawOpenedAt(s.keys.openedAt.value) else Running
    case ReadClock =>
      if e.at - PhaseOf(s, e.replica).stamp >= cfg.recoveryTimeout then Running else Rejecting
    case GetCount => Idle
    case FnReturns => ClearingCount
    case FnRaises => Incrementing
    case Incr => if Count(s.keys) + 1 >= cfg.failureThreshold then Tripping else Idle
    case ReadTripClock => Setting(e.at)
    case SetOpenedAt => Idle
    case DelCount => ClearingOpenedAt
    case DelOpenedAt => Idle
  }

  function Next(cfg: Settings, s: System, e: Event): System
    requires Enabled(s, e)
  {
    System(NextKeys(s, e), s.phases[e.replica := NextPhase(cfg, s, e)])
  }

  /** The system after the first `n` events; an event that is not enabled changes nothing. */
  function StateAt(cfg: Settings, trace: seq<Event>, n: nat): System
    requires n <= |trace|
  {
    if n == 0 then INITIAL
    else
      var s := StateAt(cfg, trace, n - 1);
      if Enabled(s, trace[n - 1]) then Next(cfg, s, trace[n - 1]) else s
  }

  /** Any interleaving: every event is a possible next step of its replica. */
  ghost predicate IsRun(cfg: Settings, trace: seq<Event>) {
    forall i {:trigger Enabled(StateAt(cfg, trace, i), trace[i])} ::
      0 <= i < |trace| ==> Enabled(StateAt(cfg, trace, i), trace[i])
  }

  // ---------------------------------------------------------------------------------------------
  // What survives every interleaving

  /** The position just after the last DEL of the failure count among the first `n` events. */
  function LastReset(trace: seq<Event>, n: nat): (p: nat)
    requires n <= |trace|
    ensures p <= n
    ensures forall k :: p <= k < n ==> trace[k].action != DelCount
    ensures p > 0 ==> trace[p - 1].action == DelCount
  {
    if n == 0 then 0
    else if trace[n - 1].action == DelCount then n
    else LastReset(trace, n - 1)
  }

  /** How many INCRs there are from position `a` up to, not including, position `b`. */
  function Incrs(trace: seq<Event>, a: nat, b: nat): nat
    requires a <= b <= |trace|
  {
    if a == b then 0
    else Incrs(trace, a, b - 1) + (if trace[b - 1].action == Incr then 1 else 0)
  }

  /** No increment is lost and none survives a reset: INCR is atomic. */
  lemma {:induction false} StoredCountIsIncrsSinceReset(cfg: Settings, trace: seq<Event>, n: nat)
    requires IsRun(cfg, trace) && n <= |trace|
    ensures Count(StateAt(cfg, trace, n).keys) == Incrs(trace, LastReset(trace, n), n)
  {
    if n > 0 {
      StoredCountIsIncrsSinceReset(cfg, trace, n - 1);
      assert Enabled(StateAt(cfg, trace, n - 1), trace[n - 1]);
    }
  }

  /** The failures from `a` to `b` reach the threshold with no reset among them. */
  ghost predicate Burst(cfg: Settings, trace: seq<Event>, a: nat, b: nat) {
    && a <= b <= |trace|
    && Incrs(trace, a, b) >= cfg.failureThreshold
    && forall k :: a <= k < b ==> trace[k].action != DelCount
  }

  lemma {:induction false} TrippingFollowsBurst(cfg: Settings, trace: seq<Event>, n: nat, r: nat)
    requires IsRun(cfg, trace) && n <= |trace|
    requires PhaseOf(StateAt(cfg, trace, n), r).Tripping? || PhaseOf(StateAt(cfg, trace, n), r).Setting?
    ensures exists a: nat, b: nat :: Burst(cfg, trace, a, b) && a < b <= n
                        && trace[b - 1].replica == r && trace[b - 1].action == Incr
  {
    var s, e := StateAt(cfg, trace, n - 1), trace[n - 1];
    assert Enabled(s, e);
    if e.replica == r && e.action == Incr {
      StoredCountIsIncrsSinceReset(cfg, trace, n - 1);
      var a := LastReset(trace, n - 1);
      assert Incrs(trace, a, n) == Incrs(trace, a, n - 1) + 1;
      assert Burst(cfg, trace, a, n);
    } else {
      TrippingFollowsBurst(cfg, trace, n - 1, r);
    }
  }

  /**
   * Every SET of opened_at is justified: the replica that performs it earlier saw an INCR of its own
   * complete at least `failure_threshold` failures, of whatever replicas, with no reset among them.
   */
  lemma TripNeedsThresholdFailures(cfg: Settings, trace: seq<Event>, j: nat)
    requires IsRun(cfg, trace) && j < |trace| && trace[j].action == SetOpenedAt
    ensures exists a: nat, b: nat :: Burst(cfg, trace, a, b) && a < b <= j
                        && trace[b - 1].replica == trace[j].replica && trace[b - 1].action == Incr
  {
    assert Enabled(StateAt(cfg, trace, j), trace[j]);
    TrippingFollowsBurst(cfg, trace, j, trace[j].replica);
  }

  /** Event `j` belongs to the call of replica `r` that begins with its GET at position `g`. */
  ghost predicate InCallFrom(trace: seq<Event>, r: nat, g: nat, j: nat) {
    && g < j < |trace|
    && trace[g].replica == r && trace[g].action == GetOpenedAt
    && trace[j].replica == r
    && forall k :: g < k <= j && trace[k].replica == r ==> trace[k].action != GetOpenedAt
  }

  /** Whether the wrapped function of a call ran shows as its return or its exception. */
  predicate ShowsFnRan(a: Action) {
    a == FnReturns || a == FnRaises
  }

  lemma {:induction false} RejectedCallPhases(cfg: Settings, trace: seq<Event>, r: nat, g: nat, n: nat, stamp: real)
    requires IsRun(cfg, trace) && g < n <= |trace|
    requires trace[g].replica == r && trace[g].action == GetOpenedAt
    requires StateAt(cfg, trace, g).keys.openedAt == Some(stamp)
    requires forall k :: g < k < n && trace[k].replica == r ==> trace[k].action != GetOpenedAt
    requires forall k :: g < k < n && trace[k].replica == r && trace[k].action == ReadClock ==>
               trace[k].at < stamp + cfg.recoveryTimeout
    ensures PhaseOf(StateAt(cfg, trace, n), r) in {SawOpenedAt(stamp), Rejecting, Idle}
  {
    assert Enabled(StateAt(cfg, trace, n - 1), trace[n - 1]);
    if n > g + 1 {
      RejectedCallPhases(cfg, trace, r, g, n - 1, stamp);
    }
  }

  /**
   * A replica whose GET sees `opened_at == stamp`, and whose one clock reading after it is still short of
   * `stamp + recovery_timeout`, never runs the wrapped function in that call, whatever the
   * other replicas do to the keys meanwhile and whatever the clock shows later.
   */
  lemma OpenBreakerNeverRunsFn(cfg: Settings, trace: seq<Event>, r: nat, g: nat, j: nat, stamp: real)
    requires IsRun(cfg, trace) && InCallFrom(trace, r, g, j)
    requires StateAt(cfg, trace, g).keys.openedAt == Some(stamp)
    requires forall k :: g < k <= j && trace[k].replica == r && trace[k].action == ReadClock ==>
               trace[k].at < stamp + cfg.recoveryTimeout
    ensures !ShowsFnRan(trace[j].action)
  {
    RejectedCallPhases(cfg, trace, r, g, j, stamp);
    assert Enabled(StateAt(cfg, trace, j), trace[j]);
  }

  // ---------------------------------------------------------------------------------------------
  // Calls that do not overlap: one in-memory breaker

  /** The in-memory state that the two keys stand for. */
  function Abstract(keys: Keys): BreakerState {
    BreakerState(if keys.openedAt.Some? then Open else Closed, Count(keys), keys.openedAt)
  }

  /** The `state` property as any replica reads it from the keys. */
  function RedisVisibleState(cfg: Settings, keys: Keys, now: real): CircuitState {
    if keys.openedAt.None? then Closed
    else if now - keys.openedAt.value >= cfg.recoveryTimeout then Closed
    else Open
  }

  ghost predicate AllIdle(s: System) {
    forall r :: PhaseOf(s, r).Idle?
  }

  /** At most one replica at a time is inside `call`. */
  ghost predicate NoOverlap(cfg: Settings, trace: seq<Event>) {
    forall n, r, q ::
      (&& 0 <= n <= |trace|
       && !PhaseOf(StateAt(cfg, trace, n), r).Idle?
       && !PhaseOf(StateAt(cfg, trace, n), q).Idle?) ==> r == q
  }

  /**
   * The calls of a run in the order in which they are decided, each with the clock readings it used,
   * and whether it was let through to the wrapped function.
   */
  datatype History = History(calls: seq<Attempt>, accepted: seq<bool>, now: real)

  function Record(h: History, c: Attempt, accepted: bool): History {
    History(h.calls + [c], h.accepted + [accepted], h.now)
  }

  function HistoryAt(cfg: Settings, trace: seq<Event>, n: nat): History
    requires n <= |trace|
  {
    if n == 0 then History([], [], 0.0)
    else
      var h, s, e := HistoryAt(cfg, trace, n - 1), StateAt(cfg, trace, n - 1), trace[n - 1];
      match e.action
      case GetOpenedAt => h.(now := e.at)
      case ReadClock =>
        if Enabled(s, e) && NextPhase(cfg, s, e).Rejecting?
        then Record(h, Attempt(e.at, e.at, false), false)
        else h.(now := e.at)
      case FnReturns => Record(h, Attempt(h.now, e.at, true), true)
      case Incr =>
        if Enabled(s, e) && NextPhase(cfg, s, e).Idle? then Record(h, Attempt(h.now, e.at, false), true) else h
      case ReadTripClock => Record(h, Attempt(h.now, e.at, false), true)
      case _ => h
  }

  /** How the keys relate to the in-memory breaker `m` while the only active call is in phase `p`. */
  ghost predicate Simulates(cfg: Settings, keys: Keys, p: Phase, m: BreakerState, now: real) {
    match p
    case Idle => Abstract(keys) == m
    case SawOpenedAt(stamp) => Abstract(keys) == m && keys.openedAt == Some(stamp)
    case Rejecting => Abstract(keys) == m
    case Running => Abstract(keys) == m && VisibleState(cfg, m, now).Closed?
    case Incrementing => Abstract(keys) == m && VisibleState(cfg, m, now).Closed?
    case Tripping =>
      && Abstract(keys) == m.(failureCount := m.failureCount + 1)
      && m.failureCount + 1 >= cfg.failureThreshold
      && VisibleState(cfg, m, now).Closed?
    case Setting(stamp) => m == BreakerState(Open, Count(keys), Some(stamp))
    case ClearingCount => m == RESET
    case ClearingOpenedAt => m == RESET && keys.failureCount.None?
  }

  /** Every recorded verdict is the one the in-memory breaker gives at that point of the same calls. */
  ghost predicate SameVerdicts(cfg: Settings, h: History) {
    && |h.accepted| == |h.calls|
    && forall i {:trigger h.accepted[i]} :: 0 <= i < |h.calls| ==> h.accepted[i] == ExecutesAt(cfg, h.calls, i)
  }

  lemma RecordKeepsVerdicts(cfg: Settings, h: History, c: Attempt, accepted: bool)
    requires SameVerdicts(cfg, h) && accepted == Executes(cfg, Run(cfg, h.calls), c)
    ensures SameVerdicts(cfg, Record(h, c, accepted))
    ensures Run(cfg, Record(h, c, accepted).calls) == AfterCall(cfg, Run(cfg, h.calls), c)
  {
    var h' := Record(h, c, accepted);
    RunSnoc(cfg, h.calls, c);
    forall i | 0 <= i < |h'.calls|
      ensures h'.accepted[i] == ExecutesAt(cfg, h'.calls, i)
    {
      if i < |h.calls| {
        assert h'.calls[..i] == h.calls[..i];
        assert h.accepted[i] == ExecutesAt(cfg, h.calls, i);
      } else {
        assert h'.calls[..i] == h.calls;
      }
    }
  }

  lemma {:induction false} SimulationStep(cfg: Settings, s: System, e: Event, h: History, h': History)
    requires Enabled(s, e)
    requires SameVerdicts(cfg, h)
    requires Simulates(cfg, s.keys, PhaseOf(s, e.replica), Run(cfg, h.calls), h.now)
    requires h' == (
      match e.action
      case GetOpenedAt => h.(now := e.at)
      case ReadClock =>
        if NextPhase(cfg, s, e).Rejecting? then Record(h, Attempt(e.at, e.at, false), false) else h.(now := e.at)
      case FnReturns => Record(h, Attempt(h.now, e.at, true), true)
      case Incr => if NextPhase(cfg, s, e).Idle? then Record(h, Attempt(h.now, e.at, false), true) else h
      case ReadTripClock => Record(h, Attempt(h.now, e.at, false), true)
      case _ => h)
    ensures SameVerdicts(cfg, h')
    ensures Simulates(cfg, NextKeys(s, e), NextPhase(cfg, s, e), Run(cfg, h'.calls), h'.now)
  {
    match e.action
    case ReadClock =>
      if NextPhase(cfg, s, e).Rejecting? {
        RecordKeepsVerdicts(cfg, h, Attempt(e.at, e.at, false), false);
      }
    case FnReturns => RecordKeepsVerdicts(cfg, h, Attempt(h.now, e.at, true), true);
    case Incr =>
      if NextPhase(cfg, s, e).Idle? {
        RecordKeepsVerdicts(cfg, h, Attempt(h.now, e.at, false), true);
      }
    case ReadTripClock => RecordKeepsVerdicts(cfg, h, Attempt(h.now, e.at, false), true);
    case _ =>
  }

  /** The invariant of a run without overlap: the simulation relation holds for every replica's phase. */
  lemma {:induction false} SimulationAt(cfg: Settings, trace: seq<Event>, n: nat, r: nat)
    requires IsRun(cfg, trace) && NoOverlap(cfg, trace) && n <= |trace|
    requires forall q :: q != r ==> PhaseOf(StateAt(cfg, trace, n), q).Idle?
    ensures SameVerdicts(cfg, HistoryAt(cfg, trace, n))
    ensures var s, h := StateAt(cfg, trace, n), HistoryAt(cfg, trace, n);
            Simulates(cfg, s.keys, PhaseOf(s, r), Run(cfg, h.calls), h.now)
  {
    if n > 0 {
      var s, e := StateAt(cfg, trace, n - 1), trace[n - 1];
      var s' := StateAt(cfg, trace, n);
      assert Enabled(s, e);
      var a := e.replica;
      assert PhaseOf(s, a).Idle? ==> !PhaseOf(s', a).Idle?;
      forall q | q != a
        ensures PhaseOf(s, q).Idle?
      {
        assert PhaseOf(s', q) == PhaseOf(s, q);
      }
      SimulationAt(cfg, trace, n - 1, a);
      SimulationStep(cfg, s, e, HistoryAt(cfg, trace, n - 1), HistoryAt(cfg, trace, n));
      if a != r {
        assert PhaseOf(s', a).Idle? && PhaseOf(s', r) == PhaseOf(s, r);
      }
    }
  }

  /**
   * N Redis breakers sharing a name, used one call at a time, are one in-memory breaker: at every point
   * of every such run where no call is in progress, the keys stand for the state the in-memory breaker
   * reaches on the same calls with the same clock readings, every call so far was accepted or rejected as
   * the in-memory breaker does it, and every replica sees the in-memory breaker's state.
   */
  lemma NonOverlappingReplicasAreOneBreaker(cfg: Settings, trace: seq<Event>, n: nat, now: real)
    requires IsRun(cfg, trace) && NoOverlap(cfg, trace) && n <= |trace|
    requires AllIdle(StateAt(cfg, trace, n))
    ensures var keys, h := StateAt(cfg, trace, n).keys, HistoryAt(cfg, trace, n);
            && Abstract(keys) == Run(cfg, h.calls)
            && SameVerdicts(cfg, h)
            && (keys.openedAt.Some? <==> Run(cfg, h.calls).state.Open?)
            && RedisVisibleState(cfg, keys, now) == VisibleState(cfg, Run(cfg, h.calls), now)
  {
    assert forall q :: q != 0 ==> PhaseOf(StateAt(cfg, trace, n), q).Idle?;
    SimulationAt(cfg, trace, n, 0);
    assert PhaseOf(StateAt(cfg, trace, n), 0).Idle?;
  }

  // ---------------------------------------------------------------------------------------------
  // Calls that do overlap: which states an in-memory breaker can reach

  /** Some run of an in-memory breaker, with a clock that never goes back, ends in this state. */
  ghost predicate InMemoryReachable(cfg: Settings, m: BreakerState) {
    exists calls :: ClockNeverGoesBack(calls) && Run(cfg, calls) == m
  }

  /** The breaker is open exactly when enough failures are counted. */
  predicate Coherent(cfg: Settings, keys: Keys) {
    keys.openedAt.Some? <==> Count(keys) >= EffectiveThreshold(cfg)
  }

  /** `n` failing calls, one every `step`, the last at time `t`. */
  function FailuresUntil(n: nat, t: real, step: real): seq<Attempt> {
    if n == 0 then [] else FailuresUntil(n - 1, t - step, step) + [Attempt(t, t, false)]
  }

  lemma {:induction false} FailuresUntilIsInOrder(n: nat, t: real, step: real)
    requires step >= 0.0
    ensures ClockNeverGoesBack(FailuresUntil(n, t, step))
    ensures forall c :: c in FailuresUntil(n, t, step) ==> c.now == c.later <= t
  {
    if n > 0 {
      FailuresUntilIsInOrder(n - 1, t - step, step);
      var front := FailuresUntil(n - 1, t - step, step);
      assert forall i :: 0 <= i < |front| ==> front[i] in front;
    }
  }

  lemma {:induction false} RunOfFailures(cfg: Settings, n: nat, t: real, step: real)
    requires step >= cfg.recoveryTimeout
    ensures Run(cfg, FailuresUntil(n, t, step))
         == if n >= EffectiveThreshold(cfg) then BreakerState(Open, n, Some(t)) else BreakerState(Closed, n, None)
  {
    if n > 0 {
      RunOfFailures(cfg, n - 1, t - step, step);
      RunSnoc(cfg, FailuresUntil(n - 1, t - step, step), Attempt(t, t, false));
    }
  }

  lemma ReachableIsCoherent(cfg: Settings, keys: Keys)
    ensures InMemoryReachable(cfg, Abstract(keys)) ==> Coherent(cfg, keys)
  {
    if InMemoryReachable(cfg, Abstract(keys)) {
      var calls :| ClockNeverGoesBack(calls) && Run(cfg, calls) == Abstract(keys);
      CountIsTrailingFailures(cfg, calls);
    }
  }

  /**
   * Which keys stand for a state of an in-memory breaker: those in which the stamp is present exactly when
   * the count has reached the threshold.
   */
  lemma ReachableIffCoherent(cfg: Settings, keys: Keys)
    requires Count(keys) >= 0
    ensures InMemoryReachable(cfg, Abstract(keys)) <==> Coherent(cfg, keys)
  {
    ReachableIsCoherent(cfg, keys);
    if Coherent(cfg, keys) {
      var step := if cfg.recoveryTimeout > 0.0 then cfg.recoveryTimeout else 0.0;
      var t := keys.openedAt.GetOr(0.0);
      var calls := FailuresUntil(Count(keys), t, step);
      FailuresUntilIsInOrder(Count(keys), t, step);
      RunOfFailures(cfg, Count(keys), t, step);
      assert ClockNeverGoesBack(calls) && Run(cfg, calls) == Abstract(keys);
    }
  }

  // ---------------------------------------------------------------------------------------------
  // Overlap that does no harm

  predicate IsTripping(p: Phase) {
    p.Tripping? || p.Setting?
  }

  /** No replica is about to SET the stamp while another is about to DEL it. */
  ghost predicate UpdatesApart(s: System) {
    forall r, q :: !(IsTripping(PhaseOf(s, r)) && PhaseOf(s, q).ClearingOpenedAt?)
  }

  ghost predicate AlwaysApart(cfg: Settings, trace: seq<Event>) {
    forall n {:trigger StateAt(cfg, trace, n)} :: 0 <= n <= |trace| ==> UpdatesApart(StateAt(cfg, trace, n))
  }

  ghost predicate SomeTripping(s: System) {
    exists r :: IsTripping(PhaseOf(s, r))
  }

  ghost predicate SomeClearing(s: System) {
    exists r :: PhaseOf(s, r).ClearingOpenedAt?
  }

  /** Stamp and count disagree only while some replica is between the two commands that set them right. */
  ghost predicate CoherentUpToUpdates(cfg: Settings, s: System) {
    var th := EffectiveThreshold(cfg);
    && Count(s.keys) >= 0
    && (SomeTripping(s) ==> Count(s.keys) >= th)
    && (SomeClearing(s) ==> Count(s.keys) < th)
    && (Count(s.keys) >= th && s.keys.openedAt.None? ==> SomeTripping(s))
    && (Count(s.keys) < th && s.keys.openedAt.Some? ==> SomeClearing(s))
  }

  lemma CoherenceStep(cfg: Settings, s: System, e: Event)
    requires Enabled(s, e) && CoherentUpToUpdates(cfg, s)
    requires UpdatesApart(s) && UpdatesApart(Next(cfg, s, e))
    ensures CoherentUpToUpdates(cfg, Next(cfg, s, e))
  {
    var s' := Next(cfg, s, e);
    assert PhaseOf(s', e.replica) == NextPhase(cfg, s, e);
    assert forall r :: r != e.replica ==> PhaseOf(s', r) == PhaseOf(s, r);
  }

  lemma {:induction false} CoherenceAt(cfg: Settings, trace: seq<Event>, n: nat)
    requires IsRun(cfg, trace) && AlwaysApart(cfg, trace) && n <= |trace|
    ensures CoherentUpToUpdates(cfg, StateAt(cfg, trace, n))
  {
    if n > 0 {
      CoherenceAt(cfg, trace, n - 1);
      assert Enabled(StateAt(cfg, trace, n - 1), trace[n - 1]);
      CoherenceStep(cfg, StateAt(cfg, trace, n - 1), trace[n - 1]);
    }
  }

  /**
   * Wrapped functions may overlap freely: as long as no SET of the stamp is pending while a DEL of it is,
   * the keys stand for a state of an in-memory breaker whenever no call is in progress.
   */
  lemma ApartUpdatesStayInMemoryReachable(cfg: Settings, trace: seq<Event>, n: nat)
    requires IsRun(cfg, trace) && AlwaysApart(cfg, trace) && n <= |trace|
    requires AllIdle(StateAt(cfg, trace, n))
    ensures InMemoryReachable(cfg, Abstract(StateAt(cfg, trace, n).keys))
  {
    CoherenceAt(cfg, trace, n);
    ReachableIffCoherent(cfg, StateAt(cfg, trace, n).keys);
  }

  /** Whether the replica is updating the keys: from its first update command to its last. */
  predicate IsUpdating(p: Phase) {
    p.Incrementing? || p.Tripping? || p.Setting? || p.ClearingCount? || p.ClearingOpenedAt?
  }

  /** A lock held around the key updates of a call, and not around the wrapped function. */
  ghost predicate UpdatesLocked(cfg: Settings, trace: seq<Event>) {
    forall n, r, q ::
      (&& 0 <= n <= |trace|
       && IsUpdating(PhaseOf(StateAt(cfg, trace, n), r))
       && IsUpdating(PhaseOf(StateAt(cfg, trace, n), q))) ==> r == q
  }

  lemma LockKeepsUpdatesApart(cfg: Settings, trace: seq<Event>)
    requires UpdatesLocked(cfg, trace)
    ensures AlwaysApart(cfg, trace)
  {
    forall n | 0 <= n <= |trace|
      ensures UpdatesApart(StateAt(cfg, trace, n))
    {
      var s := StateAt(cfg, trace, n);
      forall r, q
        ensures !(IsTripping(PhaseOf(s, r)) && PhaseOf(s, q).ClearingOpenedAt?)
      {
        assert IsUpdating(PhaseOf(s, r)) && IsUpdating(PhaseOf(s, q)) ==> r == q;
      }
    }
  }

  // ---------------------------------------------------------------------------------------------
  // Overlap that does harm

  ghost predicate RunEndsIn(cfg: Settings, trace: seq<Event>, s: System) {
    IsRun(cfg, trace) && StateAt(cfg, trace, |trace|) == s
  }

  lemma {:induction false} StateOfPrefix(cfg: Settings, trace: seq<Event>, e: Event, n: nat)
    requires n <= |trace|
    ensures StateAt(cfg, trace + [e], n) == StateAt(cfg, trace, n)
  {
    if n > 0 {
      StateOfPrefix(cfg, trace, e, n - 1);
    }
  }

  lemma ExtendRun(cfg: Settings, trace: seq<Event>, s: System, e: Event) returns (trace': seq<Event>)
    requires RunEndsIn(cfg, trace, s) && Enabled(s, e)
    ensures trace' == trace + [e] && RunEndsIn(cfg, trace', Next(cfg, s, e))
  {
    trace' := trace + [e];
    forall i | 0 <= i < |trace'|
      ensures Enabled(StateAt(cfg, trace', i), trace'[i])
    {
      StateOfPrefix(cfg, trace, e, i);
      if i < |trace| {
        assert Enabled(StateAt(cfg, trace, i), trace[i]);
      }
    }
    StateOfPrefix(cfg, trace, e, |trace|);
  }

  /** How many steps a replica still has to take at most. */
  function StepsLeft(p: Phase): nat {
    match p
    case Idle => 0
    case Rejecting => 1 case Setting(_) => 1 case ClearingOpenedAt => 1
    case Tripping => 2 case ClearingCount => 2
    case Incrementing => 3
    case Running => 4
    case SawOpenedAt(_) => 5
  }

  /** The next thing a replica inside `call` does; a wrapped function that is running raises. */
  function NextAction(p: Phase): Action
    requires !p.Idle?
  {
    match p
    case SawOpenedAt(_) => ReadClock
    case Rejecting => GetCount
    case Running => FnRaises
    case Incrementing => Incr
    case Tripping => ReadTripClock
    case Setting(_) => SetOpenedAt
    case ClearingCount => DelCount
    case ClearingOpenedAt => DelOpenedAt
  }

  /** `trace'` goes on after `trace`, with every further clock reading at `now`. */
  ghost predicate Continues(trace: seq<Event>, trace': seq<Event>, now: real) {
    trace <= trace' && forall i :: |trace| <= i < |trace'| ==> trace'[i].at == now
  }

  /** A replica ends its call while the others stand still. */
  lemma {:induction false} FinishCall(cfg: Settings, trace: seq<Event>, s: System, r: nat, now: real)
    returns (trace': seq<Event>, s': System)
    requires RunEndsIn(cfg, trace, s)
    ensures RunEndsIn(cfg, trace', s') && Continues(trace, trace', now)
    ensures PhaseOf(s', r).Idle? && forall q :: q != r ==> PhaseOf(s', q) == PhaseOf(s, q)
    ensures PhaseOf(s, r).Idle? ==> s' == s
    ensures IsTripping(PhaseOf(s, r)) ==> s'.keys.openedAt.Some? && Count(s'.keys) == Count(s.keys)
    ensures PhaseOf(s, r).ClearingOpenedAt? ==> s'.keys == s.keys.(openedAt := None)
    decreases StepsLeft(PhaseOf(s, r))
  {
    if PhaseOf(s, r).Idle? {
      trace', s' := trace, s;
    } else {
      var e := Event(r, NextAction(PhaseOf(s, r)), now);
      var next := Next(cfg, s, e);
      var t := ExtendRun(cfg, trace, s, e);
      trace', s' := FinishCall(cfg, t, next, r, now);
    }
  }

  /** The replicas inside `call`, two of them excepted. */
  function OthersInCall(s: System, r: nat, q: nat): set<nat> {
    set p | p in s.phases && !PhaseOf(s, p).Idle? && p != r && p != q
  }

  /** All replicas but two end their calls. */
  lemma {:induction false} FinishOthers(cfg: Settings, trace: seq<Event>, s: System, r: nat, q: nat, now: real)
    returns (trace': seq<Event>, s': System)
    requires RunEndsIn(cfg, trace, s)
    ensures RunEndsIn(cfg, trace', s') && Continues(trace, trace', now)
    ensures PhaseOf(s', r) == PhaseOf(s, r) && PhaseOf(s', q) == PhaseOf(s, q)
    ensures forall p :: p != r && p != q ==> PhaseOf(s', p).Idle?
    decreases OthersInCall(s, r, q)
  {
    if p :| p in OthersInCall(s, r, q) {
      var t, next := FinishCall(cfg, trace, s, p, now);
      assert p !in OthersInCall(next, r, q);
      trace', s' := FinishOthers(cfg, t, next, r, q, now);
    } else {
      trace', s' := trace, s;
      forall p | p != r && p != q
        ensures PhaseOf(s, p).Idle?
      {
        assert p !in OthersInCall(s, r, q);
      }
    }
  }

  /**
   * Every such collision can do harm: from any run in which a SET of the stamp is pending while a DEL of it is,
   * some continuation, at whatever time, leaves no call in progress and the keys in a state that no in-memory
   * breaker reaches. The order of the two commands decides.
   */
  lemma CollisionCanEscape(cfg: Settings, trace: seq<Event>, s: System, now: real) returns (trace': seq<Event>)
    requires RunEndsIn(cfg, trace, s) && !UpdatesApart(s)
    ensures IsRun(cfg, trace') && Continues(trace, trace', now)
    ensures var s' := StateAt(cfg, trace', |trace'|); AllIdle(s') && !InMemoryReachable(cfg, Abstract(s'.keys))
  {
    var r: nat, q: nat :| IsTripping(PhaseOf(s, r)) && PhaseOf(s, q).ClearingOpenedAt?;
    var s';
    trace', s' := FinishOthers(cfg, trace, s, r, q, now);
    var first, second := r, q;
    if Count(s'.keys) < EffectiveThreshold(cfg) {
      first, second := q, r;
    }
    trace', s' := FinishCall(cfg, trace', s', first, now);
    trace', s' := FinishCall(cfg, trace', s', second, now);
    ReachableIsCoherent(cfg, s'.keys);
  }

  /** The two keys and the phases of replicas 0 and 1, in a system where all others are idle. */
  datatype View = View(keys: Keys, p0: Phase, p1: Phase)

  ghost predicate LooksLike(s: System, v: View) {
    && s.keys == v.keys && PhaseOf(s, 0) == v.p0 && PhaseOf(s, 1) == v.p1
    && forall r: nat :: r > 1 ==> PhaseOf(s, r).Idle?
  }

  function Pair(failureCount: Option<int>, openedAt: Option<real>, p0: Phase, p1: Phase): View {
    View(Keys(failureCount, openedAt), p0, p1)
  }

  /** One step of replica 0 or 1. */
  lemma Advance(cfg: Settings, trace: seq<Event>, s: System, e: Event, v: View) returns (trace': seq<Event>, s': System)
    requires RunEndsIn(cfg, trace, s) && Enabled(s, e) && e.replica <= 1
    requires forall r: nat :: r > 1 ==> PhaseOf(s, r).Idle?
    requires v.keys == NextKeys(s, e)
    requires v.p0 == if e.replica == 0 then NextPhase(cfg, s, e) else PhaseOf(s, 0)
    requires v.p1 == if e.replica == 1 then NextPhase(cfg, s, e) else PhaseOf(s, 1)
    ensures RunEndsIn(cfg, trace', s') && LooksLike(s', v)
  {
    trace' := ExtendRun(cfg, trace, s, e);
    s' := Next(cfg, s, e);
    forall r: nat | r > 1
      ensures PhaseOf(s', r).Idle?
    {
      assert PhaseOf(s', r) == PhaseOf(s, r);
    }
  }

  function Counted(k: nat): Option<int> {
    if k == 0 then None else Some(k)
  }

  /** `k` failing calls of replica 1, one after the other, too few to trip. */
  lemma {:induction false} SomeFailures(cfg: Settings, k: nat) returns (trace: seq<Event>, s: System)
    requires k < EffectiveThreshold(cfg)
    ensures RunEndsIn(cfg, trace, s) && LooksLike(s, Pair(Counted(k), None, Idle, Idle))
  {
    if k == 0 {
      trace, s := [], INITIAL;
    } else {
      trace, s := SomeFailures(cfg, k - 1);
      var c := Counted(k - 1);
      trace, s := Advance(cfg, trace, s, Event(1, GetOpenedAt, 0.0), Pair(c, None, Idle, Running));
      trace, s := Advance(cfg, trace, s, Event(1, FnRaises, 0.0), Pair(c, None, Idle, Incrementing));
      trace, s := Advance(cfg, trace, s, Event(1, Incr, 0.0), Pair(Counted(k), None, Idle, Idle));
    }
  }

  /**
   * One failure short of the threshold, both replicas are let through; replica 0 succeeds while replica 1
   * fails and trips, and the two DELs of replica 0 fall between the INCR and the SET of replica 1.
   */
  lemma HarmfulOverlap(cfg: Settings) returns (trace: seq<Event>, s: System)
    ensures RunEndsIn(cfg, trace, s) && LooksLike(s, Pair(None, Some(0.0), Idle, Idle))
  {
    var k := EffectiveThreshold(cfg) - 1;
    var c := Counted(k);
    var full := Counted(k + 1);
    trace, s := SomeFailures(cfg, k);
    trace, s := Advance(cfg, trace, s, Event(0, GetOpenedAt, 0.0), Pair(c, None, Running, Idle));
    trace, s := Advance(cfg, trace, s, Event(1, GetOpenedAt, 0.0), Pair(c, None, Running, Running));
    trace, s := Advance(cfg, trace, s, Event(0, FnReturns, 0.0), Pair(c, None, ClearingCount, Running));
    trace, s := Advance(cfg, trace, s, Event(1, FnRaises, 0.0), Pair(c, None, ClearingCount, Incrementing));
    trace, s := Advance(cfg, trace, s, Event(1, Incr, 0.0), Pair(full, None, ClearingCount, Tripping));
    trace, s := Advance(cfg, trace, s, Event(1, ReadTripClock, 0.0), Pair(full, None, ClearingCount, Setting(0.0)));
    trace, s := Advance(cfg, trace, s, Event(0, DelCount, 0.0), Pair(None, None, ClearingOpenedAt, Setting(0.0)));
    trace, s := Advance(cfg, trace, s, Event(0, DelOpenedAt, 0.0), Pair(None, None, Idle, Setting(0.0)));
    trace, s := Advance(cfg, trace, s, Event(1, SetOpenedAt, 0.0), Pair(None, Some(0.0), Idle, Idle));
  }

  /**
   * The condition on overlap is needed: whatever the settings, two overlapping calls can leave the breaker
   * open with no failure counted, and no sequence of calls brings an in-memory breaker there.
   */
  lemma OverlapEscapesEveryInMemoryBreaker(cfg: Settings) returns (trace: seq<Event>)
    ensures IsRun(cfg, trace)
    ensures var s := StateAt(cfg, trace, |trace|);
            && AllIdle(s)
            && s.keys.openedAt.Some? && Count(s.keys) == 0
            && forall calls :: Run(cfg, calls) != Abstract(s.keys)
  {
    var s;
    trace, s := HarmfulOverlap(cfg);
    forall r
      ensures PhaseOf(s, r).Idle?
    {
      assert r == 0 || r == 1 || r > 1;
    }
    forall calls
      ensures Run(cfg, calls) != Abstract(s.keys)
    {
      CountIsTrailingFailures(cfg, calls);
    }
  }
}

/** `RedisCircuitBreaker` itself, as objects that share a server and run one call at a time. */
module RedisBreakerObjects {
  import opened Common
  import opened CircuitBreakers
  import RedisBreakerProtocol

  const KEY_PREFIX := "simulacrum:breaker"

  function FailureCountKey(breakerName: string): string {
    KEY_PREFIX + ":" + breakerName + ":failure_count"
  }

  function OpenedAtKey(breakerName: string): string {
    KEY_PREFIX + ":" + breakerName + ":opened_at"
  }

  lemma MiddleIsUnique(prefix: string, a: string, b: string, suffix: string)
    requires prefix + a + suffix == prefix + b + suffix
    ensures a == b
  {
    var s := prefix + a + suffix;
    assert |a| == |b|;
    assert a == s[|prefix|..|prefix| + |a|];
    assert b == s[|prefix|..|prefix| + |b|];
  }

  /** Breakers with different names never share a key, and no count key is a stamp key. */
  lemma KeysOfDifferentBreakersAreDistinct(a: string, b: string)
    ensures FailureCountKey(a) != OpenedAtKey(b)
    ensures a != b ==> FailureCountKey(a) != FailureCountKey(b) && OpenedAtKey(a) != OpenedAtKey(b)
  {
    var count, stamp := FailureCountKey(a), OpenedAtKey(b);
    assert count[|count| - 2] == 'n';
    assert stamp[|stamp| - 2] == 'a';
    if FailureCountKey(a) == FailureCountKey(b) {
      MiddleIsUnique(KEY_PREFIX + ":", a, b, ":failure_count");
    }
    if OpenedAtKey(a) == OpenedAtKey(b) {
      MiddleIsUnique(KEY_PREFIX + ":", a, b, ":opened_at");
    }
  }

  /** What the breakers store: a counter, or a time stamp whose text form is taken as exact. */
  datatype RedisValue = Counter(count: int) | Stamp(at: real)

  class RedisServer {
    var data: map<string, RedisValue>

    constructor ()
      ensures data == map[]
    {
      data := map[];
    }

    method Get(key: string) returns (r: Option<RedisValue>)
      ensures r == if key in data then Some(data[key]) else None
    {
      r := if key in data then Some(data[key]) else None;
    }

    method Incr(key: string) returns (n: int)
      requires key in data ==> data[key].Counter?
      modifies this
      ensures n == 1 + (if key in old(data) then old(data)[key].count else 0)
      ensures data == old(data)[key := Counter(n)]
    {
      n := 1 + (if key in data then data[key].count else 0);
      data := data[key := Counter(n)];
    }

    method Set(key: string, value: RedisValue)
      modifies this
      ensures data == old(data)[key := value]
    {
      data := data[key := value];
    }

    method Delete(key: string)
      modifies this
      ensures data == old(data) - {key}
    {
      data := data - {key};
    }
  }

  /** The two keys of a breaker hold values of their own kind, as its own commands leave them. */
  predicate WellTyped(data: map<string, RedisValue>, name: string) {
    && (FailureCountKey(name) in data ==> data[FailureCountKey(name)].Counter?)
    && (OpenedAtKey(name) in data ==> data[OpenedAtKey(name)].Stamp?)
  }

  function KeysOf(data: map<string, RedisValue>, name: string): RedisBreakerProtocol.Keys
    requires WellTyped(data, name)
  {
    RedisBreakerProtocol.Keys(
      if FailureCountKey(name) in data then Some(data[FailureCountKey(name)].count) else None,
      if OpenedAtKey(name) in data then Some(data[OpenedAtKey(name)].at) else None)
  }

  class RedisCircuitBreaker {
    const server: RedisServer
    const breakerName: string
    const settings: Settings

    constructor (server: RedisServer, breakerName: string, settings: Settings)
      ensures this.server == server && this.breakerName == breakerName && this.settings == settings
    {
      this.server, this.breakerName, this.settings := server, breakerName, settings;
    }

    ghost predicate Valid()
      reads server
    {
      WellTyped(server.data, breakerName)
    }

    ghost function Abstract(): BreakerState
      reads server
      requires Valid()
    {
      RedisBreakerProtocol.Abstract(KeysOf(server.data, breakerName))
    }

    method State(now: real) returns (s: CircuitState)
      requires Valid()
      ensures s == VisibleState(settings, Abstract(), now)
    {
      var openedAtRaw := server.Get(OpenedAtKey(breakerName));
      if openedAtRaw.None? {
        return Closed;
      }
      if now - openedAtRaw.value.at >= settings.recoveryTimeout {
        return Closed;
      }
      return Open;
    }

    /** One call, with no other replica's command in between: the in-memory breaker on shared state. */
    method Call<T>(fn: () -> FnResult<T>, now: real, later: real) returns (r: CallResult<T>)
      requires Valid()
      modifies server
      ensures Valid()
      ensures Abstract() == AfterCall(settings, old(Abstract()), Attempt(now, later, fn().Value?))
      ensures r == CallResultOf(Executes(settings, old(Abstract()), Attempt(now, later, fn().Value?)), fn())
      ensures forall key :: key != FailureCountKey(breakerName) && key != OpenedAtKey(breakerName) ==>
                (key in server.data <==> key in old(server.data))
                && (key in server.data ==> server.data[key] == old(server.data)[key])
    {
      KeysOfDifferentBreakersAreDistinct(breakerName, breakerName);
      var visible := State(now);
      if visible.Open? {
        var _ := server.Get(FailureCountKey(breakerName));
        return CircuitOpen;
      }
      var result := fn();
      match result
      case Exception(message) =>
        var newCount := server.Incr(FailureCountKey(breakerName));
        if newCount >= settings.failureThreshold {
          server.Set(OpenedAtKey(breakerName), Stamp(later));
        }
        return Raised(message);
      case Value(value) =>
        server.Delete(FailureCountKey(breakerName));
        server.Delete(OpenedAtKey(breakerName));
        return Returned(value);
    }
  }
}
