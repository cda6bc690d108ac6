/**
 * The in-memory circuit breaker (src/simulacrum/interception/circuit_breaker.py):
 * a timed trip / half-open / reset machine. Clock readings are arguments of a call:
 * `now` is the one taken to decide whether the breaker is open, `later` the one taken
 * when a failure trips it. Times are reals.
 */
module CircuitBreakers {
  import opened Common

  datatype CircuitState = Closed | Open

  datatype Settings = Settings(failureThreshold: int, recoveryTimeout: real)

  datatype BreakerState = BreakerState(state: CircuitState, failureCount: int, openedAt: Option<real>)

  const RESET := BreakerState(Closed, 0, None)

  /** The `state` property: an expired OPEN shows as CLOSED (half-open). */
  function VisibleState(cfg: Settings, s: BreakerState, now: real): CircuitState {
    if s.state.Open? && s.openedAt.Some? && now - s.openedAt.value >= cfg.recoveryTimeout then Closed
    else s.state
  }

  /** One use of `call`: its clock readings and what the wrapped function does if it runs. */
  datatype Attempt = Attempt(now: real, later: real, succeeds: bool)

  predicate Executes(cfg: Settings, s: BreakerState, c: Attempt) {
    VisibleState(cfg, s, c.now).Closed?
  }

  function AfterCall(cfg: Settings, s: BreakerState, c: Attempt): BreakerState {
    if !Executes(cfg, s, c) then s
    else if c.succeeds then RESET
    else
      var failures := s.failureCount + 1;
      if failures >= cfg.failureThreshold then BreakerState(Open, failures, Some(c.later))
      else s.(failureCount := failures)
  }

  /** The state a reset breaker reaches after a sequence of calls. */
  function Run(cfg: Settings, calls: seq<Attempt>): BreakerState {
    if calls == [] then RESET
    else AfterCall(cfg, Run(cfg, calls[..|calls| - 1]), calls[|calls| - 1])
  }

  lemma RunSnoc(cfg: Settings, calls: seq<Attempt>, c: Attempt)
    ensures Run(cfg, calls + [c]) == AfterCall(cfg, Run(cfg, calls), c)
  {
    assert (calls + [c])[..|calls + [c]| - 1] == calls;
  }

  /** Whether the i-th call of the run reaches the wrapped function. */
  predicate ExecutesAt(cfg: Settings, calls: seq<Attempt>, i: nat)
    requires i < |calls|
  {
    Executes(cfg, Run(cfg, calls[..i]), calls[i])
  }

  /** How many executed calls, counted back from the end of the run, failed in a row. */
  function TrailingFailures(cfg: Settings, calls: seq<Attempt>): nat {
    if calls == [] then 0
    else
      var last := |calls| - 1;
      if !ExecutesAt(cfg, calls, last) then TrailingFailures(cfg, calls[..last])
      else if calls[last].succeeds then 0
      else TrailingFailures(cfg, calls[..last]) + 1
  }

  /** A threshold of zero or less trips on the first failure, like a threshold of one. */
  function EffectiveThreshold(cfg: Settings): int {
    if cfg.failureThreshold < 1 then 1 else cfg.failureThreshold
  }

  /**
   * The stored count is the length of the trailing run of failures, and the stored state is OPEN,
   * with a time stamp, exactly when that run has reached the threshold.
   */
  lemma {:induction false} CountIsTrailingFailures(cfg: Settings, calls: seq<Attempt>)
    ensures Run(cfg, calls).failureCount == TrailingFailures(cfg, calls)
    ensures Run(cfg, calls).state.Open? <==> TrailingFailures(cfg, calls) >= EffectiveThreshold(cfg)
    ensures Run(cfg, calls).state.Open? <==> Run(cfg, calls).openedAt.Some?
  {
    if calls != [] {
      CountIsTrailingFailures(cfg, calls[..|calls| - 1]);
    }
  }

  /** Readings of a clock that never goes back. */
  ghost predicate ClockNeverGoesBack(calls: seq<Attempt>) {
    && (forall i :: 0 <= i < |calls| ==> calls[i].now <= calls[i].later)
    && (forall i, j :: 0 <= i < j < |calls| ==> calls[i].later <= calls[j].now)
  }

  /** Every call that is executed at a time between `from` and `to` fails. */
  ghost predicate FailsBetween(cfg: Settings, calls: seq<Attempt>, from: real, to: real) {
    forall i {:trigger ExecutesAt(cfg, calls, i)} ::
      0 <= i < |calls| && ExecutesAt(cfg, calls, i) && from <= calls[i].now <= to ==> !calls[i].succeeds
  }

  /** How often the wrapped function is run at a time between `from` and `to`. */
  function ExecutionsBetween(cfg: Settings, calls: seq<Attempt>, from: real, to: real): nat {
    if calls == [] then 0
    else
      var last := |calls| - 1;
      var before := ExecutionsBetween(cfg, calls[..last], from, to);
      if ExecutesAt(cfg, calls, last) && from <= calls[last].now <= to then before + 1 else before
  }

  lemma {:induction false} PrefixAssumptions(cfg: Settings, calls: seq<Attempt>, from: real, to: real)
    requires calls != [] && ClockNeverGoesBack(calls) && FailsBetween(cfg, calls, from, to)
    ensures var front := calls[..|calls| - 1]; ClockNeverGoesBack(front) && FailsBetween(cfg, front, from, to)
  {
    var front := calls[..|calls| - 1];
    forall i | 0 <= i < |front| && ExecutesAt(cfg, front, i) && from <= front[i].now <= to
      ensures !front[i].succeeds
    {
      assert front[..i] == calls[..i];
      assert ExecutesAt(cfg, calls, i);
    }
  }

  /** `k` timeouts in a row; none if `k` is not positive. */
  function Times(k: int, timeout: real): real
    decreases if k > 0 then k else 0
  {
    if k <= 0 then 0.0 else Times(k - 1, timeout) + timeout
  }

  lemma {:induction false} TimesIsProduct(k: nat, timeout: real)
    ensures Times(k, timeout) == k as real * timeout
  {
    if k > 0 {
      TimesIsProduct(k - 1, timeout);
      assert k as real * timeout == (k - 1) as real * timeout + timeout;
    }
  }

  /** `k` recovery timeouts fit into the time from `from` to `to`. */
  predicate Fits(cfg: Settings, k: int, from: real, to: real) {
    Times(k, cfg.recoveryTimeout) <= to - from
  }

  /**
   * The inductive form of the execution bound, up to the end of the span. Once the breaker is open, every further
   * execution waits a whole recovery timeout, so the executions beyond the threshold are paid for in time.
   */
  ghost predicate PaidFor(cfg: Settings, calls: seq<Attempt>, from: real, to: real) {
    var s, k, th := Run(cfg, calls), ExecutionsBetween(cfg, calls, from, to), EffectiveThreshold(cfg);
    && k <= s.failureCount
    && (s.state.Open? <==> s.failureCount >= th)
    && (s.state.Open? ==> s.openedAt.Some?)
    && (calls == [] ==> k == 0 && !s.state.Open?)
    && (calls != [] && s.state.Open? ==> s.openedAt.value <= calls[|calls| - 1].later)
    && (calls != [] && k >= 1 ==> from <= calls[|calls| - 1].later)
    && (s.state.Open? && k >= 1 ==> Fits(cfg, k - th, from, s.openedAt.value))
  }

  /** The executions beyond the threshold fit into the span. */
  ghost predicate ExtraFits(cfg: Settings, calls: seq<Attempt>, from: real, to: real) {
    var k, th := ExecutionsBetween(cfg, calls, from, to), EffectiveThreshold(cfg);
    k > th ==> Fits(cfg, k - th, from, to)
  }

  /** The last call, if there is one, is not after the span. */
  predicate EndsBy(calls: seq<Attempt>, to: real) {
    calls != [] ==> calls[|calls| - 1].now <= to
  }

  lemma {:induction false} ExecutionsArePaidFor(cfg: Settings, calls: seq<Attempt>, from: real, to: real)
    requires cfg.recoveryTimeout > 0.0 && from <= to
    requires ClockNeverGoesBack(calls) && FailsBetween(cfg, calls, from, to)
    ensures ExtraFits(cfg, calls, from, to)
    ensures EndsBy(calls, to) ==> PaidFor(cfg, calls, from, to)
  {
    if calls != [] {
      var last := |calls| - 1;
      var front, c := calls[..last], calls[last];
      PrefixAssumptions(cfg, calls, from, to);
      ExecutionsArePaidFor(cfg, front, from, to);
      if front != [] {
        assert front[last - 1].later <= c.now;
      }
      if EndsBy(calls, to) {
        assert EndsBy(front, to);
        if ExecutesAt(cfg, calls, last) {
          ExecutionIsPaidFor(cfg, calls, from, to);
        }
      }
    }
  }

  lemma {:induction false} ExecutionIsPaidFor(cfg: Settings, calls: seq<Attempt>, from: real, to: real)
    requires cfg.recoveryTimeout > 0.0 && from <= to && calls != [] && EndsBy(calls, to)
    requires var last := |calls| - 1; var front, c := calls[..last], calls[last];
             && PaidFor(cfg, front, from, to)
             && ExecutesAt(cfg, calls, last) && (from <= c.now ==> !c.succeeds) && c.now <= c.later
             && (front != [] ==> front[last - 1].later <= c.now)
    ensures PaidFor(cfg, calls, from, to) && ExtraFits(cfg, calls, from, to)
  {
    var last := |calls| - 1;
    var front, c := calls[..last], calls[last];
    var s, k, th := Run(cfg, front), ExecutionsBetween(cfg, front, from, to), EffectiveThreshold(cfg);
    if s.state.Open? && k >= 1 && from <= c.now {
      assert Fits(cfg, k + 1 - th, from, c.now);
    }
  }

  /** How many whole timeouts a span of time holds. */
  function WholeTimeouts(span: real, timeout: real): (k: int)
    requires timeout > 0.0
  {
    (span / timeout).Floor
  }

  lemma DivideBothSides(a: real, b: real, d: real)
    requires d > 0.0 && a * d <= b
    ensures a <= b / d
  {
    var q := b / d;
    assert q * d == b;
    assert (a - q) * d <= 0.0;
  }

  lemma WholeTimeoutsCoverMultiples(k: nat, span: real, timeout: real)
    requires timeout > 0.0 && Times(k, timeout) <= span
    ensures k <= WholeTimeouts(span, timeout)
  {
    assert k as real <= span / timeout by {
      TimesIsProduct(k, timeout);
      DivideBothSides(k as real, span, timeout);
    }
  }

  lemma {:induction false} ExtraExecutionsFit(cfg: Settings, calls: seq<Attempt>, from: real, to: real) returns (k: nat)
    requires cfg.recoveryTimeout > 0.0 && from <= to
    requires ClockNeverGoesBack(calls) && FailsBetween(cfg, calls, from, to)
    ensures ExecutionsBetween(cfg, calls, from, to) <= EffectiveThreshold(cfg) + k
    ensures Fits(cfg, k, from, to)
  {
    ExecutionsArePaidFor(cfg, calls, from, to);
    var extra := ExecutionsBetween(cfg, calls, from, to) - EffectiveThreshold(cfg);
    k := if extra > 0 then extra else 0;
  }

  /**
   * The breaker does its job: a span of time of length `to - from` throughout which the wrapped function fails,
   * whatever happened before, sees at most `threshold + floor((to - from) / recovery_timeout)` executions of it.
   */
  lemma {:induction false} ExecutionBound(cfg: Settings, calls: seq<Attempt>, from: real, to: real)
    requires cfg.recoveryTimeout > 0.0 && from <= to
    requires ClockNeverGoesBack(calls) && FailsBetween(cfg, calls, from, to)
    ensures ExecutionsBetween(cfg, calls, from, to)
         <= EffectiveThreshold(cfg) + WholeTimeouts(to - from, cfg.recoveryTimeout)
  {
    var k := ExtraExecutionsFit(cfg, calls, from, to);
    WholeTimeoutsCoverMultiples(k, to - from, cfg.recoveryTimeout);
  }

  datatype FnResult<T> = Value(value: T) | Exception(message: string)

  datatype CallResult<T> = Returned(value: T) | Raised(message: string) | CircuitOpen

  /** What a caller of `call` sees. */
  function CallResultOf<T>(executes: bool, fn: FnResult<T>): CallResult<T> {
    if !executes then CircuitOpen
    else match fn case Value(v) => Returned(v) case Exception(m) => Raised(m)
  }

  class CircuitBreaker {
    const settings: Settings
    var state: CircuitState
    var failureCount: int
    var openedAt: Option<real>

    ghost function Abstract(): BreakerState
      reads this
    {
      BreakerState(state, failureCount, openedAt)
    }

    constructor (settings: Settings)
      ensures this.settings == settings && Abstract() == RESET
    {
      this.settings := settings;
      state, failureCount, openedAt := Closed, 0, None;
    }

    method State(now: real) returns (s: CircuitState)
      ensures s == VisibleState(settings, Abstract(), now)
    {
      if state.Open? && openedAt.Some? {
        if now - openedAt.value >= settings.recoveryTimeout {
          return Closed;
        }
      }
      return state;
    }

    /** `fn` is evaluated only when the breaker is not open. */
    method Call<T>(fn: () -> FnResult<T>, now: real, later: real) returns (r: CallResult<T>)
      modifies this
      ensures Abstract() == AfterCall(settings, old(Abstract()), Attempt(now, later, fn().Value?))
      ensures r == CallResultOf(Executes(settings, old(Abstract()), Attempt(now, later, fn().Value?)), fn())
    {
      var visible := State(now);
      if visible.Open? {
        return CircuitOpen;
      }
      var result := fn();
      match result
      case Exception(message) =>
        failureCount := failureCount + 1;
        if failureCount >= settings.failureThreshold {
          state := Open;
          openedAt := Some(later);
        }
        return Raised(message);
      case Value(value) =>
        failureCount, state, openedAt := 0, Closed, None;
        return Returned(value);
    }
  }
}
