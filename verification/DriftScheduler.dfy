/**
 * The drift scheduler (src/simulacrum/attribution/drift_scheduler.py) with its trigger rule
 * (src/simulacrum/attribution/drift_trigger.py). The drift detector is any function of the task text
 * and the call history.
 */
module DriftScheduling {
  import opened Common

  type Detector<!R> = (string, seq<string>) -> R

  datatype Decision<R> = Decision(result: R, checkedAtCallCount: nat)

  predicate ShouldCheckDrift(callsSinceLastCheck: int, interval: int) {
    callsSinceLastCheck >= interval
  }

  /** What the scheduler remembers of one session, and how often it ran the detector for it. */
  datatype Standing<R> = Standing(lastChecked: Option<nat>, decision: Option<Decision<R>>, runs: nat)

  function NeverChecked<R>(): Standing<R> {
    Standing(None, None, 0)
  }

  function CallsSince<R>(s: Standing<R>, historyLength: nat): int {
    historyLength - s.lastChecked.GetOr(0)
  }

  function AfterRun<R>(
    detector: Detector<R>, interval: int, s: Standing<R>, task: string, history: seq<string>): Standing<R>
  {
    if !ShouldCheckDrift(CallsSince(s, |history|), interval) then s
    else Standing(Some(|history|), Some(Decision(detector(task, history), |history|)), s.runs + 1)
  }

  class DriftScheduler<R> {
    const detector: Detector<R>
    const checkIntervalCalls: int
    var lastCheckedCallCount: map<string, nat>
    var standingDecisions: map<string, Decision<R>>
    /** History: how often the detector has run for each session. */
    ghost var detectorRuns: map<string, nat>

    constructor (detector: Detector<R>, checkIntervalCalls: int)
      ensures this.detector == detector && this.checkIntervalCalls == checkIntervalCalls
      ensures forall sid :: StandingOf(sid) == NeverChecked()
    {
      this.detector, this.checkIntervalCalls := detector, checkIntervalCalls;
      lastCheckedCallCount, standingDecisions, detectorRuns := map[], map[], map[];
    }

    ghost function StandingOf(sessionId: string): Standing<R>
      reads this
    {
      Standing(
        if sessionId in lastCheckedCallCount then Some(lastCheckedCallCount[sessionId]) else None,
        if sessionId in standingDecisions then Some(standingDecisions[sessionId]) else None,
        if sessionId in detectorRuns then detectorRuns[sessionId] else 0)
    }

    method GetStandingDecision(sessionId: string) returns (d: Option<Decision<R>>)
      ensures d == StandingOf(sessionId).decision
    {
      d := if sessionId in standingDecisions then Some(standingDecisions[sessionId]) else None;
    }

    method RunOnce(sessionId: string, task: string, history: seq<string>) returns (d: Option<Decision<R>>)
      modifies this
      ensures StandingOf(sessionId) == AfterRun(detector, checkIntervalCalls, old(StandingOf(sessionId)), task, history)
      ensures forall sid :: sid != sessionId ==> StandingOf(sid) == old(StandingOf(sid))
      ensures d == StandingOf(sessionId).decision
    {
      var lastChecked := if sessionId in lastCheckedCallCount then lastCheckedCallCount[sessionId] else 0;
      if !ShouldCheckDrift(|history| - lastChecked, checkIntervalCalls) {
        d := GetStandingDecision(sessionId);
        return;
      }
      var decision := Decision(detector(task, history), |history|);
      standingDecisions := standingDecisions[sessionId := decision];
      lastCheckedCallCount := lastCheckedCallCount[sessionId := |history|];
      detectorRuns := detectorRuns[sessionId := 1 + if sessionId in detectorRuns then detectorRuns[sessionId] else 0];
      return Some(decision);
    }
  }

  // ---------------------------------------------------------------------------------------------
  // Sequences of passes over one session

  datatype Pass = Pass(task: string, history: seq<string>)

  function AfterPasses<R>(detector: Detector<R>, interval: int, passes: seq<Pass>): Standing<R> {
    if passes == [] then NeverChecked()
    else
      var p := passes[|passes| - 1];
      AfterRun(detector, interval, AfterPasses(detector, interval, passes[..|passes| - 1]), p.task, p.history)
  }

  /** Histories only grow. */
  ghost predicate Growing(passes: seq<Pass>) {
    forall i, j :: 0 <= i < j < |passes| ==> |passes[i].history| <= |passes[j].history|
  }

  function LatestLength(passes: seq<Pass>): nat {
    if passes == [] then 0 else |passes[|passes| - 1].history|
  }

  /** `k` times `d`, by addition. */
  function Multiple(k: nat, d: int): int {
    if k == 0 then 0 else Multiple(k - 1, d) + d
  }

  lemma {:induction false} MultipleIsProduct(k: nat, d: int)
    ensures Multiple(k, d) == k * d
  {
    if k > 0 {
      MultipleIsProduct(k - 1, d);
      assert k * d == (k - 1) * d + d;
    }
  }

  /**
   * After every pass fewer than `interval` calls are unchecked, the standing decision is the one taken at
   * the last check, and each run of the detector is paid for by `interval` calls of its own.
   */
  lemma {:induction false} PassesAreAmortised<R>(detector: Detector<R>, interval: int, passes: seq<Pass>)
    requires interval >= 1 && Growing(passes)
    ensures IsAmortised(interval, AfterPasses(detector, interval, passes), LatestLength(passes))
  {
    if passes != [] {
      var front := passes[..|passes| - 1];
      PassesAreAmortised(detector, interval, front);
      PassIsAmortised(
        detector, interval, AfterPasses(detector, interval, front), LatestLength(front), passes[|passes| - 1]);
    }
  }

  /** What holds of a session's standing when its history has `n` calls. */
  ghost predicate IsAmortised<R>(interval: int, s: Standing<R>, n: nat) {
    && 0 <= CallsSince(s, n) < interval
    && (s.decision.Some? <==> s.lastChecked.Some?)
    && (s.decision.Some? ==> s.decision.value.checkedAtCallCount == s.lastChecked.value)
    && Multiple(s.runs, interval) <= s.lastChecked.GetOr(0) <= n
  }

  lemma PassIsAmortised<R>(detector: Detector<R>, interval: int, s: Standing<R>, n: nat, p: Pass)
    requires interval >= 1 && IsAmortised(interval, s, n) && n <= |p.history|
    ensures IsAmortised(interval, AfterRun(detector, interval, s, p.task, p.history), |p.history|)
  {
  }

  /** The detector runs at most once for every `interval` calls of the session. */
  lemma DetectorRunsAreBounded<R>(detector: Detector<R>, interval: int, passes: seq<Pass>)
    requires interval >= 1 && Growing(passes)
    ensures AfterPasses(detector, interval, passes).runs * interval <= LatestLength(passes)
  {
    PassesAreAmortised(detector, interval, passes);
    MultipleIsProduct(AfterPasses(detector, interval, passes).runs, interval);
  }

  /** Pass `k` is the last that ran the detector: no later history had `interval` more calls. */
  ghost predicate IsLastCheck(interval: int, passes: seq<Pass>, k: int) {
    && 0 <= k < |passes|
    && forall j :: k < j < |passes| ==> |passes[j].history| - |passes[k].history| < interval
  }

  /**
   * The standing decision is the detector's answer to the task text and the whole history of the last pass that
   * checked; there is none exactly while every history is shorter than the interval.
   */
  lemma {:induction false} StandingDecisionIsLastCheck<R>(detector: Detector<R>, interval: int, passes: seq<Pass>)
    requires interval >= 1
    ensures var s := AfterPasses(detector, interval, passes);
            && (s.lastChecked.Some? <==> s.decision.Some?)
            && (s.decision.None? <==> forall j :: 0 <= j < |passes| ==> |passes[j].history| < interval)
            && (s.decision.Some? ==>
                  exists k ::
                    && IsLastCheck(interval, passes, k)
                    && s.decision.value == Decision(detector(passes[k].task, passes[k].history), |passes[k].history|)
                    && s.lastChecked.value == |passes[k].history|)
  {
    if passes != [] {
      var last := |passes| - 1;
      var front := passes[..last];
      StandingDecisionIsLastCheck(detector, interval, front);
      var before := AfterPasses(detector, interval, front);
      if !ShouldCheckDrift(CallsSince(before, |passes[last].history|), interval) {
        if before.decision.Some? {
          var k :| && IsLastCheck(interval, front, k)
                   && before.decision.value
                      == Decision(detector(front[k].task, front[k].history), |front[k].history|)
                   && before.lastChecked.value == |front[k].history|;
          assert IsLastCheck(interval, passes, k);
        }
      } else {
        assert IsLastCheck(interval, passes, last);
      }
    }
  }
}
