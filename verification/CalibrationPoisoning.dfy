/** Threshold derivation under poisoning (src/simulacrum/adversarial/calibration_poisoning.py), over exact reals. */
module CalibrationPoisoning {
  import opened Common

  // ---------------------------------------------------------------------------------------------
  // Minimum with a margin

  /** None is the ValueError of `min` on no samples. */
  function DeriveThresholdMinMargin(samples: seq<real>, margin: real): Option<real> {
    if samples == [] then None else Some(Min(samples) - margin)
  }

  function Below(threshold: real): real -> bool {
    x => x < threshold
  }

  /** How many attacks lie below a threshold. */
  function Caught(attacks: seq<real>, threshold: real): nat {
    |Filter(attacks, Below(threshold))|
  }

  datatype PoisoningTestResult = PoisoningTestResult(
    cleanThreshold: real, poisonedThreshold: real, caughtByClean: nat, caughtByPoisoned: nat)

  function RunCalibrationPoisoningTest(
    clean: seq<real>, poisoned: seq<real>, attacks: seq<real>, margin: real): Option<PoisoningTestResult>
  {
    var c, p := DeriveThresholdMinMargin(clean, margin), DeriveThresholdMinMargin(poisoned, margin);
    if c.None? || p.None? then None
    else Some(PoisoningTestResult(c.value, p.value, Caught(attacks, c.value), Caught(attacks, p.value)))
  }

  /** A value is caught, by the clean or the poisoned threshold, if it is more than the margin below every sample. */
  ghost predicate FarBelowAll(samples: seq<real>, margin: real, x: real) {
    forall y :: y in samples ==> x + margin < y
  }

  lemma CaughtIsFarBelow(samples: seq<real>, margin: real, attacks: seq<real>)
    requires samples != []
    ensures Caught(attacks, Min(samples) - margin)
         == |set k | 0 <= k < |attacks| && FarBelowAll(samples, margin, attacks[k])|
  {
    var caught := set k | 0 <= k < |attacks| && FarBelowAll(samples, margin, attacks[k]);
    var p := Below(Min(samples) - margin);
    MinIsLeast(samples);
    FilterCountsPositions(attacks, p);
    assert Positions(attacks, p) == caught;
  }

  /**
   * The report of a poisoning test: it fails exactly without clean or without poisoned samples, each threshold lies the
   * margin below the least of its samples, and each count is the number of attacks more than the margin below all.
   */
  lemma PoisoningTestReports(clean: seq<real>, poisoned: seq<real>, attacks: seq<real>, margin: real)
    ensures var r := RunCalibrationPoisoningTest(clean, poisoned, attacks, margin);
            && (r.None? <==> clean == [] || poisoned == [])
            && (r.Some? ==>
                  && r.value.cleanThreshold + margin in clean
                  && (forall x :: x in clean ==> r.value.cleanThreshold + margin <= x)
                  && r.value.poisonedThreshold + margin in poisoned
                  && (forall x :: x in poisoned ==> r.value.poisonedThreshold + margin <= x)
                  && r.value.caughtByClean
                     == |set k | 0 <= k < |attacks| && FarBelowAll(clean, margin, attacks[k])|
                  && r.value.caughtByPoisoned
                     == |set k | 0 <= k < |attacks| && FarBelowAll(poisoned, margin, attacks[k])|)
  {
    if clean != [] && poisoned != [] {
      MinIsLeast(clean);
      MinIsLeast(poisoned);
      CaughtIsFarBelow(clean, margin, attacks);
      CaughtIsFarBelow(poisoned, margin, attacks);
    }
  }

  /** The min-margin threshold sees nothing but the smallest sample. */
  lemma MinMarginSeesOnlyTheSmallest(samples: seq<real>, others: seq<real>, margin: real)
    requires samples != [] && Min(samples) in others
    requires forall x :: x in others ==> Min(samples) <= x
    ensures DeriveThresholdMinMargin(others, margin) == DeriveThresholdMinMargin(samples, margin)
  {
    MinIsLeast(others);
  }

  /** Poisoning can only lower a min-margin threshold, so it never makes the detector catch more. */
  lemma PoisoningNeverHelpsMinMargin(clean: seq<real>, poisoned: seq<real>, attacks: seq<real>, margin: real)
    requires clean != [] && multiset(clean) <= multiset(poisoned)
    ensures var r := RunCalibrationPoisoningTest(clean, poisoned, attacks, margin);
            r.Some? && r.value.poisonedThreshold <= r.value.cleanThreshold
            && r.value.caughtByPoisoned <= r.value.caughtByClean
  {
    MinIsLeast(clean);
    assert Min(clean) in multiset(clean);
    assert Min(clean) in poisoned;
    MinIsLeast(poisoned);
    FilterMonotone(attacks, Below(Min(poisoned) - margin), Below(Min(clean) - margin));
  }

  /** One sample is enough: whatever lower threshold is wanted, a single poisoned sample brings it about. */
  lemma OneSampleSetsMinMargin(clean: seq<real>, margin: real, target: real)
    requires clean != [] && target <= Min(clean) - margin
    ensures DeriveThresholdMinMargin(clean + [target + margin], margin) == Some(target)
  {
    MinSnoc(clean, target + margin);
  }

  lemma MinSnoc(s: seq<real>, x: real)
    requires s != []
    ensures Min(s + [x]) == if x < Min(s) then x else Min(s)
  {
    assert (s + [x])[..|s|] == s;
  }

  // ---------------------------------------------------------------------------------------------
  // Percentile

  function Insert(x: real, sorted: seq<real>): (r: seq<real>)
    ensures |r| == |sorted| + 1
  {
    if sorted == [] || sorted[|sorted| - 1] <= x then sorted + [x]
    else Insert(x, sorted[..|sorted| - 1]) + [sorted[|sorted| - 1]]
  }

  /** `sorted(samples)` */
  function Sort(s: seq<real>): (r: seq<real>)
    ensures |r| == |s|
  {
    if s == [] then [] else Insert(s[|s| - 1], Sort(s[..|s| - 1]))
  }

  ghost predicate IsSorted(s: seq<real>) {
    forall i, j :: 0 <= i < j < |s| ==> s[i] <= s[j]
  }

  lemma {:induction false} InsertKeepsSorted(x: real, sorted: seq<real>)
    requires IsSorted(sorted)
    ensures IsSorted(Insert(x, sorted))
  {
    if sorted != [] && sorted[|sorted| - 1] > x {
      var front, last := sorted[..|sorted| - 1], sorted[|sorted| - 1];
      InsertKeepsSorted(x, front);
      InsertStaysBelow(x, front, last);
    }
  }

  lemma {:induction false} InsertAdds(x: real, sorted: seq<real>)
    ensures multiset(Insert(x, sorted)) == multiset(sorted) + multiset{x}
  {
    if sorted != [] && sorted[|sorted| - 1] > x {
      var front, last := sorted[..|sorted| - 1], sorted[|sorted| - 1];
      InsertAdds(x, front);
      assert sorted == front + [last];
    }
  }

  lemma {:induction false} InsertStaysBelow(x: real, sorted: seq<real>, bound: real)
    requires x <= bound && forall i :: 0 <= i < |sorted| ==> sorted[i] <= bound
    ensures forall i :: 0 <= i <= |sorted| ==> Insert(x, sorted)[i] <= bound
  {
    if sorted != [] && sorted[|sorted| - 1] > x {
      InsertStaysBelow(x, sorted[..|sorted| - 1], bound);
    }
  }

  lemma {:induction false} SortFacts(s: seq<real>)
    ensures IsSorted(Sort(s)) && multiset(Sort(s)) == multiset(s)
  {
    if s != [] {
      var front := s[..|s| - 1];
      SortFacts(front);
      InsertKeepsSorted(s[|s| - 1], Sort(front));
      InsertAdds(s[|s| - 1], Sort(front));
      assert s == front + [s[|s| - 1]];
    }
  }

  function PercentileIndex(n: nat, percentile: real): nat {
    var k := Truncate(n as real * (percentile / 100.0)) - 1;
    if k < 0 then 0 else k
  }

  /** The `i`-th smallest sample, if there is one. */
  function OrderStatistic(samples: seq<real>, i: nat): Option<real> {
    if i < |samples| then Some(Sort(samples)[i]) else None
  }

  /** None is the IndexError of a list too short for the index. */
  function DeriveThresholdPercentile(samples: seq<real>, percentile: real): Option<real> {
    OrderStatistic(samples, PercentileIndex(|samples|, percentile))
  }

  /** The index is one less than the whole part of `n * p / 100`, and 0 when that is not positive. */
  lemma PercentileIndexMeans(n: nat, percentile: real)
    ensures var rank, i := n as real * percentile / 100.0, PercentileIndex(n, percentile);
            if rank < 2.0 then i == 0 else (i + 1) as real <= rank < (i + 2) as real
  {
    assert n as real * (percentile / 100.0) == n as real * percentile / 100.0;
  }

  /**
   * The percentile threshold is a sample with at most `i` samples below it and more than `i` not above it, for the
   * index `i`; it fails exactly when there are not more than `i` samples.
   */
  lemma PercentileThresholdIsOrderStatistic(samples: seq<real>, percentile: real)
    ensures var t, i := DeriveThresholdPercentile(samples, percentile), PercentileIndex(|samples|, percentile);
            && (t.None? <==> |samples| <= i)
            && (t.Some? ==>
                  && t.value in samples
                  && |set k | 0 <= k < |samples| && samples[k] < t.value| <= i
                  && i < |set k | 0 <= k < |samples| && samples[k] <= t.value|)
  {
    var i := PercentileIndex(|samples|, percentile);
    if i < |samples| {
      OrderStatisticMeans(samples, i);
    }
  }

  lemma OrderStatisticMeans(samples: seq<real>, i: nat)
    requires i < |samples|
    ensures var x := Sort(samples)[i];
            && x in samples
            && |set k | 0 <= k < |samples| && samples[k] < x| <= i
            && i < |set k | 0 <= k < |samples| && samples[k] <= x|
  {
    var sorted := Sort(samples);
    var x := sorted[i];
    SortFacts(samples);
    assert x in multiset(sorted);
    RankIfSmall(sorted, i, x);
    FewAreBelow(sorted, i);
    FilterIgnoresOrder(sorted, samples, AtMost(x));
    FilterIgnoresOrder(sorted, samples, Below(x));
    PositionsBelow(samples, x);
  }

  lemma PositionsBelow(samples: seq<real>, x: real)
    ensures |Filter(samples, Below(x))| == |set k | 0 <= k < |samples| && samples[k] < x|
    ensures |Filter(samples, AtMost(x))| == |set k | 0 <= k < |samples| && samples[k] <= x|
  {
    var below := set k | 0 <= k < |samples| && samples[k] < x;
    var atMost := set k | 0 <= k < |samples| && samples[k] <= x;
    FilterCountsPositions(samples, AtMost(x));
    FilterCountsPositions(samples, Below(x));
    assert Positions(samples, Below(x)) == below && Positions(samples, AtMost(x)) == atMost;
  }

  lemma FewAreBelow(t: seq<real>, i: nat)
    requires IsSorted(t) && i < |t|
    ensures |Filter(t, Below(t[i]))| <= i
  {
    assert t == t[..i] + t[i..];
    FilterConcat(t[..i], t[i..], Below(t[i]));
    FilterNone(t[i..], Below(t[i]));
  }

  function AtMost(x: real): real -> bool {
    y => y <= x
  }

  /** How many samples are at most `x`. */
  function CountAtMost(s: seq<real>, x: real): nat {
    |Filter(s, AtMost(x))|
  }

  lemma RankIfSmall(t: seq<real>, i: nat, x: real)
    requires IsSorted(t) && i < |t| && t[i] <= x
    ensures CountAtMost(t, x) > i
  {
    var low := t[..i + 1];
    assert t == low + t[i + 1..];
    FilterConcat(low, t[i + 1..], AtMost(x));
    FilterAll(low, AtMost(x));
  }

  lemma RankIfLarge(t: seq<real>, i: nat, x: real)
    requires IsSorted(t) && i < |t| && t[i] > x
    ensures CountAtMost(t, x) <= i
  {
    var high := t[i..];
    assert t == t[..i] + high;
    FilterConcat(t[..i], high, AtMost(x));
    FilterNone(high, AtMost(x));
  }

  /** In a sorted list the i-th element is at most `x` exactly when more than `i` elements are. */
  lemma RankBySize(t: seq<real>, i: nat, x: real)
    requires IsSorted(t) && i < |t|
    ensures t[i] <= x <==> CountAtMost(t, x) > i
  {
    if t[i] <= x {
      RankIfSmall(t, i, x);
    } else {
      RankIfLarge(t, i, x);
    }
  }

  lemma ContainedWithout(a: seq<real>, b: seq<real>, i: nat, j: nat)
    requires i < |a| && j < |b| && a[i] == b[j] && multiset(a) <= multiset(b)
    ensures multiset(Without(a, i)) <= multiset(Without(b, j))
  {
    MultisetWithout(a, i);
    MultisetWithout(b, j);
    forall z
      ensures multiset(Without(a, i))[z] <= multiset(Without(b, j))[z]
    {
      assert multiset(a)[z] <= multiset(b)[z];
    }
  }

  /** Adding `k` samples adds at most `k` to every count. */
  lemma {:induction false} CountsOfContained(a: seq<real>, b: seq<real>, x: real)
    requires multiset(a) <= multiset(b)
    ensures |a| <= |b| && CountAtMost(a, x) <= CountAtMost(b, x) <= CountAtMost(a, x) + (|b| - |a|)
    decreases |a|
  {
    if a != [] {
      assert a[0] in multiset(b);
      var j :| 0 <= j < |b| && b[j] == a[0];
      ContainedWithout(a, b, 0, j);
      FilterWithout(a, 0, AtMost(x));
      FilterWithout(b, j, AtMost(x));
      CountsOfContained(Without(a, 0), Without(b, j), x);
    }
  }

  /** Order statistics of a sample and of a larger sample that contains it. */
  lemma OrderStatistics(c: seq<real>, p: seq<real>, i: nat)
    requires IsSorted(c) && IsSorted(p) && multiset(c) <= multiset(p) && i < |p|
    ensures |c| <= |p|
    ensures i < |c| ==> p[i] <= c[i]
    ensures 0 <= i - (|p| - |c|) < |c| ==> c[i - (|p| - |c|)] <= p[i]
  {
    CountsOfContained(c, p, 0.0);
    var k := |p| - |c|;
    if i < |c| {
      RankBySize(c, i, c[i]);
      CountsOfContained(c, p, c[i]);
      RankBySize(p, i, c[i]);
    }
    if 0 <= i - k < |c| {
      RankBySize(p, i, p[i]);
      CountsOfContained(c, p, p[i]);
      RankBySize(c, i - k, p[i]);
    }
  }

  /** Adding `k` samples moves the `i`-th smallest sample at most down to the clean `i - k`-th, and never up. */
  lemma PoisonedOrderStatistic(clean: seq<real>, poisoned: seq<real>, i: nat)
    requires multiset(clean) <= multiset(poisoned) && i < |poisoned|
    ensures var k, x := |poisoned| - |clean|, OrderStatistic(poisoned, i).value;
            && (i < |clean| ==> x <= OrderStatistic(clean, i).value)
            && (0 <= i - k < |clean| ==> OrderStatistic(clean, i - k).value <= x)
  {
    SortFacts(poisoned);
    SortFacts(clean);
    OrderStatistics(Sort(clean), Sort(poisoned), i);
  }

  /**
   * The percentile threshold is robust: with `k` samples added to `n` clean ones, and `i` the index used for
   * `n + k` samples, the poisoned threshold stays between the clean order statistics `i - k` and `i`,
   * wherever these exist, whatever values the added samples have.
   */
  lemma PoisonedPercentileIsSandwiched(clean: seq<real>, poisoned: seq<real>, percentile: real)
    requires multiset(clean) <= multiset(poisoned)
    requires DeriveThresholdPercentile(poisoned, percentile).Some?
    ensures var i, k := PercentileIndex(|poisoned|, percentile), |poisoned| - |clean|;
            var threshold := DeriveThresholdPercentile(poisoned, percentile).value;
            && (i < |clean| ==> threshold <= OrderStatistic(clean, i).value)
            && (0 <= i - k < |clean| ==> OrderStatistic(clean, i - k).value <= threshold)
  {
    PoisonedOrderStatistic(clean, poisoned, PercentileIndex(|poisoned|, percentile));
  }
}
