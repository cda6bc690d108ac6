/**
 * Brier score and reliability bins (src/simulacrum/evaluation/calibration_report.py), over exact reals.
 */
module CalibrationReports {
  import opened Common

  datatype Sample = Sample(predicted: real, attack: bool)

  datatype ReliabilityBin = ReliabilityBin(
    lo: real, hi: real, meanPredicted: real, observedFrequency: real, sampleCount: nat)

  function Outcome(s: Sample): real {
    if s.attack then 1.0 else 0.0
  }

  function Error(s: Sample): real {
    s.predicted - Outcome(s)
  }

  function Square(x: real): real {
    x * x
  }

  /** A quantity of each sample, added up. */
  function Total(samples: seq<Sample>, of: Sample -> real): real {
    if samples == [] then 0.0 else Total(samples[..|samples| - 1], of) + of(samples[|samples| - 1])
  }

  function SquaredError(): Sample -> real {
    (s: Sample) => Square(Error(s))
  }

  function SumSquaredErrors(samples: seq<Sample>): real {
    Total(samples, SquaredError())
  }

  function SumPredicted(samples: seq<Sample>): real {
    Total(samples, (s: Sample) => s.predicted)
  }

  function CountAttacks(samples: seq<Sample>): real {
    Total(samples, OutcomeOf())
  }

  function OutcomeOf(): Sample -> real {
    (s: Sample) => Outcome(s)
  }

  /** None is the ValueError for an empty sample set. */
  function BrierScore(samples: seq<Sample>): Option<real> {
    if samples == [] then None else Some(SumSquaredErrors(samples) / |samples| as real)
  }

  /**
   * The bucket a sample goes to. A negative index counts from the end, as Python's lists do;
   * None is the IndexError of an index out of range.
   */
  function BinIndex(s: Sample, nBins: int): (i: Option<nat>)
    ensures i.Some? ==> i.value < nBins
  {
    IndexOf(Scaled(s, nBins), nBins)
  }

  function Scaled(s: Sample, nBins: int): real {
    s.predicted * nBins as real
  }

  function IndexOf(scaled: real, nBins: int): (i: Option<nat>)
    ensures i.Some? ==> i.value < nBins
  {
    var raw := Truncate(scaled);
    var k := if raw < nBins - 1 then raw else nBins - 1;
    if 0 <= k < nBins then Some(k)
    else if 0 <= k + nBins < nBins then Some(k + nBins)
    else None
  }

  type Binning = Sample -> Option<nat>

  function ByPrediction(nBins: int): Binning {
    (s: Sample) => BinIndex(s, nBins)
  }

  function InBin(binning: Binning, i: nat): Sample -> bool {
    (s: Sample) => binning(s) == Some(i)
  }

  function BinOf(samples: seq<Sample>, binning: Binning, i: nat): seq<Sample> {
    Filter(samples, InBin(binning, i))
  }

  /** The samples of each of the first `n` bins. */
  function Buckets(samples: seq<Sample>, binning: Binning, n: nat): (r: seq<seq<Sample>>)
    ensures |r| == n
  {
    seq(n, i requires 0 <= i => BinOf(samples, binning, i))
  }

  predicate Hits(s: Sample, binning: Binning, n: nat) {
    binning(s).Some? && binning(s).value < n
  }

  function PutIn(buckets: seq<seq<Sample>>, i: nat, s: Sample): seq<seq<Sample>>
    requires i < |buckets|
  {
    buckets[i := buckets[i] + [s]]
  }

  lemma BucketsSnoc(samples: seq<Sample>, s: Sample, binning: Binning, n: nat)
    requires Hits(s, binning, n)
    ensures Buckets(samples + [s], binning, n) == PutIn(Buckets(samples, binning, n), binning(s).value, s)
  {
    forall i | 0 <= i < n
      ensures Buckets(samples + [s], binning, n)[i] == PutIn(Buckets(samples, binning, n), binning(s).value, s)[i]
    {
      FilterSnoc(samples, s, InBin(binning, i));
    }
  }

  /** `total / n` for a bin that is not empty. */
  function Mean(total: real, n: nat): real
    requires n > 0
  {
    total / n as real
  }

  function ReportOf(bin: seq<Sample>, i: nat, nBins: int): ReliabilityBin
    requires i < nBins
  {
    var lo, hi := i as real / nBins as real, (i + 1) as real / nBins as real;
    if bin == [] then ReliabilityBin(lo, hi, 0.0, 0.0, 0)
    else ReliabilityBin(lo, hi, Mean(SumPredicted(bin), |bin|), Mean(CountAttacks(bin), |bin|), |bin|)
  }

  ghost predicate AllBinned(samples: seq<Sample>, nBins: int) {
    forall s :: s in samples ==> BinIndex(s, nBins).Some?
  }

  function NumberOfBins(nBins: int): nat {
    if nBins < 0 then 0 else nBins
  }

  /** The report: one entry per bin. */
  function ReliabilityBins(samples: seq<Sample>, nBins: int): (r: seq<ReliabilityBin>)
    ensures |r| == NumberOfBins(nBins)
  {
    var buckets := Buckets(samples, ByPrediction(nBins), NumberOfBins(nBins));
    seq(NumberOfBins(nBins), i requires 0 <= i < NumberOfBins(nBins) => ReportOf(buckets[i], i, nBins))
  }

  /** None is the IndexError that a sample with no bucket raises. */
  method ComputeReliabilityBins(samples: seq<Sample>, nBins: int) returns (r: Option<seq<ReliabilityBin>>)
    ensures r.Some? <==> AllBinned(samples, nBins)
    ensures r.Some? ==> r.value == ReliabilityBins(samples, nBins)
  {
    var n := NumberOfBins(nBins);
    var buckets: seq<seq<Sample>> := seq(n, _ => []);
    for j := 0 to |samples|
      invariant AllBinned(samples[..j], nBins)
      invariant buckets == Buckets(samples[..j], ByPrediction(nBins), n)
    {
      var s := samples[j];
      var index := BinIndex(s, nBins);
      if index.None? {
        assert s in samples;
        return None;
      }
      assert samples[..j + 1] == samples[..j] + [s];
      BucketsSnoc(samples[..j], s, ByPrediction(nBins), n);
      buckets := PutIn(buckets, index.value, s);
    }
    assert samples[..|samples|] == samples;
    var results: seq<ReliabilityBin> := [];
    for i := 0 to n
      invariant |results| == i
      invariant forall k :: 0 <= k < i ==> results[k] == ReportOf(buckets[k], k, nBins)
    {
      results := results + [ReportOf(buckets[i], i, nBins)];
    }
    r := Some(results);
    assert results == ReliabilityBins(samples, nBins);
  }

  // ---------------------------------------------------------------------------------------------
  // What the numbers are

  /** One sample scores the square of its error; there is no score without samples. */
  lemma BrierOfOne(s: Sample)
    ensures BrierScore([]) == None
    ensures BrierScore([s])
         == Some(if s.attack then (s.predicted - 1.0) * (s.predicted - 1.0) else s.predicted * s.predicted)
  {
    TotalSnoc([], s, SquaredError());
    assert [] + [s] == [s];
    SquaredErrorOfOne(s);
    OverOne(SumSquaredErrors([s]));
  }

  lemma SquaredErrorOfOne(s: Sample)
    ensures SquaredError()(s)
         == if s.attack then (s.predicted - 1.0) * (s.predicted - 1.0) else s.predicted * s.predicted
  {
  }

  lemma OverOne(x: real)
    ensures x / 1.0 == x
  {
  }

  /** The score of two samples together is the mean of their scores, weighted by their sizes. */
  lemma BrierOfConcat(s: seq<Sample>, t: seq<Sample>)
    requires s != [] && t != []
    ensures BrierScore(s + t).Some?
    ensures BrierScore(s + t).value * (|s| + |t|) as real
         == BrierScore(s).value * |s| as real + BrierScore(t).value * |t| as real
  {
    TotalConcat(s, t, SquaredError());
    WeightedMeans(SumSquaredErrors(s), |s| as real, SumSquaredErrors(t), |t| as real);
    assert |s + t| as real == |s| as real + |t| as real;
  }

  lemma WeightedMeans(x: real, n: real, y: real, m: real)
    requires n > 0.0 && m > 0.0
    ensures (x + y) / (n + m) * (n + m) == x / n * n + y / m * m
  {
    TimesDivided(x, n);
    TimesDivided(y, m);
    TimesDivided(x + y, n + m);
  }

  lemma TimesDivided(x: real, n: real)
    requires n > 0.0
    ensures x / n * n == x
  {
  }

  lemma {:induction false} TotalConcat(s: seq<Sample>, t: seq<Sample>, of: Sample -> real)
    ensures Total(s + t, of) == Total(s, of) + Total(t, of)
  {
    if t == [] {
      assert s + t == s;
    } else {
      assert (s + t)[..|s + t| - 1] == s + t[..|t| - 1];
      TotalConcat(s, t[..|t| - 1], of);
    }
  }

  /**
   * Which bin takes a prediction `p`, for `p * nBins`: the one that it falls in, the last one for everything above,
   * the first one also for what is less than one below, and further below the bins counted from the end.
   */
  lemma BinIndexMeans(s: Sample, nBins: int, i: nat)
    requires i < nBins
    ensures BinIndex(s, nBins) == Some(i) <==> GoesToBin(Scaled(s, nBins), nBins, i)
  {
    IndexMeans(Scaled(s, nBins), nBins, i);
  }

  predicate GoesToBin(r: real, nBins: int, i: nat) {
    || (i < nBins - 1 && i as real <= r < (i + 1) as real)
    || (i == nBins - 1 && r >= i as real)
    || (i == 0 && -1.0 < r < 0.0)
    || (r <= -1.0 && (i - nBins - 1) as real < r <= (i - nBins) as real)
  }

  lemma IndexMeans(r: real, nBins: int, i: nat)
    requires i < nBins
    ensures IndexOf(r, nBins) == Some(i) <==> GoesToBin(r, nBins, i)
  {
    if r <= -1.0 {
      IndexFromEnd(r, nBins, i);
    } else if r < 0.0 {
      assert Truncate(r) == 0;
    } else {
      IndexFromStart(r, nBins, i);
    }
  }

  lemma IndexFromStart(r: real, nBins: int, i: nat)
    requires i < nBins && r >= 0.0
    ensures IndexOf(r, nBins) == Some(i) <==> i as real <= r && (i == nBins - 1 || r < (i + 1) as real)
  {
    var k := Truncate(r);
    assert k as real <= r < (k + 1) as real;
  }

  lemma IndexFromEnd(r: real, nBins: int, i: nat)
    requires i < nBins && r <= -1.0
    ensures IndexOf(r, nBins) == Some(i) <==> (i - nBins - 1) as real < r <= (i - nBins) as real
  {
    var k := Truncate(r);
    assert (k - 1) as real < r <= k as real;
  }

  /** The range of a bin, in steps of one `nBins`-th. */
  predicate HasRange(b: ReliabilityBin, i: nat, nBins: int) {
    b.lo * nBins as real == i as real && b.hi * nBins as real == (i + 1) as real
  }

  /** The numbers of a bin, taken times its sample count; an empty bin has zeros. */
  predicate HasNumbers(b: ReliabilityBin, count: nat, predicted: real, attacks: real) {
    && b.sampleCount == count
    && b.sampleCount as real * b.meanPredicted == predicted
    && b.sampleCount as real * b.observedFrequency == attacks
    && (count == 0 ==> b.meanPredicted == 0.0 && b.observedFrequency == 0.0)
  }

  lemma EntryOfBin(samples: seq<Sample>, nBins: int, i: nat)
    requires i < nBins
    ensures ReliabilityBins(samples, nBins)[i] == ReportOf(BinOf(samples, ByPrediction(nBins), i), i, nBins)
  {
  }

  lemma EntryRange(bin: seq<Sample>, i: nat, nBins: int)
    requires i < nBins
    ensures HasRange(ReportOf(bin, i, nBins), i, nBins)
  {
    TimesDivided(i as real, nBins as real);
    TimesDivided((i + 1) as real, nBins as real);
  }

  lemma EntryNumbers(bin: seq<Sample>, i: nat, nBins: int)
    requires i < nBins
    ensures HasNumbers(ReportOf(bin, i, nBins), |bin|, SumPredicted(bin), CountAttacks(bin))
  {
    if bin != [] {
      MeanTimesCount(SumPredicted(bin), |bin|);
      MeanTimesCount(CountAttacks(bin), |bin|);
    }
  }

  /**
   * The entry of a bin: its range, the number of samples that go to it, the sum of their predictions and the number
   * of attacks among them.
   */
  lemma BinEntryMeans(samples: seq<Sample>, nBins: int, i: nat)
    requires i < nBins
    ensures var b, goesTo := ReliabilityBins(samples, nBins)[i], ByPrediction(nBins);
            && HasRange(b, i, nBins)
            && HasNumbers(
                 b,
                 |set k | 0 <= k < |samples| && goesTo(samples[k]) == Some(i)|,
                 SumPredicted(Filter(samples, InBin(goesTo, i))),
                 |set k | 0 <= k < |samples| && goesTo(samples[k]) == Some(i) && samples[k].attack| as real)
  {
    var bin := BinOf(samples, ByPrediction(nBins), i);
    EntryOfBin(samples, nBins, i);
    EntryRange(bin, i, nBins);
    EntryNumbers(bin, i, nBins);
    BinCounts(samples, ByPrediction(nBins), i);
  }

  /** The sum of predictions, by its two laws. */
  lemma PredictionsAddUp(s: Sample, t: seq<Sample>, u: seq<Sample>)
    ensures SumPredicted([s]) == s.predicted
    ensures SumPredicted(t + u) == SumPredicted(t) + SumPredicted(u)
  {
    TotalSnoc([], s, (x: Sample) => x.predicted);
    assert [] + [s] == [s];
    assert [s][..0] == [];
    TotalConcat(t, u, (x: Sample) => x.predicted);
    SumPredictedIsTotal(t, (x: Sample) => x.predicted);
    SumPredictedIsTotal(u, (x: Sample) => x.predicted);
    SumPredictedIsTotal(t + u, (x: Sample) => x.predicted);
  }

  lemma {:induction false} SumPredictedIsTotal(s: seq<Sample>, of: Sample -> real)
    requires forall x :: of(x) == x.predicted
    ensures SumPredicted(s) == Total(s, of)
  {
    if s != [] {
      SumPredictedIsTotal(s[..|s| - 1], of);
    }
  }

  lemma BinCounts(samples: seq<Sample>, binning: Binning, i: nat)
    ensures |BinOf(samples, binning, i)| == |set k | 0 <= k < |samples| && binning(samples[k]) == Some(i)|
    ensures CountAttacks(BinOf(samples, binning, i))
         == |set k | 0 <= k < |samples| && binning(samples[k]) == Some(i) && samples[k].attack| as real
  {
    var members := set k | 0 <= k < |samples| && binning(samples[k]) == Some(i);
    var attacks := set k | 0 <= k < |samples| && binning(samples[k]) == Some(i) && samples[k].attack;
    FilterCountsPositions(samples, InBin(binning, i));
    AttacksInBin(samples, binning, i);
    assert Positions(samples, InBin(binning, i)) == members;
    assert Positions(samples, AttackInBin(binning, i)) == attacks;
  }

  function AttackInBin(binning: Binning, i: nat): Sample -> bool {
    (s: Sample) => binning(s) == Some(i) && s.attack
  }

  lemma {:induction false} AttacksInBin(samples: seq<Sample>, binning: Binning, i: nat)
    ensures CountAttacks(BinOf(samples, binning, i)) == |Positions(samples, AttackInBin(binning, i))| as real
  {
    FilterCountsPositions(samples, AttackInBin(binning, i));
    if samples != [] {
      var front, s := samples[..|samples| - 1], samples[|samples| - 1];
      assert samples == front + [s];
      AttacksInBin(front, binning, i);
      FilterCountsPositions(front, AttackInBin(binning, i));
      FilterSnoc(front, s, InBin(binning, i));
      FilterSnoc(front, s, AttackInBin(binning, i));
      TotalSnoc(BinOf(front, binning, i), s, OutcomeOf());
    }
  }

  // ---------------------------------------------------------------------------------------------
  // The bins partition the samples

  /** A quantity of each sample, added up over all buckets. */
  function TotalOfAll(buckets: seq<seq<Sample>>, of: Sample -> real): real {
    if buckets == [] then 0.0
    else TotalOfAll(buckets[..|buckets| - 1], of) + Total(buckets[|buckets| - 1], of)
  }

  function SizeOfAll(buckets: seq<seq<Sample>>): nat {
    if buckets == [] then 0 else SizeOfAll(buckets[..|buckets| - 1]) + |buckets[|buckets| - 1]|
  }

  lemma TotalSnoc(bin: seq<Sample>, s: Sample, of: Sample -> real)
    ensures Total(bin + [s], of) == Total(bin, of) + of(s)
  {
    assert (bin + [s])[..|bin + [s]| - 1] == bin;
  }

  lemma {:induction false} AddToBucket(buckets: seq<seq<Sample>>, i: nat, s: Sample, of: Sample -> real)
    requires i < |buckets|
    ensures TotalOfAll(PutIn(buckets, i, s), of) == TotalOfAll(buckets, of) + of(s)
    ensures SizeOfAll(PutIn(buckets, i, s)) == SizeOfAll(buckets) + 1
  {
    var last := |buckets| - 1;
    if i == last {
      assert PutIn(buckets, i, s)[..last] == buckets[..last];
      TotalSnoc(buckets[last], s, of);
    } else {
      assert PutIn(buckets, i, s)[..last] == PutIn(buckets[..last], i, s);
      AddToBucket(buckets[..last], i, s, of);
    }
  }

  lemma {:induction false} EmptyBuckets(buckets: seq<seq<Sample>>, of: Sample -> real)
    requires forall i :: 0 <= i < |buckets| ==> buckets[i] == []
    ensures TotalOfAll(buckets, of) == 0.0 && SizeOfAll(buckets) == 0
  {
    if buckets != [] {
      EmptyBuckets(buckets[..|buckets| - 1], of);
    }
  }

  lemma {:induction false} BucketsPartition(samples: seq<Sample>, binning: Binning, n: nat, of: Sample -> real)
    requires forall s :: s in samples ==> Hits(s, binning, n)
    ensures SizeOfAll(Buckets(samples, binning, n)) == |samples|
    ensures TotalOfAll(Buckets(samples, binning, n), of) == Total(samples, of)
  {
    if samples == [] {
      EmptyBuckets(Buckets(samples, binning, n), of);
    } else {
      var front, s := samples[..|samples| - 1], samples[|samples| - 1];
      assert samples == front + [s];
      assert Hits(s, binning, n);
      BucketsPartition(front, binning, n, of);
      BucketsSnoc(front, s, binning, n);
      AddToBucket(Buckets(front, binning, n), binning(s).value, s, of);
    }
  }

  /** Every sample is in exactly one bin: sizes, attacks and squared errors of the bins add up to the whole. */
  lemma BinsPartitionSamples(samples: seq<Sample>, nBins: nat)
    requires AllBinned(samples, nBins)
    ensures var buckets := Buckets(samples, ByPrediction(nBins), nBins);
            && SizeOfAll(buckets) == |samples|
            && TotalOfAll(buckets, OutcomeOf()) == CountAttacks(samples)
            && TotalOfAll(buckets, SquaredError()) == SumSquaredErrors(samples)
  {
    BucketsPartition(samples, ByPrediction(nBins), nBins, OutcomeOf());
    BucketsPartition(samples, ByPrediction(nBins), nBins, SquaredError());
  }

  // ---------------------------------------------------------------------------------------------
  // Brier score against reliability

  /** Squared deviations of the errors from a number, added up. */
  function SumSquaredDeviations(samples: seq<Sample>, m: real): real {
    if samples == [] then 0.0
    else SumSquaredDeviations(samples[..|samples| - 1], m) + Square(Error(samples[|samples| - 1]) - m)
  }

  function SumErrors(samples: seq<Sample>): real {
    SumPredicted(samples) - CountAttacks(samples)
  }

  lemma SquareIsNotNegative(x: real)
    ensures Square(x) >= 0.0
  {
  }

  lemma ExpandSquare(e: real, m: real)
    ensures Square(e - m) == Square(e) - 2.0 * (m * e) + Square(m)
  {
  }

  lemma Distribute(a: real, x: real, y: real)
    ensures a * (x + y) == a * x + a * y
  {
  }

  /** What the sum of squared deviations from `m` is, for errors with sum `total` and squares `squares`. */
  function Deviation(squares: real, total: real, n: real, m: real): real {
    squares - 2.0 * (m * total) + n * Square(m)
  }

  lemma DeviationStep(squares: real, total: real, n: real, m: real, e: real)
    ensures Deviation(squares, total, n, m) + Square(e - m) == Deviation(squares + Square(e), total + e, n + 1.0, m)
  {
    ExpandSquare(e, m);
    Distribute(m, total, e);
    var mm := Square(m);
    assert (n + 1.0) * mm == n * mm + mm;
  }

  lemma {:induction false} DeviationIdentity(samples: seq<Sample>, m: real)
    ensures SumSquaredDeviations(samples, m)
         == Deviation(SumSquaredErrors(samples), SumErrors(samples), |samples| as real, m)
  {
    if samples == [] {
      assert Deviation(0.0, 0.0, 0.0, m) == 0.0;
    } else {
      var front, s := samples[..|samples| - 1], samples[|samples| - 1];
      DeviationIdentity(front, m);
      DeviationStep(SumSquaredErrors(front), SumErrors(front), |front| as real, m, Error(s));
      assert SumErrors(samples) == SumErrors(front) + Error(s);
    }
  }

  lemma {:induction false} DeviationsAreNotNegative(samples: seq<Sample>, m: real)
    ensures SumSquaredDeviations(samples, m) >= 0.0
  {
    if samples != [] {
      DeviationsAreNotNegative(samples[..|samples| - 1], m);
      SquareIsNotNegative(Error(samples[|samples| - 1]) - m);
    }
  }

  /** A bin's count-weighted squared gap between mean prediction and observed frequency. */
  function Gap(b: ReliabilityBin): real {
    b.sampleCount as real * Square(b.meanPredicted - b.observedFrequency)
  }

  function WeightedGap(bins: seq<ReliabilityBin>): real {
    if bins == [] then 0.0 else WeightedGap(bins[..|bins| - 1]) + Gap(bins[|bins| - 1])
  }

  /** The attacks a bin accounts for. */
  function Attacks(b: ReliabilityBin): real {
    b.sampleCount as real * b.observedFrequency
  }

  function WeightedFrequency(bins: seq<ReliabilityBin>): real {
    if bins == [] then 0.0 else WeightedFrequency(bins[..|bins| - 1]) + Attacks(bins[|bins| - 1])
  }

  lemma MeanTimesCount(total: real, n: nat)
    requires n > 0
    ensures n as real * Mean(total, n) == total
  {
  }

  lemma DeviationFromMean(squares: real, total: real, n: real, m: real)
    requires n * m == total
    ensures Deviation(squares, total, n, m) == squares - n * Square(m)
  {
    assert m * total == n * Square(m);
  }

  /** In any bin the squared errors are at least `n` times the square of the bin's mean error. */
  lemma BinGapBelowErrors(bin: seq<Sample>, m: real)
    requires |bin| as real * m == SumErrors(bin)
    ensures |bin| as real * Square(m) <= SumSquaredErrors(bin)
  {
    DeviationIdentity(bin, m);
    DeviationsAreNotNegative(bin, m);
    DeviationFromMean(SumSquaredErrors(bin), SumErrors(bin), |bin| as real, m);
  }

  lemma DifferenceOfMeans(n: nat, x: real, y: real)
    requires n > 0
    ensures n as real * (Mean(x, n) - Mean(y, n)) == x - y
  {
    MeanTimesCount(x, n);
    MeanTimesCount(y, n);
    Distribute(n as real, Mean(x, n), -Mean(y, n));
  }

  /** What a bin's entry says about the bin's samples. */
  ghost predicate Accounts(b: ReliabilityBin, bin: seq<Sample>) {
    Gap(b) <= SumSquaredErrors(bin) && Attacks(b) == CountAttacks(bin)
  }

  lemma EntryAccounts(bin: seq<Sample>, i: nat, nBins: int)
    requires i < nBins
    ensures Accounts(ReportOf(bin, i, nBins), bin)
  {
    if bin != [] {
      DifferenceOfMeans(|bin|, SumPredicted(bin), CountAttacks(bin));
      BinGapBelowErrors(bin, Mean(SumPredicted(bin), |bin|) - Mean(CountAttacks(bin), |bin|));
      MeanTimesCount(CountAttacks(bin), |bin|);
    }
  }

  ghost predicate AllAccount(bins: seq<ReliabilityBin>, buckets: seq<seq<Sample>>) {
    |bins| == |buckets| && forall i :: 0 <= i < |bins| ==> Accounts(bins[i], buckets[i])
  }

  lemma ReportAccounts(samples: seq<Sample>, nBins: int)
    ensures AllAccount(ReliabilityBins(samples, nBins), Buckets(samples, ByPrediction(nBins), NumberOfBins(nBins)))
  {
    var bins, buckets := ReliabilityBins(samples, nBins), Buckets(samples, ByPrediction(nBins), NumberOfBins(nBins));
    forall i | 0 <= i < |bins|
      ensures Accounts(bins[i], buckets[i])
    {
      EntryAccounts(buckets[i], i, nBins);
    }
  }

  lemma {:induction false} TotalsOfBins(bins: seq<ReliabilityBin>, buckets: seq<seq<Sample>>)
    requires AllAccount(bins, buckets)
    ensures WeightedGap(bins) <= TotalOfAll(buckets, SquaredError())
    ensures WeightedFrequency(bins) == TotalOfAll(buckets, OutcomeOf())
  {
    if bins != [] {
      var last := |bins| - 1;
      assert Accounts(bins[last], buckets[last]);
      TotalsOfBins(bins[..last], buckets[..last]);
    }
  }

  lemma DivideMonotone(a: real, b: real, n: real)
    requires a <= b && n > 0.0
    ensures a / n <= b / n
  {
  }

  /**
   * The Brier score bounds miscalibration: it is at least the count-weighted mean, over the reliability bins,
   * of the squared gap between mean prediction and observed frequency.
   */
  lemma BrierBoundsReliabilityGap(samples: seq<Sample>, nBins: int)
    requires samples != [] && AllBinned(samples, nBins)
    ensures BrierScore(samples).value >= WeightedGap(ReliabilityBins(samples, nBins)) / |samples| as real
  {
    var bins := ReliabilityBins(samples, nBins);
    assert samples[0] in samples;
    assert WeightedGap(bins) <= SumSquaredErrors(samples) by {
      ReportAccounts(samples, nBins);
      TotalsOfBins(bins, Buckets(samples, ByPrediction(nBins), nBins));
      BinsPartitionSamples(samples, nBins);
    }
    DivideMonotone(WeightedGap(bins), SumSquaredErrors(samples), |samples| as real);
  }

  /** The count-weighted observed frequencies of the bins add up to the attacks in the whole sample. */
  lemma FrequenciesRecoverBaseRate(samples: seq<Sample>, nBins: nat)
    requires AllBinned(samples, nBins)
    ensures WeightedFrequency(ReliabilityBins(samples, nBins)) == CountAttacks(samples)
  {
    ReportAccounts(samples, nBins);
    TotalsOfBins(ReliabilityBins(samples, nBins), Buckets(samples, ByPrediction(nBins), nBins));
    BinsPartitionSamples(samples, nBins);
  }

  // ---------------------------------------------------------------------------------------------
  // Probabilities

  ghost predicate Probabilities(samples: seq<Sample>) {
    forall s :: s in samples ==> 0.0 <= s.predicted <= 1.0
  }

  lemma BinRange(s: Sample, nBins: nat)
    requires nBins >= 1 && 0.0 <= s.predicted <= 1.0
    ensures BinIndex(s, nBins).Some?
    ensures var i := BinIndex(s, nBins).value;
            i as real <= s.predicted * nBins as real <= (i + 1) as real
  {
    assert 0.0 <= s.predicted * nBins as real <= nBins as real;
  }

  lemma {:induction false} SumWithin(bin: seq<Sample>, lo: real, hi: real)
    requires Within(bin, lo, hi)
    ensures |bin| as real * lo <= SumPredicted(bin) <= |bin| as real * hi
  {
    if bin != [] {
      assert bin[|bin| - 1] in bin;
      SumWithin(bin[..|bin| - 1], lo, hi);
      Distribute(lo, (|bin| - 1) as real, 1.0);
      Distribute(hi, (|bin| - 1) as real, 1.0);
    }
  }

  lemma DivideBounds(lo: real, hi: real, total: real, n: real)
    requires n > 0.0 && n * lo <= total <= n * hi
    ensures lo <= total / n <= hi
  {
    var q := total / n;
    assert n * q == total;
    assert n * (q - lo) >= 0.0 && n * (hi - q) >= 0.0;
  }

  lemma QuotientBetween(a: real, b: real, x: real, n: real)
    requires n > 0.0 && a <= x * n <= b
    ensures a / n <= x <= b / n
  {
    var p, q := a / n, b / n;
    assert p * n == a && q * n == b;
    assert (x - p) * n >= 0.0 && (q - x) * n >= 0.0;
  }

  predicate Within(bin: seq<Sample>, lo: real, hi: real) {
    forall s :: s in bin ==> lo <= s.predicted <= hi
  }

  lemma PredictionInRange(s: Sample, nBins: nat, i: nat)
    requires i < nBins && 0.0 <= s.predicted <= 1.0 && BinIndex(s, nBins) == Some(i)
    ensures i as real / nBins as real <= s.predicted <= (i + 1) as real / nBins as real
  {
    BinRange(s, nBins);
    QuotientBetween(i as real, (i + 1) as real, s.predicted, nBins as real);
  }

  lemma MembersInRange(samples: seq<Sample>, nBins: nat, i: nat, lo: real, hi: real)
    requires i < nBins && Probabilities(samples)
    requires lo == i as real / nBins as real && hi == (i + 1) as real / nBins as real
    ensures Within(BinOf(samples, ByPrediction(nBins), i), lo, hi)
  {
    var binning := ByPrediction(nBins);
    FilterMembers(samples, InBin(binning, i));
    forall s | s in BinOf(samples, binning, i)
      ensures lo <= s.predicted <= hi
    {
      PredictionInRange(s, nBins, i);
    }
  }

  lemma MeanWithin(bin: seq<Sample>, lo: real, hi: real)
    requires bin != [] && Within(bin, lo, hi)
    ensures lo <= Mean(SumPredicted(bin), |bin|) <= hi
  {
    SumWithin(bin, lo, hi);
    DivideBounds(lo, hi, SumPredicted(bin), |bin| as real);
  }

  lemma ProbabilitiesAreBinned(samples: seq<Sample>, nBins: nat)
    requires Probabilities(samples) && nBins >= 1
    ensures AllBinned(samples, nBins)
  {
    forall s | s in samples ensures BinIndex(s, nBins).Some? {
      BinRange(s, nBins);
    }
  }

  /** Probabilities always find a bin, and the mean of every non-empty bin lies in the bin's range. */
  lemma MeansLieInTheirBins(samples: seq<Sample>, nBins: nat, i: nat)
    requires Probabilities(samples) && i < nBins
    ensures AllBinned(samples, nBins)
    ensures var b := ReliabilityBins(samples, nBins)[i];
            b.sampleCount > 0 ==> b.lo <= b.meanPredicted <= b.hi
  {
    ProbabilitiesAreBinned(samples, nBins);
    var bin := BinOf(samples, ByPrediction(nBins), i);
    var lo, hi := i as real / nBins as real, (i + 1) as real / nBins as real;
    MembersInRange(samples, nBins, i, lo, hi);
    if bin != [] {
      MeanWithin(bin, lo, hi);
    }
  }

  /** Higher similarity to the task, lower probability of an attack; clipped to [0, 1]. */
  function SimilarityToPseudoProbability(similarity: real): real {
    var p := (1.0 - similarity) / 2.0;
    var low := if 1.0 < p then 1.0 else p;
    if low < 0.0 then 0.0 else low
  }

  /** Linear from 1 at similarity -1 to 0 at similarity 1, and constant beyond. */
  lemma PseudoProbabilityMeans(similarity: real)
    ensures var p := SimilarityToPseudoProbability(similarity);
            && (similarity <= -1.0 ==> p == 1.0)
            && (similarity >= 1.0 ==> p == 0.0)
            && (-1.0 <= similarity <= 1.0 ==> 2.0 * p == 1.0 - similarity)
  {
  }
}
