/**
 * The population stability index (src/simulacrum/drift/psi.py), over exact reals. The logarithm is any function
 * that is strictly increasing on positive numbers and 0 at 1.
 */
module PopulationStability {
  import opened Common

  const PSI_NO_SHIFT_THRESHOLD := 0.1
  const PSI_SIGNIFICANT_SHIFT_THRESHOLD := 0.25
  const MIN_SAMPLES_FOR_PSI := 30
  const FLOOR := 0.0001

  // ---------------------------------------------------------------------------------------------
  // Binning

  predicate FallsIn(v: real, edges: seq<real>, i: nat)
    requires i + 1 < |edges|
  {
    edges[i] <= v < edges[i + 1] || (i + 2 == |edges| && v == edges[i + 1])
  }

  /** The first bin, at or after bin `i`, that `v` falls in. */
  function FirstBin(v: real, edges: seq<real>, i: nat): Option<nat>
    decreases |edges| - i
  {
    if i + 1 >= |edges| then None
    else if FallsIn(v, edges, i) then Some(i)
    else FirstBin(v, edges, i + 1)
  }

  function GoesTo(edges: seq<real>, i: nat): real -> bool {
    v => FirstBin(v, edges, 0) == Some(i)
  }

  function CountIn(values: seq<real>, edges: seq<real>, i: nat): nat {
    |Filter(values, GoesTo(edges, i))|
  }

  function Bins(edges: seq<real>): nat {
    if edges == [] then 0 else |edges| - 1
  }

  /** A bin's share of the values, or the floor. */
  function Share(count: nat, total: nat): (r: real)
    requires total > 0
    ensures r >= FLOOR
  {
    var share := count as real / total as real;
    if share < FLOOR then FLOOR else share
  }

  function Distribution(values: seq<real>, edges: seq<real>): (r: seq<real>)
    requires values != []
    ensures |r| == Bins(edges)
    ensures forall i :: 0 <= i < |r| ==> r[i] >= FLOOR
  {
    seq(Bins(edges), i requires 0 <= i => Share(CountIn(values, edges, i), |values|))
  }

  method BinDistribution(values: seq<real>, edges: seq<real>) returns (shares: seq<real>)
    requires values != []
    ensures shares == Distribution(values, edges)
  {
    var nBins := Bins(edges);
    var counts := new nat[nBins](_ => 0);
    for k := 0 to |values|
      invariant forall j :: 0 <= j < nBins ==> counts[j] == CountIn(values[..k], edges, j)
    {
      var v := values[k];
      ghost var before := counts[..];
      ghost var bin := FirstBin(v, edges, 0);
      var i := 0;
      while i < nBins
        invariant 0 <= i <= nBins
        invariant bin == FirstBin(v, edges, i)
        invariant counts[..] == before
      {
        if FallsIn(v, edges, i) {
          counts[i] := counts[i] + 1;
          break;
        }
        i := i + 1;
      }
      assert values[..k + 1] == values[..k] + [v];
      forall j | 0 <= j < nBins
        ensures counts[j] == CountIn(values[..k + 1], edges, j)
      {
        FilterSnoc(values[..k], v, GoesTo(edges, j));
        assert counts[j] == before[j] + if bin == Some(j) then 1 else 0;
      }
    }
    assert values[..|values|] == values;
    shares := seq(nBins, i requires 0 <= i < nBins reads counts => Share(counts[i], |values|));
  }

  // ---------------------------------------------------------------------------------------------
  // The index

  function Max(s: seq<real>): real
    requires s != []
  {
    if |s| == 1 then s[0]
    else
      var m := Max(s[..|s| - 1]);
      if s[|s| - 1] > m then s[|s| - 1] else m
  }

  lemma {:induction false} MaxIsGreatest(s: seq<real>)
    requires s != []
    ensures Max(s) in s && forall x :: x in s ==> x <= Max(s)
  {
    if |s| > 1 {
      MaxIsGreatest(s[..|s| - 1]);
      assert s == s[..|s| - 1] + [s[|s| - 1]];
    }
  }

  datatype Interval = Interval(lo: real, hi: real)

  /** The span of the baseline, widened a little when it is a single point. */
  function Span(baseline: seq<real>): (r: Interval)
    requires baseline != []
  {
    var lo, hi := Min(baseline), Max(baseline);
    if lo == hi then Interval(lo - 0.01, hi + 0.01) else Interval(lo, hi)
  }

  /** `nBins + 1` equally spaced edges; none when `nBins` is negative. */
  function Edges(span: Interval, nBins: int): (r: seq<real>)
    requires nBins != 0
    ensures |r| == if nBins < 0 then 0 else nBins + 1
  {
    if nBins < 0 then []
    else
      var width := (span.hi - span.lo) / nBins as real;
      seq(nBins + 1, i requires 0 <= i => EdgeAt(span.lo, width, i))
  }

  function EdgeAt(lo: real, width: real, i: nat): real {
    lo + i as real * width
  }

  function Clip(span: Interval, v: real): real {
    var capped := if v < span.hi then v else span.hi;
    if capped > span.lo then capped else span.lo
  }

  function ClipAll(span: Interval, values: seq<real>): seq<real> {
    Map(values, v => Clip(span, v))
  }

  /** The terms of the first `n` bins, added up. */
  function Index(ln: real -> real, base: seq<real>, curr: seq<real>, n: nat): real
    requires n <= |base| && n <= |curr|
    requires forall i :: 0 <= i < |base| ==> base[i] >= FLOOR
  {
    if n == 0 then 0.0
    else Index(ln, base, curr, n - 1) + Term(ln, base[n - 1], curr[n - 1])
  }

  function Term(ln: real -> real, base: real, curr: real): real
    requires base > 0.0
  {
    (curr - base) * ln(curr / base)
  }

  datatype PsiOutcome =
    | InsufficientData
    | DivisionByZero
    | PsiResult(psiValue: real, isSignificantShift: bool, isModerateShift: bool, binEdges: seq<real>)

  function ResultOf(psi: real, edges: seq<real>): PsiOutcome {
    PsiResult(
      psi, psi > PSI_SIGNIFICANT_SHIFT_THRESHOLD,
      PSI_NO_SHIFT_THRESHOLD < psi <= PSI_SIGNIFICANT_SHIFT_THRESHOLD, edges)
  }

  function Psi(ln: real -> real, baseline: seq<real>, current: seq<real>, nBins: int): PsiOutcome {
    if |baseline| < MIN_SAMPLES_FOR_PSI || |current| < MIN_SAMPLES_FOR_PSI then InsufficientData
    else if nBins == 0 then DivisionByZero
    else
      var span := Span(baseline);
      var edges := Edges(span, nBins);
      var base, curr := Distribution(baseline, edges), Distribution(ClipAll(span, current), edges);
      ResultOf(Index(ln, base, curr, Bins(edges)), edges)
  }

  method ComputePsi(ln: real -> real, baseline: seq<real>, current: seq<real>, nBins: int := 10)
    returns (r: PsiOutcome)
    ensures r == Psi(ln, baseline, current, nBins)
  {
    if |baseline| < MIN_SAMPLES_FOR_PSI || |current| < MIN_SAMPLES_FOR_PSI {
      return InsufficientData;
    }
    if nBins == 0 {
      return DivisionByZero;
    }
    var span := Span(baseline);
    var edges := Edges(span, nBins);
    var base := BinDistribution(baseline, edges);
    var curr := BinDistribution(ClipAll(span, current), edges);
    r := ResultOf(Index(ln, base, curr, Bins(edges)), edges);
  }

  // ---------------------------------------------------------------------------------------------
  // Every value lands in exactly one bin

  predicate Increasing(edges: seq<real>) {
    forall i, j :: 0 <= i < j < |edges| ==> edges[i] < edges[j]
  }

  lemma PositiveTimes(k: real, width: real)
    requires k > 0.0 && width > 0.0
    ensures k * width > 0.0
  {
  }

  lemma SignOfQuotient(x: real, n: real)
    requires x > 0.0 && n > 0.0
    ensures x / n > 0.0
  {
  }

  lemma EdgesIncrease(span: Interval, nBins: int)
    requires span.lo < span.hi && nBins > 0
    ensures Increasing(Edges(span, nBins))
    ensures Edges(span, nBins)[0] == span.lo && Edges(span, nBins)[nBins] == span.hi
  {
    var n := nBins as real;
    var width := (span.hi - span.lo) / n;
    assert width * n == span.hi - span.lo;
    SignOfQuotient(span.hi - span.lo, n);
    var edges := Edges(span, nBins);
    forall i, j | 0 <= i < j < |edges|
      ensures edges[i] < edges[j]
    {
      PositiveTimes((j - i) as real, width);
      assert j as real * width == i as real * width + (j - i) as real * width;
    }
  }

  lemma SpanIsProper(baseline: seq<real>)
    requires baseline != []
    ensures Span(baseline).lo < Span(baseline).hi
    ensures forall v :: v in baseline ==> Span(baseline).lo <= v <= Span(baseline).hi
  {
    MinIsLeast(baseline);
    MaxIsGreatest(baseline);
  }

  /** Bin `b` and no other holds `v`. */
  predicate OnlyBin(v: real, edges: seq<real>, b: nat) {
    b < Bins(edges) && forall j :: 0 <= j < Bins(edges) ==> (FallsIn(v, edges, j) <==> j == b)
  }

  lemma {:induction false} FirstBinIsTheBin(v: real, edges: seq<real>, i: nat)
    requires i + 1 < |edges| && Increasing(edges) && edges[i] <= v <= edges[|edges| - 1]
    ensures FirstBin(v, edges, i).Some? && OnlyBin(v, edges, FirstBin(v, edges, i).value)
    decreases |edges| - i
  {
    if !FallsIn(v, edges, i) {
      FirstBinIsTheBin(v, edges, i + 1);
    }
  }

  function SumCounts(values: seq<real>, edges: seq<real>, n: nat): nat {
    if n == 0 then 0 else SumCounts(values, edges, n - 1) + CountIn(values, edges, n - 1)
  }

  lemma {:induction false} SumCountsSnoc(values: seq<real>, v: real, edges: seq<real>, n: nat)
    ensures SumCounts(values + [v], edges, n)
         == SumCounts(values, edges, n)
            + if FirstBin(v, edges, 0).Some? && FirstBin(v, edges, 0).value < n then 1 else 0
  {
    if n > 0 {
      SumCountsSnoc(values, v, edges, n - 1);
      FilterSnoc(values, v, GoesTo(edges, n - 1));
    }
  }

  lemma {:induction false} SumCountsOfNone(edges: seq<real>, n: nat)
    ensures SumCounts([], edges, n) == 0
  {
    if n > 0 {
      SumCountsOfNone(edges, n - 1);
    }
  }

  lemma {:induction false} CountsSumToTotal(values: seq<real>, edges: seq<real>)
    requires |edges| > 1 && Increasing(edges)
    requires forall v :: v in values ==> edges[0] <= v <= edges[|edges| - 1]
    ensures SumCounts(values, edges, Bins(edges)) == |values|
  {
    if values == [] {
      SumCountsOfNone(edges, Bins(edges));
    } else {
      var front, v := values[..|values| - 1], values[|values| - 1];
      assert values == front + [v] && v in values;
      assert forall x :: x in front ==> x in values;
      CountsSumToTotal(front, edges);
      SumCountsSnoc(front, v, edges, Bins(edges));
      FirstBinIsTheBin(v, edges, 0);
    }
  }

  lemma ClippedStaysInside(span: Interval, values: seq<real>)
    requires span.lo < span.hi
    ensures forall v :: v in ClipAll(span, values) ==> span.lo <= v <= span.hi
  {
  }

  /** Each value in range falls in exactly one bin, so none is lost or counted twice. */
  lemma InRangeValuesArePartitioned(values: seq<real>, span: Interval, nBins: int)
    requires span.lo < span.hi && nBins > 0 && forall v :: v in values ==> span.lo <= v <= span.hi
    ensures var edges := Edges(span, nBins);
            && SumCounts(values, edges, nBins) == |values|
            && forall v :: v in values ==> exists b :: OnlyBin(v, edges, b)
  {
    var edges := Edges(span, nBins);
    EdgesIncrease(span, nBins);
    CountsSumToTotal(values, edges);
    forall v | v in values
      ensures exists b :: OnlyBin(v, edges, b)
    {
      FirstBinIsTheBin(v, edges, 0);
    }
  }

  /** So it is with the baseline values and with the clipped current values. */
  lemma BinsPartitionValues(baseline: seq<real>, current: seq<real>, nBins: int)
    requires baseline != [] && nBins > 0
    ensures var span := Span(baseline);
            var edges, clipped := Edges(span, nBins), ClipAll(span, current);
            && SumCounts(baseline, edges, nBins) == |baseline|
            && SumCounts(clipped, edges, nBins) == |current|
            && forall v :: v in baseline || v in clipped ==> exists b :: OnlyBin(v, edges, b)
  {
    var span := Span(baseline);
    SpanIsProper(baseline);
    ClippedStaysInside(span, current);
    InRangeValuesArePartitioned(baseline, span, nBins);
    InRangeValuesArePartitioned(ClipAll(span, current), span, nBins);
  }

  // ---------------------------------------------------------------------------------------------
  // The index is a divergence

  ghost predicate IsLog(ln: real -> real) {
    ln(1.0) == 0.0 && forall x, y :: 0.0 < x < y ==> ln(x) < ln(y)
  }

  lemma QuotientAgainstOne(c: real, b: real)
    requires c > 0.0 && b > 0.0
    ensures c / b > 0.0
    ensures c > b <==> c / b > 1.0
    ensures c < b <==> c / b < 1.0
  {
    var q := c / b;
    assert q * b == c;
    SignOfQuotient(c, b);
    if q > 1.0 {
      PositiveTimes(q - 1.0, b);
    } else if q < 1.0 {
      PositiveTimes(1.0 - q, b);
    }
  }

  lemma SignOfProduct(x: real, y: real)
    requires (x > 0.0 && y > 0.0) || (x < 0.0 && y < 0.0)
    ensures x * y > 0.0
  {
  }

  lemma TermIsPositive(ln: real -> real, base: real, curr: real)
    requires IsLog(ln) && base > 0.0 && curr > 0.0
    ensures base == curr ==> Term(ln, base, curr) == 0.0
    ensures base != curr ==> Term(ln, base, curr) > 0.0
  {
    QuotientAgainstOne(curr, base);
    if base != curr {
      SignOfProduct(curr - base, ln(curr / base));
    }
  }

  /** The index is never negative, and it is zero exactly when the two binned distributions agree. */
  lemma {:induction false} IndexIsDivergence(ln: real -> real, base: seq<real>, curr: seq<real>, n: nat)
    requires IsLog(ln) && n <= |base| && n <= |curr|
    requires forall i :: 0 <= i < |base| ==> base[i] >= FLOOR
    requires forall i :: 0 <= i < |curr| ==> curr[i] >= FLOOR
    ensures Index(ln, base, curr, n) >= 0.0
    ensures Index(ln, base, curr, n) == 0.0 <==> base[..n] == curr[..n]
  {
    if n > 0 {
      IndexIsDivergence(ln, base, curr, n - 1);
      TermIsPositive(ln, base[n - 1], curr[n - 1]);
      assert base[..n] == base[..n - 1] + [base[n - 1]];
      assert curr[..n] == curr[..n - 1] + [curr[n - 1]];
    }
  }

  lemma PsiIsDivergence(ln: real -> real, baseline: seq<real>, current: seq<real>, nBins: int)
    requires IsLog(ln) && |baseline| >= MIN_SAMPLES_FOR_PSI && |current| >= MIN_SAMPLES_FOR_PSI && nBins != 0
    ensures var r := Psi(ln, baseline, current, nBins);
            && r.PsiResult?
            && r.psiValue >= 0.0
            && (r.psiValue == 0.0 <==>
                Distribution(baseline, r.binEdges) == Distribution(ClipAll(Span(baseline), current), r.binEdges))
  {
    var span := Span(baseline);
    var edges := Edges(span, nBins);
    var base, curr := Distribution(baseline, edges), Distribution(ClipAll(span, current), edges);
    var n := Bins(edges);
    IndexIsDivergence(ln, base, curr, n);
    assert base[..n] == base && curr[..n] == curr;
  }

  // ---------------------------------------------------------------------------------------------
  // What the result is

  /** The bin that takes a value: the first takes everything below, the last everything above. */
  predicate LandsIn(v: real, edges: seq<real>, i: int)
    requires 0 <= i && i + 1 < |edges|
  {
    (i == 0 || edges[i] <= v) && (i + 2 == |edges| || v < edges[i + 1])
  }

  /** How many of the values land in bin `i`. */
  function Landing(values: seq<real>, edges: seq<real>, i: int): nat
    requires 0 <= i && i + 1 < |edges|
  {
    |set k | 0 <= k < |values| && LandsIn(values[k], edges, i)|
  }

  /** The share of the values that land in each bin, at least 0.0001. */
  function SharesOf(values: seq<real>, edges: seq<real>): (r: seq<real>)
    requires values != [] && |edges| > 0
    ensures |r| == |edges| - 1
    ensures forall i :: 0 <= i < |r| ==> r[i] >= 0.0001
  {
    seq(|edges| - 1, i requires 0 <= i < |edges| - 1 =>
      var share := Landing(values, edges, i) as real / |values| as real; if share > 0.0001 then share else 0.0001)
  }

  lemma LandsIffFirstBin(v: real, edges: seq<real>, i: nat)
    requires i + 1 < |edges| && Increasing(edges) && edges[0] <= v <= edges[|edges| - 1]
    ensures LandsIn(v, edges, i) <==> FirstBin(v, edges, 0) == Some(i)
  {
    FirstBinIsTheBin(v, edges, 0);
    assert LandsIn(v, edges, i) <==> FallsIn(v, edges, i);
  }

  lemma ClippedLandsAlike(span: Interval, v: real, edges: seq<real>, i: nat)
    requires i + 1 < |edges| && Increasing(edges) && span == Interval(edges[0], edges[|edges| - 1])
    ensures edges[0] <= Clip(span, v) <= edges[|edges| - 1]
    ensures LandsIn(Clip(span, v), edges, i) <==> LandsIn(v, edges, i)
  {
  }

  lemma CountIsLanding(span: Interval, values: seq<real>, edges: seq<real>, i: nat)
    requires i + 1 < |edges| && Increasing(edges) && span == Interval(edges[0], edges[|edges| - 1])
    ensures CountIn(ClipAll(span, values), edges, i) == Landing(values, edges, i)
  {
    forall v
      ensures GoesTo(edges, i)(Clip(span, v)) <==> LandsIn(v, edges, i)
    {
      ClippedLandsAlike(span, v, edges, i);
      LandsIffFirstBin(Clip(span, v), edges, i);
    }
    var lands := v => LandsIn(v, edges, i);
    FilterOfMap(values, v => Clip(span, v), GoesTo(edges, i), lands);
    FilterCountsPositions(values, lands);
    var landing := set k | 0 <= k < |values| && LandsIn(values[k], edges, i);
    assert Positions(values, lands) == landing;
  }

  lemma DistributionIsShares(span: Interval, values: seq<real>, edges: seq<real>)
    requires values != [] && |edges| > 1 && Increasing(edges) && span == Interval(edges[0], edges[|edges| - 1])
    ensures Distribution(ClipAll(span, values), edges) == SharesOf(values, edges)
  {
    forall i | 0 <= i < |edges| - 1
      ensures Distribution(ClipAll(span, values), edges)[i] == SharesOf(values, edges)[i]
    {
      CountIsLanding(span, values, edges, i);
    }
  }

  lemma ClippingBaselineChangesNothing(baseline: seq<real>)
    requires baseline != []
    ensures ClipAll(Span(baseline), baseline) == baseline
  {
    SpanIsProper(baseline);
    assert forall k :: 0 <= k < |baseline| ==> baseline[k] in baseline;
  }

  /** A logarithm turns quotients into differences. */
  ghost predicate IsLogarithm(ln: real -> real) {
    IsLog(ln) && forall x, y :: x > 0.0 && y > 0.0 ==> QuotientLaw(ln, x, y)
  }

  predicate QuotientLaw(ln: real -> real, x: real, y: real)
    requires y > 0.0
  {
    ln(x / y) == ln(x) - ln(y)
  }

  /** The relative entropy of `p` with respect to `q`, over the first `n` bins. */
  function RelativeEntropy(ln: real -> real, p: seq<real>, q: seq<real>, n: nat): real
    requires n <= |p| && n <= |q| && forall i :: 0 <= i < |q| ==> q[i] >= 0.0001
  {
    if n == 0 then 0.0 else RelativeEntropy(ln, p, q, n - 1) + Part(ln, p[n - 1], q[n - 1])
  }

  function Part(ln: real -> real, p: real, q: real): real
    requires q > 0.0
  {
    p * ln(p / q)
  }

  lemma TermIsTwoEntropies(ln: real -> real, b: real, c: real)
    requires IsLogarithm(ln) && b > 0.0 && c > 0.0
    ensures Term(ln, b, c) == Part(ln, c, b) + Part(ln, b, c)
  {
    assert QuotientLaw(ln, c, b) && QuotientLaw(ln, b, c);
    SplitProduct(b, c, ln(c / b));
  }

  lemma SplitProduct(b: real, c: real, x: real)
    ensures (c - b) * x == c * x + b * -x
  {
  }

  predicate TermSplits(ln: real -> real, b: real, c: real)
    requires b > 0.0 && c > 0.0
  {
    Term(ln, b, c) == Part(ln, c, b) + Part(ln, b, c)
  }

  lemma {:induction false} SplitTermsAddUp(ln: real -> real, base: seq<real>, curr: seq<real>, n: nat)
    requires n <= |base| && n <= |curr|
    requires forall i :: 0 <= i < |base| ==> base[i] >= FLOOR
    requires forall i :: 0 <= i < |curr| ==> curr[i] >= FLOOR
    requires forall i :: 0 <= i < n ==> TermSplits(ln, base[i], curr[i])
    ensures Index(ln, base, curr, n) == RelativeEntropy(ln, curr, base, n) + RelativeEntropy(ln, base, curr, n)
  {
    if n > 0 {
      SplitTermsAddUp(ln, base, curr, n - 1);
      assert TermSplits(ln, base[n - 1], curr[n - 1]);
    }
  }

  lemma IndexIsTwoEntropies(ln: real -> real, base: seq<real>, curr: seq<real>, n: nat)
    requires IsLogarithm(ln) && n <= |base| && n <= |curr|
    requires forall i :: 0 <= i < |base| ==> base[i] >= FLOOR
    requires forall i :: 0 <= i < |curr| ==> curr[i] >= FLOOR
    ensures Index(ln, base, curr, n) == RelativeEntropy(ln, curr, base, n) + RelativeEntropy(ln, base, curr, n)
  {
    forall i | 0 <= i < n
      ensures TermSplits(ln, base[i], curr[i])
    {
      TermIsTwoEntropies(ln, base[i], curr[i]);
    }
    SplitTermsAddUp(ln, base, curr, n);
  }

  /**
   * The index is the sum of the two relative entropies, of the current shares with respect to the baseline's and of
   * the baseline's with respect to the current ones, where values beyond the edges count for the nearest bin.
   */
  lemma PsiIsSumOfEntropies(ln: real -> real, baseline: seq<real>, current: seq<real>, nBins: int)
    requires IsLogarithm(ln) && |baseline| >= 30 && |current| >= 30 && nBins > 0
    ensures var r := Psi(ln, baseline, current, nBins);
            && r.PsiResult? && |r.binEdges| == nBins + 1
            && var p, q := SharesOf(current, r.binEdges), SharesOf(baseline, r.binEdges);
               r.psiValue == RelativeEntropy(ln, p, q, nBins) + RelativeEntropy(ln, q, p, nBins)
  {
    var span := Span(baseline);
    var edges := Edges(span, nBins);
    SpanIsProper(baseline);
    EdgesIncrease(span, nBins);
    ClippingBaselineChangesNothing(baseline);
    DistributionIsShares(span, baseline, edges);
    DistributionIsShares(span, current, edges);
    IndexIsTwoEntropies(ln, SharesOf(baseline, edges), SharesOf(current, edges), nBins);
  }

  lemma EqualSteps(lo: real, width: real, i: nat)
    ensures EdgeAt(lo, width, i + 1) - EdgeAt(lo, width, i) == width
  {
    assert (i + 1) as real * width == i as real * width + width;
  }

  lemma EdgesHaveEqualSteps(span: Interval, nBins: int)
    requires span.lo < span.hi && nBins > 0
    ensures var e := Edges(span, nBins);
            forall i :: 0 <= i < nBins ==> e[i + 1] - e[i] == (e[nBins] - e[0]) / nBins as real
  {
    EdgesIncrease(span, nBins);
    forall i | 0 <= i < nBins
      ensures Edges(span, nBins)[i + 1] - Edges(span, nBins)[i] == (span.hi - span.lo) / nBins as real
    {
      EqualSteps(span.lo, (span.hi - span.lo) / nBins as real, i);
    }
  }

  /**
   * The edges go from the least to the greatest baseline value, or from 0.01 below to 0.01 above when there is just
   * one value, in equal steps.
   */
  lemma EdgesSpanBaseline(ln: real -> real, baseline: seq<real>, current: seq<real>, nBins: int)
    requires |baseline| >= 30 && |current| >= 30 && nBins > 0
    ensures var e := Psi(ln, baseline, current, nBins).binEdges;
            && |e| == nBins + 1
            && (forall x :: Constant(baseline, x) ==> e[0] == x - 0.01 && e[nBins] == x + 0.01)
            && ((forall x :: !Constant(baseline, x)) ==>
                  && e[0] in baseline && e[nBins] in baseline
                  && forall v :: v in baseline ==> e[0] <= v <= e[nBins])
            && forall i :: 0 <= i < nBins ==> e[i + 1] - e[i] == (e[nBins] - e[0]) / nBins as real
  {
    SpanMeans(baseline);
    SpanIsProper(baseline);
    EdgesIncrease(Span(baseline), nBins);
    EdgesHaveEqualSteps(Span(baseline), nBins);
  }

  lemma SpanMeans(baseline: seq<real>)
    requires baseline != []
    ensures forall x :: Constant(baseline, x) ==> Span(baseline) == Around(x)
    ensures (forall x :: !Constant(baseline, x)) ==> Span(baseline).lo in baseline && Span(baseline).hi in baseline
  {
    MinIsLeast(baseline);
    MaxIsGreatest(baseline);
    if Min(baseline) == Max(baseline) {
      assert forall i :: 0 <= i < |baseline| ==> baseline[i] in baseline;
      assert Constant(baseline, Min(baseline));
    }
    forall x | Constant(baseline, x)
      ensures Span(baseline) == Around(x)
    {
      SpanOfConstant(baseline, x);
    }
  }

  /** Which of the three outcomes there is. */
  lemma PsiFailsIff(ln: real -> real, baseline: seq<real>, current: seq<real>, nBins: int)
    ensures var r := Psi(ln, baseline, current, nBins);
            && (r.InsufficientData? <==> |baseline| < 30 || |current| < 30)
            && (r.DivisionByZero? <==> |baseline| >= 30 && |current| >= 30 && nBins == 0)
            && (nBins < 0 && r.PsiResult? ==> r.binEdges == [] && r.psiValue == 0.0)
  {
  }

  /**
   * The classification: a significant shift above 0.25, a moderate one above 0.1 and up to 0.25, never both, and
   * neither when the shares agree.
   */
  lemma PsiClassifies(ln: real -> real, baseline: seq<real>, current: seq<real>, nBins: int)
    requires IsLog(ln) && |baseline| >= 30 && |current| >= 30 && nBins > 0
    ensures var r := Psi(ln, baseline, current, nBins);
            && (r.isSignificantShift <==> r.psiValue > 0.25)
            && (r.isModerateShift <==> 0.1 < r.psiValue <= 0.25)
            && !(r.isSignificantShift && r.isModerateShift)
            && (SharesOf(baseline, r.binEdges) == SharesOf(current, r.binEdges) ==>
                  !r.isSignificantShift && !r.isModerateShift)
  {
    var span := Span(baseline);
    SpanIsProper(baseline);
    EdgesIncrease(span, nBins);
    ClippingBaselineChangesNothing(baseline);
    DistributionIsShares(span, baseline, Edges(span, nBins));
    DistributionIsShares(span, current, Edges(span, nBins));
    PsiIsDivergence(ln, baseline, current, nBins);
  }

  // ---------------------------------------------------------------------------------------------
  // Order of the samples

  lemma SpanIgnoresOrder(s: seq<real>, t: seq<real>)
    requires s != [] && t != [] && multiset(s) == multiset(t)
    ensures Span(s) == Span(t)
  {
    MinIsLeast(s);
    MinIsLeast(t);
    MaxIsGreatest(s);
    MaxIsGreatest(t);
    assert forall x :: x in s <==> x in multiset(s);
    assert forall x :: x in t <==> x in multiset(t);
  }

  lemma DistributionIgnoresOrder(s: seq<real>, t: seq<real>, edges: seq<real>)
    requires s != [] && t != [] && multiset(s) == multiset(t)
    ensures Distribution(s, edges) == Distribution(t, edges)
  {
    assert |s| == |multiset(s)| && |t| == |multiset(t)|;
    forall i | 0 <= i < Bins(edges)
      ensures Distribution(s, edges)[i] == Distribution(t, edges)[i]
    {
      FilterIgnoresOrder(s, t, GoesTo(edges, i));
    }
  }

  function HitsValue(f: real -> real, u: real): real -> bool {
    x => f(x) == u
  }

  lemma MapKeepsOrderless(s: seq<real>, t: seq<real>, f: real -> real)
    requires multiset(s) == multiset(t)
    ensures multiset(Map(s, f)) == multiset(Map(t, f))
  {
    forall u
      ensures multiset(Map(s, f))[u] == multiset(Map(t, f))[u]
    {
      CountOfImage(s, f, u);
      CountOfImage(t, f, u);
      FilterIgnoresOrder(s, t, HitsValue(f, u));
    }
    assert multiset(Map(s, f)) == multiset(Map(t, f));
  }

  lemma {:induction false} CountOfImage(s: seq<real>, f: real -> real, u: real)
    ensures multiset(Map(s, f))[u] == |Filter(s, HitsValue(f, u))|
  {
    if s != [] {
      var front, x := s[..|s| - 1], s[|s| - 1];
      CountOfImage(front, f, u);
      assert Map(s, f) == Map(front, f) + [f(x)];
    }
  }

  /** The result does not depend on the order of the samples, in either distribution. */
  lemma PsiIgnoresOrder(
    ln: real -> real, baseline: seq<real>, current: seq<real>, baseline': seq<real>, current': seq<real>, nBins: int)
    requires multiset(baseline) == multiset(baseline') && multiset(current) == multiset(current')
    ensures Psi(ln, baseline', current', nBins) == Psi(ln, baseline, current, nBins)
  {
    assert |baseline| == |multiset(baseline)| && |baseline'| == |multiset(baseline')|;
    assert |current| == |multiset(current)| && |current'| == |multiset(current')|;
    if |baseline| >= MIN_SAMPLES_FOR_PSI && |current| >= MIN_SAMPLES_FOR_PSI && nBins != 0 {
      SpanIgnoresOrder(baseline, baseline');
      var span := Span(baseline);
      var edges := Edges(span, nBins);
      DistributionIgnoresOrder(baseline, baseline', edges);
      MapKeepsOrderless(current, current', v => Clip(span, v));
      DistributionIgnoresOrder(ClipAll(span, current), ClipAll(span, current'), edges);
    }
  }

  // ---------------------------------------------------------------------------------------------
  // Shift and scale

  /** A change of unit. */
  datatype Change = Change(scale: real, shift: real) {
    function Of(v: real): real {
      scale * v + shift
    }

    function OfAll(s: seq<real>): (r: seq<real>)
      ensures |r| == |s| && forall i :: 0 <= i < |s| ==> r[i] == Of(s[i])
    {
      seq(|s|, i requires 0 <= i < |s| => Of(s[i]))
    }

    function OfInterval(s: Interval): Interval {
      Interval(Of(s.lo), Of(s.hi))
    }
  }

  lemma ChangeKeepsOrder(c: Change, x: real, y: real)
    requires c.scale > 0.0
    ensures x < y <==> c.Of(x) < c.Of(y)
    ensures x == y <==> c.Of(x) == c.Of(y)
  {
    if x < y {
      PositiveTimes(y - x, c.scale);
    } else if y < x {
      PositiveTimes(x - y, c.scale);
    }
  }

  lemma {:induction false} ExtremesOfChanged(c: Change, s: seq<real>)
    requires c.scale > 0.0 && s != []
    ensures Min(c.OfAll(s)) == c.Of(Min(s)) && Max(c.OfAll(s)) == c.Of(Max(s))
  {
    if |s| > 1 {
      var front, x := s[..|s| - 1], s[|s| - 1];
      assert c.OfAll(s)[..|s| - 1] == c.OfAll(front);
      ExtremesOfChanged(c, front);
      ChangeKeepsOrder(c, x, Min(front));
      ChangeKeepsOrder(c, Max(front), x);
    }
  }

  /** The one case left out: a baseline of equal values, whose margin of 0.01 does not scale with it. */
  predicate Scales(c: Change, baseline: seq<real>) {
    c.scale > 0.0 && (c.scale == 1.0 || exists x, y :: x in baseline && y in baseline && x != y)
  }

  lemma SpanOfChanged(c: Change, baseline: seq<real>)
    requires baseline != [] && Scales(c, baseline)
    ensures Span(c.OfAll(baseline)) == c.OfInterval(Span(baseline))
  {
    ExtremesOfChanged(c, baseline);
    MinIsLeast(baseline);
    MaxIsGreatest(baseline);
    ChangeKeepsOrder(c, Min(baseline), Max(baseline));
  }

  lemma EdgeOfChanged(c: Change, lo: real, hi: real, n: real, k: nat)
    requires n > 0.0
    ensures EdgeAt(c.Of(lo), (c.Of(hi) - c.Of(lo)) / n, k) == c.Of(EdgeAt(lo, (hi - lo) / n, k))
  {
    var width := (hi - lo) / n;
    var width' := (c.Of(hi) - c.Of(lo)) / n;
    assert width' == c.scale * width by {
      assert c.Of(hi) - c.Of(lo) == c.scale * (hi - lo);
    }
    assert k as real * (c.scale * width) == c.scale * (k as real * width);
    assert c.scale * (lo + k as real * width) == c.scale * lo + c.scale * (k as real * width);
  }

  lemma EdgesOfChanged(c: Change, span: Interval, nBins: int)
    requires nBins != 0
    ensures Edges(c.OfInterval(span), nBins) == c.OfAll(Edges(span, nBins))
  {
    if nBins > 0 {
      forall k | 0 <= k <= nBins
        ensures Edges(c.OfInterval(span), nBins)[k] == c.OfAll(Edges(span, nBins))[k]
      {
        EdgeOfChanged(c, span.lo, span.hi, nBins as real, k);
      }
    }
  }

  lemma {:induction false} FirstBinOfChanged(c: Change, v: real, edges: seq<real>, i: nat)
    requires c.scale > 0.0
    ensures FirstBin(c.Of(v), c.OfAll(edges), i) == FirstBin(v, edges, i)
    decreases |edges| - i
  {
    if i + 1 < |edges| {
      ChangeKeepsOrder(c, v, edges[i]);
      ChangeKeepsOrder(c, v, edges[i + 1]);
      FirstBinOfChanged(c, v, edges, i + 1);
    }
  }

  /** Value by value, the two samples fall in the same bins. */
  ghost predicate SameBins(s: seq<real>, edges: seq<real>, s': seq<real>, edges': seq<real>) {
    && |s| == |s'| && |edges| == |edges'|
    && forall k :: 0 <= k < |s| ==> FirstBin(s[k], edges, 0) == FirstBin(s'[k], edges', 0)
  }

  lemma {:induction false} SameBinsSameCount(
    s: seq<real>, edges: seq<real>, s': seq<real>, edges': seq<real>, i: nat)
    requires SameBins(s, edges, s', edges')
    ensures CountIn(s, edges, i) == CountIn(s', edges', i)
  {
    if s != [] {
      SameBinsSameCount(s[..|s| - 1], edges, s'[..|s| - 1], edges', i);
      assert FirstBin(s[|s| - 1], edges, 0) == FirstBin(s'[|s| - 1], edges', 0);
    }
  }

  lemma SameBinsSameDistribution(s: seq<real>, edges: seq<real>, s': seq<real>, edges': seq<real>)
    requires s != [] && SameBins(s, edges, s', edges')
    ensures Distribution(s, edges) == Distribution(s', edges')
  {
    forall i | 0 <= i < Bins(edges)
      ensures Distribution(s, edges)[i] == Distribution(s', edges')[i]
    {
      SameBinsSameCount(s, edges, s', edges', i);
    }
  }

  lemma DistributionOfChanged(c: Change, values: seq<real>, edges: seq<real>)
    requires c.scale > 0.0 && values != []
    ensures Distribution(c.OfAll(values), c.OfAll(edges)) == Distribution(values, edges)
  {
    forall k | 0 <= k < |values|
      ensures FirstBin(c.OfAll(values)[k], c.OfAll(edges), 0) == FirstBin(values[k], edges, 0)
    {
      FirstBinOfChanged(c, values[k], edges, 0);
    }
    SameBinsSameDistribution(c.OfAll(values), c.OfAll(edges), values, edges);
  }

  lemma ClipOfChanged(c: Change, span: Interval, values: seq<real>)
    requires c.scale > 0.0
    ensures ClipAll(c.OfInterval(span), c.OfAll(values)) == c.OfAll(ClipAll(span, values))
  {
    forall i | 0 <= i < |values|
      ensures Clip(c.OfInterval(span), c.Of(values[i])) == c.Of(Clip(span, values[i]))
    {
      ChangeKeepsOrder(c, values[i], span.hi);
      ChangeKeepsOrder(c, span.lo, values[i]);
      ChangeKeepsOrder(c, span.lo, span.hi);
    }
  }

  /** Changing the unit of both samples moves the edges and nothing else. */
  lemma PsiIgnoresUnit(ln: real -> real, c: Change, baseline: seq<real>, current: seq<real>, nBins: int)
    requires Scales(c, baseline)
    ensures var r, r' := Psi(ln, baseline, current, nBins), Psi(ln, c.OfAll(baseline), c.OfAll(current), nBins);
            r' == if r.PsiResult? then r.(binEdges := c.OfAll(r.binEdges)) else r
  {
    if |baseline| >= MIN_SAMPLES_FOR_PSI && |current| >= MIN_SAMPLES_FOR_PSI && nBins != 0 {
      var span := Span(baseline);
      var edges := Edges(span, nBins);
      SpanOfChanged(c, baseline);
      EdgesOfChanged(c, span, nBins);
      DistributionOfChanged(c, baseline, edges);
      ClipOfChanged(c, span, current);
      DistributionOfChanged(c, ClipAll(span, current), edges);
    }
  }

  // ---------------------------------------------------------------------------------------------
  // The unit of a constant baseline

  predicate Constant(s: seq<real>, x: real) {
    forall i :: 0 <= i < |s| ==> s[i] == x
  }

  lemma SharesOfAllAndNone(n: nat)
    requires n > 0
    ensures Share(n, n) == 1.0 && Share(0, n) == FLOOR
  {
    assert n as real / n as real == 1.0;
    assert 0.0 / n as real == 0.0;
  }

  lemma CountOfConstant(values: seq<real>, x: real, edges: seq<real>, i: nat)
    requires Constant(values, x)
    ensures CountIn(values, edges, i) == if FirstBin(x, edges, 0) == Some(i) then |values| else 0
  {
    assert forall v :: v in values ==> v == x;
    if FirstBin(x, edges, 0) == Some(i) {
      FilterAll(values, GoesTo(edges, i));
    } else {
      FilterNone(values, GoesTo(edges, i));
    }
  }

  /** Values that are all equal put everything in one bin. */
  lemma DistributionOfConstant(values: seq<real>, x: real, edges: seq<real>)
    requires values != [] && Constant(values, x)
    ensures forall i :: 0 <= i < Bins(edges) ==>
      Distribution(values, edges)[i] == if FirstBin(x, edges, 0) == Some(i) then 1.0 else FLOOR
  {
    SharesOfAllAndNone(|values|);
    forall i | 0 <= i < Bins(edges)
      ensures Distribution(values, edges)[i] == if FirstBin(x, edges, 0) == Some(i) then 1.0 else FLOOR
    {
      CountOfConstant(values, x, edges, i);
      assert Distribution(values, edges)[i] == Share(CountIn(values, edges, i), |values|);
    }
  }

  /** Two constant samples have the same distribution exactly when they share a bin. */
  lemma ConstantsAgreeIffSameBin(s: seq<real>, x: real, t: seq<real>, y: real, edges: seq<real>)
    requires s != [] && t != [] && Constant(s, x) && Constant(t, y)
    requires FirstBin(x, edges, 0).Some? && FirstBin(x, edges, 0).value < Bins(edges)
    ensures Distribution(s, edges) == Distribution(t, edges) <==> FirstBin(x, edges, 0) == FirstBin(y, edges, 0)
  {
    DistributionOfConstant(s, x, edges);
    DistributionOfConstant(t, y, edges);
    var i := FirstBin(x, edges, 0).value;
    assert Distribution(s, edges)[i] == 1.0;
  }

  function Around(x: real): Interval {
    Interval(x - 0.01, x + 0.01)
  }

  lemma SpanOfConstant(baseline: seq<real>, x: real)
    requires baseline != [] && Constant(baseline, x)
    ensures Span(baseline) == Around(x)
  {
    MinIsLeast(baseline);
    MaxIsGreatest(baseline);
  }

  /** Where the bin that holds a constant baseline ends, as an offset from the baseline. */
  function Reach(nBins: int): real
    requires nBins > 0
  {
    if nBins % 2 == 0 then 0.02 / nBins as real else 0.01 / nBins as real
  }

  lemma WidthTimes(n: int, w: real)
    requires n > 0 && w == 0.02 / n as real
    ensures w > 0.0 && (n / 2) as real * w == if n % 2 == 0 then 0.01 else 0.01 - w / 2.0
  {
    var half := (n / 2) as real;
    SignOfQuotient(0.02, n as real);
    assert n as real * w == 0.02;
    if n % 2 == 0 {
      assert n as real == 2.0 * half;
      assert (2.0 * half) * w == 2.0 * (half * w);
    } else {
      assert n as real == 2.0 * half + 1.0;
      assert (2.0 * half + 1.0) * w == 2.0 * (half * w) + w;
    }
  }

  lemma WidthIsBelow(n: int, w: real)
    requires n >= 3 && w == 0.02 / n as real
    ensures w < 0.01 || n % 2 == 1
    ensures w < 0.02
  {
    assert n as real * w == 0.02;
    if n >= 4 {
      SignOfQuotient(0.02, n as real);
      assert n as real * w >= 4.0 * w;
    }
  }

  /** With three bins or more, the middle one ends before the last one does. */
  lemma MiddleBin(x: real, nBins: int)
    requires nBins >= 3
    ensures var m, edges := nBins / 2, Edges(Around(x), nBins);
            && 0.0 < Reach(nBins) < 0.01 && m + 2 <= nBins
            && edges[m] <= x && edges[m + 1] == x + Reach(nBins) && Increasing(edges)
  {
    var n, m := nBins as real, nBins / 2;
    var w := 0.02 / n;
    WidthTimes(nBins, w);
    WidthIsBelow(nBins, w);
    EdgesIncrease(Around(x), nBins);
    assert (Around(x).hi - Around(x).lo) / n == w;
    assert (m + 1) as real * w == m as real * w + w;
    assert 0.01 / n == w / 2.0;
  }

  /** The middle bin holds the offsets below its reach, the next one the reach itself. */
  lemma BinOfOffset(x: real, d: real, nBins: int)
    requires nBins >= 3 && 0.0 <= d <= Reach(nBins)
    ensures FirstBin(x + d, Edges(Around(x), nBins), 0)
         == Some(if d < Reach(nBins) then nBins / 2 else nBins / 2 + 1)
    ensures Clip(Around(x), x + d) == x + d
  {
    var edges, m := Edges(Around(x), nBins), nBins / 2;
    MiddleBin(x, nBins);
    EdgesIncrease(Around(x), nBins);
    FirstBinIsTheBin(x + d, edges, 0);
    assert FallsIn(x + d, edges, if d < Reach(nBins) then m else m + 1);
  }

  /** With every baseline value `x` and every current value `x + d`, the index tells whether `d` is the reach. */
  lemma PsiOfTwoPoints(
    ln: real -> real, baseline: seq<real>, current: seq<real>, x: real, d: real, nBins: int)
    requires IsLog(ln) && |baseline| >= MIN_SAMPLES_FOR_PSI && |current| >= MIN_SAMPLES_FOR_PSI
    requires Constant(baseline, x) && Constant(current, x + d)
    requires nBins >= 3 && 0.0 <= d <= Reach(nBins)
    ensures Psi(ln, baseline, current, nBins).PsiResult?
    ensures Psi(ln, baseline, current, nBins).psiValue == 0.0 <==> d < Reach(nBins)
  {
    MiddleBin(x, nBins);
    SpanOfConstant(baseline, x);
    BinOfOffset(x, 0.0, nBins);
    BinOfOffset(x, d, nBins);
    ConstantsAgreeIffSameBin(baseline, x, ClipAll(Around(x), current), x + d, Edges(Around(x), nBins));
    PsiIsDivergence(ln, baseline, current, nBins);
  }

  lemma Shrinks(a: real, gap: real)
    requires 0.0 < a < 1.0 && gap > 0.0
    ensures 0.0 < a * gap < gap
  {
    PositiveTimes(1.0 - a, gap);
  }

  lemma ShrinksBack(a: real, gap: real)
    requires a > 1.0 && gap > 0.0
    ensures 0.0 < gap / a < gap && a * (gap / a) == gap
  {
    SignOfQuotient(gap, a);
    PositiveTimes(a - 1.0, gap / a);
  }

  lemma ConstantOfChanged(c: Change, s: seq<real>, x: real, d: real, d': real)
    requires Constant(s, x + d) && d' == c.scale * d
    ensures Constant(c.OfAll(s), c.Of(x) + d')
  {
    assert c.Of(x + d) == c.Of(x) + c.scale * d;
  }

  /** The index before and after the change, when the change takes offset `d` to `d'` across the edge of a bin. */
  lemma OffsetsDiffer(
    ln: real -> real, s: seq<real>, t: seq<real>, x: real, d: real,
    s': seq<real>, t': seq<real>, x': real, d': real, nBins: int)
    requires IsLog(ln) && nBins >= 3
    requires |s| >= MIN_SAMPLES_FOR_PSI && |t| >= MIN_SAMPLES_FOR_PSI && Constant(s, x) && Constant(t, x + d)
    requires |s'| >= MIN_SAMPLES_FOR_PSI && |t'| >= MIN_SAMPLES_FOR_PSI && Constant(s', x') && Constant(t', x' + d')
    requires 0.0 <= d <= Reach(nBins) && 0.0 <= d' <= Reach(nBins) && (d < Reach(nBins) <==> d' == Reach(nBins))
    ensures var r, r' := Psi(ln, s, t, nBins), Psi(ln, s', t', nBins);
            r.PsiResult? && r'.PsiResult? && r.psiValue != r'.psiValue
  {
    PsiOfTwoPoints(ln, s, t, x, d, nBins);
    PsiOfTwoPoints(ln, s', t', x', d', nBins);
  }

  lemma ConstantBaselineFeelsScale(ln: real -> real, c: Change, baseline: seq<real>, nBins: int)
    returns (current: seq<real>)
    requires IsLog(ln) && |baseline| >= MIN_SAMPLES_FOR_PSI && nBins >= 3
    requires c.scale > 0.0 && !Scales(c, baseline)
    ensures !SamePsi(ln, c, baseline, current, nBins)
  {
    var x, gap := baseline[0], Reach(nBins);
    MiddleBin(x, nBins);
    var d, d' := gap, gap;
    if c.scale < 1.0 {
      Shrinks(c.scale, gap);
      d' := c.scale * gap;
    } else {
      ShrinksBack(c.scale, gap);
      d := gap / c.scale;
    }
    UnscaledIsConstant(c, baseline);
    current := seq(MIN_SAMPLES_FOR_PSI, _ => x + d);
    ConstantOfChanged(c, current, x, d, d');
    OffsetsDiffer(ln, baseline, current, x, d, c.OfAll(baseline), c.OfAll(current), c.Of(x), d', nBins);
  }

  lemma UnscaledIsConstant(c: Change, baseline: seq<real>)
    requires baseline != [] && c.scale > 0.0 && !Scales(c, baseline)
    ensures Constant(baseline, baseline[0])
  {
    assert forall i :: 0 <= i < |baseline| ==> baseline[i] in baseline;
  }

  // ---------------------------------------------------------------------------------------------
  // One or two bins

  /** With two bins around a point the bin tells on which side of it a value lies; with one it tells nothing. */
  lemma BinAmongFew(x: real, v: real, nBins: int)
    requires 1 <= nBins <= 2
    ensures FirstBin(Clip(Around(x), v), Edges(Around(x), nBins), 0) == Some(if nBins == 2 && v >= x then 1 else 0)
  {
    var edges, u := Edges(Around(x), nBins), Clip(Around(x), v);
    EdgesIncrease(Around(x), nBins);
    FirstBinIsTheBin(u, edges, 0);
    if nBins == 2 {
      assert edges[1] == x;
    }
    assert FallsIn(u, edges, if nBins == 2 && v >= x then 1 else 0);
  }

  lemma FewBinsOfChanged(c: Change, x: real, values: seq<real>, nBins: int)
    requires c.scale > 0.0 && 1 <= nBins <= 2
    ensures SameBins(
              ClipAll(Around(x), values), Edges(Around(x), nBins),
              ClipAll(Around(c.Of(x)), c.OfAll(values)), Edges(Around(c.Of(x)), nBins))
  {
    forall k | 0 <= k < |values|
      ensures FirstBin(Clip(Around(x), values[k]), Edges(Around(x), nBins), 0)
           == FirstBin(Clip(Around(c.Of(x)), c.Of(values[k])), Edges(Around(c.Of(x)), nBins), 0)
    {
      BinAmongFew(x, values[k], nBins);
      BinAmongFew(c.Of(x), c.Of(values[k]), nBins);
      ChangeKeepsOrder(c, values[k], x);
    }
  }

  lemma FewBinsIgnoreUnit(
    ln: real -> real, c: Change, baseline: seq<real>, x: real, current: seq<real>, nBins: int)
    requires c.scale > 0.0 && baseline != [] && Constant(baseline, x) && nBins <= 2
    ensures SamePsi(ln, c, baseline, current, nBins)
  {
    if |baseline| >= MIN_SAMPLES_FOR_PSI && |current| >= MIN_SAMPLES_FOR_PSI && nBins > 0 {
      var baseline', current', x' := c.OfAll(baseline), c.OfAll(current), c.Of(x);
      SpanOfConstant(baseline, x);
      SpanOfConstant(baseline', x');
      FewBinsOfChanged(c, x, baseline, nBins);
      FewBinsOfChanged(c, x, current, nBins);
      assert ClipAll(Around(x), baseline) == baseline && ClipAll(Around(x'), baseline') == baseline';
      var edges, edges' := Edges(Around(x), nBins), Edges(Around(x'), nBins);
      SameBinsSameDistribution(baseline, edges, baseline', edges');
      SameBinsSameDistribution(ClipAll(Around(x), current), edges, ClipAll(Around(x'), current'), edges');
    }
  }

  /** Whether both computations give an index, and the same one, or fail alike. */
  predicate SamePsi(ln: real -> real, c: Change, baseline: seq<real>, current: seq<real>, nBins: int) {
    var r, r' := Psi(ln, baseline, current, nBins), Psi(ln, c.OfAll(baseline), c.OfAll(current), nBins);
    if r.PsiResult? then r'.PsiResult? && r'.psiValue == r.psiValue else r' == r
  }

  /**
   * The index is independent of the unit exactly when there is too little baseline to compute it, or the baseline is
   * not constant, or the change is a mere shift, or there are at most two bins.
   */
  lemma UnitMattersIffBaselineConstant(ln: real -> real, c: Change, baseline: seq<real>, nBins: int)
    requires IsLog(ln) && c.scale > 0.0
    ensures (|baseline| < MIN_SAMPLES_FOR_PSI || Scales(c, baseline) || nBins <= 2)
            <==> forall current :: SamePsi(ln, c, baseline, current, nBins)
  {
    if Scales(c, baseline) {
      forall current
        ensures SamePsi(ln, c, baseline, current, nBins)
      {
        PsiIgnoresUnit(ln, c, baseline, current, nBins);
      }
    } else if |baseline| >= MIN_SAMPLES_FOR_PSI && nBins <= 2 {
      UnscaledIsConstant(c, baseline);
      forall current
        ensures SamePsi(ln, c, baseline, current, nBins)
      {
        FewBinsIgnoreUnit(ln, c, baseline, baseline[0], current, nBins);
      }
    } else if |baseline| >= MIN_SAMPLES_FOR_PSI {
      var current := ConstantBaselineFeelsScale(ln, c, baseline, nBins);
    }
  }
}
