/**
 * Cosine similarity and the bag-of-words embedder (src/simulacrum/attribution/embedding.py), over exact reals.
 * The square root is any function with the two defining properties; the word hash is any function.
 */
module Embeddings {
  import opened Common
  import opened CalibrationReports

  type Vector = seq<real>

  /** `root` takes a number that is not negative to its square root that is not negative. */
  ghost predicate IsRoot(root: real -> real) {
    forall x :: x >= 0.0 ==> root(x) >= 0.0 && root(x) * root(x) == x
  }

  function Shorter(a: Vector, b: Vector): nat {
    if |a| <= |b| then |a| else |b|
  }

  /** The products of the first `n` pairs, added up. */
  function DotUpTo(a: Vector, b: Vector, n: nat): real
    requires n <= |a| && n <= |b|
  {
    if n == 0 then 0.0 else DotUpTo(a, b, n - 1) + a[n - 1] * b[n - 1]
  }

  /** `zip` stops at the shorter vector. */
  function Dot(a: Vector, b: Vector): real {
    DotUpTo(a, b, Shorter(a, b))
  }

  function SumSquares(a: Vector): real {
    DotUpTo(a, a, |a|)
  }

  lemma ProductIsNotZero(x: real, y: real)
    requires x != 0.0 && y != 0.0
    ensures x * y != 0.0
  {
  }

  /** A dot product over two norms; 0 when either vector is null. */
  function Normalised(dot: real, normA: real, normB: real): real {
    if normA == 0.0 || normB == 0.0 then 0.0
    else
      ProductIsNotZero(normA, normB);
      dot / (normA * normB)
  }

  function CosineSimilarity(root: real -> real, a: Vector, b: Vector): real {
    Normalised(Dot(a, b), root(SumSquares(a)), root(SumSquares(b)))
  }

  // ---------------------------------------------------------------------------------------------
  // Cauchy-Schwarz

  /** The squares of `p * a[i] - q * b[i]`, added up. */
  function CombinedSquares(a: Vector, b: Vector, p: real, q: real, n: nat): real
    requires n <= |a| && n <= |b|
  {
    if n == 0 then 0.0 else CombinedSquares(a, b, p, q, n - 1) + Square(p * a[n - 1] - q * b[n - 1])
  }

  /** What that sum is, by the three products. */
  function Quadratic(aa: real, ab: real, bb: real, p: real, q: real): real {
    p * p * aa - 2.0 * (p * q * ab) + q * q * bb
  }

  lemma ExpandCombination(p: real, q: real, x: real, y: real)
    ensures Square(p * x - q * y) == Quadratic(x * x, x * y, y * y, p, q)
  {
    var u, v := p * x, q * y;
    assert u * u == p * p * (x * x);
    assert v * v == q * q * (y * y);
    assert u * v == p * q * (x * y);
    assert Square(u - v) == u * u - 2.0 * (u * v) + v * v;
  }

  lemma QuadraticIsAdditive(aa: real, ab: real, bb: real, aa': real, ab': real, bb': real, p: real, q: real)
    ensures Quadratic(aa, ab, bb, p, q) + Quadratic(aa', ab', bb', p, q)
         == Quadratic(aa + aa', ab + ab', bb + bb', p, q)
  {
    Distribute(p * p, aa, aa');
    Distribute(p * q, ab, ab');
    Distribute(q * q, bb, bb');
  }

  lemma {:induction false} CombinedSquaresAreQuadratic(a: Vector, b: Vector, p: real, q: real, n: nat)
    requires n <= |a| && n <= |b|
    ensures CombinedSquares(a, b, p, q, n) == Quadratic(DotUpTo(a, a, n), DotUpTo(a, b, n), DotUpTo(b, b, n), p, q)
    ensures CombinedSquares(a, b, p, q, n) >= 0.0
  {
    if n > 0 {
      var x, y := a[n - 1], b[n - 1];
      CombinedSquaresAreQuadratic(a, b, p, q, n - 1);
      ExpandCombination(p, q, x, y);
      QuadraticIsAdditive(
        DotUpTo(a, a, n - 1), DotUpTo(a, b, n - 1), DotUpTo(b, b, n - 1), x * x, x * y, y * y, p, q);
      SquareIsNotNegative(p * x - q * y);
    }
  }

  lemma {:induction false} SumSquaresGrows(a: Vector, m: nat, n: nat)
    requires m <= n <= |a|
    ensures 0.0 <= DotUpTo(a, a, m) <= DotUpTo(a, a, n)
  {
    if n > 0 {
      if m < n {
        SumSquaresGrows(a, m, n - 1);
      } else {
        SumSquaresGrows(a, m - 1, n - 1);
      }
      SquareIsNotNegative(a[n - 1]);
    }
  }

  /** From `2 * na * nb * d <= na^2 * nb^2 + nb^2 * na^2`. */
  lemma BoundByNorms(na: real, nb: real, aa: real, bb: real, d: real)
    requires na > 0.0 && nb > 0.0 && aa <= na * na && bb <= nb * nb
    requires Quadratic(aa, d, bb, nb, na) >= 0.0
    ensures d <= na * nb
  {
    var w := na * nb;
    assert w > 0.0;
    assert nb * nb * aa <= w * w by {
      assert nb * nb * aa <= nb * nb * (na * na);
      assert nb * nb * (na * na) == w * w;
    }
    assert na * na * bb <= w * w by {
      assert na * na * bb <= na * na * (nb * nb);
      assert na * na * (nb * nb) == w * w;
    }
    assert nb * na * d == w * d;
    assert w * (w - d) >= 0.0;
  }

  lemma NegatedQuadratic(aa: real, d: real, bb: real, p: real, q: real)
    ensures Quadratic(aa, d, bb, p, -q) == Quadratic(aa, -d, bb, p, q)
  {
    assert p * -q == -(p * q) && -q * -q == q * q;
    assert p * -q * d == p * q * -d;
  }

  /** |a . b| is at most the product of the norms, also when `zip` cuts one vector short. */
  lemma DotIsBoundedByNorms(a: Vector, b: Vector, na: real, nb: real)
    requires na > 0.0 && nb > 0.0 && na * na == SumSquares(a) && nb * nb == SumSquares(b)
    ensures -(na * nb) <= Dot(a, b) <= na * nb
  {
    var n := Shorter(a, b);
    var aa, d, bb := DotUpTo(a, a, n), Dot(a, b), DotUpTo(b, b, n);
    SumSquaresGrows(a, n, |a|);
    SumSquaresGrows(b, n, |b|);
    CombinedSquaresAreQuadratic(a, b, nb, na, n);
    BoundByNorms(na, nb, aa, bb, d);
    CombinedSquaresAreQuadratic(a, b, nb, -na, n);
    NegatedQuadratic(aa, d, bb, nb, na);
    BoundByNorms(na, nb, aa, bb, -d);
  }

  lemma QuotientWithinOne(d: real, w: real)
    requires w > 0.0 && -w <= d <= w
    ensures -1.0 <= d / w <= 1.0
    ensures d >= 0.0 ==> d / w >= 0.0
  {
    var q := d / w;
    assert q * w == d;
    SignOfFactor(1.0 - q, w);
    SignOfFactor(q + 1.0, w);
    if d >= 0.0 {
      SignOfFactor(q, w);
    }
  }

  lemma SignOfFactor(q: real, w: real)
    requires w > 0.0 && q * w >= 0.0
    ensures q >= 0.0
  {
    if q < 0.0 {
      PositiveProduct(-q, w);
    }
  }

  /** For all vectors, of whatever lengths, cosine similarity lies in [-1, 1]. */
  lemma CosineIsWithinOne(root: real -> real, a: Vector, b: Vector)
    requires IsRoot(root)
    ensures -1.0 <= CosineSimilarity(root, a, b) <= 1.0
    ensures Dot(a, b) >= 0.0 ==> CosineSimilarity(root, a, b) >= 0.0
  {
    var na, nb := root(SumSquares(a)), root(SumSquares(b));
    SumSquaresGrows(a, 0, |a|);
    SumSquaresGrows(b, 0, |b|);
    assert na >= 0.0 && na * na == SumSquares(a) && nb >= 0.0 && nb * nb == SumSquares(b);
    if na != 0.0 && nb != 0.0 {
      DotIsBoundedByNorms(a, b, na, nb);
    }
    NormalisedIsWithinOne(Dot(a, b), na, nb);
  }

  lemma NormalisedIsWithinOne(d: real, na: real, nb: real)
    requires na >= 0.0 && nb >= 0.0 && (na != 0.0 && nb != 0.0 ==> -(na * nb) <= d <= na * nb)
    ensures -1.0 <= Normalised(d, na, nb) <= 1.0
    ensures d >= 0.0 ==> Normalised(d, na, nb) >= 0.0
  {
    if na != 0.0 && nb != 0.0 {
      PositiveProduct(na, nb);
      QuotientWithinOne(d, na * nb);
    }
  }

  lemma PositiveProduct(x: real, y: real)
    requires x > 0.0 && y > 0.0
    ensures x * y > 0.0
  {
  }

  // ---------------------------------------------------------------------------------------------
  // Symmetry and scaling

  lemma {:induction false} DotIsSymmetric(a: Vector, b: Vector, n: nat)
    requires n <= |a| && n <= |b|
    ensures DotUpTo(a, b, n) == DotUpTo(b, a, n)
  {
    if n > 0 {
      DotIsSymmetric(a, b, n - 1);
    }
  }

  lemma NormalisedIsSymmetric(d: real, na: real, nb: real)
    ensures Normalised(d, na, nb) == Normalised(d, nb, na)
  {
    assert na * nb == nb * na;
  }

  lemma CosineIsSymmetric(root: real -> real, a: Vector, b: Vector)
    ensures CosineSimilarity(root, a, b) == CosineSimilarity(root, b, a)
  {
    DotIsSymmetric(a, b, Shorter(a, b));
    NormalisedIsSymmetric(Dot(a, b), root(SumSquares(a)), root(SumSquares(b)));
  }

  function Scale(c: real, a: Vector): (r: Vector)
    ensures |r| == |a| && forall i :: 0 <= i < |a| ==> r[i] == c * a[i]
  {
    seq(|a|, i requires 0 <= i < |a| => c * a[i])
  }

  lemma {:induction false} DotOfScaled(c: real, a: Vector, b: Vector, n: nat)
    requires n <= |a| && n <= |b|
    ensures DotUpTo(Scale(c, a), b, n) == c * DotUpTo(a, b, n)
  {
    if n > 0 {
      DotOfScaled(c, a, b, n - 1);
      assert c * a[n - 1] * b[n - 1] == c * (a[n - 1] * b[n - 1]);
      Distribute(c, DotUpTo(a, b, n - 1), a[n - 1] * b[n - 1]);
    }
  }

  lemma SumSquaresOfScaled(c: real, a: Vector)
    ensures SumSquares(Scale(c, a)) == c * (c * SumSquares(a))
  {
    var ca := Scale(c, a);
    DotOfScaled(c, a, ca, |a|);
    DotIsSymmetric(a, ca, |a|);
    DotOfScaled(c, a, a, |a|);
  }

  lemma RootsAreUnique(x: real, y: real)
    requires x >= 0.0 && y >= 0.0 && x * x == y * y
    ensures x == y
  {
    if x < y {
      SquaresKeepOrder(x, y);
    } else if y < x {
      SquaresKeepOrder(y, x);
    }
  }

  lemma SquaresKeepOrder(x: real, y: real)
    requires 0.0 <= x < y
    ensures x * x < y * y
  {
    PositiveProduct(y - x, y);
    assert x * (y - x) >= 0.0;
    assert y * y - x * x == (y - x) * y + x * (y - x);
  }

  lemma NormOfScaled(root: real -> real, c: real, a: Vector)
    requires IsRoot(root) && c > 0.0
    ensures root(SumSquares(Scale(c, a))) == c * root(SumSquares(a))
  {
    var s, s' := SumSquares(a), SumSquares(Scale(c, a));
    SumSquaresGrows(a, 0, |a|);
    SumSquaresGrows(Scale(c, a), 0, |a|);
    SumSquaresOfScaled(c, a);
    var x, y := root(s'), c * root(s);
    assert y >= 0.0;
    assert y * y == c * (c * (root(s) * root(s)));
    RootsAreUnique(x, y);
  }

  lemma QuotientIs(q: real, n: real, w: real)
    requires w != 0.0 && q * w == n
    ensures n / w == q
  {
  }

  lemma NormalisedIgnoresScale(c: real, d: real, na: real, nb: real, d': real, na': real)
    requires c > 0.0 && d' == c * d && na' == c * na
    ensures Normalised(d', na', nb) == Normalised(d, na, nb)
  {
    if na == 0.0 {
      assert na' == 0.0;
    } else if nb != 0.0 {
      ProductIsNotZero(na, nb);
      ProductIsNotZero(c, na);
      ProductIsNotZero(na', nb);
      var q := d / (na * nb);
      assert q * (na * nb) == d;
      assert q * (na' * nb) == d' by {
        assert na' * nb == c * (na * nb);
        assert q * (c * (na * nb)) == c * (q * (na * nb));
      }
      QuotientIs(q, d', na' * nb);
    }
  }

  lemma DotsAndNormsScale(root: real -> real, c: real, a: Vector, b: Vector, x: real)
    requires IsRoot(root) && c > 0.0 && x == root(SumSquares(b))
    ensures Normalised(Dot(Scale(c, a), b), root(SumSquares(Scale(c, a))), x)
         == Normalised(Dot(a, b), root(SumSquares(a)), x)
  {
    var na := root(SumSquares(a));
    var na' := root(SumSquares(Scale(c, a)));
    var d, d' := Dot(a, b), Dot(Scale(c, a), b);
    assert d' == c * d by {
      DotOfScaled(c, a, b, Shorter(a, b));
    }
    assert na' == c * na by {
      NormOfScaled(root, c, a);
    }
    NormalisedIgnoresScale(c, d, na, x, d', na');
  }

  /** Cosine similarity does not see the length of a vector. */
  lemma CosineIgnoresScale(root: real -> real, c: real, a: Vector, b: Vector)
    requires IsRoot(root) && c > 0.0
    ensures CosineSimilarity(root, Scale(c, a), b) == CosineSimilarity(root, a, b)
  {
    DotsAndNormsScale(root, c, a, b, root(SumSquares(b)));
  }

  // ---------------------------------------------------------------------------------------------
  // What cosine similarity is

  predicate IsNull(a: Vector) {
    forall i :: 0 <= i < |a| ==> a[i] == 0.0
  }

  lemma ZeroProduct(x: real, y: real)
    requires x * y == 0.0
    ensures x == 0.0 || y == 0.0
  {
    if x != 0.0 && y != 0.0 {
      ProductIsNotZero(x, y);
    }
  }

  lemma ZeroSquare(x: real)
    requires x * x == 0.0
    ensures x == 0.0
  {
    ZeroProduct(x, x);
  }

  lemma {:induction false} NoSquaresNoVector(a: Vector, n: nat)
    requires n <= |a| && DotUpTo(a, a, n) == 0.0
    ensures forall i :: 0 <= i < n ==> a[i] == 0.0
  {
    if n > 0 {
      SumSquaresGrows(a, 0, n - 1);
      SquareIsNotNegative(a[n - 1]);
      ZeroSquare(a[n - 1]);
      NoSquaresNoVector(a, n - 1);
    }
  }

  lemma {:induction false} NullHasNoSquares(a: Vector, n: nat)
    requires n <= |a| && IsNull(a)
    ensures DotUpTo(a, a, n) == 0.0
  {
    if n > 0 {
      NullHasNoSquares(a, n - 1);
    }
  }

  /** A norm is zero exactly for a null vector. */
  lemma NormIsZeroIffNull(root: real -> real, a: Vector)
    requires IsRoot(root)
    ensures root(SumSquares(a)) >= 0.0 && root(SumSquares(a)) * root(SumSquares(a)) == SumSquares(a)
    ensures root(SumSquares(a)) == 0.0 <==> IsNull(a)
  {
    SumSquaresGrows(a, 0, |a|);
    var norm := root(SumSquares(a));
    assert norm * norm == SumSquares(a);
    if norm == 0.0 {
      NoSquaresNoVector(a, |a|);
    }
    if IsNull(a) {
      NullHasNoSquares(a, |a|);
      ZeroSquare(norm);
    }
  }

  lemma NormalisedTimesNorms(d: real, na: real, nb: real)
    requires na != 0.0 && nb != 0.0
    ensures Normalised(d, na, nb) * (na * nb) == d
  {
    ProductIsNotZero(na, nb);
  }

  /** Taken times the two norms it is the dot product; for a null vector it is 0. */
  lemma CosineTimesNormsIsDot(root: real -> real, a: Vector, b: Vector)
    requires IsRoot(root)
    ensures IsNull(a) || IsNull(b) ==> CosineSimilarity(root, a, b) == 0.0
    ensures CosineSimilarity(root, a, b) * (root(SumSquares(a)) * root(SumSquares(b))) == Dot(a, b)
  {
    var na, nb := root(SumSquares(a)), root(SumSquares(b));
    NormIsZeroIffNull(root, a);
    NormIsZeroIffNull(root, b);
    if na != 0.0 && nb != 0.0 {
      NormalisedTimesNorms(Dot(a, b), na, nb);
    } else {
      NullDotIsZero(a, b, Shorter(a, b));
      ZeroFactor(na, nb);
    }
  }

  lemma ZeroFactor(na: real, nb: real)
    requires na == 0.0 || nb == 0.0
    ensures na * nb == 0.0
  {
  }

  lemma {:induction false} NullDotIsZero(a: Vector, b: Vector, n: nat)
    requires n <= |a| && n <= |b| && (IsNull(a) || IsNull(b))
    ensures DotUpTo(a, b, n) == 0.0
  {
    if n > 0 {
      NullDotIsZero(a, b, n - 1);
      ZeroFactor(a[n - 1], b[n - 1]);
    }
  }

  /** Read from the front: the first pair's product and the dot product of the rest. */
  lemma DotFromFront(a: Vector, b: Vector)
    ensures Dot(a, b) == if a == [] || b == [] then 0.0 else a[0] * b[0] + Dot(a[1..], b[1..])
  {
    if a != [] && b != [] {
      DotUpToFromFront(a, b, Shorter(a, b));
    }
  }

  lemma {:induction false} DotUpToFromFront(a: Vector, b: Vector, n: nat)
    requires 1 <= n <= |a| && n <= |b|
    ensures DotUpTo(a, b, n) == a[0] * b[0] + DotUpTo(a[1..], b[1..], n - 1)
  {
    if n == 1 {
      assert DotUpTo(a, b, 0) == 0.0;
    } else {
      DotUpToFromFront(a, b, n - 1);
    }
  }

  /** A vector has similarity 1 with every positive multiple of itself. */
  lemma ParallelVectorsScoreOne(root: real -> real, a: Vector, c: real)
    requires IsRoot(root) && c > 0.0 && !IsNull(a)
    ensures CosineSimilarity(root, a, Scale(c, a)) == 1.0
  {
    CosineIsSymmetric(root, a, Scale(c, a));
    CosineIgnoresScale(root, c, a, a);
    VectorScoresOneWithItself(root, a);
  }

  lemma VectorScoresOneWithItself(root: real -> real, a: Vector)
    requires IsRoot(root) && !IsNull(a)
    ensures CosineSimilarity(root, a, a) == 1.0
  {
    NormIsZeroIffNull(root, a);
    NormalisedOfOwnSquare(Dot(a, a), root(SumSquares(a)), root(SumSquares(a)));
  }

  lemma NormalisedOfOwnSquare(d: real, n: real, m: real)
    requires n > 0.0 && m > 0.0 && n * m == d
    ensures Normalised(d, n, m) == 1.0
  {
    PositiveProduct(n, m);
    QuotientIs(1.0, d, n * m);
  }

  /** All the squares of `p * a[i] - q * b[i]` vanish when their sum does. */
  lemma {:induction false} CombinedSquaresVanish(a: Vector, b: Vector, p: real, q: real, n: nat)
    requires n <= |a| && n <= |b| && CombinedSquares(a, b, p, q, n) == 0.0
    ensures forall i :: 0 <= i < n ==> p * a[i] == q * b[i]
  {
    if n > 0 {
      CombinedSquaresAreQuadratic(a, b, p, q, n - 1);
      SquareIsNotNegative(p * a[n - 1] - q * b[n - 1]);
      ZeroSquare(p * a[n - 1] - q * b[n - 1]);
      CombinedSquaresVanish(a, b, p, q, n - 1);
    }
  }

  lemma QuadraticAtEquality(na: real, nb: real, d: real)
    requires d == na * nb
    ensures Quadratic(na * na, d, nb * nb, nb, na) == 0.0
  {
    assert nb * nb * (na * na) == d * d;
    assert na * na * (nb * nb) == d * d;
    assert nb * na * d == d * d;
  }

  lemma FactorFromProduct(p: real, x: real, q: real, y: real)
    requires p * x == q * y && q > 0.0
    ensures y == p / q * x
  {
    var c := p / q;
    assert c * q == p;
    assert q * (c * x) == q * y;
    QuotientIs(y, q * y, q);
    QuotientIs(c * x, q * (c * x), q);
  }

  lemma OneTimes(x: real, y: real)
    requires x == 1.0
    ensures x * y == y
  {
  }

  lemma EqualityMakesSquaresVanish(a: Vector, b: Vector, na: real, nb: real)
    requires |a| == |b| && na * na == SumSquares(a) && nb * nb == SumSquares(b) && Dot(a, b) == na * nb
    ensures forall i :: 0 <= i < |a| ==> nb * a[i] == na * b[i]
  {
    CombinedSquaresAreQuadratic(a, b, nb, na, |a|);
    QuadraticAtEquality(na, nb, Dot(a, b));
    CombinedSquaresVanish(a, b, nb, na, |a|);
  }

  lemma ProportionalIsScaled(a: Vector, b: Vector, na: real, nb: real)
    requires |a| == |b| && na > 0.0 && nb > 0.0 && forall i :: 0 <= i < |a| ==> nb * a[i] == na * b[i]
    ensures nb / na > 0.0 && b == Scale(nb / na, a)
  {
    PositiveQuotient(nb, na);
    forall i | 0 <= i < |a|
      ensures b[i] == Scale(nb / na, a)[i]
    {
      FactorFromProduct(nb, a[i], na, b[i]);
    }
  }

  lemma NormsOfScoreOne(root: real -> real, a: Vector, b: Vector)
    requires IsRoot(root) && CosineSimilarity(root, a, b) == 1.0
    ensures var na, nb := root(SumSquares(a)), root(SumSquares(b));
            && na > 0.0 && nb > 0.0 && !IsNull(a)
            && na * na == SumSquares(a) && nb * nb == SumSquares(b) && Dot(a, b) == na * nb
  {
    NormIsZeroIffNull(root, a);
    NormIsZeroIffNull(root, b);
    CosineTimesNormsIsDot(root, a, b);
    OneTimes(CosineSimilarity(root, a, b), root(SumSquares(a)) * root(SumSquares(b)));
  }

  /** Vectors of one length score 1 only if one is a positive multiple of the other. */
  lemma OnlyParallelVectorsScoreOne(root: real -> real, a: Vector, b: Vector) returns (c: real)
    requires IsRoot(root) && |a| == |b| && CosineSimilarity(root, a, b) == 1.0
    ensures c > 0.0 && b == Scale(c, a) && !IsNull(a)
  {
    var na, nb := root(SumSquares(a)), root(SumSquares(b));
    NormsOfScoreOne(root, a, b);
    EqualityMakesSquaresVanish(a, b, na, nb);
    ProportionalIsScaled(a, b, na, nb);
    c := nb / na;
  }

  /** Vectors of one length score 1 exactly if one is a positive multiple of the other, and not null. */
  lemma ScoresOneIffParallel(root: real -> real, a: Vector, b: Vector)
    requires IsRoot(root) && |a| == |b|
    ensures CosineSimilarity(root, a, b) == 1.0 <==> !IsNull(a) && exists c :: c > 0.0 && b == Scale(c, a)
  {
    if CosineSimilarity(root, a, b) == 1.0 {
      var c := OnlyParallelVectorsScoreOne(root, a, b);
    }
    if !IsNull(a) && exists c :: c > 0.0 && b == Scale(c, a) {
      var c :| c > 0.0 && b == Scale(c, a);
      ParallelVectorsScoreOne(root, a, c);
    }
  }

  lemma PositiveQuotient(x: real, y: real)
    requires x > 0.0 && y > 0.0
    ensures x / y > 0.0
  {
    SignOfFactor(x / y, y);
  }

  // ---------------------------------------------------------------------------------------------
  // Bag of words

  /** The embedder's parameters: dimension, stopwords, and the hash of a word. */
  datatype Embedder = Embedder(dim: nat, stopwords: set<string>, hash: string -> nat)

  predicate Counts(e: Embedder, word: string) {
    word != "" && word !in e.stopwords
  }

  function Bucket(e: Embedder, word: string): (i: nat)
    requires e.dim > 0
    ensures i < e.dim
  {
    e.hash(word) % e.dim
  }

  function CountsFor(e: Embedder, i: nat): string -> bool
    requires e.dim > 0
  {
    word => Counts(e, word) && Bucket(e, word) == i
  }

  /** How many of the words count for bucket `i`. */
  function WordsInBucket(e: Embedder, words: seq<string>, i: nat): nat
    requires e.dim > 0
  {
    |Filter(words, CountsFor(e, i))|
  }

  /**
   * `embed`, for words already split, stripped of punctuation and lowered. None is the ZeroDivisionError that a
   * counting word raises when the dimension is zero.
   */
  method Embed(e: Embedder, words: seq<string>) returns (r: Option<Vector>)
    ensures r.None? <==> e.dim == 0 && exists w :: w in words && Counts(e, w)
    ensures r.Some? ==> r.value == if e.dim == 0 then [] else BagOfWords(e, words)
  {
    var vec := new real[e.dim](_ => 0.0);
    for n := 0 to |words|
      invariant e.dim == 0 ==> forall i :: 0 <= i < n ==> !Counts(e, words[i])
      invariant forall i :: 0 <= i < e.dim ==> vec[i] == WordsInBucket(e, words[..n], i) as real
    {
      assert words[..n + 1][..n] == words[..n];
      if words[n] == "" || words[n] in e.stopwords {
        continue;
      }
      if e.dim == 0 {
        assert words[n] in words && Counts(e, words[n]);
        return None;
      }
      var bucket := Bucket(e, words[n]);
      vec[bucket] := vec[bucket] + 1.0;
    }
    assert words[..|words|] == words;
    return Some(vec[..]);
  }

  /** The vector that `Embed` returns. */
  function BagOfWords(e: Embedder, words: seq<string>): (v: Vector)
    requires e.dim > 0
    ensures |v| == e.dim && forall i :: 0 <= i < e.dim ==> v[i] == WordsInBucket(e, words, i) as real
  {
    seq(e.dim, i requires 0 <= i => WordsInBucket(e, words, i) as real)
  }

  /** Each component is the number of words, neither empty nor stopwords, whose hash falls in the bucket. */
  lemma BagCountsWords(e: Embedder, words: seq<string>, i: nat)
    requires i < e.dim
    ensures BagOfWords(e, words)[i]
         == |set k | 0 <= k < |words| && words[k] != "" && words[k] !in e.stopwords
                     && e.hash(words[k]) % e.dim == i| as real
  {
    var hits := set k | 0 <= k < |words| && words[k] != "" && words[k] !in e.stopwords
                        && e.hash(words[k]) % e.dim == i;
    FilterCountsPositions(words, CountsFor(e, i));
    assert Positions(words, CountsFor(e, i)) == hits;
  }

  /** Word order does not matter. */
  lemma BagIgnoresOrder(e: Embedder, s: seq<string>, t: seq<string>)
    requires e.dim > 0 && multiset(s) == multiset(t)
    ensures BagOfWords(e, s) == BagOfWords(e, t)
  {
    forall i | 0 <= i < e.dim
      ensures BagOfWords(e, s)[i] == BagOfWords(e, t)[i]
    {
      FilterIgnoresOrder(s, t, CountsFor(e, i));
    }
  }

  lemma {:induction false} DotOfCountsIsNotNegative(a: Vector, b: Vector, n: nat)
    requires n <= |a| && n <= |b|
    requires forall i :: 0 <= i < n ==> a[i] >= 0.0 && b[i] >= 0.0
    ensures DotUpTo(a, b, n) >= 0.0
  {
    if n > 0 {
      DotOfCountsIsNotNegative(a, b, n - 1);
      assert a[n - 1] * b[n - 1] >= 0.0;
    }
  }

  /** Two bags of words have similarity in [0, 1], whatever the order of their words. */
  lemma BagSimilarity(root: real -> real, e: Embedder, s: seq<string>, t: seq<string>, s': seq<string>)
    requires IsRoot(root) && e.dim > 0 && multiset(s) == multiset(s')
    ensures 0.0 <= CosineSimilarity(root, BagOfWords(e, s), BagOfWords(e, t)) <= 1.0
    ensures CosineSimilarity(root, BagOfWords(e, s'), BagOfWords(e, t))
         == CosineSimilarity(root, BagOfWords(e, s), BagOfWords(e, t))
  {
    var a, b := BagOfWords(e, s), BagOfWords(e, t);
    DotOfCountsIsNotNegative(a, b, e.dim);
    CosineIsWithinOne(root, a, b);
    BagIgnoresOrder(e, s, s');
  }

  /**
   * The clip in the pseudo-probability never changes a cosine score, and bag-of-words scores, which are not
   * negative, map to at most one half.
   */
  lemma PseudoProbabilityOfCosine(root: real -> real, a: Vector, b: Vector)
    requires IsRoot(root)
    ensures var c := CosineSimilarity(root, a, b);
            && SimilarityToPseudoProbability(c) == (1.0 - c) / 2.0
            && (Dot(a, b) >= 0.0 ==> 0.0 <= SimilarityToPseudoProbability(c) <= 0.5)
  {
    CosineIsWithinOne(root, a, b);
  }
}
