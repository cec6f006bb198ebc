/** Streaming mean and variance: Welford's update, Chan's merge, and truncation in between. */
module Moments {

  // ---------- Quotients and floors ----------

  /** Division of reals, under a name that proofs can treat as a unit. */
  function Over(x: real, n: real): real
    requires n != 0.0
  {
    x / n
  }

  lemma OverTimes(x: real, n: real)
    requires n != 0.0
    ensures Over(x, n) * n == x
  {
  }

  lemma OverUnique(x: real, n: real, m: real)
    requires n != 0.0 && m * n == x
    ensures Over(x, n) == m
  {
  }

  lemma OverNatural(x: real, n: real)
    requires x >= 0.0 && n > 0.0
    ensures Over(x, n) >= 0.0
  {
  }

  lemma ScaleLess(x: real, y: real, n: real, xn: real, yn: real)
    requires n > 0.0 && xn == x * n && yn == y * n
    ensures x < y <==> xn < yn
  {
    assert (y - x) * n == yn - xn;
    if x < y {
      assert (y - x) * n > 0.0;
    } else {
      assert (y - x) * n <= 0.0;
    }
  }

  lemma FloorIs(q: real, k: int)
    ensures q.Floor == k <==> !(q < k as real) && q < k as real + 1.0
  {
  }

  lemma FloorScaled(q: real, n: real, k: int, x: real, kn: real)
    requires n > 0.0 && q * n == x && kn == k as real * n
    ensures q.Floor == k <==> kn <= x < kn + n
  {
    FloorIs(q, k);
    ScaleLess(q, k as real, n, x, kn);
    assert (k as real + 1.0) * n == kn + n;
    ScaleLess(q, k as real + 1.0, n, x, kn + n);
  }

  /** The floor of a quotient is `k` exactly when the dividend lies in the `k`-th stretch of length `n`. */
  lemma FloorOver(x: real, n: real, k: int, kn: real)
    requires n > 0.0 && kn == k as real * n
    ensures Over(x, n).Floor == k <==> kn <= x < kn + n
  {
    OverTimes(x, n);
    FloorScaled(Over(x, n), n, k, x, kn);
  }

  /** Lowering a dividend by less than the divisor lowers the floored quotient by at most one. */
  lemma FloorsClose(x: real, y: real, n: real)
    requires n > 0.0 && y - n < x <= y
    ensures Over(x, n).Floor == Over(y, n).Floor || Over(x, n).Floor == Over(y, n).Floor - 1
  {
    var k := Over(y, n).Floor;
    var kn := k as real * n;
    FloorOver(y, n, k, kn);
    FloorOver(x, n, k, kn);
    assert (k - 1) as real * n == kn - n;
    FloorOver(x, n, k - 1, kn - n);
  }

  /** Flooring loses less than one per unit of the divisor. */
  lemma FloorLoss(x: real, n: real)
    requires n > 0.0
    ensures x - n < Over(x, n).Floor as real * n <= x
  {
    var k := Over(x, n).Floor;
    FloorOver(x, n, k, k as real * n);
  }

  // ---------- The reference: sums, mean and population variance ----------

  function Sum(ds: seq<int>): int {
    if ds == [] then 0 else Sum(ds[..|ds| - 1]) + ds[|ds| - 1]
  }

  function Square(x: real): real {
    x * x
  }

  function SumSquares(ds: seq<int>): real {
    if ds == [] then 0.0 else SumSquares(ds[..|ds| - 1]) + Square(ds[|ds| - 1] as real)
  }

  /** The sum of squared deviations from `m`. */
  function Deviation(ds: seq<int>, m: real): real {
    if ds == [] then 0.0 else Deviation(ds[..|ds| - 1], m) + Square(ds[|ds| - 1] as real - m)
  }

  lemma {:induction false} SumsAppend(a: seq<int>, b: seq<int>)
    ensures Sum(a + b) == Sum(a) + Sum(b) && SumSquares(a + b) == SumSquares(a) + SumSquares(b)
    decreases |b|
  {
    if b == [] {
      assert a + b == a;
    } else {
      assert (a + b)[..|a + b| - 1] == a + b[..|b| - 1];
      SumsAppend(a, b[..|b| - 1]);
    }
  }

  function Mean(ds: seq<int>): real
    requires ds != []
  {
    Over(Sum(ds) as real, |ds| as real)
  }

  /** The population variance. */
  function Variance(ds: seq<int>): real
    requires ds != []
  {
    Over(Deviation(ds, Mean(ds)), |ds| as real)
  }

  /** `m` times each sample, and `c` once per sample, added up. */
  function Scaled(ds: seq<int>, m: real): real {
    if ds == [] then 0.0 else Scaled(ds[..|ds| - 1], m) + m * ds[|ds| - 1] as real
  }

  function Repeated(n: nat, c: real): real {
    if n == 0 then 0.0 else Repeated(n - 1, c) + c
  }

  lemma SquareOfDifference(d: real, m: real)
    ensures Square(d - m) == Square(d) - 2.0 * (m * d) + m * m
  {
  }

  lemma Distributes(m: real, x: real, y: real, xy: real)
    requires xy == x + y
    ensures m * xy == m * x + m * y
  {
  }

  lemma {:induction false} ScaledIs(ds: seq<int>, m: real)
    ensures Scaled(ds, m) == m * Sum(ds) as real
  {
    if ds != [] {
      var init, d := ds[..|ds| - 1], ds[|ds| - 1];
      ScaledIs(init, m);
      Distributes(m, Sum(init) as real, d as real, Sum(ds) as real);
    }
  }

  lemma {:induction false} RepeatedIs(n: nat, c: real)
    ensures Repeated(n, c) == n as real * c
  {
    if n > 0 {
      RepeatedIs(n - 1, c);
      Distributes(c, (n - 1) as real, 1.0, n as real);
    }
  }

  lemma {:induction false} DeviationSplits(ds: seq<int>, m: real)
    ensures Deviation(ds, m) == SumSquares(ds) - 2.0 * Scaled(ds, m) + Repeated(|ds|, m * m)
  {
    if ds != [] {
      DeviationSplits(ds[..|ds| - 1], m);
      SquareOfDifference(ds[|ds| - 1] as real, m);
    }
  }

  lemma DeviationExpands(ds: seq<int>, m: real)
    ensures Deviation(ds, m) == SumSquares(ds) - 2.0 * (m * Sum(ds) as real) + |ds| as real * (m * m)
  {
    DeviationSplits(ds, m);
    ScaledIs(ds, m);
    RepeatedIs(|ds|, m * m);
  }

  lemma {:induction false} DeviationNatural(ds: seq<int>, m: real)
    ensures Deviation(ds, m) >= 0.0
  {
    if ds != [] {
      DeviationNatural(ds[..|ds| - 1], m);
    }
  }

  /** What the mean and the sum of squared deviations are for `n` samples with sum `s` and square sum `q`. */
  predicate Centred(n: nat, s: int, q: real, m: real, m2: real) {
    m * n as real == s as real && m2 == q - m * s as real
  }

  lemma CentredDeviation(ds: seq<int>, m: real, m2: real)
    requires Centred(|ds|, Sum(ds), SumSquares(ds), m, m2)
    ensures Deviation(ds, m) == m2
  {
    DeviationExpands(ds, m);
    Collapse(Deviation(ds, m), SumSquares(ds), Sum(ds) as real, |ds| as real, m, m2);
  }

  lemma Collapse(dev: real, q: real, s: real, n: real, m: real, m2: real)
    requires m * n == s && m2 == q - m * s && dev == q - 2.0 * (m * s) + n * (m * m)
    ensures dev == m2
  {
    assert n * (m * m) == m * (m * n);
  }

  /** Centred sums give the variance, which is not negative. */
  lemma CentredVariance(ds: seq<int>, m: real, m2: real)
    requires ds != [] && Centred(|ds|, Sum(ds), SumSquares(ds), m, m2)
    ensures Variance(ds) == Over(m2, |ds| as real) >= 0.0 && m2 >= 0.0
  {
    OverUnique(Sum(ds) as real, |ds| as real, m);
    CentredDeviation(ds, m, m2);
    DeviationNatural(ds, m);
    OverNatural(m2, |ds| as real);
  }

  // ---------- Welford ----------

  /** The mean after one more sample, `n` in all. */
  function NextMean(n: nat, mean: real, x: int): real
    requires n > 0
  {
    mean + Over(x as real - mean, n as real)
  }

  /** The squared deviations after one more sample. */
  function NextDeviation(mean: real, mean': real, m2: real, x: int): real {
    m2 + (x as real - mean) * (x as real - mean')
  }

  /** Welford's update is exact. */
  lemma WelfordCentred(n: nat, s: int, q: real, mean: real, m2: real, x: int)
    requires Centred(n, s, q, mean, m2)
    ensures var mean' := NextMean(n + 1, mean, x);
            Centred(n + 1, s + x, q + Square(x as real), mean', NextDeviation(mean, mean', m2, x))
  {
    var mean' := NextMean(n + 1, mean, x);
    OverTimes(x as real - mean, (n + 1) as real);
    WelfordStep(n as real, s as real, x as real, mean, mean', Over(x as real - mean, (n + 1) as real));
    assert (s + x) as real == s as real + x as real;
  }

  lemma WelfordStep(n: real, s: real, x: real, mean: real, mean': real, step: real)
    requires mean * n == s && step * (n + 1.0) == x - mean && mean' == mean + step
    ensures mean' * (n + 1.0) == s + x
    ensures (x - mean) * (x - mean') == Square(x) - mean' * (s + x) + mean * s
  {
    assert mean' * (n + 1.0) == mean * n + mean + step * (n + 1.0);
    calc {
      (x - mean) * (x - mean');
      x * x - mean * x - mean' * x + mean * mean';
      { assert mean * (mean' * (n + 1.0)) == mean * (s + x); }
      { assert mean * (mean' * (n + 1.0)) == mean' * (mean * n) + mean * mean'; }
      x * x - mean' * (s + x) + mean * s;
    }
  }

  // ---------- Chan ----------

  /** The mean of two groups of means `mean` and `meanB`, the second of size `b` out of `n`. */
  function PooledMean(b: real, n: real, mean: real, meanB: real): real
    requires n != 0.0
  {
    mean + Over((meanB - mean) * b, n)
  }

  /** What the distance of the two means adds to the squared deviations. */
  function Between(a: real, b: real, n: real, mean: real, meanB: real): real
    requires n != 0.0
  {
    Over((meanB - mean) * (meanB - mean) * a * b, n)
  }

  lemma PooledMeanIsMean(a: real, b: real, n: real, mean: real, meanB: real, s: real, t: real)
    requires n == a + b > 0.0 && mean * a == s && meanB * b == t
    ensures PooledMean(b, n, mean, meanB) * n == s + t
  {
    OverTimes((meanB - mean) * b, n);
  }

  lemma BetweenIsExact(a: real, b: real, n: real, mean: real, meanB: real, s: real, t: real)
    requires n == a + b > 0.0 && mean * a == s && meanB * b == t
    ensures Between(a, b, n, mean, meanB) == mean * s + meanB * t - PooledMean(b, n, mean, meanB) * (s + t)
  {
    var delta := meanB - mean;
    var shift := Over(delta * b, n);
    OverTimes(delta * b, n);
    assert (delta * a) * shift * n == (delta * a) * (delta * b) == delta * delta * a * b;
    OverUnique(delta * delta * a * b, n, (delta * a) * shift);
    MergeIdentity(mean, meanB, a, b, shift);
  }

  lemma MergeIdentity(mean: real, meanB: real, a: real, b: real, shift: real)
    requires shift * (a + b) == (meanB - mean) * b
    ensures mean * (mean * a) + meanB * (meanB * b) - (mean + shift) * (mean * a + meanB * b)
            == ((meanB - mean) * a) * shift
  {
    var delta := meanB - mean;
    calc {
      mean * (mean * a) + meanB * (meanB * b) - (mean + shift) * (mean * a + meanB * b);
      meanB * (delta * b) - shift * (mean * a + meanB * b);
      meanB * (shift * (a + b)) - shift * (mean * a + meanB * b);
      (delta * a) * shift;
    }
  }

  lemma BetweenNatural(a: real, b: real, n: real, mean: real, meanB: real)
    requires a >= 0.0 && b >= 0.0 && n > 0.0
    ensures Between(a, b, n, mean, meanB) >= 0.0
  {
    var delta := meanB - mean;
    assert delta * delta >= 0.0;
    assert delta * delta * a >= 0.0;
    assert delta * delta * a * b >= 0.0;
    OverNatural(delta * delta * a * b, n);
  }

  /** Chan's merge is exact: the result is centred for the added-up sums. */
  lemma ChanCentred(nA: nat, sA: int, qA: real, mean: real, m2: real, nB: nat, sB: int, qB: real, meanB: real, m2B: real)
    requires nB > 0 && Centred(nA, sA, qA, mean, m2) && Centred(nB, sB, qB, meanB, m2B)
    ensures var n := (nA + nB) as real;
            Centred(nA + nB, sA + sB, qA + qB, PooledMean(nB as real, n, mean, meanB),
                    m2 + m2B + Between(nA as real, nB as real, n, mean, meanB))
  {
    var a, b, n, s, t := nA as real, nB as real, (nA + nB) as real, sA as real, sB as real;
    assert n == a + b && (sA + sB) as real == s + t;
    PooledMeanIsMean(a, b, n, mean, meanB, s, t);
    BetweenIsExact(a, b, n, mean, meanB, s, t);
  }

  /** The same, for a mean and deviations under other names. */
  lemma ChanMerges(nA: nat, sA: int, qA: real, mean: real, m2: real, nB: nat, sB: int, qB: real, meanB: real, m2B: real,
                   merged: real, merged2: real)
    requires nB > 0 && Centred(nA, sA, qA, mean, m2) && Centred(nB, sB, qB, meanB, m2B)
    requires merged == PooledMean(nB as real, (nA + nB) as real, mean, meanB)
    requires merged2 == m2 + m2B + Between(nA as real, nB as real, (nA + nB) as real, mean, meanB)
    ensures Centred(nA + nB, sA + sB, qA + qB, merged, merged2)
  {
    ChanCentred(nA, sA, qA, mean, m2, nB, sB, qB, meanB, m2B);
  }

  // ---------- Truncation between the two ----------

  /** The square sum that `n` samples with sum `s` stand for once their variance is truncated to `v`. */
  function KeptSquares(n: nat, s: int, v: int): real
    requires n > 0
  {
    v as real * n as real + MeanTimesSum(n, s)
  }

  lemma KeptCentred(n: nat, s: int, v: int)
    requires n > 0
    ensures Centred(n, s, KeptSquares(n, s, v), Over(s as real, n as real), v as real * n as real)
  {
    OverTimes(s as real, n as real);
  }

  /** Centred values are determined by the sums. */
  lemma CentredUnique(n: nat, s: int, q: real, m: real, m2: real)
    requires n > 0 && Centred(n, s, q, m, m2)
    ensures m2 == q - MeanTimesSum(n, s)
  {
    OverUnique(s as real, n as real, m);
  }

  /** Merging in a part of which only the truncated variance is left. */
  lemma KeptMerges(nA: nat, sA: int, qA: real, mean: real, m2: real, n: nat, s: int, v: int, merged: real, merged2: real)
    requires n > 0 && Centred(nA, sA, qA, mean, m2)
    requires merged == PooledMean(n as real, (nA + n) as real, mean, Over(s as real, n as real))
    requires merged2 == m2 + v as real * n as real
                        + Between(nA as real, n as real, (nA + n) as real, mean, Over(s as real, n as real))
    ensures Centred(nA + n, sA + s, qA + KeptSquares(n, s, v), merged, merged2)
  {
    KeptCentred(n, s, v);
    ChanMerges(nA, sA, qA, mean, m2, n, s, KeptSquares(n, s, v), Over(s as real, n as real), v as real * n as real,
               merged, merged2);
  }

  /** What the mean alone accounts for in a square sum. */
  function MeanTimesSum(n: nat, s: int): real
    requires n > 0
  {
    Over(s as real, n as real) * s as real
  }

  lemma MeanCentred(n: nat, s: int, q: real)
    requires n > 0
    ensures Centred(n, s, q, Over(s as real, n as real), q - MeanTimesSum(n, s))
  {
    OverTimes(s as real, n as real);
  }

  lemma VarianceBySums(ds: seq<int>)
    requires ds != []
    ensures Variance(ds) == Over(SumSquares(ds) - MeanTimesSum(|ds|, Sum(ds)), |ds| as real)
  {
    MeanCentred(|ds|, Sum(ds), SumSquares(ds));
    CentredVariance(ds, Over(Sum(ds) as real, |ds| as real), SumSquares(ds) - MeanTimesSum(|ds|, Sum(ds)));
  }

  /** What truncating the variance of some samples takes from the square sum they stand for. */
  function Loss(ds: seq<int>): real {
    if ds == [] then 0.0 else SumSquares(ds) - KeptSquares(|ds|, Sum(ds), Variance(ds).Floor)
  }

  /** It is less than one per sample. */
  lemma LossSmall(ds: seq<int>)
    requires ds != []
    ensures 0.0 <= Loss(ds) < |ds| as real
  {
    VarianceBySums(ds);
    FloorLoss(SumSquares(ds) - MeanTimesSum(|ds|, Sum(ds)), |ds| as real);
  }

  lemma FractionOf(x: real, n: real, k: real, kn: real)
    requires n != 0.0 && kn == k * n
    ensures Over(x - kn, n) == Over(x, n) - k
  {
    OverTimes(x, n);
    assert (Over(x, n) - k) * n == Over(x, n) * n - k * n;
    OverUnique(x - kn, n, Over(x, n) - k);
  }

  /** Per sample it is the fraction cut off the variance. */
  lemma LossIsFraction(ds: seq<int>)
    requires ds != []
    ensures Over(Loss(ds), |ds| as real) == Variance(ds) - Variance(ds).Floor as real
  {
    var mts, v, n := MeanTimesSum(|ds|, Sum(ds)), Variance(ds), |ds| as real;
    assert v == Over(SumSquares(ds) - mts, n) by { VarianceBySums(ds); }
    FractionOf(SumSquares(ds) - mts, n, v.Floor as real, v.Floor as real * n);
    assert Loss(ds) == SumSquares(ds) - mts - v.Floor as real * n;
  }

  /** A quotient reduced by less than one keeps its floor exactly while the dividend stays above it. */
  lemma FloorKept(x: real, y: real, n: real, k: int, kn: real)
    requires n > 0.0 && kn == k as real * n && Over(y, n).Floor == k && y - n < x <= y
    ensures var f := Over(x, n).Floor; (f == k || f == k - 1) && (f == k <==> kn <= x)
  {
    FloorsClose(x, y, n);
    FloorOver(x, n, k, kn);
    FloorOver(y, n, k, kn);
  }

  lemma WithinOne(squares: real, q: real, mts: real, m2: real, n: real, v: real, kn: real, loss: real)
    requires n > 0.0 && m2 == q - mts && v == Over(squares - mts, n)
    requires kn == v.Floor as real * n && loss == squares - (kn + mts) && squares - n < q <= squares
    ensures Over(m2, n).Floor == v.Floor || Over(m2, n).Floor == v.Floor - 1
    ensures Over(m2, n).Floor == v.Floor <==> squares - q <= loss
  {
    FloorKept(m2, squares - mts, n, v.Floor, kn);
  }

  lemma Shortfall(ds: seq<int>, q: real, mean: real, m2: real) returns (mts: real, kn: real)
    requires ds != [] && Centred(|ds|, Sum(ds), q, mean, m2)
    ensures m2 == q - mts && Variance(ds) == Over(SumSquares(ds) - mts, |ds| as real)
    ensures kn == Variance(ds).Floor as real * |ds| as real && Loss(ds) == SumSquares(ds) - (kn + mts)
  {
    mts, kn := MeanTimesSum(|ds|, Sum(ds)), Variance(ds).Floor as real * |ds| as real;
    CentredUnique(|ds|, Sum(ds), q, mean, m2);
    VarianceBySums(ds);
  }

  /**
    If less than one per sample is missing from the squares kept, the truncated variance is the true one or one
    less, and it is the true one exactly when no more is missing than truncating the true variance would take.
   */
  lemma VarianceWithinOne(ds: seq<int>, q: real, mean: real, m2: real)
    requires ds != [] && Centred(|ds|, Sum(ds), q, mean, m2)
    requires SumSquares(ds) - |ds| as real < q <= SumSquares(ds)
    ensures Over(m2, |ds| as real).Floor == Variance(ds).Floor || Over(m2, |ds| as real).Floor == Variance(ds).Floor - 1
    ensures Over(m2, |ds| as real).Floor == Variance(ds).Floor <==> SumSquares(ds) - q <= Loss(ds)
  {
    var mts, kn := Shortfall(ds, q, mean, m2);
    WithinOne(SumSquares(ds), q, mts, m2, |ds| as real, Variance(ds), kn, Loss(ds));
  }

  /** Two parts whose variance is three quarters, and whose union has variance one. */
  lemma TwoParts()
    ensures var a, b := [0, 0, 0, 2], [1, 1, 1, 3];
            Variance(a) == 0.75 && Variance(b) == 0.75 && Variance(a + b) == 1.0 && Sum(a) == 2 && Sum(b) == 6
  {
    var a, b := [0, 0, 0, 2], [1, 1, 1, 3];
    SumsOfFour(0, 0, 0, 2);
    SumsOfFour(1, 1, 1, 3);
    CentredVariance(a, 0.5, 3.0);
    CentredVariance(b, 1.5, 3.0);
    OverUnique(3.0, 4.0, 0.75);
    SumsAppend(a, b);
    CentredVariance(a + b, 1.0, 8.0);
    OverUnique(8.0, 8.0, 1.0);
  }

  lemma SumsOfFour(w: int, x: int, y: int, z: int)
    ensures Sum([w, x, y, z]) == w + x + y + z
    ensures SumSquares([w, x, y, z]) == Square(w as real) + Square(x as real) + Square(y as real) + Square(z as real)
  {
    assert [w, x, y, z][..3] == [w, x, y] && [w, x, y][..2] == [w, x] && [w, x][..1] == [w] && [w][..0] == [];
    assert Sum([w]) == w && SumSquares([w]) == Square(w as real);
    assert Sum([w, x]) == w + x && SumSquares([w, x]) == Square(w as real) + Square(x as real);
  }
}
