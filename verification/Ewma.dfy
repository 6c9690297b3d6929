/** The EWMA detector: a one-pass recurrence for a weighted mean and variance, over exact reals. */
module Ewma {
  import opened Numbers
  import opened Outcomes
  import opened RealAlgebra

  type Alpha = a: real | 0.0 < a <= 1.0 witness 1.0

  /** Mean and variance as the detector keeps them. */
  datatype Baseline = Baseline(mean: real, variance: real)

  function Next(a: Alpha, b: Baseline, sample: real): Baseline {
    var residual := sample - b.mean;
    Baseline(b.mean + a * residual, (1.0 - a) * (b.variance + a * residual * residual))
  }

  /** Mean and variance after the first `n` samples. */
  function Fold(a: Alpha, x: seq<real>, n: nat): Baseline
    requires 1 <= n <= |x|
  {
    if n == 1 then Baseline(x[0], 0.0) else Next(a, Fold(a, x, n - 1), x[n - 1])
  }

  // ---- the weights -------------------------------------------------------------------------

  function Power(b: real, n: nat): real {
    if n == 0 then 1.0 else b * Power(b, n - 1)
  }

  /** Weights of `n` samples: (1-a)^(n-1) for the first, a(1-a)^(n-1-i) for sample `i` after it. */
  function Weights(a: Alpha, n: nat): (w: seq<real>)
    requires n >= 1
    ensures |w| == n
  {
    seq(n, i requires 0 <= i < n => if i == 0 then Power(1.0 - a, n - 1) else a * Power(1.0 - a, n - 1 - i))
  }

  /** The first `k` weighted values. */
  function Dot(w: seq<real>, s: seq<real>, k: nat): real
    requires k <= |w| && k <= |s|
  {
    if k == 0 then 0.0 else Dot(w, s, k - 1) + w[k - 1] * s[k - 1]
  }

  function Square(x: real): real {
    x * x
  }

  function Distances(x: seq<real>, c: real): (s: seq<real>)
    ensures |s| == |x|
  {
    seq(|x|, i requires 0 <= i < |x| => Square(x[i] - c))
  }

  /** Weighted mean and weighted mean squared distance from it. */
  function Mean(a: Alpha, x: seq<real>, n: nat): real
    requires 1 <= n <= |x|
  {
    Dot(Weights(a, n), x, n)
  }

  function Variance(a: Alpha, x: seq<real>, n: nat): real
    requires 1 <= n <= |x|
  {
    Dot(Weights(a, n), Distances(x, Mean(a, x, n)), n)
  }

  // ---- weighted sums one sample at a time --------------------------------------------------

  function Blend(a: real, past: real, sample: real): real {
    (1.0 - a) * past + a * sample
  }

  function Average(a: Alpha, s: seq<real>, n: nat): real
    requires 1 <= n <= |s|
  {
    if n == 1 then s[0] else Blend(a, Average(a, s, n - 1), s[n - 1])
  }

  /** One more sample scales all earlier weights by 1-a and gets the weight a. */
  lemma WeightsStep(a: Alpha, n: nat)
    requires n >= 1
    ensures forall i :: 0 <= i < n ==> Weights(a, n + 1)[i] == (1.0 - a) * Weights(a, n)[i]
    ensures Weights(a, n + 1)[n] == a
  {
    var b, w, v := 1.0 - a, Weights(a, n), Weights(a, n + 1);
    assert Power(b, 0) == 1.0;
    forall i | 0 <= i < n ensures v[i] == b * w[i] {
      var p := Power(b, n - 1 - i);
      assert Power(b, n - i) == b * p;
      Associate(a, b, p);
    }
  }

  lemma FirstWeight(a: Alpha)
    ensures Weights(a, 1)[0] == 1.0
  {
    assert Power(1.0 - a, 0) == 1.0;
  }

  lemma ScaledTerm(b: real, s: real, w: real, y: real, t: real, v: real)
    requires t == b * s && v == b * w
    ensures t + v * y == b * (s + w * y)
  {
    Associate(b, w, y);
    Distribute(b, s, w * y);
  }

  lemma {:induction false} DotScales(b: real, w: seq<real>, v: seq<real>, s: seq<real>, k: nat)
    requires k <= |w| && k <= |v| && k <= |s| && forall i :: 0 <= i < k ==> v[i] == b * w[i]
    ensures Dot(v, s, k) == b * Dot(w, s, k)
  {
    if k > 0 {
      DotScales(b, w, v, s, k - 1);
      ScaledTerm(b, Dot(w, s, k - 1), w[k - 1], s[k - 1], Dot(v, s, k - 1), v[k - 1]);
    }
  }

  lemma DotOfOne(w: seq<real>, s: seq<real>)
    requires |w| >= 1 && |s| >= 1 && w[0] == 1.0
    ensures Dot(w, s, 1) == s[0]
  {
    assert Dot(w, s, 0) == 0.0;
    assert w[0] * s[0] == s[0];
  }

  lemma DotAppend(a: real, b: real, w: seq<real>, v: seq<real>, s: seq<real>, k: nat)
    requires b == 1.0 - a && k <= |w| && k < |v| && k < |s| && v[k] == a && forall i :: 0 <= i < k ==> v[i] == b * w[i]
    ensures Dot(v, s, k + 1) == Blend(a, Dot(w, s, k), s[k])
  {
    assert Dot(v, s, k + 1) == Dot(v, s, k) + a * s[k];
    DotScales(b, w, v, s, k);
  }

  lemma {:induction false} AverageIsDot(a: Alpha, s: seq<real>, n: nat)
    requires 1 <= n <= |s|
    ensures Average(a, s, n) == Dot(Weights(a, n), s, n)
  {
    if n == 1 {
      FirstWeight(a);
      DotOfOne(Weights(a, 1), s);
    } else {
      AverageLast(a, s, n);
      AverageIsDot(a, s, n - 1);
      WeightsStep(a, n - 1);
      DotAppend(a, 1.0 - a, Weights(a, n - 1), Weights(a, n), s, n - 1);
    }
  }

  lemma AverageLast(a: Alpha, s: seq<real>, n: nat)
    requires 2 <= n <= |s|
    ensures Average(a, s, n) == Blend(a, Average(a, s, n - 1), s[n - 1])
  {
  }

  lemma {:induction false} AverageOfEqual(a: Alpha, s: seq<real>, n: nat, c: real)
    requires 1 <= n <= |s| && forall i :: 0 <= i < n ==> s[i] == c
    ensures Average(a, s, n) == c
  {
    if n > 1 { AverageOfEqual(a, s, n - 1, c); }
  }

  /** The weights sum to one. */
  lemma WeightsSumToOne(a: Alpha, n: nat, ones: seq<real>)
    requires 1 <= n <= |ones| && forall i :: 0 <= i < n ==> ones[i] == 1.0
    ensures Dot(Weights(a, n), ones, n) == 1.0
  {
    AverageIsDot(a, ones, n);
    AverageOfEqual(a, ones, n, 1.0);
  }

  lemma CombineStep(a: real, d: real, e: real, p: real, q: real, f: real, g: real, h: real)
    requires f == g + d * h + e
    ensures Blend(a, p + d * q + e, f) == Blend(a, p, g) + d * Blend(a, q, h) + e
  {
  }

  lemma {:induction false} AverageCombines(a: Alpha, f: seq<real>, g: seq<real>, h: seq<real>, d: real, e: real, n: nat)
    requires 1 <= n <= |f| && n <= |g| && n <= |h| && forall i :: 0 <= i < n ==> f[i] == g[i] + d * h[i] + e
    ensures Average(a, f, n) == Average(a, g, n) + d * Average(a, h, n) + e
  {
    if n > 1 {
      AverageLast(a, f, n);
      AverageLast(a, g, n);
      AverageLast(a, h, n);
      AverageCombines(a, f, g, h, d, e, n - 1);
      CombineStep(a, d, e, Average(a, g, n - 1), Average(a, h, n - 1), f[n - 1], g[n - 1], h[n - 1]);
    }
  }

  // ---- squared distances from another point ------------------------------------------------

  ghost predicate Shifts(m: real, c: real, d: real, e: real) {
    d == 2.0 * (m - c) && e == c * c - m * m
  }

  lemma ShiftedDistances(x: seq<real>, m: real, c: real, d: real, e: real)
    requires Shifts(m, c, d, e)
    ensures forall i :: 0 <= i < |x| ==> Distances(x, c)[i] == Distances(x, m)[i] + d * x[i] + e
  {
  }

  lemma ShiftAtMean(m: real, c: real, d: real, e: real)
    requires Shifts(m, c, d, e)
    ensures d * m + e == Square(m - c)
  {
  }

  /** A squared distance from `c` is one from `m` plus a linear term, whose value at `m` is (m-c)^2. */
  lemma Shifting(x: seq<real>, m: real, c: real) returns (d: real, e: real)
    ensures d * m + e == Square(m - c)
    ensures forall i :: 0 <= i < |x| ==> Distances(x, c)[i] == Distances(x, m)[i] + d * x[i] + e
  {
    d, e := 2.0 * (m - c), c * c - m * m;
    ShiftAtMean(m, c, d, e);
    ShiftedDistances(x, m, c, d, e);
  }

  lemma DistancesFromPoint(a: Alpha, x: seq<real>, n: nat, m: real, c: real)
    requires 1 <= n <= |x| && m == Average(a, x, n)
    ensures Average(a, Distances(x, c), n) == Average(a, Distances(x, m), n) + Square(m - c)
  {
    var d, e := Shifting(x, m, c);
    AverageCombines(a, Distances(x, c), Distances(x, m), x, d, e, n);
  }

  // ---- the recurrence ----------------------------------------------------------------------

  lemma VarianceFactors(a: real, v: real, rr: real)
    ensures (1.0 - a) * (v + a * a * rr) + a * ((1.0 - a) * (1.0 - a) * rr) == (1.0 - a) * (v + a * rr)
  {
  }

  /** Mean and variance with one more sample, in the recurrence's form. */
  lemma AppendedIsNext(a: Alpha, b: Baseline, y: real, c: real, p: real, u: real)
    requires c == Blend(a, b.mean, y)
    requires p == b.variance + Square(b.mean - c)
    requires u == Blend(a, p, Square(y - c))
    ensures Next(a, b, y) == Baseline(c, u)
  {
    var r, v := y - b.mean, b.variance;
    var rr := r * r;
    assert b.mean - c == -(a * r) && y - c == (1.0 - a) * r;
    assert Square(b.mean - c) == a * a * rr;
    assert Square(y - c) == (1.0 - a) * (1.0 - a) * rr;
    VarianceFactors(a, v, rr);
    assert a * r * r == a * rr;
  }

  lemma StepIsNext(a: Alpha, x: seq<real>, n: nat, m: real, c: real)
    requires 2 <= n <= |x| && m == Average(a, x, n - 1) && c == Average(a, x, n)
    ensures Next(a, Baseline(m, Average(a, Distances(x, m), n - 1)), x[n - 1])
            == Baseline(c, Average(a, Distances(x, c), n))
  {
    AverageLast(a, x, n);
    AverageLast(a, Distances(x, c), n);
    DistancesFromPoint(a, x, n - 1, m, c);
    AppendedIsNext(a, Baseline(m, Average(a, Distances(x, m), n - 1)), x[n - 1], c,
                   Average(a, Distances(x, c), n - 1), Average(a, Distances(x, c), n));
  }

  lemma {:induction false} FoldIsAverage(a: Alpha, x: seq<real>, n: nat)
    requires 1 <= n <= |x|
    ensures Fold(a, x, n) == Baseline(Average(a, x, n), Average(a, Distances(x, Average(a, x, n)), n))
  {
    if n == 1 {
      assert Square(x[0] - x[0]) == 0.0;
    } else {
      FoldIsAverage(a, x, n - 1);
      StepIsNext(a, x, n, Average(a, x, n - 1), Average(a, x, n));
    }
  }

  /** The recurrence computes exactly the weighted mean and variance of the whole history. */
  lemma FoldIsWeighted(a: Alpha, x: seq<real>, n: nat)
    requires 1 <= n <= |x|
    ensures Fold(a, x, n) == Baseline(Mean(a, x, n), Variance(a, x, n))
  {
    FoldIsAverage(a, x, n);
    AverageIsDot(a, x, n);
    AverageIsDot(a, Distances(x, Mean(a, x, n)), n);
  }

  // ---- consequences ------------------------------------------------------------------------

  lemma Between(a: Alpha, p: real, y: real, low: real, high: real)
    requires low <= p <= high && low <= y <= high
    ensures low <= Blend(a, p, y) <= high
  {
    var below := NonNegative(1.0 - a, p - low);
    var above := NonNegative(1.0 - a, high - p);
    Monotone(low, y, a);
    Monotone(y, high, a);
    var b := 1.0 - a;
    assert b * p == below + b * low && b * high == above + b * p;
    assert b * low + low * a == low && b * high + high * a == high;
  }

  lemma {:induction false} AverageWithin(a: Alpha, s: seq<real>, n: nat, low: real, high: real)
    requires 1 <= n <= |s| && forall i :: 0 <= i < n ==> low <= s[i] <= high
    ensures low <= Average(a, s, n) <= high
  {
    if n > 1 {
      AverageWithin(a, s, n - 1, low, high);
      Between(a, Average(a, s, n - 1), s[n - 1], low, high);
    }
  }

  /** The baseline lies between the smallest and the largest sample. */
  lemma MeanWithinHistory(a: Alpha, x: seq<real>, low: real, high: real)
    requires x != [] && forall i :: 0 <= i < |x| ==> low <= x[i] <= high
    ensures low <= Fold(a, x, |x|).mean <= high
  {
    FoldIsAverage(a, x, |x|);
    AverageWithin(a, x, |x|, low, high);
  }

  lemma AverageNonNegativeStep(a: Alpha, p: real, y: real) returns (r: real)
    requires p >= 0.0 && y >= 0.0
    ensures r == Blend(a, p, y) && r >= 0.0
    ensures y > 0.0 || (a < 1.0 && p > 0.0) ==> r > 0.0
  {
    var u := NonNegative(1.0 - a, p);
    var v := NonNegative(a, y);
    r := u + v;
    if y > 0.0 { v := Positive(a, y); }
    if a < 1.0 && p > 0.0 { u := Positive(1.0 - a, p); }
  }

  lemma {:induction false} AverageNonNegative(a: Alpha, s: seq<real>, n: nat)
    requires 1 <= n <= |s| && forall i :: 0 <= i < n ==> s[i] >= 0.0
    ensures Average(a, s, n) >= 0.0
  {
    if n > 1 {
      AverageNonNegative(a, s, n - 1);
      var r := AverageNonNegativeStep(a, Average(a, s, n - 1), s[n - 1]);
    }
  }

  lemma {:induction false} AveragePositive(a: Alpha, s: seq<real>, n: nat, j: nat)
    requires a < 1.0 && j < n <= |s| && s[j] > 0.0 && forall i :: 0 <= i < n ==> s[i] >= 0.0
    ensures Average(a, s, n) > 0.0
  {
    if n > 1 {
      AverageNonNegative(a, s, n - 1);
      if j < n - 1 { AveragePositive(a, s, n - 1, j); }
      var r := AverageNonNegativeStep(a, Average(a, s, n - 1), s[n - 1]);
    }
  }

  lemma DistanceSigns(x: seq<real>, c: real)
    ensures forall i :: 0 <= i < |x| ==> Distances(x, c)[i] >= 0.0
    ensures forall i :: 0 <= i < |x| && x[i] != c ==> Distances(x, c)[i] > 0.0
  {
    forall i | 0 <= i < |x| ensures Distances(x, c)[i] >= 0.0 && (x[i] != c ==> Distances(x, c)[i] > 0.0) {
      var p := SquareNonNegative(x[i] - c);
      if x[i] != c { p := SquarePositive(x[i] - c); }
    }
  }

  lemma {:induction false} NoMemory(x: seq<real>, n: nat)
    requires 1 <= n <= |x|
    ensures Fold(1.0, x, n) == Baseline(x[n - 1], 0.0)
  {
    if n > 1 { NoMemory(x, n - 1); }
  }

  lemma StaysPut(a: Alpha, c: real)
    ensures Next(a, Baseline(c, 0.0), c) == Baseline(c, 0.0)
  {
  }

  lemma {:induction false} ConstantHistory(a: Alpha, x: seq<real>, n: nat)
    requires 1 <= n <= |x| && forall i :: 0 <= i < |x| ==> x[i] == x[0]
    ensures Fold(a, x, n) == Baseline(x[0], 0.0)
  {
    if n > 1 {
      ConstantHistory(a, x, n - 1);
      StaysPut(a, x[0]);
    }
  }

  lemma SpreadHistory(a: Alpha, x: seq<real>, k: nat)
    requires a < 1.0 && k < |x| && x[k] != x[0]
    ensures Fold(a, x, |x|).variance > 0.0
  {
    FoldIsAverage(a, x, |x|);
    var m := Average(a, x, |x|);
    DistanceSigns(x, m);
    AveragePositive(a, Distances(x, m), |x|, if x[k] != m then k else 0);
  }

  ghost predicate Constant(x: seq<real>) {
    forall i :: 0 <= i < |x| ==> x[i] == x[0]
  }

  /** The variance is never negative, so the clamp before the square root does nothing; it is zero
    * exactly when the detector has no memory or all samples are equal.
    */
  lemma VarianceSign(a: Alpha, x: seq<real>)
    requires x != []
    ensures Fold(a, x, |x|).variance >= 0.0
    ensures Fold(a, x, |x|).variance == 0.0 <==> a == 1.0 || Constant(x)
  {
    if a == 1.0 {
      NoMemory(x, |x|);
    } else if Constant(x) {
      ConstantHistory(a, x, |x|);
    } else {
      var k :| 0 <= k < |x| && x[k] != x[0];
      SpreadHistory(a, x, k);
    }
  }

  // ---- the detector ------------------------------------------------------------------------

  datatype Score = Finite(value: real) | Infinite

  datatype Detection = Detection(anomalous: bool, score: Score)

  /** A score of at least the threshold, without the square root. */
  lemma ScoreAgainstThreshold(x: real, spread: real, threshold: real, v: real)
    requires spread > 0.0 && threshold > 0.0 && v == spread * spread
    ensures AbsReal(x) / spread >= threshold <==> x * x >= threshold * threshold * v
  {
    var d := AbsReal(x);
    var t := Positive(threshold, spread);
    QuotientAtLeast(d, spread, threshold);
    if d < t { SquaresGrow(d, t); } else if t < d { SquaresGrow(t, d); }
    assert t * t == threshold * threshold * v;
    assert d * d == x * x;
  }

  lemma RootSign(v: real, s: real)
    requires s >= 0.0 && s * s == v
    ensures v > 0.0 ==> s > 0.0
    ensures s > 0.0 ==> v > 0.0
  {
    if s > 0.0 { var p := SquarePositive(s); }
  }

  /** `root` is a square root on the non-negative reals. */
  ghost predicate SquareRoot(root: real -> real) {
    forall v :: v >= 0.0 ==> root(v) >= 0.0 && root(v) * root(v) == v
  }

  /** Anomalous means at least `threshold` standard deviations off the mean; with none, off it at all. */
  ghost predicate Judged(threshold: real, root: real -> real, b: Baseline, current: real, r: Detection) {
    var d := current - b.mean;
    if b.variance == 0.0 then r == if d != 0.0 then Detection(true, Infinite) else Detection(false, Finite(0.0))
    else
      && root(b.variance) > 0.0
      && r == Detection(d * d >= threshold * threshold * b.variance, Finite(AbsReal(d) / root(b.variance)))
  }

  method Judge(threshold: real, root: real -> real, b: Baseline, current: real) returns (r: Detection)
    requires threshold > 0.0 && b.variance >= 0.0 && SquareRoot(root)
    ensures Judged(threshold, root, b, current, r)
  {
    var spread := root(if b.variance > 0.0 then b.variance else 0.0);
    RootSign(b.variance, spread);
    if spread == 0.0 {
      return if current != b.mean then Detection(true, Infinite) else Detection(false, Finite(0.0));
    }
    var score := AbsReal(current - b.mean) / spread;
    ScoreAgainstThreshold(current - b.mean, spread, threshold, b.variance);
    r := Detection(score >= threshold, Finite(score));
  }

  lemma BaselineIsWeighted(a: Alpha, x: seq<real>)
    requires x != []
    ensures Fold(a, x, |x|) == Baseline(Mean(a, x, |x|), Variance(a, x, |x|))
    ensures Fold(a, x, |x|).variance >= 0.0
  {
    FoldIsWeighted(a, x, |x|);
    VarianceSign(a, x);
  }

  method Update(a: Alpha, b: Baseline, value: real) returns (r: Baseline)
    ensures r == Next(a, b, value)
  {
    var residual := value - b.mean;
    var mean := b.mean + a * residual;
    var variance := (1.0 - a) * (b.variance + a * residual * residual);
    r := Baseline(mean, variance);
  }

  method Recur(a: Alpha, history: seq<real>) returns (b: Baseline)
    requires history != []
    ensures b == Baseline(Mean(a, history, |history|), Variance(a, history, |history|)) && b.variance >= 0.0
  {
    b := Baseline(history[0], 0.0);
    for i := 1 to |history|
      invariant b == Fold(a, history, i)
    {
      b := Update(a, b, history[i]);
    }
    BaselineIsWeighted(a, history);
  }

  /** No answer models the failing access to the first sample of an empty history. */
  method Detect(a: Alpha, threshold: real, minimumSamples: int, root: real -> real, history: seq<real>, current: real)
    returns (r: Option<Detection>)
    requires threshold > 0.0 && SquareRoot(root)
    ensures r.None? <==> minimumSamples <= 0 && history == []
    ensures |history| < minimumSamples ==> r == Some(Detection(false, Finite(0.0)))
    ensures |history| >= minimumSamples && history != [] ==>
              Judged(threshold, root, Baseline(Mean(a, history, |history|), Variance(a, history, |history|)), current,
                     r.value)
  {
    if |history| < minimumSamples { return Some(Detection(false, Finite(0.0))); }
    if history == [] { return None; }
    var baseline := Recur(a, history);
    var verdict := Judge(threshold, root, baseline, current);
    r := Some(verdict);
  }
}
