/** The capacity forecast: a least-squares line through timed values, and when it meets a threshold.
  * Exact reals stand for floats; instants and durations are in hours.
  */
module Forecast {
  import opened Outcomes
  import opened RealAlgebra
  import opened Ranking

  datatype Point = Point(at: real, value: real)

  datatype Line = Line(intercept: real, slope: real)

  datatype State = Exhausted | Stable | Expected | LowConfidence

  datatype Outlook = Outlook(slope: real, rSquared: real, threshold: real, exhaustionAt: Option<real>, state: State)

  datatype Failure = TooFewPoints | TimesAllEqual

  // ---- sums over points --------------------------------------------------------------------

  function Sum(s: seq<Point>, f: Point -> real): real {
    if |s| == 0 then 0.0 else f(s[0]) + Sum(s[1..], f)
  }

  function Mean(s: seq<Point>, f: Point -> real): real
    requires |s| > 0
  {
    Sum(s, f) / |s| as real
  }

  function Hours(origin: real): Point -> real {
    (p: Point) => p.at - origin
  }

  function Value(): Point -> real {
    (p: Point) => p.value
  }

  function Gap(f: Point -> real, m: real): Point -> real {
    p => f(p) - m
  }

  function Product(f: Point -> real, g: Point -> real): Point -> real {
    p => f(p) * g(p)
  }

  function Predicted(line: Line, x: Point -> real): Point -> real {
    (p: Point) => line.intercept + line.slope * x(p)
  }

  /** How far a point lies above the line. */
  function Residual(line: Line, x: Point -> real): Point -> real {
    (p: Point) => p.value - (line.intercept + line.slope * x(p))
  }

  // ---- the forecast ------------------------------------------------------------------------

  function Earliness(): Point -> real {
    (p: Point) => -p.at
  }

  function Chronological(points: seq<Point>): (s: seq<Point>)
    ensures |s| == |points|
  {
    DescendingSorts(points, Earliness());
    Descending(points, Earliness())
  }

  function Spread(s: seq<Point>, x: Point -> real): real
    requires |s| > 0
  {
    Sum(s, Product(Gap(x, Mean(s, x)), Gap(x, Mean(s, x))))
  }

  function Fit(s: seq<Point>, x: Point -> real): Line
    requires |s| > 0 && Spread(s, x) != 0.0
  {
    var mx, my := Mean(s, x), Mean(s, Value());
    var slope := Sum(s, Product(Gap(x, mx), Gap(Value(), my))) / Spread(s, x);
    Line(my - slope * mx, slope)
  }

  function SquaredError(s: seq<Point>, x: Point -> real, line: Line): real {
    Sum(s, Product(Residual(line, x), Residual(line, x)))
  }

  function TotalSquares(s: seq<Point>): real
    requires |s| > 0
  {
    Sum(s, Product(Gap(Value(), Mean(s, Value())), Gap(Value(), Mean(s, Value()))))
  }

  function RSquared(s: seq<Point>, x: Point -> real, line: Line): real
    requires |s| > 0
  {
    if TotalSquares(s) > 0.0 then 1.0 - SquaredError(s, x, line) / TotalSquares(s) else 1.0
  }

  function Clamped(r: real): real {
    var atMostOne := if r < 1.0 then r else 1.0;
    if atMostOne > 0.0 then atMostOne else 0.0
  }

  function ForecastOf(points: seq<Point>, threshold: real): Result<Outlook, Failure> {
    if |points| < 3 then Err(TooFewPoints)
    else
      var ordered := Chronological(points);
      var origin := ordered[0].at;
      var x := Hours(origin);
      if Spread(ordered, x) == 0.0 then Err(TimesAllEqual)
      else
        var line := Fit(ordered, x);
        var r := RSquared(ordered, x, line);
        var latest := ordered[|ordered| - 1];
        if latest.value >= threshold then
          Ok(Outlook(line.slope, Clamped(r), threshold, Some(latest.at), Exhausted))
        else if line.slope <= 0.0 then
          Ok(Outlook(line.slope, Clamped(r), threshold, None, Stable))
        else
          var hour := (threshold - line.intercept) / line.slope;
          var state := if r >= 0.6 then Expected else LowConfidence;
          Ok(Outlook(line.slope, Clamped(r), threshold, Some(origin + hour), state))
  }

  // ---- sums --------------------------------------------------------------------------------

  lemma {:induction false} SumCombines(s: seq<Point>, f: Point -> real, g: Point -> real, h: Point -> real, d: real)
    requires forall p :: f(p) == g(p) + d * h(p)
    ensures Sum(s, f) == Sum(s, g) + d * Sum(s, h)
  {
    if |s| > 0 {
      SumCombines(s[1..], f, g, h, d);
      Distribute(d, h(s[0]), Sum(s[1..], h));
    }
  }

  lemma {:induction false} SumOfThree(s: seq<Point>, f: Point -> real, g: Point -> real, h: Point -> real,
                                      k: Point -> real, d: real)
    requires forall p :: f(p) == g(p) + h(p) + d * k(p)
    ensures Sum(s, f) == Sum(s, g) + Sum(s, h) + d * Sum(s, k)
  {
    if |s| > 0 {
      SumOfThree(s[1..], f, g, h, k, d);
      Distribute(d, k(s[0]), Sum(s[1..], k));
    }
  }

  lemma {:induction false} SumOfGaps(s: seq<Point>, f: Point -> real, m: real)
    ensures Sum(s, Gap(f, m)) == Sum(s, f) - m * |s| as real
  {
    if |s| > 0 { SumOfGaps(s[1..], f, m); }
  }

  /** Distances from the mean cancel. */
  lemma GapsCancel(s: seq<Point>, f: Point -> real)
    requires |s| > 0
    ensures Sum(s, Gap(f, Mean(s, f))) == 0.0
  {
    SumOfGaps(s, f, Mean(s, f));
  }

  lemma SquareAt(f: Point -> real, p: Point)
    ensures Product(f, f)(p) >= 0.0
    ensures f(p) != 0.0 ==> Product(f, f)(p) > 0.0
  {
    var q := SquareNonNegative(f(p));
    if f(p) != 0.0 { q := SquarePositive(f(p)); }
  }

  lemma {:induction false} SumOfSquares(s: seq<Point>, f: Point -> real)
    ensures Sum(s, Product(f, f)) >= 0.0
  {
    if |s| > 0 {
      SumOfSquares(s[1..], f);
      SquareAt(f, s[0]);
    }
  }

  lemma {:induction false} SumOfSquaresPositive(s: seq<Point>, f: Point -> real, i: nat)
    requires i < |s| && f(s[i]) != 0.0
    ensures Sum(s, Product(f, f)) > 0.0
  {
    SquareAt(f, s[0]);
    if i == 0 {
      SumOfSquares(s[1..], f);
    } else {
      SumOfSquaresPositive(s[1..], f, i - 1);
    }
  }

  lemma {:induction false} SumOfZeros(s: seq<Point>, f: Point -> real)
    requires forall i :: 0 <= i < |s| ==> f(s[i]) == 0.0
    ensures Sum(s, Product(f, f)) == 0.0
  {
    if |s| > 0 {
      SumOfZeros(s[1..], f);
      assert f(s[0]) * f(s[0]) == 0.0;
    }
  }

  // ---- the normal equations ----------------------------------------------------------------

  lemma ResidualIsGap(line: Line, mx: real, my: real, y: real, x: real)
    requires line.intercept == my - line.slope * mx
    ensures y - (line.intercept + line.slope * x) == (y - my) + -line.slope * (x - mx)
  {
  }

  lemma SumOfResiduals(s: seq<Point>, x: Point -> real, line: Line, mx: real, my: real)
    requires line.intercept == my - line.slope * mx
    ensures var b := -line.slope; Sum(s, Residual(line, x)) == Sum(s, Gap(Value(), my)) + b * Sum(s, Gap(x, mx))
  {
    var b := -line.slope;
    forall p ensures Residual(line, x)(p) == Gap(Value(), my)(p) + b * Gap(x, mx)(p) {
      ResidualIsGap(line, mx, my, p.value, x(p));
    }
    SumCombines(s, Residual(line, x), Gap(Value(), my), Gap(x, mx), b);
  }

  lemma ResidualsCancel(s: seq<Point>, x: Point -> real)
    requires |s| > 0 && Spread(s, x) != 0.0
    ensures Sum(s, Residual(Fit(s, x), x)) == 0.0
  {
    SumOfResiduals(s, x, Fit(s, x), Mean(s, x), Mean(s, Value()));
    GapsCancel(s, x);
    GapsCancel(s, Value());
  }

  lemma TimesGap(r: real, u: real, v: real, b: real)
    requires r == u + b * v
    ensures r * v == v * u + b * (v * v)
  {
    Distribute(v, u, b * v);
    Associate(v, b, v);
  }

  lemma Quotient(b: real, cross: real, spread: real)
    requires spread != 0.0 && b == cross / spread
    ensures cross + -b * spread == 0.0
  {
    assert b * spread == cross;
  }

  lemma ProductAt(f: Point -> real, g: Point -> real, p: Point, u: real, v: real)
    requires f(p) == u && g(p) == v
    ensures Product(f, g)(p) == u * v
  {
  }

  lemma ResidualTimesGapAt(x: Point -> real, line: Line, mx: real, my: real, p: Point)
    requires line.intercept == my - line.slope * mx
    ensures var gx, gy := Gap(x, mx), Gap(Value(), my);
            Product(Residual(line, x), gx)(p) == Product(gx, gy)(p) + -line.slope * Product(gx, gx)(p)
  {
    var r, u, v := Residual(line, x)(p), Gap(Value(), my)(p), Gap(x, mx)(p);
    ResidualIsGap(line, mx, my, p.value, x(p));
    TimesGap(r, u, v, -line.slope);
    ProductAt(Residual(line, x), Gap(x, mx), p, r, v);
    ProductAt(Gap(x, mx), Gap(Value(), my), p, v, u);
    ProductAt(Gap(x, mx), Gap(x, mx), p, v, v);
  }

  lemma SumOfResidualsByTime(s: seq<Point>, x: Point -> real, line: Line, mx: real, my: real)
    requires line.intercept == my - line.slope * mx
    ensures var gx, gy, b := Gap(x, mx), Gap(Value(), my), -line.slope;
            Sum(s, Product(Residual(line, x), gx)) == Sum(s, Product(gx, gy)) + b * Sum(s, Product(gx, gx))
  {
    var gx, gy, b := Gap(x, mx), Gap(Value(), my), -line.slope;
    var residuals, mixed, squares := Product(Residual(line, x), gx), Product(gx, gy), Product(gx, gx);
    forall p ensures residuals(p) == mixed(p) + b * squares(p) { ResidualTimesGapAt(x, line, mx, my, p); }
    SumCombines(s, residuals, mixed, squares, b);
  }

  lemma ResidualsIgnoreTime(s: seq<Point>, x: Point -> real)
    requires |s| > 0 && Spread(s, x) != 0.0
    ensures Sum(s, Product(Residual(Fit(s, x), x), Gap(x, Mean(s, x)))) == 0.0
  {
    var line, mx, my, cross, spread := FitParts(s, x);
    SumOfResidualsByTime(s, x, line, mx, my);
    Quotient(line.slope, cross, spread);
  }

  lemma FitParts(s: seq<Point>, x: Point -> real) returns (line: Line, mx: real, my: real, cross: real, spread: real)
    requires |s| > 0 && Spread(s, x) != 0.0
    ensures line == Fit(s, x) && mx == Mean(s, x) && my == Mean(s, Value()) && line.intercept == my - line.slope * mx
    ensures cross == Sum(s, Product(Gap(x, mx), Gap(Value(), my))) && spread == Sum(s, Product(Gap(x, mx), Gap(x, mx)))
    ensures spread != 0.0 && line.slope == cross / spread
  {
    line, mx, my, spread := Fit(s, x), Mean(s, x), Mean(s, Value()), Spread(s, x);
    cross := Sum(s, Product(Gap(x, mx), Gap(Value(), my)));
  }

  // ---- least squares -----------------------------------------------------------------------

  /** How far one line lies above another at a point. */
  function Above(line: Line, other: Line, x: Point -> real): Point -> real {
    p => (line.intercept - other.intercept) + (line.slope - other.slope) * x(p)
  }

  lemma SquareOfSum(r: real, e: real, f: real)
    requires f == r + e
    ensures f * f == r * r + e * e + 2.0 * (r * e)
  {
  }

  lemma OtherResidual(line: Line, other: Line, x: Point -> real, p: Point)
    ensures Residual(other, x)(p) == Residual(line, x)(p) + Above(line, other, x)(p)
  {
    var u, v, t := line.slope, other.slope, x(p);
    assert (u - v) * t == u * t - v * t;
  }

  lemma AboveFromMean(r: real, u: real, v: real, x: real, m: real)
    ensures r * (u + v * x) == (u + v * m) * r + v * (r * (x - m))
  {
    var d := x - m;
    assert u + v * x == (u + v * m) + v * d;
    Distribute(r, u + v * m, v * d);
    Associate(r, v, d);
  }

  function Scaled(c: real, f: Point -> real): Point -> real {
    p => c * f(p)
  }

  lemma AboveAt(x: Point -> real, r: Point -> real, line: Line, other: Line, m: real, p: Point)
    ensures var u, v := line.intercept - other.intercept, line.slope - other.slope;
            Product(r, Above(line, other, x))(p) == Scaled(u + v * m, r)(p) + v * Product(r, Gap(x, m))(p)
  {
    var u, v := line.intercept - other.intercept, line.slope - other.slope;
    AboveFromMean(r(p), u, v, x(p), m);
    ProductAt(r, Above(line, other, x), p, r(p), u + v * x(p));
    ProductAt(r, Gap(x, m), p, r(p), x(p) - m);
  }

  lemma SumOfResidualsAbove(s: seq<Point>, x: Point -> real, r: Point -> real, line: Line, other: Line, m: real)
    ensures var u, v := line.intercept - other.intercept, line.slope - other.slope;
            var w := u + v * m;
            Sum(s, Product(r, Above(line, other, x))) == w * Sum(s, r) + v * Sum(s, Product(r, Gap(x, m)))
  {
    var e, u, v := Above(line, other, x), line.intercept - other.intercept, line.slope - other.slope;
    var w := u + v * m;
    forall p ensures Product(r, e)(p) == Scaled(w, r)(p) + v * Product(r, Gap(x, m))(p) {
      AboveAt(x, r, line, other, m, p);
    }
    SumCombines(s, Product(r, e), Scaled(w, r), Product(r, Gap(x, m)), v);
    SumScales(s, Scaled(w, r), r, w);
  }

  lemma ResidualsIgnoreLines(s: seq<Point>, x: Point -> real, other: Line)
    requires |s| > 0 && Spread(s, x) != 0.0
    ensures Sum(s, Product(Residual(Fit(s, x), x), Above(Fit(s, x), other, x))) == 0.0
  {
    SumOfResidualsAbove(s, x, Residual(Fit(s, x), x), Fit(s, x), other, Mean(s, x));
    ResidualsCancel(s, x);
    ResidualsIgnoreTime(s, x);
  }

  lemma {:induction false} SumScales(s: seq<Point>, f: Point -> real, g: Point -> real, c: real)
    requires forall p :: f(p) == c * g(p)
    ensures Sum(s, f) == c * Sum(s, g)
  {
    if |s| > 0 {
      SumScales(s[1..], f, g, c);
      Distribute(c, g(s[0]), Sum(s[1..], g));
    }
  }

  /** Any line's squared error is the fitted line's plus the squared distance between the two lines. */
  lemma ErrorSplits(s: seq<Point>, x: Point -> real, other: Line)
    requires |s| > 0 && Spread(s, x) != 0.0
    ensures var e := Above(Fit(s, x), other, x);
            SquaredError(s, x, other) == SquaredError(s, x, Fit(s, x)) + Sum(s, Product(e, e))
  {
    var line := Fit(s, x);
    var f, r, e := Residual(other, x), Residual(line, x), Above(line, other, x);
    forall p ensures Product(f, f)(p) == Product(r, r)(p) + Product(e, e)(p) + 2.0 * Product(r, e)(p) {
      OtherResidual(line, other, x, p);
      SquareOfSum(r(p), e(p), f(p));
    }
    SumOfThree(s, Product(f, f), Product(r, r), Product(e, e), Product(r, e), 2.0);
    ResidualsIgnoreLines(s, x, other);
  }

  /** Lines that agree at all points of a fit are the same line. */
  lemma LinesApart(s: seq<Point>, x: Point -> real, other: Line)
    requires |s| > 0 && Spread(s, x) != 0.0 && other != Fit(s, x)
    ensures var e := Above(Fit(s, x), other, x); Sum(s, Product(e, e)) > 0.0
  {
    var line := Fit(s, x);
    var e := Above(line, other, x);
    var i, j := TwoTimes(s, x);
    DifferentLine(line.intercept - other.intercept, line.slope - other.slope, x(s[i]), x(s[j]));
    SumOfSquaresPositive(s, e, if e(s[i]) != 0.0 then i else j);
  }

  /** The fitted line minimises squared error over all lines, and is the only line that does. */
  lemma FitIsLeastSquares(s: seq<Point>, x: Point -> real, other: Line)
    requires |s| > 0 && Spread(s, x) != 0.0
    ensures SquaredError(s, x, Fit(s, x)) <= SquaredError(s, x, other)
    ensures SquaredError(s, x, Fit(s, x)) == SquaredError(s, x, other) <==> other == Fit(s, x)
  {
    ErrorSplits(s, x, other);
    SumOfSquares(s, Above(Fit(s, x), other, x));
    if other != Fit(s, x) { LinesApart(s, x, other); }
  }

  lemma DifferentLine(u: real, v: real, a: real, b: real)
    requires (u != 0.0 || v != 0.0) && a != b
    ensures u + v * a != 0.0 || u + v * b != 0.0
  {
    var d := v * (a - b);
    assert d == (u + v * a) - (u + v * b);
    if v > 0.0 {
      if a > b { var p := Positive(v, a - b); } else { var p := Positive(v, b - a); }
    } else if v < 0.0 {
      if a > b { var p := Positive(-v, a - b); } else { var p := Positive(-v, b - a); }
    }
  }

  /** A positive spread means two different times. */
  lemma TwoTimes(s: seq<Point>, x: Point -> real) returns (i: nat, j: nat)
    requires |s| > 0 && Spread(s, x) != 0.0
    ensures i < |s| && j < |s| && x(s[i]) != x(s[j])
  {
    if forall k :: 0 <= k < |s| ==> x(s[k]) == x(s[0]) {
      SpreadOfEqual(s, x);
    }
    i, j :| 0 <= i < |s| && 0 <= j < |s| && x(s[i]) != x(s[j]);
  }

  lemma {:induction false} SumOfEqual(s: seq<Point>, f: Point -> real, c: real)
    requires forall i :: 0 <= i < |s| ==> f(s[i]) == c
    ensures Sum(s, f) == c * |s| as real
  {
    if |s| > 0 { SumOfEqual(s[1..], f, c); }
  }

  lemma SpreadOfEqual(s: seq<Point>, x: Point -> real)
    requires |s| > 0 && forall k :: 0 <= k < |s| ==> x(s[k]) == x(s[0])
    ensures Spread(s, x) == 0.0
  {
    SumOfEqual(s, x, x(s[0]));
    SumOfZeros(s, Gap(x, Mean(s, x)));
  }

  /** No spread means that all points share one time, and only that. */
  lemma SpreadSign(s: seq<Point>, x: Point -> real)
    requires |s| > 0
    ensures Spread(s, x) >= 0.0
    ensures Spread(s, x) == 0.0 <==> forall k :: 0 <= k < |s| ==> x(s[k]) == x(s[0])
  {
    var g := Gap(x, Mean(s, x));
    SumOfSquares(s, g);
    if forall k :: 0 <= k < |s| ==> x(s[k]) == x(s[0]) {
      SpreadOfEqual(s, x);
    } else {
      var k :| 0 <= k < |s| && x(s[k]) != x(s[0]);
      SumOfSquaresPositive(s, g, if g(s[k]) != 0.0 then k else 0);
    }
  }

  // ---- explained variation -----------------------------------------------------------------

  lemma {:induction false} SumOfSame(s: seq<Point>, f: Point -> real, g: Point -> real)
    requires forall p :: f(p) == g(p)
    ensures Sum(s, f) == Sum(s, g)
  {
    if |s| > 0 { SumOfSame(s[1..], f, g); }
  }

  /** Squared distance of the predictions from the mean value. */
  function Explained(s: seq<Point>, x: Point -> real, line: Line): real
    requires |s| > 0
  {
    var my := Mean(s, Value());
    Sum(s, Product(Gap(Predicted(line, x), my), Gap(Predicted(line, x), my)))
  }

  lemma FlatLine(s: seq<Point>, x: Point -> real, m: real)
    ensures SquaredError(s, x, Line(m, 0.0)) == Sum(s, Product(Gap(Value(), m), Gap(Value(), m)))
  {
    var r, g := Residual(Line(m, 0.0), x), Gap(Value(), m);
    forall p ensures Product(r, r)(p) == Product(g, g)(p) {
      assert 0.0 * x(p) == 0.0;
      assert r(p) == g(p);
    }
    SumOfSame(s, Product(r, r), Product(g, g));
  }

  lemma AboveFlat(s: seq<Point>, x: Point -> real, line: Line, m: real)
    ensures var e, g := Above(line, Line(m, 0.0), x), Gap(Predicted(line, x), m);
            Sum(s, Product(e, e)) == Sum(s, Product(g, g))
  {
    var e, g := Above(line, Line(m, 0.0), x), Gap(Predicted(line, x), m);
    forall p ensures Product(e, e)(p) == Product(g, g)(p) {
      assert e(p) == g(p);
    }
    SumOfSame(s, Product(e, e), Product(g, g));
  }

  /** Residual plus explained variation is the total. */
  lemma VariationSplits(s: seq<Point>, x: Point -> real)
    requires |s| > 0 && Spread(s, x) != 0.0
    ensures TotalSquares(s) == SquaredError(s, x, Fit(s, x)) + Explained(s, x, Fit(s, x))
  {
    var line, my := Fit(s, x), Mean(s, Value());
    ErrorSplits(s, x, Line(my, 0.0));
    FlatLine(s, x, my);
    AboveFlat(s, x, line, my);
  }

  lemma Share(a: real, b: real)
    requires 0.0 <= a <= b && b > 0.0
    ensures 0.0 <= a / b <= 1.0
  {
    QuotientAtLeast(a, b, 0.0);
    var q := a / b;
    assert q * b == a;
    if q > 1.0 { StrictlyMonotone(1.0, q, b); }
  }

  /** R squared is a share already before it is clamped. */
  lemma RSquaredIsShare(s: seq<Point>, x: Point -> real)
    requires |s| > 0 && Spread(s, x) != 0.0
    ensures 0.0 <= RSquared(s, x, Fit(s, x)) <= 1.0
    ensures Clamped(RSquared(s, x, Fit(s, x))) == RSquared(s, x, Fit(s, x))
    ensures TotalSquares(s) >= 0.0
    ensures TotalSquares(s) == 0.0 ==> RSquared(s, x, Fit(s, x)) == 1.0
    ensures TotalSquares(s) > 0.0 ==>
              RSquared(s, x, Fit(s, x)) == 1.0 - SquaredError(s, x, Fit(s, x)) / TotalSquares(s)
  {
    VariationSplits(s, x);
    SumOfSquares(s, Residual(Fit(s, x), x));
    SumOfSquares(s, Gap(Predicted(Fit(s, x), x), Mean(s, Value())));
    if TotalSquares(s) > 0.0 { Share(SquaredError(s, x, Fit(s, x)), TotalSquares(s)); }
  }

  // ---- what a forecast says ----------------------------------------------------------------

  ghost predicate OneTime(points: seq<Point>) {
    forall p, q :: p in points && q in points ==> p.at == q.at
  }

  lemma OneTimeMeansNoSpread(points: seq<Point>)
    requires |points| > 0
    ensures var s := Chronological(points); Spread(s, Hours(s[0].at)) == 0.0 <==> OneTime(points)
  {
    var s := Chronological(points);
    SameMembers(points, Earliness());
    SpreadSign(s, Hours(s[0].at));
    if OneTime(points) {
      forall k | 0 <= k < |s| ensures s[k].at == s[0].at { assert s[k] in points && s[0] in points; }
    }
    if forall k :: 0 <= k < |s| ==> Hours(s[0].at)(s[k]) == Hours(s[0].at)(s[0]) {
      forall p, q | p in points && q in points ensures p.at == q.at {
        assert p in s && q in s;
      }
    }
  }

  /** Errors exactly for too few points or a single time; otherwise the latest point decides whether
    * the threshold is reached, and a prediction is where the fitted line meets it.
    */
  lemma ForecastMeans(points: seq<Point>, threshold: real)
    ensures ForecastOf(points, threshold) == Err(TooFewPoints) <==> |points| < 3
    ensures ForecastOf(points, threshold) == Err(TimesAllEqual) <==> |points| >= 3 && OneTime(points)
    ensures |points| >= 3 && !OneTime(points) ==>
              var s := Chronological(points);
              var x, o := Hours(s[0].at), ForecastOf(points, threshold).value;
              && Spread(s, x) > 0.0
              && o.slope == Fit(s, x).slope
              && o.rSquared == RSquared(s, x, Fit(s, x))
              && 0.0 <= o.rSquared <= 1.0
              && (s[|s| - 1].value >= threshold ==> o.state == Exhausted && o.exhaustionAt == Some(s[|s| - 1].at))
              && (s[|s| - 1].value < threshold && o.slope <= 0.0 ==> o.state == Stable && o.exhaustionAt == None)
              && (s[|s| - 1].value < threshold && o.slope > 0.0 ==>
                    && o.exhaustionAt.Some?
                    && Predicted(Fit(s, x), x)(Point(o.exhaustionAt.value, threshold)) == threshold
                    && o.state == if o.rSquared >= 0.6 then Expected else LowConfidence)
  {
    if |points| >= 3 {
      var s := Chronological(points);
      var x := Hours(s[0].at);
      OneTimeMeansNoSpread(points);
      SpreadSign(s, x);
      if !OneTime(points) {
        RSquaredIsShare(s, x);
        var line := Fit(s, x);
        if line.slope > 0.0 {
          var hour := (threshold - line.intercept) / line.slope;
          assert line.slope * hour == threshold - line.intercept;
        }
      }
    }
  }

  // ---- the order of the input --------------------------------------------------------------

  lemma {:induction false} SumWithout(s: seq<Point>, i: nat, f: Point -> real)
    requires i < |s|
    ensures Sum(s, f) == f(s[i]) + Sum(s[..i] + s[i + 1..], f)
  {
    if i == 0 {
      assert s[..0] + s[1..] == s[1..];
    } else {
      SumWithout(s[1..], i - 1, f);
      assert (s[..i] + s[i + 1..])[1..] == s[1..][..i - 1] + s[1..][i..];
    }
  }

  lemma Removed(s: seq<Point>, i: nat)
    requires i < |s|
    ensures multiset(s[..i] + s[i + 1..]) == multiset(s) - multiset{s[i]}
  {
    assert s == s[..i] + [s[i]] + s[i + 1..];
  }

  lemma SameAfterRemoval(a: seq<Point>, b: seq<Point>) returns (i: nat)
    requires multiset(a) == multiset(b) && |a| > 0
    ensures i < |b| && b[i] == a[0]
    ensures multiset(a[1..]) == multiset(b[..i] + b[i + 1..])
  {
    Removed(a, 0);
    assert a[..0] + a[1..] == a[1..];
    assert a[0] in multiset(a);
    i :| 0 <= i < |b| && b[i] == a[0];
    Removed(b, i);
  }

  lemma {:induction false} SumIgnoresOrder(a: seq<Point>, b: seq<Point>, f: Point -> real)
    requires multiset(a) == multiset(b)
    ensures Sum(a, f) == Sum(b, f)
  {
    SameSize(a, b);
    if |a| > 0 {
      var i := SameAfterRemoval(a, b);
      SumIgnoresOrder(a[1..], b[..i] + b[i + 1..], f);
      SumWithout(b, i, f);
    }
  }

  lemma StatisticsIgnoreOrder(a: seq<Point>, b: seq<Point>, x: Point -> real)
    requires multiset(a) == multiset(b) && |a| > 0 && |b| > 0
    ensures Spread(a, x) == Spread(b, x)
    ensures Spread(a, x) != 0.0 ==> Fit(a, x) == Fit(b, x) && RSquared(a, x, Fit(a, x)) == RSquared(b, x, Fit(b, x))
  {
    SameSize(a, b);
    SumIgnoresOrder(a, b, x);
    SumIgnoresOrder(a, b, Value());
    var gx, gy := Gap(x, Mean(a, x)), Gap(Value(), Mean(a, Value()));
    SumIgnoresOrder(a, b, Product(gx, gx));
    SumIgnoresOrder(a, b, Product(gx, gy));
    SumIgnoresOrder(a, b, Product(gy, gy));
    if Spread(a, x) != 0.0 {
      var r := Residual(Fit(a, x), x);
      SumIgnoresOrder(a, b, Product(r, r));
    }
  }

  function Latest(points: seq<Point>): Point
    requires |points| > 0
  {
    var s := Chronological(points);
    s[|s| - 1]
  }

  lemma EndsAreExtremes(points: seq<Point>)
    requires |points| > 0
    ensures forall p :: p in points ==> Chronological(points)[0].at <= p.at <= Latest(points).at
    ensures Chronological(points)[0] in points && Latest(points) in points
    ensures multiset(Chronological(points)) == multiset(points)
  {
    var s := Chronological(points);
    DescendingSorts(points, Earliness());
    SameMembers(points, Earliness());
    forall p | p in points ensures s[0].at <= p.at <= s[|s| - 1].at {
      assert p in s;
      var i :| 0 <= i < |s| && s[i] == p;
      assert Earliness()(s[0]) >= Earliness()(s[i]) >= Earliness()(s[|s| - 1]);
    }
    assert s[0] in s && s[|s| - 1] in s;
  }

  lemma SameEnds(a: seq<Point>, b: seq<Point>)
    requires multiset(a) == multiset(b) && |a| > 0 && |b| > 0
    ensures Chronological(a)[0].at == Chronological(b)[0].at && Latest(a).at == Latest(b).at
  {
    EndsAreExtremes(a);
    EndsAreExtremes(b);
    forall p ensures p in a <==> p in b {
      assert p in a <==> p in multiset(a);
      assert p in b <==> p in multiset(b);
    }
  }

  /** Two orders of the same points give the same slope and R squared, and the same forecast exactly
    * when their latest points are on the same side of the threshold.
    */
  lemma OrderMattersForLatestOnly(a: seq<Point>, b: seq<Point>, threshold: real)
    requires multiset(a) == multiset(b)
    ensures ForecastOf(a, threshold).Ok? == ForecastOf(b, threshold).Ok?
    ensures ForecastOf(a, threshold).Err? ==> ForecastOf(a, threshold) == ForecastOf(b, threshold)
    ensures ForecastOf(a, threshold).Ok? ==>
              var p, q := ForecastOf(a, threshold).value, ForecastOf(b, threshold).value;
              && p.slope == q.slope && p.rSquared == q.rSquared
              && (p == q <==> (Latest(a).value >= threshold <==> Latest(b).value >= threshold))
  {
    SameSize(a, b);
    if |a| >= 3 {
      SameEnds(a, b);
      EndsAreExtremes(a);
      EndsAreExtremes(b);
      StatisticsIgnoreOrder(Chronological(a), Chronological(b), Hours(Chronological(a)[0].at));
    }
  }

  /** With one value at the latest time, the order of the input does not matter at all. */
  lemma OneLatestValue(a: seq<Point>, b: seq<Point>, threshold: real)
    requires multiset(a) == multiset(b)
    requires forall p, q :: p in a && q in a && p.at == q.at && (forall r :: r in a ==> r.at <= p.at) ==>
               p.value == q.value
    ensures ForecastOf(a, threshold) == ForecastOf(b, threshold)
  {
    OrderMattersForLatestOnly(a, b, threshold);
    SameSize(a, b);
    if |a| > 0 {
      SameEnds(a, b);
      EndsAreExtremes(a);
      EndsAreExtremes(b);
      assert Latest(b) in multiset(a);
      assert Latest(a).value == Latest(b).value;
    }
  }

  lemma {:induction false} LastOfItsKey(s: seq<Point>, key: Point -> real)
    requires |s| > 0
    ensures var tied := WithKey(s, key, key(s[|s| - 1])); |tied| > 0 && tied[|tied| - 1] == s[|s| - 1]
  {
    if |s| > 1 {
      LastOfItsKey(s[1..], key);
      assert s[1..][|s| - 2] == s[|s| - 1];
    }
  }

  /** Of several points at the latest time, the one listed last is taken. */
  lemma LatestIsLastListed(points: seq<Point>)
    requires |points| > 0
    ensures var tied := WithKey(points, Earliness(), -Latest(points).at);
            |tied| > 0 && tied[|tied| - 1] == Latest(points)
  {
    DescendingSorts(points, Earliness());
    LastOfItsKey(Chronological(points), Earliness());
  }

  /** So two orders of the same points can be told apart. */
  lemma TieChangesState()
    ensures var a, b := Point(2.0, 10.0), Point(2.0, 0.0);
            var early := [Point(0.0, 0.0), Point(1.0, 0.0)];
            && ForecastOf(early + [b, a], 5.0).Ok? && ForecastOf(early + [b, a], 5.0).value.state == Exhausted
            && ForecastOf(early + [a, b], 5.0).Ok? && ForecastOf(early + [a, b], 5.0).value.state != Exhausted
  {
    var a, b := Point(2.0, 10.0), Point(2.0, 0.0);
    var early := [Point(0.0, 0.0), Point(1.0, 0.0)];
    AlreadyChronological(early[0], early[1], a, b);
    AlreadyChronological(early[0], early[1], b, a);
    assert early + [b, a] == [early[0], early[1], b, a] && early + [a, b] == [early[0], early[1], a, b];
    ForecastMeans(early + [b, a], 5.0);
    ForecastMeans(early + [a, b], 5.0);
    assert early[0] in early + [b, a] && early[1] in early + [b, a];
    assert early[0] in early + [a, b] && early[1] in early + [a, b];
  }

  lemma AlreadyChronological(p: Point, q: Point, r: Point, t: Point)
    requires p.at <= q.at <= r.at <= t.at
    ensures Chronological([p, q, r, t]) == [p, q, r, t]
  {
    var key := Earliness();
    assert Descending([t], key) == [t] by { assert [t][1..] == []; }
    assert Descending([r, t], key) == [r, t] by { assert [r, t][1..] == [t]; }
    assert Descending([q, r, t], key) == [q, r, t] by { assert [q, r, t][1..] == [r, t]; }
    assert [p, q, r, t][1..] == [q, r, t];
  }
}
