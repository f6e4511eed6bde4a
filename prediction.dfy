/** Least-squares linear regression over indexed prices, a forward
    projection with a trend label, and the confidence label of a fit
    (utils/prediction.ts). */
module Prediction {
  import opened Common
  import opened RealAlgebra

  /** `{ slope, intercept, rSquared }` of a fitted line. */
  datatype Regression = Regression(slope: real, intercept: real, rSquared: real)

  datatype Trend = Bullish | Bearish | Neutral

  /** `{ predictions, slope, intercept, rSquared, trend }`. */
  datatype PredictionResult = PredictionResult(
    predictions: seq<PricePoint>,
    slope: real,
    intercept: real,
    rSquared: real,
    trend: Trend)

  const LengthError: string := "Input arrays must have the same non-zero length"
  const InsufficientDataError: string := "Need at least 2 data points for prediction"

  // ---------------------------------------------------------------------
  // The sums the regression is built from
  // ---------------------------------------------------------------------

  /** Σ x[i]·y[i]; with x == y this is Σ x[i]². */
  function SumProducts(x: seq<real>, y: seq<real>): real
    requires |x| == |y|
  {
    if x == [] then 0.0 else Mul(x[0], y[0]) + SumProducts(x[1..], y[1..])
  }

  /** Σ (y[i] − c)²: the spread of y around c. */
  function Spread(y: seq<real>, c: real): real
  {
    if y == [] then 0.0 else Mul(y[0] - c, y[0] - c) + Spread(y[1..], c)
  }

  /** Σ (y[i] − (slope·x[i] + intercept))²: the squared error of a line. */
  function SquaredError(x: seq<real>, y: seq<real>, slope: real, intercept: real): real
    requires |x| == |y|
  {
    if x == [] then 0.0
    else
      Mul(y[0] - (Mul(slope, x[0]) + intercept), y[0] - (Mul(slope, x[0]) + intercept))
        + SquaredError(x[1..], y[1..], slope, intercept)
  }

  /** n·Σx² − (Σx)², the denominator of the slope formula. */
  function Denominator(x: seq<real>): real
  {
    Mul(|x| as real, SumProducts(x, x)) - Mul(Sum(x), Sum(x))
  }

  /** The two normal equations of least squares for the line (slope,
      intercept) over the points (x[i], y[i]). */
  predicate NormalEquations(x: seq<real>, y: seq<real>, slope: real, intercept: real)
    requires |x| == |y|
  {
    Balanced(|x| as real, Sum(x), SumProducts(x, x), Sum(y), SumProducts(x, y), slope, intercept)
  }

  // ---------------------------------------------------------------------
  // Algebra of the sums
  // ---------------------------------------------------------------------

  lemma {:induction false} SpreadNonNegative(y: seq<real>, c: real)
    ensures Spread(y, c) >= 0.0
  {
    if y != [] {
      SpreadNonNegative(y[1..], c);
      MulSelfNonNegative(y[0] - c);
      assert Spread(y, c) == Mul(y[0] - c, y[0] - c) + Spread(y[1..], c);
    }
  }

  lemma {:induction false} SquaredErrorNonNegative(x: seq<real>, y: seq<real>, slope: real, intercept: real)
    requires |x| == |y|
    ensures SquaredError(x, y, slope, intercept) >= 0.0
  {
    if x != [] {
      SquaredErrorNonNegative(x[1..], y[1..], slope, intercept);
      var e := y[0] - (Mul(slope, x[0]) + intercept);
      MulSelfNonNegative(e);
      assert SquaredError(x, y, slope, intercept) == Mul(e, e) + SquaredError(x[1..], y[1..], slope, intercept);
    }
  }

  /** Σ (x[i] − c)² = Σx² − 2c·Σx + n·c². */
  lemma {:induction false} SpreadExpands(x: seq<real>, c: real)
    ensures Spread(x, c) == SumProducts(x, x) - 2.0 * Mul(c, Sum(x)) + Mul(|x| as real, Mul(c, c))
  {
    if x != [] {
      SpreadExpands(x[1..], c);
      SpreadStep(x[0], c, SumProducts(x[1..], x[1..]), Sum(x[1..]), |x[1..]| as real, Spread(x[1..], c));
      assert Spread(x, c) == Mul(x[0] - c, x[0] - c) + Spread(x[1..], c);
      assert SumProducts(x, x) == Mul(x[0], x[0]) + SumProducts(x[1..], x[1..]);
      assert Sum(x) == x[0] + Sum(x[1..]);
      assert |x| as real == |x[1..]| as real + 1.0;
    } else {
      MulIsProduct(c, 0.0);
      MulIsProduct(0.0, Mul(c, c));
    }
  }

  /** With m the mean of x (n·m = Σx), the denominator is n times the spread
      of x around m. */
  lemma DenominatorIsSpread(x: seq<real>, m: real)
    requires Mul(|x| as real, m) == Sum(x)
    ensures Denominator(x) == Mul(|x| as real, Spread(x, m))
  {
    SpreadExpands(x, m);
    MeanSpread(|x| as real, Sum(x), SumProducts(x, x), m, Spread(x, m));
  }

  /** The denominator is never negative. */
  lemma DenominatorNonNegative(x: seq<real>)
    requires |x| > 0
    ensures Denominator(x) >= 0.0
  {
    var n := |x| as real;
    MulMean(n, Sum(x));
    DenominatorIsSpread(x, Sum(x) / n);
    SpreadNonNegative(x, Sum(x) / n);
    MulNonNegative(n, Spread(x, Sum(x) / n));
  }

  /** One value away from the centre makes the spread positive. */
  lemma {:induction false} OffCentreSpreads(x: seq<real>, c: real, i: int)
    requires 0 <= i < |x| && x[i] != c
    ensures Spread(x, c) > 0.0
  {
    assert Spread(x, c) == Mul(x[0] - c, x[0] - c) + Spread(x[1..], c);
    if i == 0 {
      SpreadNonNegative(x[1..], c);
      SquarePlusPositive(x[0] - c, Spread(x[1..], c));
    } else {
      assert x[1..][i - 1] == x[i];
      OffCentreSpreads(x[1..], c, i - 1);
      MulSelfNonNegative(x[0] - c);
    }
  }

  /** No spread around c when every value is c. */
  lemma {:induction false} SpreadOfConstant(x: seq<real>, c: real)
    requires forall i :: 0 <= i < |x| ==> x[i] == c
    ensures Spread(x, c) == 0.0
  {
    if x != [] {
      SpreadOfConstant(x[1..], c);
      MulIsProduct(x[0] - c, x[0] - c);
    }
  }

  /** A zero denominator means every x equals the mean m. */
  lemma ZeroDenominatorIsConstant(x: seq<real>, m: real)
    requires |x| > 0 && Mul(|x| as real, m) == Sum(x) && Denominator(x) == 0.0
    ensures forall i :: 0 <= i < |x| ==> x[i] == m
  {
    DenominatorIsSpread(x, m);
    forall i | 0 <= i < |x|
      ensures x[i] == m
    {
      if x[i] != m {
        OffCentreSpreads(x, m, i);
        MulPositive(|x| as real, Spread(x, m));
        assert false;
      }
    }
  }

  /** The denominator is zero exactly when all x coincide, which is when the
      slope formula cannot be used. */
  lemma DenominatorZeroIff(x: seq<real>)
    requires |x| > 0
    ensures Denominator(x) == 0.0 <==> forall i, j :: 0 <= i < |x| && 0 <= j < |x| ==> x[i] == x[j]
  {
    var n := |x| as real;
    if Denominator(x) == 0.0 {
      MulMean(n, Sum(x));
      ZeroDenominatorIsConstant(x, Sum(x) / n);
    }
    if forall i, j :: 0 <= i < |x| && 0 <= j < |x| ==> x[i] == x[j] {
      var c := x[0];
      assert forall i :: 0 <= i < |x| ==> x[i] == c;
      SpreadOfConstant(x, c);
      SumConstant(x, c);
      MulIsProduct(n, c);
      DenominatorIsSpread(x, c);
      MulIsProduct(n, Spread(x, c));
    }
  }

  /** When every x is c, Σ x·y = c·Σ y. */
  lemma {:induction false} SumProductsConstant(x: seq<real>, y: seq<real>, c: real)
    requires |x| == |y|
    requires forall i :: 0 <= i < |x| ==> x[i] == c
    ensures SumProducts(x, y) == Mul(c, Sum(y))
  {
    if x != [] {
      SumProductsConstant(x[1..], y[1..], c);
      ConstantProductStep(x[0], y[0], c, Sum(y[1..]), SumProducts(x[1..], y[1..]));
      assert SumProducts(x, y) == Mul(x[0], y[0]) + SumProducts(x[1..], y[1..]);
      assert Sum(y) == y[0] + Sum(y[1..]);
    } else {
      MulIsProduct(c, 0.0);
    }
  }

  /** A line with slope 0 has the spread of y around its intercept as its
      squared error. */
  lemma {:induction false} FlatLineError(x: seq<real>, y: seq<real>, c: real)
    requires |x| == |y|
    ensures SquaredError(x, y, 0.0, c) == Spread(y, c)
  {
    if x != [] {
      FlatLineError(x[1..], y[1..], c);
      MulIsProduct(0.0, x[0]);
      assert y[0] - (Mul(0.0, x[0]) + c) == y[0] - c;
      assert SquaredError(x, y, 0.0, c) == Mul(y[0] - (Mul(0.0, x[0]) + c), y[0] - (Mul(0.0, x[0]) + c))
                                           + SquaredError(x[1..], y[1..], 0.0, c);
      assert Spread(y, c) == Mul(y[0] - c, y[0] - c) + Spread(y[1..], c);
    }
  }

  /** Σ (d·x[i] + e)², the squared gap between two lines. */
  function LineGap(x: seq<real>, d: real, e: real): real
  {
    if x == [] then 0.0 else Mul(Mul(d, x[0]) + e, Mul(d, x[0]) + e) + LineGap(x[1..], d, e)
  }

  lemma {:induction false} LineGapNonNegative(x: seq<real>, d: real, e: real)
    ensures LineGap(x, d, e) >= 0.0
  {
    if x != [] {
      LineGapNonNegative(x[1..], d, e);
      MulSelfNonNegative(Mul(d, x[0]) + e);
      assert LineGap(x, d, e) == Mul(Mul(d, x[0]) + e, Mul(d, x[0]) + e) + LineGap(x[1..], d, e);
    }
  }

  /** The squared error of any line (s2, b2) is that of (s, b), plus twice the
      normal-equation residuals of (s, b) weighted by the change of slope and
      of intercept, plus the squared gap between the two lines. */
  lemma {:induction false} SquaredErrorShift(x: seq<real>, y: seq<real>, s: real, b: real, s2: real, b2: real)
    requires |x| == |y|
    ensures SquaredError(x, y, s2, b2)
         == SquaredError(x, y, s, b)
          + 2.0 * (Mul(s - s2, SlopeResidual(Sum(x), SumProducts(x, x), SumProducts(x, y), s, b))
                   + Mul(b - b2, InterceptResidual(|x| as real, Sum(x), Sum(y), s, b)))
          + LineGap(x, s - s2, b - b2)
  {
    if x != [] {
      var x1, y1 := x[1..], y[1..];
      SquaredErrorShift(x1, y1, s, b, s2, b2);
      ShiftStep(x[0], y[0], s, b, s2, b2,
                SumProducts(x1, y1), SumProducts(x1, x1), Sum(x1), Sum(y1), |x1| as real,
                SquaredError(x1, y1, s, b), SquaredError(x1, y1, s2, b2), LineGap(x1, s - s2, b - b2));
      assert SquaredError(x, y, s, b) == Mul(y[0] - (Mul(s, x[0]) + b), y[0] - (Mul(s, x[0]) + b))
                                         + SquaredError(x1, y1, s, b);
      assert SquaredError(x, y, s2, b2) == Mul(y[0] - (Mul(s2, x[0]) + b2), y[0] - (Mul(s2, x[0]) + b2))
                                           + SquaredError(x1, y1, s2, b2);
      assert LineGap(x, s - s2, b - b2) == Mul(Mul(s - s2, x[0]) + (b - b2), Mul(s - s2, x[0]) + (b - b2))
                                           + LineGap(x1, s - s2, b - b2);
      assert SumProducts(x, y) == Mul(x[0], y[0]) + SumProducts(x1, y1);
      assert SumProducts(x, x) == Mul(x[0], x[0]) + SumProducts(x1, x1);
      assert Sum(x) == x[0] + Sum(x1);
      assert Sum(y) == y[0] + Sum(y1);
      assert |x| as real == |x1| as real + 1.0;
    } else {
      MulIsProduct(s, 0.0);
      MulIsProduct(b, 0.0);
      MulIsProduct(0.0, b);
      MulIsProduct(s - s2, 0.0);
      MulIsProduct(b - b2, 0.0);
      assert y == [];
      assert SlopeResidual(Sum(x), SumProducts(x, x), SumProducts(x, y), s, b) == 0.0;
      assert InterceptResidual(|x| as real, Sum(x), Sum(y), s, b) == 0.0;
      assert LineGap(x, s - s2, b - b2) == 0.0;
      assert SquaredError(x, y, s, b) == 0.0;
      assert SquaredError(x, y, s2, b2) == 0.0;
    }
  }

  /** A line that satisfies the normal equations has the least squared error
      of all lines. */
  lemma NormalEquationsMinimise(x: seq<real>, y: seq<real>, s: real, b: real, s2: real, b2: real)
    requires |x| == |y|
    requires NormalEquations(x, y, s, b)
    ensures SquaredError(x, y, s, b) <= SquaredError(x, y, s2, b2)
  {
    SquaredErrorShift(x, y, s, b, s2, b2);
    LineGapNonNegative(x, s - s2, b - b2);
    MinimiseStep(|x| as real, Sum(x), SumProducts(x, x), Sum(y), SumProducts(x, y), s, b, s2, b2,
                 SquaredError(x, y, s, b), SquaredError(x, y, s2, b2), LineGap(x, s - s2, b - b2));
  }

  /** With a non-zero denominator the normal equations have one solution. */
  lemma NormalEquationsUnique(x: seq<real>, y: seq<real>, s: real, b: real, s2: real, b2: real)
    requires |x| == |y| && |x| > 0 && Denominator(x) != 0.0
    requires NormalEquations(x, y, s, b) && NormalEquations(x, y, s2, b2)
    ensures s == s2 && b == b2
  {
    UniqueSolution(|x| as real, Sum(x), SumProducts(x, x), Sum(y), SumProducts(x, y), s, b, s2, b2);
  }

  // ---------------------------------------------------------------------
  // linearRegression
  // ---------------------------------------------------------------------

  /** The fallback line (slope 0 through the mean of y) satisfies the normal
      equations when the denominator is zero, because then all x are equal. */
  lemma DegenerateSolvesNormalEquations(x: seq<real>, y: seq<real>)
    requires |x| == |y| && |x| > 0 && Denominator(x) == 0.0
    ensures NormalEquations(x, y, 0.0, Sum(y) / |x| as real)
  {
    var n := |x| as real;
    var m := Sum(x) / n;
    MulMean(n, Sum(x));
    ZeroDenominatorIsConstant(x, m);
    SumProductsConstant(x, y, m);
    DegenerateStep(n, Sum(x), SumProducts(x, x), Sum(y), SumProducts(x, y), m);
  }

  /** The coefficient of determination of a fit: 1 − SS_res/SS_tot, or 0 when
      y has no spread. */
  function RSquared(x: seq<real>, y: seq<real>, slope: real, intercept: real): real
    requires |x| == |y| && |x| > 0
  {
    var ssTotal := Spread(y, Sum(y) / |y| as real);
    var ssResidual := SquaredError(x, y, slope, intercept);
    if ssTotal > 0.0 then 1.0 - ssResidual / ssTotal else 0.0
  }

  /** For a least-squares line R² lies in [0, 1]: its error is at most the
      error of the flat line through the mean, which is SS_tot. */
  lemma RSquaredBounds(x: seq<real>, y: seq<real>, slope: real, intercept: real)
    requires |x| == |y| && |x| > 0
    requires NormalEquations(x, y, slope, intercept)
    ensures 0.0 <= RSquared(x, y, slope, intercept) <= 1.0
  {
    var m := Sum(y) / |y| as real;
    NormalEquationsMinimise(x, y, slope, intercept, 0.0, m);
    FlatLineError(x, y, m);
    SquaredErrorNonNegative(x, y, slope, intercept);
    if Spread(y, m) > 0.0 {
      RatioBounds(SquaredError(x, y, slope, intercept), Spread(y, m));
    }
  }

  /** The flat line through the mean of y explains none of its spread. */
  lemma FlatLineRSquared(x: seq<real>, y: seq<real>)
    requires |x| == |y| && |x| > 0
    ensures RSquared(x, y, 0.0, Sum(y) / |y| as real) == 0.0
  {
    FlatLineError(x, y, Sum(y) / |y| as real);
  }

  /** `linearRegression(x, y)`: ordinary least squares. Throws on empty or
      unequal inputs. When all x coincide the denominator is zero and the
      result is the flat line through the mean of y with R² = 0. In every
      case the line solves the normal equations, passes through the point of
      means and has the R² of its own residuals, which lies in [0, 1]. */
  function LinearRegression(x: seq<real>, y: seq<real>): (r: Result<Regression>)
    ensures r.Err? <==> |x| != |y| || |x| == 0
    ensures r.Err? ==> r.message == LengthError
    ensures r.Ok? ==> NormalEquations(x, y, r.value.slope, r.value.intercept)
    ensures r.Ok? ==> r.value.intercept + r.value.slope * (Sum(x) / |x| as real) == Sum(y) / |x| as real
    ensures r.Ok? ==> r.value.rSquared == RSquared(x, y, r.value.slope, r.value.intercept)
    ensures r.Ok? ==> 0.0 <= r.value.rSquared <= 1.0
    ensures r.Ok? && Denominator(x) == 0.0 ==> r.value == Regression(0.0, Sum(y) / |x| as real, 0.0)
  {
    if |x| != |y| || |x| == 0 then
      Err(LengthError)
    else
      var n := |x| as real;
      var sumX := Sum(x);
      var sumY := Sum(y);
      var sumXY := SumProducts(x, y);
      var sumX2 := SumProducts(x, x);
      var denominator := Mul(n, sumX2) - Mul(sumX, sumX);
      if denominator == 0.0 then
        DegenerateSolvesNormalEquations(x, y);
        MeanPoint(n, sumX, sumX2, sumY, sumXY, 0.0, sumY / n);
        FlatLineRSquared(x, y);
        Ok(Regression(0.0, sumY / n, 0.0))
      else
        var slope := (Mul(n, sumXY) - Mul(sumX, sumY)) / denominator;
        var intercept := (sumY - Mul(slope, sumX)) / n;
        FormulaStep(n, sumX, sumX2, sumY, sumXY, slope, intercept);
        RSquaredBounds(x, y, slope, intercept);
        MeanPoint(n, sumX, sumX2, sumY, sumXY, slope, intercept);
        Ok(Regression(slope, intercept, RSquared(x, y, slope, intercept)))
  }

  /** The fitted line has the least squared error among all lines. */
  lemma RegressionMinimisesSquaredError(x: seq<real>, y: seq<real>, slope: real, intercept: real)
    requires LinearRegression(x, y).Ok?
    ensures var fit := LinearRegression(x, y).value;
            SquaredError(x, y, fit.slope, fit.intercept) <= SquaredError(x, y, slope, intercept)
  {
    var fit := LinearRegression(x, y).value;
    NormalEquationsMinimise(x, y, fit.slope, fit.intercept, slope, intercept);
  }

  /** Any other solution of the normal equations is the fitted line, unless
      all x coincide. */
  lemma RegressionUnique(x: seq<real>, y: seq<real>, slope: real, intercept: real)
    requires LinearRegression(x, y).Ok? && Denominator(x) != 0.0
    requires NormalEquations(x, y, slope, intercept)
    ensures LinearRegression(x, y).value.slope == slope
    ensures LinearRegression(x, y).value.intercept == intercept
  {
    var fit := LinearRegression(x, y).value;
    NormalEquationsUnique(x, y, fit.slope, fit.intercept, slope, intercept);
  }

  // ---------------------------------------------------------------------
  // Exactly linear data
  // ---------------------------------------------------------------------

  /** The values a·x[i] + b. */
  function Line(x: seq<real>, a: real, b: real): (y: seq<real>)
    ensures |y| == |x| && forall i :: 0 <= i < |x| ==> y[i] == Mul(a, x[i]) + b
  {
    seq(|x|, i requires 0 <= i < |x| => Mul(a, x[i]) + b)
  }

  lemma LineTail(x: seq<real>, a: real, b: real)
    requires x != []
    ensures Line(x, a, b)[1..] == Line(x[1..], a, b)
  {
    forall i | 0 <= i < |x| - 1
      ensures Line(x, a, b)[1..][i] == Line(x[1..], a, b)[i]
    {
      assert x[1..][i] == x[i + 1];
    }
  }

  /** The sums of exactly linear data, and the line fits it with no error. */
  lemma {:induction false} LineSums(x: seq<real>, a: real, b: real)
    ensures Sum(Line(x, a, b)) == Mul(a, Sum(x)) + Mul(|x| as real, b)
    ensures SumProducts(x, Line(x, a, b)) == Mul(a, SumProducts(x, x)) + Mul(b, Sum(x))
    ensures SquaredError(x, Line(x, a, b), a, b) == 0.0
  {
    if x != [] {
      var y := Line(x, a, b);
      LineTail(x, a, b);
      LineSums(x[1..], a, b);
      LineStep(x[0], a, b, Sum(y[1..]), SumProducts(x[1..], y[1..]),
               Sum(x[1..]), SumProducts(x[1..], x[1..]), |x[1..]| as real);
      assert y[0] == Mul(a, x[0]) + b;
      assert Sum(y) == y[0] + Sum(y[1..]);
      assert SumProducts(x, y) == Mul(x[0], y[0]) + SumProducts(x[1..], y[1..]);
      MulIsProduct(0.0, 0.0);
      assert y[0] - (Mul(a, x[0]) + b) == 0.0;
      assert SquaredError(x, y, a, b) == Mul(y[0] - (Mul(a, x[0]) + b), y[0] - (Mul(a, x[0]) + b))
                                         + SquaredError(x[1..], y[1..], a, b);
      assert SumProducts(x, x) == Mul(x[0], x[0]) + SumProducts(x[1..], x[1..]);
      assert Sum(x) == x[0] + Sum(x[1..]);
      assert |x| as real == |x[1..]| as real + 1.0;
    } else {
      MulIsProduct(a, 0.0);
      MulIsProduct(0.0, b);
      MulIsProduct(b, 0.0);
    }
  }

  /** The spread of a·x + b around a·c + b is a² times the spread of x around c. */
  lemma {:induction false} LineSpread(x: seq<real>, a: real, b: real, c: real)
    ensures Spread(Line(x, a, b), Mul(a, c) + b) == Mul(Mul(a, a), Spread(x, c))
  {
    if x != [] {
      var y := Line(x, a, b);
      LineTail(x, a, b);
      LineSpread(x[1..], a, b, c);
      LineSpreadStep(x[0], a, b, c, Spread(y[1..], Mul(a, c) + b), Spread(x[1..], c));
      assert y[0] == Mul(a, x[0]) + b;
      assert Spread(y, Mul(a, c) + b) == Mul(y[0] - (Mul(a, c) + b), y[0] - (Mul(a, c) + b))
                                         + Spread(y[1..], Mul(a, c) + b);
      assert Spread(x, c) == Mul(x[0] - c, x[0] - c) + Spread(x[1..], c);
    } else {
      MulIsProduct(Mul(a, a), 0.0);
    }
  }

  /** Exactly linear data y = a·x + b over x that do not all coincide is
      fitted with slope a and intercept b; R² is 1, or 0 when a = 0 (flat data
      has no spread to explain). */
  lemma ExactLineRecovered(x: seq<real>, a: real, b: real)
    requires |x| > 0 && Denominator(x) != 0.0
    ensures LinearRegression(x, Line(x, a, b))
         == Ok(Regression(a, b, if a != 0.0 then 1.0 else 0.0))
  {
    var y := Line(x, a, b);
    var n := |x| as real;
    var m := Sum(x) / n;
    MulMean(n, Sum(x));
    LineSums(x, a, b);
    var fit := LinearRegression(x, y).value;
    NormalEquationsUnique(x, y, fit.slope, fit.intercept, a, b);
    LineMean(n, Sum(x), a, b, m);
    LineSpread(x, a, b, m);
    DenominatorIsSpread(x, m);
    DenominatorNonNegative(x);
    PositiveFactor(n, Spread(x, m));
    if a != 0.0 {
      ScaledSquarePositive(a, Spread(x, m));
    } else {
      MulIsProduct(a, a);
      MulIsProduct(0.0, Spread(x, m));
    }
  }

  /** The mean of a·x + b is a·m + b for the mean m of x. */
  lemma LineMean(n: real, sx: real, a: real, b: real, m: real)
    requires n > 0.0 && Mul(n, m) == sx
    ensures (Mul(a, sx) + Mul(n, b)) / n == Mul(a, m) + b
  {
    MulIsProduct(n, m);
    MulIsProduct(a, sx);
    MulIsProduct(n, b);
    MulIsProduct(a, m);
    assert a * sx + n * b == n * (a * m + b);
  }

  // ---------------------------------------------------------------------
  // predictPrices
  // ---------------------------------------------------------------------

  /** The index positions 0, 1, …, n−1 used as x. */
  function Indices(n: nat): (x: seq<real>)
    ensures |x| == n && forall i :: 0 <= i < n ==> x[i] == i as real
  {
    seq(n, i requires 0 <= i < n => i as real)
  }

  /** Over the indices of two or more points the denominator is positive, so
      the fallback branch of the regression is never taken. */
  lemma IndicesDenominatorPositive(n: nat)
    requires n >= 2
    ensures Denominator(Indices(n)) > 0.0
  {
    var x := Indices(n);
    var m := Sum(x) / n as real;
    MulMean(n as real, Sum(x));
    DenominatorIsSpread(x, m);
    if x[0] != m {
      OffCentreSpreads(x, m, 0);
    } else {
      OffCentreSpreads(x, m, 1);
    }
    MulPositive(n as real, Spread(x, m));
  }

  /** 0 + 1 + … + (n−1) = n(n−1)/2. */
  lemma {:induction false} SumIndices(n: nat)
    ensures 2.0 * Sum(Indices(n)) == (n * (n - 1)) as real
  {
    if n > 0 {
      SumIndices(n - 1);
      assert Indices(n) == Indices(n - 1) + [(n - 1) as real];
      SumSnoc(Indices(n - 1), (n - 1) as real);
      assert n * (n - 1) == (n - 1) * (n - 2) + 2 * (n - 1);
    }
  }

  /** The trend label of `slope / averagePrice * 100` against ±0.5. A zero
      average makes the quotient ±Infinity, so the sign of the slope decides,
      and NaN (a zero slope as well), which is neutral. */
  function ClassifyTrend(slope: real, averagePrice: real): (t: Trend)
    ensures averagePrice > 0.0 ==>
              (t == Bullish <==> 200.0 * slope > averagePrice) &&
              (t == Bearish <==> 200.0 * slope < -averagePrice)
    ensures averagePrice >= 0.0 ==> (t == Bullish ==> slope > 0.0) && (t == Bearish ==> slope < 0.0)
    ensures averagePrice == 0.0 ==> (t == Bullish <==> slope > 0.0) && (t == Bearish <==> slope < 0.0)
    ensures slope == 0.0 ==> t == Neutral
  {
    if averagePrice == 0.0 then
      if slope > 0.0 then Bullish else if slope < 0.0 then Bearish else Neutral
    else
      var slopePercentage := slope / averagePrice * 100.0;
      PercentageThreshold(slope, if averagePrice > 0.0 then averagePrice else 1.0);
      if slopePercentage > 0.5 then Bullish
      else if slopePercentage < -0.5 then Bearish
      else Neutral
  }

  /** The i-th projected point (i from 1): `max(0, slope·(n−1+i) + intercept)`
      on the i-th day after the last observation. */
  function Projected(fit: Regression, n: nat, lastDate: Day, i: int): PricePoint
  {
    PricePoint(lastDate + i, Max(0.0, fit.slope * (n - 1 + i) as real + fit.intercept))
  }

  /** The first `count` projected points: point k falls k+1 days after the
      last observation, at max(0, slope·(n+k) + intercept). */
  function Projections(fit: Regression, n: nat, lastDate: Day, count: nat): (p: seq<PricePoint>)
    ensures |p| == count
    ensures forall k :: 0 <= k < count ==>
              p[k].date == lastDate + k + 1 &&
              p[k].price == Max(0.0, fit.slope * (n + k) as real + fit.intercept)
  {
    seq(count, k requires 0 <= k < count => Projected(fit, n, lastDate, k + 1))
  }

  /** What `predictPrices(history, daysToPredict)` returns. */
  function Forecast(history: seq<PricePoint>, daysToPredict: int): (r: Result<PredictionResult>)
    ensures r.Err? <==> |history| < 2
    ensures r.Err? ==> r.message == InsufficientDataError
    ensures r.Ok? ==> |r.value.predictions| == if daysToPredict > 0 then daysToPredict else 0
    ensures r.Ok? ==> forall i :: 0 <= i < |r.value.predictions| ==>
              r.value.predictions[i].date == history[|history| - 1].date + i + 1 &&
              r.value.predictions[i].price
                == Max(0.0, r.value.slope * (|history| + i) as real + r.value.intercept) &&
              r.value.predictions[i].price >= 0.0
    ensures r.Ok? ==> NormalEquations(Indices(|history|), Prices(history), r.value.slope, r.value.intercept)
    ensures r.Ok? ==> r.value.rSquared == RSquared(Indices(|history|), Prices(history), r.value.slope, r.value.intercept)
    ensures r.Ok? ==> 0.0 <= r.value.rSquared <= 1.0
    ensures r.Ok? ==> r.value.trend == ClassifyTrend(r.value.slope, Sum(Prices(history)) / |history| as real)
  {
    if |history| < 2 then
      Err(InsufficientDataError)
    else
      var prices := Prices(history);
      var n := |history|;
      var fit := LinearRegression(Indices(n), prices).value;
      var lastDate := history[n - 1].date;
      var count := if daysToPredict > 0 then daysToPredict else 0;
      Ok(PredictionResult(
        Projections(fit, n, lastDate, count),
        fit.slope, fit.intercept, fit.rSquared,
        ClassifyTrend(fit.slope, Sum(prices) / n as real)))
  }

  /** `predictPrices(history, daysToPredict)`: fits the prices against their
      indices and projects `daysToPredict` points past the last one, clamped
      at zero, with the trend of the slope relative to the mean price. */
  method PredictPrices(history: seq<PricePoint>, daysToPredict: int := 7) returns (r: Result<PredictionResult>)
    ensures r == Forecast(history, daysToPredict)
  {
    if |history| < 2 {
      return Err(InsufficientDataError);
    }
    var prices := Prices(history);
    var x := Indices(|prices|);
    var fit := LinearRegression(x, prices).value;
    var slope, intercept, rSquared := fit.slope, fit.intercept, fit.rSquared;

    var lastDate := history[|history| - 1].date;
    var predictions: seq<PricePoint> := [];
    var i := 1;
    while i <= daysToPredict
      invariant 1 <= i <= (if daysToPredict > 0 then daysToPredict else 0) + 1
      invariant |predictions| == i - 1
      invariant forall k :: 0 <= k < i - 1 ==> predictions[k] == Projected(fit, |prices|, lastDate, k + 1)
    {
      var futureX := |prices| - 1 + i;
      var predictedPrice := slope * futureX as real + intercept;
      predictions := predictions + [PricePoint(lastDate + i, Max(0.0, predictedPrice))];
      i := i + 1;
    }
    var count := if daysToPredict > 0 then daysToPredict else 0;
    assert |predictions| == count;
    assert predictions == Projections(fit, |prices|, lastDate, count);

    var averagePrice := Sum(prices) / |prices| as real;
    var trend: Trend;
    if averagePrice == 0.0 {
      trend := if slope > 0.0 then Bullish else if slope < 0.0 then Bearish else Neutral;
    } else {
      var slopePercentage := slope / averagePrice * 100.0;
      if slopePercentage > 0.5 {
        trend := Bullish;
      } else if slopePercentage < -0.5 {
        trend := Bearish;
      } else {
        trend := Neutral;
      }
    }
    assert trend == ClassifyTrend(slope, averagePrice);
    r := Ok(PredictionResult(predictions, slope, intercept, rSquared, trend));
  }

  /** The regression of a history whose prices lie exactly on a·i + b:
      slope a, intercept b, R² 1 (0 for a flat line), and mean price
      a·(n−1)/2 + b. */
  lemma LinearHistoryFit(history: seq<PricePoint>, a: real, b: real)
    requires |history| >= 2
    requires forall i :: 0 <= i < |history| ==> history[i].price == a * i as real + b
    ensures LinearRegression(Indices(|history|), Prices(history))
         == Ok(Regression(a, b, if a != 0.0 then 1.0 else 0.0))
    ensures Sum(Prices(history)) / |history| as real == a * ((|history| - 1) as real / 2.0) + b
  {
    var n := |history|;
    var x := Indices(n);
    assert Prices(history) == Line(x, a, b) by {
      forall i | 0 <= i < n
        ensures Prices(history)[i] == Line(x, a, b)[i]
      {
        MulIsProduct(a, x[i]);
      }
    }
    IndicesDenominatorPositive(n);
    ExactLineRecovered(x, a, b);
    LineSums(x, a, b);
    SumIndices(n);
    AverageOfLine(n as real, Sum(x), a, b);
  }

  /** A history whose prices lie exactly on a·i + b is forecast along that
      line: slope a, intercept b, R² 1 (0 for a flat line), each projection
      max(0, a·(n−1+i) + b), and the trend of a against the middle price
      a·(n−1)/2 + b. */
  lemma LinearHistoryForecast(history: seq<PricePoint>, a: real, b: real, daysToPredict: int)
    requires |history| >= 2
    requires forall i :: 0 <= i < |history| ==> history[i].price == a * i as real + b
    ensures var r := Forecast(history, daysToPredict);
            var n := |history|;
            && r.Ok?
            && r.value.slope == a && r.value.intercept == b
            && r.value.rSquared == (if a != 0.0 then 1.0 else 0.0)
            && (forall k :: 0 <= k < |r.value.predictions| ==>
                  r.value.predictions[k].price == Max(0.0, a * (n + k) as real + b))
            && r.value.trend == ClassifyTrend(a, a * ((n - 1) as real / 2.0) + b)
  {
    LinearHistoryFit(history, a, b);
    var n := |history|;
    var r := Forecast(history, daysToPredict);
    var fit := LinearRegression(Indices(n), Prices(history)).value;
  }

  /** Prices rising by 10 a day from 100 (the unit tests' series): bullish,
      and the first projection lies above the last price. */
  lemma RisingSeriesIsBullish()
    ensures var h := [PricePoint(0, 100.0), PricePoint(1, 110.0), PricePoint(2, 120.0),
                      PricePoint(3, 130.0), PricePoint(4, 140.0)];
            var r := Forecast(h, 3);
            r.Ok? && |r.value.predictions| == 3 && r.value.trend == Bullish &&
            r.value.predictions[0].price == 150.0
  {
    var h := [PricePoint(0, 100.0), PricePoint(1, 110.0), PricePoint(2, 120.0),
              PricePoint(3, 130.0), PricePoint(4, 140.0)];
    forall i | 0 <= i < 5
      ensures h[i].price == 10.0 * i as real + 100.0
    {
      if i == 0 {} else if i == 1 {} else if i == 2 {} else if i == 3 {} else {}
    }
    LinearHistoryForecast(h, 10.0, 100.0, 3);
  }

  /** Prices falling by 10 a day from 100: bearish, and the first projection
      lies below the last price. */
  lemma FallingSeriesIsBearish()
    ensures var h := [PricePoint(0, 100.0), PricePoint(1, 90.0), PricePoint(2, 80.0),
                      PricePoint(3, 70.0), PricePoint(4, 60.0)];
            var r := Forecast(h, 3);
            r.Ok? && r.value.trend == Bearish && r.value.predictions[0].price == 50.0
  {
    var h := [PricePoint(0, 100.0), PricePoint(1, 90.0), PricePoint(2, 80.0),
              PricePoint(3, 70.0), PricePoint(4, 60.0)];
    forall i | 0 <= i < 5
      ensures h[i].price == -10.0 * i as real + 100.0
    {
      if i == 0 {} else if i == 1 {} else if i == 2 {} else if i == 3 {} else {}
    }
    LinearHistoryForecast(h, -10.0, 100.0, 3);
  }

  // ---------------------------------------------------------------------
  // getConfidenceLevel
  // ---------------------------------------------------------------------

  /** `getConfidenceLevel(rSquared)`: "Élevée" from 0.8, "Moyenne" from 0.5,
      "Faible" below. */
  function GetConfidenceLevel(rSquared: real): (level: string)
    ensures level == "Élevée" <==> rSquared >= 0.8
    ensures level == "Moyenne" <==> 0.5 <= rSquared < 0.8
    ensures level == "Faible" <==> rSquared < 0.5
  {
    if rSquared >= 0.8 then "Élevée"
    else if rSquared >= 0.5 then "Moyenne"
    else "Faible"
  }

  /** The rank of a confidence label, low to high. */
  function ConfidenceRank(level: string): nat
  {
    if level == "Élevée" then 2 else if level == "Moyenne" then 1 else 0
  }

  /** A better fit never gets a lower confidence label. */
  lemma ConfidenceMonotone(r1: real, r2: real)
    requires r1 <= r2
    ensures ConfidenceRank(GetConfidenceLevel(r1)) <= ConfidenceRank(GetConfidenceLevel(r2))
  {
  }
}
