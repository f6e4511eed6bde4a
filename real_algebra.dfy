/** Real arithmetic for the least-squares proofs and the portfolio valuation.

    The sums of the regression multiply through `Mul`, whose value a·b is
    only visible where `MulIsProduct` is called. A statement about sums of
    sequences is then linear in its terms, and each polynomial identity is
    proved once, in a lemma over plain scalars below, where the products are
    exposed. Quotients go through `Quot` in the same way, so that the
    average buy price and the P&L percentage of a holding stay opaque in
    proofs about whole ledgers. */
module RealAlgebra {

  /** a·b, reached through k steps. */
  function Times(a: real, b: real, k: nat): real
  {
    if k == 0 then a * b else Times(a, b, k - 1)
  }

  /** The product a·b. */
  function Mul(a: real, b: real): real
  {
    Times(a, b, 1)
  }

  lemma MulIsProduct(a: real, b: real)
    ensures Mul(a, b) == a * b
  {
    assert Times(a, b, 0) == a * b;
  }

  /** a/b, reached through k steps. */
  function Divides(a: real, b: real, k: nat): real
    requires b != 0.0
  {
    if k == 0 then a / b else Divides(a, b, k - 1)
  }

  /** The quotient a/b, visible only where `QuotIsQuotient` is called. */
  function Quot(a: real, b: real): real
    requires b != 0.0
  {
    Divides(a, b, 1)
  }

  lemma QuotIsQuotient(a: real, b: real)
    requires b != 0.0
    ensures Quot(a, b) == a / b
  {
    assert Divides(a, b, 0) == a / b;
  }

  /** b·(a/b) = a. */
  lemma MulQuotCancels(a: real, b: real)
    requires b != 0.0
    ensures Mul(b, Quot(a, b)) == a
  {
    QuotIsQuotient(a, b);
    MulIsProduct(b, Quot(a, b));
  }

  lemma MulSelfNonNegative(v: real)
    ensures Mul(v, v) >= 0.0
  {
    MulIsProduct(v, v);
    if v < 0.0 {
      assert v * v == (-v) * (-v);
    }
  }

  /** Two factors of the same sign, plus something non-negative, give a
      positive total. */
  lemma SameSignProductPlus(d: real, e: real, rest: real)
    requires (d > 0.0 && e > 0.0) || (d < 0.0 && e < 0.0)
    requires rest >= 0.0
    ensures d * e + rest > 0.0
  {
    if d < 0.0 {
      assert d * e == (-d) * (-e);
    }
  }

  /** A non-zero square plus something non-negative is positive. */
  lemma SquarePlusPositive(d: real, rest: real)
    requires d != 0.0 && rest >= 0.0
    ensures Mul(d, d) + rest > 0.0
  {
    MulIsProduct(d, d);
    SameSignProductPlus(d, d, rest);
  }

  lemma MulNonNegative(a: real, b: real)
    requires a >= 0.0 && b >= 0.0
    ensures Mul(a, b) >= 0.0
  {
    MulIsProduct(a, b);
  }

  lemma MulPositive(a: real, b: real)
    requires a > 0.0 && b > 0.0
    ensures Mul(a, b) > 0.0
  {
    MulIsProduct(a, b);
  }

  /** A product with a positive factor is positive only if the other factor is. */
  lemma PositiveFactor(n: real, s: real)
    requires n > 0.0 && Mul(n, s) > 0.0
    ensures s > 0.0
  {
    MulIsProduct(n, s);
  }

  /** a²·s is positive for a ≠ 0 and s > 0. */
  lemma ScaledSquarePositive(a: real, s: real)
    requires a != 0.0 && s > 0.0
    ensures Mul(Mul(a, a), s) > 0.0
  {
    SquarePlusPositive(a, 0.0);
    MulPositive(Mul(a, a), s);
  }

  /** n·(s/n) = s. */
  lemma MulMean(n: real, s: real)
    requires n > 0.0
    ensures Mul(n, s / n) == s
  {
    MulIsProduct(n, s / n);
  }

  /** 0 ≤ a ≤ b with b > 0 puts a / b in [0, 1]. */
  lemma RatioBounds(a: real, b: real)
    requires 0.0 <= a <= b && b > 0.0
    ensures 0.0 <= a / b <= 1.0
  {
    var q := a / b;
    assert q * b == a;
  }

  /** One element entering Σ(x − c)² = Σx² − 2c·Σx + n·c². */
  lemma SpreadStep(x0: real, c: real, sxx: real, sx: real, n: real, spread: real)
    requires spread == sxx - 2.0 * Mul(c, sx) + Mul(n, Mul(c, c))
    ensures Mul(x0 - c, x0 - c) + spread
         == (Mul(x0, x0) + sxx) - 2.0 * Mul(c, x0 + sx) + Mul(n + 1.0, Mul(c, c))
  {
    MulIsProduct(x0 - c, x0 - c);
    MulIsProduct(x0, x0);
    MulIsProduct(c, sx);
    MulIsProduct(c, x0 + sx);
    MulIsProduct(c, c);
    MulIsProduct(n, Mul(c, c));
    MulIsProduct(n + 1.0, Mul(c, c));
  }

  /** Around the mean m (n·m = Σx) the expansion of the spread collapses to
      n·Σx² − (Σx)² = n·spread. */
  lemma MeanSpread(n: real, sx: real, sxx: real, m: real, spread: real)
    requires Mul(n, m) == sx
    requires spread == sxx - 2.0 * Mul(m, sx) + Mul(n, Mul(m, m))
    ensures Mul(n, sxx) - Mul(sx, sx) == Mul(n, spread)
  {
    MulIsProduct(n, m);
    MulIsProduct(m, sx);
    MulIsProduct(m, m);
    MulIsProduct(n, Mul(m, m));
    MulIsProduct(n, sxx);
    MulIsProduct(sx, sx);
    MulIsProduct(n, spread);
    assert n * spread == n * sxx - 2.0 * (n * m) * sx + (n * m) * (n * m);
  }

  /** One element entering Σ x·y = c·Σ y when x is c. */
  lemma ConstantProductStep(x0: real, y0: real, c: real, sy: real, rest: real)
    requires x0 == c && rest == Mul(c, sy)
    ensures Mul(x0, y0) + rest == Mul(c, y0 + sy)
  {
    MulIsProduct(x0, y0);
    MulIsProduct(c, sy);
    MulIsProduct(c, y0 + sy);
  }

  /** The two normal equations of least squares over the sums n, Σx, Σx²,
      Σy, Σxy: n·intercept + slope·Σx = Σy and slope·Σx² + intercept·Σx = Σxy,
      where the squared error stops changing with the intercept and with the
      slope. */
  predicate Balanced(n: real, sx: real, sxx: real, sy: real, sxy: real, slope: real, intercept: real)
  {
    && Mul(n, intercept) + Mul(slope, sx) == sy
    && Mul(slope, sxx) + Mul(intercept, sx) == sxy
  }

  /** The residual of the slope equation for (s, b). */
  function SlopeResidual(sx: real, sxx: real, sxy: real, s: real, b: real): real
  {
    sxy - Mul(s, sxx) - Mul(b, sx)
  }

  /** The residual of the intercept equation for (s, b). */
  function InterceptResidual(n: real, sx: real, sy: real, s: real, b: real): real
  {
    sy - Mul(s, sx) - Mul(n, b)
  }

  /** (e + d)² = e² + 2·e·d + d². */
  lemma ShiftSquare(e: real, d: real)
    ensures Mul(e + d, e + d) == Mul(e, e) + 2.0 * Mul(e, d) + Mul(d, d)
  {
    MulIsProduct(e + d, e + d);
    MulIsProduct(e, e);
    MulIsProduct(e, d);
    MulIsProduct(d, d);
  }

  lemma MulDistributes(a: real, u: real, v: real)
    ensures Mul(a, u + v) == Mul(a, u) + Mul(a, v)
  {
    MulIsProduct(a, u + v);
    MulIsProduct(a, u);
    MulIsProduct(a, v);
  }

  lemma MulRegroups(a: real, x: real, e: real)
    ensures Mul(a, Mul(x, e)) == Mul(e, Mul(a, x))
  {
    MulIsProduct(x, e);
    MulIsProduct(a, x);
    MulIsProduct(a, Mul(x, e));
    MulIsProduct(e, Mul(a, x));
  }

  lemma MulCommutes(a: real, b: real)
    ensures Mul(a, b) == Mul(b, a)
  {
    MulIsProduct(a, b);
    MulIsProduct(b, a);
  }

  /** The slope residual grows by x·e when the point (x, y), whose error on
      (s, b) is e, joins the sums. */
  lemma SlopeResidualStep(x: real, y: real, s: real, b: real, sxy: real, sxx: real, sx: real)
    ensures SlopeResidual(x + sx, Mul(x, x) + sxx, Mul(x, y) + sxy, s, b)
         == SlopeResidual(sx, sxx, sxy, s, b) + Mul(x, y - (Mul(s, x) + b))
  {
    MulIsProduct(s, x);
    MulIsProduct(x, x);
    MulIsProduct(x, y);
    MulIsProduct(s, sxx);
    MulIsProduct(b, sx);
    MulIsProduct(s, Mul(x, x) + sxx);
    MulIsProduct(b, x + sx);
    MulIsProduct(x, y - (Mul(s, x) + b));
  }

  /** The intercept residual grows by e. */
  lemma InterceptResidualStep(x: real, y: real, s: real, b: real, sx: real, sy: real, n: real)
    ensures InterceptResidual(n + 1.0, x + sx, y + sy, s, b)
         == InterceptResidual(n, sx, sy, s, b) + (y - (Mul(s, x) + b))
  {
    MulIsProduct(s, x);
    MulIsProduct(s, sx);
    MulIsProduct(n, b);
    MulIsProduct(s, x + sx);
    MulIsProduct(n + 1.0, b);
  }

  /** How the cross term grows by one point (x, y): by the error of the point
      on (s, b) times the gap of the two lines there. */
  lemma ShiftResiduals(x: real, y: real, s: real, b: real, s2: real, b2: real,
                       sxy: real, sxx: real, sx: real, sy: real, n: real)
    ensures Mul(s - s2, SlopeResidual(x + sx, Mul(x, x) + sxx, Mul(x, y) + sxy, s, b))
          + Mul(b - b2, InterceptResidual(n + 1.0, x + sx, y + sy, s, b))
         == Mul(s - s2, SlopeResidual(sx, sxx, sxy, s, b))
          + Mul(b - b2, InterceptResidual(n, sx, sy, s, b))
          + Mul(y - (Mul(s, x) + b), Mul(s - s2, x) + (b - b2))
  {
    var e := y - (Mul(s, x) + b);
    SlopeResidualStep(x, y, s, b, sxy, sxx, sx);
    InterceptResidualStep(x, y, s, b, sx, sy, n);
    MulDistributes(s - s2, SlopeResidual(sx, sxx, sxy, s, b), Mul(x, e));
    MulDistributes(b - b2, InterceptResidual(n, sx, sy, s, b), e);
    MulRegroups(s - s2, x, e);
    MulCommutes(b - b2, e);
    MulDistributes(e, Mul(s - s2, x), b - b2);
  }

  /** One element entering the error expansion of a line (s2, b2) around a
      line (s, b): err2 = err + 2·(Δs·r₁ + Δb·r₂) + gap, with r₁, r₂ the
      residuals of (s, b). */
  lemma ShiftStep(x: real, y: real, s: real, b: real, s2: real, b2: real,
                  sxy: real, sxx: real, sx: real, sy: real, n: real,
                  err: real, err2: real, gap: real)
    requires err2 == err + 2.0 * (Mul(s - s2, SlopeResidual(sx, sxx, sxy, s, b))
                                  + Mul(b - b2, InterceptResidual(n, sx, sy, s, b))) + gap
    ensures Mul(y - (Mul(s2, x) + b2), y - (Mul(s2, x) + b2)) + err2
         == (Mul(y - (Mul(s, x) + b), y - (Mul(s, x) + b)) + err)
          + 2.0 * (Mul(s - s2, SlopeResidual(x + sx, Mul(x, x) + sxx, Mul(x, y) + sxy, s, b))
                   + Mul(b - b2, InterceptResidual(n + 1.0, x + sx, y + sy, s, b)))
          + (Mul(Mul(s - s2, x) + (b - b2), Mul(s - s2, x) + (b - b2)) + gap)
  {
    MulIsProduct(s2, x);
    MulIsProduct(s, x);
    MulIsProduct(s - s2, x);
    var e := y - (Mul(s, x) + b);
    var d := Mul(s - s2, x) + (b - b2);
    assert y - (Mul(s2, x) + b2) == e + d;
    ShiftSquare(e, d);
    ShiftResiduals(x, y, s, b, s2, b2, sxy, sxx, sx, sy, n);
  }

  /** The error of (s2, b2) exceeds that of a balanced (s, b) by the gap. */
  lemma MinimiseStep(n: real, sx: real, sxx: real, sy: real, sxy: real,
                     s: real, b: real, s2: real, b2: real, err: real, err2: real, gap: real)
    requires Balanced(n, sx, sxx, sy, sxy, s, b)
    requires err2 == err + 2.0 * (Mul(s - s2, SlopeResidual(sx, sxx, sxy, s, b))
                                  + Mul(b - b2, InterceptResidual(n, sx, sy, s, b))) + gap
    requires gap >= 0.0
    ensures err <= err2
  {
    MulIsProduct(n, b);
    MulIsProduct(b, n);
    MulIsProduct(s - s2, SlopeResidual(sx, sxx, sxy, s, b));
    MulIsProduct(b - b2, InterceptResidual(n, sx, sy, s, b));
    assert SlopeResidual(sx, sxx, sxy, s, b) == 0.0;
    assert InterceptResidual(n, sx, sy, s, b) == 0.0;
  }

  /** With n > 0 and n·Σx² − (Σx)² ≠ 0 the normal equations have one solution. */
  lemma UniqueSolution(n: real, sx: real, sxx: real, sy: real, sxy: real,
                       s: real, b: real, s2: real, b2: real)
    requires n > 0.0 && Mul(n, sxx) - Mul(sx, sx) != 0.0
    requires Balanced(n, sx, sxx, sy, sxy, s, b) && Balanced(n, sx, sxx, sy, sxy, s2, b2)
    ensures s == s2 && b == b2
  {
    MulIsProduct(n, sxx);
    MulIsProduct(sx, sx);
    MulIsProduct(n, b);
    MulIsProduct(s, sx);
    MulIsProduct(s, sxx);
    MulIsProduct(b, sx);
    MulIsProduct(n, b2);
    MulIsProduct(s2, sx);
    MulIsProduct(s2, sxx);
    MulIsProduct(b2, sx);
    var ds, db := s - s2, b - b2;
    assert n * db + ds * sx == 0.0;
    assert ds * sxx + db * sx == 0.0;
    assert ds * (n * sxx - sx * sx) == n * (ds * sxx + db * sx) - sx * (n * db + ds * sx);
    assert ds == 0.0;
    assert n * db == 0.0;
  }

  /** slope = (n·Σxy − Σx·Σy) / (n·Σx² − (Σx)²), intercept = (Σy − slope·Σx) / n
      solve the normal equations. */
  lemma FormulaStep(n: real, sx: real, sxx: real, sy: real, sxy: real, slope: real, intercept: real)
    requires n > 0.0 && Mul(n, sxx) - Mul(sx, sx) != 0.0
    requires slope == (Mul(n, sxy) - Mul(sx, sy)) / (Mul(n, sxx) - Mul(sx, sx))
    requires intercept == (sy - Mul(slope, sx)) / n
    ensures Balanced(n, sx, sxx, sy, sxy, slope, intercept)
  {
    MulIsProduct(n, sxx);
    MulIsProduct(sx, sx);
    MulIsProduct(n, sxy);
    MulIsProduct(sx, sy);
    MulIsProduct(slope, sx);
    MulIsProduct(n, intercept);
    MulIsProduct(slope, sxx);
    MulIsProduct(intercept, sx);
    var den := n * sxx - sx * sx;
    assert slope * den == n * sxy - sx * sy;
    assert n * intercept == sy - slope * sx;
    assert n * (slope * sxx + intercept * sx) == slope * den + sx * (n * intercept + slope * sx);
    assert n * (slope * sxx + intercept * sx) == n * sxy;
  }

  /** When every x is m (n·m = Σx, Σxy = m·Σy), the flat line through the
      mean of y is balanced. */
  lemma DegenerateStep(n: real, sx: real, sxx: real, sy: real, sxy: real, m: real)
    requires n > 0.0 && Mul(n, m) == sx && sxy == Mul(m, sy)
    ensures Balanced(n, sx, sxx, sy, sxy, 0.0, sy / n)
  {
    var b := sy / n;
    MulIsProduct(n, m);
    MulIsProduct(m, sy);
    MulIsProduct(n, b);
    MulIsProduct(0.0, sx);
    MulIsProduct(0.0, sxx);
    MulIsProduct(b, sx);
    assert n * b == sy;
    assert b * sx == b * (n * m);
    assert b * (n * m) == (n * b) * m;
  }

  /** A balanced line passes through the point of means (Σx/n, Σy/n). */
  lemma MeanPoint(n: real, sx: real, sxx: real, sy: real, sxy: real, s: real, b: real)
    requires n > 0.0 && Balanced(n, sx, sxx, sy, sxy, s, b)
    ensures b + s * (sx / n) == sy / n
  {
    MulIsProduct(n, b);
    MulIsProduct(s, sx);
    var mx := sx / n;
    assert n * mx == sx;
    assert n * (b + s * mx) == n * b + s * sx;
  }

  /** One element entering Σ(a·x + b) and Σ x·(a·x + b). */
  lemma LineStep(x0: real, a: real, b: real, sl: real, spl: real, sx: real, sxx: real, n: real)
    requires sl == Mul(a, sx) + Mul(n, b) && spl == Mul(a, sxx) + Mul(b, sx)
    ensures (Mul(a, x0) + b) + sl == Mul(a, x0 + sx) + Mul(n + 1.0, b)
    ensures Mul(x0, Mul(a, x0) + b) + spl == Mul(a, Mul(x0, x0) + sxx) + Mul(b, x0 + sx)
  {
    MulIsProduct(a, x0);
    MulIsProduct(a, sx);
    MulIsProduct(n, b);
    MulIsProduct(a, x0 + sx);
    MulIsProduct(n + 1.0, b);
    MulIsProduct(x0, Mul(a, x0) + b);
    MulIsProduct(a, sxx);
    MulIsProduct(b, sx);
    MulIsProduct(x0, x0);
    MulIsProduct(a, Mul(x0, x0) + sxx);
    MulIsProduct(b, x0 + sx);
  }

  /** One element entering Σ((a·x + b) − (a·c + b))² = a²·Σ(x − c)². */
  lemma LineSpreadStep(x0: real, a: real, b: real, c: real, rest: real, spread: real)
    requires rest == Mul(Mul(a, a), spread)
    ensures Mul((Mul(a, x0) + b) - (Mul(a, c) + b), (Mul(a, x0) + b) - (Mul(a, c) + b)) + rest
         == Mul(Mul(a, a), Mul(x0 - c, x0 - c) + spread)
  {
    var d := x0 - c;
    MulIsProduct(a, x0);
    MulIsProduct(a, c);
    MulIsProduct(a, a);
    MulIsProduct(Mul(a, a), spread);
    MulIsProduct(d, d);
    MulIsProduct(Mul(a, a), Mul(d, d) + spread);
    var e := (Mul(a, x0) + b) - (Mul(a, c) + b);
    assert e == a * d;
    MulIsProduct(e, e);
    assert e * e == (a * a) * (d * d);
  }

  /** q·100 compared with ±0.5, for q = slope / avg and avg > 0, is 200·slope
      compared with ±avg. */
  lemma PercentageThreshold(slope: real, avg: real)
    requires avg > 0.0
    ensures slope / avg * 100.0 > 0.5 <==> 200.0 * slope > avg
    ensures slope / avg * 100.0 < -0.5 <==> 200.0 * slope < -avg
  {
    var q := slope / avg;
    assert q * avg == slope;
    assert 200.0 * slope == (200.0 * q) * avg;
    if 200.0 * q > 1.0 {
      assert (200.0 * q - 1.0) * avg > 0.0;
    } else {
      assert (1.0 - 200.0 * q) * avg >= 0.0;
    }
    if 200.0 * q < -1.0 {
      assert (-1.0 - 200.0 * q) * avg > 0.0;
    } else {
      assert (200.0 * q + 1.0) * avg >= 0.0;
    }
  }

  /** The mean of a·i + b over i = 0 … n−1, given 2·Σi = n(n−1). */
  lemma AverageOfLine(n: real, sumIndices: real, a: real, b: real)
    requires n > 0.0 && 2.0 * sumIndices == n * (n - 1.0)
    ensures (Mul(a, sumIndices) + Mul(n, b)) / n == a * ((n - 1.0) / 2.0) + b
  {
    MulIsProduct(a, sumIndices);
    MulIsProduct(n, b);
    assert a * sumIndices + n * b == n * (a * ((n - 1.0) / 2.0) + b);
  }
}
