/**
  Ordinary least squares over exact reals. The straight line that
  `np.polyfit(x, y, 1)` and `scipy.stats.linregress` fit is given here by its
  closed form (slope = Sxy/Sxx, intercept = mean(y) - slope*mean(x)), and the
  lemmas show that it is the least-squares line and bound its R^2.
  `calculate_r_squared` of utils/regression.py sits on top.
 */
module Regression {
  import opened Wrappers
  import opened Stats

  /** Spread of the x values around their mean. */
  function Sxx(xs: seq<real>): real
    requires |xs| > 0
  {
    SumSqDev(xs)
  }

  /** Co-spread of the two series around their means. */
  function Sxy(xs: seq<real>, ys: seq<real>): real
    requires |xs| == |ys| > 0
  {
    Dot(Deviations(xs), Deviations(ys))
  }

  /**
    The least-squares slope. When the x values do not spread, no line is
    determined (linregress raises, polyfit is singular); the callers here
    never reach that case, and the slope is then taken as 0.
   */
  function Slope(xs: seq<real>, ys: seq<real>): real
    requires |xs| == |ys| > 0
  {
    if Sxx(xs) == 0.0 then 0.0 else Sxy(xs, ys) / Sxx(xs)
  }

  function Intercept(xs: seq<real>, ys: seq<real>): real
    requires |xs| == |ys| > 0
  {
    Mean(ys) - Slope(xs, ys) * Mean(xs)
  }

  /** The fitted values `p(x)` of the least-squares line. */
  function Fitted(xs: seq<real>, ys: seq<real>): (r: seq<real>)
    requires |xs| == |ys| > 0
    ensures |r| == |xs|
    ensures forall i :: 0 <= i < |xs| ==> r[i] == Slope(xs, ys) * xs[i] + Intercept(xs, ys)
  {
    Affine(xs, Slope(xs, ys), Intercept(xs, ys))
  }

  /** The errors y - (m*x + c) of the line y = m*x + c. */
  function Residuals(xs: seq<real>, ys: seq<real>, m: real, c: real): (r: seq<real>)
    requires |xs| == |ys|
    ensures |r| == |xs|
    ensures forall i :: 0 <= i < |xs| ==> r[i] == ys[i] - (m * xs[i] + c)
  {
    seq(|xs|, i requires 0 <= i < |xs| => ys[i] - (m * xs[i] + c))
  }

  /** Sum of squared errors of an arbitrary line y = m*x + c. */
  function LineError(xs: seq<real>, ys: seq<real>, m: real, c: real): real
    requires |xs| == |ys|
  {
    Dot(Residuals(xs, ys, m, c), Residuals(xs, ys, m, c))
  }

  /** Residual sum of squares of the least-squares line. */
  function ResidualSS(xs: seq<real>, ys: seq<real>): real
    requires |xs| == |ys| > 0
  {
    LineError(xs, ys, Slope(xs, ys), Intercept(xs, ys))
  }

  /** linregress's r^2: r is 0 when either series has no spread. */
  function RSquared(xs: seq<real>, ys: seq<real>): real
    requires |xs| == |ys| > 0
  {
    if Sxx(xs) == 0.0 || SumSqDev(ys) == 0.0 then 0.0
    else Sxy(xs, ys) * Sxy(xs, ys) / (Sxx(xs) * SumSqDev(ys))
  }

  /** The guarded ratio of utils/regression.py: 1 - SSres/SStot, or 0 for a flat series. */
  function UtilityRSquared(xs: seq<real>, ys: seq<real>): real
    requires |xs| == |ys| > 0
  {
    var ssTot := SumSqDev(ys);
    if ssTot != 0.0 then 1.0 - ResidualSS(xs, ys) / ssTot else 0.0
  }

  /** `calculate_r_squared`: (R^2, fitted values) over x = 0..n-1, or (None, None). */
  function CalculateRSquared(ys: seq<real>): (Option<real>, Option<seq<real>>)
  {
    if |ys| < 2 then (None, None)
    else
      var xs := Indices(|ys|);
      (Some(UtilityRSquared(xs, ys)), Some(Fitted(xs, ys)))
  }

  // ---------------------------------------------------------------------
  // Algebra of the fit

  /** The errors of any line, written over the centred series. */
  lemma {:induction false} LineErrorCentred(xs: seq<real>, ys: seq<real>, m: real, c: real)
    requires |xs| == |ys| > 0
    ensures var d := c + m * Mean(xs) - Mean(ys);
      LineError(xs, ys, m, c) ==
        SumSqDev(ys) - 2.0 * m * Sxy(xs, ys) + m * m * Sxx(xs) + d * d * |xs| as real
  {
    var d := c + m * Mean(xs) - Mean(ys);
    var dx, dy := Deviations(xs), Deviations(ys);
    var e := Comb(dy, dx, 1.0, -m);
    ResidualsCentred(xs, ys, m, c);
    assert LineError(xs, ys, m, c) == Dot(Affine(e, 1.0, -d), Affine(e, 1.0, -d));
    DeviationsSumZero(xs);
    DeviationsSumZero(ys);
    SumComb(dy, dx, 1.0, -m);
    ShiftedSquares(e, d);
    CombSquares(dy, dx, m);
    DotSymmetric(dy, dx);
  }

  /** Pointwise, y - (m*x + c) = (y - mean y) - m*(x - mean x) - d. */
  lemma {:induction false} ResidualsCentred(xs: seq<real>, ys: seq<real>, m: real, c: real)
    requires |xs| == |ys| > 0
    ensures Residuals(xs, ys, m, c)
      == Affine(Comb(Deviations(ys), Deviations(xs), 1.0, -m), 1.0, -(c + m * Mean(xs) - Mean(ys)))
  {
    var d := c + m * Mean(xs) - Mean(ys);
    var e := Comb(Deviations(ys), Deviations(xs), 1.0, -m);
    forall i | 0 <= i < |xs| ensures Residuals(xs, ys, m, c)[i] == Affine(e, 1.0, -d)[i] {
      calc {
        Affine(e, 1.0, -d)[i];
        (ys[i] - Mean(ys)) - m * (xs[i] - Mean(xs)) - d;
        ys[i] - (m * xs[i] + c);
      }
    }
  }

  /** Dot product against a shifted series. */
  lemma {:induction false} AffineRight(e: seq<real>, z: seq<real>, d: real)
    requires |e| == |z|
    ensures Dot(z, Affine(e, 1.0, -d)) == Dot(z, e) - d * Sum(z)
  {
    DotAffine(e, z, 1.0, -d);
    DotSymmetric(z, Affine(e, 1.0, -d));
    DotSymmetric(z, e);
  }

  /** Shifting a zero-sum series by d adds n*d^2 to its sum of squares. */
  lemma {:induction false} ShiftedSquares(e: seq<real>, d: real)
    requires Sum(e) == 0.0
    ensures Dot(Affine(e, 1.0, -d), Affine(e, 1.0, -d)) == Dot(e, e) + d * d * |e| as real
  {
    DotAffine(e, Affine(e, 1.0, -d), 1.0, -d);
    AffineRight(e, e, d);
    SumAffine(e, 1.0, -d);
    ShiftAlgebra(Dot(Affine(e, 1.0, -d), Affine(e, 1.0, -d)), Dot(e, Affine(e, 1.0, -d)),
      Dot(e, e), Sum(e), Sum(Affine(e, 1.0, -d)), d, |e| as real);
  }

  lemma {:induction false} ShiftAlgebra(ff: real, ef: real, ee: real, se: real, sf: real, d: real, n: real)
    requires ff == 1.0 * ef + (-d) * sf
    requires ef == ee - d * se && se == 0.0
    requires sf == 1.0 * se + (-d) * n
    ensures ff == ee + d * d * n
  {
  }

  /** Expanding the square of u - m*v. */
  lemma {:induction false} CombSquares(u: seq<real>, v: seq<real>, m: real)
    requires |u| == |v|
    ensures Dot(Comb(u, v, 1.0, -m), Comb(u, v, 1.0, -m))
      == Dot(u, u) - 2.0 * m * Dot(u, v) + m * m * Dot(v, v)
  {
    var w := Comb(u, v, 1.0, -m);
    CombLeft(u, v, w, m);
    CombRight(u, v, u, m);
    CrossTerm(u, v, m);
    SquareAlgebra(Dot(w, w), Dot(u, w), Dot(v, w), Dot(u, u), Dot(u, v), Dot(v, v), m);
  }

  /** The cross term m*(v.(u - m*v)), multiplied out. */
  lemma {:induction false} CrossTerm(u: seq<real>, v: seq<real>, m: real)
    requires |u| == |v|
    ensures m * Dot(v, Comb(u, v, 1.0, -m)) == m * Dot(u, v) - m * m * Dot(v, v)
  {
    var w := Comb(u, v, 1.0, -m);
    CombRight(u, v, v, m);
    DotSymmetric(v, u);
    ScaledCross(u, v, w, m);
  }

  lemma {:induction false} SquareAlgebra(ww: real, uw: real, vw: real, uu: real, uv: real, vv: real, m: real)
    requires ww == uw - m * vw && uw == uu - m * uv
    requires m * vw == m * uv - m * m * vv
    ensures ww == uu - 2.0 * m * uv + m * m * vv
  {
  }

  /** The cross term m*(v.w) of the square, multiplied out. */
  lemma {:induction false} ScaledCross(u: seq<real>, v: seq<real>, w: seq<real>, m: real)
    requires |u| == |v| == |w|
    requires Dot(v, w) == Dot(v, u) - m * Dot(v, v) && Dot(v, u) == Dot(u, v)
    ensures m * Dot(v, w) == m * Dot(u, v) - m * m * Dot(v, v)
  {
    ScaleEquation(m, Dot(v, w), Dot(u, v), Dot(v, v));
  }

  lemma {:induction false} ScaleEquation(m: real, x: real, y: real, z: real)
    requires x == y - m * z
    ensures m * x == m * y - m * m * z
  {
  }

  lemma {:induction false} CombLeft(u: seq<real>, v: seq<real>, z: seq<real>, m: real)
    requires |u| == |v| == |z|
    ensures Dot(Comb(u, v, 1.0, -m), z) == Dot(u, z) - m * Dot(v, z)
  {
    DotComb(u, v, z, 1.0, -m);
  }

  lemma {:induction false} CombRight(u: seq<real>, v: seq<real>, z: seq<real>, m: real)
    requires |u| == |v| == |z|
    ensures Dot(z, Comb(u, v, 1.0, -m)) == Dot(z, u) - m * Dot(z, v)
  {
    CombLeft(u, v, z, m);
    DotSymmetric(z, Comb(u, v, 1.0, -m));
    DotSymmetric(z, u);
    DotSymmetric(z, v);
  }


  /** SSres = Syy - slope*Sxy: what the fitted line leaves unexplained. */
  lemma {:induction false} ResidualSSClosedForm(xs: seq<real>, ys: seq<real>)
    requires |xs| == |ys| > 0 && Sxx(xs) != 0.0
    ensures Slope(xs, ys) * Sxx(xs) == Sxy(xs, ys)
    ensures ResidualSS(xs, ys) == SumSqDev(ys) - Slope(xs, ys) * Sxy(xs, ys)
  {
    var b := Slope(xs, ys);
    LineErrorCentred(xs, ys, b, Intercept(xs, ys));
    var d := Intercept(xs, ys) + b * Mean(xs) - Mean(ys);
    assert d == 0.0;
    ClosedFormAlgebra(SumSqDev(ys), Sxy(xs, ys), Sxx(xs), b, d, |xs| as real, ResidualSS(xs, ys));
  }

  lemma {:induction false} ClosedFormAlgebra(syy: real, sxy: real, sxx: real, b: real, d: real, n: real, r: real)
    requires sxx != 0.0 && b == sxy / sxx && d == 0.0
    requires r == syy - 2.0 * b * sxy + b * b * sxx + d * d * n
    ensures b * sxx == sxy && r == syy - b * sxy
  {
    assert b * sxx == sxy;
    assert b * b * sxx == b * sxy;
  }

  /**
    The closed-form line is the least-squares line: no straight line has a
    smaller sum of squared errors (the defining property of `np.polyfit`).
   */
  lemma {:induction false} LeastSquares(xs: seq<real>, ys: seq<real>, m: real, c: real)
    requires |xs| == |ys| > 0 && Sxx(xs) != 0.0
    ensures ResidualSS(xs, ys) <= LineError(xs, ys, m, c)
  {
    var sxx, sxy, syy, n := Sxx(xs), Sxy(xs, ys), SumSqDev(ys), |xs| as real;
    var lineErr := LineErrorScalars(xs, ys, m, c, sxx, sxy, syy, n);
    var b, resid := ResidualScalars(xs, ys, sxx, sxy, syy);
    SpreadNonNegative(xs, sxx);
    SquareGapNonNegative(syy, sxy, sxx, b, m, c + m * Mean(xs) - Mean(ys), n, lineErr, resid);
  }

  lemma {:induction false} LineErrorScalars(xs: seq<real>, ys: seq<real>, m: real, c: real, sxx: real, sxy: real, syy: real, n: real)
    returns (lineErr: real)
    requires |xs| == |ys| > 0
    requires sxx == Sxx(xs) && sxy == Sxy(xs, ys) && syy == SumSqDev(ys) && n == |xs| as real
    ensures lineErr == LineError(xs, ys, m, c)
    ensures var d := c + m * Mean(xs) - Mean(ys);
      lineErr == syy - 2.0 * m * sxy + m * m * sxx + d * d * n
  {
    LineErrorCentred(xs, ys, m, c);
    lineErr := LineError(xs, ys, m, c);
  }

  lemma {:induction false} ResidualScalars(xs: seq<real>, ys: seq<real>, sxx: real, sxy: real, syy: real)
    returns (b: real, resid: real)
    requires |xs| == |ys| > 0 && Sxx(xs) != 0.0
    requires sxx == Sxx(xs) && sxy == Sxy(xs, ys) && syy == SumSqDev(ys)
    ensures resid == ResidualSS(xs, ys) && sxy == b * sxx && resid == syy - b * sxy
  {
    ResidualSSClosedForm(xs, ys);
    b, resid := Slope(xs, ys), ResidualSS(xs, ys);
  }

  lemma {:induction false} SpreadNonNegative(xs: seq<real>, sxx: real)
    requires |xs| > 0 && sxx == Sxx(xs)
    ensures sxx >= 0.0
  {
    DotSelfNonNegative(Deviations(xs));
  }

  /** The algebra behind the least-squares bound: the gap is (m-b)^2*Sxx + n*d^2. */
  lemma {:induction false} SquareGapNonNegative(syy: real, sxy: real, sxx: real, b: real, m: real, d: real, n: real,
                             lineErr: real, resid: real)
    requires sxy == b * sxx && sxx >= 0.0 && n >= 0.0
    requires lineErr == syy - 2.0 * m * sxy + m * m * sxx + d * d * n
    requires resid == syy - b * sxy
    ensures resid <= lineErr
  {
    assert lineErr - resid == (m - b) * (m - b) * sxx + d * d * n;
    var a := m - b;
    SquareNonNegative(a);
    SquareNonNegative(d);
    assert a * a * sxx >= 0.0;
    assert d * d * n >= 0.0;
  }

  /** Sxy^2 <= Sxx*Syy, the bound that keeps r^2 in [0, 1]. */
  lemma {:induction false} CauchySchwarz(xs: seq<real>, ys: seq<real>)
    requires |xs| == |ys| > 0
    ensures Sxy(xs, ys) * Sxy(xs, ys) <= Sxx(xs) * SumSqDev(ys)
  {
    DotSelfNonNegative(Deviations(xs));
    DotSelfNonNegative(Deviations(ys));
    if Sxx(xs) != 0.0 {
      var b := Slope(xs, ys);
      ResidualSSClosedForm(xs, ys);
      var r := Residuals(xs, ys, b, Intercept(xs, ys));
      DotSelfNonNegative(r);
      assert ResidualSS(xs, ys) == Dot(r, r);
      BoundAlgebra(Sxx(xs), Sxy(xs, ys), SumSqDev(ys), b);
    } else {
      SquareNonNegative(Sxy(xs, ys));
      var dx := Deviations(xs);
      DotSelfZero(dx);
      ZeroDot(dx, Deviations(ys));
    }
  }

  lemma {:induction false} BoundAlgebra(sxx: real, sxy: real, syy: real, b: real)
    requires sxx >= 0.0 && b * sxx == sxy && syy - b * sxy >= 0.0
    ensures sxy * sxy <= sxx * syy
  {
    assert sxy * sxy == sxx * (b * sxy);
    assert sxx * syy - sxy * sxy == sxx * (syy - b * sxy);
  }

  lemma {:induction false} ZeroDot(u: seq<real>, v: seq<real>)
    requires |u| == |v| && forall i :: 0 <= i < |u| ==> u[i] == 0.0
    ensures Dot(u, v) == 0.0
  {
    SumConstant(Products(u, v), 0.0);
  }

  /** linregress's r^2 lies between 0 and 1. */
  lemma {:induction false} RSquaredBounds(xs: seq<real>, ys: seq<real>)
    requires |xs| == |ys| > 0
    ensures 0.0 <= RSquared(xs, ys) <= 1.0
  {
    if Sxx(xs) != 0.0 && SumSqDev(ys) != 0.0 {
      var sxx, sxy, syy := Sxx(xs), Sxy(xs, ys), SumSqDev(ys);
      CauchySchwarz(xs, ys);
      DotSelfNonNegative(Deviations(xs));
      DotSelfNonNegative(Deviations(ys));
      SquareNonNegative(sxy);
      assert sxx * syy > 0.0;
    }
  }

  /** The utility's 1 - SSres/SStot is linregress's r^2 whenever the xs spread. */
  lemma {:induction false} UtilityAgreesWithLinregress(xs: seq<real>, ys: seq<real>)
    requires |xs| == |ys| > 0 && Sxx(xs) != 0.0
    ensures UtilityRSquared(xs, ys) == RSquared(xs, ys)
  {
    if SumSqDev(ys) != 0.0 {
      ResidualSSClosedForm(xs, ys);
      ExplainedRatio(Sxx(xs), Sxy(xs, ys), SumSqDev(ys), Slope(xs, ys));
    }
  }

  /** 1 - (Syy - b*Sxy)/Syy == Sxy^2/(Sxx*Syy) when b*Sxx == Sxy. */
  lemma {:induction false} ExplainedRatio(sxx: real, sxy: real, syy: real, b: real)
    requires sxx != 0.0 && syy != 0.0 && b * sxx == sxy
    ensures 1.0 - (syy - b * sxy) / syy == sxy * sxy / (sxx * syy)
  {
    assert (syy - b * sxy) / syy == syy / syy - b * sxy / syy;
    assert syy / syy == 1.0;
    var t := b * sxy / syy;
    assert t * syy == b * sxy;
    ProductNonZero(sxx, syy);
    var u := sxy * sxy / (sxx * syy);
    assert u * (sxx * syy) == sxy * sxy;
    assert t * (sxx * syy) == (t * syy) * sxx;
    Cancel(t, u, sxx * syy);
  }

  lemma {:induction false} ProductNonZero(a: real, b: real)
    requires a != 0.0 && b != 0.0
    ensures a * b != 0.0
  {
    assert (a * b) / b == a;
  }

  lemma {:induction false} Cancel(t: real, u: real, k: real)
    requires k != 0.0 && t * k == u * k
    ensures t == u
  {
    assert t == (t * k) / k;
    assert u == (u * k) / k;
  }

  /** Positions 0..n-1 spread as soon as there are two of them. */
  lemma {:induction false} IndicesSpread(n: nat)
    requires n >= 2
    ensures Sxx(Indices(n)) > 0.0
  {
    SpreadPositive(Indices(n), 0, 1);
  }

  /** The mean of m*x + c is m*mean(x) + c. */
  lemma {:induction false} MeanAffine(xs: seq<real>, m: real, c: real)
    requires |xs| > 0
    ensures Mean(Affine(xs, m, c)) == m * Mean(xs) + c
  {
    SumAffine(xs, m, c);
    var n, sx := |xs| as real, Sum(xs);
    assert Mean(xs) * n == sx;
    assert Mean(Affine(xs, m, c)) * n == m * sx + c * n;
    assert (m * Mean(xs) + c) * n == m * sx + c * n;
    Cancel(Mean(Affine(xs, m, c)), m * Mean(xs) + c, n);
  }

  /** Centring commutes with a linear map: only the slope survives. */
  lemma {:induction false} DeviationsAffine(xs: seq<real>, m: real, c: real)
    requires |xs| > 0
    ensures Deviations(Affine(xs, m, c)) == Affine(Deviations(xs), m, 0.0)
  {
    var ys, dx := Affine(xs, m, c), Deviations(xs);
    MeanAffine(xs, m, c);
    forall i | 0 <= i < |xs| ensures Deviations(ys)[i] == Affine(dx, m, 0.0)[i] {
      calc {
        Deviations(ys)[i];
        (m * xs[i] + c) - (m * Mean(xs) + c);
        m * (xs[i] - Mean(xs)) + 0.0;
      }
    }
  }

  /** A noiseless line is recovered exactly and leaves no residual. */
  lemma {:induction false} ExactLine(xs: seq<real>, m: real, c: real)
    requires |xs| > 0 && Sxx(xs) != 0.0
    ensures var ys := Affine(xs, m, c);
      Slope(xs, ys) == m && Intercept(xs, ys) == c && ResidualSS(xs, ys) == 0.0
      && SumSqDev(ys) == m * (m * Sxx(xs)) && Sxy(xs, ys) == m * Sxx(xs)
  {
    var ys := Affine(xs, m, c);
    ExactLineSpreads(xs, m, c);
    MeanAffine(xs, m, c);
    var b, resid := ResidualScalars(xs, ys, Sxx(xs), Sxy(xs, ys), SumSqDev(ys));
    ExactAlgebra(Sxx(xs), Sxy(xs, ys), SumSqDev(ys), b, resid, m);
  }

  /** Sxy and Syy of a noiseless line are m*Sxx and m^2*Sxx. */
  lemma {:induction false} ExactLineSpreads(xs: seq<real>, m: real, c: real)
    requires |xs| > 0
    ensures Sxy(xs, Affine(xs, m, c)) == m * Sxx(xs)
    ensures SumSqDev(Affine(xs, m, c)) == m * (m * Sxx(xs))
  {
    var dx := Deviations(xs);
    DeviationsAffine(xs, m, c);
    ScaledRight(dx, dx, m);
    ScaledSquare(dx, m);
  }

  lemma {:induction false} ScaledRight(z: seq<real>, e: seq<real>, m: real)
    requires |z| == |e|
    ensures Dot(z, Affine(e, m, 0.0)) == m * Dot(z, e)
  {
    DotAffine(e, z, m, 0.0);
    DotSymmetric(z, Affine(e, m, 0.0));
    DotSymmetric(z, e);
  }

  lemma {:induction false} ScaledSquare(e: seq<real>, m: real)
    ensures Dot(Affine(e, m, 0.0), Affine(e, m, 0.0)) == m * (m * Dot(e, e))
  {
    DotAffine(e, Affine(e, m, 0.0), m, 0.0);
    ScaledRight(e, e, m);
  }

  lemma {:induction false} ExactAlgebra(sxx: real, sxy: real, syy: real, b: real, resid: real, m: real)
    requires sxx != 0.0 && sxy == m * sxx && syy == m * (m * sxx)
    requires sxy == b * sxx && resid == syy - b * sxy
    ensures b == m && resid == 0.0
  {
    Cancel(b, m, sxx);
  }

  /** A noiseless, non-flat line has r^2 = 1 under both formulas. */
  lemma {:induction false} ExactLineFullFit(xs: seq<real>, m: real, c: real)
    requires |xs| > 0 && Sxx(xs) != 0.0 && m != 0.0
    ensures RSquared(xs, Affine(xs, m, c)) == 1.0
    ensures UtilityRSquared(xs, Affine(xs, m, c)) == 1.0
  {
    var ys := Affine(xs, m, c);
    ExactLine(xs, m, c);
    var sxx, syy := Sxx(xs), SumSqDev(ys);
    DotSelfNonNegative(Deviations(xs));
    var a := if m < 0.0 then -m else m;
    assert a * (a * sxx) == m * (m * sxx);
    assert a * sxx > 0.0;
    ProductLowerBound(syy, a, a * sxx);
    assert Sxy(xs, ys) * Sxy(xs, ys) == sxx * syy;
    assert sxx * syy / (sxx * syy) == 1.0;
    UtilityAgreesWithLinregress(xs, ys);
  }

  /** The utility's R^2 over x = 0..n-1 is 0 for a flat series and lies in [0, 1]. */
  lemma {:induction false} CalculateRSquaredBounds(ys: seq<real>)
    ensures |ys| < 2 <==> CalculateRSquared(ys) == (None, None)
    ensures |ys| >= 2 ==> CalculateRSquared(ys).0.Some? && CalculateRSquared(ys).1.Some?
    ensures |ys| >= 2 ==> 0.0 <= CalculateRSquared(ys).0.value <= 1.0
    ensures |ys| >= 2 && SumSqDev(ys) == 0.0 ==> CalculateRSquared(ys).0.value == 0.0
    ensures |ys| >= 2 ==> var p := CalculateRSquared(ys).1.value;
      |p| == |ys| && forall i :: 0 <= i < |ys| ==>
        p[i] == Slope(Indices(|ys|), ys) * i as real + Intercept(Indices(|ys|), ys)
  {
    if |ys| < 2 { return; }
    var xs := Indices(|ys|);
    IndicesSpread(|ys|);
    UtilityAgreesWithLinregress(xs, ys);
    RSquaredBounds(xs, ys);
  }

  /** A flat series is fitted by the flat line through it, with r^2 = 0 under both formulas. */
  lemma {:induction false} FlatSeries(xs: seq<real>, ys: seq<real>)
    requires |xs| == |ys| > 0 && forall i :: 0 <= i < |ys| ==> ys[i] == ys[0]
    ensures Sxy(xs, ys) == 0.0 && Slope(xs, ys) == 0.0 && Intercept(xs, ys) == ys[0]
    ensures RSquared(xs, ys) == 0.0 && UtilityRSquared(xs, ys) == 0.0
  {
    FlatHasNoSpread(ys);
    CauchySchwarz(xs, ys);
    NoCovariance(Sxy(xs, ys), Sxx(xs), SumSqDev(ys));
  }

  lemma {:induction false} NoCovariance(sxy: real, sxx: real, syy: real)
    requires sxy * sxy <= sxx * syy && syy == 0.0
    ensures sxy == 0.0
  {
    if sxy != 0.0 {
      var a := if sxy < 0.0 then -sxy else sxy;
      assert a * a == sxy * sxy;
      ProductLowerBound(sxy * sxy, a, a);
    }
  }
}
