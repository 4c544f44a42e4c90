/**
  `analyze_trend` of analysis/trend.py: a straight line fitted to the last
  (at most 30) prices, read as a direction, a strength, a confidence, a
  short-term forecast and a reversal-risk hint.

  Two inputs come from library code outside this model and are parameters
  here. `fit` is what scipy's `linregress` reports for the window over
  x = 0..N-1: `LinregressOf` ties its slope, intercept and r^2 to the
  least-squares line of the Regression module, and leaves its p-value free
  (the t-distribution is not modelled; the source multiplies the p-value
  into the forecast). `sd` is the window's sample standard deviation, tied
  to the window by `StdOfWindow`.
 */
module Trend {
  import opened Wrappers
  import opened Stats
  import opened Regression

  /** At most this many recent prices are analysed. */
  const WindowCap: nat := 30
  /** Fewer recent prices than this give the insufficient-data record. */
  const MinPoints: nat := 5
  /** The forecast looks this many steps past the window. */
  const Horizon: nat := 7
  /** The moving average of the risk rule spans this many prices. */
  const MaSpan: nat := 20

  datatype Direction = Rising | Falling | Sideways | NoDirection

  datatype Risk = LowRisk | Overbought | Oversold | NoRisk

  /**
    The returned record. `forecast == None` is the "N/A" text; `rSquared`
    tells whether the `R_squared` key is present (`Some`) and its value,
    which the source always sets to `None`.
   */
  datatype TrendReport = TrendReport(
    direction: Direction,
    strength: int,
    confidence: int,
    distance: string,
    forecast: Option<real>,
    risk: Risk,
    rSquared: Option<Option<real>>)

  function DirectionLabel(d: Direction): string
  {
    match d
    case Rising => "🚀 上升趨勢"
    case Falling => "📉 下跌趨勢"
    case Sideways => "↔\U{FE0F} 震盪盤整"
    case NoDirection => "數據不足"
  }

  function RiskLabel(r: Risk): string
  {
    match r
    case LowRisk => "低"
    case Overbought => "⚠\U{FE0F} 高 (超買可能)"
    case Oversold => "⚠\U{FE0F} 高 (超賣可能)"
    case NoRisk => "數據不足"
  }

  /** N = min(30, len(df)). */
  function WindowSize(n: nat): (w: nat)
    ensures w <= n && w <= WindowCap
    ensures w == n || w == WindowCap
  {
    if n < WindowCap then n else WindowCap
  }

  /** The window `df.tail(N)`. */
  function Recent(prices: seq<real>): (r: seq<real>)
    ensures |r| == WindowSize(|prices|)
  {
    Tail(prices, WindowCap)
  }

  /** Direction from the slope against a threshold of 5% of the mean spread over the window. */
  function DirectionOf(slope: real, mean: real, n: nat): Direction
    requires n > 0
  {
    var threshold := 0.05 * mean / n as real;
    if slope > threshold then Rising
    else if slope < -threshold then Falling
    else Sideways
  }

  /** |slope|*r^2 relative to the standard deviation, times 100 and 2: the strength before truncation and capping. */
  function RawStrength(slope: real, r2: UnitReal, sd: real): (x: real)
    requires sd > 0.0
    ensures x >= 0.0
  {
    var magnitude := if slope < 0.0 then -slope else slope;
    assert magnitude * r2 >= 0.0;
    magnitude * r2 / sd * 100.0 * 2.0
  }

  /**
    Strength: the raw strength truncated and capped at 100; 50 when the
    prices do not vary. The raw strength is never negative, so truncation is
    the floor.
   */
  function StrengthOf(slope: real, r2: UnitReal, sd: real): (s: int)
    ensures 0 <= s <= 100
    ensures sd <= 0.0 ==> s == 50
  {
    if sd > 0.0 then
      var scaled := RawStrength(slope, r2, sd);
      if scaled.Floor < 100 then scaled.Floor else 100
    else 50
  }

  /** Confidence: r^2 as a percentage, truncated (the floor, as r^2 >= 0). */
  function ConfidenceOf(r2: UnitReal): (c: int)
    ensures 0 <= c <= 100
    ensures c as real <= r2 * 100.0 < c as real + 1.0
  {
    (r2 * 100.0).Floor
  }

  /** The moving average the risk rule compares with: the last 20 prices, or the whole window when shorter. */
  function MovingAverage(window: seq<real>): real
    requires |window| > 0
  {
    if |window| >= MaSpan then Mean(Tail(window, MaSpan)) else Mean(window)
  }

  /** The moving average lies between the window's smallest and largest price. */
  lemma {:induction false} MovingAverageBounds(window: seq<real>)
    requires |window| > 0
    ensures Min(window) <= MovingAverage(window) <= Max(window)
  {
    if |window| >= MaSpan {
      var last := Tail(window, MaSpan);
      MeanWithinRange(last);
      assert Min(window) <= Min(last) by {
        var k :| 0 <= k < |last| && last[k] == Min(last);
        TailAt(window, MaSpan, k);
      }
      assert Max(last) <= Max(window) by {
        var k :| 0 <= k < |last| && last[k] == Max(last);
        TailAt(window, MaSpan, k);
      }
    } else {
      MeanWithinRange(window);
    }
  }

  /**
    The forecast line as the source writes it: linregress's p-value (not its
    slope) times N + 7, plus the intercept.
   */
  function Extrapolate(fit: Fit, n: nat): real
  {
    fit.pValue * (n + Horizon) as real + fit.intercept
  }

  function RiskOf(last: real, ma: real, direction: Direction): Risk
  {
    if last > ma * 1.05 && direction == Rising then Overbought
    else if last < ma * 0.95 && direction == Falling then Oversold
    else LowRisk
  }

  /** The record returned when fewer than five prices are available. */
  const InsufficientReport: TrendReport :=
    TrendReport(NoDirection, 0, 0, "N/A", None, NoRisk, None)

  /** What `analyze_trend` requires of the standard deviation it is handed. */
  predicate StdOfWindow(prices: seq<real>, sd: real)
  {
    |Recent(prices)| >= 2 ==> sd >= 0.0 && sd * sd == SampleVariance(Recent(prices))
  }

  /** A real in [0, 1]: the square of a correlation coefficient. */
  type UnitReal = x: real | 0.0 <= x <= 1.0

  /** What linregress reports: slope, intercept, the square of r_value, and p_value. */
  datatype Fit = Fit(slope: real, intercept: real, r2: UnitReal, pValue: real)

  /**
    `fit` is linregress over x = 0..N-1 and the window `y`: the least-squares
    line and its r^2. The p-value is left free.
   */
  predicate LinregressOf(y: seq<real>, fit: Fit)
    requires |y| > 0
  {
    var x := Indices(|y|);
    fit.slope == Slope(x, y) && fit.intercept == Intercept(x, y) && fit.r2 == RSquared(x, y)
  }

  /** `analyze_trend(df)` over the price column `prices`, with linregress's result `fit` on the window. */
  function AnalyzeTrend(prices: seq<real>, fit: Fit, sd: real): (r: TrendReport)
    ensures |prices| < MinPoints ==> r == InsufficientReport
    ensures |prices| >= MinPoints ==>
      r.direction != NoDirection && r.risk != NoRisk && r.forecast.Some?
      && 0 <= r.strength <= 100 && 0 <= r.confidence <= 100
      && r.distance == "待計算" && r.rSquared == Some(None)
  {
    var n := WindowSize(|prices|);
    if n < MinPoints then InsufficientReport
    else
      // the window's last price is the last price of the whole column
      var y := Recent(prices);
      Assemble(n, prices[|prices| - 1], Mean(y), MovingAverage(y), fit, sd)
  }

  /** The record built from the window's size, last price, mean, moving average and fit. */
  function Assemble(n: nat, last: real, mean: real, ma: real, fit: Fit, sd: real): (r: TrendReport)
    requires n > 0
    ensures r.direction != NoDirection && r.risk != NoRisk && r.forecast.Some?
    ensures 0 <= r.strength <= 100 && 0 <= r.confidence <= 100
    ensures r.distance == "待計算" && r.rSquared == Some(None)
  {
    var direction := DirectionOf(fit.slope, mean, n);
    var confidence := ConfidenceOf(fit.r2);
    var forecast := if confidence > 50 then Extrapolate(fit, n) else last;
    TrendReport(direction, StrengthOf(fit.slope, fit.r2, sd), confidence, "待計算",
                Some(forecast), RiskOf(last, ma, direction), Some(None))
  }

  // ---------------------------------------------------------------------
  // Properties

  /** The three direction outcomes follow the two thresholds and exclude each other. */
  lemma {:induction false} DirectionThresholds(prices: seq<real>, fit: Fit, sd: real)
    requires |prices| >= MinPoints
    ensures var y, n := Recent(prices), WindowSize(|prices|);
      var threshold := 0.05 * Mean(y) / n as real;
      var d := AnalyzeTrend(prices, fit, sd).direction;
      (d == Rising <==> fit.slope > threshold)
      && (d == Falling <==> fit.slope < -threshold && !(fit.slope > threshold))
      && (d == Sideways <==> -threshold <= fit.slope <= threshold)
  {
    DirectionIs(prices, fit, sd);
    DirectionOfThresholds(fit.slope, Mean(Recent(prices)), WindowSize(|prices|));
  }

  lemma {:induction false} DirectionIs(prices: seq<real>, fit: Fit, sd: real)
    requires |prices| >= MinPoints
    ensures AnalyzeTrend(prices, fit, sd).direction
      == DirectionOf(fit.slope, Mean(Recent(prices)), WindowSize(|prices|))
  {
  }

  lemma {:induction false} StrengthIs(prices: seq<real>, fit: Fit, sd: real)
    requires |prices| >= MinPoints
    ensures AnalyzeTrend(prices, fit, sd).strength == StrengthOf(fit.slope, fit.r2, sd)
  {
  }

  lemma {:induction false} ConfidenceIs(prices: seq<real>, fit: Fit, sd: real)
    requires |prices| >= MinPoints
    ensures AnalyzeTrend(prices, fit, sd).confidence == ConfidenceOf(fit.r2)
  {
  }

  lemma {:induction false} ForecastIs(prices: seq<real>, fit: Fit, sd: real)
    requires |prices| >= MinPoints
    ensures var r := AnalyzeTrend(prices, fit, sd);
      r.forecast == Some(if r.confidence > 50 then Extrapolate(fit, WindowSize(|prices|))
                         else prices[|prices| - 1])
  {
  }

  lemma {:induction false} RiskIs(prices: seq<real>, fit: Fit, sd: real)
    requires |prices| >= MinPoints
    ensures var r := AnalyzeTrend(prices, fit, sd);
      r.risk == RiskOf(prices[|prices| - 1], MovingAverage(Recent(prices)), r.direction)
  {
  }

  lemma {:induction false} DirectionOfThresholds(slope: real, mean: real, n: nat)
    requires n > 0
    ensures var threshold, d := 0.05 * mean / n as real, DirectionOf(slope, mean, n);
      (d == Rising <==> slope > threshold)
      && (d == Falling <==> slope < -threshold && !(slope > threshold))
      && (d == Sideways <==> -threshold <= slope <= threshold)
  {
  }

  /** For non-negative prices a rising verdict needs a positive slope, a falling one a negative slope. */
  lemma {:induction false} DirectionFollowsSlope(prices: seq<real>, fit: Fit, sd: real)
    requires |prices| >= MinPoints
    requires forall i :: 0 <= i < |prices| ==> prices[i] >= 0.0
    ensures var d := AnalyzeTrend(prices, fit, sd).direction;
      (d == Rising ==> fit.slope > 0.0) && (d == Falling ==> fit.slope < 0.0)
  {
    var y := Recent(prices);
    DirectionIs(prices, fit, sd);
    RecentNonNegative(prices);
    MeanBounds(y, 0.0, Max(y));
    ThresholdSign(fit.slope, Mean(y), WindowSize(|prices|));
  }

  lemma {:induction false} ThresholdSign(slope: real, mean: real, n: nat)
    requires n > 0 && mean >= 0.0
    ensures DirectionOf(slope, mean, n) == Rising ==> slope > 0.0
    ensures DirectionOf(slope, mean, n) == Falling ==> slope < 0.0
  {
    assert 0.05 * mean / n as real >= 0.0;
  }

  /** Confidence is r^2 in percent, truncated; the forecast extrapolates only when it exceeds 50. */
  lemma {:induction false} ConfidenceAndForecast(prices: seq<real>, fit: Fit, sd: real)
    requires |prices| >= MinPoints
    ensures var n, r := WindowSize(|prices|), AnalyzeTrend(prices, fit, sd);
      r.confidence as real <= fit.r2 * 100.0 < r.confidence as real + 1.0
      && r.forecast == Some(if r.confidence > 50 then Extrapolate(fit, n)
                            else prices[|prices| - 1])
  {
    ConfidenceIs(prices, fit, sd);
    ForecastIs(prices, fit, sd);
  }

  /**
    Strength is 50 when the standard deviation is not positive; otherwise it
    is 100 when the raw strength |slope|*r^2/sd*200 reaches 100, and the raw
    strength truncated when it does not.
   */
  lemma {:induction false} StrengthRule(prices: seq<real>, fit: Fit, sd: real)
    requires |prices| >= MinPoints
    ensures var s := AnalyzeTrend(prices, fit, sd).strength;
      (sd <= 0.0 ==> s == 50)
      && (sd > 0.0 && RawStrength(fit.slope, fit.r2, sd) >= 100.0 ==> s == 100)
      && (sd > 0.0 && RawStrength(fit.slope, fit.r2, sd) < 100.0 ==>
            s as real <= RawStrength(fit.slope, fit.r2, sd) < s as real + 1.0)
  {
    StrengthIs(prices, fit, sd);
    StrengthOfRule(fit.slope, fit.r2, sd);
  }

  lemma {:induction false} StrengthOfRule(slope: real, r2: UnitReal, sd: real)
    ensures var s := StrengthOf(slope, r2, sd);
      (sd <= 0.0 ==> s == 50)
      && (sd > 0.0 && RawStrength(slope, r2, sd) >= 100.0 ==> s == 100)
      && (sd > 0.0 && RawStrength(slope, r2, sd) < 100.0 ==>
            s as real <= RawStrength(slope, r2, sd) < s as real + 1.0)
  {
  }

  /** The standard deviation handed in is 0 exactly when the window's prices are all equal. */
  lemma {:induction false} StdZeroIffFlat(prices: seq<real>, sd: real)
    requires StdOfWindow(prices, sd) && |prices| >= MinPoints
    ensures var y := Recent(prices);
      sd == 0.0 <==> forall i :: 0 <= i < |y| ==> y[i] == y[0]
  {
    DeviationZeroIffFlat(Recent(prices), sd);
  }

  lemma {:induction false} DeviationZeroIffFlat(y: seq<real>, sd: real)
    requires |y| >= 2 && sd >= 0.0 && sd * sd == SampleVariance(y)
    ensures sd == 0.0 <==> forall i :: 0 <= i < |y| ==> y[i] == y[0]
  {
    if sd == 0.0 {
      var n := |y| as real;
      assert SumSqDev(y) / (n - 1.0) == 0.0;
      assert SumSqDev(y) == 0.0;
      NoSpreadIsFlat(y);
    }
    if forall i :: 0 <= i < |y| ==> y[i] == y[0] {
      FlatDeviation(y, sd);
    }
  }

  /** The reversal warning needs both the matching direction and a 5% gap to the moving average. */
  lemma {:induction false} RiskRule(prices: seq<real>, fit: Fit, sd: real)
    requires |prices| >= MinPoints
    ensures var r, y := AnalyzeTrend(prices, fit, sd), Recent(prices);
      var last, ma := prices[|prices| - 1], MovingAverage(y);
      (r.risk == Overbought <==> r.direction == Rising && last > ma * 1.05)
      && (r.risk == Oversold <==> r.direction == Falling && last < ma * 0.95)
      && (r.risk == LowRisk <==>
            !(r.direction == Rising && last > ma * 1.05) && !(r.direction == Falling && last < ma * 0.95))
  {
    var r := AnalyzeTrend(prices, fit, sd);
    RiskIs(prices, fit, sd);
    RiskOfRule(prices[|prices| - 1], MovingAverage(Recent(prices)), r.direction);
  }

  lemma {:induction false} RiskOfRule(last: real, ma: real, d: Direction)
    ensures var risk := RiskOf(last, ma, d);
      (risk == Overbought <==> d == Rising && last > ma * 1.05)
      && (risk == Oversold <==> d == Falling && last < ma * 0.95)
      && (risk == LowRisk <==> !(d == Rising && last > ma * 1.05) && !(d == Falling && last < ma * 0.95))
  {
  }

  /** For non-negative prices, an overbought warning puts the last price above the moving average. */
  lemma {:induction false} OverboughtAboveAverage(prices: seq<real>, fit: Fit, sd: real)
    requires |prices| >= MinPoints
    requires forall i :: 0 <= i < |prices| ==> prices[i] >= 0.0
    requires AnalyzeTrend(prices, fit, sd).risk == Overbought
    ensures prices[|prices| - 1] > MovingAverage(Recent(prices)) >= 0.0
  {
    RiskRule(prices, fit, sd);
    RecentNonNegative(prices);
    MovingAverageBounds(Recent(prices));
  }

  lemma {:induction false} RecentNonNegative(prices: seq<real>)
    requires forall i :: 0 <= i < |prices| ==> prices[i] >= 0.0
    ensures forall i :: 0 <= i < |Recent(prices)| ==> Recent(prices)[i] >= 0.0
  {
    var y := Recent(prices);
    forall i | 0 <= i < |y| ensures y[i] >= 0.0 {
      TailAt(prices, WindowCap, i);
    }
  }

  /** The last 30 prices alone decide the outcome, and the fit and deviation that go with them. */
  lemma {:induction false} OnlyRecentPricesMatter(older: seq<real>, prices: seq<real>, fit: Fit, sd: real)
    requires |prices| >= WindowCap
    ensures Recent(older + prices) == Recent(prices)
    ensures StdOfWindow(older + prices, sd) <==> StdOfWindow(prices, sd)
    ensures AnalyzeTrend(older + prices, fit, sd) == AnalyzeTrend(prices, fit, sd)
  {
    var y, z := Recent(older + prices), Recent(prices);
    assert |y| == |z|;
    forall i | 0 <= i < |y| ensures y[i] == z[i] {
      TailAt(older + prices, WindowCap, i);
      TailAt(prices, WindowCap, i);
      assert (older + prices)[|older + prices| - |y| + i] == prices[|prices| - |z| + i];
    }
    assert y == z;
  }

  /**
    A window that lies exactly on a non-flat line y = m*x + c gives full
    confidence, linregress reports c as the intercept, and the forecast is the
    p-value extrapolation from it.
   */
  lemma {:induction false} LinearWindowFullConfidence(prices: seq<real>, fit: Fit, sd: real, m: real, c: real)
    requires |prices| >= MinPoints && m != 0.0
    requires Recent(prices) == Affine(Indices(WindowSize(|prices|)), m, c)
    requires LinregressOf(Recent(prices), fit)
    ensures var n, r := WindowSize(|prices|), AnalyzeTrend(prices, fit, sd);
      r.confidence == 100 && fit.intercept == c && r.forecast == Some(Extrapolate(fit, n))
  {
    LinearFit(Recent(prices), m, c, fit);
    FullFitConfidence(prices, fit, sd);
  }

  /** linregress on a line with slope m != 0 reports r^2 = 1 and the line's intercept. */
  lemma {:induction false} LinearFit(y: seq<real>, m: real, c: real, fit: Fit)
    requires |y| >= 2 && m != 0.0
    requires y == Affine(Indices(|y|), m, c)
    requires LinregressOf(y, fit)
    ensures fit.r2 == 1.0 && fit.intercept == c
  {
    IndicesSpread(|y|);
    ExactLineFullFit(Indices(|y|), m, c);
    ExactLine(Indices(|y|), m, c);
  }

  lemma {:induction false} FullFitConfidence(prices: seq<real>, fit: Fit, sd: real)
    requires |prices| >= MinPoints && fit.r2 == 1.0
    ensures var n, r := WindowSize(|prices|), AnalyzeTrend(prices, fit, sd);
      r.confidence == 100 && r.forecast == Some(Extrapolate(fit, n))
  {
    ConfidenceIs(prices, fit, sd);
    ForecastIs(prices, fit, sd);
  }

  /**
    A window of equal prices v: strength 50, confidence 0 and the forecast
    repeats v. For v >= 0 the verdict is sideways with low risk; a negative v
    makes the threshold negative, so the zero slope reads as rising, and
    overbought.
   */
  lemma {:induction false} FlatWindow(prices: seq<real>, fit: Fit, sd: real, v: real)
    requires StdOfWindow(prices, sd) && |prices| >= MinPoints
    requires forall i :: 0 <= i < |Recent(prices)| ==> Recent(prices)[i] == v
    requires LinregressOf(Recent(prices), fit)
    ensures var r := AnalyzeTrend(prices, fit, sd);
      r.strength == 50 && r.confidence == 0 && r.forecast == Some(v)
      && r.direction == (if v < 0.0 then Rising else Sideways)
      && r.risk == (if v < 0.0 then Overbought else LowRisk)
  {
    FlatFit(Recent(prices), fit);
    FlatSummaries(prices, sd, v);
    FlatReport(prices, fit, v);
  }

  /** A window of equal prices v has deviation 0, and its mean, moving average and last price are v. */
  lemma {:induction false} FlatSummaries(prices: seq<real>, sd: real, v: real)
    requires StdOfWindow(prices, sd) && |prices| >= MinPoints
    requires forall i :: 0 <= i < |Recent(prices)| ==> Recent(prices)[i] == v
    ensures sd == 0.0 && prices[|prices| - 1] == v
    ensures Mean(Recent(prices)) == v && MovingAverage(Recent(prices)) == v
  {
    var y := Recent(prices);
    assert y[|y| - 1] == prices[|prices| - 1];
    FlatDeviation(y, sd);
    FlatAverages(y, v);
  }

  lemma {:induction false} FlatDeviation(y: seq<real>, sd: real)
    requires |y| >= 2 && forall i :: 0 <= i < |y| ==> y[i] == y[0]
    requires sd * sd == SampleVariance(y)
    ensures sd == 0.0
  {
    FlatHasNoSpread(y);
    ZeroSquare(sd);
  }

  lemma {:induction false} FlatAverages(y: seq<real>, v: real)
    requires |y| > 0 && forall i :: 0 <= i < |y| ==> y[i] == v
    ensures Mean(y) == v && MovingAverage(y) == v
  {
    FlatHasNoSpread(y);
    MovingAverageBounds(y);
    assert Min(y) == v && Max(y) == v;
  }

  /** linregress on a flat window reports slope 0 and r^2 = 0. */
  lemma {:induction false} FlatFit(y: seq<real>, fit: Fit)
    requires |y| > 0 && forall i :: 0 <= i < |y| ==> y[i] == y[0]
    requires LinregressOf(y, fit)
    ensures fit.slope == 0.0 && fit.r2 == 0.0
  {
    FlatSeries(Indices(|y|), y);
  }

  lemma {:induction false} FlatReport(prices: seq<real>, fit: Fit, v: real)
    requires |prices| >= MinPoints && MovingAverage(Recent(prices)) == v
    requires Mean(Recent(prices)) == v && prices[|prices| - 1] == v
    requires fit.slope == 0.0 && fit.r2 == 0.0
    ensures var r := AnalyzeTrend(prices, fit, 0.0);
      r.strength == 50 && r.confidence == 0 && r.forecast == Some(v)
      && r.direction == (if v < 0.0 then Rising else Sideways)
      && r.risk == (if v < 0.0 then Overbought else LowRisk)
  {
    var n := WindowSize(|prices|);
    DirectionIs(prices, fit, 0.0);
    StrengthIs(prices, fit, 0.0);
    ConfidenceIs(prices, fit, 0.0);
    ForecastIs(prices, fit, 0.0);
    RiskIs(prices, fit, 0.0);
    FlatDirection(n, v);
  }

  lemma {:induction false} FlatDirection(n: nat, v: real)
    requires n > 0
    ensures DirectionOf(0.0, v, n) == (if v < 0.0 then Rising else Sideways)
    ensures RiskOf(v, v, DirectionOf(0.0, v, n)) == (if v < 0.0 then Overbought else LowRisk)
  {
    if v < 0.0 {
      assert 0.05 * v / n as real < 0.0;
    } else {
      assert 0.05 * v / n as real >= 0.0;
    }
  }

  lemma {:induction false} ZeroSquare(x: real)
    requires x * x == 0.0
    ensures x == 0.0
  {
    if x != 0.0 {
      var a := if x < 0.0 then -x else x;
      assert a * a == x * x;
      ProductLowerBound(a * a, a, a);
    }
  }
}
