/**
  Chart-pattern and event detection over a price series: local extrema
  found with a strict comparison window, head-and-shoulders and double
  top/bottom checks on the latest extrema, the triangle and channel rule on
  the slopes through the recent extrema, the whole-series safety net that
  fires when nothing else matched, and the new-high, new-low and surge
  events on the last point.
 */
module Patterns {
  import opened Wrappers
  import opened Stats
  import Regression

  /** The comparison window `detect_patterns` uses when its caller gives none. */
  const DefaultWindow: nat := 3
  /** Fewer points than this yield no pattern at all. */
  const MinSeries: nat := 15
  /** Shoulders may differ by less than this fraction of their average. */
  const ShoulderTolerance: real := 0.15
  /** The two latest extrema of a double top or bottom differ by less than this fraction. */
  const DoubleTolerance: real := 0.03
  /** The trend-line rule fits a line through this many of the latest extrema of each kind. */
  const RecentExtrema: nat := 5

  // ---------------------------------------------------------------------
  // Local extrema (`argrelextrema` with `mode='clip'`)

  datatype Extreme = Peak | Trough

  /** The comparator: `np.greater` for peaks, `np.less` for troughs. */
  predicate Beats(e: Extreme, a: real, b: real)
  {
    match e
    case Peak => a > b
    case Trough => a < b
  }

  /** Clipped indexing: a position outside the series reads the nearest end. */
  function Clip(j: int, n: nat): (r: nat)
    requires n > 0
    ensures r < n
    ensures 0 <= j < n ==> r == j
  {
    if j < 0 then 0 else if j > n - 1 then n - 1 else j
  }

  /** Position `i` beats both its clipped neighbours at distance `s`. */
  predicate BeatsAtShift(prices: seq<real>, e: Extreme, i: nat, s: nat)
    requires i < |prices|
  {
    Beats(e, prices[i], prices[Clip(i + s, |prices|)])
    && Beats(e, prices[i], prices[Clip(i - s, |prices|)])
  }

  /** `i` is marked when it beats its clipped neighbours at every shift `1..w`. */
  predicate IsExtremum(prices: seq<real>, w: nat, e: Extreme, i: nat)
    requires i < |prices|
  {
    forall s :: 1 <= s <= w ==> BeatsAtShift(prices, e, i, s)
  }

  /**
    With a window of at least one, a position is an extremum exactly when it is
    strictly inside the series and strictly beats every other price at most
    `w` positions away: clipping makes the two ends compare with themselves.
   */
  lemma {:induction false} ExtremumIff(prices: seq<real>, w: nat, e: Extreme, i: nat)
    requires w >= 1 && i < |prices|
    ensures IsExtremum(prices, w, e, i) <==>
      0 < i < |prices| - 1
      && forall j :: 0 <= j < |prices| && j != i && i - w <= j <= i + w ==> Beats(e, prices[i], prices[j])
  {
    var n := |prices|;
    if IsExtremum(prices, w, e, i) {
      assert BeatsAtShift(prices, e, i, 1);
      assert Clip(i - 1, n) != i && Clip(i + 1, n) != i;
      forall j | 0 <= j < n && j != i && i - w <= j <= i + w
        ensures Beats(e, prices[i], prices[j])
      {
        if j > i {
          assert BeatsAtShift(prices, e, i, j - i);
          assert Clip(i + (j - i), n) == j;
        } else {
          assert BeatsAtShift(prices, e, i, i - j);
          assert Clip(i - (i - j), n) == j;
        }
      }
    }
    if 0 < i < n - 1 && forall j :: 0 <= j < n && j != i && i - w <= j <= i + w ==> Beats(e, prices[i], prices[j]) {
      forall s | 1 <= s <= w ensures BeatsAtShift(prices, e, i, s) {
        var right, left := Clip(i + s, n), Clip(i - s, n);
        assert right != i && i - w <= right <= i + w;
        assert left != i && i - w <= left <= i + w;
      }
    }
  }

  /** The extrema among the first `k` positions, in increasing order. */
  function ExtremaBelow(prices: seq<real>, w: nat, e: Extreme, k: nat): (r: seq<nat>)
    requires k <= |prices|
    ensures forall a :: 0 <= a < |r| ==> r[a] < k
  {
    if k == 0 then []
    else
      var r := ExtremaBelow(prices, w, e, k - 1);
      if IsExtremum(prices, w, e, k - 1) then r + [k - 1] else r
  }

  /** `argrelextrema(prices, comparator, order=w)[0]`: every extremum position, in increasing order. */
  function Extrema(prices: seq<real>, w: nat, e: Extreme): (r: seq<nat>)
    ensures forall a :: 0 <= a < |r| ==> r[a] < |prices|
  {
    ExtremaBelow(prices, w, e, |prices|)
  }

  /** Strictly increasing positions. */
  predicate Increasing(s: seq<nat>)
  {
    forall a, b :: 0 <= a < b < |s| ==> s[a] < s[b]
  }

  /** The extrema below `k` are exactly the extremum positions below `k`, in increasing order. */
  lemma {:induction false} ExtremaBelowMembership(prices: seq<real>, w: nat, e: Extreme, k: nat)
    requires k <= |prices|
    ensures forall i: nat :: i in ExtremaBelow(prices, w, e, k) <==> i < k && IsExtremum(prices, w, e, i)
    ensures Increasing(ExtremaBelow(prices, w, e, k))
  {
    ExtremaBelowMembers(prices, w, e, k);
    ExtremaBelowIncreasing(prices, w, e, k);
  }

  /** The extrema below `k` are exactly the extremum positions below `k`. */
  lemma {:induction false} ExtremaBelowMembers(prices: seq<real>, w: nat, e: Extreme, k: nat)
    requires k <= |prices|
    ensures forall i: nat :: i in ExtremaBelow(prices, w, e, k) <==> i < k && IsExtremum(prices, w, e, i)
  {
    if k > 0 {
      ExtremaBelowMembers(prices, w, e, k - 1);
      var r := ExtremaBelow(prices, w, e, k - 1);
      if IsExtremum(prices, w, e, k - 1) {
        var t := r + [k - 1];
        assert ExtremaBelow(prices, w, e, k) == t;
        forall i: nat ensures i in t <==> i < k && IsExtremum(prices, w, e, i) {
          assert i in t <==> i in r || i == k - 1;
        }
      } else {
        assert ExtremaBelow(prices, w, e, k) == r;
        forall i: nat ensures i in r <==> i < k && IsExtremum(prices, w, e, i) {
          if i == k - 1 {
            assert i !in r;
          }
        }
      }
    }
  }

  /** The extrema below `k` are listed in increasing order. */
  lemma {:induction false} ExtremaBelowIncreasing(prices: seq<real>, w: nat, e: Extreme, k: nat)
    requires k <= |prices|
    ensures Increasing(ExtremaBelow(prices, w, e, k))
  {
    if k > 0 {
      ExtremaBelowIncreasing(prices, w, e, k - 1);
      var r := ExtremaBelow(prices, w, e, k - 1);
      if IsExtremum(prices, w, e, k - 1) {
        var t := r + [k - 1];
        assert ExtremaBelow(prices, w, e, k) == t;
        forall a, b | 0 <= a < b < |t| ensures t[a] < t[b] {
          if b == |r| {
            assert t[a] == r[a] && t[b] == k - 1;
          } else {
            assert t[a] == r[a] && t[b] == r[b];
          }
        }
      }
    }
  }

  /** The extremum list holds exactly the extremum positions, strictly increasing. */
  lemma {:induction false} ExtremaMembership(prices: seq<real>, w: nat, e: Extreme)
    ensures var r := Extrema(prices, w, e);
      (forall i: nat :: i in r <==> i < |prices| && IsExtremum(prices, w, e, i))
      && forall a, b :: 0 <= a < b < |r| ==> r[a] < r[b]
  {
    ExtremaBelowMembership(prices, w, e, |prices|);
    assert Extrema(prices, w, e) == ExtremaBelow(prices, w, e, |prices|);
  }

  /** Two extrema of the same kind are always more than `w` positions apart. */
  lemma {:induction false} ExtremaApart(prices: seq<real>, w: nat, e: Extreme, a: nat, b: nat)
    requires w >= 1 && a < b < |Extrema(prices, w, e)|
    ensures Extrema(prices, w, e)[b] - Extrema(prices, w, e)[a] > w
  {
    var r := Extrema(prices, w, e);
    var i, j := r[a], r[b];
    ExtremaMembership(prices, w, e);
    assert i in r && j in r;
    ExtremumIff(prices, w, e, i);
    ExtremumIff(prices, w, e, j);
    assert j - i <= w ==> Beats(e, prices[i], prices[j]) && Beats(e, prices[j], prices[i]);
  }

  // ---------------------------------------------------------------------
  // Pattern records

  datatype PatternKind =
    | HeadShouldersTop | HeadShouldersBottom
    | DoubleTop | DoubleBottom
    | Triangle | AscendingChannel | DescendingChannel
    | Rally | SellOff | Consolidation | Featureless

  /** The `type` text of each pattern. */
  function PatternLabel(k: PatternKind): string
  {
    match k
    case HeadShouldersTop => "👤 頭肩頂 (看跌)"
    case HeadShouldersBottom => "🧘 頭肩底 (看漲)"
    case DoubleTop => "Ⓜ\U{FE0F} 雙重頂 (M頭)"
    case DoubleBottom => "🇼 雙重底 (W底)"
    case Triangle => "📐 三角收斂"
    case AscendingChannel => "🛤\U{FE0F} 上升通道"
    case DescendingChannel => "📉 下降通道"
    case Rally => "🚀 急速拉升"
    case SellOff => "🩸 恐慌拋售"
    case Consolidation => "🦀 區間盤整"
    case Featureless => "無明顯型態"
  }

  /** The kinds the safety net produces. */
  predicate IsFallback(k: PatternKind)
  {
    k.Rally? || k.SellOff? || k.Consolidation? || k.Featureless?
  }

  /** The kinds the trend-line rule produces. */
  predicate IsTrendLine(k: PatternKind)
  {
    k.Triangle? || k.AscendingChannel? || k.DescendingChannel?
  }

  /** A detected pattern: its kind, the index span it covers and, for head-and-shoulders, the shoulder line. */
  datatype Pattern = Pattern(kind: PatternKind, start: nat, end: nat, lines: Option<seq<seq<real>>>)

  function ShoulderKind(e: Extreme): PatternKind
  {
    if e.Peak? then HeadShouldersTop else HeadShouldersBottom
  }

  function DoubleKind(e: Extreme): PatternKind
  {
    if e.Peak? then DoubleTop else DoubleBottom
  }

  // ---------------------------------------------------------------------
  // Head and shoulders

  /**
    The shoulders differ by less than 15% of their average. A zero average
    divides to infinity or NaN in floating point, and neither compares below
    the bound.
   */
  predicate ShouldersMatch(left: real, right: real)
  {
    var avg := (left + right) / 2.0;
    avg != 0.0 && Abs(left - right) / avg < ShoulderTolerance
  }

  /** At least three extrema, the middle of the last three beats both others, and the shoulders match. */
  predicate HeadAndShoulders(prices: seq<real>, idx: seq<nat>, e: Extreme)
    requires forall a :: 0 <= a < |idx| ==> idx[a] < |prices|
  {
    |idx| >= 3
    && var i1, i2, i3 := idx[|idx| - 3], idx[|idx| - 2], idx[|idx| - 1];
    Beats(e, prices[i2], prices[i1]) && Beats(e, prices[i2], prices[i3])
    && ShouldersMatch(prices[i1], prices[i3])
  }

  function HeadShoulders(prices: seq<real>, idx: seq<nat>, e: Extreme): (r: seq<Pattern>)
    requires forall a :: 0 <= a < |idx| ==> idx[a] < |prices|
  {
    if HeadAndShoulders(prices, idx, e) then
      var i1, i3 := idx[|idx| - 3], idx[|idx| - 1];
      [Pattern(ShoulderKind(e), i1, i3, Some([[prices[i1], prices[i3]]]))]
    else []
  }

  // ---------------------------------------------------------------------
  // Double top and bottom

  /** `is_double_pattern`: a positive average, and a difference below 3% of it. */
  predicate IsDoublePattern(last: real, prev: real)
  {
    var avg := (last + prev) / 2.0;
    avg > 0.0 && Abs(last - prev) / avg < DoubleTolerance
  }

  function Double(prices: seq<real>, idx: seq<nat>, e: Extreme): (r: seq<Pattern>)
    requires forall a :: 0 <= a < |idx| ==> idx[a] < |prices|
  {
    if |idx| < 2 then []
    else
      var last, prev := idx[|idx| - 1], idx[|idx| - 2];
      if IsDoublePattern(prices[last], prices[prev]) then [Pattern(DoubleKind(e), prev, last, None)] else []
  }

  /** The double test does not depend on which of the two comes last. */
  lemma {:induction false} DoubleSymmetric(a: real, b: real)
    ensures IsDoublePattern(a, b) <==> IsDoublePattern(b, a)
  {
    assert Abs(a - b) == Abs(b - a);
  }

  /** Two equal prices form a double exactly when they are positive. */
  lemma {:induction false} DoubleOfEqualPrices(x: real)
    ensures IsDoublePattern(x, x) <==> x > 0.0
  {
  }

  // ---------------------------------------------------------------------
  // Triangle and channels

  function AsReals(idx: seq<nat>): (r: seq<real>)
    ensures |r| == |idx| && forall a :: 0 <= a < |idx| ==> r[a] == idx[a] as real
  {
    seq(|idx|, a requires 0 <= a < |idx| => idx[a] as real)
  }

  /** `linregress(idx, prices[idx]).slope`: the least-squares slope through the points. */
  function LineSlope(prices: seq<real>, idx: seq<nat>): real
    requires |idx| > 0 && forall a :: 0 <= a < |idx| ==> idx[a] < |prices|
  {
    Regression.Slope(AsReals(idx), At(prices, idx))
  }

  /** The triangle / ascending channel / descending channel decision on the resistance and support slopes. */
  function LineKind(slopeRes: real, slopeSup: real): Option<PatternKind>
  {
    if slopeRes < -0.05 && slopeSup > 0.05 then Some(Triangle)
    else if slopeRes > 0.1 && slopeSup > 0.1 then
      if Abs(slopeRes - slopeSup) < 0.1 then Some(AscendingChannel) else None
    else if slopeRes < -0.1 && slopeSup < -0.1 then
      if Abs(slopeRes - slopeSup) < 0.1 then Some(DescendingChannel) else None
    else None
  }

  /**
    Each outcome of the decision has its own condition, independent of the
    order of the tests: converging lines, two rising nearly parallel lines,
    or two falling nearly parallel lines.
   */
  lemma {:induction false} LineKindIff(slopeRes: real, slopeSup: real)
    ensures LineKind(slopeRes, slopeSup) == Some(Triangle) <==> slopeRes < -0.05 && slopeSup > 0.05
    ensures LineKind(slopeRes, slopeSup) == Some(AscendingChannel)
      <==> slopeRes > 0.1 && slopeSup > 0.1 && Abs(slopeRes - slopeSup) < 0.1
    ensures LineKind(slopeRes, slopeSup) == Some(DescendingChannel)
      <==> slopeRes < -0.1 && slopeSup < -0.1 && Abs(slopeRes - slopeSup) < 0.1
    ensures LineKind(slopeRes, slopeSup).Some? ==> IsTrendLine(LineKind(slopeRes, slopeSup).value)
  {
  }

  /**
    The trend-line entry for the given recent extrema and slopes: it spans from
    the earlier first to the later last of the recent extrema.
   */
  function LineFrom(recentPeaks: seq<nat>, recentTroughs: seq<nat>, slopeRes: real, slopeSup: real): (r: seq<Pattern>)
    requires |recentPeaks| > 0 && |recentTroughs| > 0
  {
    var start := if recentPeaks[0] <= recentTroughs[0] then recentPeaks[0] else recentTroughs[0];
    var lastPeak, lastTrough := recentPeaks[|recentPeaks| - 1], recentTroughs[|recentTroughs| - 1];
    var end := if lastPeak >= lastTrough then lastPeak else lastTrough;
    match LineKind(slopeRes, slopeSup)
    case None => []
    case Some(k) => [Pattern(k, start, end, None)]
  }

  /**
    The trend-line rule for given resistance and support slopes: only with
    three peaks and three troughs, on the latest five of each.
   */
  function TrendLineFrom(peaks: seq<nat>, troughs: seq<nat>, slopeRes: real, slopeSup: real): seq<Pattern>
  {
    if |peaks| < 3 || |troughs| < 3 then []
    else LineFrom(Tail(peaks, RecentExtrema), Tail(troughs, RecentExtrema), slopeRes, slopeSup)
  }

  /**
    The least-squares slope through the latest five extrema of one kind (0 for
    an empty list, where the rule never reads it).
   */
  function RecentSlope(prices: seq<real>, idx: seq<nat>): real
    requires forall a :: 0 <= a < |idx| ==> idx[a] < |prices|
  {
    if |idx| == 0 then 0.0 else LineSlope(prices, Tail(idx, RecentExtrema))
  }

  // ---------------------------------------------------------------------
  // Safety net

  /**
    The total change `(last - first) / first` exceeds 30%. A zero first price
    divides to plus or minus infinity, or to NaN when the last is zero too.
   */
  predicate RisesSharply(first: real, last: real)
  {
    if first == 0.0 then last > 0.0 else (last - first) / first > 0.3
  }

  /** The total change is below -30%, with the same reading of a zero first price. */
  predicate FallsSharply(first: real, last: real)
  {
    if first == 0.0 then last < 0.0 else (last - first) / first < -0.3
  }

  /** `(max - min) / min`, or 0 when the minimum is not positive. */
  function Volatility(prices: seq<real>): real
    requires |prices| > 0
  {
    var lo := Min(prices);
    if lo > 0.0 then (Max(prices) - lo) / lo else 0.0
  }

  function FallbackKind(prices: seq<real>): (k: PatternKind)
    requires |prices| > 0
    ensures IsFallback(k)
  {
    var first, last := prices[0], prices[|prices| - 1];
    if RisesSharply(first, last) then Rally
    else if FallsSharply(first, last) then SellOff
    else if Volatility(prices) < 0.05 then Consolidation
    else Featureless
  }

  /** A series cannot both rally and sell off. */
  lemma {:induction false} RallyExcludesSellOff(first: real, last: real)
    ensures !(RisesSharply(first, last) && FallsSharply(first, last))
  {
  }

  /** A positive series that ends more than 30% above where it started is a rally. */
  lemma {:induction false} SharpRiseIsRally(prices: seq<real>)
    requires |prices| > 0 && prices[0] > 0.0 && prices[|prices| - 1] > 1.3 * prices[0]
    ensures FallbackKind(prices) == Rally
  {
    var first, last := prices[0], prices[|prices| - 1];
    assert (last - first) / first > 0.3 by {
      assert last - first > 0.3 * first;
    }
  }

  /** A constant positive series is a consolidation. */
  lemma {:induction false} SteadySeriesConsolidates(prices: seq<real>)
    requires |prices| > 0 && prices[0] > 0.0
    requires forall i :: 0 <= i < |prices| ==> prices[i] == prices[0]
    ensures FallbackKind(prices) == Consolidation
  {
    assert Min(prices) == prices[0] && Max(prices) == prices[0];
  }

  // ---------------------------------------------------------------------
  // detect_patterns

  /** Everything the specific rules found, in the order they are tried, for given trend-line slopes. */
  function Matched(prices: seq<real>, w: nat, slopeRes: real, slopeSup: real): seq<Pattern>
  {
    var peaks, troughs := Extrema(prices, w, Peak), Extrema(prices, w, Trough);
    HeadShoulders(prices, peaks, Peak) + HeadShoulders(prices, troughs, Trough)
    + Double(prices, peaks, Peak) + Double(prices, troughs, Trough)
    + TrendLineFrom(peaks, troughs, slopeRes, slopeSup)
  }

  /**
    The pattern list for given trend-line slopes: nothing for a short series,
    else the matches, or the safety net when there are none.
   */
  function PatternsFrom(prices: seq<real>, w: nat, slopeRes: real, slopeSup: real): seq<Pattern>
  {
    if |prices| < MinSeries then []
    else
      var m := Matched(prices, w, slopeRes, slopeSup);
      if m == [] then [Pattern(FallbackKind(prices), 0, |prices| - 1, None)] else m
  }

  /** The list `detect_patterns` returns: the slopes are the least-squares slopes through the recent extrema. */
  function PatternsSpec(prices: seq<real>, w: nat): seq<Pattern>
    requires w >= 1
  {
    PatternsFrom(prices, w, RecentSlope(prices, Extrema(prices, w, Peak)), RecentSlope(prices, Extrema(prices, w, Trough)))
  }

  /** Section A for one kind of extremum: the head-and-shoulders check on the last three. */
  method ShoulderSection(prices: seq<real>, idx: seq<nat>, e: Extreme) returns (found: seq<Pattern>)
    requires forall a :: 0 <= a < |idx| ==> idx[a] < |prices|
    ensures found == HeadShoulders(prices, idx, e)
  {
    found := [];
    if |idx| >= 3 {
      var i1, i2, i3 := idx[|idx| - 3], idx[|idx| - 2], idx[|idx| - 1];
      if Beats(e, prices[i2], prices[i1]) && Beats(e, prices[i2], prices[i3]) {
        var shoulderAvg := (prices[i1] + prices[i3]) / 2.0;
        if shoulderAvg != 0.0 && Abs(prices[i1] - prices[i3]) / shoulderAvg < ShoulderTolerance {
          found := found + [Pattern(ShoulderKind(e), i1, i3, Some([[prices[i1], prices[i3]]]))];
        }
      }
    }
  }

  /** Section B for one kind of extremum: the double check on the last two. */
  method DoubleSection(prices: seq<real>, idx: seq<nat>, e: Extreme) returns (found: seq<Pattern>)
    requires forall a :: 0 <= a < |idx| ==> idx[a] < |prices|
    ensures found == Double(prices, idx, e)
  {
    found := [];
    if |idx| >= 2 {
      var last, prev := idx[|idx| - 1], idx[|idx| - 2];
      if IsDoublePattern(prices[last], prices[prev]) {
        found := found + [Pattern(DoubleKind(e), prev, last, None)];
      }
    }
  }

  /** Section C: fit lines through the recent peaks and troughs and classify them. */
  method TrendLineSection(prices: seq<real>, peaks: seq<nat>, troughs: seq<nat>) returns (found: seq<Pattern>)
    requires forall a :: 0 <= a < |peaks| ==> peaks[a] < |prices|
    requires forall a :: 0 <= a < |troughs| ==> troughs[a] < |prices|
    ensures found == TrendLineFrom(peaks, troughs, RecentSlope(prices, peaks), RecentSlope(prices, troughs))
  {
    found := [];
    if |peaks| >= 3 && |troughs| >= 3 {
      var recentPeaks := Tail(peaks, RecentExtrema);
      var recentTroughs := Tail(troughs, RecentExtrema);
      var start := if recentPeaks[0] <= recentTroughs[0] then recentPeaks[0] else recentTroughs[0];
      var lastPeak, lastTrough := recentPeaks[|recentPeaks| - 1], recentTroughs[|recentTroughs| - 1];
      var end := if lastPeak >= lastTrough then lastPeak else lastTrough;
      var slopeRes := LineSlope(prices, recentPeaks);
      var slopeSup := LineSlope(prices, recentTroughs);
      if slopeRes < -0.05 && slopeSup > 0.05 {
        found := found + [Pattern(Triangle, start, end, None)];
      } else if slopeRes > 0.1 && slopeSup > 0.1 {
        if Abs(slopeRes - slopeSup) < 0.1 {
          found := found + [Pattern(AscendingChannel, start, end, None)];
        }
      } else if slopeRes < -0.1 && slopeSup < -0.1 {
        if Abs(slopeRes - slopeSup) < 0.1 {
          found := found + [Pattern(DescendingChannel, start, end, None)];
        }
      }
    }
  }

  method DetectPatterns(prices: seq<real>, w: nat) returns (patterns: seq<Pattern>)
    requires w >= 1
    ensures patterns == PatternsSpec(prices, w)
  {
    patterns := [];
    if |prices| < MinSeries {
      return;
    }
    var peaks := Extrema(prices, w, Peak);
    var troughs := Extrema(prices, w, Trough);
    var found := ShoulderSection(prices, peaks, Peak);
    patterns := patterns + found;
    assert patterns == HeadShoulders(prices, peaks, Peak);
    found := ShoulderSection(prices, troughs, Trough);
    patterns := patterns + found;
    found := DoubleSection(prices, peaks, Peak);
    patterns := patterns + found;
    found := DoubleSection(prices, troughs, Trough);
    patterns := patterns + found;
    ghost var front := patterns;
    ghost var slopeRes, slopeSup := RecentSlope(prices, peaks), RecentSlope(prices, troughs);
    found := TrendLineSection(prices, peaks, troughs);
    patterns := patterns + found;
    assert patterns == front + TrendLineFrom(peaks, troughs, slopeRes, slopeSup);
    assert patterns == Matched(prices, w, slopeRes, slopeSup);

    if patterns == [] {
      var fallback := SafetyNet(prices);
      patterns := patterns + [fallback];
    }
  }

  /** Section D: the whole-series entry used when no specific rule matched. */
  method SafetyNet(prices: seq<real>) returns (p: Pattern)
    requires |prices| > 0
    ensures p == Pattern(FallbackKind(prices), 0, |prices| - 1, None)
  {
    var first, last := prices[0], prices[|prices| - 1];
    var lo, hi := Min(prices), Max(prices);
    var volatility := if lo > 0.0 then (hi - lo) / lo else 0.0;
    var defaultEnd := |prices| - 1;
    if RisesSharply(first, last) {
      p := Pattern(Rally, 0, defaultEnd, None);
    } else if FallsSharply(first, last) {
      p := Pattern(SellOff, 0, defaultEnd, None);
    } else if volatility < 0.05 {
      p := Pattern(Consolidation, 0, defaultEnd, None);
    } else {
      p := Pattern(Featureless, 0, defaultEnd, None);
    }
  }

  // ---------------------------------------------------------------------
  // Properties of detect_patterns, for any trend-line slopes

  /** Every pattern in the list lies inside the series, its start not after its end. */
  predicate WithinSeries(ps: seq<Pattern>, n: nat)
  {
    forall p :: p in ps ==> p.start <= p.end < n
  }

  /** Matches never carry a safety-net kind. */
  predicate NoFallback(ps: seq<Pattern>)
  {
    forall p :: p in ps ==> !IsFallback(p.kind)
  }

  lemma {:induction false} HeadShouldersShape(prices: seq<real>, w: nat, e: Extreme)
    ensures var r := HeadShoulders(prices, Extrema(prices, w, e), e);
      WithinSeries(r, |prices|) && NoFallback(r) && forall p :: p in r ==> p.kind == ShoulderKind(e)
  {
    ExtremaMembership(prices, w, e);
  }

  lemma {:induction false} DoubleShape(prices: seq<real>, w: nat, e: Extreme)
    ensures var r := Double(prices, Extrema(prices, w, e), e);
      WithinSeries(r, |prices|) && NoFallback(r) && forall p :: p in r ==> p.kind == DoubleKind(e)
  {
    ExtremaMembership(prices, w, e);
  }

  lemma {:induction false} LineFromShape(recentPeaks: seq<nat>, recentTroughs: seq<nat>, slopeRes: real, slopeSup: real, n: nat)
    requires |recentPeaks| > 0 && |recentTroughs| > 0
    requires recentPeaks[0] <= recentPeaks[|recentPeaks| - 1] < n
    requires recentTroughs[0] <= recentTroughs[|recentTroughs| - 1] < n
    ensures var r := LineFrom(recentPeaks, recentTroughs, slopeRes, slopeSup);
      WithinSeries(r, n) && NoFallback(r) && |r| <= 1 && forall p :: p in r ==> IsTrendLine(p.kind)
  {
    LineKindIff(slopeRes, slopeSup);
  }

  lemma {:induction false} TrendLineShape(prices: seq<real>, w: nat, slopeRes: real, slopeSup: real)
    ensures var r := TrendLineFrom(Extrema(prices, w, Peak), Extrema(prices, w, Trough), slopeRes, slopeSup);
      WithinSeries(r, |prices|) && NoFallback(r) && |r| <= 1 && forall p :: p in r ==> IsTrendLine(p.kind)
  {
    var peaks, troughs := Extrema(prices, w, Peak), Extrema(prices, w, Trough);
    ExtremaMembership(prices, w, Peak);
    ExtremaMembership(prices, w, Trough);
    if |peaks| >= 3 && |troughs| >= 3 {
      var rp, rt := Tail(peaks, RecentExtrema), Tail(troughs, RecentExtrema);
      assert rp[0] == peaks[|peaks| - |rp|] && rp[|rp| - 1] == peaks[|peaks| - 1];
      assert rt[0] == troughs[|troughs| - |rt|] && rt[|rt| - 1] == troughs[|troughs| - 1];
      LineFromShape(rp, rt, slopeRes, slopeSup, |prices|);
    }
  }

  lemma {:induction false} MatchedShape(prices: seq<real>, w: nat, slopeRes: real, slopeSup: real)
    ensures var m := Matched(prices, w, slopeRes, slopeSup);
      WithinSeries(m, |prices|) && NoFallback(m)
  {
    HeadShouldersShape(prices, w, Peak);
    HeadShouldersShape(prices, w, Trough);
    DoubleShape(prices, w, Peak);
    DoubleShape(prices, w, Trough);
    TrendLineShape(prices, w, slopeRes, slopeSup);
  }

  /**
    A short series yields no pattern, and every returned pattern spans
    `0 <= start <= end <= n - 1`.
   */
  lemma {:induction false} PatternSpans(prices: seq<real>, w: nat, slopeRes: real, slopeSup: real)
    ensures var r := PatternsFrom(prices, w, slopeRes, slopeSup);
      (|prices| < MinSeries ==> r == []) && WithinSeries(r, |prices|)
  {
    MatchedShape(prices, w, slopeRes, slopeSup);
  }

  /**
    On a series long enough to analyse, the safety net fires exactly when no
    specific rule matched, and then the list is that one whole-series entry.
   */
  lemma {:induction false} FallbackIffNothingMatched(prices: seq<real>, w: nat, slopeRes: real, slopeSup: real)
    requires |prices| >= MinSeries
    ensures var r, m := PatternsFrom(prices, w, slopeRes, slopeSup), Matched(prices, w, slopeRes, slopeSup);
      ((exists p :: p in r && IsFallback(p.kind)) <==> m == [])
      && (m == [] ==> r == [Pattern(FallbackKind(prices), 0, |prices| - 1, None)])
      && |r| >= 1
  {
    MatchedShape(prices, w, slopeRes, slopeSup);
    var r := PatternsFrom(prices, w, slopeRes, slopeSup);
    if Matched(prices, w, slopeRes, slopeSup) == [] {
      assert r[0] in r;
    }
  }

  /** Every returned entry is one of the specific rules' entries or the single safety-net entry. */
  lemma {:induction false} PatternsFromParts(prices: seq<real>, w: nat, slopeRes: real, slopeSup: real)
    ensures var peaks, troughs, r := Extrema(prices, w, Peak), Extrema(prices, w, Trough), PatternsFrom(prices, w, slopeRes, slopeSup);
      forall p :: p in r ==>
        p in HeadShoulders(prices, peaks, Peak) || p in HeadShoulders(prices, troughs, Trough)
        || p in Double(prices, peaks, Peak) || p in Double(prices, troughs, Trough)
        || p in TrendLineFrom(peaks, troughs, slopeRes, slopeSup)
        || IsFallback(p.kind)
  {
    var peaks, troughs := Extrema(prices, w, Peak), Extrema(prices, w, Trough);
    var m := Matched(prices, w, slopeRes, slopeSup);
    assert m == HeadShoulders(prices, peaks, Peak) + HeadShoulders(prices, troughs, Trough)
      + Double(prices, peaks, Peak) + Double(prices, troughs, Trough)
      + TrendLineFrom(peaks, troughs, slopeRes, slopeSup);
  }

  /** Every head-and-shoulders entry of a kind comes from the check on the extrema of that kind. */
  lemma {:induction false} ShoulderEntries(prices: seq<real>, w: nat, e: Extreme, slopeRes: real, slopeSup: real)
    ensures var idx, r := Extrema(prices, w, e), PatternsFrom(prices, w, slopeRes, slopeSup);
      forall p :: p in r && p.kind == ShoulderKind(e) ==> p in HeadShoulders(prices, idx, e)
  {
    PatternsFromParts(prices, w, slopeRes, slopeSup);
    HeadShouldersShape(prices, w, Peak);
    HeadShouldersShape(prices, w, Trough);
    DoubleShape(prices, w, Peak);
    DoubleShape(prices, w, Trough);
    TrendLineShape(prices, w, slopeRes, slopeSup);
  }

  /** Every double entry of a kind comes from the check on the extrema of that kind. */
  lemma {:induction false} DoubleEntries(prices: seq<real>, w: nat, e: Extreme, slopeRes: real, slopeSup: real)
    ensures var idx, r := Extrema(prices, w, e), PatternsFrom(prices, w, slopeRes, slopeSup);
      forall p :: p in r && p.kind == DoubleKind(e) ==> p in Double(prices, idx, e)
  {
    PatternsFromParts(prices, w, slopeRes, slopeSup);
    HeadShouldersShape(prices, w, Peak);
    HeadShouldersShape(prices, w, Trough);
    DoubleShape(prices, w, Peak);
    DoubleShape(prices, w, Trough);
    TrendLineShape(prices, w, slopeRes, slopeSup);
  }

  /** On a long enough series, every entry of the specific rules is returned. */
  lemma {:induction false} MatchedReturned(prices: seq<real>, w: nat, slopeRes: real, slopeSup: real)
    requires |prices| >= MinSeries
    ensures forall p :: p in Matched(prices, w, slopeRes, slopeSup) ==> p in PatternsFrom(prices, w, slopeRes, slopeSup)
  {
  }

  /**
    A head-and-shoulders entry of a kind is present exactly when the last three
    extrema of that kind form one, and it then spans the first to the last of
    them with the shoulder prices as its line.
   */
  lemma {:induction false} HeadShouldersIff(prices: seq<real>, w: nat, e: Extreme, slopeRes: real, slopeSup: real)
    requires |prices| >= MinSeries
    ensures var idx, r := Extrema(prices, w, e), PatternsFrom(prices, w, slopeRes, slopeSup);
      ((exists p :: p in r && p.kind == ShoulderKind(e)) <==> HeadAndShoulders(prices, idx, e))
      && forall p :: p in r && p.kind == ShoulderKind(e) ==>
        |idx| >= 3 && p.start == idx[|idx| - 3] && p.end == idx[|idx| - 1]
        && p.lines == Some([[prices[idx[|idx| - 3]], prices[idx[|idx| - 1]]]])
  {
    var idx := Extrema(prices, w, e);
    ShoulderEntries(prices, w, e, slopeRes, slopeSup);
    MatchedReturned(prices, w, slopeRes, slopeSup);
    if HeadAndShoulders(prices, idx, e) {
      var p := HeadShoulders(prices, idx, e)[0];
      var peaks, troughs := Extrema(prices, w, Peak), Extrema(prices, w, Trough);
      assert p in HeadShoulders(prices, peaks, Peak) + HeadShoulders(prices, troughs, Trough);
      assert p in Matched(prices, w, slopeRes, slopeSup);
    }
  }

  /**
    A double top (bottom) is present exactly when the last two peaks (troughs)
    have a positive average and differ by less than 3% of it; it spans the
    two.
   */
  lemma {:induction false} DoubleIff(prices: seq<real>, w: nat, e: Extreme, slopeRes: real, slopeSup: real)
    requires |prices| >= MinSeries
    ensures var idx, r := Extrema(prices, w, e), PatternsFrom(prices, w, slopeRes, slopeSup);
      ((exists p :: p in r && p.kind == DoubleKind(e))
        <==> |idx| >= 2 && IsDoublePattern(prices[idx[|idx| - 1]], prices[idx[|idx| - 2]]))
      && forall p :: p in r && p.kind == DoubleKind(e) ==>
        |idx| >= 2 && p.start == idx[|idx| - 2] && p.end == idx[|idx| - 1]
  {
    var idx := Extrema(prices, w, e);
    DoubleEntries(prices, w, e, slopeRes, slopeSup);
    MatchedReturned(prices, w, slopeRes, slopeSup);
    if |idx| >= 2 && IsDoublePattern(prices[idx[|idx| - 1]], prices[idx[|idx| - 2]]) {
      var p := Double(prices, idx, e)[0];
      var peaks, troughs := Extrema(prices, w, Peak), Extrema(prices, w, Trough);
      assert p in Double(prices, peaks, Peak) + Double(prices, troughs, Trough);
      assert p in Matched(prices, w, slopeRes, slopeSup);
    }
  }

  /**
    At most one of triangle, ascending channel and descending channel is
    reported, only with at least three peaks and three troughs, and it spans
    from the earlier to the later end of the recent extrema.
   */
  lemma {:induction false} AtMostOneTrendLine(prices: seq<real>, w: nat, slopeRes: real, slopeSup: real)
    ensures var r := PatternsFrom(prices, w, slopeRes, slopeSup);
      forall a, b :: 0 <= a < b < |r| && IsTrendLine(r[a].kind) ==> !IsTrendLine(r[b].kind)
    ensures var peaks, troughs, r := Extrema(prices, w, Peak), Extrema(prices, w, Trough), PatternsFrom(prices, w, slopeRes, slopeSup);
      forall p :: p in r && IsTrendLine(p.kind) ==>
        |peaks| >= 3 && |troughs| >= 3
        && var rp, rt := Tail(peaks, RecentExtrema), Tail(troughs, RecentExtrema);
        p.start <= rp[0] && p.start <= rt[0] && (p.start == rp[0] || p.start == rt[0])
        && p.end >= rp[|rp| - 1] && p.end >= rt[|rt| - 1]
        && (p.end == rp[|rp| - 1] || p.end == rt[|rt| - 1])
  {
    var peaks, troughs := Extrema(prices, w, Peak), Extrema(prices, w, Trough);
    var r := PatternsFrom(prices, w, slopeRes, slopeSup);
    PatternsFromParts(prices, w, slopeRes, slopeSup);
    HeadShouldersShape(prices, w, Peak);
    HeadShouldersShape(prices, w, Trough);
    DoubleShape(prices, w, Peak);
    DoubleShape(prices, w, Trough);
    TrendLineShape(prices, w, slopeRes, slopeSup);
    var front := HeadShoulders(prices, peaks, Peak) + HeadShoulders(prices, troughs, Trough)
      + Double(prices, peaks, Peak) + Double(prices, troughs, Trough);
    var line := TrendLineFrom(peaks, troughs, slopeRes, slopeSup);
    assert Matched(prices, w, slopeRes, slopeSup) == front + line;
    assert forall p :: p in front ==> !IsTrendLine(p.kind);
  }

  // ---------------------------------------------------------------------
  // detect_events

  datatype EventKind = NewHigh | NewLow | SurgeUp | SurgeDown

  /** The `type` text of each event. */
  function EventLabel(k: EventKind): string
  {
    match k
    case NewHigh => "🔥 創歷史新高"
    case NewLow => "🧊 創歷史新低"
    case SurgeUp => "⚡ 暴漲突變"
    case SurgeDown => "⚡ 暴跌突變"
  }

  /** An event at the row labelled `index` of the frame. */
  datatype Event = Event(index: int, kind: EventKind)

  /** `diff()` without its leading NaN: the change from each point to the next. */
  function Changes(prices: seq<real>): (r: seq<real>)
    ensures |r| == if |prices| == 0 then 0 else |prices| - 1
    ensures forall i :: 0 <= i < |r| ==> r[i] == prices[i + 1] - prices[i]
  {
    if |prices| < 2 then [] else seq(|prices| - 1, i requires 0 <= i < |prices| - 1 => prices[i + 1] - prices[i])
  }

  /**
    The sample variance of the changes. `std()` is NaN with fewer than two
    changes, and the source then uses 0.
   */
  function ChangeVariance(prices: seq<real>): (v: real)
    ensures v >= 0.0
  {
    var c := Changes(prices);
    if |c| < 2 then 0.0
    else
      DotSelfNonNegative(Deviations(c));
      SampleVariance(c)
  }

  /** The new-high or new-low event on the last row, if any; the high is tested first. */
  function RecordEvent(prices: seq<real>, at: int): (r: seq<Event>)
    requires |prices| > 0
    ensures |r| <= 1 && forall ev :: ev in r ==> ev.index == at && (ev.kind == NewHigh || ev.kind == NewLow)
  {
    var current := prices[|prices| - 1];
    if current >= Max(prices) then [Event(at, NewHigh)]
    else if current <= Min(prices) then [Event(at, NewLow)]
    else []
  }

  /** The surge thresholds on one change: more than three standard deviations and more than 1% of the mean price. */
  predicate SurgeTest(change: real, changeStd: real, meanPrice: real)
  {
    Abs(change) > 3.0 * changeStd && Abs(change) > meanPrice * 0.01
  }

  /**
    The surge event on the last row, if any, named by the sign of the last
    change. With a single row the change is NaN, and no threshold holds.
   */
  function SurgeEvent(prices: seq<real>, at: int, changeStd: real): (r: seq<Event>)
    requires |prices| > 0
    ensures |r| <= 1 && forall ev :: ev in r ==> ev.index == at && (ev.kind == SurgeUp || ev.kind == SurgeDown)
  {
    if |prices| >= 2 && SurgeTest(prices[|prices| - 1] - prices[|prices| - 2], changeStd, Mean(prices)) then
      [Event(at, if prices[|prices| - 1] - prices[|prices| - 2] > 0.0 then SurgeUp else SurgeDown)]
    else []
  }

  /**
    The events `detect_events` returns for a frame with these prices and row
    labels, where `changeStd` is the standard deviation of the changes.
   */
  function EventsSpec(prices: seq<real>, labels: seq<int>, changeStd: real): seq<Event>
    requires |labels| == |prices|
  {
    if |prices| == 0 then []
    else
      var at := labels[|labels| - 1];
      RecordEvent(prices, at) + SurgeEvent(prices, at, changeStd)
  }

  /**
    `changeStd` stands for `df['Price_Change'].std()`, a standard deviation
    and so never negative; SurgeIffVariance ties it to ChangeVariance.
   */
  method DetectEvents(prices: seq<real>, labels: seq<int>, changeStd: real) returns (events: seq<Event>)
    requires |labels| == |prices|
    requires changeStd >= 0.0
    ensures events == EventsSpec(prices, labels, changeStd)
  {
    events := [];
    if |prices| == 0 {
      return;
    }
    var at := labels[|labels| - 1];
    var current := prices[|prices| - 1];
    if current >= Max(prices) {
      events := events + [Event(at, NewHigh)];
    } else if current <= Min(prices) {
      events := events + [Event(at, NewLow)];
    }
    var meanPrice := Mean(prices);
    if |prices| >= 2 {
      var lastChange := prices[|prices| - 1] - prices[|prices| - 2];
      if SurgeTest(lastChange, changeStd, meanPrice) {
        var kind := if lastChange > 0.0 then SurgeUp else SurgeDown;
        events := events + [Event(at, kind)];
      }
    }
  }

  /**
    No events for an empty frame; otherwise at most two, all on the last row,
    and never both a new high and a new low.
   */
  lemma {:induction false} EventsShape(prices: seq<real>, labels: seq<int>, changeStd: real)
    requires |labels| == |prices|
    ensures var r := EventsSpec(prices, labels, changeStd);
      (|prices| == 0 ==> r == [])
      && |r| <= 2
      && (forall ev :: ev in r ==> ev.index == labels[|labels| - 1])
      && !((exists ev :: ev in r && ev.kind == NewHigh) && (exists ev :: ev in r && ev.kind == NewLow))
  {
  }

  /**
    A new high is reported exactly when the last price is at least every
    price; a new low exactly when it is at most every price and some price is
    higher (the high is tested first).
   */
  lemma {:induction false} NewHighLowIff(prices: seq<real>, labels: seq<int>, changeStd: real)
    requires |labels| == |prices| > 0
    ensures var r, current := EventsSpec(prices, labels, changeStd), prices[|prices| - 1];
      ((exists ev :: ev in r && ev.kind == NewHigh) <==> forall i :: 0 <= i < |prices| ==> prices[i] <= current)
      && ((exists ev :: ev in r && ev.kind == NewLow) <==>
        (forall i :: 0 <= i < |prices| ==> current <= prices[i]) && exists i :: 0 <= i < |prices| && current < prices[i])
  {
    var r, current := EventsSpec(prices, labels, changeStd), prices[|prices| - 1];
    var at := labels[|labels| - 1];
    if forall i :: 0 <= i < |prices| ==> prices[i] <= current {
      var k :| 0 <= k < |prices| && prices[k] == Max(prices);
      assert Event(at, NewHigh) in r;
    } else if forall i :: 0 <= i < |prices| ==> current <= prices[i] {
      var k :| 0 <= k < |prices| && prices[k] == Min(prices);
      assert Event(at, NewLow) in r;
    }
  }

  /** A surge up follows a rise and a surge down follows a fall: a zero change never surges. */
  lemma {:induction false} SurgeDirection(prices: seq<real>, labels: seq<int>, changeStd: real)
    requires |labels| == |prices| > 0 && changeStd >= 0.0
    ensures var r := EventsSpec(prices, labels, changeStd);
      ((exists ev :: ev in r && ev.kind == SurgeUp) ==> |prices| >= 2 && prices[|prices| - 1] > prices[|prices| - 2])
      && ((exists ev :: ev in r && ev.kind == SurgeDown) ==> |prices| >= 2 && prices[|prices| - 1] < prices[|prices| - 2])
  {
  }

  /** For a non-negative `sd`, `|x| > 3 sd` is the same as `x^2 > 9 sd^2`. */
  lemma {:induction false} AbsAboveIffSquare(x: real, sd: real)
    requires sd >= 0.0
    ensures Abs(x) > 3.0 * sd <==> x * x > 9.0 * (sd * sd)
  {
    var a, b := Abs(x), 3.0 * sd;
    assert x * x == a * a;
    assert 9.0 * (sd * sd) == b * b;
    SquareMonotone(a, b);
  }

  /** SurgeIffVariance for any variance `v` whose square root is `changeStd`. */
  lemma {:induction false} SurgeIffSquares(prices: seq<real>, at: int, changeStd: real, v: real)
    requires |prices| >= 2
    requires changeStd >= 0.0 && changeStd * changeStd == v
    ensures var c := prices[|prices| - 1] - prices[|prices| - 2];
      SurgeEvent(prices, at, changeStd) != [] <==> c * c > 9.0 * v && Abs(c) > Mean(prices) * 0.01
  {
    AbsAboveIffSquare(prices[|prices| - 1] - prices[|prices| - 2], changeStd);
  }

  /**
    With `changeStd` the square root of the variance of the changes, a surge is
    reported exactly when the squared last change exceeds nine times that
    variance and the last change exceeds 1% of the mean price.
   */
  lemma {:induction false} SurgeIffVariance(prices: seq<real>, at: int, changeStd: real)
    requires |prices| >= 2
    requires changeStd >= 0.0 && changeStd * changeStd == ChangeVariance(prices)
    ensures var c := prices[|prices| - 1] - prices[|prices| - 2];
      SurgeEvent(prices, at, changeStd) != [] <==> c * c > 9.0 * ChangeVariance(prices) && Abs(c) > Mean(prices) * 0.01
  {
    SurgeIffSquares(prices, at, changeStd, ChangeVariance(prices));
  }

  /** A flat series never surges and always reports a new high, and nothing else. */
  lemma {:induction false} FlatSeriesEvents(prices: seq<real>, labels: seq<int>, changeStd: real)
    requires |labels| == |prices| > 0 && changeStd >= 0.0
    requires forall i :: 0 <= i < |prices| ==> prices[i] == prices[0]
    ensures EventsSpec(prices, labels, changeStd) == [Event(labels[|labels| - 1], NewHigh)]
  {
    var k :| 0 <= k < |prices| && prices[k] == Max(prices);
    if |prices| >= 2 {
      assert prices[|prices| - 1] - prices[|prices| - 2] == 0.0;
    }
  }
}
