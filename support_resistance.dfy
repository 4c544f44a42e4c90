/**
  `find_support_resistance` of analysis/support_resistance.py. Short series
  report their extremes; longer ones take the prices at the peaks and
  troughs `scipy.signal.find_peaks` reports, group each list with the
  nested `cluster_levels` loop, round every group mean to thousands and keep
  at most two levels per side.

  `find_peaks` is not modelled: its two index lists are inputs. The
  arguments the source hands it are `PeakProminence` and `PeakDistance`.
 */
module SupportResistance {
  import opened Wrappers
  import opened Stats
  import opened Sorting
  import opened Lists

  /** Shorter series report their minimum and maximum only. */
  const MinLength: nat := 50
  /** `cluster_levels`' own default tolerance. */
  const DefaultTolerance: real := 0.015
  /** The tolerance both calls pass. */
  const Tolerance: real := 0.03

  /** `prominence=price.std() * 0.3`, with `std` the population standard deviation. */
  function PeakProminence(std: real): (p: real)
    requires std >= 0.0
    ensures 0.0 <= p <= std
  {
    std * 0.3
  }

  /** `distance=int(len(df) * 0.05) or 5`. */
  function PeakDistance(n: nat): (d: nat)
    ensures d > 0
    ensures n >= 20 ==> d == n / 20
    ensures n < 20 ==> d == 5
  {
    var k := (n as real * 0.05).Floor;
    assert k * 20 <= n < (k + 1) * 20 by {
      assert k as real <= n as real * 0.05 < k as real + 1.0;
    }
    if k == 0 then 5 else k
  }

  // ---------------------------------------------------------------------
  // Rounding to thousands

  /** The nearest integer, ties to the even one (`numpy.round`, Python's `round`). */
  function RoundHalfEven(x: real): (r: int)
    ensures x - 0.5 <= r as real <= x + 0.5
    ensures x - x.Floor as real != 0.5 ==> r == (x + 0.5).Floor
    ensures x - x.Floor as real == 0.5 ==> r % 2 == 0
  {
    var f := x.Floor;
    var frac := x - f as real;
    if frac < 0.5 then f
    else if frac > 0.5 then f + 1
    else if f % 2 == 0 then f else f + 1
  }

  /** `int(round(l, -3))`: the nearest multiple of 1000, ties to an even number of thousands. */
  function RoundThousands(x: real): (r: int)
    ensures r % 1000 == 0
    ensures x - 500.0 <= r as real <= x + 500.0
    ensures x / 1000.0 - (x / 1000.0).Floor as real != 0.5 ==> r == 1000 * (x / 1000.0 + 0.5).Floor
    ensures x / 1000.0 - (x / 1000.0).Floor as real == 0.5 ==> (r / 1000) % 2 == 0
  {
    1000 * RoundHalfEven(x / 1000.0)
  }

  lemma {:induction false} RoundHalfEvenMonotone(x: real, y: real)
    requires x <= y
    ensures RoundHalfEven(x) <= RoundHalfEven(y)
  {
    var fx, fy := x.Floor, y.Floor;
    assert fx <= fy;
    if fx == fy {
      assert x - fx as real <= y - fy as real;
    } else {
      assert RoundHalfEven(x) <= fx + 1 <= fy <= RoundHalfEven(y);
    }
  }

  /** Rounding to thousands never reverses the order of two levels. */
  lemma {:induction false} RoundThousandsMonotone(x: real, y: real)
    requires x <= y
    ensures RoundThousands(x) <= RoundThousands(y)
  {
    RoundHalfEvenMonotone(x / 1000.0, y / 1000.0);
  }

  // ---------------------------------------------------------------------
  // The clustering walk

  /** The identity key: `sorted(levels)`. */
  function Value(x: real): real { x }

  /** The closed clusters and the open one, after some prefix of the sorted levels. */
  datatype Walk = Walk(closed: seq<seq<real>>, current: seq<real>)

  /** The elements of the clusters, in order. */
  function Flatten(gs: seq<seq<real>>): seq<real>
  {
    if |gs| == 0 then [] else Flatten(gs[..|gs| - 1]) + gs[|gs| - 1]
  }

  /**
    One loop iteration on the next level `x`: `None` is Python's
    ZeroDivisionError when the open cluster starts at 0.
   */
  function Step(w: Walk, x: real, tolerance: real): Option<Walk>
    requires |w.current| > 0
  {
    var head := w.current[0];
    if head == 0.0 then None
    else if (x - head) / head <= tolerance then Some(Walk(w.closed, w.current + [x]))
    else Some(Walk(w.closed + [w.current], [x]))
  }

  /** The state of the loop once the first `k` sorted levels are processed. */
  function WalkPrefix(sorted: seq<real>, k: nat, tolerance: real): (r: Option<Walk>)
    requires 1 <= k <= |sorted|
    ensures r.Some? ==> |r.value.current| > 0 && forall i :: 0 <= i < |r.value.closed| ==> |r.value.closed[i]| > 0
  {
    if k == 1 then Some(Walk([], [sorted[0]]))
    else
      match WalkPrefix(sorted, k - 1, tolerance)
      case None => None
      case Some(w) => Step(w, sorted[k - 1], tolerance)
  }

  /** The clusters of `levels`, or `None` when the walk divides by zero. */
  function Clusters(levels: seq<real>, tolerance: real): (r: Option<seq<seq<real>>>)
    ensures r.Some? ==> forall i :: 0 <= i < |r.value| ==> |r.value[i]| > 0
  {
    if |levels| == 0 then Some([])
    else
      var sorted := SortBy(levels, Value);
      match WalkPrefix(sorted, |sorted|, tolerance)
      case None => None
      case Some(w) => Some(w.closed + [w.current])
  }

  function Means(gs: seq<seq<real>>): (r: seq<real>)
    requires forall i :: 0 <= i < |gs| ==> |gs[i]| > 0
    ensures |r| == |gs| && forall i :: 0 <= i < |gs| ==> r[i] == Mean(gs[i])
  {
    seq(|gs|, i requires 0 <= i < |gs| => Mean(gs[i]))
  }

  function RoundAll(ms: seq<real>): (r: seq<int>)
    ensures |r| == |ms| && forall i :: 0 <= i < |ms| ==> r[i] == RoundThousands(ms[i])
  {
    seq(|ms|, i requires 0 <= i < |ms| => RoundThousands(ms[i]))
  }

  /** What `cluster_levels(levels, tolerance)` returns, `None` standing for the ZeroDivisionError. */
  function ClusterLevelsSpec(levels: seq<real>, tolerance: real): Option<seq<int>>
  {
    match Clusters(levels, tolerance)
    case None => None
    case Some(gs) => Some(RoundAll(Means(gs)))
  }

  /** `cluster_levels`: the loop over the sorted levels. */
  method ClusterLevels(levels: seq<real>, tolerance: real) returns (r: Option<seq<int>>)
    ensures r == ClusterLevelsSpec(levels, tolerance)
  {
    if |levels| == 0 {
      return Some([]);
    }
    var sorted := SortBy(levels, Value);
    var finalLevels: seq<real> := [];
    ghost var closed: seq<seq<real>> := [];
    var current := [sorted[0]];
    var i := 1;
    while i < |sorted|
      invariant 1 <= i <= |sorted|
      invariant WalkPrefix(sorted, i, tolerance) == Some(Walk(closed, current))
      invariant forall j :: 0 <= j < |closed| ==> |closed[j]| > 0
      invariant finalLevels == Means(closed)
    {
      if current[0] == 0.0 {
        WalkStaysFailed(sorted, i + 1, |sorted|, tolerance);
        return None;
      }
      if (sorted[i] - current[0]) / current[0] <= tolerance {
        current := current + [sorted[i]];
      } else {
        finalLevels := finalLevels + [Mean(current)];
        closed := closed + [current];
        current := [sorted[i]];
      }
      i := i + 1;
    }
    finalLevels := finalLevels + [Mean(current)];
    assert finalLevels == Means(closed + [current]);
    r := Some(RoundAll(finalLevels));
  }

  /** Once the walk has divided by zero it stays failed. */
  lemma {:induction false} WalkStaysFailed(sorted: seq<real>, k: nat, m: nat, tolerance: real)
    requires 1 <= k <= m <= |sorted| && WalkPrefix(sorted, k, tolerance).None?
    ensures WalkPrefix(sorted, m, tolerance).None?
    decreases m - k
  {
    if k < m {
      WalkStaysFailed(sorted, k + 1, m, tolerance);
    }
  }

  // ---------------------------------------------------------------------
  // Shape of the clusters

  /** Values never decrease along `s`. */
  predicate Ascending(s: seq<real>)
  {
    forall i, j :: 0 <= i < j < |s| ==> s[i] <= s[j]
  }

  /** Every later member is within `tolerance` times the first member, measured from it. */
  predicate WithinTolerance(g: seq<real>, tolerance: real)
  {
    |g| > 0 && forall j :: 0 < j < |g| ==> g[0] != 0.0 && (g[j] - g[0]) / g[0] <= tolerance
  }

  /**
    The clusters are non-empty ascending runs, each within tolerance of its
    first member; each cluster's first member is non-zero and the next
    cluster starts beyond its tolerance, at or above its last member.
   */
  predicate WellClustered(gs: seq<seq<real>>, tolerance: real)
  {
    (forall i :: 0 <= i < |gs| ==> WithinTolerance(gs[i], tolerance) && Ascending(gs[i]))
    && forall i :: 0 <= i < |gs| - 1 ==> Separated(gs[i], gs[i + 1], tolerance)
  }

  /** Cluster `h` starts beyond the tolerance of cluster `g`'s non-zero first member, at or above `g`'s last member. */
  predicate Separated(g: seq<real>, h: seq<real>, tolerance: real)
  {
    |g| > 0 && |h| > 0 && g[0] != 0.0 && (h[0] - g[0]) / g[0] > tolerance && g[|g| - 1] <= h[0]
  }

  lemma {:induction false} FlattenSnoc(gs: seq<seq<real>>, g: seq<real>)
    ensures Flatten(gs + [g]) == Flatten(gs) + g
  {
    assert (gs + [g])[..|gs|] == gs;
  }

  /** The loop state always holds exactly the prefix read so far, in order. */
  lemma {:induction false} WalkFlatten(sorted: seq<real>, k: nat, tolerance: real)
    requires 1 <= k <= |sorted| && WalkPrefix(sorted, k, tolerance).Some?
    ensures var w := WalkPrefix(sorted, k, tolerance).value;
      Flatten(w.closed) + w.current == sorted[..k]
  {
    if k == 1 {
      assert Flatten([]) == [];
    } else {
      WalkFlatten(sorted, k - 1, tolerance);
      var w := WalkPrefix(sorted, k - 1, tolerance).value;
      var x := sorted[k - 1];
      assert sorted[..k] == sorted[..k - 1] + [x];
      if (x - w.current[0]) / w.current[0] > tolerance {
        FlattenSnoc(w.closed, w.current);
      }
    }
  }

  /** The loop state is always a clustering of the prefix read so far. */
  lemma {:induction false} WalkShape(sorted: seq<real>, k: nat, tolerance: real)
    requires 1 <= k <= |sorted| && Ascending(sorted) && WalkPrefix(sorted, k, tolerance).Some?
    ensures var w := WalkPrefix(sorted, k, tolerance).value;
      WellClustered(w.closed + [w.current], tolerance)
  {
    if k > 1 {
      WalkShape(sorted, k - 1, tolerance);
      var w := WalkPrefix(sorted, k - 1, tolerance).value;
      LastOfCurrent(sorted, k - 1, tolerance);
      assert sorted[k - 2] <= sorted[k - 1];
      StepKeepsShape(w, sorted[k - 1], tolerance);
    }
  }

  /** The open cluster ends with the last level read. */
  lemma {:induction false} LastOfCurrent(sorted: seq<real>, k: nat, tolerance: real)
    requires 1 <= k <= |sorted| && WalkPrefix(sorted, k, tolerance).Some?
    ensures var c := WalkPrefix(sorted, k, tolerance).value.current;
      c[|c| - 1] == sorted[k - 1]
  {
    WalkFlatten(sorted, k, tolerance);
    var w := WalkPrefix(sorted, k, tolerance).value;
    assert (Flatten(w.closed) + w.current)[k - 1] == w.current[|w.current| - 1];
  }

  lemma {:induction false} StepKeepsShape(w: Walk, x: real, tolerance: real)
    requires |w.current| > 0 && w.current[|w.current| - 1] <= x
    requires WellClustered(w.closed + [w.current], tolerance) && Step(w, x, tolerance).Some?
    ensures var w' := Step(w, x, tolerance).value;
      WellClustered(w'.closed + [w'.current], tolerance)
  {
    var c := w.current;
    if (x - c[0]) / c[0] <= tolerance {
      JoinKeepsShape(w.closed, c, x, tolerance);
    } else {
      SplitKeepsShape(w.closed, c, x, tolerance);
    }
  }

  lemma {:induction false} JoinKeepsShape(closed: seq<seq<real>>, c: seq<real>, x: real, tolerance: real)
    requires |c| > 0 && c[0] != 0.0 && (x - c[0]) / c[0] <= tolerance && c[|c| - 1] <= x
    requires WellClustered(closed + [c], tolerance)
    ensures WellClustered(closed + [c + [x]], tolerance)
  {
    var gs, gs' := closed + [c], closed + [c + [x]];
    var c' := c + [x];
    assert gs[|closed|] == c;
    assert forall a :: 0 <= a < |c| ==> c[a] <= x;
    assert WithinTolerance(c', tolerance) && Ascending(c');
    assert forall i :: 0 <= i < |closed| ==> gs'[i] == gs[i];
  }

  lemma {:induction false} SplitKeepsShape(closed: seq<seq<real>>, c: seq<real>, x: real, tolerance: real)
    requires |c| > 0 && c[0] != 0.0 && (x - c[0]) / c[0] > tolerance && c[|c| - 1] <= x
    requires WellClustered(closed + [c], tolerance)
    ensures WellClustered(closed + [c] + [[x]], tolerance)
  {
    var gs := closed + [c];
    var gs' := gs + [[x]];
    assert forall i :: 0 <= i < |gs| ==> gs'[i] == gs[i];
  }

  /** When the clustering succeeds, its clusters partition the sorted levels and are well clustered. */
  lemma {:induction false} ClustersShape(levels: seq<real>, tolerance: real)
    requires Clusters(levels, tolerance).Some?
    ensures var gs := Clusters(levels, tolerance).value;
      Flatten(gs) == SortBy(levels, Value) && WellClustered(gs, tolerance)
      && forall i :: 0 <= i < |gs| ==> |gs[i]| > 0
  {
    if |levels| > 0 {
      var sorted := SortBy(levels, Value);
      SortBySorted(levels, Value);
      assert Ascending(sorted);
      WalkShape(sorted, |sorted|, tolerance);
      WalkFlatten(sorted, |sorted|, tolerance);
      var w := WalkPrefix(sorted, |sorted|, tolerance).value;
      FlattenSnoc(w.closed, w.current);
      assert sorted[..|sorted|] == sorted;
    }
  }

  lemma {:induction false} FlattenLength(gs: seq<seq<real>>)
    requires forall i :: 0 <= i < |gs| ==> |gs[i]| > 0
    ensures |gs| <= |Flatten(gs)|
  {
    if |gs| > 0 {
      FlattenLength(gs[..|gs| - 1]);
    }
  }

  /** Clustering maps empty to empty and otherwise returns between one and |levels| levels. */
  lemma {:induction false} ClusterCount(levels: seq<real>, tolerance: real)
    requires ClusterLevelsSpec(levels, tolerance).Some?
    ensures var r := ClusterLevelsSpec(levels, tolerance).value;
      (|levels| == 0 ==> r == []) && (|levels| > 0 ==> 1 <= |r| <= |levels|)
  {
    ClustersShape(levels, tolerance);
    FlattenLength(Clusters(levels, tolerance).value);
  }

  /** Consecutive cluster means strictly increase when the tolerance is not negative. */
  lemma {:induction false} AdjacentMeansIncrease(gs: seq<seq<real>>, tolerance: real, i: nat)
    requires tolerance >= 0.0 && WellClustered(gs, tolerance) && i + 1 < |gs|
    ensures Mean(gs[i]) < Mean(gs[i + 1])
  {
    var g, h := gs[i], gs[i + 1];
    var c := h[0];
    assert g[0] <= g[|g| - 1] <= c;
    assert g[0] != c;
    MeanStrictlyBelow(g, c, 0);
    MeanBounds(h, c, Max(h));
  }

  lemma {:induction false} MeansIncrease(gs: seq<seq<real>>, tolerance: real, i: nat, j: nat)
    requires tolerance >= 0.0 && WellClustered(gs, tolerance) && i < j < |gs|
    ensures Mean(gs[i]) < Mean(gs[j])
    decreases j - i
  {
    AdjacentMeansIncrease(gs, tolerance, i);
    if i + 1 < j {
      MeansIncrease(gs, tolerance, i + 1, j);
    }
  }

  /**
    With a non-negative tolerance the cluster means strictly increase, and
    their rounded values never decrease.
   */
  lemma {:induction false} ClusterLevelsOrdered(levels: seq<real>, tolerance: real)
    requires tolerance >= 0.0 && Clusters(levels, tolerance).Some?
    ensures var ms := Means(Clusters(levels, tolerance).value);
      forall i, j :: 0 <= i < j < |ms| ==> ms[i] < ms[j]
    ensures var r := ClusterLevelsSpec(levels, tolerance).value;
      forall i, j :: 0 <= i < j < |r| ==> r[i] <= r[j]
  {
    ClustersShape(levels, tolerance);
    var gs := Clusters(levels, tolerance).value;
    MeansOrdered(gs, tolerance);
    RoundedOrdered(Means(gs));
  }

  lemma {:induction false} MeansOrdered(gs: seq<seq<real>>, tolerance: real)
    requires tolerance >= 0.0 && WellClustered(gs, tolerance)
    ensures var ms := Means(gs);
      forall i, j :: 0 <= i < j < |ms| ==> ms[i] < ms[j]
  {
    forall i, j | 0 <= i < j < |gs| ensures Mean(gs[i]) < Mean(gs[j]) {
      MeansIncrease(gs, tolerance, i, j);
    }
  }

  lemma {:induction false} RoundedOrdered(ms: seq<real>)
    requires forall i, j :: 0 <= i < j < |ms| ==> ms[i] < ms[j]
    ensures var r := RoundAll(ms);
      forall i, j :: 0 <= i < j < |r| ==> r[i] <= r[j]
  {
    forall i, j | 0 <= i < j < |ms| ensures RoundThousands(ms[i]) <= RoundThousands(ms[j]) {
      RoundThousandsMonotone(ms[i], ms[j]);
    }
  }

  /** For non-negative levels, the ZeroDivisionError happens exactly when a 0 is among two or more levels. */
  lemma {:induction false} ClusterFailsOnZero(levels: seq<real>, tolerance: real)
    requires forall i :: 0 <= i < |levels| ==> levels[i] >= 0.0
    ensures Clusters(levels, tolerance).None? <==> |levels| >= 2 && 0.0 in levels
  {
    if |levels| > 0 {
      var sorted := SortBy(levels, Value);
      SortBySorted(levels, Value);
      assert multiset(sorted) == multiset(levels);
      assert forall x :: x in sorted <==> x in levels by {
        forall x ensures x in sorted <==> x in levels {
          assert x in sorted <==> x in multiset(sorted);
          assert x in levels <==> x in multiset(levels);
        }
      }
      assert forall i :: 0 <= i < |sorted| ==> sorted[i] >= 0.0 by {
        forall i | 0 <= i < |sorted| ensures sorted[i] >= 0.0 {
          assert sorted[i] in levels;
        }
      }
      if |levels| >= 2 && 0.0 in levels {
        var k :| 0 <= k < |sorted| && sorted[k] == 0.0;
        assert sorted[0] <= sorted[k];
        assert WalkPrefix(sorted, 2, tolerance).None?;
        WalkStaysFailed(sorted, 2, |sorted|, tolerance);
      } else if 0.0 !in levels {
        WalkSucceeds(sorted, |sorted|, tolerance);
      }
    }
  }

  /** Without a zero level the walk never divides by zero. */
  lemma {:induction false} WalkSucceeds(sorted: seq<real>, k: nat, tolerance: real)
    requires 1 <= k <= |sorted| && 0.0 !in sorted
    ensures WalkPrefix(sorted, k, tolerance).Some?
  {
    if k > 1 {
      WalkSucceeds(sorted, k - 1, tolerance);
      WalkFlatten(sorted, k - 1, tolerance);
      var w := WalkPrefix(sorted, k - 1, tolerance).value;
      var f := |Flatten(w.closed)|;
      assert (Flatten(w.closed) + w.current)[f] == w.current[0];
      assert sorted[..k - 1][f] == sorted[f];
      assert w.current[0] != 0.0;
    }
  }

  /** Clustering is not idempotent once rounded: a second pass can merge levels the first kept apart. */
  lemma {:induction false} ClusterNotIdempotent()
    ensures ClusterLevelsSpec([34000.0, 35100.0], Tolerance) == Some([34000, 35000])
    ensures ClusterLevelsSpec([34000.0, 35000.0], Tolerance) == Some([34000])
  {
    FirstPass();
    SecondPass();
  }

  lemma {:induction false} FirstPass()
    ensures ClusterLevelsSpec([34000.0, 35100.0], Tolerance) == Some([34000, 35000])
  {
    FirstPassClusters();
    MeanOfPair(34000.0, 34000.0);
    MeanOfPair(35100.0, 35100.0);
    assert Means([[34000.0], [35100.0]]) == [34000.0, 35100.0];
    assert RoundHalfEven(34000.0 / 1000.0) == 34;
    assert RoundHalfEven(35100.0 / 1000.0) == 35;
    assert RoundAll([34000.0, 35100.0]) == [34000, 35000];
  }

  lemma {:induction false} FirstPassClusters()
    ensures Clusters([34000.0, 35100.0], Tolerance) == Some([[34000.0], [35100.0]])
  {
    var a := [34000.0, 35100.0];
    SortBySortedUnchanged(a, Value);
    assert (35100.0 - 34000.0) / 34000.0 > Tolerance;
    assert WalkPrefix(a, 1, Tolerance) == Some(Walk([], [34000.0]));
    assert [] + [[34000.0]] == [[34000.0]];
    assert Step(Walk([], [34000.0]), 35100.0, Tolerance) == Some(Walk([[34000.0]], [35100.0]));
    assert WalkPrefix(a, 2, Tolerance) == Some(Walk([[34000.0]], [35100.0]));
    assert [[34000.0]] + [[35100.0]] == [[34000.0], [35100.0]];
  }

  lemma {:induction false} SecondPass()
    ensures ClusterLevelsSpec([34000.0, 35000.0], Tolerance) == Some([34000])
  {
    var b := [34000.0, 35000.0];
    SecondPassClusters();
    MeanOfPair(34000.0, 35000.0);
    assert Means([b]) == [34500.0];
    assert RoundHalfEven(34500.0 / 1000.0) == 34;
    assert RoundAll([34500.0]) == [34000];
  }

  lemma {:induction false} SecondPassClusters()
    ensures Clusters([34000.0, 35000.0], Tolerance) == Some([[34000.0, 35000.0]])
  {
    var b := [34000.0, 35000.0];
    SortBySortedUnchanged(b, Value);
    assert (35000.0 - 34000.0) / 34000.0 <= Tolerance;
    assert WalkPrefix(b, 1, Tolerance) == Some(Walk([], [34000.0]));
    assert [34000.0] + [35000.0] == b;
    assert Step(Walk([], [34000.0]), 35000.0, Tolerance) == Some(Walk([], b));
    assert WalkPrefix(b, 2, Tolerance) == Some(Walk([], b));
    assert [] + [b] == [b];
  }

  lemma {:induction false} MeanOfPair(x: real, y: real)
    ensures Mean([x, y]) == (x + y) / 2.0 && Mean([x]) == x
  {
    assert [x, y][1..] == [y];
    assert [x][1..] == [];
    SumUnfold([x]);
    SumUnfold([y]);
    SumUnfold([x, y]);
    SumUnfold([]);
  }

  // ---------------------------------------------------------------------
  // find_support_resistance

  datatype Levels =
    /** A short series: `[min]` and `[max]`; `None` is pandas' NaN for an empty frame. */
    Extremes(low: Option<real>, high: Option<real>)
    /** A long series: up to two rounded support and resistance levels. */
  | Clustered(support: seq<int>, resistance: seq<int>)

  datatype Side = Support | Resistance

  /** Supports must lie below 1.05 times the mean price, resistances above 0.95 times it. */
  predicate Plausible(level: int, side: Side, mean: real)
  {
    match side
    case Support => level as real < mean * 1.05
    case Resistance => level as real > mean * 0.95
  }

  /** The comprehension that drops implausible levels on one side. */
  function Keep(levels: seq<int>, side: Side, mean: real): (r: seq<int>)
    ensures |r| <= |levels|
    ensures forall i :: 0 <= i < |r| ==> Plausible(r[i], side, mean) && r[i] in levels
    ensures forall i :: 0 <= i < |levels| && Plausible(levels[i], side, mean) ==> levels[i] in r
  {
    if |levels| == 0 then []
    else if Plausible(levels[0], side, mean) then [levels[0]] + Keep(levels[1..], side, mean)
    else Keep(levels[1..], side, mean)
  }

  /** The integer levels never decrease. */
  predicate NonDecreasing(s: seq<int>)
  {
    forall i, j :: 0 <= i < j < |s| ==> s[i] <= s[j]
  }

  /** Keeping levels preserves their order. */
  lemma {:induction false} KeepOrdered(levels: seq<int>, side: Side, mean: real)
    requires NonDecreasing(levels)
    ensures NonDecreasing(Keep(levels, side, mean))
  {
    if |levels| > 0 {
      assert NonDecreasing(levels[1..]);
      KeepOrdered(levels[1..], side, mean);
      KeepAbove(levels, side, mean);
      var t := Keep(levels[1..], side, mean);
      if Plausible(levels[0], side, mean) {
        assert Keep(levels, side, mean) == [levels[0]] + t;
        ConsOrdered(levels[0], t);
      } else {
        assert Keep(levels, side, mean) == t;
      }
    }
  }

  /** Every level kept from the tail is at least the head. */
  lemma {:induction false} KeepAbove(levels: seq<int>, side: Side, mean: real)
    requires |levels| > 0 && NonDecreasing(levels)
    ensures forall x :: x in Keep(levels[1..], side, mean) ==> levels[0] <= x
  {
    forall x | x in Keep(levels[1..], side, mean) ensures levels[0] <= x {
      var k :| 0 <= k < |levels[1..]| && levels[1..][k] == x;
      assert levels[1..][k] == levels[k + 1];
    }
  }

  lemma {:induction false} ConsOrdered(x: int, t: seq<int>)
    requires forall y :: y in t ==> x <= y
    requires NonDecreasing(t)
    ensures NonDecreasing([x] + t)
  {
    var r := [x] + t;
    forall i, j | 0 <= i < j < |r| ensures r[i] <= r[j] {
      assert r[j] == t[j - 1] && t[j - 1] in t;
      if i > 0 {
        assert r[i] == t[i - 1];
      }
    }
  }

  /** The result of `find_support_resistance`, `None` when `cluster_levels` divides by zero. */
  function SupportResistanceSpec(price: seq<real>, peaks: seq<nat>, troughs: seq<nat>): Option<Levels>
    requires forall i :: 0 <= i < |peaks| ==> peaks[i] < |price|
    requires forall i :: 0 <= i < |troughs| ==> troughs[i] < |price|
  {
    if |price| < MinLength then
      if |price| == 0 then Some(Extremes(None, None)) else Some(Extremes(Some(Min(price)), Some(Max(price))))
    else
      match ClusterLevelsSpec(At(price, peaks), Tolerance)
      case None => None
      case Some(resistance) =>
        match ClusterLevelsSpec(At(price, troughs), Tolerance)
        case None => None
        case Some(support) =>
          var mean := Mean(price);
          Some(Clustered(Tail(Keep(support, Support, mean), 2), Take(Keep(resistance, Resistance, mean), 2)))
  }

  /** `find_support_resistance(df)` over the price column, given the peak and trough indices. */
  method FindSupportResistance(price: seq<real>, peaks: seq<nat>, troughs: seq<nat>) returns (r: Option<Levels>)
    requires forall i :: 0 <= i < |peaks| ==> peaks[i] < |price|
    requires forall i :: 0 <= i < |troughs| ==> troughs[i] < |price|
    ensures r == SupportResistanceSpec(price, peaks, troughs)
  {
    if |price| < MinLength {
      if |price| == 0 {
        return Some(Extremes(None, None));
      }
      return Some(Extremes(Some(Min(price)), Some(Max(price))));
    }
    var majorResistance := ClusterLevels(At(price, peaks), Tolerance);
    if majorResistance.None? {
      return None;
    }
    var majorSupport := ClusterLevels(At(price, troughs), Tolerance);
    if majorSupport.None? {
      return None;
    }
    var mean := Mean(price);
    var support := Keep(majorSupport.value, Support, mean);
    var resistance := Keep(majorResistance.value, Resistance, mean);
    r := Some(Clustered(Tail(support, 2), Take(resistance, 2)));
  }

  /**
    Long series: at most two levels per side, all multiples of 1000, every
    support below 1.05 times the mean price and every resistance above 0.95
    times it, each side in non-decreasing order.
   */
  lemma {:induction false} LevelsBounds(price: seq<real>, peaks: seq<nat>, troughs: seq<nat>)
    requires forall i :: 0 <= i < |peaks| ==> peaks[i] < |price|
    requires forall i :: 0 <= i < |troughs| ==> troughs[i] < |price|
    requires |price| >= MinLength && SupportResistanceSpec(price, peaks, troughs).Some?
    ensures var r := SupportResistanceSpec(price, peaks, troughs).value;
      r.Clustered? && |r.support| <= 2 && |r.resistance| <= 2
      && (forall i :: 0 <= i < |r.support| ==>
            r.support[i] % 1000 == 0 && r.support[i] as real < Mean(price) * 1.05)
      && (forall i :: 0 <= i < |r.resistance| ==>
            r.resistance[i] % 1000 == 0 && r.resistance[i] as real > Mean(price) * 0.95)
      && (forall i, j :: 0 <= i < j < |r.support| ==> r.support[i] <= r.support[j])
      && (forall i, j :: 0 <= i < j < |r.resistance| ==> r.resistance[i] <= r.resistance[j])
  {
    var mean := Mean(price);
    LongSeries(price, peaks, troughs);
    SideBounds(At(price, troughs), Support, mean);
    SideBounds(At(price, peaks), Resistance, mean);
  }

  lemma {:induction false} LongSeries(price: seq<real>, peaks: seq<nat>, troughs: seq<nat>)
    requires forall i :: 0 <= i < |peaks| ==> peaks[i] < |price|
    requires forall i :: 0 <= i < |troughs| ==> troughs[i] < |price|
    requires |price| >= MinLength && SupportResistanceSpec(price, peaks, troughs).Some?
    ensures ClusterLevelsSpec(At(price, peaks), Tolerance).Some?
    ensures ClusterLevelsSpec(At(price, troughs), Tolerance).Some?
    ensures var mean := Mean(price);
      SupportResistanceSpec(price, peaks, troughs).value == Clustered(
        Tail(Keep(ClusterLevelsSpec(At(price, troughs), Tolerance).value, Support, mean), 2),
        Take(Keep(ClusterLevelsSpec(At(price, peaks), Tolerance).value, Resistance, mean), 2))
  {
  }

  /** One side of a long series: the kept levels are plausible, multiples of 1000 and in order. */
  lemma {:induction false} SideBounds(levels: seq<real>, side: Side, mean: real)
    requires ClusterLevelsSpec(levels, Tolerance).Some?
    ensures var k := Keep(ClusterLevelsSpec(levels, Tolerance).value, side, mean);
      (forall i :: 0 <= i < |k| ==> k[i] % 1000 == 0 && Plausible(k[i], side, mean))
      && forall i, j :: 0 <= i < j < |k| ==> k[i] <= k[j]
  {
    ClusterLevelsOrdered(levels, Tolerance);
    var rounded := ClusterLevelsSpec(levels, Tolerance).value;
    KeepOrdered(rounded, side, mean);
    var k := Keep(rounded, side, mean);
    forall i | 0 <= i < |k| ensures k[i] % 1000 == 0 {
      var j :| 0 <= j < |rounded| && rounded[j] == k[i];
    }
  }

  /** Short series report their minimum and maximum, unrounded. */
  lemma {:induction false} ShortSeriesExtremes(price: seq<real>, peaks: seq<nat>, troughs: seq<nat>)
    requires forall i :: 0 <= i < |peaks| ==> peaks[i] < |price|
    requires forall i :: 0 <= i < |troughs| ==> troughs[i] < |price|
    requires 0 < |price| < MinLength
    ensures var r := SupportResistanceSpec(price, peaks, troughs);
      r.Some? && r.value.Extremes? && r.value.low.Some? && r.value.high.Some?
      && (forall i :: 0 <= i < |price| ==> r.value.low.value <= price[i] <= r.value.high.value)
      && r.value.low.value in price && r.value.high.value in price
  {
  }
}
