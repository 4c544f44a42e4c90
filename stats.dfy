/**
  Exact-real descriptive statistics over a price series: sums, means, dot
  products of centred series, variances and extrema. These stand in for the
  numpy/pandas reductions the analytics code calls (`sum`, `mean`, `std`,
  `min`, `max`), computed over `real` instead of float64.
 */
module Stats {

  /**
    The sum of a series: 0 when it is empty, else its first value plus the
    sum of the rest. Sum itself is not recursive, so every mention of a sum
    denotes one and the same term; the recursion lives in Total, which runs
    through TotalNonEmpty and AddFirst so that the verifier unfolds a sum by
    itself only one step short of its values. A proof that needs a value
    exposed calls SumUnfold.
   */
  function Sum(s: seq<real>): real
  {
    Total(s)
  }

  function Total(s: seq<real>): real
    decreases |s|, 2
  {
    if |s| == 0 then 0.0 else TotalNonEmpty(s)
  }

  function TotalNonEmpty(s: seq<real>): real
    requires |s| > 0
    decreases |s|, 1
  {
    AddFirst(s)
  }

  function AddFirst(s: seq<real>): real
    requires |s| > 0
    decreases |s|, 0
  {
    s[0] + Total(s[1..])
  }

  /** One step of the recursion of Sum. */
  lemma {:induction false} SumUnfold(s: seq<real>)
    ensures Sum(s) == if |s| == 0 then 0.0 else s[0] + Sum(s[1..])
  {
    if |s| > 0 {
      assert Total(s) == TotalNonEmpty(s);
      assert TotalNonEmpty(s) == AddFirst(s);
      assert AddFirst(s) == s[0] + Total(s[1..]);
    }
  }

  function Mean(s: seq<real>): real
    requires |s| > 0
  {
    Sum(s) / |s| as real
  }

  /** The pointwise products u[i]*v[i]. */
  function Products(u: seq<real>, v: seq<real>): (r: seq<real>)
    requires |u| == |v|
    ensures |r| == |u|
    ensures forall i :: 0 <= i < |u| ==> r[i] == u[i] * v[i]
  {
    seq(|u|, i requires 0 <= i < |u| => u[i] * v[i])
  }

  /** Sum of pointwise products. */
  function Dot(u: seq<real>, v: seq<real>): real
    requires |u| == |v|
  {
    Sum(Products(u, v))
  }

  /** The pointwise map x |-> a*x + b. */
  function Affine(u: seq<real>, a: real, b: real): (r: seq<real>)
    ensures |r| == |u|
    ensures forall i :: 0 <= i < |u| ==> r[i] == a * u[i] + b
  {
    seq(|u|, i requires 0 <= i < |u| => a * u[i] + b)
  }

  /** The pointwise linear combination a*u + b*v. */
  function Comb(u: seq<real>, v: seq<real>, a: real, b: real): (r: seq<real>)
    requires |u| == |v|
    ensures |r| == |u|
    ensures forall i :: 0 <= i < |u| ==> r[i] == a * u[i] + b * v[i]
  {
    seq(|u|, i requires 0 <= i < |u| => a * u[i] + b * v[i])
  }

  /** The positions 0, 1, ..., n-1 as reals (numpy's `np.arange(n)`). */
  function Indices(n: nat): (r: seq<real>)
    ensures |r| == n
    ensures forall i :: 0 <= i < n ==> r[i] == i as real
  {
    seq(n, i requires 0 <= i < n => i as real)
  }

  /** The series centred on its own mean. */
  function Deviations(s: seq<real>): (r: seq<real>)
    requires |s| > 0
    ensures |r| == |s|
    ensures forall i :: 0 <= i < |s| ==> r[i] == s[i] - Mean(s)
  {
    Affine(s, 1.0, -Mean(s))
  }

  /** Sum of squared deviations from the mean. */
  function SumSqDev(s: seq<real>): real
    requires |s| > 0
  {
    Dot(Deviations(s), Deviations(s))
  }

  /** Sample variance (pandas `std()` squared: ddof = 1). */
  function SampleVariance(s: seq<real>): real
    requires |s| >= 2
  {
    SumSqDev(s) / (|s| - 1) as real
  }

  /** Population variance (numpy `std()` squared: ddof = 0). */
  function PopVariance(s: seq<real>): real
    requires |s| > 0
  {
    SumSqDev(s) / |s| as real
  }

  function Max(s: seq<real>): (m: real)
    requires |s| > 0
    ensures forall i :: 0 <= i < |s| ==> s[i] <= m
    ensures exists i :: 0 <= i < |s| && s[i] == m
  {
    if |s| == 1 then s[0]
    else
      var rest := Max(s[1..]);
      assert forall i :: 1 <= i < |s| ==> s[i] == s[1..][i - 1];
      if s[0] >= rest then s[0] else rest
  }

  function Min(s: seq<real>): (m: real)
    requires |s| > 0
    ensures forall i :: 0 <= i < |s| ==> m <= s[i]
    ensures exists i :: 0 <= i < |s| && s[i] == m
  {
    if |s| == 1 then s[0]
    else
      var rest := Min(s[1..]);
      assert forall i :: 1 <= i < |s| ==> s[i] == s[1..][i - 1];
      if s[0] <= rest then s[0] else rest
  }

  /** The last k elements (Python `s[-k:]`, the whole list when it is shorter). */
  function Tail<T>(s: seq<T>, k: nat): (r: seq<T>)
    ensures |r| == if |s| < k then |s| else k
  {
    if |s| < k then s else s[|s| - k..]
  }

  /** The i-th of the last k elements is the element that many places from the end of the whole series. */
  lemma {:induction false} TailAt<T>(s: seq<T>, k: nat, i: nat)
    requires i < |Tail(s, k)|
    ensures Tail(s, k)[i] == s[|s| - |Tail(s, k)| + i]
  {
  }

  /** Fancy indexing, `price[idx]`: the prices at the given positions. */
  function At(price: seq<real>, idx: seq<nat>): (r: seq<real>)
    requires forall i :: 0 <= i < |idx| ==> idx[i] < |price|
    ensures |r| == |idx| && forall i :: 0 <= i < |idx| ==> r[i] == price[idx[i]]
  {
    seq(|idx|, i requires 0 <= i < |idx| => price[idx[i]])
  }

  function Abs(x: real): (r: real)
    ensures r >= 0.0 && (r == x || r == -x)
  {
    if x < 0.0 then -x else x
  }

  /** Squaring is strictly monotone on the non-negative reals. */
  lemma {:induction false} SquareMonotone(a: real, b: real)
    requires 0.0 <= a && 0.0 <= b
    ensures a > b <==> a * a > b * b
  {
    var p, q, r := a * a, a * b, b * b;
    if a > b {
      assert p > q;
      assert q >= r;
    } else {
      assert p <= q;
      assert q <= r;
    }
  }

  // ---------------------------------------------------------------------
  // Linearity of Sum and Dot

  lemma {:induction false} SumAppend(a: seq<real>, b: seq<real>)
    ensures Sum(a + b) == Sum(a) + Sum(b)
  {
    SumUnfold(a + b);
    SumUnfold(a);
    if |a| > 0 {
      assert (a + b)[1..] == a[1..] + b;
      SumAppend(a[1..], b);
    } else {
      assert a + b == b;
    }
  }

  lemma {:induction false} AffineTail(u: seq<real>, a: real, b: real)
    requires |u| > 0
    ensures Affine(u, a, b)[1..] == Affine(u[1..], a, b)
  {
    var r, t := Affine(u, a, b), Affine(u[1..], a, b);
    forall i | 0 <= i < |t| ensures r[1..][i] == t[i] {
      assert r[1..][i] == r[i + 1] && u[1..][i] == u[i + 1];
    }
  }

  lemma {:induction false} CombTail(u: seq<real>, v: seq<real>, a: real, b: real)
    requires |u| == |v| > 0
    ensures Comb(u, v, a, b)[1..] == Comb(u[1..], v[1..], a, b)
  {
    var r, t := Comb(u, v, a, b), Comb(u[1..], v[1..], a, b);
    forall i | 0 <= i < |t| ensures r[1..][i] == t[i] {
      assert r[1..][i] == r[i + 1] && u[1..][i] == u[i + 1] && v[1..][i] == v[i + 1];
    }
  }

  lemma {:induction false} SumAffine(u: seq<real>, a: real, b: real)
    ensures Sum(Affine(u, a, b)) == a * Sum(u) + b * |u| as real
  {
    if |u| > 0 {
      SumAffine(u[1..], a, b);
      SumAffineUnfold(u, a, b);
    }
  }

  lemma {:induction false} SumAffineUnfold(u: seq<real>, a: real, b: real)
    requires |u| > 0
    requires Sum(Affine(u[1..], a, b)) == a * Sum(u[1..]) + b * |u[1..]| as real
    ensures Sum(Affine(u, a, b)) == a * Sum(u) + b * |u| as real
  {
    var r := Affine(u, a, b);
    AffineTail(u, a, b);
    SumAffineStep(r, u, a, b);
  }

  /** The inductive step of SumAffine, for a series whose head and tail are already known. */
  lemma {:induction false} SumAffineStep(r: seq<real>, u: seq<real>, a: real, b: real)
    requires |r| == |u| > 0
    requires r[0] == a * u[0] + b
    requires Sum(r[1..]) == a * Sum(u[1..]) + b * |u[1..]| as real
    ensures Sum(r) == a * Sum(u) + b * |u| as real
  {
    SumUnfold(r);
    SumUnfold(u);
    AffineAlgebra(a, b, u[0], Sum(u[1..]), |u[1..]| as real,
      Sum(r), r[0], Sum(r[1..]), Sum(u), |u| as real);
  }

  /** One step of the affine sums: from the head and the tail to the whole. */
  lemma {:induction false} AffineAlgebra(a: real, b: real, x: real, d: real, e: real,
                      whole: real, head: real, rest: real, left: real, right: real)
    requires head == a * x + b && whole == head + rest && rest == a * d + b * e
    requires left == x + d && right == 1.0 + e
    ensures whole == a * left + b * right
  {
  }

  /** One step of the combination sums: from the head and the tail to the whole. */
  lemma {:induction false} CombAlgebra(a: real, b: real, x: real, y: real, d: real, e: real,
                    whole: real, head: real, rest: real, left: real, right: real)
    requires head == a * x + b * y && whole == head + rest && rest == a * d + b * e
    requires left == x + d && right == y + e
    ensures whole == a * left + b * right
  {
  }

  lemma {:induction false} SumComb(u: seq<real>, v: seq<real>, a: real, b: real)
    requires |u| == |v|
    ensures Sum(Comb(u, v, a, b)) == a * Sum(u) + b * Sum(v)
  {
    if |u| > 0 {
      SumComb(u[1..], v[1..], a, b);
      SumCombUnfold(u, v, a, b);
    }
  }

  lemma {:induction false} SumCombUnfold(u: seq<real>, v: seq<real>, a: real, b: real)
    requires |u| == |v| > 0
    requires Sum(Comb(u[1..], v[1..], a, b)) == a * Sum(u[1..]) + b * Sum(v[1..])
    ensures Sum(Comb(u, v, a, b)) == a * Sum(u) + b * Sum(v)
  {
    var r := Comb(u, v, a, b);
    CombTail(u, v, a, b);
    SumCombStep(r, u, v, a, b);
  }

  /** The inductive step of SumComb, for a series whose head and tail are already known. */
  lemma {:induction false} SumCombStep(r: seq<real>, u: seq<real>, v: seq<real>, a: real, b: real)
    requires |r| == |u| == |v| > 0
    requires r[0] == a * u[0] + b * v[0]
    requires Sum(r[1..]) == a * Sum(u[1..]) + b * Sum(v[1..])
    ensures Sum(r) == a * Sum(u) + b * Sum(v)
  {
    SumUnfold(r);
    SumUnfold(u);
    SumUnfold(v);
    CombAlgebra(a, b, u[0], v[0], Sum(u[1..]), Sum(v[1..]),
      Sum(r), r[0], Sum(r[1..]), Sum(u), Sum(v));
  }

  lemma {:induction false} DotSymmetric(u: seq<real>, v: seq<real>)
    requires |u| == |v|
    ensures Dot(u, v) == Dot(v, u)
  {
    assert Products(u, v) == Products(v, u);
  }

  /** Dot with an affine image: the products of a*u + b and w are a*(u*w) + b*w. */
  lemma {:induction false} DotAffine(u: seq<real>, w: seq<real>, a: real, b: real)
    requires |u| == |w|
    ensures Dot(Affine(u, a, b), w) == a * Dot(u, w) + b * Sum(w)
  {
    var p, q := Products(Affine(u, a, b), w), Comb(Products(u, w), w, a, b);
    forall i | 0 <= i < |p| ensures p[i] == q[i] {
      ProductAffine(a, b, u[i], w[i]);
    }
    assert p == q;
    SumComb(Products(u, w), w, a, b);
  }

  lemma {:induction false} ProductAffine(a: real, b: real, x: real, y: real)
    ensures (a * x + b) * y == a * (x * y) + b * y
  {
  }

  /** Dot with a combination: the products of a*u + b*v and w are a*(u*w) + b*(v*w). */
  lemma {:induction false} DotComb(u: seq<real>, v: seq<real>, w: seq<real>, a: real, b: real)
    requires |u| == |v| == |w|
    ensures Dot(Comb(u, v, a, b), w) == a * Dot(u, w) + b * Dot(v, w)
  {
    var p, q := Products(Comb(u, v, a, b), w), Comb(Products(u, w), Products(v, w), a, b);
    forall i | 0 <= i < |p| ensures p[i] == q[i] {
      ProductComb(a, b, u[i], v[i], w[i]);
    }
    assert p == q;
    SumComb(Products(u, w), Products(v, w), a, b);
  }

  lemma {:induction false} ProductComb(a: real, b: real, x: real, y: real, z: real)
    ensures (a * x + b * y) * z == a * (x * z) + b * (y * z)
  {
  }

  lemma {:induction false} SquareNonNegative(x: real)
    ensures x * x >= 0.0
  {
    if x < 0.0 {
      assert x * x == (-x) * (-x);
    }
  }

  /** Strict positivity through a product of two distinct positive factors. */
  lemma {:induction false} ProductLowerBound(d: real, x: real, y: real)
    requires d >= x * y && x > 0.0 && y > 0.0
    ensures d > 0.0
  {
  }

  lemma {:induction false} DotSelfNonNegative(u: seq<real>)
    ensures Dot(u, u) >= 0.0
  {
    var p := Products(u, u);
    forall i | 0 <= i < |p| ensures p[i] >= 0.0 {
      SquareNonNegative(u[i]);
    }
    SumNonNegative(p);
  }

  /** A sum of squares with a nonzero term is positive. */
  lemma {:induction false} DotSelfPositive(u: seq<real>, k: nat)
    requires k < |u| && u[k] != 0.0
    ensures Dot(u, u) > 0.0
  {
    var p := Products(u, u);
    forall i | 0 <= i < |p| ensures p[i] >= 0.0 {
      SquareNonNegative(u[i]);
    }
    var a := if u[k] < 0.0 then -u[k] else u[k];
    assert a * a == p[k];
    ProductLowerBound(p[k], a, a);
    SumPositive(p, k);
  }

  lemma {:induction false} SumNonNegative(s: seq<real>)
    requires forall i :: 0 <= i < |s| ==> s[i] >= 0.0
    ensures Sum(s) >= 0.0
  {
    SumUnfold(s);
    if |s| > 0 {
      assert forall i :: 0 <= i < |s[1..]| ==> s[1..][i] == s[i + 1];
      SumNonNegative(s[1..]);
    }
  }

  lemma {:induction false} SumPositive(s: seq<real>, k: nat)
    requires forall i :: 0 <= i < |s| ==> s[i] >= 0.0
    requires k < |s| && s[k] > 0.0
    ensures Sum(s) > 0.0
  {
    SumUnfold(s);
    assert forall i :: 0 <= i < |s[1..]| ==> s[1..][i] == s[i + 1];
    if k == 0 {
      SumNonNegative(s[1..]);
    } else {
      SumPositive(s[1..], k - 1);
    }
  }

  /** A sum of squares is zero only when every term is zero. */
  lemma {:induction false} DotSelfZero(u: seq<real>)
    requires Dot(u, u) == 0.0
    ensures forall i :: 0 <= i < |u| ==> u[i] == 0.0
  {
    forall i | 0 <= i < |u| ensures u[i] == 0.0 {
      if u[i] != 0.0 {
        DotSelfPositive(u, i);
      }
    }
  }

  /** Deviations from the mean sum to zero. */
  lemma {:induction false} DeviationsSumZero(s: seq<real>)
    requires |s| > 0
    ensures Sum(Deviations(s)) == 0.0
  {
    SumAffine(s, 1.0, -Mean(s));
  }

  /** A series with two different values has a positive spread. */
  lemma {:induction false} SpreadPositive(s: seq<real>, i: nat, j: nat)
    requires i < |s| && j < |s| && s[i] != s[j]
    ensures SumSqDev(s) > 0.0
  {
    DotSelfNonNegative(Deviations(s));
    if SumSqDev(s) == 0.0 {
      NoSpreadIsFlat(s);
    }
  }

  /** A series with no spread is flat: every point equals the mean. */
  lemma {:induction false} NoSpreadIsFlat(s: seq<real>)
    requires |s| > 0 && SumSqDev(s) == 0.0
    ensures forall i :: 0 <= i < |s| ==> s[i] == Mean(s)
  {
    DotSelfZero(Deviations(s));
  }

  /** A flat series has no spread. */
  lemma {:induction false} FlatHasNoSpread(s: seq<real>)
    requires |s| > 0
    requires forall i :: 0 <= i < |s| ==> s[i] == s[0]
    ensures Mean(s) == s[0] && SumSqDev(s) == 0.0
  {
    SumConstant(s, s[0]);
    var n, c := |s| as real, s[0];
    assert Sum(s) == c * n;
    assert Mean(s) == c by {
      assert Mean(s) == Sum(s) / n;
      assert (c * n) / n == c;
    }
    var d := Deviations(s);
    assert forall i :: 0 <= i < |d| ==> d[i] == 0.0;
    DotZero(d);
  }

  lemma {:induction false} SumConstant(s: seq<real>, c: real)
    requires forall i :: 0 <= i < |s| ==> s[i] == c
    ensures Sum(s) == c * |s| as real
  {
    SumUnfold(s);
    if |s| > 0 {
      assert forall i :: 0 <= i < |s[1..]| ==> s[1..][i] == s[i + 1];
      SumConstant(s[1..], c);
    }
  }

  lemma {:induction false} DotZero(u: seq<real>)
    requires forall i :: 0 <= i < |u| ==> u[i] == 0.0
    ensures Dot(u, u) == 0.0
  {
    SumConstant(Products(u, u), 0.0);
  }

  /** The mean lies between the smallest and the largest value. */
  lemma {:induction false} SumBounds(s: seq<real>, lo: real, hi: real)
    requires forall i :: 0 <= i < |s| ==> lo <= s[i] <= hi
    ensures lo * |s| as real <= Sum(s) <= hi * |s| as real
  {
    SumUnfold(s);
    if |s| > 0 {
      assert forall i :: 0 <= i < |s[1..]| ==> s[1..][i] == s[i + 1];
      SumBounds(s[1..], lo, hi);
    }
  }

  /** The mean lies strictly below an upper bound that some element falls short of. */
  lemma {:induction false} MeanStrictlyBelow(s: seq<real>, hi: real, k: nat)
    requires k < |s| && s[k] < hi
    requires forall i :: 0 <= i < |s| ==> s[i] <= hi
    ensures Mean(s) < hi
  {
    SumBelow(s, hi, k);
    var n := |s| as real;
    assert Mean(s) * n == Sum(s);
  }

  lemma {:induction false} MeanBounds(s: seq<real>, lo: real, hi: real)
    requires |s| > 0
    requires forall i :: 0 <= i < |s| ==> lo <= s[i] <= hi
    ensures lo <= Mean(s) <= hi
  {
    SumBounds(s, lo, hi);
    var n := |s| as real;
    assert lo * n <= Sum(s) <= hi * n;
    assert Mean(s) * n == Sum(s);
  }

  lemma {:induction false} MeanWithinRange(s: seq<real>)
    requires |s| > 0
    ensures Min(s) <= Mean(s) <= Max(s)
  {
    MeanBounds(s, Min(s), Max(s));
  }

  /** A sum of terms that are each at most `c` is at most `n c`. */
  lemma {:induction false} SumAtMost(s: seq<real>, c: real)
    requires forall i :: 0 <= i < |s| ==> s[i] <= c
    ensures Sum(s) <= |s| as real * c
  {
    SumUnfold(s);
    if |s| > 0 {
      var t := s[1..];
        SumAtMost(t, c);
      var m, total := |t| as real, Sum(t);
      assert Sum(s) == s[0] + total;
      assert |s| as real * c == m * c + c by {
        assert |s| as real == m + 1.0;
      }
    }
  }

  /** ... and strictly less than `n c` when term `k` is below `c`. */
  lemma {:induction false} SumBelow(s: seq<real>, c: real, k: nat)
    requires forall i :: 0 <= i < |s| ==> s[i] <= c
    requires k < |s| && s[k] < c
    ensures Sum(s) < |s| as real * c
  {
    SumUnfold(s);
    var t := s[1..];
    var m, total := |t| as real, Sum(t);
    assert Sum(s) == s[0] + total;
    assert |s| as real * c == m * c + c by {
      assert |s| as real == m + 1.0;
    }
    if k == 0 {
      SumAtMost(t, c);
    } else {
      assert s[0] <= c;
      SumBelow(t, c, k - 1);
      assert total < m * c;
    }
  }

  /** A sum of terms that are each above `c` is above `n c`, for a non-empty sequence. */
  lemma {:induction false} SumAbove(s: seq<real>, c: real)
    requires |s| > 0 && forall i :: 0 <= i < |s| ==> s[i] > c
    ensures Sum(s) > |s| as real * c
  {
    SumUnfold(s);
    var t := s[1..];
    var m, total := |t| as real, Sum(t);
    assert Sum(s) == s[0] + total;
    assert |s| as real * c == m * c + c by {
      assert |s| as real == m + 1.0;
    }
    if |t| > 0 {
      SumAbove(t, c);
    }
  }

  /** The mean times the length is the sum. */
  lemma {:induction false} MeanTimesLength(s: seq<real>)
    requires |s| > 0
    ensures Mean(s) * |s| as real == Sum(s)
  {
  }
}
