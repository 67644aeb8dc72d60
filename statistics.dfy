/**
 * The per-group statistics of `resumen` (app.py lines 96-107), over exact
 * reals: count, mean, median, 75th percentile with pandas' default linear
 * interpolation, sample variance with ddof=1, minimum and maximum.
 */
module Statistics {
  import opened Wrappers
  import Sorting

  // Small facts of real arithmetic, kept apart so that each proof that
  // needs one sees only a product of two plain values.

  lemma MulNonNegative(a: real, b: real)
    requires 0.0 <= a && 0.0 <= b
    ensures 0.0 <= a * b
  {
  }

  lemma MulPositive(a: real, b: real)
    requires 0.0 < a && 0.0 < b
    ensures 0.0 < a * b
  {
  }

  lemma MulMonotone(a: real, x: real, y: real)
    requires 0.0 <= a && x <= y
    ensures a * x <= a * y
  {
    MulNonNegative(a, y - x);
    assert a * y - a * x == a * (y - x);
  }

  /** Scaling a fraction `q` of the unit interval by `n >= 0` lands in `[0, n]`. */
  lemma ScaledFraction(n: real, q: real)
    requires 0.0 <= n && 0.0 <= q <= 1.0
    ensures 0.0 <= n * q <= n
  {
    MulNonNegative(n, q);
    MulNonNegative(n, 1.0 - q);
    assert n - n * q == n * (1.0 - q);
  }

  /** Dividing by a positive count preserves bounds stated as multiples of it. */
  lemma DivideBounds(n: real, lo: real, total: real, hi: real)
    requires 0.0 < n && n * lo <= total <= n * hi
    ensures lo <= total / n <= hi
  {
    var q := total / n;
    assert n * q == total;
    assert n * lo - n * q == n * (lo - q);
    assert n * q - n * hi == n * (q - hi);
    if q < lo {
      MulPositive(n, lo - q);
    }
    if hi < q {
      MulPositive(n, q - hi);
    }
  }

  function Sum(s: seq<real>): real
    decreases |s|
  {
    if s == [] then 0.0 else s[0] + Sum(s[1..])
  }

  /** `min()`: a value of `s` that no value of `s` is below. */
  function Min(s: seq<real>): (m: real)
    requires |s| > 0
    ensures m in s
    ensures forall i :: 0 <= i < |s| ==> m <= s[i]
    decreases |s|
  {
    if |s| == 1 then s[0]
    else
      var rest := Min(s[1..]);
      assert s == [s[0]] + s[1..];
      if s[0] <= rest then s[0] else rest
  }

  /** `max()`: a value of `s` that no value of `s` is above. */
  function Max(s: seq<real>): (m: real)
    requires |s| > 0
    ensures m in s
    ensures forall i :: 0 <= i < |s| ==> s[i] <= m
    decreases |s|
  {
    if |s| == 1 then s[0]
    else
      var rest := Max(s[1..]);
      assert s == [s[0]] + s[1..];
      if s[0] >= rest then s[0] else rest
  }

  /** `n` values that are all at least `lo` total at least `n * lo`. */
  lemma {:induction false} SumAtLeast(s: seq<real>, lo: real)
    requires forall i :: 0 <= i < |s| ==> lo <= s[i]
    ensures |s| as real * lo <= Sum(s)
    decreases |s|
  {
    if s != [] {
      SumAtLeast(s[1..], lo);
      assert (|s| - 1) as real * lo + lo == |s| as real * lo;
    }
  }

  /** `n` values that are all at most `hi` total at most `n * hi`. */
  lemma {:induction false} SumAtMost(s: seq<real>, hi: real)
    requires forall i :: 0 <= i < |s| ==> s[i] <= hi
    ensures Sum(s) <= |s| as real * hi
    decreases |s|
  {
    if s != [] {
      SumAtMost(s[1..], hi);
      assert (|s| - 1) as real * hi + hi == |s| as real * hi;
    }
  }

  /** `mean()`: the total divided by the count, between the least and the greatest value. */
  function Mean(s: seq<real>): (m: real)
    requires |s| > 0
    ensures Min(s) <= m <= Max(s)
  {
    SumAtLeast(s, Min(s));
    SumAtMost(s, Max(s));
    DivideBounds(|s| as real, Min(s), Sum(s), Max(s));
    Sum(s) / |s| as real
  }

  predicate IsSorted(s: seq<real>)
  {
    forall i, j :: 0 <= i < j < |s| ==> s[i] <= s[j]
  }

  /** `s` rearranged into ascending order. */
  function Sort(s: seq<real>): (r: seq<real>)
    ensures IsSorted(r)
    ensures multiset(r) == multiset(s)
    ensures |r| == |s|
  {
    var r := Sorting.SortByKey(s, (x: real) => x);
    assert |multiset(r)| == |multiset(s)|;
    r
  }

  /** The least and the greatest value are the two ends of any sorted rearrangement. */
  lemma SortedEnds(v: seq<real>, s: seq<real>)
    requires |v| > 0 && IsSorted(s) && multiset(s) == multiset(v) && |s| == |v|
    ensures s[0] == Min(v) && s[|v| - 1] == Max(v)
  {
    var lo, hi := Min(v), Max(v);
    assert s[0] in multiset(v) && s[|v| - 1] in multiset(v);
    var a :| 0 <= a < |v| && v[a] == s[0];
    var b :| 0 <= b < |v| && v[b] == s[|v| - 1];
    assert lo <= s[0] && s[|v| - 1] <= hi;
    assert lo in multiset(s) && hi in multiset(s);
    var k :| 0 <= k < |s| && s[k] == lo;
    var m :| 0 <= m < |s| && s[m] == hi;
    if k > 0 {
      assert s[0] <= s[k];
    }
    if m < |v| - 1 {
      assert s[m] <= s[|v| - 1];
    }
  }

  /** `val + (next - val) * frac` of pandas' group quantile: the point a fraction `t` of the way from `a` to `b`. */
  function Lerp(a: real, b: real, t: real): real
  {
    a + t * (b - a)
  }

  /** A point a fraction of the way between two ordered values lies between them. */
  lemma LerpWithin(a: real, b: real, t: real)
    requires a <= b && 0.0 <= t <= 1.0
    ensures a <= Lerp(a, b, t) <= b
  {
    MulNonNegative(t, b - a);
    MulNonNegative(1.0 - t, b - a);
    assert (b - a) - t * (b - a) == (1.0 - t) * (b - a);
  }

  /** Moving further along from `a` towards a larger `b` never goes down. */
  lemma LerpMonotone(a: real, b: real, t1: real, t2: real)
    requires a <= b && t1 <= t2
    ensures Lerp(a, b, t1) <= Lerp(a, b, t2)
  {
    MulNonNegative(t2 - t1, b - a);
    assert t2 * (b - a) - t1 * (b - a) == (t2 - t1) * (b - a);
  }

  /**
   * Linear interpolation at the virtual index `h` of sorted data: the order
   * statistic at `floor(h)`, moved towards the next one by the fractional
   * part of `h`; that order statistic itself when there is no next one.
   */
  function Interp(s: seq<real>, h: real): real
    requires |s| > 0 && 0.0 <= h <= (|s| - 1) as real
  {
    var i := h.Floor;
    if i + 1 < |s| then Lerp(s[i], s[i + 1], h - i as real) else s[i]
  }

  /** On sorted data the interpolated value lies between the two order statistics it joins. */
  lemma InterpWithin(s: seq<real>, h: real)
    requires |s| > 0 && 0.0 <= h <= (|s| - 1) as real
    requires IsSorted(s)
    ensures s[h.Floor] <= Interp(s, h)
    ensures h.Floor + 1 < |s| ==> Interp(s, h) <= s[h.Floor + 1]
    ensures h.Floor + 1 >= |s| ==> Interp(s, h) == s[h.Floor]
  {
    var i := h.Floor;
    if i + 1 < |s| {
      LerpWithin(s[i], s[i + 1], h - i as real);
    }
  }

  /** On sorted data the interpolated value grows with the virtual index. */
  lemma InterpMonotone(s: seq<real>, h1: real, h2: real)
    requires |s| > 0 && 0.0 <= h1 <= h2 <= (|s| - 1) as real
    requires IsSorted(s)
    ensures Interp(s, h1) <= Interp(s, h2)
  {
    var i1, i2 := h1.Floor, h2.Floor;
    InterpWithin(s, h1);
    InterpWithin(s, h2);
    if i1 == i2 {
      if i1 + 1 < |s| {
        LerpMonotone(s[i1], s[i1 + 1], h1 - i1 as real, h2 - i2 as real);
      }
    } else if i1 + 1 < i2 {
      assert s[i1 + 1] <= s[i2];
    }
  }

  /** The position `q * (n - 1)` pandas' group quantile reads the `q` quantile from among `n` sorted values. */
  function VirtualIndex(n: nat, q: real): (h: real)
    requires 0 < n && 0.0 <= q <= 1.0
    ensures 0.0 <= h <= (n - 1) as real
  {
    ScaledFraction((n - 1) as real, q);
    (n - 1) as real * q
  }

  /** A higher quantile has a virtual index no lower. */
  lemma VirtualIndexMonotone(n: nat, q1: real, q2: real)
    requires 0 < n && 0.0 <= q1 <= q2 <= 1.0
    ensures VirtualIndex(n, q1) <= VirtualIndex(n, q2)
  {
    MulMonotone((n - 1) as real, q1, q2);
  }

  /**
   * `quantile(q)` with pandas' default `interpolation="linear"`: a value
   * between the two sorted values either side of position `q * (n - 1)`,
   * and the sorted value at that position when there is none after it.
   */
  function Quantile(v: seq<real>, q: real): (x: real)
    requires |v| > 0 && 0.0 <= q <= 1.0
    ensures var s, i := Sort(v), VirtualIndex(|v|, q).Floor;
      && 0 <= i < |s|
      && s[i] <= x
      && (i + 1 < |s| ==> x <= s[i + 1])
      && (i + 1 == |s| ==> x == s[i])
  {
    InterpWithin(Sort(v), VirtualIndex(|v|, q));
    Interp(Sort(v), VirtualIndex(|v|, q))
  }

  /** On sorted data every interpolated value lies between the two ends. */
  lemma InterpBounds(s: seq<real>, h: real)
    requires |s| > 0 && 0.0 <= h <= (|s| - 1) as real
    requires IsSorted(s)
    ensures s[0] <= Interp(s, h) <= s[|s| - 1]
  {
    InterpWithin(s, h);
    var i := h.Floor;
    if 0 < i {
      assert s[0] <= s[i];
    }
    if i + 1 < |s| - 1 {
      assert s[i + 1] <= s[|s| - 1];
    }
  }

  /** Every quantile lies between the least and the greatest value. */
  lemma QuantileBounds(v: seq<real>, q: real)
    requires |v| > 0 && 0.0 <= q <= 1.0
    ensures Min(v) <= Quantile(v, q) <= Max(v)
  {
    var s := Sort(v);
    InterpBounds(s, VirtualIndex(|v|, q));
    SortedEnds(v, s);
  }

  /** A higher quantile is never below a lower one. */
  lemma QuantileMonotone(v: seq<real>, q1: real, q2: real)
    requires |v| > 0 && 0.0 <= q1 <= q2 <= 1.0
    ensures Quantile(v, q1) <= Quantile(v, q2)
  {
    VirtualIndexMonotone(|v|, q1, q2);
    InterpMonotone(Sort(v), VirtualIndex(|v|, q1), VirtualIndex(|v|, q2));
  }

  /**
   * `median()`: the middle sorted value, or the mean of the two middle ones;
   * either way it lies between the two middle sorted values, which coincide
   * for an odd count.
   */
  function Median(v: seq<real>): (m: real)
    requires |v| > 0
    ensures var s := Sort(v); s[(|v| - 1) / 2] <= m <= s[|v| / 2]
  {
    var s := Sort(v);
    var n := |s|;
    if n % 2 == 1 then s[n / 2]
    else
      assert s[n / 2 - 1] <= s[n / 2];
      (s[n / 2 - 1] + s[n / 2]) / 2.0
  }

  /** The median is the 0.5 quantile under linear interpolation. */
  lemma MedianIsHalfQuantile(v: seq<real>)
    requires |v| > 0
    ensures Median(v) == Quantile(v, 0.5)
  {
    InterpAtHalf(Sort(v));
  }

  /** Interpolating halfway along the virtual index picks the middle value or the midpoint of the middle two. */
  lemma InterpAtHalf(s: seq<real>)
    requires |s| > 0
    ensures var n := |s|;
      Interp(s, VirtualIndex(n, 0.5)) ==
        if n % 2 == 1 then s[n / 2] else (s[n / 2 - 1] + s[n / 2]) / 2.0
  {
    var n := |s|;
    var k := n / 2;
    var h := VirtualIndex(n, 0.5);
    assert h == (n - 1) as real * 0.5;
    if n % 2 == 1 {
      assert n == 2 * k + 1;
      assert h == k as real;
      assert h.Floor == k;
    } else {
      assert n == 2 * k;
      assert h == (k - 1) as real + 0.5;
      assert h.Floor == k - 1;
      assert Interp(s, h) == Lerp(s[k - 1], s[k], 0.5);
    }
  }

  /** The order statistics reported in a summary row come in order. */
  lemma OrderStatisticsOrdered(v: seq<real>)
    requires |v| > 0
    ensures Min(v) <= Median(v) <= Quantile(v, 0.75) <= Max(v)
  {
    MedianIsHalfQuantile(v);
    QuantileBounds(v, 0.5);
    QuantileBounds(v, 0.75);
    QuantileMonotone(v, 0.5, 0.75);
  }

  function Square(x: real): (sq: real)
    ensures 0.0 <= sq
  {
    x * x
  }

  /** Sum of squared deviations from `c`. */
  function SumSquares(s: seq<real>, c: real): real
    decreases |s|
  {
    if s == [] then 0.0 else Square(s[0] - c) + SumSquares(s[1..], c)
  }

  lemma {:induction false} SumSquaresNonNegative(s: seq<real>, c: real)
    ensures SumSquares(s, c) >= 0.0
    decreases |s|
  {
    if s != [] {
      SumSquaresNonNegative(s[1..], c);
    }
  }

  /** Data that all equal `c` deviate from `c` by nothing. */
  lemma {:induction false} SumSquaresOfConstant(s: seq<real>, c: real)
    requires forall i :: 0 <= i < |s| ==> s[i] == c
    ensures SumSquares(s, c) == 0.0
    decreases |s|
  {
    if s != [] {
      SumSquaresOfConstant(s[1..], c);
    }
  }

  lemma {:induction false} SumOfConstant(s: seq<real>, c: real)
    requires forall i :: 0 <= i < |s| ==> s[i] == c
    ensures Sum(s) == |s| as real * c
    decreases |s|
  {
    if s != [] {
      SumOfConstant(s[1..], c);
      assert (|s| - 1) as real * c + c == |s| as real * c;
    }
  }

  /**
   * `std(ddof=1)` squared: the sample variance with divisor n - 1, missing
   * for fewer than two values and never negative. The square root pandas
   * takes afterwards is not modelled.
   */
  function Variance(v: seq<real>): (var2: Option<real>)
    ensures var2.Some? <==> |v| >= 2
    ensures var2.Some? ==> var2.value >= 0.0
  {
    if |v| < 2 then None
    else
      var ss := SumSquares(v, Mean(v));
      SumSquaresNonNegative(v, Mean(v));
      DivideBounds((|v| - 1) as real, 0.0, ss, ss);
      Some(ss / (|v| - 1) as real)
  }

  /** The mean of equal values is that value, and their sample variance is zero. */
  lemma ConstantGroup(v: seq<real>)
    requires |v| > 0
    requires forall i :: 0 <= i < |v| ==> v[i] == v[0]
    ensures Mean(v) == v[0]
    ensures |v| >= 2 ==> Variance(v) == Some(0.0)
  {
    SumOfConstant(v, v[0]);
    DivideBounds(|v| as real, v[0], Sum(v), v[0]);
    SumSquaresOfConstant(v, v[0]);
  }

  /** One summary row's statistics, before `.round(2)`. */
  datatype GroupStats = GroupStats(
    n: nat, mean: real, median: real, p75: real, variance: Option<real>, min: real, max: real)

  /**
   * The statistics `resumen` reports for one group's values. The count is
   * the number of values; min, median, 75th percentile and max come in that
   * order; the mean lies between min and max; the variance is missing
   * exactly when there are fewer than two values and is otherwise
   * non-negative; min and max are values of the group.
   */
  function Describe(v: seq<real>): (g: GroupStats)
    requires |v| > 0
    ensures g.n == |v|
    ensures g.min <= g.median <= g.p75 <= g.max
    ensures g.min <= g.mean <= g.max
    ensures g.variance.None? <==> g.n < 2
    ensures g.variance.Some? ==> g.variance.value >= 0.0
    ensures g.min in v && g.max in v
  {
    OrderStatisticsOrdered(v);
    GroupStats(|v|, Mean(v), Median(v), Quantile(v, 0.75), Variance(v), Min(v), Max(v))
  }
}
