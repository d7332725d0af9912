/**
 * The statistics recomputed after every new sample: the latencies sorted
 * ascending, min and max, a truncated mean, the median, four percentiles and
 * the inter-quartile range read at rounded indices, and MAD and standard
 * deviation measured from the sorted midpoint. Floating-point steps of the
 * original (the double sum, `std::round`, `std::sqrt`, the double-to-int
 * conversions) are written here with exact integer arithmetic.
 */
module Statistics {
  import opened Wrappers

  // ---------------------------------------------------------------------------
  // Sorting (what std::sort produces)
  // ---------------------------------------------------------------------------

  predicate IsSorted(s: seq<int>) {
    forall i, j :: 0 <= i <= j < |s| ==> s[i] <= s[j]
  }

  /** Places `x` into a sorted sequence, before the first element not below it. */
  function Insert(x: int, s: seq<int>): (r: seq<int>)
    ensures |r| == |s| + 1
  {
    if |s| == 0 then [x]
    else if x <= s[0] then [x] + s
    else [s[0]] + Insert(x, s[1..])
  }

  /** Insertion keeps a run sorted; its first element is the smaller of `x`
      and the old first element. */
  lemma {:induction false} InsertKeepsSorted(x: int, s: seq<int>)
    requires IsSorted(s)
    ensures IsSorted(Insert(x, s))
    ensures Insert(x, s)[0] == if |s| == 0 || x <= s[0] then x else s[0]
  {
    if |s| > 0 && x > s[0] {
      var tail := s[1..];
      InsertKeepsSorted(x, tail);
      var t := Insert(x, tail);
      assert s[0] <= t[0] by {
        if |tail| > 0 {
          assert tail[0] == s[1];
        }
      }
      var r := [s[0]] + t;
      forall i, j | 0 <= i <= j < |r| ensures r[i] <= r[j] {
        if i > 0 {
          assert r[i] == t[i - 1] && r[j] == t[j - 1];
        } else if j > 0 {
          assert r[j] == t[j - 1] && t[0] <= t[j - 1];
        }
      }
    } else if |s| > 0 {
      var r := [x] + s;
      forall i, j | 0 <= i <= j < |r| ensures r[i] <= r[j] {
        if i > 0 {
          assert r[i] == s[i - 1] && r[j] == s[j - 1];
        } else if j > 0 {
          assert r[j] == s[j - 1] && s[0] <= s[j - 1];
        }
      }
    }
  }

  /** Insertion adds exactly `x` to the multiset of elements. */
  lemma {:induction false} InsertKeepsElements(x: int, s: seq<int>)
    ensures multiset(Insert(x, s)) == multiset(s) + multiset{x}
  {
    if |s| > 0 && x > s[0] {
      InsertKeepsElements(x, s[1..]);
      assert s == [s[0]] + s[1..];
    }
  }

  /** The ascending rearrangement of `s`, by insertion from the left. */
  function SortAscending(s: seq<int>): (r: seq<int>)
    ensures |r| == |s|
  {
    if |s| == 0 then [] else Insert(s[|s| - 1], SortAscending(s[..|s| - 1]))
  }

  /** The rearrangement is sorted and a permutation of its input. */
  lemma {:induction false} SortAscendingSorts(s: seq<int>)
    ensures IsSorted(SortAscending(s))
    ensures multiset(SortAscending(s)) == multiset(s)
  {
    if |s| > 0 {
      var init := s[..|s| - 1];
      SortAscendingSorts(init);
      assert s == init + [s[|s| - 1]];
      InsertKeepsSorted(s[|s| - 1], SortAscending(init));
      InsertKeepsElements(s[|s| - 1], SortAscending(init));
    }
  }

  /** The first element of the ascending order is the smallest value and the
      last the largest; both occur in the input. */
  lemma {:induction false} SortedEnds(s: seq<int>)
    requires |s| > 0
    ensures IsSorted(SortAscending(s))
    ensures var r := SortAscending(s);
      (forall i :: 0 <= i < |s| ==> r[0] <= s[i] <= r[|r| - 1])
      && r[0] in s && r[|r| - 1] in s
  {
    var r := SortAscending(s);
    SortAscendingSorts(s);
    forall i | 0 <= i < |s| ensures r[0] <= s[i] <= r[|r| - 1] {
      assert s[i] in multiset(r);
      var k :| 0 <= k < |r| && r[k] == s[i];
    }
    assert r[0] in multiset(s);
    assert r[|r| - 1] in multiset(s);
  }

  // ---------------------------------------------------------------------------
  // Integer arithmetic of the recomputation
  // ---------------------------------------------------------------------------

  /** Euclidean division by a positive divisor brackets the dividend. */
  lemma DivBounds(a: int, n: int)
    requires n > 0
    ensures (a / n) * n <= a < (a / n) * n + n
  {
    assert a == (a / n) * n + a % n;
  }

  /** The quotient of a non-negative dividend is non-negative. */
  lemma DivBoundsNonNegative(a: int, n: int)
    requires a >= 0 && n > 0
    ensures var q := a / n; 0 <= q * n <= a < q * n + n
  {
    var q := a / n;
    DivBounds(a, n);
    assert q >= 0;
    MulMonotone(0, q, n);
  }

  /** Negating a Euclidean quotient of a positive dividend rounds toward zero. */
  lemma NegatedDivBounds(a: int, n: int)
    requires a < 0 && n > 0
    ensures var q := -((-a) / n); q * n - n < a <= q * n <= 0
  {
    var p := (-a) / n;
    DivBounds(-a, n);
    assert p >= 0;
    assert p * n >= 0 by {
      MulMonotone(0, p, n);
    }
    assert (-p) * n == -(p * n);
  }

  /** C++ integer division (and a double quotient cast to int): rounds toward zero. */
  function TruncDiv(a: int, n: int): (q: int)
    requires n > 0
    ensures a >= 0 ==> 0 <= q * n <= a < q * n + n
    ensures a < 0 ==> q * n - n < a <= q * n <= 0
  {
    if a >= 0 then
      DivBoundsNonNegative(a, n);
      a / n
    else
      NegatedDivBounds(a, n);
      -((-a) / n)
  }

  /** `std::round(k / 100.0 * n)` for n >= 0: the index nearest to k% of n,
      halves rounded up. */
  function PercentileIndex(k: nat, n: nat): (idx: nat)
    ensures 2 * k * n - 100 < 200 * idx <= 2 * k * n + 100
  {
    (2 * k * n + 100) / 200
  }

  /** Larger fractions never give smaller indices. */
  lemma PercentileIndexMonotone(k1: nat, k2: nat, n: nat)
    requires k1 <= k2
    ensures PercentileIndex(k1, n) <= PercentileIndex(k2, n)
  {
    assert k1 * n <= k2 * n by {
      assert (k2 - k1) * n >= 0;
    }
  }

  /** The largest root whose square is at most `q`. */
  function IntSqrt(q: nat): (s: nat)
    ensures s * s <= q < (s + 1) * (s + 1)
  {
    RootFrom(q, 0)
  }

  function RootFrom(q: nat, s: nat): (r: nat)
    requires s * s <= q
    ensures r * r <= q < (r + 1) * (r + 1)
    decreases q - s * s
  {
    if (s + 1) * (s + 1) > q then s else RootFrom(q, s + 1)
  }

  /** Division of a non-negative total, as a double quotient cast to int. */
  function FloorDiv(total: nat, n: nat): (q: nat)
    requires n > 0
    ensures q * n <= total < q * n + n
  {
    DivBounds(total, n);
    total / n
  }

  /** `s` is the largest root whose square, times n, does not exceed the total. */
  predicate IsRootMeanSquare(s: int, total: int, n: int) {
    s >= 0 && s * s * n <= total < (s + 1) * (s + 1) * n
  }

  /** `static_cast<int>(std::sqrt(total / n))`. */
  function RootMeanSquare(total: nat, n: nat): (s: nat)
    requires n > 0
    ensures IsRootMeanSquare(s, total, n)
  {
    var q := FloorDiv(total, n);
    var s := IntSqrt(q);
    MulMonotone(s * s, q, n);
    MulMonotone(q + 1, (s + 1) * (s + 1), n);
    assert (q + 1) * n == q * n + n;
    s
  }

  lemma MulMonotone(a: int, b: int, n: nat)
    requires a <= b
    ensures a * n <= b * n
  {
    assert b * n == a * n + (b - a) * n;
  }

  function Sum(xs: seq<int>): int {
    if |xs| == 0 then 0 else Sum(xs[..|xs| - 1]) + xs[|xs| - 1]
  }

  function Abs(x: int): nat {
    if x < 0 then -x else x
  }

  /** Sum of absolute distances from `ref`. */
  function SumAbsDev(xs: seq<int>, ref: int): nat {
    if |xs| == 0 then 0 else SumAbsDev(xs[..|xs| - 1], ref) + Abs(xs[|xs| - 1] - ref)
  }

  /** Sum of squared distances from `ref`. */
  function SumSqDev(xs: seq<int>, ref: int): nat {
    if |xs| == 0 then 0
    else
      var d := xs[|xs| - 1] - ref;
      SumSqDev(xs[..|xs| - 1], ref) + d * d
  }

  // ---------------------------------------------------------------------------
  // The snapshot
  // ---------------------------------------------------------------------------

  /** The median of a sorted run: the middle element for odd length, the two
      middle elements averaged with C++ truncating division for even length. */
  function Median(sorted: seq<int>): (m: int)
    requires |sorted| > 0 && IsSorted(sorted)
    ensures |sorted| % 2 == 1 ==> m == sorted[|sorted| / 2]
    ensures |sorted| % 2 == 0 ==> sorted[|sorted| / 2 - 1] <= m <= sorted[|sorted| / 2]
  {
    var n := |sorted|;
    if n % 2 == 0 then TruncDiv(sorted[n / 2 - 1] + sorted[n / 2], 2) else sorted[n / 2]
  }

  /** The element at `idx`, or None when `idx` is past the end (the original
      reads there anyway; what it gets is not defined). */
  function At(sorted: seq<int>, idx: nat): (r: Option<int>)
    ensures r.Some? <==> idx < |sorted|
    ensures r.Some? ==> r.value == sorted[idx]
  {
    if idx < |sorted| then Some(sorted[idx]) else None
  }

  /** What one recomputation derives from the latencies, in store order. */
  datatype Snapshot = Snapshot(
    minLatency: int, maxLatency: int, mean: int, median: int,
    p5: Option<int>, p10: Option<int>, p90: Option<int>, p95: Option<int>,
    iqr: Option<int>, reference: int, mad: int, stdev: int)

  /** The snapshot of a sorted run, given the three sums the accumulator
      loop produces: the plain sum and the absolute and squared distances
      from the middle element. */
  function Digest(sorted: seq<int>, total: int, absDev: nat, sqDev: nat): (s: Snapshot)
    requires |sorted| > 0 && IsSorted(sorted)
    ensures s.minLatency <= s.median <= s.maxLatency
    ensures s.minLatency <= s.reference <= s.maxLatency
    ensures s.p5.Some? && s.p10.Some?
  {
    IndexRanges(|sorted|);
    var n := |sorted|;
    var q3 := At(sorted, PercentileIndex(75, n));
    var q1 := At(sorted, PercentileIndex(25, n));
    Snapshot(
      minLatency := sorted[0],
      maxLatency := sorted[n - 1],
      mean := TruncDiv(total, n),
      median := Median(sorted),
      p5 := At(sorted, PercentileIndex(5, n)),
      p10 := At(sorted, PercentileIndex(10, n)),
      p90 := At(sorted, PercentileIndex(90, n)),
      p95 := At(sorted, PercentileIndex(95, n)),
      iqr := if q1.Some? && q3.Some? then Some(q3.value - q1.value) else None,
      reference := sorted[n / 2],
      mad := FloorDiv(absDev, n),
      stdev := RootMeanSquare(sqDev, n))
  }

  /** What one recomputation derives from the latencies, in store order. */
  function Summarize(latencies: seq<int>): (s: Snapshot)
    requires |latencies| > 0
    ensures s.minLatency <= s.median <= s.maxLatency
    ensures s.p5.Some? && s.p10.Some?
  {
    var sorted := SortAscending(latencies);
    var ref := sorted[|sorted| / 2];
    SortAscendingSorts(latencies);
    Digest(sorted, Sum(latencies), SumAbsDev(latencies, ref), SumSqDev(latencies, ref))
  }

  // ---------------------------------------------------------------------------
  // Properties of the snapshot
  // ---------------------------------------------------------------------------

  /** Which of the rounded indices stay inside the sorted run: p5, p10 and the
      first quartile always do; the third quartile only from 3 samples on, p90
      from 6 and p95 from 11. Below that the original reads one past the end. */
  lemma IndexRanges(n: nat)
    requires n >= 1
    ensures PercentileIndex(5, n) < n && PercentileIndex(10, n) < n && PercentileIndex(25, n) < n
    ensures PercentileIndex(75, n) < n <==> n >= 3
    ensures PercentileIndex(90, n) < n <==> n >= 6
    ensures PercentileIndex(95, n) < n <==> n >= 11
  {
  }

  /** How the rounded indices sit relative to each other and to the middle. */
  lemma IndexOrder(n: nat)
    requires n >= 1
    ensures PercentileIndex(5, n) <= PercentileIndex(10, n)
    ensures n % 2 == 0 ==> PercentileIndex(10, n) + 1 <= n / 2
    ensures n % 2 == 1 ==> PercentileIndex(10, n) <= n / 2
    ensures n / 2 <= PercentileIndex(90, n) <= PercentileIndex(95, n)
    ensures PercentileIndex(25, n) <= PercentileIndex(75, n)
  {
    PercentileIndexMonotone(5, 10, n);
    PercentileIndexMonotone(90, 95, n);
    PercentileIndexMonotone(25, 75, n);
    var h := n / 2;
    assert n == 2 * h + n % 2;
    var i10 := PercentileIndex(10, n);
    var i90 := PercentileIndex(90, n);
    assert 200 * i10 <= 20 * n + 100;
    assert 180 * n - 100 < 200 * i90;
  }

  /** Which parts of a snapshot are defined, in terms of the sample count. */
  lemma SnapshotDefinedness(latencies: seq<int>)
    requires |latencies| > 0
    ensures var s := Summarize(latencies); var n := |latencies|;
      s.p5.Some? && s.p10.Some?
      && (s.iqr.Some? <==> n >= 3)
      && (s.p90.Some? <==> n >= 6)
      && (s.p95.Some? <==> n >= 11)
  {
    SortAscendingSorts(latencies);
    IndexRanges(|latencies|);
  }

  lemma MulCancelLess(a: int, b: int, n: nat)
    requires a * n < b * n
    ensures a < b
  {
    if a >= b {
      MulMonotone(b, a, n);
    }
  }

  /** A truncated quotient of a total lying between n*lo and n*hi lies
      between lo and hi. */
  lemma TruncDivBetween(total: int, n: nat, lo: int, hi: int)
    requires n > 0
    requires lo * n <= total <= hi * n
    ensures lo <= TruncDiv(total, n) <= hi
  {
    var q := TruncDiv(total, n);
    assert (q + 1) * n == q * n + n;
    assert (hi + 1) * n == hi * n + n;
    MulCancelLess(q, hi + 1, n);
    MulCancelLess(lo, q + 1, n);
  }

  /** The sum of values between lo and hi lies between n*lo and n*hi. */
  lemma {:induction false} SumBetween(xs: seq<int>, lo: int, hi: int)
    requires forall i :: 0 <= i < |xs| ==> lo <= xs[i] <= hi
    ensures lo * |xs| <= Sum(xs) <= hi * |xs|
  {
    if |xs| > 0 {
      var k := |xs| - 1;
      SumBetween(xs[..k], lo, hi);
      assert lo * |xs| == lo * k + lo;
      assert hi * |xs| == hi * k + hi;
    }
  }

  /** The order statistics of one snapshot are ordered as their fractions:
      min <= p5 <= p10 <= median <= p90 <= p95 <= max wherever the index is in
      range, the mean lies between min and max, and the IQR is not negative. */
  lemma SnapshotOrder(latencies: seq<int>)
    requires |latencies| > 0
    ensures var s := Summarize(latencies);
      s.p5.Some? && s.p10.Some?
      && s.minLatency <= s.p5.value <= s.p10.value <= s.median <= s.maxLatency
      && s.minLatency <= s.mean <= s.maxLatency
      && (s.p90.Some? ==> s.median <= s.p90.value <= s.maxLatency)
      && (s.p95.Some? ==> s.p90.Some? && s.p90.value <= s.p95.value <= s.maxLatency)
      && (s.iqr.Some? ==> s.iqr.value >= 0)
  {
    var n := |latencies|;
    var sorted := SortAscending(latencies);
    IndexRanges(n);
    IndexOrder(n);
    SortedEnds(latencies);
    SumBetween(latencies, sorted[0], sorted[n - 1]);
    TruncDivBetween(Sum(latencies), n, sorted[0], sorted[n - 1]);
  }

  /** The extremes are attained: min and max occur among the latencies and
      bound every one of them. */
  lemma SnapshotExtremes(latencies: seq<int>)
    requires |latencies| > 0
    ensures var s := Summarize(latencies);
      s.minLatency in latencies && s.maxLatency in latencies
      && forall i :: 0 <= i < |latencies| ==> s.minLatency <= latencies[i] <= s.maxLatency
  {
    SortedEnds(latencies);
  }

  /** The mean is the sum divided with truncation toward zero; MAD and stdev
      are measured from the middle element of the sorted run, MAD as the
      floor of the mean absolute distance and stdev as the largest root whose
      square, times n, stays within the squared distances. */
  lemma SnapshotSpread(latencies: seq<int>)
    requires |latencies| > 0
    ensures var s := Summarize(latencies); var n := |latencies|;
      var ref := SortAscending(latencies)[n / 2];
      s.reference == ref
      && (Sum(latencies) >= 0 ==> 0 <= s.mean * n <= Sum(latencies) < s.mean * n + n)
      && (Sum(latencies) < 0 ==> s.mean * n - n < Sum(latencies) <= s.mean * n <= 0)
      && s.mad >= 0
      && s.mad * n <= SumAbsDev(latencies, ref) < s.mad * n + n
      && IsRootMeanSquare(s.stdev, SumSqDev(latencies, ref), n)
  {
    var n := |latencies|;
    var sorted := SortAscending(latencies);
    var ref := sorted[n / 2];
    SortAscendingSorts(latencies);
    var absDev, sqDev := SumAbsDev(latencies, ref), SumSqDev(latencies, ref);
    var s := Summarize(latencies);
    assert s == Digest(sorted, Sum(latencies), absDev, sqDev);
    var mean, mad, root := TruncDiv(Sum(latencies), n), FloorDiv(absDev, n), RootMeanSquare(sqDev, n);
    assert s.mean == mean && s.mad == mad && s.stdev == root;
  }

  lemma {:induction false} DeviationsOfConstant(xs: seq<int>, c: int)
    requires forall i :: 0 <= i < |xs| ==> xs[i] == c
    ensures SumAbsDev(xs, c) == 0 && SumSqDev(xs, c) == 0
  {
    if |xs| > 0 {
      DeviationsOfConstant(xs[..|xs| - 1], c);
    }
  }

  lemma SortedOfConstant(latencies: seq<int>, c: int)
    requires |latencies| > 0
    requires forall i :: 0 <= i < |latencies| ==> latencies[i] == c
    ensures forall k :: 0 <= k < |latencies| ==> SortAscending(latencies)[k] == c
  {
    var sorted := SortAscending(latencies);
    SortedEnds(latencies);
    assert sorted[0] == c && sorted[|sorted| - 1] == c;
  }

  /** When every latency is the same value c, every location statistic is c. */
  lemma ConstantCentre(latencies: seq<int>, c: int)
    requires |latencies| > 0
    requires forall i :: 0 <= i < |latencies| ==> latencies[i] == c
    ensures var s := Summarize(latencies);
      s.minLatency == s.maxLatency == s.mean == s.median == s.reference == c
      && s.p5 == s.p10 == Some(c)
  {
    var n := |latencies|;
    SortedOfConstant(latencies, c);
    IndexRanges(n);
    SumBetween(latencies, c, c);
    TruncDivBetween(Sum(latencies), n, c, c);
  }

  /** When every latency is the same value c, every spread (IQR, MAD,
      standard deviation) is 0. */
  lemma ConstantSpread(latencies: seq<int>, c: int)
    requires |latencies| > 0
    requires forall i :: 0 <= i < |latencies| ==> latencies[i] == c
    ensures var s := Summarize(latencies);
      (s.iqr.Some? ==> s.iqr.value == 0) && s.mad == 0 && s.stdev == 0
  {
    var n := |latencies|;
    SortedOfConstant(latencies, c);
    DeviationsOfConstant(latencies, c);
    assert FloorDiv(0, n) == 0;
    assert RootMeanSquare(0, n) == 0 by {
      assert IntSqrt(0) == RootFrom(0, 0) == 0;
    }
  }
}
