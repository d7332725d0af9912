/**
 * The latency distribution chart: 16 integer boundaries `min + i*step` with
 * `step = (max - min) / 16` in C++ integer division, and one counter per bar
 * bumped through a first-match if/else chain over the samples.
 */
module Histogram {
  import opened Wrappers
  import opened Statistics

  const Bars: nat := 16

  /** `range / 16` with the truncating division of `int`. */
  function Step(minLatency: int, maxLatency: int): (step: int)
    ensures minLatency <= maxLatency ==>
      0 <= step * Bars <= maxLatency - minLatency < step * Bars + Bars
    ensures maxLatency < minLatency ==>
      step * Bars - Bars < maxLatency - minLatency <= step * Bars <= 0
  {
    TruncDiv(maxLatency - minLatency, Bars)
  }

  /** The 16 lower boundaries `minLatency + i * step`. */
  function Boundaries(minLatency: int, maxLatency: int): (b: seq<int>)
    ensures |b| == Bars
  {
    seq(Bars, i => minLatency + i * Step(minLatency, maxLatency))
  }

  predicate Nondecreasing(b: seq<int>) {
    forall i, j :: 0 <= i <= j < |b| ==> b[i] <= b[j]
  }

  /** For an ordered range the step is not negative, the boundaries do not
      decrease, start at min and the last one does not pass max. */
  lemma BoundariesOrdered(minLatency: int, maxLatency: int)
    requires minLatency <= maxLatency
    ensures 0 <= Step(minLatency, maxLatency)
    ensures Nondecreasing(Boundaries(minLatency, maxLatency))
    ensures Boundaries(minLatency, maxLatency)[0] == minLatency
    ensures Boundaries(minLatency, maxLatency)[Bars - 1] <= maxLatency
  {
    var step := Step(minLatency, maxLatency);
    var b := Boundaries(minLatency, maxLatency);
    forall i, j | 0 <= i <= j < Bars ensures b[i] <= b[j] {
      MulMonotone(i, j, step);
      assert i * step == step * i && j * step == step * j;
    }
  }

  /** A range narrower than 16 gives step 0: all boundaries equal min. */
  lemma NarrowRange(minLatency: int, maxLatency: int)
    requires minLatency <= maxLatency < minLatency + Bars
    ensures Step(minLatency, maxLatency) == 0
    ensures forall i :: 0 <= i < Bars ==> Boundaries(minLatency, maxLatency)[i] == minLatency
  {
  }

  /** The if/else chain from bar `j` on: the first bar whose half-open
      interval `[b[j], b[j+1])` holds `x`, the last bar taking everything from
      `b[15]` up, and no bar at all for a value below every tested interval. */
  function FirstMatch(b: seq<int>, x: int, j: nat): (r: Option<nat>)
    requires |b| == Bars && j < Bars
    ensures r.Some? ==> j <= r.value < Bars && b[r.value] <= x
    ensures r.Some? ==> r.value == Bars - 1 || x < b[r.value + 1]
    decreases Bars - j
  {
    if j == Bars - 1 then (if x >= b[j] then Some(j) else None)
    else if b[j] <= x < b[j + 1] then Some(j)
    else FirstMatch(b, x, j + 1)
  }

  function BarOf(b: seq<int>, x: int): (r: Option<nat>)
    requires |b| == Bars
    ensures r.Some? ==> r.value < Bars && b[r.value] <= x
    ensures r.Some? ==> r.value == Bars - 1 || x < b[r.value + 1]
  {
    FirstMatch(b, x, 0)
  }

  lemma {:induction false} FirstMatchIsInterval(b: seq<int>, x: int, j: nat, k: nat)
    requires |b| == Bars && Nondecreasing(b)
    requires j <= k < Bars
    ensures FirstMatch(b, x, j) == Some(k) <==> b[k] <= x && (k == Bars - 1 || x < b[k + 1])
    decreases Bars - j
  {
    if j < Bars - 1 && !(b[j] <= x < b[j + 1]) && j < k {
      FirstMatchIsInterval(b, x, j + 1, k);
    }
  }

  /** With ordered boundaries a value lands in bar k exactly when it lies in
      that bar's interval; the intervals do not overlap, so it lands in one
      bar at most. */
  lemma BarOfIsInterval(b: seq<int>, x: int, k: nat)
    requires |b| == Bars && Nondecreasing(b) && k < Bars
    ensures BarOf(b, x) == Some(k) <==> b[k] <= x && (k == Bars - 1 || x < b[k + 1])
  {
    FirstMatchIsInterval(b, x, 0, k);
  }

  lemma {:induction false} FirstMatchTotal(b: seq<int>, x: int, j: nat)
    requires |b| == Bars && Nondecreasing(b) && j < Bars
    ensures FirstMatch(b, x, j).Some? <==> x >= b[j]
    decreases Bars - j
  {
    if j < Bars - 1 {
      FirstMatchTotal(b, x, j + 1);
    }
  }

  /** With ordered boundaries a value is counted in some bar exactly when it
      is at least the first boundary. */
  lemma BarOfTotal(b: seq<int>, x: int)
    requires |b| == Bars && Nondecreasing(b)
    ensures BarOf(b, x).Some? <==> x >= b[0]
  {
    FirstMatchTotal(b, x, 0);
  }

  /** The counters after the chain picked bar `o` for one more value. */
  function Bump(t: seq<nat>, o: Option<nat>): (u: seq<nat>)
    ensures |u| == |t|
  {
    if o.Some? && o.value < |t| then t[o.value := t[o.value] + 1] else t
  }

  /** The 16 counters after the chain has run over `xs` in order. */
  function Tally(xs: seq<int>, b: seq<int>): (t: seq<nat>)
    requires |b| == Bars
    ensures |t| == Bars
  {
    if |xs| == 0 then seq(Bars, _ => 0)
    else Bump(Tally(xs[..|xs| - 1], b), BarOf(b, xs[|xs| - 1]))
  }

  function Total(t: seq<nat>): nat {
    if |t| == 0 then 0 else Total(t[..|t| - 1]) + t[|t| - 1]
  }

  /** How many values are at least `lo`. */
  function CountAtLeast(xs: seq<int>, lo: int): nat {
    if |xs| == 0 then 0
    else CountAtLeast(xs[..|xs| - 1], lo) + (if xs[|xs| - 1] >= lo then 1 else 0)
  }

  lemma {:induction false} TotalOfIncrement(t: seq<nat>, k: nat)
    requires k < |t|
    ensures Total(t[k := t[k] + 1]) == Total(t) + 1
  {
    var u := t[k := t[k] + 1];
    if k < |t| - 1 {
      assert u[..|u| - 1] == t[..|t| - 1][k := t[k] + 1];
      TotalOfIncrement(t[..|t| - 1], k);
    } else {
      assert u[..|u| - 1] == t[..|t| - 1];
    }
  }

  lemma {:induction false} TotalOfZeros(n: nat)
    ensures Total(seq(n, _ => 0)) == 0
  {
    if n > 0 {
      assert seq(n, _ => 0)[..n - 1] == seq(n - 1, _ => 0);
      TotalOfZeros(n - 1);
    }
  }

  /** One more value adds one to the bars exactly when it is not below the
      first boundary. */
  lemma {:induction false} BumpTotal(t: seq<nat>, o: Option<nat>)
    ensures Total(Bump(t, o)) == Total(t) + (if o.Some? && o.value < |t| then 1 else 0)
  {
    if o.Some? && o.value < |t| {
      TotalOfIncrement(t, o.value);
    }
  }

  lemma TallyStep(xs: seq<int>, b: seq<int>)
    requires |b| == Bars && Nondecreasing(b) && |xs| > 0
    ensures Total(Tally(xs, b))
      == Total(Tally(xs[..|xs| - 1], b)) + (if xs[|xs| - 1] >= b[0] then 1 else 0)
  {
    BarOfTotal(b, xs[|xs| - 1]);
    BumpTotal(Tally(xs[..|xs| - 1], b), BarOf(b, xs[|xs| - 1]));
  }

  /** Every value at or above the first boundary is counted exactly once, so
      the bars add up to the number of such values. */
  lemma {:induction false} TallyTotal(xs: seq<int>, b: seq<int>)
    requires |b| == Bars && Nondecreasing(b)
    ensures Total(Tally(xs, b)) == CountAtLeast(xs, b[0])
  {
    if |xs| == 0 {
      TotalOfZeros(Bars);
    } else {
      TallyTotal(xs[..|xs| - 1], b);
      TallyStep(xs, b);
    }
  }

  lemma {:induction false} CountAtLeastAll(xs: seq<int>, lo: int)
    requires forall i :: 0 <= i < |xs| ==> xs[i] >= lo
    ensures CountAtLeast(xs, lo) == |xs|
  {
    if |xs| > 0 {
      CountAtLeastAll(xs[..|xs| - 1], lo);
    }
  }

  /** Value `x` lies in bar `k`: at or above its lower boundary and, except
      for the last bar, below the next one. */
  predicate InBar(b: seq<int>, x: int, k: nat)
    requires |b| == Bars && k < Bars
  {
    b[k] <= x && (k == Bars - 1 || x < b[k + 1])
  }

  /** How many values lie in bar `k`. */
  function CountInBar(xs: seq<int>, b: seq<int>, k: nat): nat
    requires |b| == Bars && k < Bars
  {
    if |xs| == 0 then 0
    else CountInBar(xs[..|xs| - 1], b, k) + (if InBar(b, xs[|xs| - 1], k) then 1 else 0)
  }

  /** For ordered boundaries each bar counts exactly the values inside its
      half-open interval. */
  lemma {:induction false} TallyCountsBar(xs: seq<int>, b: seq<int>, k: nat)
    requires |b| == Bars && Nondecreasing(b) && k < Bars
    ensures Tally(xs, b)[k] == CountInBar(xs, b, k)
  {
    if |xs| > 0 {
      TallyCountsBar(xs[..|xs| - 1], b, k);
      BarOfIsInterval(b, xs[|xs| - 1], k);
    }
  }

  /** Binning the samples against their own minimum and maximum: the bars add
      up to the number of samples. */
  lemma BarsCoverSamples(xs: seq<int>, minLatency: int, maxLatency: int)
    requires minLatency <= maxLatency
    requires forall i :: 0 <= i < |xs| ==> minLatency <= xs[i]
    ensures Total(Tally(xs, Boundaries(minLatency, maxLatency))) == |xs|
  {
    BoundariesOrdered(minLatency, maxLatency);
    TallyTotal(xs, Boundaries(minLatency, maxLatency));
    CountAtLeastAll(xs, minLatency);
  }

  /** For a range narrower than 16 every sample lands in the last bar. */
  lemma {:induction false} NarrowRangeLastBar(xs: seq<int>, minLatency: int, maxLatency: int)
    requires minLatency <= maxLatency < minLatency + Bars
    requires forall i :: 0 <= i < |xs| ==> minLatency <= xs[i]
    ensures var t := Tally(xs, Boundaries(minLatency, maxLatency));
      t[Bars - 1] == |xs| && forall k :: 0 <= k < Bars - 1 ==> t[k] == 0
  {
    var b := Boundaries(minLatency, maxLatency);
    NarrowRange(minLatency, maxLatency);
    if |xs| > 0 {
      NarrowRangeLastBar(xs[..|xs| - 1], minLatency, maxLatency);
      BoundariesOrdered(minLatency, maxLatency);
      BarOfIsInterval(b, xs[|xs| - 1], Bars - 1);
    }
  }

  /** The boundary loop of the chart: `minLatency + i * step` for i in 0..15. */
  method FillBoundaries(minLatency: int, maxLatency: int) returns (bounds: seq<int>)
    ensures bounds == Boundaries(minLatency, maxLatency)
  {
    var range := maxLatency - minLatency;
    var step := if range >= 0 then range / Bars else -((-range) / Bars);
    assert step == Step(minLatency, maxLatency);
    bounds := [];
    for i := 0 to Bars
      invariant |bounds| == i
      invariant forall k :: 0 <= k < i ==> bounds[k] == minLatency + k * step
    {
      bounds := bounds + [minLatency + i * step];
    }
  }

  /** The counting loop of the chart: every latency, in store order, bumps the
      counter of the bar the if/else chain picks. */
  method CountBars(latencies: seq<int>, bounds: seq<int>) returns (bars: seq<nat>)
    requires |bounds| == Bars
    ensures bars == Tally(latencies, bounds)
  {
    bars := seq(Bars, _ => 0);
    for i := 0 to |latencies|
      invariant bars == Tally(latencies[..i], bounds)
    {
      assert latencies[..i + 1][..i] == latencies[..i];
      var bar := BarOf(bounds, latencies[i]);
      if bar.Some? {
        bars := bars[bar.value := bars[bar.value] + 1];
      }
    }
    assert latencies[..|latencies|] == latencies;
  }
}
