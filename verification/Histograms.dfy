/**
 Log-scale latency histogram. Durations are integer nanoseconds; the growing bound 1.25^k and
 the quantile q are reals.
 */
module Histograms {
  import opened Durations
  import opened Sequences

  const MAX_MICROS := 60_000_000
  const MAX_BOUND := 60_000_000_000

  /** The bounds appended from `current` microseconds on: truncate, multiply by 1.25, stop at 60 s. */
  function BoundsFrom(current: real): (bounds: seq<int>)
    requires current >= 1.0
    ensures |bounds| > 0
    decreases if current < MAX_MICROS as real then 1 + (4.0 * (MAX_MICROS as real - current)).Floor else 0
  {
    if current < MAX_MICROS as real then
      [current.Floor * MICROSECOND] + BoundsFrom(current * 1.25)
    else
      [MAX_BOUND]
  }

  function DefaultBounds(): (bounds: seq<int>)
    ensures |bounds| > 0
  {
    BoundsFrom(1.0)
  }

  function Clamp(x: int): int
  {
    if x < 0 then 0 else x
  }

  /** Least index from i on whose bound is at least x, or the last index. */
  function BucketFrom(bounds: seq<int>, x: int, i: nat): (r: nat)
    requires i < |bounds|
    ensures i <= r < |bounds|
    ensures forall j :: i <= j < r ==> bounds[j] < x
    ensures r < |bounds| - 1 ==> x <= bounds[r]
    decreases |bounds| - i
  {
    if x <= bounds[i] || i == |bounds| - 1 then i else BucketFrom(bounds, x, i + 1)
  }

  function BucketOf(bounds: seq<int>, x: int): (r: nat)
    requires |bounds| > 0
    ensures r < |bounds|
    ensures forall j :: 0 <= j < r ==> bounds[j] < x
    ensures r < |bounds| - 1 ==> x <= bounds[r]
  {
    BucketFrom(bounds, x, 0)
  }

  /** 1 for a sample that lands in bucket i, else 0. */
  function InBucket(bounds: seq<int>, i: int): int -> int
    requires |bounds| > 0
  {
    x => if BucketOf(bounds, Clamp(x)) == i then 1 else 0
  }

  function BelowBucket(bounds: seq<int>, i: int): int -> int
    requires |bounds| > 0
  {
    x => if BucketOf(bounds, Clamp(x)) < i then 1 else 0
  }

  /** The counts say, bucket by bucket, how many of the samples landed there. */
  ghost predicate Counts(bounds: seq<int>, counts: seq<int>, samples: seq<int>)
    requires |bounds| > 0
  {
    |counts| == |bounds| &&
    forall i :: 0 <= i < |counts| ==> counts[i] == Sum(samples, InBucket(bounds, i))
  }

  /** Sum of the first k counts. */
  function Prefix(counts: seq<int>, k: nat): int
    requires k <= |counts|
  {
    if k == 0 then 0 else Prefix(counts, k - 1) + counts[k - 1]
  }

  function Total(counts: seq<int>): int
  {
    Prefix(counts, |counts|)
  }

  ghost predicate NonNegative(counts: seq<int>)
  {
    forall i :: 0 <= i < |counts| ==> counts[i] >= 0
  }

  function Ceil(x: real): int
  {
    -((-x).Floor)
  }

  /** First index whose cumulative count reaches the target, or the last index. */
  function RankFrom(counts: seq<int>, target: int, i: nat): (r: nat)
    requires i < |counts|
    ensures i <= r < |counts|
    ensures forall j :: i < j <= r ==> Prefix(counts, j) < target
    ensures r < |counts| - 1 ==> Prefix(counts, r + 1) >= target
    decreases |counts| - i
  {
    if Prefix(counts, i + 1) >= target || i == |counts| - 1 then i else RankFrom(counts, target, i + 1)
  }

  function RankIndex(counts: seq<int>, target: int): (r: nat)
    requires |counts| > 0
    ensures r < |counts|
  {
    RankFrom(counts, target, 0)
  }

  /** The target rank of an interior quantile. */
  function Target(n: int, q: real): int
  {
    Ceil(Share(n, q))
  }

  function Share(n: int, q: real): real
  {
    n as real * q
  }

  /** The rank that quantile q asks for among n samples. */
  function RankOf(n: int, q: real): int
  {
    if q <= 0.0 then 1 else if q >= 1.0 then n else Target(n, q)
  }

  /** The specification of a quantile, for every q: one cumulative search for one rank. */
  function QuantileOf(bounds: seq<int>, counts: seq<int>, q: real): int
    requires |bounds| == |counts| > 0
  {
    if Total(counts) == 0 then 0 else bounds[RankIndex(counts, RankOf(Total(counts), q))]
  }

  function AddCounts(a: seq<int>, b: seq<int>): (r: seq<int>)
    requires |a| == |b|
    ensures |r| == |a|
    ensures forall i :: 0 <= i < |r| ==> r[i] == a[i] + b[i]
  {
    seq(|a|, i requires 0 <= i < |a| => a[i] + b[i])
  }

  function Zeros(n: nat): (r: seq<int>)
    ensures |r| == n && forall i :: 0 <= i < n ==> r[i] == 0
  {
    seq(n, i => 0)
  }

  /** The counts after merging a snapshot whose counts are `incoming`; lengths that differ are ignored. */
  function MergedCounts(counts: seq<int>, incoming: seq<int>): seq<int>
  {
    if |incoming| == 0 then counts
    else if |counts| == 0 then incoming
    else if |counts| != |incoming| then counts
    else AddCounts(counts, incoming)
  }

  /** Go truncates a duration toward zero when it converts it to microseconds. */
  function Micros(d: int): int
  {
    if d >= 0 then d / MICROSECOND else -((-d) / MICROSECOND)
  }

  datatype HistogramSnapshot = HistogramSnapshot(boundsMicros: seq<int>, counts: seq<int>)

  function MicrosOf(bounds: seq<int>): (r: seq<int>)
    ensures |r| == |bounds| && forall i :: 0 <= i < |r| ==> r[i] == Micros(bounds[i])
  {
    seq(|bounds|, i requires 0 <= i < |bounds| => Micros(bounds[i]))
  }

  function FromMicros(micros: seq<int>): (r: seq<int>)
    ensures |r| == |micros| && forall i :: 0 <= i < |r| ==> r[i] == micros[i] * MICROSECOND
  {
    seq(|micros|, i requires 0 <= i < |micros| => micros[i] * MICROSECOND)
  }

  lemma {:induction false} PrefixMonotone(counts: seq<int>, i: nat, j: nat)
    requires NonNegative(counts) && i <= j <= |counts|
    ensures 0 <= Prefix(counts, i) <= Prefix(counts, j)
    decreases j
  {
    if i < j {
      PrefixMonotone(counts, i, j - 1);
    } else if i > 0 {
      PrefixMonotone(counts, i - 1, i - 1);
    }
  }

  /** What the search returns: the one index where the cumulative count crosses the target. */
  lemma RankIndexCrosses(counts: seq<int>, target: int, r: nat)
    requires NonNegative(counts) && r < |counts|
    requires Prefix(counts, r) < target <= Prefix(counts, r + 1)
    ensures RankIndex(counts, target) == r
  {
    var found := RankIndex(counts, target);
    if found < r {
      PrefixMonotone(counts, found + 1, r);
    }
  }

  lemma RankIndexReaches(counts: seq<int>, target: int)
    requires NonNegative(counts) && |counts| > 0 && 1 <= target <= Total(counts)
    ensures var r := RankIndex(counts, target); Prefix(counts, r) < target <= Prefix(counts, r + 1)
  {
    var r := RankIndex(counts, target);
    assert r > 0 ==> Prefix(counts, r) < target;
  }

  lemma RankInRange(n: int, q: real)
    requires n >= 1
    ensures 1 <= RankOf(n, q) <= n
  {
    if 0.0 < q < 1.0 {
      assert 0.0 < n as real * q < n as real;
    }
  }

  /** The constructor's loop over growing bounds. */
  method BuildBounds(first: real) returns (bounds: seq<int>)
    requires first >= 1.0
    ensures bounds == BoundsFrom(first)
  {
    bounds := [];
    var current := first;
    while current < MAX_MICROS as real
      invariant current >= 1.0
      invariant bounds + BoundsFrom(current) == BoundsFrom(first)
      decreases if current < MAX_MICROS as real then 1 + (4.0 * (MAX_MICROS as real - current)).Floor else 0
    {
      bounds := bounds + [current.Floor * MICROSECOND];
      current := current * 1.25;
    }
    bounds := bounds + [MAX_BOUND];
  }

  class Histogram {
    var bounds: seq<int>
    var counts: seq<int>

    ghost predicate Valid()
      reads this
    {
      |bounds| == |counts|
    }

    constructor ()
      ensures Valid()
      ensures bounds == DefaultBounds() && counts == Zeros(|DefaultBounds()|)
    {
      var built := BuildBounds(1.0);
      bounds := built;
      counts := Zeros(|built|);
    }

    constructor FromSnapshot(snapshot: HistogramSnapshot)
      ensures bounds == FromMicros(snapshot.boundsMicros) && counts == snapshot.counts
    {
      var built: seq<int> := [];
      var i := 0;
      while i < |snapshot.boundsMicros|
        invariant 0 <= i <= |snapshot.boundsMicros|
        invariant |built| == i && forall j :: 0 <= j < i ==> built[j] == snapshot.boundsMicros[j] * MICROSECOND
      {
        built := built + [snapshot.boundsMicros[i] * MICROSECOND];
        i := i + 1;
      }
      bounds := built;
      counts := snapshot.counts;
    }

    method Snapshot() returns (snapshot: HistogramSnapshot)
      ensures snapshot == HistogramSnapshot(MicrosOf(bounds), counts)
    {
      var micros: seq<int> := [];
      var i := 0;
      while i < |bounds|
        invariant 0 <= i <= |bounds|
        invariant |micros| == i && forall j :: 0 <= j < i ==> micros[j] == Micros(bounds[j])
      {
        micros := micros + [Micros(bounds[i])];
        i := i + 1;
      }
      assert micros == MicrosOf(bounds);
      snapshot := HistogramSnapshot(micros, counts);
    }

    method Merge(snapshot: HistogramSnapshot)
      modifies this
      ensures counts == MergedCounts(old(counts), snapshot.counts)
      ensures |snapshot.counts| == 0 || (0 < old(|counts|) != |snapshot.counts|) ==> counts == old(counts)
      ensures old(|counts|) == 0 && |snapshot.counts| > 0 ==> counts == snapshot.counts
      ensures old(|counts|) == |snapshot.counts| ==>
        |counts| == old(|counts|) && forall i :: 0 <= i < |counts| ==> counts[i] == old(counts)[i] + snapshot.counts[i]
      ensures bounds == if old(|counts|) == 0 && |snapshot.counts| > 0
                        then FromMicros(snapshot.boundsMicros) else old(bounds)
    {
      if |snapshot.counts| == 0 {
        return;
      }
      if |counts| == 0 {
        var merged := new Histogram.FromSnapshot(snapshot);
        bounds := merged.bounds;
        counts := merged.counts;
        return;
      }
      if |counts| != |snapshot.counts| {
        return;
      }
      var i := 0;
      while i < |snapshot.counts|
        invariant 0 <= i <= |snapshot.counts| == |counts|
        invariant |counts| == |old(counts)| && bounds == old(bounds)
        invariant forall j :: 0 <= j < i ==> counts[j] == old(counts)[j] + snapshot.counts[j]
        invariant forall j :: i <= j < |counts| ==> counts[j] == old(counts)[j]
      {
        counts := counts[i := counts[i] + snapshot.counts[i]];
        i := i + 1;
      }
      assert counts == AddCounts(old(counts), snapshot.counts);
    }

    method BucketIndex(latency: int) returns (index: nat)
      requires Valid() && |bounds| > 0
      ensures index == BucketOf(bounds, latency)
    {
      var i := 0;
      while i < |bounds|
        invariant 0 <= i <= |bounds|
        invariant i < |bounds| ==> BucketFrom(bounds, latency, i) == BucketOf(bounds, latency)
        invariant i == |bounds| ==> BucketOf(bounds, latency) == |bounds| - 1
      {
        if latency <= bounds[i] {
          return i;
        }
        i := i + 1;
      }
      return |bounds| - 1;
    }

    method Record(latency: int)
      requires Valid() && |bounds| > 0
      modifies this`counts
      ensures Valid()
      ensures var i := BucketOf(bounds, Clamp(latency));
              counts == old(counts)[i := old(counts)[i] + 1]
    {
      var clamped := latency;
      if clamped < 0 {
        clamped := 0;
      }
      var index := BucketIndex(clamped);
      counts := counts[index := counts[index] + 1];
    }

    method TotalCount() returns (total: int)
      ensures total == Total(counts)
    {
      total := 0;
      var i := 0;
      while i < |counts|
        invariant 0 <= i <= |counts|
        invariant total == Prefix(counts, i)
      {
        total := total + counts[i];
        i := i + 1;
      }
    }

    method MinNonZero() returns (bound: int)
      requires Valid() && NonNegative(counts)
      ensures Total(counts) == 0 ==> bound == 0
      ensures Total(counts) > 0 ==> bound == bounds[RankIndex(counts, 1)]
    {
      var i := 0;
      while i < |counts|
        invariant 0 <= i <= |counts|
        invariant Prefix(counts, i) == 0
      {
        if counts[i] > 0 {
          RankIndexCrosses(counts, 1, i);
          PrefixMonotone(counts, i + 1, |counts|);
          return bounds[i];
        }
        i := i + 1;
      }
      return 0;
    }

    method MaxNonZero() returns (bound: int)
      requires Valid() && NonNegative(counts)
      ensures Total(counts) == 0 ==> bound == 0
      ensures Total(counts) > 0 ==> bound == bounds[RankIndex(counts, Total(counts))]
    {
      var i := |counts| - 1;
      while i >= 0
        invariant -1 <= i < |counts|
        invariant Prefix(counts, i + 1) == Total(counts)
      {
        if counts[i] > 0 {
          RankIndexCrosses(counts, Total(counts), i);
          PrefixMonotone(counts, i, i + 1);
          return bounds[i];
        }
        i := i - 1;
      }
      return 0;
    }

    /** The cumulative search at the end of Quantile. */
    method BoundAtRank(target: int) returns (latency: int)
      requires Valid() && |bounds| > 0
      ensures latency == bounds[RankIndex(counts, target)]
    {
      ghost var all := counts;
      var cumulative := 0;
      var i := 0;
      while i < |counts|
        invariant 0 <= i <= |counts|
        invariant cumulative == Prefix(all, i)
        invariant i < |counts| ==> RankFrom(all, target, i) == RankIndex(all, target)
        invariant i == |counts| ==> RankIndex(all, target) == |counts| - 1
      {
        cumulative := cumulative + counts[i];
        if cumulative >= target {
          return bounds[i];
        }
        i := i + 1;
      }
      return bounds[|bounds| - 1];
    }

    method Quantile(q: real) returns (latency: int)
      requires Valid() && NonNegative(counts) && |bounds| > 0
      ensures latency == QuantileOf(bounds, counts, q)
    {
      var total := TotalCount();
      PrefixMonotone(counts, 0, |counts|);
      if total == 0 {
        return 0;
      }
      if q <= 0.0 {
        latency := MinNonZero();
        return;
      }
      if q >= 1.0 {
        latency := MaxNonZero();
        return;
      }
      hide Target;
      latency := BoundAtRank(Target(total, q));
    }
  }
}
