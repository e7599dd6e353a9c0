/**
 What the buckets still say about the samples: shape of the bounds, quantiles against the sorted
 list of all samples, monotonicity, and quantiles of merged histograms.
 */
module HistogramLaws {
  import opened Durations
  import opened Sequences
  import opened Histograms

  // ----- the bounds

  /** Each bound is less than 1.25 times (the previous bound plus the microsecond truncation lost). */
  ghost predicate Ladder(b: seq<int>)
  {
    && |b| > 0 && b[|b| - 1] == MAX_BOUND
    && (forall i :: 0 <= i < |b| ==> 0 < b[i] <= MAX_BOUND)
    && (forall i :: 0 < i < |b| ==> b[i - 1] <= b[i] && 4 * b[i] < 5 * (b[i - 1] + MICROSECOND))
  }

  lemma {:induction false} BoundsAreLadder(current: real)
    requires current >= 1.0
    ensures Ladder(BoundsFrom(current))
    ensures current < MAX_MICROS as real ==> BoundsFrom(current)[0] == current.Floor * MICROSECOND
    ensures BoundsFrom(current)[0] == MAX_BOUND || BoundsFrom(current)[0] as real <= current * 1000.0
    decreases if current < MAX_MICROS as real then 1 + (4.0 * (MAX_MICROS as real - current)).Floor else 0
  {
    if current < MAX_MICROS as real {
      var next := current * 1.25;
      BoundsAreLadder(next);
      var tail := BoundsFrom(next);
      var head := current.Floor * MICROSECOND;
      assert BoundsFrom(current) == [head] + tail;
      assert head <= tail[0] && 4 * tail[0] < 5 * (head + MICROSECOND) by {
        if next < MAX_MICROS as real {
          assert next.Floor >= current.Floor;
          assert (4 * next.Floor) as real <= 5.0 * current;
          assert 5.0 * current < (5 * (current.Floor + 1)) as real;
        } else {
          assert 5.0 * current >= 4.0 * MAX_MICROS as real;
          assert 5.0 * current < (5 * (current.Floor + 1)) as real;
        }
      }
      forall i | 0 < i < |BoundsFrom(current)|
        ensures BoundsFrom(current)[i - 1] <= BoundsFrom(current)[i]
        ensures 4 * BoundsFrom(current)[i] < 5 * (BoundsFrom(current)[i - 1] + MICROSECOND)
      {
        assert BoundsFrom(current)[i] == tail[i - 1];
        if i > 1 {
          assert BoundsFrom(current)[i - 1] == tail[i - 2];
        }
      }
    }
  }

  lemma {:induction false} LadderSorted(b: seq<int>, i: nat, j: nat)
    requires Ladder(b) && i <= j < |b|
    ensures b[i] <= b[j]
    decreases j
  {
    if i < j {
      LadderSorted(b, i, j - 1);
    }
  }

  function Power(k: nat): real
  {
    if k == 0 then 1.0 else 1.25 * Power(k - 1)
  }

  lemma {:induction false} PowerAdds(m: nat, n: nat)
    ensures Power(m + n) == Power(m) * Power(n)
  {
    if m > 0 {
      PowerAdds(m - 1, n);
      assert Power(m + n) == 1.25 * (Power(m - 1) * Power(n));
    }
  }

  lemma {:induction false} BoundsLength(current: real, n: nat)
    requires current >= 1.0 && n >= 1
    requires current * Power(n - 1) < MAX_MICROS as real <= current * Power(n)
    ensures |BoundsFrom(current)| == n + 1
    decreases n
  {
    PowerAtLeastOne(n - 1);
    assert current <= current * Power(n - 1);
    if n > 1 {
      assert current * Power(n) == current * 1.25 * Power(n - 1);
      assert current * Power(n - 1) == current * 1.25 * Power(n - 2);
      BoundsLength(current * 1.25, n - 1);
    } else {
      assert Power(1) == 1.25 * Power(0);
      assert current * Power(1) == current * 1.25;
    }
  }

  lemma {:induction false} PowerAtLeastOne(k: nat)
    ensures Power(k) >= 1.0
  {
    if k > 0 {
      PowerAtLeastOne(k - 1);
    }
  }

  lemma Square(x: real, lo: real, hi: real)
    requires 0.0 <= lo <= x <= hi
    ensures lo * lo <= x * x <= hi * hi
  {
    assert lo * lo <= lo * x <= x * x;
    assert x * x <= x * hi <= hi * hi;
  }

  lemma Power5()
    ensures Power(5) == 3.0517578125
  {
    assert Power(1) == 1.25;
    assert Power(2) == 1.5625;
    assert Power(3) == 1.953125;
    assert Power(4) == 2.44140625;
  }

  /** The constructor makes exactly 82 buckets (the capacity hint and the documentation say about 93). */
  lemma BucketCount()
    ensures |DefaultBounds()| == 82
  {
    Power5();
    PowerAdds(5, 5);
    assert Power(10) == 3.0517578125 * 3.0517578125;
    Square(Power(10), 9.31322, 9.31323);
    PowerAdds(10, 10);
    Square(Power(20), 86.736, 86.7363);
    PowerAdds(20, 20);
    Square(Power(40), 7523.1, 7523.2);
    PowerAdds(40, 40);
    assert Power(81) == 1.25 * Power(80);
    assert 1.0 * Power(80) == Power(80) && 1.0 * Power(81) == Power(81);
    BoundsLength(1.0, 81);
  }

  /** Every bound but the last is 1.25^k microseconds, cut to whole microseconds. */
  lemma {:induction false} BoundsFromAt(current: real, k: nat)
    requires current >= 1.0 && k < |BoundsFrom(current)| - 1
    ensures BoundsFrom(current)[k] % MICROSECOND == 0
    ensures BoundsFrom(current)[k] as real <= current * Power(k) * 1000.0 < (BoundsFrom(current)[k] + MICROSECOND) as real
    decreases k
  {
    if k == 0 {
      assert current * Power(0) == current;
    } else {
      BoundsFromAt(current * 1.25, k - 1);
      assert current * Power(k) == current * 1.25 * Power(k - 1);
    }
  }

  lemma OneTimes(x: real)
    ensures 1.0 * x == x
  {
  }

  lemma BoundsAt(k: nat)
    requires k < 81
    ensures |DefaultBounds()| == 82 && DefaultBounds()[81] == 60_000_000_000 && DefaultBounds()[k] % MICROSECOND == 0
    ensures DefaultBounds()[k] as real <= Power(k) * 1000.0 < (DefaultBounds()[k] + MICROSECOND) as real
  {
    hide BoundsFrom, Power;
    BucketCount();
    BoundsAreLadder(1.0);
    BoundsFromAt(1.0, k);
    OneTimes(Power(k));
  }

  /** Whole microseconds, toward zero. */
  lemma MicrosIs(d: int)
    ensures d >= 0 ==> 0 <= d - 1000 * Micros(d) < 1000
    ensures d < 0 ==> -1000 < d - 1000 * Micros(d) <= 0
  {
  }

  // ----- buckets and samples

  /** A negative sample counts as 0 and lands in the first bucket, however small its bound. */
  lemma NegativeSample(bounds: seq<int>, x: int)
    requires |bounds| > 0 && x < 0 && bounds[0] >= 0
    ensures BucketOf(bounds, Clamp(x)) == 0
  {
  }

  lemma BucketMonotone(bounds: seq<int>, x: int, y: int)
    requires |bounds| > 0 && x <= y
    ensures BucketOf(bounds, x) <= BucketOf(bounds, y)
  {
    var i, j := BucketOf(bounds, x), BucketOf(bounds, y);
  }

  /** Recording one more sample keeps the counts exact. */
  lemma RecordCounts(bounds: seq<int>, counts: seq<int>, samples: seq<int>, x: int)
    requires |bounds| > 0 && Counts(bounds, counts, samples)
    ensures var i := BucketOf(bounds, Clamp(x)); Counts(bounds, counts[i := counts[i] + 1], samples + [x])
  {
    var k := BucketOf(bounds, Clamp(x));
    forall i | 0 <= i < |counts|
      ensures counts[k := counts[k] + 1][i] == Sum(samples + [x], InBucket(bounds, i))
    {
      SumSnoc(samples, x, InBucket(bounds, i));
    }
  }

  /** Adding two count lists is the count list of the two sample lists together. */
  lemma MergeCounts(bounds: seq<int>, a: seq<int>, b: seq<int>, s: seq<int>, t: seq<int>)
    requires |bounds| > 0 && Counts(bounds, a, s) && Counts(bounds, b, t)
    ensures Counts(bounds, AddCounts(a, b), s + t)
    ensures MergedCounts(a, b) == AddCounts(a, b)
  {
    forall i | 0 <= i < |a|
      ensures AddCounts(a, b)[i] == Sum(s + t, InBucket(bounds, i))
    {
      SumConcat(s, t, InBucket(bounds, i));
    }
  }

  lemma CountsNonNegative(bounds: seq<int>, counts: seq<int>, samples: seq<int>)
    requires |bounds| > 0 && Counts(bounds, counts, samples)
    ensures NonNegative(counts)
  {
    forall i | 0 <= i < |counts|
      ensures counts[i] >= 0
    {
      SumBetween(samples, InBucket(bounds, i), 0, 1);
    }
  }

  /** A prefix of the counts counts the samples below that bucket. */
  lemma {:induction false} PrefixCounts(bounds: seq<int>, counts: seq<int>, samples: seq<int>, k: nat)
    requires |bounds| > 0 && Counts(bounds, counts, samples) && k <= |counts|
    ensures Prefix(counts, k) == Sum(samples, BelowBucket(bounds, k))
  {
    if k == 0 {
      SumBetween(samples, BelowBucket(bounds, 0), 0, 0);
    } else {
      PrefixCounts(bounds, counts, samples, k - 1);
      SumPointwise(samples, BelowBucket(bounds, k), BelowBucket(bounds, k - 1), InBucket(bounds, k - 1));
    }
  }

  lemma TotalCounts(bounds: seq<int>, counts: seq<int>, samples: seq<int>)
    requires |bounds| > 0 && Counts(bounds, counts, samples)
    ensures Total(counts) == |samples|
  {
    PrefixCounts(bounds, counts, samples, |counts|);
    SumBetween(samples, BelowBucket(bounds, |counts|), 1, 1);
  }

  /** A 0/1 count that is zero from position r on is at most r. */
  lemma {:induction false} CountAtMost(s: seq<int>, r: nat, f: int -> int)
    requires r <= |s|
    requires forall i :: 0 <= i < |s| ==> f(s[i]) <= if i < r then 1 else 0
    ensures Sum(s, f) <= r
  {
    if |s| > 0 {
      CountAtMost(s[..|s| - 1], if r == |s| then r - 1 else r, f);
    }
  }

  /** A 0/1 count that is one before position r is at least r. */
  lemma {:induction false} CountAtLeast(s: seq<int>, r: nat, f: int -> int)
    requires r <= |s|
    requires forall i :: 0 <= i < |s| ==> f(s[i]) >= if i < r then 1 else 0
    ensures Sum(s, f) >= r
  {
    if |s| > 0 {
      CountAtLeast(s[..|s| - 1], if r == |s| then r - 1 else r, f);
    }
  }

  /** In a sorted list, exactly the samples before some position are below a given bucket. */
  lemma SortedCrossing(bounds: seq<int>, sorted: seq<int>, r: nat)
    requires |bounds| > 0 && IsSorted(sorted) && r < |sorted|
    ensures var k := BucketOf(bounds, Clamp(sorted[r]));
            Sum(sorted, BelowBucket(bounds, k)) <= r < Sum(sorted, BelowBucket(bounds, k + 1))
  {
    var k := BucketOf(bounds, Clamp(sorted[r]));
    forall i | 0 <= i < |sorted|
      ensures i <= r ==> BelowBucket(bounds, k + 1)(sorted[i]) == 1
      ensures i >= r ==> BelowBucket(bounds, k)(sorted[i]) == 0
    {
      if i <= r {
        BucketMonotone(bounds, Clamp(sorted[i]), Clamp(sorted[r]));
      }
      if i >= r {
        BucketMonotone(bounds, Clamp(sorted[r]), Clamp(sorted[i]));
      }
    }
    CountAtMost(sorted, r, BelowBucket(bounds, k));
    CountAtLeast(sorted, r + 1, BelowBucket(bounds, k + 1));
  }

  /** The r-th smallest of n samples is the one quantile q asks for: the first, the last, or r = ceil(q n). */
  ghost predicate Rank(n: int, q: real, r: int)
  {
    && 1 <= r <= n
    && (q <= 0.0 ==> r == 1) && (q >= 1.0 ==> r == n)
    && (0.0 < q < 1.0 ==> (r - 1) as real < n as real * q <= r as real)
  }

  /** There is exactly one such rank, and it is the one the search looks for. */
  lemma RankExact(n: int, q: real, r: int)
    requires n >= 1
    ensures Rank(n, q, r) <==> r == RankOf(n, q)
  {
    RankInRange(n, q);
    if 0.0 < q < 1.0 {
      CeilExact(n as real * q, r);
    }
  }

  lemma CeilExact(x: real, r: int)
    ensures (r - 1) as real < x <= r as real <==> r == Ceil(x)
  {
  }

  /** An empty histogram answers 0. */
  lemma EmptyQuantile(bounds: seq<int>, counts: seq<int>, q: real)
    requires |bounds| > 0 && Counts(bounds, counts, [])
    ensures QuantileOf(bounds, counts, q) == 0
  {
    TotalCounts(bounds, counts, []);
  }

  /**
   The histogram answers every quantile exactly as the sorted list of all samples would, up to the
   bucket: it returns the bound of the bucket holding the true order statistic of that rank.
   */
  lemma QuantileIsOrderStatistic(bounds: seq<int>, counts: seq<int>, samples: seq<int>, sorted: seq<int>, q: real, rank: int)
    requires |bounds| > 0 && Counts(bounds, counts, samples)
    requires |samples| > 0 && IsSorted(sorted) && multiset(sorted) == multiset(samples)
    requires Rank(|samples|, q, rank)
    ensures |sorted| == |samples|
    ensures QuantileOf(bounds, counts, q) == bounds[BucketOf(bounds, Clamp(sorted[rank - 1]))]
  {
    assert |sorted| == |multiset(sorted)| == |samples|;
    RankExact(|samples|, q, rank);
    var r := rank - 1;
    var k := BucketOf(bounds, Clamp(sorted[r]));
    CountsNonNegative(bounds, counts, samples);
    TotalCounts(bounds, counts, samples);
    SortedCrossing(bounds, sorted, r);
    hide RankOf, Rank;
    SumPerm(sorted, samples, BelowBucket(bounds, k));
    SumPerm(sorted, samples, BelowBucket(bounds, k + 1));
    PrefixCounts(bounds, counts, samples, k);
    PrefixCounts(bounds, counts, samples, k + 1);
    RankIndexCrosses(counts, r + 1, k);
  }

  /** The bound of a sample's own bucket is close above it, unless the sample exceeds 60 s. */
  lemma BucketBoundTight(b: seq<int>, x: int)
    requires Ladder(b) && b[0] == MICROSECOND && x >= 0
    ensures x <= b[BucketOf(b, x)] <==> x <= MAX_BOUND
    ensures 4 * b[BucketOf(b, x)] < 5 * (x + MICROSECOND)
  {
    var k := BucketOf(b, x);
    if k > 0 {
      assert b[k - 1] < x;
    }
  }

  /**
   Error bound of every quantile of a non-empty histogram of non-negative samples: with x the true
   order statistic, x <= Quantile < 1.25 (x + 1us); the left half holds exactly when x is at most 60 s.
   */
  lemma QuantileErrorBound(counts: seq<int>, samples: seq<int>, sorted: seq<int>, q: real, rank: int)
    requires Counts(DefaultBounds(), counts, samples)
    requires |samples| > 0 && IsSorted(sorted) && multiset(sorted) == multiset(samples)
    requires forall x :: x in samples ==> x >= 0
    requires Rank(|samples|, q, rank)
    ensures |sorted| == |samples|
    ensures var x, answer := sorted[rank - 1], QuantileOf(DefaultBounds(), counts, q);
            (x <= answer <==> x <= MAX_BOUND) && 4 * answer < 5 * (x + MICROSECOND)
  {
    QuantileIsOrderStatistic(DefaultBounds(), counts, samples, sorted, q, rank);
    BoundsAreLadder(1.0);
    var x := sorted[rank - 1];
    assert x in multiset(sorted);
    assert x in samples;
    BucketBoundTight(DefaultBounds(), x);
  }

  // ----- monotone in q

  lemma ShareOrder(n: int, p: real, q: real)
    requires n >= 0 && p <= q
    ensures Share(n, p) <= Share(n, q)
  {
    ProductOrder(n as real, p, q);
  }

  lemma ProductOrder(x: real, p: real, q: real)
    requires x >= 0.0 && p <= q
    ensures x * p <= x * q
  {
  }

  lemma CeilMonotone(x: real, y: real)
    requires x <= y
    ensures Ceil(x) <= Ceil(y)
  {
  }

  lemma RankMonotone(n: int, p: real, q: real)
    requires n >= 1 && p <= q
    ensures RankOf(n, p) <= RankOf(n, q)
  {
    hide Ceil, Share;
    RankInRange(n, p);
    RankInRange(n, q);
    if 0.0 < p && q < 1.0 {
      ShareOrder(n, p, q);
      CeilMonotone(Share(n, p), Share(n, q));
    }
  }

  lemma RankIndexMonotone(counts: seq<int>, s: int, t: int)
    requires NonNegative(counts) && |counts| > 0 && 1 <= s <= t <= Total(counts)
    ensures RankIndex(counts, s) <= RankIndex(counts, t)
  {
    RankIndexReaches(counts, s);
    RankIndexReaches(counts, t);
  }

  /** Quantile is monotone in q over all reals, through the special cases q <= 0 and q >= 1. */
  lemma QuantileMonotone(bounds: seq<int>, counts: seq<int>, p: real, q: real)
    requires Ladder(bounds) && |counts| == |bounds| && NonNegative(counts) && p <= q
    ensures QuantileOf(bounds, counts, p) <= QuantileOf(bounds, counts, q)
  {
    var n := Total(counts);
    PrefixMonotone(counts, 0, |counts|);
    if n > 0 {
      RankInRange(n, p);
      RankInRange(n, q);
      RankMonotone(n, p, q);
      RankIndexMonotone(counts, RankOf(n, p), RankOf(n, q));
      LadderSorted(bounds, RankIndex(counts, RankOf(n, p)), RankIndex(counts, RankOf(n, q)));
    }
  }

  // ----- quantiles of merged histograms

  lemma {:induction false} PrefixAdds(a: seq<int>, b: seq<int>, k: nat)
    requires |a| == |b| && k <= |a|
    ensures Prefix(AddCounts(a, b), k) == Prefix(a, k) + Prefix(b, k)
  {
    if k > 0 {
      PrefixAdds(a, b, k - 1);
    }
  }

  /** The ceiling in the target rank does not matter: c reaches the rank iff c >= q n. */
  lemma ReachesRank(c: int, n: int, q: real)
    requires 0.0 < q < 1.0
    ensures c >= RankOf(n, q) <==> c as real >= Share(n, q)
  {
    hide Ceil, Share;
    CeilReached(c, Share(n, q));
  }

  lemma CeilReached(c: int, x: real)
    ensures c >= Ceil(x) <==> c as real >= x
  {
  }

  lemma ShareSum(m: int, n: int, q: real)
    ensures Share(m + n, q) == Share(m, q) + Share(n, q)
  {
  }

  lemma SumsReach(c: int, d: int, x: real, y: real)
    ensures c as real >= x && d as real >= y ==> (c + d) as real >= x + y
    ensures (c as real) < x && (d as real) < y ==> (c + d) as real < x + y
  {
  }

  /** If both parts reach their ranks at a cumulative count, so does the whole; likewise for missing. */
  lemma RanksAdd(m: int, n: int, q: real, c: int, d: int)
    requires m >= 1 && n >= 1
    ensures 0 <= c && 0 <= d && c >= RankOf(m, q) && d >= RankOf(n, q) ==> c + d >= RankOf(m + n, q)
    ensures 0 <= c && 0 <= d && c < RankOf(m, q) && d < RankOf(n, q) ==> c + d < RankOf(m + n, q)
  {
    if 0.0 < q < 1.0 {
      hide RankOf, Share;
      ReachesRank(c, m, q);
      ReachesRank(d, n, q);
      ReachesRank(c + d, m + n, q);
      ShareSum(m, n, q);
      SumsReach(c, d, Share(m, q), Share(n, q));
    }
  }

  lemma AddCountsFacts(a: seq<int>, b: seq<int>)
    requires |a| == |b| && NonNegative(a) && NonNegative(b)
    ensures NonNegative(AddCounts(a, b)) && AddCounts(a, b) == AddCounts(b, a)
    ensures Total(AddCounts(a, b)) == Total(a) + Total(b)
  {
    PrefixAdds(a, b, |a|);
  }

  /** The merged search does not stop later than both parts' searches. */
  lemma MergedIndexUpper(a: seq<int>, b: seq<int>, q: real, i: nat, j: nat)
    requires |a| == |b| && NonNegative(a) && NonNegative(b) && Total(a) > 0 && Total(b) > 0
    requires i <= j < |a| && Prefix(a, i + 1) >= RankOf(Total(a), q) && Prefix(b, j + 1) >= RankOf(Total(b), q)
    ensures RankIndex(AddCounts(a, b), RankOf(Total(a) + Total(b), q)) <= j
  {
    PrefixMonotone(a, i + 1, j + 1);
    PrefixMonotone(b, 0, j + 1);
    PrefixAdds(a, b, j + 1);
    RanksAdd(Total(a), Total(b), q, Prefix(a, j + 1), Prefix(b, j + 1));
  }

  /** The merged search does not stop earlier than both parts' searches. */
  lemma MergedIndexLower(a: seq<int>, b: seq<int>, q: real, i: nat, j: nat)
    requires |a| == |b| && NonNegative(a) && NonNegative(b) && Total(a) > 0 && Total(b) > 0
    requires i <= j < |a| && Prefix(a, i) < RankOf(Total(a), q) && Prefix(b, j) < RankOf(Total(b), q)
    ensures i <= RankIndex(AddCounts(a, b), RankOf(Total(a) + Total(b), q))
  {
    hide *;
    AddCountsFacts(a, b);
    RankInRange(Total(a) + Total(b), q);
    RankIndexReaches(AddCounts(a, b), RankOf(Total(a) + Total(b), q));
    var m := RankIndex(AddCounts(a, b), RankOf(Total(a) + Total(b), q));
    if m < i {
      PrefixMonotone(a, m + 1, i);
      PrefixMonotone(b, m + 1, j);
      PrefixAdds(a, b, m + 1);
      PrefixMonotone(a, 0, m + 1);
      PrefixMonotone(b, 0, m + 1);
      RanksAdd(Total(a), Total(b), q, Prefix(a, m + 1), Prefix(b, m + 1));
    }
  }

  /** Merging moves the quantile's bucket no lower than the lower and no higher than the higher part's. */
  lemma MergedIndexBetween(a: seq<int>, b: seq<int>, q: real)
    requires |a| == |b| && NonNegative(a) && NonNegative(b) && Total(a) > 0 && Total(b) > 0
    ensures var i := RankIndex(a, RankOf(Total(a), q));
            var j := RankIndex(b, RankOf(Total(b), q));
            var m := RankIndex(AddCounts(a, b), RankOf(Total(a) + Total(b), q));
            (i <= m || j <= m) && (m <= i || m <= j)
  {
    hide *;
    AddCountsFacts(a, b);
    RankInRange(Total(a), q);
    RankInRange(Total(b), q);
    RankIndexReaches(a, RankOf(Total(a), q));
    RankIndexReaches(b, RankOf(Total(b), q));
    var i, j := RankIndex(a, RankOf(Total(a), q)), RankIndex(b, RankOf(Total(b), q));
    if i <= j {
      MergedIndexUpper(a, b, q, i, j);
      MergedIndexLower(a, b, q, i, j);
    } else {
      MergedIndexUpper(b, a, q, j, i);
      MergedIndexLower(b, a, q, j, i);
    }
  }

  /** The merge of a list of histograms with the same bounds. */
  function MergeAll(parts: seq<seq<int>>): (r: seq<int>)
    requires |parts| > 0 && forall i :: 0 <= i < |parts| ==> |parts[i]| == |parts[0]|
    ensures |r| == |parts[0]|
    decreases |parts|
  {
    if |parts| == 1 then parts[0] else AddCounts(MergeAll(parts[..|parts| - 1]), parts[|parts| - 1])
  }

  /** All parts are non-empty counts over the same bounds. */
  ghost predicate AllCounted(bounds: seq<int>, parts: seq<seq<int>>)
  {
    forall i :: 0 <= i < |parts| ==> |parts[i]| == |bounds| && NonNegative(parts[i]) && Total(parts[i]) > 0
  }

  /** The parts whose quantiles enclose the merged one. */
  lemma {:induction false} Enclosing(bounds: seq<int>, parts: seq<seq<int>>, q: real) returns (i: nat, j: nat)
    requires Ladder(bounds) && |parts| > 0 && AllCounted(bounds, parts)
    ensures NonNegative(MergeAll(parts)) && Total(MergeAll(parts)) > 0
    ensures i < |parts| && j < |parts|
    ensures QuantileOf(bounds, parts[i], q) <= QuantileOf(bounds, MergeAll(parts), q) <= QuantileOf(bounds, parts[j], q)
    decreases |parts|
  {
    assert |bounds| > 0;
    hide QuantileOf, NonNegative, Total, Ladder;
    var last := |parts| - 1;
    i, j := last, last;
    if |parts| > 1 {
      i, j := Enclosing(bounds, parts[..last], q);
      MergedQuantileBetweenTwo(bounds, MergeAll(parts[..last]), parts[last], q);
      BetweenWidens(QuantileOf(bounds, parts[i], q), QuantileOf(bounds, MergeAll(parts[..last]), q), QuantileOf(bounds, parts[j], q),
                    QuantileOf(bounds, parts[last], q), QuantileOf(bounds, MergeAll(parts), q));
      hide MergeAll;
      i := if QuantileOf(bounds, parts[last], q) <= QuantileOf(bounds, MergeAll(parts), q) then last else i;
      j := if QuantileOf(bounds, MergeAll(parts), q) <= QuantileOf(bounds, parts[last], q) then last else j;
    }
  }

  /** For any number of parts and every q, the merged quantile lies between two of the parts' quantiles. */
  lemma MergedQuantileBetween(bounds: seq<int>, parts: seq<seq<int>>, q: real)
    requires Ladder(bounds) && |parts| > 0 && AllCounted(bounds, parts)
    ensures NonNegative(MergeAll(parts)) && Total(MergeAll(parts)) > 0
    ensures exists i, j :: 0 <= i < |parts| && 0 <= j < |parts| &&
              QuantileOf(bounds, parts[i], q) <= QuantileOf(bounds, MergeAll(parts), q) <= QuantileOf(bounds, parts[j], q)
  {
    var i, j := Enclosing(bounds, parts, q);
  }

  lemma BetweenWidens(lo: int, m: int, hi: int, x: int, merged: int)
    requires lo <= m <= hi && (m <= merged <= x || x <= merged <= m)
    ensures (x <= merged || lo <= merged) && (merged <= x || merged <= hi)
  {
  }

  lemma MergedQuantileBetweenTwo(bounds: seq<int>, a: seq<int>, b: seq<int>, q: real)
    requires Ladder(bounds) && |a| == |b| == |bounds|
    requires NonNegative(a) && NonNegative(b) && Total(a) > 0 && Total(b) > 0
    ensures NonNegative(AddCounts(a, b)) && Total(AddCounts(a, b)) > 0
    ensures var x := QuantileOf(bounds, a, q);
            var y := QuantileOf(bounds, b, q);
            var z := QuantileOf(bounds, AddCounts(a, b), q);
            (x <= z || y <= z) && (z <= x || z <= y)
  {
    AddCountsFacts(a, b);
    MergedIndexBetween(a, b, q);
    hide RankIndex, RankOf, AddCounts, Total, NonNegative;
    var i := RankIndex(a, RankOf(Total(a), q));
    var j := RankIndex(b, RankOf(Total(b), q));
    var m := RankIndex(AddCounts(a, b), RankOf(Total(a) + Total(b), q));
    forall s: nat, t: nat | s <= t < |bounds|
      ensures bounds[s] <= bounds[t]
    {
      LadderSorted(bounds, s, t);
    }
  }
}
