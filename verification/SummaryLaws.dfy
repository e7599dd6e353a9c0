/** What the final report says about the results behind it, central or merged. */
module SummaryLaws {
  import opened Durations
  import opened Sequences
  import opened Ranges
  import opened Histograms
  import opened HistogramLaws
  import opened Collectors
  import opened CollectorLaws
  import opened Aggregation
  import opened AggregationLaws

  // ----- truncating division

  /** A quotient lies between two integers if the dividend lies between their products. */
  lemma QuotientBetween(a: int, b: int, lo: int, hi: int)
    requires b > 0 && lo * b <= a <= hi * b
    ensures lo <= Quotient(a, b) <= hi
  {
    if a >= 0 {
      DivisionBetween(a, b, lo, hi);
    } else {
      assert (-hi) * b == -(hi * b) && (-lo) * b == -(lo * b);
      DivisionBetween(-a, b, -hi, -lo);
    }
  }

  lemma DivisionBetween(a: int, b: int, lo: int, hi: int)
    requires a >= 0 && b > 0 && lo * b <= a <= hi * b
    ensures lo <= a / b <= hi
  {
    var q := a / b;
    assert q * b <= a < q * b + b;
    if q < lo {
      MulOrder(q + 1, lo, b);
      MulSuccessor(q, b);
    }
    if q > hi {
      MulOrder(hi + 1, q, b);
      MulSuccessor(hi, b);
    }
  }

  lemma MulSuccessor(n: int, c: int)
    ensures (n + 1) * c == n * c + c
  {
  }

  // ----- one collector

  lemma LatencyBetween(rs: seq<RunResult>, lo: int, hi: int)
    requires forall x :: x in LatenciesOf(rs) ==> lo <= x <= hi
    ensures lo * |rs| <= TimeIn(rs, LatencyTime) <= hi * |rs|
  {
    forall r | r in rs
      ensures lo <= Elapsed(LatencyTime)(r) <= hi
    {
      var i :| 0 <= i < |rs| && rs[i] == r;
      assert LatenciesOf(rs)[i] == r.latency && r.latency in LatenciesOf(rs);
      assert ElapsedOf(LatencyTime, r) == r.latency;
    }
    SumBetween(rs, Elapsed(LatencyTime), lo, hi);
  }

  ghost predicate Ordered(p: Percentiles)
  {
    p.p50 <= p.p90 <= p.p95 <= p.p99
  }

  lemma PercentilesOrdered(bounds: seq<int>, counts: seq<int>)
    requires Ladder(bounds) && |counts| == |bounds| && NonNegative(counts)
    ensures Ordered(PercentilesOf(bounds, counts))
  {
    hide QuantileOf;
    QuantileMonotone(bounds, counts, 0.50, 0.90);
    QuantileMonotone(bounds, counts, 0.90, 0.95);
    QuantileMonotone(bounds, counts, 0.95, 0.99);
  }

  lemma ExactTotals(s: CollectorState, rs: seq<RunResult>)
    requires Represents(s, rs)
    ensures s.latency.requests == |rs| && s.outcome.successes + s.outcome.failures == |rs|
    ensures s.latency.total == TimeIn(rs, LatencyTime)
    ensures IsLeast(s.latency.min, LatenciesOf(rs)) && IsGreatest(s.latency.max, LatenciesOf(rs))
  {
    hide Represents, Tally, TimeIn, LatenciesOf, SamplesOf, IsLeast, IsGreatest;
    RequestsCounted(rs);
    CountExact(s, rs, Requests);
    CountExact(s, rs, Successes);
    CountExact(s, rs, Failures);
    TimeExact(s, rs, LatencyTime);
    ExtremesExact(s, rs);
  }

  /** Every percentile group of an exact collector is in order. */
  lemma SeriesOrdered(series: Series, s: CollectorState, rs: seq<RunResult>)
    requires Represents(s, rs)
    ensures |CountsFor(s, series)| == |s.bounds| > 0 && Ordered(PercentilesOf(s.bounds, CountsFor(s, series)))
  {
    RepresentedCounts(series, s, rs);
    hide BoundsFrom, QuantileOf, PercentilesOf, SamplesOf;
    BoundsAreLadder(1.0);
    CountsNonNegative(DefaultBounds(), CountsFor(s, series), SamplesOf(series, rs));
    PercentilesOrdered(s.bounds, CountsFor(s, series));
  }

  lemma LatencyAverage(s: CollectorState, rs: seq<RunResult>)
    requires Represents(s, rs) && |rs| > 0
    ensures s.latency.requests == |rs| && s.latency.min <= Quotient(s.latency.total, |rs|) <= s.latency.max
  {
    ExactTotals(s, rs);
    SizeOfLatencies(rs);
    hide Represents, TimeIn, LatenciesOf;
    LatencyBetween(rs, s.latency.min, s.latency.max);
    QuotientBetween(s.latency.total, |rs|, s.latency.min, s.latency.max);
  }

  function Itself(): int -> int
  {
    (x: int) => x
  }

  /** The times to first token are counted and summed once each. */
  lemma {:induction false} TTFTSamples(rs: seq<RunResult>)
    ensures |SamplesOf(FirstTokens, rs)| == Tally(rs, WithTTFT) && Sum(SamplesOf(FirstTokens, rs), Itself()) == TimeIn(rs, TTFTTime)
  {
    if |rs| > 0 {
      var init, last := rs[..|rs| - 1], rs[|rs| - 1];
      TTFTSamples(init);
      SumConcat(SamplesOf(FirstTokens, init), SamplesIn(FirstTokens, last), Itself());
      SumOne(last.ttft, Itself());
    }
  }

  lemma TTFTBetween(rs: seq<RunResult>, lo: int, hi: int)
    requires forall x :: x in SamplesOf(FirstTokens, rs) ==> lo <= x <= hi
    ensures lo * Tally(rs, WithTTFT) <= TimeIn(rs, TTFTTime) <= hi * Tally(rs, WithTTFT)
  {
    hide SamplesOf, Tally, TimeIn, Sum;
    TTFTSamples(rs);
    SumBetween(SamplesOf(FirstTokens, rs), Itself(), lo, hi);
  }

  lemma TTFTAverage(s: CollectorState, rs: seq<RunResult>)
    requires Represents(s, rs) && s.ttft.requests > 0
    ensures s.ttft.min <= Quotient(s.ttft.total, s.ttft.requests) <= s.ttft.max
  {
    hide *;
    TTFTFacts(s, rs);
    TTFTBetween(rs, s.ttft.min, s.ttft.max);
    QuotientBetween(s.ttft.total, s.ttft.requests, s.ttft.min, s.ttft.max);
  }

  lemma TTFTFacts(s: CollectorState, rs: seq<RunResult>)
    requires Represents(s, rs)
    ensures s.ttft.requests == Tally(rs, WithTTFT) && s.ttft.total == TimeIn(rs, TTFTTime)
    ensures forall x :: x in SamplesOf(FirstTokens, rs) ==> s.ttft.min <= x <= s.ttft.max
  {
    hide Represents, SamplesOf, LatenciesOf, Tally, TimeIn;
    CountExact(s, rs, WithTTFT);
    TimeExact(s, rs, TTFTTime);
    ExtremesExact(s, rs);
  }

  lemma RatioBetween(a: int, b: int)
    requires 0 <= a <= b
    ensures 0.0 <= Ratio(a, b) <= 1.0 && Ratio(a, b) * b as real == a as real
  {
  }

  lemma RateBack(n: int, duration: int)
    requires duration > 0
    ensures n as real / (duration as real / SECOND as real) * duration as real == n as real * SECOND as real
  {
  }

  lemma ExactParts(s: CollectorState, rs: seq<RunResult>)
    requires Represents(s, rs)
    ensures 0 <= s.outcome.failures <= |rs| && 0 <= s.origin.cacheHits <= s.origin.cacheRequests
  {
    hide Represents, Tally;
    TalliesWithin(rs);
    CountExact(s, rs, Failures);
    CountExact(s, rs, CacheHits);
    CountExact(s, rs, CacheRequests);
  }

  lemma TalliesWithin(rs: seq<RunResult>)
    ensures 0 <= Tally(rs, Failures) <= |rs| && 0 <= Tally(rs, CacheHits) <= Tally(rs, CacheRequests)
  {
    SumBetween(rs, Weight(Failures), 0, 1);
    SumBetween(rs, Weight(CacheHits), 0, 1);
    SumAtMost(rs, Weight(CacheHits), Weight(CacheRequests));
  }

  lemma RatesWithin(s: CollectorState, price: real, duration: int, avgLatency: int)
    requires s.latency.requests > 0 && 0 <= s.outcome.failures <= s.latency.requests && 0 <= s.origin.cacheHits <= s.origin.cacheRequests
    ensures var n, rates := s.latency.requests, RatesOf(s, price, duration, avgLatency);
            && 0.0 <= rates.errorRate <= 1.0 && rates.errorRate * n as real == s.outcome.failures as real
            && 0.0 <= rates.cacheHitRate <= 1.0
            && (duration > 0 ==> rates.perSecond * duration as real == n as real * SECOND as real)
  {
    var n := s.latency.requests;
    RatioBetween(s.outcome.failures, n);
    if s.origin.cacheRequests > 0 {
      RatioBetween(s.origin.cacheHits, s.origin.cacheRequests);
    }
    if duration > 0 {
      RateBack(n, duration);
    }
    assert RatesOf(s, price, duration, avgLatency).errorRate == Ratio(s.outcome.failures, n);
    hide AvgUpstream, Ratio;
  }

  lemma SummaryRates(s: CollectorState, rs: seq<RunResult>, price: real)
    requires Represents(s, rs) && |rs| > 0
    ensures Shaped(s)
    ensures var y := SummaryOf(s, price);
            && 0.0 <= y.rates.errorRate <= 1.0 && y.rates.errorRate * |rs| as real == y.failedRequests as real
            && 0.0 <= y.rates.cacheHitRate <= 1.0
            && (y.duration > 0 ==> y.rates.perSecond * y.duration as real == |rs| as real * SECOND as real)
  {
    hide *;
    ExactTotals(s, rs);
    ExactParts(s, rs);
    ShapedIf(s, rs);
    SummaryFields(s, price);
    var y := SummaryOf(s, price);
    RatesWithin(s, price, y.duration, y.avgLatency);
  }

  lemma ShapedIf(s: CollectorState, rs: seq<RunResult>)
    requires Represents(s, rs)
    ensures Shaped(s)
  {
  }

  lemma SummaryFields(s: CollectorState, price: real)
    requires Shaped(s) && s.latency.requests > 0
    ensures var y := SummaryOf(s, price);
            && y.totalRequests == s.latency.requests && y.successfulRequests == s.outcome.successes && y.failedRequests == s.outcome.failures
            && y.minLatency == s.latency.min && y.maxLatency == s.latency.max && y.avgLatency == Quotient(s.latency.total, s.latency.requests)
            && y.avgTTFT == (if s.ttft.requests > 0 then Quotient(s.ttft.total, s.ttft.requests) else 0)
            && y.percentiles == PercentilesOf(s.bounds, s.latency.counts)
            && y.ttftPercentiles == (if s.ttft.requests > 0 then PercentilesOf(s.bounds, s.ttft.counts) else NO_PERCENTILES)
            && y.itlPercentiles == (if Total(s.itl) > 0 then PercentilesOf(s.bounds, s.itl) else NO_PERCENTILES)
            && y.duration == s.window.end - s.window.start
            && y.rates == RatesOf(s, price, y.duration, y.avgLatency)
  {
    hide Quotient, PercentilesOf, ExtrasOf, RatesOf;
  }

  /**
   The report of any results: it counts them all, successes plus failures make the total, the average
   latency and the average time to first token lie between their extremes, and the percentiles of
   latencies, times to first token and gaps are in order.
   */
  lemma SummaryExact(s: CollectorState, rs: seq<RunResult>, price: real)
    requires Represents(s, rs) && |rs| > 0
    ensures Shaped(s)
    ensures var y := SummaryOf(s, price);
            && y.totalRequests == |rs| && y.successfulRequests + y.failedRequests == |rs|
            && y.minLatency <= y.avgLatency <= y.maxLatency
            && (s.ttft.requests > 0 ==> s.ttft.min <= y.avgTTFT <= s.ttft.max)
            && Ordered(y.percentiles) && Ordered(y.ttftPercentiles) && Ordered(y.itlPercentiles)
  {
    hide Represents, Quotient, PercentilesOf, RatesOf, ExtrasOf;
    ShapedIf(s, rs);
    ExactTotals(s, rs);
    LatencyAverage(s, rs);
    if s.ttft.requests > 0 {
      TTFTAverage(s, rs);
    }
    SeriesOrdered(Latencies, s, rs);
    SeriesOrdered(FirstTokens, s, rs);
    SeriesOrdered(Gaps, s, rs);
    SummaryFields(s, price);
    hide SummaryOf, Shaped;
  }

  // ----- merged collectors

  /** Losing at most 999 a request off the dividend takes at most 999 off the quotient. */
  lemma QuotientLoss(a: int, a': int, n: int)
    requires n > 0 && a' >= 0 && 0 <= a - a' <= 999 * n
    ensures 0 <= Quotient(a, n) - Quotient(a', n) <= 999
  {
    var q := a' / n;
    assert q * n <= a' < q * n + n;
    assert (q + 1000) * n == q * n + 1000 * n && (q + 999) * n == q * n + 999 * n;
    assert q * n <= a < (q + 1000) * n;
    QuotientStep(a, n, q, q + 999);
  }

  lemma QuotientStep(a: int, n: int, lo: int, hi: int)
    requires a >= 0 && n > 0 && lo * n <= a < (hi + 1) * n
    ensures lo <= a / n <= hi
  {
    var q := a / n;
    assert q * n <= a < q * n + n;
    if q < lo {
      MulOrder(q + 1, lo, n);
      MulSuccessor(q, n);
    }
    if q > hi {
      MulOrder(hi + 1, q, n);
    }
  }

  lemma FloorNear(d: int)
    ensures d <= Floor(d) + 999
  {
  }

  lemma FloorAdds(a: int, b: int)
    requires a >= 0 && b >= 0
    ensures 0 <= Floor(b) && Floor(a) + Floor(b) <= Floor(a + b) && b - 999 <= Floor(b) <= b
  {
  }

  lemma OneMore(m: CollectorState, t: CollectorState)
    ensures Merge(m, SnapshotOf(t)).latency.total == m.latency.total + if t.latency.requests == 0 then 0 else Floor(t.latency.total)
  {
    hide AddMaps, MergedCounts;
  }

  /** One more collector loses at most 999 ns a request, and never gains on rounding everything at once. */
  lemma TotalStep(before: int, soFar: int, n: nat, t: CollectorState, shard: seq<RunResult>)
    requires Represents(t, shard) && NonNegativeLatencies(shard)
    requires 0 <= before <= Floor(soFar) && soFar >= 0 && soFar - before <= 999 * n
    ensures var after := before + if t.latency.requests == 0 then 0 else Floor(t.latency.total);
            var all := soFar + TimeIn(shard, LatencyTime);
            0 <= after <= Floor(all) && all >= 0 && all - after <= 999 * (n + |shard|)
  {
    NoTime(shard);
    hide *;
    ExactTotals(t, shard);
    TimesNonNegative(shard, LatencyTime);
    FloorAdds(soFar, t.latency.total);
  }

  lemma NoTime(rs: seq<RunResult>)
    ensures |rs| == 0 ==> TimeIn(rs, LatencyTime) == 0
  {
  }

  /** The merged total is at most the true total at microsecond floor, and short of it by at most 999 ns a request. */
  lemma {:induction false} MergedTotalWithin(ts: seq<CollectorState>, shards: seq<seq<RunResult>>)
    requires Shards(ts, shards) && NonNegativeLatencies(Flatten(shards))
    ensures var m, total := MergeStates(ts).latency.total, TimeIn(Flatten(shards), LatencyTime);
            0 <= m <= Floor(total) && total >= 0 && total - m <= 999 * |Flatten(shards)|
    decreases |ts|
  {
    hide *;
    if |ts| > 0 {
      var k := |ts| - 1;
      LastShard(ts, shards, k);
      LastMerged(ts);
      MergedTotalWithin(ts[..k], shards[..k]);
      OneMore(MergeStates(ts[..k]), ts[k]);
      TotalStep(MergeStates(ts[..k]).latency.total, TimeIn(Flatten(shards[..k]), LatencyTime), |Flatten(shards[..k])|, ts[k], shards[k]);
      TimeConcat(Flatten(shards[..k]), shards[k]);
    } else {
      NothingMerged(ts, shards);
    }
  }

  lemma LastMerged(ts: seq<CollectorState>)
    requires |ts| > 0
    ensures var k := |ts| - 1; MergeStates(ts) == Merge(MergeStates(ts[..k]), SnapshotOf(ts[k]))
  {
    hide Merge, SnapshotOf;
  }

  lemma NothingMerged(ts: seq<CollectorState>, shards: seq<seq<RunResult>>)
    requires |ts| == 0 && Shards(ts, shards)
    ensures MergeStates(ts).latency.total == 0 && |Flatten(shards)| == 0
    ensures TimeIn(Flatten(shards), LatencyTime) == 0 && Floor(0) == 0
  {
    hide BoundsFrom;
  }

  lemma TimeConcat(a: seq<RunResult>, b: seq<RunResult>)
    ensures TimeIn(a + b, LatencyTime) == TimeIn(a, LatencyTime) + TimeIn(b, LatencyTime)
  {
    SumConcat(a, b, Elapsed(LatencyTime));
  }

  /** What a merged report's average and maximum are made of. */
  lemma MergedParts(ts: seq<CollectorState>, shards: seq<seq<RunResult>>, all: seq<RunResult>, s: CollectorState)
    requires Shards(ts, shards) && Dealt(all, shards) && Represents(s, all) && NonNegativeLatencies(all)
    ensures Shaped(s) && s.latency.requests == |all| && s.latency.total >= 0
    ensures var m := MergeStates(ts);
            && Shaped(m) && m.latency.requests == |all| && m.latency.max == Floor(s.latency.max)
            && 0 <= m.latency.total <= Floor(s.latency.total) && s.latency.total - m.latency.total <= 999 * |all|
  {
    var flat := Flatten(shards);
    hide SameCounts, CarriedMinima, MinimumKept, Named, SomeEstimate, SamplesOf;
    DistributedIsCentral(ts, shards, all, s);
    SameRequests(MergeStates(ts), s);
    DealtNonNegative(all, shards);
    MergedTotalWithin(ts, shards);
    ExactTotals(s, all);
    hide Represents, Shards, MergeStates, Floor;
    SumPerm(all, flat, Elapsed(LatencyTime));
    assert |multiset(all)| == |all| && |multiset(flat)| == |flat|;
  }

  lemma SameRequests(m: CollectorState, s: CollectorState)
    requires SameCounts(m, s)
    ensures m.latency.requests == s.latency.requests
  {
  }

  lemma AverageOf(s: CollectorState, price: real)
    requires Shaped(s) && s.latency.requests > 0
    ensures SummaryOf(s, price).avgLatency == Quotient(s.latency.total, s.latency.requests)
    ensures SummaryOf(s, price).maxLatency == s.latency.max
  {
    hide PercentilesOf, ExtrasOf, RatesOf, Quotient;
  }

  /**
   The average a merged report shows is at most 999 ns below the central one, for any number of
   workers; against the merged maximum, which is floored, it can be up to 999 ns above.
   */
  lemma MergedAverage(ts: seq<CollectorState>, shards: seq<seq<RunResult>>, all: seq<RunResult>, s: CollectorState, price: real)
    requires Shards(ts, shards) && Dealt(all, shards) && Represents(s, all) && NonNegativeLatencies(all) && |all| > 0
    ensures Shaped(MergeStates(ts)) && Shaped(s)
    ensures 0 <= SummaryOf(s, price).avgLatency - SummaryOf(MergeStates(ts), price).avgLatency <= 999
    ensures SummaryOf(MergeStates(ts), price).avgLatency <= SummaryOf(MergeStates(ts), price).maxLatency + 999
  {
    MergedParts(ts, shards, all, s);
    LatencyAverage(s, all);
    AverageOf(s, price);
    AverageOf(MergeStates(ts), price);
    FloorNear(s.latency.max);
    FloorBelow(s.latency.total, MergeStates(ts).latency.total);
    hide *;
    QuotientLoss(s.latency.total, MergeStates(ts).latency.total, |all|);
  }

  lemma FloorBelow(d: int, m: int)
    requires d >= 0 && 0 <= m <= Floor(d)
    ensures m <= d
  {
  }

  /** "The average is at most the maximum", in terms of the total. */
  lemma AverageWithin(total: int, n: int, max: int)
    requires total >= 0 && n > 0
    ensures Quotient(total, n) <= max <==> total < n * (max + 1)
  {
    var q := total / n;
    assert q * n <= total < q * n + n;
    MulSuccessor(q, n);
    MulOrder(q + 1, max + 1, n);
    MulOrder(max + 1, q, n);
    assert (max + 1) * n == n * (max + 1);
    assert q <= max <==> total < (max + 1) * n;
  }

  /** Whatever way the results are dealt out, the merged report's average is at most its maximum. */
  ghost predicate AverageKept(all: seq<RunResult>, price: real)
  {
    forall ts: seq<CollectorState>, shards: seq<seq<RunResult>> :: Shards(ts, shards) && Dealt(all, shards) ==>
      AverageAtMost(MergeStates(ts), price)
  }

  ghost predicate AverageAtMost(m: CollectorState, price: real)
  {
    Shaped(m) && SummaryOf(m, price).avgLatency <= SummaryOf(m, price).maxLatency
  }

  /**
   The merged average never exceeds the merged maximum, however the results are dealt out, exactly if
   the central total, at microsecond floor, is below n times (the floored maximum plus 1 ns): one
   worker is the worst case.
   */
  lemma AverageExact(all: seq<RunResult>, s: CollectorState, price: real)
    requires Represents(s, all) && NonNegativeLatencies(all) && |all| > 0
    ensures AverageKept(all, price) <==> Floor(s.latency.total) < |all| * (Floor(s.latency.max) + 1)
  {
    var bound := |all| * (Floor(s.latency.max) + 1);
    hide Represents, Shards, Dealt, MergeStates, Floor, SummaryOf;
    if Floor(s.latency.total) < bound {
      forall ts: seq<CollectorState>, shards: seq<seq<RunResult>> | Shards(ts, shards) && Dealt(all, shards)
        ensures AverageAtMost(MergeStates(ts), price)
      {
        MergedParts(ts, shards, all, s);
        AverageOf(MergeStates(ts), price);
        AverageWithin(MergeStates(ts).latency.total, |all|, Floor(s.latency.max));
      }
    } else {
      OneMerged(s, all);
      AverageOf(MergeStates([s]), price);
      AverageWithin(Floor(s.latency.total), |all|, Floor(s.latency.max));
      assert !AverageAtMost(MergeStates([s]), price);
    }
  }

  /** One worker, two requests of 1.5us each: the merged report's average is above its maximum. */
  lemma AverageAboveMaximum()
    ensures var t := FoldResults([Sample(1_500), Sample(1_500)]);
            && Represents(t, [Sample(1_500), Sample(1_500)])
            && var m := MergeStates([t]);
               Shaped(m) && SummaryOf(m, 0.0).avgLatency == 1_500 && SummaryOf(m, 0.0).maxLatency == 1_000
  {
    var rs := [Sample(1_500), Sample(1_500)];
    var t := FoldResults(rs);
    FoldRepresents(rs);
    TwoSamples(1_500, t);
    hide Represents, FoldResults, Shards, Dealt;
    OneMerged(t, rs);
    hide MergeStates;
    SummaryOfTwo(MergeStates([t]));
    hide *;
  }

  lemma SummaryOfTwo(m: CollectorState)
    requires Shaped(m) && m.latency.requests == 2 && m.latency.total == Floor(3_000) && m.latency.max == Floor(1_500)
    ensures SummaryOf(m, 0.0).avgLatency == 1_500 && SummaryOf(m, 0.0).maxLatency == 1_000
  {
    AverageOf(m, 0.0);
    hide SummaryOf;
  }

  lemma TwoSamples(d: int, t: CollectorState)
    requires d >= 0 && Represents(t, [Sample(d), Sample(d)])
    ensures t.latency.requests == 2 && t.latency.total == 2 * d && t.latency.max == d
    ensures NonNegativeLatencies([Sample(d), Sample(d)])
  {
    var rs := [Sample(d), Sample(d)];
    ExactTotals(t, rs);
    hide Represents;
    assert rs == [Sample(d)] + [Sample(d)];
    SumSnoc([Sample(d)], Sample(d), Elapsed(LatencyTime));
    SumOne(Sample(d), Elapsed(LatencyTime));
    assert LatenciesOf(rs) == [d, d];
  }

  /** One worker with all the results. */
  lemma OneMerged(t: CollectorState, rs: seq<RunResult>)
    requires Represents(t, rs) && NonNegativeLatencies(rs) && |rs| > 0
    ensures Shards([t], [rs]) && Dealt(rs, [rs])
    ensures var m := MergeStates([t]);
            && Shaped(m) && m.latency.total == Floor(t.latency.total) && m.latency.requests == |rs| && m.latency.total >= 0
            && m.latency.max == Floor(t.latency.max)
  {
    FlattenOne(rs);
    ExactTotals(t, rs);
    hide Represents, Flatten, Floor;
    assert Shards([t], [rs]) && Dealt(rs, [rs]);
    MergedParts([t], [rs], rs, t);
    OneTotal(t);
  }

  lemma OneTotal(t: CollectorState)
    requires t.latency.requests > 0
    ensures MergeStates([t]).latency.total == Floor(t.latency.total)
  {
    hide BoundsFrom, AddMaps, MergedCounts;
    assert [t][..0] == [];
  }
}
