/** What each figure of the final report means, in terms of the results behind it. */
module SummaryFigures {
  import opened Durations
  import opened Sequences
  import opened Histograms
  import opened HistogramLaws
  import opened Collectors
  import opened CollectorLaws
  import opened Aggregation
  import opened AggregationLaws
  import opened SummaryLaws

  // ----- percentiles

  /** The value is what quantile q of these samples asks for, up to its bucket. */
  ghost predicate Estimates(value: int, samples: seq<int>, q: real)
  {
    forall sorted, rank {:trigger IsSorted(sorted), Rank(|samples|, q, rank)} ::
      IsSorted(sorted) && multiset(sorted) == multiset(samples) && Rank(|samples|, q, rank) ==> Close(value, sorted, rank)
  }

  /** x <= value < 1.25 (x + 1us), with x the sample of this rank; the left half for x up to 60 s. */
  ghost predicate Close(value: int, sorted: seq<int>, rank: int)
  {
    1 <= rank <= |sorted| && (sorted[rank - 1] <= value <==> sorted[rank - 1] <= MAX_BOUND) && 4 * value < 5 * (sorted[rank - 1] + MICROSECOND)
  }

  /** The four percentiles are those of these samples, each the quantile its name says; all 0 if there is none. */
  ghost predicate PercentilesFor(p: Percentiles, samples: seq<int>)
  {
    if samples == [] then p == Percentiles(0, 0, 0, 0)
    else Estimates(p.p50, samples, 0.50) && Estimates(p.p90, samples, 0.90) && Estimates(p.p95, samples, 0.95) && Estimates(p.p99, samples, 0.99)
  }

  lemma QuantileEstimates(counts: seq<int>, samples: seq<int>, q: real)
    requires Counts(DefaultBounds(), counts, samples) && |samples| > 0 && forall x :: x in samples ==> x >= 0
    ensures Estimates(QuantileOf(DefaultBounds(), counts, q), samples, q)
  {
    hide QuantileOf, BoundsFrom;
    forall sorted, rank | IsSorted(sorted) && multiset(sorted) == multiset(samples) && Rank(|samples|, q, rank)
      ensures Close(QuantileOf(DefaultBounds(), counts, q), sorted, rank)
    {
      QuantileErrorBound(counts, samples, sorted, q, rank);
    }
  }

  /** The percentiles of a series of an exact collector. */
  lemma SeriesPercentiles(series: Series, s: CollectorState, rs: seq<RunResult>)
    requires Represents(s, rs) && NonNegativeLatencies(rs)
    ensures |CountsFor(s, series)| == |s.bounds| > 0
    ensures PercentilesFor(PercentilesOf(s.bounds, CountsFor(s, series)), SamplesOf(series, rs))
  {
    RepresentedCounts(series, s, rs);
    SeriesNonNegative(series, rs);
    hide BoundsFrom, QuantileOf, SamplesOf, Counts, Estimates;
    var counts, samples := CountsFor(s, series), SamplesOf(series, rs);
    if samples == [] {
      forall q: real
        ensures QuantileOf(DefaultBounds(), counts, q) == 0
      {
        EmptyQuantile(DefaultBounds(), counts, q);
      }
    } else {
      QuantileEstimates(counts, samples, 0.50);
      QuantileEstimates(counts, samples, 0.90);
      QuantileEstimates(counts, samples, 0.95);
      QuantileEstimates(counts, samples, 0.99);
    }
  }

  /** Each percentile of the report of any results, for latencies, times to first token and gaps. */
  lemma SummaryPercentiles(s: CollectorState, rs: seq<RunResult>, price: real)
    requires Represents(s, rs) && |rs| > 0 && NonNegativeLatencies(rs)
    ensures Shaped(s)
    ensures var y := SummaryOf(s, price);
            && PercentilesFor(y.percentiles, SamplesOf(Latencies, rs))
            && PercentilesFor(y.ttftPercentiles, SamplesOf(FirstTokens, rs))
            && PercentilesFor(y.itlPercentiles, SamplesOf(Gaps, rs))
  {
    hide Represents, SamplesOf, PercentilesOf, PercentilesFor, Tally;
    ShapedIf(s, rs);
    ExactTotals(s, rs);
    SummaryFields(s, price);
    SeriesPercentiles(Latencies, s, rs);
    SeriesPercentiles(FirstTokens, s, rs);
    SeriesPercentiles(Gaps, s, rs);
    NoFirstTokens(s, rs);
    NoGaps(s, rs);
    NoSamples();
    hide SummaryOf, Shaped;
  }

  lemma NoSamples()
    ensures PercentilesFor(NO_PERCENTILES, [])
  {
  }

  lemma NoFirstTokens(s: CollectorState, rs: seq<RunResult>)
    requires Represents(s, rs)
    ensures s.ttft.requests <= 0 ==> SamplesOf(FirstTokens, rs) == []
  {
    hide Represents, SamplesOf, Tally;
    CountExact(s, rs, WithTTFT);
    TTFTSamples(rs);
  }

  lemma NoGaps(s: CollectorState, rs: seq<RunResult>)
    requires Represents(s, rs)
    ensures Total(s.itl) <= 0 ==> SamplesOf(Gaps, rs) == []
  {
    hide Represents, SamplesOf, Total, BoundsFrom;
    RepresentedCounts(Gaps, s, rs);
    TotalCounts(DefaultBounds(), s.itl, SamplesOf(Gaps, rs));
  }

  /** Of the gaps of a result exactly the positive ones are samples. */
  lemma {:induction false} PositiveIs(samples: seq<int>, x: int)
    ensures multiset(Positive(samples))[x] == if x > 0 then multiset(samples)[x] else 0
  {
    if |samples| > 0 {
      var init, last := samples[..|samples| - 1], samples[|samples| - 1];
      PositiveIs(init, x);
      assert samples == init + [last];
    }
  }

  // ----- averages

  /** The whole part of total / n. */
  predicate Mean(mean: int, total: int, n: int)
  {
    if n > 0 then mean * n <= total < mean * n + n else mean == 0
  }

  lemma QuotientMean(total: int, n: int)
    requires total >= 0 && n > 0
    ensures Mean(Quotient(total, n), total, n)
  {
  }

  /** The three averages, and the backend overhead, which is what the upstream average leaves of the latency. */
  lemma SummaryMeans(s: CollectorState, rs: seq<RunResult>, price: real)
    requires Represents(s, rs) && |rs| > 0 && NonNegativeLatencies(rs)
    ensures Shaped(s)
    ensures var y := SummaryOf(s, price);
            && Mean(y.avgLatency, TimeIn(rs, LatencyTime), |rs|)
            && Mean(y.avgTTFT, TimeIn(rs, TTFTTime), Tally(rs, WithTTFT))
            && Mean(y.extras.avgUpstream, TimeIn(rs, UpstreamTime), Tally(rs, WithUpstream))
            && (if y.avgLatency > 0 && y.extras.avgUpstream > 0 then y.extras.avgOverhead + y.extras.avgUpstream == y.avgLatency
                else y.extras.avgOverhead == 0)
  {
    hide Represents, Quotient, PercentilesOf, RatesOf, TimeIn, Tally;
    ShapedIf(s, rs);
    ExactTotals(s, rs);
    SummaryFields(s, price);
    TimeExact(s, rs, TTFTTime);
    TimeExact(s, rs, UpstreamTime);
    CountExact(s, rs, WithTTFT);
    CountExact(s, rs, WithUpstream);
    TimesNonNegative(rs, LatencyTime);
    TimesNonNegative(rs, TTFTTime);
    TimesNonNegative(rs, UpstreamTime);
    TalliesNonNegative(rs);
    hide *;
    MeansOf(s, price);
  }

  lemma TalliesNonNegative(rs: seq<RunResult>)
    ensures Tally(rs, WithTTFT) >= 0 && Tally(rs, WithUpstream) >= 0 && Tally(rs, WithTokens) >= 0
  {
    SumBetween(rs, Weight(WithTTFT), 0, 1);
    SumBetween(rs, Weight(WithUpstream), 0, 1);
    SumBetween(rs, Weight(WithTokens), 0, 1);
  }

  lemma MeansOf(s: CollectorState, price: real)
    requires Shaped(s) && s.latency.requests > 0 && s.latency.total >= 0 && s.ttft.total >= 0 && s.upstream.total >= 0
    requires s.ttft.requests >= 0 && s.upstream.requests >= 0
    ensures var y := SummaryOf(s, price);
            && Mean(y.avgLatency, s.latency.total, s.latency.requests)
            && Mean(y.avgTTFT, s.ttft.total, s.ttft.requests)
            && Mean(y.extras.avgUpstream, s.upstream.total, s.upstream.requests)
            && (if y.avgLatency > 0 && y.extras.avgUpstream > 0 then y.extras.avgOverhead + y.extras.avgUpstream == y.avgLatency
                else y.extras.avgOverhead == 0)
  {
    hide Quotient, Mean, PercentilesOf, RatesOf;
    QuotientMean(s.latency.total, s.latency.requests);
    if s.ttft.requests > 0 {
      QuotientMean(s.ttft.total, s.ttft.requests);
    }
    if s.upstream.requests > 0 {
      QuotientMean(s.upstream.total, s.upstream.requests);
    }
    NoMean();
  }

  lemma NoMean()
    ensures forall total: int :: Mean(0, total, 0)
  {
  }

  // ----- the other figures

  /** Window, tables, token counts and names, straight from the results. */
  lemma SummaryCounts(s: CollectorState, rs: seq<RunResult>, price: real)
    requires Represents(s, rs) && |rs| > 0
    ensures Shaped(s)
    ensures var y := SummaryOf(s, price);
            && y.window == s.window && y.duration == s.window.end - s.window.start
            && (forall code :: Lookup(y.statusCodes, code) == Tally(rs, Status(code)))
            && (forall category :: Lookup(y.errorCategories, category) == Tally(rs, ErrorIn(category)))
            && y.extras.outputTokens == Tally(rs, OutputTokens) && y.extras.inputTokens == Tally(rs, InputTokens)
            && y.extras.aborted == Tally(rs, Aborted) && (y.extras.tokensEstimated <==> SomeEstimate(rs))
            && y.extras.provider == FirstName(Providers(rs)) && y.extras.model == FirstName(Models(rs))
  {
    hide PercentilesOf, RatesOf, Tally, Shaped, Timed, Extremes, TTFTExtremes, PositiveTables, Quotient, BoundsFrom, Lookup;
    ShapedIf(s, rs);
    ExactTotals(s, rs);
    forall code
      ensures Lookup(s.outcome.statusCodes, code) == Tally(rs, Status(code))
    {
      CountExact(s, rs, Status(code));
    }
    forall category
      ensures Lookup(s.outcome.errorCategories, category) == Tally(rs, ErrorIn(category))
    {
      CountExact(s, rs, ErrorIn(category));
    }
    CountExact(s, rs, OutputTokens);
    CountExact(s, rs, InputTokens);
    CountExact(s, rs, Aborted);
  }

  /** The rate at which n units make this total; 0 if there is nothing to divide. */
  predicate Per(rate: real, total: real, n: int)
  {
    if n > 0 then rate * n as real == total else rate == 0.0
  }

  /** The price is for a thousand tokens. */
  predicate Costs(cost: real, tokens: int, price: real)
  {
    if price > 0.0 && tokens > 0 then cost * 1000.0 == tokens as real * price else cost == 0.0
  }

  /** Each rate, multiplied back: token rate, upstream ratio, cache hit rate and cost. */
  lemma SummaryRatios(s: CollectorState, rs: seq<RunResult>, price: real)
    requires Represents(s, rs) && |rs| > 0
    ensures Shaped(s)
    ensures var y := SummaryOf(s, price);
            && Per(y.rates.avgTokenRate, RateIn(rs), Tally(rs, WithTokens))
            && Per(y.rates.upstreamRatio, if y.extras.avgUpstream > 0 then y.extras.avgUpstream as real else 0.0, y.avgLatency)
            && Per(y.rates.cacheHitRate, Tally(rs, CacheHits) as real, Tally(rs, CacheRequests))
            && Costs(y.rates.cost, Tally(rs, OutputTokens), price)
  {
    hide *;
    ShapedIf(s, rs);
    RateExact(s, rs);
    DividendsExact(s, rs);
    RatiosOf(s, price);
  }

  lemma DividendsExact(s: CollectorState, rs: seq<RunResult>)
    requires Represents(s, rs)
    ensures s.latency.requests == |rs| && s.tokens.requests == Tally(rs, WithTokens) && s.tokens.total == Tally(rs, OutputTokens)
    ensures s.origin.cacheHits == Tally(rs, CacheHits) && s.origin.cacheRequests == Tally(rs, CacheRequests)
  {
    hide Represents, Tally;
    ExactTotals(s, rs);
    CountExact(s, rs, WithTokens);
    CountExact(s, rs, OutputTokens);
    CountExact(s, rs, CacheHits);
    CountExact(s, rs, CacheRequests);
  }

  lemma RateExact(s: CollectorState, rs: seq<RunResult>)
    requires Represents(s, rs)
    ensures s.tokens.rate == RateIn(rs)
  {
  }

  lemma RatiosOf(s: CollectorState, price: real)
    requires Shaped(s) && s.latency.requests > 0
    ensures var y := SummaryOf(s, price);
            && Per(y.rates.avgTokenRate, s.tokens.rate, s.tokens.requests)
            && Per(y.rates.upstreamRatio, if y.extras.avgUpstream > 0 then y.extras.avgUpstream as real else 0.0, y.avgLatency)
            && Per(y.rates.cacheHitRate, s.origin.cacheHits as real, s.origin.cacheRequests)
            && Costs(y.rates.cost, s.tokens.total, price)
  {
    hide Quotient, PercentilesOf, AvgUpstream;
    Scaled(s.tokens.total as real * price, 1000.0);
    if s.tokens.requests > 0 {
      Scaled(s.tokens.rate, s.tokens.requests as real);
    }
    var avg := Quotient(s.latency.total, s.latency.requests);
    if avg > 0 {
      Scaled(AvgUpstream(s) as real, avg as real);
    }
    if s.origin.cacheRequests > 0 {
      Scaled(s.origin.cacheHits as real, s.origin.cacheRequests as real);
    }
  }

  lemma Scaled(a: real, b: real)
    requires b != 0.0
    ensures a / b * b == a
  {
  }

  /** The report of no results: nothing but the window, which a caller may have set. */
  lemma SummaryEmpty(s: CollectorState, price: real)
    requires Represents(s.(window := Window(0, 0)), [])
    ensures Shaped(s)
    ensures var y := SummaryOf(s, price);
            && y.window == s.window && y.duration == s.window.end - s.window.start && y.totalRequests == 0
            && y.statusCodes == map[] && y.errorCategories == map[] && y.avgLatency == y.minLatency == y.maxLatency == 0
            && y.percentiles == Percentiles(0, 0, 0, 0) && y.rates == Rates(0.0, 0.0, 0.0, 0.0, 0.0, 0.0)
  {
    var t := s.(window := Window(0, 0));
    ExactIdle(t);
    assert t == EmptyCollector();
    hide BoundsFrom;
  }

  /** A name in the report is the first one any result gave. */
  lemma {:induction false} FirstNameIs(names: seq<string>)
    ensures FirstName(names) == "" <==> forall i :: 0 <= i < |names| ==> names[i] == ""
    ensures FirstName(names) != "" ==>
              exists i :: 0 <= i < |names| && names[i] == FirstName(names) && forall j :: 0 <= j < i ==> names[j] == ""
  {
    if |names| > 0 && names[0] == "" {
      var rest := names[1..];
      FirstNameIs(rest);
      assert forall i :: 0 < i < |names| ==> names[i] == rest[i - 1];
      assert forall i :: 0 <= i < |rest| ==> rest[i] == names[i + 1];
      if FirstName(rest) != "" {
        var i :| 0 <= i < |rest| && rest[i] == FirstName(rest) && forall j :: 0 <= j < i ==> rest[j] == "";
        assert names[i + 1] == FirstName(names);
      }
    } else if |names| > 0 {
      assert names[0] == FirstName(names);
    }
  }

  // ----- one result

  function OneOf<K>(present: bool, key: K): map<K, int>
  {
    if present then map[key := 1] else map[]
  }

  /** What a new collector holds after one result, field by field; over a list these are summed up. */
  lemma OneResult(r: RunResult)
    ensures var s := FoldResults([r]);
            && s.latency.requests == 1 && s.latency.total == r.latency && s.latency.min == r.latency
            && s.latency.max == (if r.latency > 0 then r.latency else 0)
            && s.outcome.successes == (if r.success then 1 else 0) && s.outcome.failures == (if r.success then 0 else 1)
            && s.outcome.aborted == (if r.streamingAborted then 1 else 0)
            && s.outcome.statusCodes == OneOf(r.statusCode > 0, r.statusCode)
            && s.outcome.errorCategories == OneOf(r.errorCategory != "none", r.errorCategory)
            && s.window == Window(0, 0) && s.origin.provider == r.provider && s.origin.model == r.model
            && s.origin.cacheHits == (if r.cacheHit then 1 else 0) && s.origin.cacheRequests == (if r.cacheHit || r.cacheReported then 1 else 0)
  {
    OneFold(r);
    hide BoundsFrom, FoldResults;
  }

  lemma OneFold(r: RunResult)
    ensures FoldResults([r]) == AddResult(EmptyCollector(), r)
  {
    hide BoundsFrom, AddResult;
    assert [r][..0] == [];
    assert FoldResults([]) == EmptyCollector();
  }

  /** The times and token counts of one result; those that are not positive count as missing. */
  lemma OneResultTimes(r: RunResult)
    ensures var s := FoldResults([r]);
            && (if r.ttft > 0 then s.ttft.requests == 1 && s.ttft.total == s.ttft.min == s.ttft.max == r.ttft
                else s.ttft.requests == s.ttft.total == s.ttft.min == s.ttft.max == 0)
            && (if r.outputTokens > 0 then s.tokens.requests == 1 && s.tokens.total == r.outputTokens && s.tokens.estimated == r.tokensEstimated
                else s.tokens.requests == s.tokens.total == 0 && !s.tokens.estimated)
            && s.tokens.rate == (if r.tokensPerSecond > 0.0 then r.tokensPerSecond else 0.0)
            && (if r.upstreamLatency > 0 then s.upstream.requests == 1 && s.upstream.total == r.upstreamLatency
                else s.upstream.requests == s.upstream.total == 0)
            && s.upstream.inputTokens == (if r.inputTokens > 0 then r.inputTokens else 0)
  {
    OneFold(r);
    hide BoundsFrom, FoldResults;
  }
}
