/** The metrics collector: one-by-one folding, mergeable snapshots, and the object that holds them. */
module Collectors {
  import opened Durations
  import opened Sequences
  import opened Histograms

  const NO_ERROR := "none"

  /** One request outcome. Durations are nanoseconds. */
  datatype RunResult = RunResult(
    success: bool, latency: int, statusCode: int, errorCategory: string,
    ttft: int, itlSamples: seq<int>, outputTokens: int, tokensEstimated: bool, tokensPerSecond: real,
    streamingAborted: bool, upstreamLatency: int, inputTokens: int,
    cacheHit: bool, cacheReported: bool, provider: string, model: string)

  /** The value of a collector, in parts. A time of 0 is the zero time ("not set"). */
  datatype Window = Window(start: nat, end: nat)
  datatype LatencyPart = LatencyPart(requests: int, total: int, min: int, max: int, counts: seq<int>)
  datatype TokenPart = TokenPart(requests: int, total: int, estimated: bool, rate: real)
  datatype OutcomePart = OutcomePart(successes: int, failures: int, aborted: int, statusCodes: map<int, int>, errorCategories: map<string, int>)
  datatype UpstreamPart = UpstreamPart(requests: int, total: int, inputTokens: int)
  datatype OriginPart = OriginPart(provider: string, model: string, cacheRequests: int, cacheHits: int)

  datatype CollectorState = CollectorState(
    bounds: seq<int>, window: Window, latency: LatencyPart, ttft: LatencyPart, itl: seq<int>,
    tokens: TokenPart, outcome: OutcomePart, upstream: UpstreamPart, origin: OriginPart)

  datatype AggregateSnapshot = AggregateSnapshot(
    startTime: nat, endTime: nat,
    totalRequests: int, successfulRequests: int, failedRequests: int,
    totalLatencyMicros: int, minLatencyMicros: int, maxLatencyMicros: int,
    requestsWithTTFT: int, totalTTFTMicros: int,
    requestsWithTokens: int, totalOutputTokens: int, totalTokenRate: real,
    streamingAborted: int, statusCodes: map<int, int>, errorCategories: map<string, int>,
    histogram: HistogramSnapshot, ttftHistogram: HistogramSnapshot, itlHistogram: HistogramSnapshot,
    totalUpstreamLatencyMicros: int, requestsWithUpstream: int, totalInputTokens: int,
    cacheHits: int, cacheRequests: int, provider: string, model: string)

  function Lookup<K>(m: map<K, int>, k: K): int
  {
    if k in m then m[k] else 0
  }

  function AddMaps<K(!new)>(a: map<K, int>, b: map<K, int>): (r: map<K, int>)
    ensures r.Keys == a.Keys + b.Keys
    ensures forall k {:trigger Lookup(r, k)} :: Lookup(r, k) == Lookup(a, k) + Lookup(b, k)
  {
    map k | k in a.Keys + b.Keys :: Lookup(a, k) + Lookup(b, k)
  }

  function Increment<K>(m: map<K, int>, k: K): map<K, int>
  {
    m[k := Lookup(m, k) + 1]
  }

  function RecordOne(bounds: seq<int>, counts: seq<int>, x: int): seq<int>
    requires |counts| == |bounds| > 0
  {
    var i := BucketOf(bounds, Clamp(x));
    counts[i := counts[i] + 1]
  }

  function RecordAll(bounds: seq<int>, counts: seq<int>, samples: seq<int>): (r: seq<int>)
    requires |counts| == |bounds| > 0
    ensures |r| == |counts|
  {
    if |samples| == 0 then counts
    else RecordOne(bounds, RecordAll(bounds, counts, samples[..|samples| - 1]), samples[|samples| - 1])
  }

  function Positive(samples: seq<int>): seq<int>
  {
    if |samples| == 0 then []
    else
      var rest, x := Positive(samples[..|samples| - 1]), samples[|samples| - 1];
      if x > 0 then rest + [x] else rest
  }

  function EmptyCollector(): CollectorState
  {
    var zeros := Zeros(|DefaultBounds()|);
    CollectorState(DefaultBounds(), Window(0, 0), LatencyPart(0, 0, 0, 0, zeros), LatencyPart(0, 0, 0, 0, zeros), zeros,
                   TokenPart(0, 0, false, 0.0), OutcomePart(0, 0, 0, map[], map[]), UpstreamPart(0, 0, 0), OriginPart("", "", 0, 0))
  }

  predicate Shaped(s: CollectorState)
  {
    |s.latency.counts| == |s.ttft.counts| == |s.itl| == |s.bounds| > 0
  }

  function AddLatency(bounds: seq<int>, s: LatencyPart, r: RunResult): LatencyPart
    requires |s.counts| == |bounds| > 0
  {
    LatencyPart(s.requests + 1, s.total + r.latency,
                if s.requests == 0 || r.latency < s.min then r.latency else s.min,
                if r.latency > s.max then r.latency else s.max,
                RecordOne(bounds, s.counts, r.latency))
  }

  function AddTTFT(bounds: seq<int>, s: LatencyPart, r: RunResult): LatencyPart
    requires |s.counts| == |bounds| > 0
  {
    if r.ttft <= 0 then s else
      LatencyPart(s.requests + 1, s.total + r.ttft,
                  if s.min == 0 || r.ttft < s.min then r.ttft else s.min,
                  if r.ttft > s.max then r.ttft else s.max,
                  RecordOne(bounds, s.counts, r.ttft))
  }

  function AddTokens(s: TokenPart, r: RunResult): TokenPart
  {
    TokenPart(s.requests + if r.outputTokens > 0 then 1 else 0,
              s.total + if r.outputTokens > 0 then r.outputTokens else 0,
              s.estimated || (r.outputTokens > 0 && r.tokensEstimated),
              s.rate + if r.tokensPerSecond > 0.0 then r.tokensPerSecond else 0.0)
  }

  function AddOutcome(s: OutcomePart, r: RunResult): OutcomePart
  {
    OutcomePart(s.successes + if r.success then 1 else 0,
                s.failures + if r.success then 0 else 1,
                s.aborted + if r.streamingAborted then 1 else 0,
                if r.statusCode > 0 then Increment(s.statusCodes, r.statusCode) else s.statusCodes,
                if r.errorCategory != NO_ERROR then Increment(s.errorCategories, r.errorCategory) else s.errorCategories)
  }

  function AddUpstream(s: UpstreamPart, r: RunResult): UpstreamPart
  {
    UpstreamPart(s.requests + if r.upstreamLatency > 0 then 1 else 0,
                 s.total + if r.upstreamLatency > 0 then r.upstreamLatency else 0,
                 s.inputTokens + if r.inputTokens > 0 then r.inputTokens else 0)
  }

  function AddOrigin(s: OriginPart, r: RunResult): OriginPart
  {
    OriginPart(if s.provider == "" then r.provider else s.provider,
               if s.model == "" then r.model else s.model,
               s.cacheRequests + if r.cacheReported || r.cacheHit then 1 else 0,
               s.cacheHits + if r.cacheHit then 1 else 0)
  }

  /** The collector value after adding one result. */
  function AddResult(s: CollectorState, r: RunResult): (t: CollectorState)
    requires Shaped(s)
    ensures Shaped(t)
  {
    CollectorState(s.bounds, s.window, AddLatency(s.bounds, s.latency, r), AddTTFT(s.bounds, s.ttft, r),
                   RecordAll(s.bounds, s.itl, Positive(r.itlSamples)), AddTokens(s.tokens, r), AddOutcome(s.outcome, r),
                   AddUpstream(s.upstream, r), AddOrigin(s.origin, r))
  }

  function SnapshotOf(s: CollectorState): AggregateSnapshot
  {
    var micros := MicrosOf(s.bounds);
    AggregateSnapshot(
      s.window.start, s.window.end, s.latency.requests, s.outcome.successes, s.outcome.failures,
      Micros(s.latency.total), Micros(s.latency.min), Micros(s.latency.max),
      s.ttft.requests, Micros(s.ttft.total), s.tokens.requests, s.tokens.total, s.tokens.rate,
      s.outcome.aborted, s.outcome.statusCodes, s.outcome.errorCategories,
      HistogramSnapshot(micros, s.latency.counts), HistogramSnapshot(micros, s.ttft.counts), HistogramSnapshot(micros, s.itl),
      Micros(s.upstream.total), s.upstream.requests, s.upstream.inputTokens,
      s.origin.cacheHits, s.origin.cacheRequests, s.origin.provider, s.origin.model)
  }

  /** Widening of the run window by a snapshot; happens even for an empty snapshot. */
  function MergeWindow(s: Window, n: AggregateSnapshot): Window
  {
    Window(if n.startTime != 0 && (s.start == 0 || n.startTime < s.start) then n.startTime else s.start,
           if n.endTime > s.end then n.endTime else s.end)
  }

  function MergeLatency(s: LatencyPart, n: AggregateSnapshot): LatencyPart
  {
    var incomingMin := n.minLatencyMicros * MICROSECOND;
    var incomingMax := n.maxLatencyMicros * MICROSECOND;
    LatencyPart(s.requests + n.totalRequests, s.total + n.totalLatencyMicros * MICROSECOND,
                if s.requests == 0 || (incomingMin > 0 && incomingMin < s.min) then incomingMin else s.min,
                if incomingMax > s.max then incomingMax else s.max,
                MergedCounts(s.counts, n.histogram.counts))
  }

  /** The extremes of time to first token are not carried in snapshots. */
  function MergeTTFT(s: LatencyPart, n: AggregateSnapshot): LatencyPart
  {
    LatencyPart(s.requests + n.requestsWithTTFT, s.total + n.totalTTFTMicros * MICROSECOND, s.min, s.max,
                MergedCounts(s.counts, n.ttftHistogram.counts))
  }

  /** Whether token counts were estimated is not carried in snapshots. */
  function MergeTokens(s: TokenPart, n: AggregateSnapshot): TokenPart
  {
    TokenPart(s.requests + n.requestsWithTokens, s.total + n.totalOutputTokens, s.estimated, s.rate + n.totalTokenRate)
  }

  function MergeOutcome(s: OutcomePart, n: AggregateSnapshot): OutcomePart
  {
    OutcomePart(s.successes + n.successfulRequests, s.failures + n.failedRequests, s.aborted + n.streamingAborted,
                AddMaps(s.statusCodes, n.statusCodes), AddMaps(s.errorCategories, n.errorCategories))
  }

  function MergeUpstream(s: UpstreamPart, n: AggregateSnapshot): UpstreamPart
  {
    UpstreamPart(s.requests + n.requestsWithUpstream, s.total + n.totalUpstreamLatencyMicros * MICROSECOND,
                 s.inputTokens + n.totalInputTokens)
  }

  function MergeOrigin(s: OriginPart, n: AggregateSnapshot): OriginPart
  {
    OriginPart(if s.provider == "" then n.provider else s.provider, if s.model == "" then n.model else s.model,
               s.cacheRequests + n.cacheRequests, s.cacheHits + n.cacheHits)
  }

  /** The collector value after merging one snapshot. */
  function Merge(s: CollectorState, n: AggregateSnapshot): CollectorState
  {
    var w := MergeWindow(s.window, n);
    if n.totalRequests == 0 then s.(window := w)
    else
      CollectorState(s.bounds, w, MergeLatency(s.latency, n), MergeTTFT(s.ttft, n), MergedCounts(s.itl, n.itlHistogram.counts),
                     MergeTokens(s.tokens, n), MergeOutcome(s.outcome, n), MergeUpstream(s.upstream, n), MergeOrigin(s.origin, n))
  }

  /** The count and integer parts of the final report. */
  datatype Percentiles = Percentiles(p50: int, p90: int, p95: int, p99: int)

  /** What the report says beyond counts and latencies. */
  datatype Extras = Extras(
    outputTokens: int, tokensEstimated: bool, aborted: int,
    avgUpstream: int, avgOverhead: int, inputTokens: int, provider: string, model: string)

  /** The rates and ratios; `cost` is in the currency of the price per thousand output tokens. */
  datatype Rates = Rates(errorRate: real, perSecond: real, avgTokenRate: real, upstreamRatio: real, cacheHitRate: real, cost: real)

  datatype Summary = Summary(
    window: Window, duration: int, totalRequests: int, statusCodes: map<int, int>, errorCategories: map<string, int>,
    successfulRequests: int, failedRequests: int,
    avgLatency: int, minLatency: int, maxLatency: int, percentiles: Percentiles,
    avgTTFT: int, ttftPercentiles: Percentiles, itlPercentiles: Percentiles, extras: Extras, rates: Rates)

  const NO_EXTRAS := Extras(0, false, 0, 0, 0, 0, "", "")
  const NO_RATES := Rates(0.0, 0.0, 0.0, 0.0, 0.0, 0.0)

  const NO_PERCENTILES := Percentiles(0, 0, 0, 0)

  function PercentilesOf(bounds: seq<int>, counts: seq<int>): Percentiles
    requires |counts| == |bounds| > 0
  {
    Percentiles(QuantileOf(bounds, counts, 0.50), QuantileOf(bounds, counts, 0.90),
                QuantileOf(bounds, counts, 0.95), QuantileOf(bounds, counts, 0.99))
  }

  /** Go's integer division truncates toward zero. */
  function Quotient(a: int, b: int): int
    requires b != 0
    decreases b < 0
  {
    if b < 0 then Quotient(-a, -b) else if a >= 0 then a / b else -((-a) / b)
  }

  function SummaryOf(s: CollectorState, price: real): Summary
    requires Shaped(s)
  {
    var n := s.latency.requests;
    var duration := s.window.end - s.window.start;
    if n == 0 then
      Summary(s.window, duration, 0, s.outcome.statusCodes, s.outcome.errorCategories,
              0, 0, 0, 0, 0, NO_PERCENTILES, 0, NO_PERCENTILES, NO_PERCENTILES, NO_EXTRAS, NO_RATES)
    else
      Summary(s.window, duration, n, s.outcome.statusCodes, s.outcome.errorCategories, s.outcome.successes, s.outcome.failures,
              Quotient(s.latency.total, n), s.latency.min, s.latency.max, PercentilesOf(s.bounds, s.latency.counts),
              if s.ttft.requests > 0 then Quotient(s.ttft.total, s.ttft.requests) else 0,
              if s.ttft.requests > 0 then PercentilesOf(s.bounds, s.ttft.counts) else NO_PERCENTILES,
              if Total(s.itl) > 0 then PercentilesOf(s.bounds, s.itl) else NO_PERCENTILES,
              ExtrasOf(s, Quotient(s.latency.total, n)), RatesOf(s, price, duration, Quotient(s.latency.total, n)))
  }

  function AvgUpstream(s: CollectorState): int
  {
    if s.upstream.requests > 0 then Quotient(s.upstream.total, s.upstream.requests) else 0
  }

  function Ratio(a: int, b: int): real
  {
    if b > 0 then a as real / b as real else 0.0
  }

  function RatesOf(s: CollectorState, price: real, duration: int, avgLatency: int): Rates
    requires s.latency.requests != 0
  {
    var n, avgUpstream := s.latency.requests, AvgUpstream(s);
    Rates(s.outcome.failures as real / n as real,
          if duration > 0 then n as real / (duration as real / SECOND as real) else 0.0,
          if s.tokens.requests > 0 then s.tokens.rate / s.tokens.requests as real else 0.0,
          if avgLatency > 0 && avgUpstream > 0 then Ratio(avgUpstream, avgLatency) else 0.0,
          Ratio(s.origin.cacheHits, s.origin.cacheRequests),
          if price > 0.0 && s.tokens.total > 0 then s.tokens.total as real * price / 1000.0 else 0.0)
  }

  function ExtrasOf(s: CollectorState, avgLatency: int): Extras
  {
    var avgUpstream := AvgUpstream(s);
    Extras(s.tokens.total, s.tokens.estimated, s.outcome.aborted,
           avgUpstream, if avgLatency > 0 && avgUpstream > 0 then avgLatency - avgUpstream else 0,
           s.upstream.inputTokens, s.origin.provider, s.origin.model)
  }

  lemma AssembleAdd(s: CollectorState, t: CollectorState, r: RunResult)
    requires Shaped(s) && t.bounds == s.bounds && t.window == s.window
    requires t.latency == AddLatency(s.bounds, s.latency, r) && t.ttft == AddTTFT(s.bounds, s.ttft, r)
    requires t.itl == RecordAll(s.bounds, s.itl, Positive(r.itlSamples)) && t.tokens == AddTokens(s.tokens, r)
    requires t.outcome == AddOutcome(s.outcome, r) && t.upstream == AddUpstream(s.upstream, r)
    requires t.origin == AddOrigin(s.origin, r)
    ensures t == AddResult(s, r)
  {
  }

  lemma AssembleMerge(s: CollectorState, t: CollectorState, n: AggregateSnapshot)
    requires n.totalRequests != 0 && t.bounds == s.bounds && t.window == MergeWindow(s.window, n)
    requires t.latency == MergeLatency(s.latency, n) && t.ttft == MergeTTFT(s.ttft, n)
    requires t.itl == MergedCounts(s.itl, n.itlHistogram.counts) && t.tokens == MergeTokens(s.tokens, n)
    requires t.outcome == MergeOutcome(s.outcome, n) && t.upstream == MergeUpstream(s.upstream, n)
    requires t.origin == MergeOrigin(s.origin, n)
    ensures t == Merge(s, n)
  {
  }

  class Collector {
    var startTime: nat
    var endTime: nat
    var totalRequests: int
    var successRequests: int
    var failedRequests: int
    var totalLatency: int
    var minLatency: int
    var maxLatency: int
    var requestsWithTTFT: int
    var totalTTFT: int
    var minTTFT: int
    var maxTTFT: int
    var requestsWithTokens: int
    var totalOutputTokens: int
    var tokensEstimated: bool
    var totalTokenRate: real
    var streamingAborted: int
    var statusCodes: map<int, int>
    var errorCategories: map<string, int>
    const histogram: Histogram
    const ttftHist: Histogram
    const itlHist: Histogram
    var totalUpstreamLatency: int
    var requestsWithUpstream: int
    var totalInputTokens: int
    var cacheHits: int
    var cacheRequests: int
    var provider: string
    var model: string
    var modelPricePer1K: real

    ghost predicate Valid()
      reads this, histogram, ttftHist, itlHist
    {
      && histogram != ttftHist && ttftHist != itlHist && itlHist != histogram
      && histogram.Valid() && ttftHist.Valid() && itlHist.Valid()
      && histogram.bounds == ttftHist.bounds == itlHist.bounds && |histogram.bounds| > 0
    }

    ghost function LatencyView(): LatencyPart
      reads this`totalRequests, this`totalLatency, this`minLatency, this`maxLatency, histogram
    {
      LatencyPart(totalRequests, totalLatency, minLatency, maxLatency, histogram.counts)
    }

    ghost function TTFTView(): LatencyPart
      reads this`requestsWithTTFT, this`totalTTFT, this`minTTFT, this`maxTTFT, ttftHist`counts
    {
      LatencyPart(requestsWithTTFT, totalTTFT, minTTFT, maxTTFT, ttftHist.counts)
    }

    ghost function TokenView(): TokenPart
      reads this`requestsWithTokens, this`totalOutputTokens, this`tokensEstimated, this`totalTokenRate
    {
      TokenPart(requestsWithTokens, totalOutputTokens, tokensEstimated, totalTokenRate)
    }

    ghost function OutcomeView(): OutcomePart
      reads this`successRequests, this`failedRequests, this`streamingAborted, this`statusCodes, this`errorCategories
    {
      OutcomePart(successRequests, failedRequests, streamingAborted, statusCodes, errorCategories)
    }

    ghost function UpstreamView(): UpstreamPart
      reads this`requestsWithUpstream, this`totalUpstreamLatency, this`totalInputTokens
    {
      UpstreamPart(requestsWithUpstream, totalUpstreamLatency, totalInputTokens)
    }

    ghost function OriginView(): OriginPart
      reads this`provider, this`model, this`cacheRequests, this`cacheHits
    {
      OriginPart(provider, model, cacheRequests, cacheHits)
    }

    ghost function Contents(): (s: CollectorState)
      reads this, histogram, ttftHist, itlHist
      ensures Valid() ==> Shaped(s)
    {
      CollectorState(histogram.bounds, Window(startTime, endTime), LatencyView(), TTFTView(), itlHist.counts,
                     TokenView(), OutcomeView(), UpstreamView(), OriginView())
    }

    ghost function Repr(): set<object>
    {
      {this, histogram, ttftHist, itlHist}
    }

    constructor ()
      ensures Valid() && fresh(Repr())
      ensures Contents() == EmptyCollector() && modelPricePer1K == 0.0
    {
      startTime, endTime := 0, 0;
      totalRequests, successRequests, failedRequests := 0, 0, 0;
      totalLatency, minLatency, maxLatency := 0, 0, 0;
      requestsWithTTFT, totalTTFT, minTTFT, maxTTFT := 0, 0, 0, 0;
      requestsWithTokens, totalOutputTokens, tokensEstimated, totalTokenRate := 0, 0, false, 0.0;
      streamingAborted, statusCodes, errorCategories := 0, map[], map[];
      var h := new Histogram();
      var t := new Histogram();
      var i := new Histogram();
      histogram, ttftHist, itlHist := h, t, i;
      totalUpstreamLatency, requestsWithUpstream, totalInputTokens := 0, 0, 0;
      cacheHits, cacheRequests, provider, model, modelPricePer1K := 0, 0, "", "", 0.0;
    }

    constructor FromSnapshot(snapshot: AggregateSnapshot)
      ensures Valid() && fresh(Repr())
      ensures Contents() == Merge(EmptyCollector(), snapshot)
    {
      startTime, endTime := 0, 0;
      totalRequests, successRequests, failedRequests := 0, 0, 0;
      totalLatency, minLatency, maxLatency := 0, 0, 0;
      requestsWithTTFT, totalTTFT, minTTFT, maxTTFT := 0, 0, 0, 0;
      requestsWithTokens, totalOutputTokens, tokensEstimated, totalTokenRate := 0, 0, false, 0.0;
      streamingAborted, statusCodes, errorCategories := 0, map[], map[];
      var h := new Histogram();
      var t := new Histogram();
      var i := new Histogram();
      histogram, ttftHist, itlHist := h, t, i;
      totalUpstreamLatency, requestsWithUpstream, totalInputTokens := 0, 0, 0;
      cacheHits, cacheRequests, provider, model, modelPricePer1K := 0, 0, "", "", 0.0;
      new;
      hide Merge;
      MergeSnapshot(snapshot);
    }

    method SetPricing(pricePer1K: real)
      modifies this`modelPricePer1K
      ensures modelPricePer1K == pricePer1K
    {
      modelPricePer1K := pricePer1K;
    }

    method SetWindow(start: nat, end: nat)
      requires Valid()
      modifies this`startTime, this`endTime
      ensures Valid() && Contents() == old(Contents()).(window := Window(start, end))
    {
      startTime := start;
      endTime := end;
    }

    /** The loop over inter-token samples: only positive ones are recorded. */
    method RecordITL(samples: seq<int>)
      requires Valid()
      modifies itlHist`counts
      ensures Valid() && itlHist.counts == RecordAll(itlHist.bounds, old(itlHist.counts), Positive(samples))
    {
      var i := 0;
      assert samples[..0] == [];
      while i < |samples|
        invariant 0 <= i <= |samples| && Valid()
        invariant itlHist.counts == RecordAll(itlHist.bounds, old(itlHist.counts), Positive(samples[..i]))
      {
        assert samples[..i + 1][..i] == samples[..i];
        if samples[i] > 0 {
          itlHist.Record(samples[i]);
          var before := Positive(samples[..i]);
          assert (before + [samples[i]])[..|before|] == before;
        }
        i := i + 1;
      }
      assert samples[..|samples|] == samples;
    }

    method Add(result: RunResult)
      requires Valid()
      modifies this, histogram`counts, ttftHist`counts, itlHist`counts
      ensures Valid()
      ensures Contents() == AddResult(old(Contents()), result) && modelPricePer1K == old(modelPricePer1K)
    {
      hide AddLatency, AddTTFT, AddTokens, AddOutcome, AddUpstream, AddOrigin, RecordAll, Positive;
      hide LatencyView, TTFTView, TokenView, OutcomeView, UpstreamView, OriginView;
      ghost var s := Contents();
      RecordTimings(result);
      RecordRest(result);
      AssembleAdd(s, Contents(), result);
    }

    method RecordTimings(result: RunResult)
      requires Valid()
      modifies this`minLatency, this`maxLatency, this`totalRequests, this`totalLatency, histogram`counts
      modifies this`requestsWithTTFT, this`totalTTFT, this`minTTFT, this`maxTTFT, ttftHist`counts, itlHist`counts
      ensures Valid()
      ensures LatencyView() == AddLatency(histogram.bounds, old(LatencyView()), result)
      ensures TTFTView() == AddTTFT(ttftHist.bounds, old(TTFTView()), result)
      ensures itlHist.counts == RecordAll(itlHist.bounds, old(itlHist.counts), Positive(result.itlSamples))
    {
      RecordLatency(result);
      RecordTTFT(result);
      RecordITL(result.itlSamples);
    }

    method RecordRest(result: RunResult)
      modifies this`requestsWithTokens, this`totalOutputTokens, this`tokensEstimated, this`totalTokenRate
      modifies this`streamingAborted, this`successRequests, this`failedRequests, this`statusCodes, this`errorCategories
      modifies this`requestsWithUpstream, this`totalUpstreamLatency, this`totalInputTokens
      modifies this`provider, this`model, this`cacheRequests, this`cacheHits
      ensures TokenView() == AddTokens(old(TokenView()), result) && OutcomeView() == AddOutcome(old(OutcomeView()), result)
      ensures UpstreamView() == AddUpstream(old(UpstreamView()), result) && OriginView() == AddOrigin(old(OriginView()), result)
    {
      hide AddTokens, AddOutcome, AddUpstream, AddOrigin;
      RecordTokens(result);
      RecordOutcome(result);
      RecordUpstream(result);
      RecordOrigin(result);
    }

    method RecordLatency(result: RunResult)
      requires Valid()
      modifies this`minLatency, this`maxLatency, this`totalRequests, this`totalLatency, histogram`counts
      ensures Valid() && LatencyView() == AddLatency(histogram.bounds, old(LatencyView()), result)
    {
      if totalRequests == 0 || result.latency < minLatency {
        minLatency := result.latency;
      }
      if result.latency > maxLatency {
        maxLatency := result.latency;
      }
      totalRequests := totalRequests + 1;
      totalLatency := totalLatency + result.latency;
      histogram.Record(result.latency);
    }

    method RecordTTFT(result: RunResult)
      requires Valid()
      modifies this`requestsWithTTFT, this`totalTTFT, this`minTTFT, this`maxTTFT, ttftHist`counts
      ensures Valid() && TTFTView() == AddTTFT(ttftHist.bounds, old(TTFTView()), result)
    {
      if result.ttft > 0 {
        requestsWithTTFT := requestsWithTTFT + 1;
        totalTTFT := totalTTFT + result.ttft;
        ttftHist.Record(result.ttft);
        if minTTFT == 0 || result.ttft < minTTFT {
          minTTFT := result.ttft;
        }
        if result.ttft > maxTTFT {
          maxTTFT := result.ttft;
        }
      }
    }

    method RecordTokens(result: RunResult)
      modifies this`requestsWithTokens, this`totalOutputTokens, this`tokensEstimated, this`totalTokenRate
      ensures TokenView() == AddTokens(old(TokenView()), result)
    {
      if result.outputTokens > 0 {
        requestsWithTokens := requestsWithTokens + 1;
        totalOutputTokens := totalOutputTokens + result.outputTokens;
        if result.tokensEstimated {
          tokensEstimated := true;
        }
      }
      if result.tokensPerSecond > 0.0 {
        totalTokenRate := totalTokenRate + result.tokensPerSecond;
      }
    }

    method RecordOutcome(result: RunResult)
      modifies this`streamingAborted, this`successRequests, this`failedRequests, this`statusCodes, this`errorCategories
      ensures OutcomeView() == AddOutcome(old(OutcomeView()), result)
    {
      if result.streamingAborted {
        streamingAborted := streamingAborted + 1;
      }
      if result.success {
        successRequests := successRequests + 1;
      } else {
        failedRequests := failedRequests + 1;
      }
      if result.statusCode > 0 {
        statusCodes := statusCodes[result.statusCode := Lookup(statusCodes, result.statusCode) + 1];
      }
      if result.errorCategory != NO_ERROR {
        errorCategories := errorCategories[result.errorCategory := Lookup(errorCategories, result.errorCategory) + 1];
      }
    }

    method RecordUpstream(result: RunResult)
      modifies this`requestsWithUpstream, this`totalUpstreamLatency, this`totalInputTokens
      ensures UpstreamView() == AddUpstream(old(UpstreamView()), result)
    {
      if result.upstreamLatency > 0 {
        requestsWithUpstream := requestsWithUpstream + 1;
        totalUpstreamLatency := totalUpstreamLatency + result.upstreamLatency;
      }
      if result.inputTokens > 0 {
        totalInputTokens := totalInputTokens + result.inputTokens;
      }
    }

    method RecordOrigin(result: RunResult)
      modifies this`provider, this`model, this`cacheRequests, this`cacheHits
      ensures OriginView() == AddOrigin(old(OriginView()), result)
    {
      if result.provider != "" && provider == "" {
        provider := result.provider;
      }
      if result.model != "" && model == "" {
        model := result.model;
      }
      if result.cacheReported || result.cacheHit {
        cacheRequests := cacheRequests + 1;
        if result.cacheHit {
          cacheHits := cacheHits + 1;
        }
      }
    }

    method Snapshot() returns (snapshot: AggregateSnapshot)
      requires Valid()
      ensures snapshot == SnapshotOf(Contents())
    {
      var h := histogram.Snapshot();
      var t := ttftHist.Snapshot();
      var i := itlHist.Snapshot();
      snapshot := AggregateSnapshot(
        startTime, endTime, totalRequests, successRequests, failedRequests,
        Micros(totalLatency), Micros(minLatency), Micros(maxLatency),
        requestsWithTTFT, Micros(totalTTFT), requestsWithTokens, totalOutputTokens, totalTokenRate,
        streamingAborted, statusCodes, errorCategories, h, t, i,
        Micros(totalUpstreamLatency), requestsWithUpstream, totalInputTokens,
        cacheHits, cacheRequests, provider, model);
    }

    method MergeSnapshot(snapshot: AggregateSnapshot)
      requires Valid()
      modifies this, histogram, ttftHist, itlHist
      ensures Valid()
      ensures Contents() == Merge(old(Contents()), snapshot) && modelPricePer1K == old(modelPricePer1K)
    {
      hide MergeLatency, MergeTTFT, MergeTokens, MergeOutcome, MergeUpstream, MergeOrigin, MergedCounts;
      hide LatencyView, TTFTView, TokenView, OutcomeView, UpstreamView, OriginView;
      ghost var s := Contents();
      WidenWindow(snapshot);
      if snapshot.totalRequests == 0 {
        return;
      }
      CombineTimings(snapshot);
      CombineRest(snapshot);
      AssembleMerge(s, Contents(), snapshot);
    }

    method CombineTimings(snapshot: AggregateSnapshot)
      requires Valid()
      modifies this`minLatency, this`maxLatency, this`totalRequests, this`totalLatency, histogram
      modifies this`requestsWithTTFT, this`totalTTFT, ttftHist, itlHist
      ensures Valid() && histogram.bounds == old(histogram.bounds)
      ensures LatencyView() == MergeLatency(old(LatencyView()), snapshot)
      ensures TTFTView() == MergeTTFT(old(TTFTView()), snapshot)
      ensures itlHist.counts == MergedCounts(old(itlHist.counts), snapshot.itlHistogram.counts)
    {
      CombineLatency(snapshot);
      CombineTTFT(snapshot);
      itlHist.Merge(snapshot.itlHistogram);
    }

    method CombineRest(snapshot: AggregateSnapshot)
      modifies this`requestsWithTokens, this`totalOutputTokens, this`totalTokenRate
      modifies this`streamingAborted, this`successRequests, this`failedRequests, this`statusCodes, this`errorCategories
      modifies this`requestsWithUpstream, this`totalUpstreamLatency, this`totalInputTokens
      modifies this`provider, this`model, this`cacheRequests, this`cacheHits
      ensures TokenView() == MergeTokens(old(TokenView()), snapshot) && OutcomeView() == MergeOutcome(old(OutcomeView()), snapshot)
      ensures UpstreamView() == MergeUpstream(old(UpstreamView()), snapshot) && OriginView() == MergeOrigin(old(OriginView()), snapshot)
    {
      hide MergeTokens, MergeOutcome, MergeUpstream, MergeOrigin;
      CombineTokens(snapshot);
      CombineOutcome(snapshot);
      CombineUpstream(snapshot);
      CombineOrigin(snapshot);
    }

    method WidenWindow(snapshot: AggregateSnapshot)
      modifies this`startTime, this`endTime
      ensures Window(startTime, endTime) == MergeWindow(old(Window(startTime, endTime)), snapshot)
    {
      if snapshot.startTime != 0 && (startTime == 0 || snapshot.startTime < startTime) {
        startTime := snapshot.startTime;
      }
      if snapshot.endTime > endTime {
        endTime := snapshot.endTime;
      }
    }

    method CombineLatency(snapshot: AggregateSnapshot)
      requires Valid()
      modifies this`totalRequests, this`totalLatency, this`minLatency, this`maxLatency, histogram
      ensures Valid() && histogram.bounds == old(histogram.bounds)
      ensures LatencyView() == MergeLatency(old(LatencyView()), snapshot)
    {
      var incomingMin := snapshot.minLatencyMicros * MICROSECOND;
      var incomingMax := snapshot.maxLatencyMicros * MICROSECOND;
      if totalRequests == 0 || (incomingMin > 0 && incomingMin < minLatency) {
        minLatency := incomingMin;
      }
      if incomingMax > maxLatency {
        maxLatency := incomingMax;
      }
      totalRequests := totalRequests + snapshot.totalRequests;
      totalLatency := totalLatency + snapshot.totalLatencyMicros * MICROSECOND;
      histogram.Merge(snapshot.histogram);
    }

    method CombineTTFT(snapshot: AggregateSnapshot)
      requires Valid()
      modifies this`requestsWithTTFT, this`totalTTFT, ttftHist
      ensures Valid() && ttftHist.bounds == old(ttftHist.bounds)
      ensures TTFTView() == MergeTTFT(old(TTFTView()), snapshot)
    {
      requestsWithTTFT := requestsWithTTFT + snapshot.requestsWithTTFT;
      totalTTFT := totalTTFT + snapshot.totalTTFTMicros * MICROSECOND;
      ttftHist.Merge(snapshot.ttftHistogram);
    }

    method CombineTokens(snapshot: AggregateSnapshot)
      modifies this`requestsWithTokens, this`totalOutputTokens, this`totalTokenRate
      ensures TokenView() == MergeTokens(old(TokenView()), snapshot)
    {
      requestsWithTokens := requestsWithTokens + snapshot.requestsWithTokens;
      totalOutputTokens := totalOutputTokens + snapshot.totalOutputTokens;
      totalTokenRate := totalTokenRate + snapshot.totalTokenRate;
    }

    method CombineOutcome(snapshot: AggregateSnapshot)
      modifies this`successRequests, this`failedRequests, this`streamingAborted, this`statusCodes, this`errorCategories
      ensures OutcomeView() == MergeOutcome(old(OutcomeView()), snapshot)
    {
      successRequests := successRequests + snapshot.successfulRequests;
      failedRequests := failedRequests + snapshot.failedRequests;
      streamingAborted := streamingAborted + snapshot.streamingAborted;
      statusCodes := AddEntries(statusCodes, snapshot.statusCodes);
      errorCategories := AddEntries(errorCategories, snapshot.errorCategories);
    }

    method CombineUpstream(snapshot: AggregateSnapshot)
      modifies this`requestsWithUpstream, this`totalUpstreamLatency, this`totalInputTokens
      ensures UpstreamView() == MergeUpstream(old(UpstreamView()), snapshot)
    {
      totalUpstreamLatency := totalUpstreamLatency + snapshot.totalUpstreamLatencyMicros * MICROSECOND;
      requestsWithUpstream := requestsWithUpstream + snapshot.requestsWithUpstream;
      totalInputTokens := totalInputTokens + snapshot.totalInputTokens;
    }

    method CombineOrigin(snapshot: AggregateSnapshot)
      modifies this`provider, this`model, this`cacheRequests, this`cacheHits
      ensures OriginView() == MergeOrigin(old(OriginView()), snapshot)
    {
      cacheHits := cacheHits + snapshot.cacheHits;
      cacheRequests := cacheRequests + snapshot.cacheRequests;
      if snapshot.provider != "" && provider == "" {
        provider := snapshot.provider;
      }
      if snapshot.model != "" && model == "" {
        model := snapshot.model;
      }
    }

    method Summarize() returns (summary: Summary)
      requires Valid()
      requires NonNegative(histogram.counts) && NonNegative(ttftHist.counts) && NonNegative(itlHist.counts)
      ensures summary == SummaryOf(Contents(), modelPricePer1K)
    {
      var window := Window(startTime, endTime);
      if totalRequests == 0 {
        return Summary(window, endTime - startTime, totalRequests, statusCodes, errorCategories,
                       0, 0, 0, 0, 0, NO_PERCENTILES, 0, NO_PERCENTILES, NO_PERCENTILES, NO_EXTRAS, NO_RATES);
      }
      var avgLatency := Quotient(totalLatency, totalRequests);
      var percentiles := QuantilesOf(histogram);
      var avgTTFT, ttftPercentiles, itlPercentiles := SummarizeStreams();
      hide PercentilesOf, ExtrasOf, RatesOf, Total, Quotient;
      var extras := SummarizeExtras(avgLatency);
      var rates := SummarizeRates(endTime - startTime, avgLatency);
      summary := Summary(window, endTime - startTime, totalRequests, statusCodes, errorCategories,
                         successRequests, failedRequests, avgLatency, minLatency, maxLatency, percentiles,
                         avgTTFT, ttftPercentiles, itlPercentiles,
                         extras, rates);
    }

    method SummarizeRates(duration: int, avgLatency: int) returns (rates: Rates)
      requires Valid() && totalRequests != 0
      ensures rates == RatesOf(Contents(), modelPricePer1K, duration, avgLatency)
    {
      hide Quotient;
      var avgUpstream := if requestsWithUpstream > 0 then Quotient(totalUpstreamLatency, requestsWithUpstream) else 0;
      var perSecond, avgTokenRate, upstreamRatio, cacheHitRate, cost := 0.0, 0.0, 0.0, 0.0, 0.0;
      if requestsWithTokens > 0 {
        avgTokenRate := totalTokenRate / requestsWithTokens as real;
      }
      if avgLatency > 0 && avgUpstream > 0 {
        upstreamRatio := avgUpstream as real / avgLatency as real;
      }
      if cacheRequests > 0 {
        cacheHitRate := cacheHits as real / cacheRequests as real;
      }
      if modelPricePer1K > 0.0 && totalOutputTokens > 0 {
        cost := totalOutputTokens as real * modelPricePer1K / 1000.0;
      }
      if duration > 0 {
        perSecond := totalRequests as real / (duration as real / SECOND as real);
      }
      rates := Rates(failedRequests as real / totalRequests as real, perSecond, avgTokenRate, upstreamRatio, cacheHitRate, cost);
    }

    method SummarizeStreams() returns (avgTTFT: int, ttftPercentiles: Percentiles, itlPercentiles: Percentiles)
      requires Valid() && NonNegative(ttftHist.counts) && NonNegative(itlHist.counts)
      ensures avgTTFT == if requestsWithTTFT > 0 then Quotient(totalTTFT, requestsWithTTFT) else 0
      ensures ttftPercentiles == if requestsWithTTFT > 0 then PercentilesOf(ttftHist.bounds, ttftHist.counts) else NO_PERCENTILES
      ensures itlPercentiles == if Total(itlHist.counts) > 0 then PercentilesOf(itlHist.bounds, itlHist.counts) else NO_PERCENTILES
    {
      avgTTFT, ttftPercentiles, itlPercentiles := 0, NO_PERCENTILES, NO_PERCENTILES;
      if requestsWithTTFT > 0 {
        avgTTFT := Quotient(totalTTFT, requestsWithTTFT);
        ttftPercentiles := QuantilesOf(ttftHist);
      }
      var gaps := itlHist.TotalCount();
      if gaps > 0 {
        itlPercentiles := QuantilesOf(itlHist);
      }
    }

    method SummarizeExtras(avgLatency: int) returns (extras: Extras)
      requires Valid()
      ensures extras == ExtrasOf(Contents(), avgLatency)
    {
      var avgUpstream, avgOverhead := 0, 0;
      if requestsWithUpstream > 0 {
        avgUpstream := Quotient(totalUpstreamLatency, requestsWithUpstream);
      }
      if avgLatency > 0 && avgUpstream > 0 {
        avgOverhead := avgLatency - avgUpstream;
      }
      extras := Extras(totalOutputTokens, tokensEstimated, streamingAborted,
                       avgUpstream, avgOverhead, totalInputTokens, provider, model);
    }
  }

  method QuantilesOf(h: Histogram) returns (p: Percentiles)
    requires h.Valid() && NonNegative(h.counts) && |h.bounds| > 0
    ensures p == PercentilesOf(h.bounds, h.counts)
  {
    var p50 := h.Quantile(0.50);
    var p90 := h.Quantile(0.90);
    var p95 := h.Quantile(0.95);
    var p99 := h.Quantile(0.99);
    p := Percentiles(p50, p90, p95, p99);
  }

  /** r is m with the entries of incoming added, except those whose keys are still in rest. */
  ghost predicate PartlyAdded<K(!new)>(m: map<K, int>, incoming: map<K, int>, rest: set<K>, r: map<K, int>)
  {
    rest <= incoming.Keys && r.Keys == m.Keys + (incoming.Keys - rest) &&
    forall k :: k in r ==> r[k] == Lookup(m, k) + if k in rest then 0 else Lookup(incoming, k)
  }

  lemma PartlyAddedStep<K(!new)>(m: map<K, int>, incoming: map<K, int>, rest: set<K>, r: map<K, int>, k: K)
    requires PartlyAdded(m, incoming, rest, r) && k in rest
    ensures PartlyAdded(m, incoming, rest - {k}, r[k := Lookup(r, k) + incoming[k]])
  {
  }

  lemma PartlyAddedDone<K(!new)>(m: map<K, int>, incoming: map<K, int>, r: map<K, int>)
    requires PartlyAdded(m, incoming, {}, r)
    ensures r == AddMaps(m, incoming)
  {
  }

  lemma PartlyAddedStart<K(!new)>(m: map<K, int>, incoming: map<K, int>)
    ensures PartlyAdded(m, incoming, incoming.Keys, m)
  {
  }

  /** Go's `for key, count := range incoming { m[key] += count }`, in whatever order the keys come. */
  method AddEntries<K(!new,==)>(m: map<K, int>, incoming: map<K, int>) returns (r: map<K, int>)
    ensures r == AddMaps(m, incoming)
  {
    hide AddMaps, PartlyAdded;
    r := m;
    var rest := incoming.Keys;
    PartlyAddedStart(m, incoming);
    while rest != {}
      invariant rest <= incoming.Keys && PartlyAdded(m, incoming, rest, r)
      decreases |rest|
    {
      var k :| k in rest;
      PartlyAddedStep(m, incoming, rest, r, k);
      r := r[k := Lookup(r, k) + incoming[k]];
      rest := rest - {k};
    }
    PartlyAddedDone(m, incoming, r);
  }
}
