/**
 The collector against the list of results it stands for, and distributed aggregation against one
 collector that saw everything.
 */
module CollectorLaws {
  import opened Sequences
  import opened Histograms
  import opened HistogramLaws
  import opened Collectors

  // ----- what a list of results says, without any collector

  datatype Series = Latencies | FirstTokens | Gaps

  /** Every exact count of the collector, status and error tables and histogram buckets included. */
  datatype Counter =
    | Requests | Successes | Failures | Aborted
    | WithTTFT | WithTokens | OutputTokens | WithUpstream | InputTokens | CacheRequests | CacheHits
    | Status(code: int) | ErrorIn(category: string)
    | Bucket(series: Series, index: nat)

  /** The three summed durations. */
  datatype Clock = LatencyTime | TTFTTime | UpstreamTime

  function Bit(b: bool): int
  {
    if b then 1 else 0
  }

  function SamplesIn(series: Series, r: RunResult): seq<int>
  {
    match series
    case Latencies => [r.latency]
    case FirstTokens => if r.ttft > 0 then [r.ttft] else []
    case Gaps => Positive(r.itlSamples)
  }

  /** All samples of a series, result by result. */
  function SamplesOf(series: Series, rs: seq<RunResult>): seq<int>
  {
    if |rs| == 0 then [] else SamplesOf(series, rs[..|rs| - 1]) + SamplesIn(series, rs[|rs| - 1])
  }

  /** What one result contributes to a counter. */
  function WeightOf(c: Counter, r: RunResult): int
  {
    match c
    case Requests => 1
    case Successes => Bit(r.success)
    case Failures => Bit(!r.success)
    case Aborted => Bit(r.streamingAborted)
    case WithTTFT => Bit(r.ttft > 0)
    case WithTokens => Bit(r.outputTokens > 0)
    case OutputTokens => if r.outputTokens > 0 then r.outputTokens else 0
    case WithUpstream => Bit(r.upstreamLatency > 0)
    case InputTokens => if r.inputTokens > 0 then r.inputTokens else 0
    case CacheRequests => Bit(r.cacheReported || r.cacheHit)
    case CacheHits => Bit(r.cacheHit)
    case Status(code) => Bit(r.statusCode > 0 && r.statusCode == code)
    case ErrorIn(category) => Bit(r.errorCategory != NO_ERROR && r.errorCategory == category)
    case Bucket(series, i) => InSeries(series, i, r)
  }

  function InSeries(series: Series, i: nat, r: RunResult): int
  {
    Sum(SamplesIn(series, r), InBucket(DefaultBounds(), i))
  }

  function ElapsedOf(k: Clock, r: RunResult): int
  {
    match k
    case LatencyTime => r.latency
    case TTFTTime => if r.ttft > 0 then r.ttft else 0
    case UpstreamTime => if r.upstreamLatency > 0 then r.upstreamLatency else 0
  }

  function Weight(c: Counter): RunResult -> int
  {
    (r: RunResult) => WeightOf(c, r)
  }

  function Elapsed(k: Clock): RunResult -> int
  {
    (r: RunResult) => ElapsedOf(k, r)
  }

  function Tally(rs: seq<RunResult>, c: Counter): int
  {
    Sum(rs, Weight(c))
  }

  function TimeIn(rs: seq<RunResult>, k: Clock): int
  {
    Sum(rs, Elapsed(k))
  }

  function Rate(): RunResult -> real
  {
    (r: RunResult) => if r.tokensPerSecond > 0.0 then r.tokensPerSecond else 0.0
  }

  function RateIn(rs: seq<RunResult>): real
  {
    SumReal(rs, Rate())
  }

  /** The first non-empty name in the list. */
  function FirstName(names: seq<string>): string
  {
    if |names| == 0 then "" else if names[0] != "" then names[0] else FirstName(names[1..])
  }

  function Providers(rs: seq<RunResult>): seq<string>
  {
    seq(|rs|, i requires 0 <= i < |rs| => rs[i].provider)
  }

  function Models(rs: seq<RunResult>): seq<string>
  {
    seq(|rs|, i requires 0 <= i < |rs| => rs[i].model)
  }

  function LatenciesOf(rs: seq<RunResult>): seq<int>
  {
    seq(|rs|, i requires 0 <= i < |rs| => rs[i].latency)
  }

  // ----- what a collector value and a snapshot say

  function At(counts: seq<int>, i: nat): int
  {
    if i < |counts| then counts[i] else 0
  }

  /** The histogram counts of a series. */
  function CountsFor(s: CollectorState, series: Series): seq<int>
  {
    match series
    case Latencies => s.latency.counts
    case FirstTokens => s.ttft.counts
    case Gaps => s.itl
  }

  function Get(s: CollectorState, c: Counter): int
  {
    match c
    case Requests => s.latency.requests
    case Successes => s.outcome.successes
    case Failures => s.outcome.failures
    case Aborted => s.outcome.aborted
    case WithTTFT => s.ttft.requests
    case WithTokens => s.tokens.requests
    case OutputTokens => s.tokens.total
    case WithUpstream => s.upstream.requests
    case InputTokens => s.upstream.inputTokens
    case CacheRequests => s.origin.cacheRequests
    case CacheHits => s.origin.cacheHits
    case Status(code) => Lookup(s.outcome.statusCodes, code)
    case ErrorIn(category) => Lookup(s.outcome.errorCategories, category)
    case Bucket(series, i) => At(CountsFor(s, series), i)
  }

  function Time(s: CollectorState, k: Clock): int
  {
    match k
    case LatencyTime => s.latency.total
    case TTFTTime => s.ttft.total
    case UpstreamTime => s.upstream.total
  }

  ghost predicate Counted(s: CollectorState, rs: seq<RunResult>)
  {
    forall c :: Get(s, c) == Tally(rs, c)
  }

  ghost predicate Timed(s: CollectorState, rs: seq<RunResult>)
  {
    forall k :: Time(s, k) == TimeIn(rs, k)
  }

  ghost predicate PositiveTable<K(!new)>(m: map<K, int>)
  {
    forall k :: k in m ==> m[k] > 0
  }

  /** A key is in a table only if it was counted. */
  ghost predicate PositiveTables(s: CollectorState)
  {
    PositiveTable(s.outcome.statusCodes) && PositiveTable(s.outcome.errorCategories)
  }

  ghost predicate Extremes(s: CollectorState, rs: seq<RunResult>)
  {
    IsLeast(s.latency.min, LatenciesOf(rs)) && IsGreatest(s.latency.max, LatenciesOf(rs))
  }

  /** A zero extreme means that no result had a time to first token. */
  ghost predicate TTFTExtremes(s: CollectorState, rs: seq<RunResult>)
  {
    var samples := SamplesOf(FirstTokens, rs);
    IsLeast(s.ttft.min, samples) && IsGreatest(s.ttft.max, samples)
  }

  ghost predicate Named(s: CollectorState, rs: seq<RunResult>)
  {
    s.origin.provider == FirstName(Providers(rs)) && s.origin.model == FirstName(Models(rs))
  }

  ghost predicate Estimated(s: CollectorState, rs: seq<RunResult>)
  {
    s.tokens.estimated <==> exists r :: r in rs && r.outputTokens > 0 && r.tokensEstimated
  }

  /** The collector holds exactly what the list of results says. */
  ghost predicate Represents(s: CollectorState, rs: seq<RunResult>)
  {
    && Shaped(s) && s.bounds == DefaultBounds()
    && Counted(s, rs) && Timed(s, rs) && s.tokens.rate == RateIn(rs)
    && PositiveTables(s) && Extremes(s, rs) && TTFTExtremes(s, rs) && Named(s, rs) && Estimated(s, rs)
  }

  lemma CountExact(s: CollectorState, rs: seq<RunResult>, c: Counter)
    requires Represents(s, rs)
    ensures Get(s, c) == Tally(rs, c)
  {
    hide Get, Tally, Shaped, Timed, PositiveTables, Extremes, TTFTExtremes, Named, Estimated, BoundsFrom;
  }

  lemma TimeExact(s: CollectorState, rs: seq<RunResult>, k: Clock)
    requires Represents(s, rs)
    ensures Time(s, k) == TimeIn(rs, k)
  {
    hide Time, TimeIn, Shaped, Counted, PositiveTables, Extremes, TTFTExtremes, Named, Estimated, BoundsFrom;
  }

  lemma ExtremesExact(s: CollectorState, rs: seq<RunResult>)
    requires Represents(s, rs)
    ensures IsLeast(s.latency.min, LatenciesOf(rs)) && IsGreatest(s.latency.max, LatenciesOf(rs))
    ensures IsLeast(s.ttft.min, SamplesOf(FirstTokens, rs)) && IsGreatest(s.ttft.max, SamplesOf(FirstTokens, rs))
  {
    hide Shaped, Counted, Timed, PositiveTables, Named, Estimated, BoundsFrom, LatenciesOf, SamplesOf, IsLeast, IsGreatest;
  }

  ghost predicate IsLeast(m: int, xs: seq<int>)
  {
    if |xs| == 0 then m == 0 else m in xs && forall x :: x in xs ==> m <= x
  }

  /** The maximum starts at 0, so it is the greatest of the samples and 0. */
  ghost predicate IsGreatest(m: int, xs: seq<int>)
  {
    (m == 0 || m in xs) && m >= 0 && forall x :: x in xs ==> x <= m
  }

  // ----- one-by-one folding is exact

  lemma {:induction false} RecordAllAt(bounds: seq<int>, counts: seq<int>, samples: seq<int>, i: nat)
    requires |counts| == |bounds| > 0
    ensures At(RecordAll(bounds, counts, samples), i) == At(counts, i) + Sum(samples, InBucket(bounds, i))
  {
    if |samples| > 0 {
      RecordAllAt(bounds, counts, samples[..|samples| - 1], i);
    }
  }

  lemma RecordOneAt(bounds: seq<int>, counts: seq<int>, x: int, i: nat)
    requires |counts| == |bounds| > 0
    ensures At(RecordOne(bounds, counts, x), i) == At(counts, i) + Sum([x], InBucket(bounds, i))
  {
    SumOne(x, InBucket(bounds, i));
  }

  lemma AddBucket(s: CollectorState, r: RunResult, series: Series, i: nat)
    requires Shaped(s) && s.bounds == DefaultBounds()
    ensures Get(AddResult(s, r), Bucket(series, i)) == Get(s, Bucket(series, i)) + InSeries(series, i, r)
  {
    hide BoundsFrom, AddTokens, AddOutcome, AddUpstream, AddOrigin, RecordOne, RecordAll, Sum;
    match series
    case Latencies => RecordOneAt(s.bounds, s.latency.counts, r.latency, i);
    case FirstTokens =>
      if r.ttft > 0 {
        RecordOneAt(s.bounds, s.ttft.counts, r.ttft, i);
      } else {
        EmptySum(InBucket(DefaultBounds(), i));
      }
    case Gaps => RecordAllAt(s.bounds, s.itl, Positive(r.itlSamples), i);
  }

  lemma EmptySum<T>(f: T -> int)
    ensures Sum([], f) == 0
  {
  }

  lemma AddCounter(s: CollectorState, r: RunResult, c: Counter)
    requires Shaped(s) && s.bounds == DefaultBounds()
    ensures Get(AddResult(s, r), c) == Get(s, c) + WeightOf(c, r)
  {
    if c.Bucket? {
      AddBucket(s, r, c.series, c.index);
    } else {
      hide BoundsFrom, RecordOne, RecordAll, DefaultBounds;
    }
  }

  lemma AddClock(s: CollectorState, r: RunResult, k: Clock)
    requires Shaped(s)
    ensures Time(AddResult(s, r), k) == Time(s, k) + ElapsedOf(k, r)
  {
    hide RecordOne, RecordAll;
  }

  lemma {:induction false} FirstNameSnoc(names: seq<string>, last: string)
    ensures FirstName(names + [last]) == if FirstName(names) == "" then last else FirstName(names)
  {
    if |names| > 0 && names[0] == "" {
      assert (names + [last])[1..] == names[1..] + [last];
      FirstNameSnoc(names[1..], last);
    }
  }

  lemma LeastSnoc(m: int, xs: seq<int>, x: int)
    requires IsLeast(m, xs)
    ensures IsLeast(if |xs| == 0 || x < m then x else m, xs + [x])
  {
  }

  lemma GreatestSnoc(m: int, xs: seq<int>, x: int)
    requires IsGreatest(m, xs)
    ensures IsGreatest(if x > m then x else m, xs + [x])
  {
  }

  lemma EmptyRepresents()
    ensures Represents(EmptyCollector(), [])
  {
    hide BoundsFrom;
    forall c
      ensures Get(EmptyCollector(), c) == 0
    {
    }
  }

  lemma AddCounted(s: CollectorState, rs: seq<RunResult>, r: RunResult)
    requires Shaped(s) && s.bounds == DefaultBounds() && Counted(s, rs) && Timed(s, rs)
    ensures Counted(AddResult(s, r), rs + [r]) && Timed(AddResult(s, r), rs + [r])
  {
    hide AddResult, Get, Time, WeightOf, ElapsedOf, DefaultBounds;
    forall c
      ensures Get(AddResult(s, r), c) == Tally(rs + [r], c)
    {
      AddCounter(s, r, c);
      SumSnoc(rs, r, Weight(c));
    }
    forall k
      ensures Time(AddResult(s, r), k) == TimeIn(rs + [r], k)
    {
      assert Time(s, k) == TimeIn(rs, k);
      AddClock(s, r, k);
      SumSnoc(rs, r, Elapsed(k));
    }
  }

  lemma AddExtremes(s: CollectorState, rs: seq<RunResult>, r: RunResult)
    requires Shaped(s) && Counted(s, rs) && Extremes(s, rs)
    ensures Extremes(AddResult(s, r), rs + [r])
  {
    assert LatenciesOf(rs + [r]) == LatenciesOf(rs) + [r.latency];
    assert s.latency.requests == |rs| by {
      assert Get(s, Requests) == Tally(rs, Requests);
      RequestsCounted(rs);
    }
    LeastSnoc(s.latency.min, LatenciesOf(rs), r.latency);
    GreatestSnoc(s.latency.max, LatenciesOf(rs), r.latency);
  }

  lemma SamplesSnoc(series: Series, rs: seq<RunResult>, r: RunResult)
    ensures SamplesOf(series, rs + [r]) == SamplesOf(series, rs) + SamplesIn(series, r)
  {
    assert (rs + [r])[..|rs|] == rs;
  }

  lemma {:induction false} TTFTPositive(rs: seq<RunResult>)
    ensures forall x :: x in SamplesOf(FirstTokens, rs) ==> x > 0
  {
    if |rs| > 0 {
      TTFTPositive(rs[..|rs| - 1]);
    }
  }

  lemma AddTTFTExtremes(s: CollectorState, rs: seq<RunResult>, r: RunResult)
    requires Shaped(s) && TTFTExtremes(s, rs)
    ensures TTFTExtremes(AddResult(s, r), rs + [r])
  {
    var xs := SamplesOf(FirstTokens, rs);
    SamplesSnoc(FirstTokens, rs, r);
    TTFTPositive(rs);
    if r.ttft > 0 {
      assert s.ttft.min == 0 <==> |xs| == 0;
      LeastSnoc(s.ttft.min, xs, r.ttft);
      GreatestSnoc(s.ttft.max, xs, r.ttft);
    } else {
      assert xs + [] == xs;
    }
    hide IsLeast, IsGreatest, SamplesOf;
  }

  lemma AddNamed(s: CollectorState, rs: seq<RunResult>, r: RunResult)
    requires Shaped(s) && Named(s, rs) && Estimated(s, rs) && PositiveTables(s)
    ensures Named(AddResult(s, r), rs + [r]) && Estimated(AddResult(s, r), rs + [r]) && PositiveTables(AddResult(s, r))
  {
    assert Providers(rs + [r]) == Providers(rs) + [r.provider];
    assert Models(rs + [r]) == Models(rs) + [r.model];
    FirstNameSnoc(Providers(rs), r.provider);
    FirstNameSnoc(Models(rs), r.model);
    assert r in rs + [r];
    assert forall x :: x in rs + [r] ==> x in rs || x == r;
    assert forall x :: x in rs ==> x in rs + [r];
  }

  /** Adding one result to an exact collector leaves it exact, one result longer. */
  lemma AddRepresents(s: CollectorState, rs: seq<RunResult>, r: RunResult)
    requires Represents(s, rs)
    ensures Represents(AddResult(s, r), rs + [r])
  {
    AddCounted(s, rs, r);
    AddExtremes(s, rs, r);
    AddTTFTExtremes(s, rs, r);
    AddNamed(s, rs, r);
    assert (rs + [r])[..|rs|] == rs;
    hide Counted, Timed, PositiveTables, Extremes, TTFTExtremes, Named, Estimated;
  }

  lemma RequestsCounted(rs: seq<RunResult>)
    ensures Tally(rs, Requests) == |rs|
    ensures Tally(rs, Successes) + Tally(rs, Failures) == |rs|
  {
    SumBetween(rs, Weight(Requests), 1, 1);
    SumPointwise(rs, Weight(Requests), Weight(Successes), Weight(Failures));
  }

  function FoldResults(rs: seq<RunResult>): (s: CollectorState)
    ensures Shaped(s)
  {
    if |rs| == 0 then EmptyCollector() else AddResult(FoldResults(rs[..|rs| - 1]), rs[|rs| - 1])
  }

  /** Feeding a list of results one at a time gives a collector that is exact for the list. */
  lemma {:induction false} FoldRepresents(rs: seq<RunResult>)
    ensures Represents(FoldResults(rs), rs)
  {
    hide Represents, AddResult, EmptyCollector, BoundsFrom;
    if |rs| == 0 {
      EmptyRepresents();
    } else {
      var init, last := rs[..|rs| - 1], rs[|rs| - 1];
      FoldRepresents(init);
      AddRepresents(FoldResults(init), init, last);
      assert FoldResults(rs) == AddResult(FoldResults(init), last);
      hide FoldResults;
      assert rs == init + [last];
    }
  }
}
