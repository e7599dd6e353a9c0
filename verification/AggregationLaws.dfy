/** The main results about distributed aggregation. */
module AggregationLaws {
  import opened Durations
  import opened Sequences
  import opened Histograms
  import opened HistogramLaws
  import opened Collectors
  import opened CollectorLaws
  import opened Aggregation

  // ----- maximum

  function Larger(a: int, b: int): int
  {
    if a < b then b else a
  }

  lemma GreatestConcat(a: int, xs: seq<int>, b: int, ys: seq<int>)
    requires IsGreatest(a, xs) && IsGreatest(b, ys)
    ensures IsGreatest(Larger(a, b), xs + ys)
  {
  }

  lemma GreatestUnique(a: int, b: int, xs: seq<int>)
    requires IsGreatest(a, xs) && IsGreatest(b, xs)
    ensures a == b
  {
  }

  lemma GreatestNonNegative(a: int, xs: seq<int>)
    requires IsGreatest(a, xs)
    ensures a >= 0 && (|xs| == 0 ==> a == 0)
  {
  }

  lemma FloorMonotone(a: int, b: int)
    requires a <= b
    ensures Floor(a) <= Floor(b)
  {
  }

  lemma MergeMax(m: CollectorState, t: CollectorState, before: int)
    requires m.latency.max == Floor(before) && t.latency.max >= 0 && before >= 0
    requires !Busy(t) ==> t.latency.max == 0
    ensures Merge(m, SnapshotOf(t)).latency.max == Floor(Larger(before, t.latency.max))
  {
    FloorMonotone(before, Larger(before, t.latency.max));
    FloorMonotone(t.latency.max, Larger(before, t.latency.max));
  }

  /** The merged maximum is the true maximum at microsecond floor. */
  lemma {:induction false} MergedMax(ts: seq<CollectorState>, shards: seq<seq<RunResult>>, m: int)
    requires Shards(ts, shards) && IsGreatest(m, LatenciesOf(Flatten(shards)))
    ensures MergeStates(ts).latency.max == Floor(m)
    decreases |ts|
  {
    hide BoundsFrom;
    if |ts| == 0 {
      assert LatenciesOf(Flatten(shards)) == [];
    } else {
      var k := |ts| - 1;
      var rs, t, shard := Flatten(shards[..k]), ts[k], shards[k];
      assert MergeStates(ts) == Merge(MergeStates(ts[..k]), SnapshotOf(ts[k]));
      hide Represents, Merge, SnapshotOf, Floor, IsGreatest, Larger, Shards, Flatten, EmptyCollector, MergeStates;
      LastShard(ts, shards, k);
      LatenciesConcat(rs, shard);
      GreatestOf(t, shard);
      var before := GreatestExists(LatenciesOf(rs));
      GreatestConcat(before, LatenciesOf(rs), t.latency.max, LatenciesOf(shard));
      GreatestUnique(Larger(before, t.latency.max), m, LatenciesOf(rs + shard));
      MergedMax(ts[..k], shards[..k], before);
      GreatestNonNegative(before, LatenciesOf(rs));
      GreatestNonNegative(t.latency.max, LatenciesOf(shard));
      MergeMax(MergeStates(ts[..k]), t, before);
    }
  }

  lemma {:induction false} GreatestExists(xs: seq<int>) returns (m: int)
    ensures IsGreatest(m, xs)
  {
    m := 0;
    if |xs| > 0 {
      m := GreatestExists(xs[..|xs| - 1]);
      GreatestSnoc(m, xs[..|xs| - 1], xs[|xs| - 1]);
      assert xs == xs[..|xs| - 1] + [xs[|xs| - 1]];
      m := if xs[|xs| - 1] > m then xs[|xs| - 1] else m;
    }
  }

  // ----- minimum

  /** The minima, in microseconds, that the non-empty snapshots carry, in merge order. */
  function CarriedMinima(ts: seq<CollectorState>): seq<int>
  {
    if |ts| == 0 then []
    else
      var last := ts[|ts| - 1];
      CarriedMinima(ts[..|ts| - 1]) + if Busy(last) then [Micros(last.latency.min)] else []
  }

  /** The minimum the merging code ends with: a later minimum counts only if it is positive. */
  function RunningMin(ms: seq<int>): int
  {
    if |ms| == 0 then 0
    else
      var acc, m := RunningMin(ms[..|ms| - 1]), ms[|ms| - 1];
      if |ms| == 1 || 0 < m < acc then m else acc
  }

  /** The guard: the first carried minimum is 0, or none is. */
  predicate MinimumKept(ms: seq<int>)
  {
    |ms| > 0 && ms[0] != 0 ==> 0 !in ms
  }

  ghost predicate AllNonNegative(ms: seq<int>)
  {
    forall m :: m in ms ==> m >= 0
  }

  lemma {:induction false} RunningMinShape(ms: seq<int>)
    requires |ms| > 0 && AllNonNegative(ms)
    ensures RunningMin(ms) in ms
    ensures ms[0] == 0 ==> RunningMin(ms) == 0
    ensures ms[0] > 0 ==> RunningMin(ms) > 0 && forall m :: m in ms && m > 0 ==> RunningMin(ms) <= m
  {
    var init, last := ms[..|ms| - 1], ms[|ms| - 1];
    assert ms == init + [last];
    assert forall m :: m in init ==> m in ms;
    assert forall m :: m in ms ==> m in init || m == last;
    if |ms| > 1 {
      RunningMinShape(init);
    }
  }

  /** The running minimum is the true minimum exactly when the guard holds. */
  lemma RunningMinExact(ms: seq<int>)
    requires |ms| > 0 && AllNonNegative(ms)
    ensures IsLeast(RunningMin(ms), ms) <==> MinimumKept(ms)
  {
    RunningMinShape(ms);
    assert ms[0] in ms;
  }

  /** Over all merge orders: the minimum is right in every order iff all minima are 0 or none is. */
  lemma MinimumKeptInEveryOrder(ms: seq<int>)
    requires AllNonNegative(ms)
    ensures (forall p: seq<int> :: multiset(p) == multiset(ms) ==> MinimumKept(p))
            <==> (0 !in ms || forall m :: m in ms ==> m == 0)
  {
    forall p: seq<int> | multiset(p) == multiset(ms) && (0 !in ms || forall m :: m in ms ==> m == 0)
      ensures MinimumKept(p)
    {
      if |p| > 0 {
        assert p[0] in multiset(p);
        assert p[0] in ms;
        assert 0 in p ==> 0 in multiset(p);
      }
    }
    if 0 in ms && exists m :: m in ms && m != 0 {
      var m :| m in ms && m != 0;
      var i :| 0 <= i < |ms| && ms[i] == m;
      var p := PutFirst(ms, i);
      assert 0 in multiset(p);
      assert !MinimumKept(p);
    }
  }

  lemma PutFirst(ms: seq<int>, i: nat) returns (p: seq<int>)
    requires i < |ms|
    ensures multiset(p) == multiset(ms) && |p| > 0 && p[0] == ms[i]
  {
    p := [ms[i]] + (ms[..i] + ms[i + 1..]);
    assert ms == ms[..i] + [ms[i]] + ms[i + 1..];
  }

  lemma MergeMin(m: LatencyPart, ms: seq<int>, t: CollectorState)
    requires m.min == RunningMin(ms) * MICROSECOND && m.requests >= 0 && (m.requests == 0 <==> |ms| == 0)
    requires t.latency.requests > 0
    ensures var n := MergeLatency(m, SnapshotOf(t));
            n.min == RunningMin(ms + [Micros(t.latency.min)]) * MICROSECOND && n.requests > 0
  {
    assert (ms + [Micros(t.latency.min)])[..|ms|] == ms;
  }

  lemma {:induction false} MergedMinRuns(ts: seq<CollectorState>, shards: seq<seq<RunResult>>)
    requires Shards(ts, shards)
    ensures MergeStates(ts).latency.min == RunningMin(CarriedMinima(ts)) * MICROSECOND
    ensures MergeStates(ts).latency.requests >= 0
    ensures MergeStates(ts).latency.requests == 0 <==> |CarriedMinima(ts)| == 0
    decreases |ts|
  {
    hide BoundsFrom;
    if |ts| > 0 {
      var k := |ts| - 1;
      LastShard(ts, shards, k);
      assert MergeStates(ts) == Merge(MergeStates(ts[..k]), SnapshotOf(ts[k]));
      hide MergeStates, RunningMin, Represents, Shards, Flatten, EmptyCollector;
      MergedMinRuns(ts[..k], shards[..k]);
      if Busy(ts[k]) {
        MergeMin(MergeStates(ts[..k]).latency, CarriedMinima(ts[..k]), ts[k]);
      } else {
        assert CarriedMinima(ts) == CarriedMinima(ts[..k]);
      }
    }
  }

  lemma LeastFloors(a: int, xs: seq<int>, ms: seq<int>, b: int, ys: seq<int>, least: int)
    requires IsLeast(a, xs) && IsLeast(Micros(a), ms) && (|xs| == 0 <==> |ms| == 0) && a >= 0 && b >= 0
    requires IsLeast(b, ys) && |ys| > 0 && IsLeast(least, xs + ys)
    ensures IsLeast(Micros(least), ms + [Micros(b)])
  {
    if |xs| == 0 {
      assert xs + ys == ys;
      assert ms + [Micros(b)] == [Micros(b)];
    } else {
      assert a in xs + ys && b in xs + ys;
      assert least in xs || least in ys;
      assert least == if a < b then a else b;
    }
  }

  lemma LeastInResults(least: int, rs: seq<RunResult>)
    requires IsLeast(least, LatenciesOf(rs)) && NonNegativeLatencies(rs)
    ensures least >= 0
  {
    if |rs| > 0 {
      var i :| 0 <= i < |rs| && rs[i].latency == least;
      assert rs[i] in rs;
    }
  }

  /** One more collector: its minimum joins the carried ones if it is busy. */
  lemma LeastStep(ms: seq<int>, rs: seq<RunResult>, t: CollectorState, shard: seq<RunResult>, before: int, least: int)
    requires Represents(t, shard) && t.latency.requests == |shard| && NonNegativeLatencies(rs) && NonNegativeLatencies(shard)
    requires IsLeast(before, LatenciesOf(rs)) && IsLeast(Micros(before), ms) && AllNonNegative(ms) && (|ms| == 0 <==> |rs| == 0)
    requires IsLeast(least, LatenciesOf(rs + shard))
    ensures var ns := if Busy(t) then ms + [Micros(t.latency.min)] else ms;
            IsLeast(Micros(least), ns) && AllNonNegative(ns) && (|ns| == 0 <==> |rs + shard| == 0)
  {
    LeastOf(t, shard);
    LatenciesConcat(rs, shard);
    hide Represents, IsLeast, Micros, LatenciesOf, NonNegativeLatencies, AllNonNegative;
    if Busy(t) {
      LeastInResults(before, rs);
      LeastInResults(t.latency.min, shard);
      SizeOfLatencies(rs);
      SizeOfLatencies(shard);
      hide Busy;
      LeastFloors(before, LatenciesOf(rs), ms, t.latency.min, LatenciesOf(shard), least);
      NonNegativeSnoc(ms, t.latency.min);
    } else {
      assert rs + shard == rs;
      hide Busy;
      LeastUnique(before, least, LatenciesOf(rs));
    }
  }

  lemma LatenciesConcat(a: seq<RunResult>, b: seq<RunResult>)
    ensures LatenciesOf(a + b) == LatenciesOf(a) + LatenciesOf(b)
  {
  }

  /** The least carried minimum is the true minimum, cut to whole microseconds. */
  lemma {:induction false} LeastCarried(ts: seq<CollectorState>, shards: seq<seq<RunResult>>, least: int)
    requires Shards(ts, shards) && NonNegativeLatencies(Flatten(shards))
    requires IsLeast(least, LatenciesOf(Flatten(shards)))
    ensures IsLeast(Micros(least), CarriedMinima(ts)) && AllNonNegative(CarriedMinima(ts))
    ensures |CarriedMinima(ts)| == 0 <==> |Flatten(shards)| == 0
    decreases |ts|
  {
    if |ts| > 0 {
      hide Represents, IsLeast, Micros, LatenciesOf, Shards, Flatten, NonNegativeLatencies, AllNonNegative, Busy;
      var k := |ts| - 1;
      LastShard(ts, shards, k);
      var before := LeastExists(LatenciesOf(Flatten(shards[..k])));
      LeastCarried(ts[..k], shards[..k], before);
      LeastStep(CarriedMinima(ts[..k]), Flatten(shards[..k]), ts[k], shards[k], before, least);
      CarriedSnoc(ts);
    } else {
      assert Flatten(shards) == [];
    }
  }

  lemma CarriedSnoc(ts: seq<CollectorState>)
    requires |ts| > 0
    ensures var k := |ts| - 1;
            CarriedMinima(ts) == if Busy(ts[k]) then CarriedMinima(ts[..k]) + [Micros(ts[k].latency.min)] else CarriedMinima(ts[..k])
  {
    hide Busy, Micros;
  }

  lemma GreatestOf(t: CollectorState, rs: seq<RunResult>)
    requires Represents(t, rs)
    ensures IsGreatest(t.latency.max, LatenciesOf(rs)) && (rs == [] ==> t.latency.max == 0)
  {
  }

  lemma LeastOf(t: CollectorState, rs: seq<RunResult>)
    requires Represents(t, rs)
    ensures IsLeast(t.latency.min, LatenciesOf(rs))
  {
  }

  lemma SizeOfLatencies(rs: seq<RunResult>)
    ensures |LatenciesOf(rs)| == |rs|
  {
  }

  lemma NonNegativeSnoc(ms: seq<int>, d: int)
    requires AllNonNegative(ms) && d >= 0
    ensures AllNonNegative(ms + [Micros(d)])
  {
  }

  lemma LeastUnique(a: int, b: int, xs: seq<int>)
    requires IsLeast(a, xs) && IsLeast(b, xs)
    ensures a == b
  {
  }

  lemma {:induction false} LeastExists(xs: seq<int>) returns (m: int)
    ensures IsLeast(m, xs)
  {
    m := 0;
    if |xs| > 0 {
      m := LeastExists(xs[..|xs| - 1]);
      LeastSnoc(m, xs[..|xs| - 1], xs[|xs| - 1]);
      assert xs == xs[..|xs| - 1] + [xs[|xs| - 1]];
      m := if |xs| == 1 || xs[|xs| - 1] < m then xs[|xs| - 1] else m;
    }
  }

  // ----- distributed equals centralised

  lemma TableDetermined<K(!new)>(a: map<K, int>, b: map<K, int>)
    requires PositiveTable(a) && PositiveTable(b)
    requires forall k :: k in a || k in b ==> Lookup(a, k) == Lookup(b, k)
    ensures a == b
  {
    assert forall k :: k in a ==> Lookup(a, k) > 0;
    assert forall k :: k in b ==> Lookup(b, k) > 0;
  }

  /** Everything two collectors share when all their exact counters agree. */
  ghost predicate SameCounts(m: CollectorState, s: CollectorState)
  {
    && m.outcome == s.outcome && m.itl == s.itl
    && m.latency.requests == s.latency.requests && m.latency.counts == s.latency.counts
    && m.ttft.requests == s.ttft.requests && m.ttft.counts == s.ttft.counts
    && m.tokens.requests == s.tokens.requests && m.tokens.total == s.tokens.total
    && m.upstream.requests == s.upstream.requests && m.upstream.inputTokens == s.upstream.inputTokens
    && m.origin.cacheRequests == s.origin.cacheRequests && m.origin.cacheHits == s.origin.cacheHits
  }

  lemma BucketsDetermined(m: CollectorState, s: CollectorState)
    requires Shaped(m) && Shaped(s) && |m.bounds| == |s.bounds|
    requires forall c: Counter :: Get(m, c) == Get(s, c)
    ensures m.latency.counts == s.latency.counts && m.ttft.counts == s.ttft.counts && m.itl == s.itl
  {
    forall i | 0 <= i < |s.bounds|
      ensures m.latency.counts[i] == s.latency.counts[i] && m.ttft.counts[i] == s.ttft.counts[i] && m.itl[i] == s.itl[i]
    {
      assert Get(m, Bucket(Latencies, i)) == Get(s, Bucket(Latencies, i));
      assert Get(m, Bucket(FirstTokens, i)) == Get(s, Bucket(FirstTokens, i));
      assert Get(m, Bucket(Gaps, i)) == Get(s, Bucket(Gaps, i));
    }
  }

  lemma TablesDetermined(m: CollectorState, s: CollectorState)
    requires PositiveTables(m) && PositiveTables(s)
    requires forall c: Counter :: Get(m, c) == Get(s, c)
    ensures m.outcome == s.outcome
  {
    forall code | code in m.outcome.statusCodes || code in s.outcome.statusCodes
      ensures Lookup(m.outcome.statusCodes, code) == Lookup(s.outcome.statusCodes, code)
    {
      assert Get(m, Status(code)) == Get(s, Status(code));
    }
    forall e | e in m.outcome.errorCategories || e in s.outcome.errorCategories
      ensures Lookup(m.outcome.errorCategories, e) == Lookup(s.outcome.errorCategories, e)
    {
      assert Get(m, ErrorIn(e)) == Get(s, ErrorIn(e));
    }
    TableDetermined(m.outcome.statusCodes, s.outcome.statusCodes);
    TableDetermined(m.outcome.errorCategories, s.outcome.errorCategories);
    assert Get(m, Successes) == Get(s, Successes) && Get(m, Failures) == Get(s, Failures) && Get(m, Aborted) == Get(s, Aborted);
  }

  lemma CountersDetermine(m: CollectorState, s: CollectorState)
    requires Shaped(m) && Shaped(s) && |m.bounds| == |s.bounds| && PositiveTables(m) && PositiveTables(s)
    requires forall c: Counter :: Get(m, c) == Get(s, c)
    ensures SameCounts(m, s)
  {
    BucketsDetermined(m, s);
    TablesDetermined(m, s);
    assert Get(m, Requests) == Get(s, Requests) && Get(m, WithTTFT) == Get(s, WithTTFT);
    assert Get(m, WithTokens) == Get(s, WithTokens) && Get(m, OutputTokens) == Get(s, OutputTokens);
    assert Get(m, WithUpstream) == Get(s, WithUpstream) && Get(m, InputTokens) == Get(s, InputTokens);
    assert Get(m, CacheRequests) == Get(s, CacheRequests) && Get(m, CacheHits) == Get(s, CacheHits);
  }

  /** The shards are some way of dealing out the results in `all`, in any order. */
  ghost predicate Dealt(all: seq<RunResult>, shards: seq<seq<RunResult>>)
  {
    multiset(all) == multiset(Flatten(shards))
  }

  lemma LatenciesPerm(a: seq<RunResult>, b: seq<RunResult>, x: int)
    requires multiset(a) == multiset(b) && x in LatenciesOf(a)
    ensures x in LatenciesOf(b)
  {
    var i :| 0 <= i < |a| && a[i].latency == x;
    assert a[i] in multiset(b);
    assert a[i] in b;
    var j :| 0 <= j < |b| && b[j] == a[i];
    assert LatenciesOf(b)[j] == x;
  }

  lemma ExtremesPerm(a: seq<RunResult>, b: seq<RunResult>, s: CollectorState)
    requires multiset(a) == multiset(b) && Extremes(s, a)
    ensures Extremes(s, b)
  {
    assert |a| == |multiset(a)| == |b|;
    forall x
      ensures x in LatenciesOf(a) <==> x in LatenciesOf(b)
    {
      if x in LatenciesOf(a) {
        LatenciesPerm(a, b, x);
      }
      if x in LatenciesOf(b) {
        LatenciesPerm(b, a, x);
      }
    }
  }

  /** What a snapshot does not carry: a merged collector never has it. */
  lemma {:induction false} NeverMerged(ts: seq<CollectorState>)
    ensures var m := MergeStates(ts); !m.tokens.estimated && m.ttft.min == 0 && m.ttft.max == 0
  {
    hide BoundsFrom;
    if |ts| > 0 {
      NeverMerged(ts[..|ts| - 1]);
      hide SnapshotOf, AddMaps, MergedCounts;
    }
  }

  ghost predicate SomeEstimate(rs: seq<RunResult>)
  {
    exists r :: r in rs && r.outputTokens > 0 && r.tokensEstimated
  }

  lemma DealtNonNegative(all: seq<RunResult>, shards: seq<seq<RunResult>>)
    requires Dealt(all, shards) && NonNegativeLatencies(all)
    ensures NonNegativeLatencies(Flatten(shards))
  {
    var flat := Flatten(shards);
    forall r | r in flat
      ensures r.latency >= 0
    {
      assert r in multiset(flat);
      assert r in multiset(all);
    }
  }

  /**
   For any way of dealing any results out to any number of collectors and any merge order, the
   merged collector has exactly the counts, tables and histograms of one collector fed everything,
   the same token rate, and the same maximum at microsecond floor; each summed duration falls short
   by at least 0 and at most 999 ns a collector; the minimum is right exactly under the guard, and the
   flag for estimated tokens exactly if no result has any, the extremes of the time to first token
   exactly if no result has one. Provider and model are those of the first result that has one, in
   merge order.
   */
  lemma DistributedIsCentral(ts: seq<CollectorState>, shards: seq<seq<RunResult>>, all: seq<RunResult>, s: CollectorState)
    requires Shards(ts, shards) && Dealt(all, shards) && Represents(s, all) && NonNegativeLatencies(all)
    ensures SameCounts(MergeStates(ts), s) && MergeStates(ts).tokens.rate == s.tokens.rate
    ensures MergeStates(ts).latency.max == Floor(s.latency.max)
    ensures forall k :: 0 <= Time(s, k) - Time(MergeStates(ts), k) <= 999 * |ts|
    ensures MergeStates(ts).latency.min == Floor(s.latency.min) <==> MinimumKept(CarriedMinima(ts))
    ensures MergeStates(ts).tokens.estimated == s.tokens.estimated <==> !SomeEstimate(all)
    ensures MergeStates(ts).ttft.min == 0 && MergeStates(ts).ttft.max == 0
    ensures MergeStates(ts).ttft.min == s.ttft.min <==> SamplesOf(FirstTokens, all) == []
    ensures MergeStates(ts).ttft.max == s.ttft.max <==> SamplesOf(FirstTokens, all) == []
    ensures Named(MergeStates(ts), Flatten(shards))
    ensures Shaped(MergeStates(ts)) && MergeStates(ts).bounds == DefaultBounds()
  {
    var flat, m := Flatten(shards), MergeStates(ts);
    DealtNonNegative(all, shards);
    MergedAgrees(ts, shards);
    ExtremesPerm(all, flat, s);
    MergedMax(ts, shards, s.latency.max);
    SumRealPerm(all, flat, Rate());
    CountsAgree(m, s, flat, all);
    forall k
      ensures 0 <= Time(s, k) - Time(m, k) <= 999 * |ts|
    {
      SumPerm(all, flat, Elapsed(k));
      assert Time(s, k) == TimeIn(all, k);
      assert 0 <= TimeIn(flat, k) - Time(m, k) <= 999 * |ts|;
    }
    MinimumAgrees(ts, shards, s.latency.min);
    NeverMerged(ts);
    TTFTExtremesZero(s, all);
  }

  lemma TTFTExtremesZero(s: CollectorState, rs: seq<RunResult>)
    requires Represents(s, rs)
    ensures s.ttft.min == 0 <==> SamplesOf(FirstTokens, rs) == []
    ensures s.ttft.max == 0 <==> SamplesOf(FirstTokens, rs) == []
  {
    TTFTPositive(rs);
    assert TTFTExtremes(s, rs);
    hide Represents;
    var xs := SamplesOf(FirstTokens, rs);
    if xs != [] {
      assert xs[0] in xs;
    }
  }

  lemma CountsAgree(m: CollectorState, s: CollectorState, flat: seq<RunResult>, all: seq<RunResult>)
    requires Shaped(m) && m.bounds == DefaultBounds() && Counted(m, flat) && PositiveTables(m)
    requires multiset(all) == multiset(flat) && Represents(s, all)
    ensures SameCounts(m, s)
  {
    forall c: Counter
      ensures Get(m, c) == Get(s, c)
    {
      assert Get(m, c) == Tally(flat, c);
      assert Get(s, c) == Tally(all, c);
      SumPerm(all, flat, Weight(c));
    }
    CountersDetermine(m, s);
  }

  lemma MinimumAgrees(ts: seq<CollectorState>, shards: seq<seq<RunResult>>, least: int)
    requires Shards(ts, shards) && NonNegativeLatencies(Flatten(shards)) && IsLeast(least, LatenciesOf(Flatten(shards)))
    ensures MergeStates(ts).latency.min == Floor(least) <==> MinimumKept(CarriedMinima(ts))
  {
    LeastCarried(ts, shards, least);
    MergedMinRuns(ts, shards);
    var ms := CarriedMinima(ts);
    if |ms| > 0 {
      RunningMinExact(ms);
      if IsLeast(RunningMin(ms), ms) {
        LeastUnique(RunningMin(ms), Micros(least), ms);
      }
    }
  }

  // ----- the window of a merge

  function Windows(ts: seq<CollectorState>): (ws: seq<Window>)
    ensures |ws| == |ts| && forall i :: 0 <= i < |ws| ==> ws[i] == ts[i].window
  {
    seq(|ts|, i requires 0 <= i < |ts| => ts[i].window)
  }

  /** From the earliest start that was set to the latest end; 0 if none was set. */
  ghost predicate Spans(w: Window, ws: seq<Window>)
  {
    && (forall i :: 0 <= i < |ws| && ws[i].start != 0 ==> 0 < w.start <= ws[i].start)
    && (w.start != 0 ==> exists i :: 0 <= i < |ws| && ws[i].start == w.start)
    && (forall i :: 0 <= i < |ws| ==> ws[i].end <= w.end)
    && (w.end != 0 ==> exists i :: 0 <= i < |ws| && ws[i].end == w.end)
  }

  /** Merging any collectors, idle ones included, gives the smallest window around all of theirs. */
  lemma {:induction false} MergedWindow(ts: seq<CollectorState>)
    ensures Spans(MergeStates(ts).window, Windows(ts))
  {
    hide *;
    if |ts| > 0 {
      var init, last := ts[..|ts| - 1], ts[|ts| - 1];
      MergedWindow(init);
      LastWindow(ts);
      SpansMore(MergeStates(init).window, Windows(init), last.window);
    } else {
      NoWindow(ts);
    }
  }

  lemma NoWindow(ts: seq<CollectorState>)
    requires |ts| == 0
    ensures Spans(MergeStates(ts).window, Windows(ts))
  {
    hide BoundsFrom;
  }

  lemma LastWindow(ts: seq<CollectorState>)
    requires |ts| > 0
    ensures var init, last := ts[..|ts| - 1], ts[|ts| - 1];
            && Windows(ts) == Windows(init) + [last.window]
            && MergeStates(ts).window == Widened(MergeStates(init).window, last.window)
  {
    hide Merge, SnapshotOf, Widened, EmptyCollector;
    MergeOneWindow(MergeStates(ts[..|ts| - 1]), ts[|ts| - 1]);
  }

  function Widened(w: Window, x: Window): Window
  {
    Window(if x.start != 0 && (w.start == 0 || x.start < w.start) then x.start else w.start, if x.end > w.end then x.end else w.end)
  }

  lemma MergeOneWindow(s: CollectorState, t: CollectorState)
    ensures Merge(s, SnapshotOf(t)).window == Widened(s.window, t.window)
  {
    hide AddMaps, MergedCounts, Micros;
  }

  lemma SpansMore(w: Window, ws: seq<Window>, x: Window)
    requires Spans(w, ws)
    ensures Spans(Widened(w, x), ws + [x])
  {
    var all, n := ws + [x], Widened(w, x);
    assert all[|ws|] == x && forall i :: 0 <= i < |ws| ==> all[i] == ws[i];
    if w.start != 0 {
      var i :| 0 <= i < |ws| && ws[i].start == w.start;
      assert all[i].start == w.start;
    }
    if w.end != 0 {
      var i :| 0 <= i < |ws| && ws[i].end == w.end;
      assert all[i].end == w.end;
    }
  }

  // ----- percentiles of a distributed run

  lemma {:induction false} SeriesBuckets(series: Series, rs: seq<RunResult>, i: nat)
    ensures Tally(rs, Bucket(series, i)) == Sum(SamplesOf(series, rs), InBucket(DefaultBounds(), i))
  {
    hide BoundsFrom, BucketOf;
    if |rs| > 0 {
      var init, last := rs[..|rs| - 1], rs[|rs| - 1];
      SeriesBuckets(series, init, i);
      SumConcat(SamplesOf(series, init), SamplesIn(series, last), InBucket(DefaultBounds(), i));
    }
  }

  /** The counts of each histogram are those of the samples of its series. */
  lemma RepresentedCounts(series: Series, s: CollectorState, rs: seq<RunResult>)
    requires Represents(s, rs)
    ensures Counts(DefaultBounds(), CountsFor(s, series), SamplesOf(series, rs))
  {
    RepresentedShape(series, s, rs);
    hide Represents, SamplesOf, Tally, Get, CountsFor;
    forall i | 0 <= i < |CountsFor(s, series)|
      ensures CountsFor(s, series)[i] == Sum(SamplesOf(series, rs), InBucket(DefaultBounds(), i))
    {
      SeriesBuckets(series, rs, i);
    }
  }

  lemma RepresentedShape(series: Series, s: CollectorState, rs: seq<RunResult>)
    requires Represents(s, rs)
    ensures |CountsFor(s, series)| == |DefaultBounds()|
    ensures forall i :: 0 <= i < |CountsFor(s, series)| ==> CountsFor(s, series)[i] == Tally(rs, Bucket(series, i))
  {
    hide BoundsFrom;
    forall i | 0 <= i < |CountsFor(s, series)|
      ensures CountsFor(s, series)[i] == Tally(rs, Bucket(series, i))
    {
      assert Get(s, Bucket(series, i)) == Tally(rs, Bucket(series, i));
    }
  }

  lemma {:induction false} PositiveOnly(samples: seq<int>)
    ensures forall x :: x in Positive(samples) ==> x > 0
  {
    if |samples| > 0 {
      PositiveOnly(samples[..|samples| - 1]);
    }
  }

  lemma {:induction false} SeriesNonNegative(series: Series, rs: seq<RunResult>)
    requires NonNegativeLatencies(rs)
    ensures forall x :: x in SamplesOf(series, rs) ==> x >= 0
  {
    if |rs| > 0 {
      var init, last := rs[..|rs| - 1], rs[|rs| - 1];
      assert last in rs && NonNegativeLatencies(init);
      SeriesNonNegative(series, init);
      PositiveOnly(last.itlSamples);
    }
  }

  lemma {:induction false} LatencySamples(rs: seq<RunResult>)
    ensures SamplesOf(Latencies, rs) == LatenciesOf(rs)
  {
    if |rs| > 0 {
      LatencySamples(rs[..|rs| - 1]);
      LatenciesConcat(rs[..|rs| - 1], [rs[|rs| - 1]]);
      assert rs == rs[..|rs| - 1] + [rs[|rs| - 1]];
    }
  }

  /**
   Every quantile of a distributed run, for latencies, times to first token and inter-token gaps alike,
   against the plain sorted list of all samples: it is the bound of the true order statistic's bucket,
   so x <= answer < 1.25 (x + 1us) for x up to 60 s.
   */
  lemma DistributedQuantile(series: Series, ts: seq<CollectorState>, shards: seq<seq<RunResult>>, all: seq<RunResult>, sorted: seq<int>,
                            q: real, rank: int)
    requires Shards(ts, shards) && Dealt(all, shards) && NonNegativeLatencies(all) && |SamplesOf(series, all)| > 0
    requires IsSorted(sorted) && multiset(sorted) == multiset(SamplesOf(series, all))
    requires Rank(|SamplesOf(series, all)|, q, rank)
    ensures |CountsFor(MergeStates(ts), series)| == |DefaultBounds()| && |sorted| == |SamplesOf(series, all)|
    ensures var x := sorted[rank - 1];
            var answer := QuantileOf(DefaultBounds(), CountsFor(MergeStates(ts), series), q);
            && answer == DefaultBounds()[BucketOf(DefaultBounds(), Clamp(x))]
            && (x <= answer <==> x <= MAX_BOUND) && 4 * answer < 5 * (x + MICROSECOND)
  {
    hide BoundsFrom, Represents, QuantileOf, Counts, Named, CarriedMinima, MinimumKept, SomeEstimate, SamplesOf;
    var s := FoldResults(all);
    FoldRepresents(all);
    hide FoldResults, MergeStates;
    DistributedIsCentral(ts, shards, all, s);
    RepresentedCounts(series, s, all);
    SeriesNonNegative(series, all);
    QuantileIsOrderStatistic(DefaultBounds(), CountsFor(s, series), SamplesOf(series, all), sorted, q, rank);
    QuantileErrorBound(CountsFor(s, series), SamplesOf(series, all), sorted, q, rank);
    CountsShared(MergeStates(ts), s, series);
  }

  lemma CountsShared(m: CollectorState, s: CollectorState, series: Series)
    requires SameCounts(m, s)
    ensures CountsFor(m, series) == CountsFor(s, series)
  {
  }

  // ----- snapshots are a fixpoint

  /** Nothing added: an empty collector, whatever its window. */
  predicate Untouched(s: CollectorState)
  {
    s == EmptyCollector().(window := s.window)
  }

  /**
   Rebuilding a collector from a snapshot and taking the snapshot again changes nothing, for any
   collector with requests or none at all, exactly if its maximum, cut to microseconds, is not negative.
   */
  lemma SnapshotFixpoint(s: CollectorState)
    requires Shaped(s) && s.bounds == DefaultBounds() && (Busy(s) || Untouched(s))
    ensures SnapshotOf(Merge(EmptyCollector(), SnapshotOf(s))) == SnapshotOf(s) <==> Micros(s.latency.max) >= 0
  {
    hide BoundsFrom;
    if Busy(s) {
      AddMapsEmpty(s.outcome.statusCodes);
      AddMapsEmpty(s.outcome.errorCategories);
      var zeros := Zeros(|s.bounds|);
      assert AddCounts(zeros, s.latency.counts) == s.latency.counts;
      assert AddCounts(zeros, s.ttft.counts) == s.ttft.counts;
      assert AddCounts(zeros, s.itl) == s.itl;
    }
  }

  /** A collector that is exact for no results is untouched. */
  lemma ExactIdle(s: CollectorState)
    requires Represents(s, [])
    ensures Untouched(s)
  {
    EmptyRepresents();
    hide BoundsFrom;
    forall c: Counter
      ensures Get(EmptyCollector(), c) == Get(s, c)
    {
      assert Get(EmptyCollector(), c) == Tally([], c);
      assert Get(s, c) == Tally([], c);
    }
    CountersDetermine(EmptyCollector(), s);
    assert Time(s, LatencyTime) == 0 && Time(s, TTFTTime) == 0 && Time(s, UpstreamTime) == 0;
    TTFTExtremesZero(s, []);
  }

  /** Merging snapshots never makes the maximum negative, and merging none with requests changes the window only. */
  lemma {:induction false} MergedKind(ts: seq<CollectorState>)
    requires forall i :: 0 <= i < |ts| ==> ts[i].latency.requests >= 0
    ensures var m := MergeStates(ts);
            Shaped(m) && m.bounds == DefaultBounds() && m.latency.max >= 0 && m.latency.requests >= 0 && (Busy(m) || Untouched(m))
  {
    hide BoundsFrom;
    if |ts| > 0 {
      MergedKind(ts[..|ts| - 1]);
      hide AddMaps;
    }
  }

  /** Exact collectors and merges of any of them: their snapshots are fixpoints. */
  lemma FixpointsEverywhere(ts: seq<CollectorState>, shards: seq<seq<RunResult>>, s: CollectorState, rs: seq<RunResult>)
    requires Shards(ts, shards) && Represents(s, rs)
    ensures SnapshotOf(Merge(EmptyCollector(), SnapshotOf(s))) == SnapshotOf(s)
    ensures var m := MergeStates(ts); SnapshotOf(Merge(EmptyCollector(), SnapshotOf(m))) == SnapshotOf(m)
  {
    IdleIsEmpty(s, rs);
    if !Busy(s) {
      ExactIdle(s);
    }
    forall i | 0 <= i < |ts|
      ensures ts[i].latency.requests >= 0
    {
      IdleIsEmpty(ts[i], shards[i]);
    }
    MergedKind(ts);
    assert s.latency.max >= 0 && Shaped(s) && s.bounds == DefaultBounds();
    hide Represents, Merge, SnapshotOf, MergeStates, Untouched, EmptyCollector;
    SnapshotFixpoint(s);
    SnapshotFixpoint(MergeStates(ts));
  }

  lemma AddMapsEmpty<K(!new)>(m: map<K, int>)
    ensures AddMaps(map[], m) == m
  {
  }

  // ----- a minimum that is lost

  /** A successful request of the given latency and nothing else to report. */
  function Sample(latency: int): RunResult
  {
    RunResult(true, latency, 0, NO_ERROR, 0, [], 0, false, 0.0, false, 0, 0, false, false, "", "")
  }

  lemma SampleState(latency: int)
    ensures FoldResults([Sample(latency)]).latency.min == latency && FoldResults([Sample(latency)]).latency.requests == 1
    ensures Represents(FoldResults([Sample(latency)]), [Sample(latency)])
  {
    hide BoundsFrom;
    FoldRepresents([Sample(latency)]);
    hide Represents;
    assert [Sample(latency)][..0] == [];
    assert FoldResults([]).latency.requests == 0;
  }

  /**
   One worker measured 5us, the other 500ns. Merged in that order the report says 5us, merged in the
   other order it says 0; the true minimum at microsecond floor is 0.
   */
  lemma MinimumLost()
    ensures var slow, fast := FoldResults([Sample(5_000)]), FoldResults([Sample(500)]);
            && Represents(slow, [Sample(5_000)]) && Represents(fast, [Sample(500)])
            && IsLeast(500, LatenciesOf([Sample(5_000)] + [Sample(500)])) && Floor(500) == 0
            && MergeStates([slow, fast]).latency.min == 5_000
            && MergeStates([fast, slow]).latency.min == 0
  {
    TwoLatencies(5_000, 500);
    hide Represents, FoldResults, MergeStates, LatenciesOf;
    SampleState(5_000);
    SampleState(500);
    var slow, fast := FoldResults([Sample(5_000)]), FoldResults([Sample(500)]);
    TwoMerged(slow, fast, [Sample(5_000)], [Sample(500)]);
    TwoMerged(fast, slow, [Sample(500)], [Sample(5_000)]);
  }

  lemma TwoLatencies(a: int, b: int)
    requires b <= a
    ensures IsLeast(b, LatenciesOf([Sample(a)] + [Sample(b)]))
  {
    assert LatenciesOf([Sample(a)] + [Sample(b)]) == [a, b];
  }

  lemma RunningTwo(x: int, y: int)
    ensures RunningMin([x, y]) == if 0 < y < x then y else x
  {
    assert [x, y][..1] == [x] && [x][..0] == [];
    assert RunningMin([x]) == x;
  }

  /** The minimum two busy collectors give in this order. */
  lemma TwoMerged(a: CollectorState, b: CollectorState, ra: seq<RunResult>, rb: seq<RunResult>)
    requires Represents(a, ra) && Represents(b, rb) && Busy(a) && Busy(b)
    ensures var x, y := Micros(a.latency.min), Micros(b.latency.min);
            MergeStates([a, b]).latency.min == (if 0 < y < x then y else x) * MICROSECOND
  {
    RunningTwo(Micros(a.latency.min), Micros(b.latency.min));
    hide Represents, MergeStates, RunningMin;
    MergedMinRuns([a, b], [ra, rb]);
    assert [a, b][..1] == [a] && [a][..0] == [];
    assert CarriedMinima([]) == [];
    assert CarriedMinima([a]) == [Micros(a.latency.min)];
    assert CarriedMinima([a, b]) == [Micros(a.latency.min), Micros(b.latency.min)];
  }
}
