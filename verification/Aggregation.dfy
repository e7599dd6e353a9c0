/**
 Distributed aggregation: merging the snapshots of any number of collectors, in any order, against
 one collector that saw every result.
 */
module Aggregation {
  import opened Durations
  import opened Sequences
  import opened Histograms
  import opened HistogramLaws
  import opened Collectors
  import opened CollectorLaws

  /** A duration cut down to whole microseconds, as it survives a snapshot. */
  function Floor(d: int): int
  {
    Micros(d) * MICROSECOND
  }

  /** The master's collector after merging the snapshots of the given collectors in order. */
  function MergeStates(ts: seq<CollectorState>): CollectorState
  {
    if |ts| == 0 then EmptyCollector() else Merge(MergeStates(ts[..|ts| - 1]), SnapshotOf(ts[|ts| - 1]))
  }

  /** Collector i holds exactly shard i. */
  ghost predicate Shards(ts: seq<CollectorState>, shards: seq<seq<RunResult>>)
  {
    |ts| == |shards| && forall i :: 0 <= i < |ts| ==> Represents(ts[i], shards[i])
  }

  predicate Busy(t: CollectorState)
  {
    t.latency.requests != 0
  }

  lemma IdleIsEmpty(t: CollectorState, rs: seq<RunResult>)
    requires Represents(t, rs)
    ensures t.latency.requests == |rs|
  {
    assert Get(t, Requests) == Tally(rs, Requests);
    RequestsCounted(rs);
  }

  // ----- counts

  lemma MergeCounter(s: CollectorState, t: CollectorState, c: Counter)
    requires Shaped(s) && Shaped(t) && |s.bounds| == |t.bounds| && Busy(t)
    ensures Shaped(Merge(s, SnapshotOf(t)))
    ensures Get(Merge(s, SnapshotOf(t)), c) == Get(s, c) + Get(t, c)
  {
    match c {
      case Status(code) =>
        assert Lookup(AddMaps(s.outcome.statusCodes, t.outcome.statusCodes), code)
            == Lookup(s.outcome.statusCodes, code) + Lookup(t.outcome.statusCodes, code);
      case ErrorIn(category) =>
        assert Lookup(AddMaps(s.outcome.errorCategories, t.outcome.errorCategories), category)
            == Lookup(s.outcome.errorCategories, category) + Lookup(t.outcome.errorCategories, category);
      case _ =>
    }
  }

  /** How much duration the whole-microsecond truncation has cost so far: at most 999 ns a snapshot. */
  ghost predicate TimeWithin(s: CollectorState, rs: seq<RunResult>, k: nat)
  {
    forall c :: 0 <= TimeIn(rs, c) - Time(s, c) <= 999 * k
  }

  ghost predicate NonNegativeLatencies(rs: seq<RunResult>)
  {
    forall r :: r in rs ==> r.latency >= 0
  }

  lemma {:induction false} TimesNonNegative(rs: seq<RunResult>, k: Clock)
    requires NonNegativeLatencies(rs)
    ensures TimeIn(rs, k) >= 0
  {
    if |rs| > 0 {
      assert rs[|rs| - 1] in rs;
      TimesNonNegative(rs[..|rs| - 1], k);
    }
  }

  /** What the merged collector has in common with the results of all shards. */
  ghost predicate Agrees(m: CollectorState, rs: seq<RunResult>, k: nat)
  {
    && Shaped(m) && m.bounds == DefaultBounds()
    && Counted(m, rs) && TimeWithin(m, rs, k) && m.tokens.rate == RateIn(rs)
    && PositiveTables(m) && Named(m, rs)
  }

  lemma MergeCounted(m: CollectorState, rs: seq<RunResult>, t: CollectorState, shard: seq<RunResult>)
    requires Shaped(m) && m.bounds == DefaultBounds() && Counted(m, rs) && Represents(t, shard) && Busy(t)
    ensures Shaped(Merge(m, SnapshotOf(t))) && Counted(Merge(m, SnapshotOf(t)), rs + shard)
  {
    forall c
      ensures Get(Merge(m, SnapshotOf(t)), c) == Tally(rs + shard, c)
    {
      MergeCounter(m, t, c);
      assert Get(t, c) == Tally(shard, c);
      SumConcat(rs, shard, Weight(c));
    }
    MergeCounter(m, t, Requests);
  }

  lemma MergeClock(m: CollectorState, t: CollectorState, c: Clock)
    requires Busy(t)
    ensures Time(Merge(m, SnapshotOf(t)), c) == Time(m, c) + Floor(Time(t, c))
  {
  }

  lemma FloorLoss(d: int)
    requires d >= 0
    ensures 0 <= Floor(d) <= d <= Floor(d) + 999
  {
  }

  lemma MergeTimed(m: CollectorState, rs: seq<RunResult>, k: nat, t: CollectorState, shard: seq<RunResult>)
    requires TimeWithin(m, rs, k) && Represents(t, shard) && Busy(t) && NonNegativeLatencies(shard)
    ensures TimeWithin(Merge(m, SnapshotOf(t)), rs + shard, k + 1)
  {
    forall c
      ensures 0 <= TimeIn(rs + shard, c) - Time(Merge(m, SnapshotOf(t)), c) <= 999 * (k + 1)
    {
      SumConcat(rs, shard, Elapsed(c));
      TimesNonNegative(shard, c);
      assert Time(t, c) == TimeIn(shard, c);
      assert 0 <= TimeIn(rs, c) - Time(m, c) <= 999 * k;
      hide Merge, SnapshotOf, Floor, Time;
      MergeClock(m, t, c);
      FloorLoss(Time(t, c));
    }
  }

  lemma {:induction false} FirstNameConcat(a: seq<string>, b: seq<string>)
    ensures FirstName(a + b) == if FirstName(a) == "" then FirstName(b) else FirstName(a)
  {
    if |a| == 0 {
      assert a + b == b;
    } else {
      assert (a + b)[1..] == a[1..] + b;
      FirstNameConcat(a[1..], b);
    }
  }

  lemma MergeTables(m: CollectorState, t: CollectorState)
    requires PositiveTables(m) && PositiveTables(t)
    ensures PositiveTables(Merge(m, SnapshotOf(t)))
  {
  }

  lemma MergeNamed(m: CollectorState, rs: seq<RunResult>, t: CollectorState, shard: seq<RunResult>)
    requires Named(m, rs) && Named(t, shard) && Busy(t)
    ensures Named(Merge(m, SnapshotOf(t)), rs + shard)
  {
    assert Providers(rs + shard) == Providers(rs) + Providers(shard);
    assert Models(rs + shard) == Models(rs) + Models(shard);
    FirstNameConcat(Providers(rs), Providers(shard));
    FirstNameConcat(Models(rs), Models(shard));
  }

  lemma MergeLabelled(m: CollectorState, rs: seq<RunResult>, t: CollectorState, shard: seq<RunResult>)
    requires PositiveTables(m) && Named(m, rs) && m.tokens.rate == RateIn(rs) && Represents(t, shard) && Busy(t)
    ensures PositiveTables(Merge(m, SnapshotOf(t))) && Named(Merge(m, SnapshotOf(t)), rs + shard)
    ensures Merge(m, SnapshotOf(t)).tokens.rate == RateIn(rs + shard)
  {
    MergeTables(m, t);
    MergeNamed(m, rs, t, shard);
    SumRealConcat(rs, shard, Rate());
    hide PositiveTables, Named, Counted, Timed, Extremes, Estimated;
  }

  /** An idle collector's snapshot only widens the window. */
  lemma MergeIdle(m: CollectorState, t: CollectorState, rs: seq<RunResult>, k: nat)
    requires Agrees(m, rs, k) && !Busy(t)
    ensures Agrees(Merge(m, SnapshotOf(t)), rs, k + 1)
  {
    var w := Merge(m, SnapshotOf(t));
    forall c
      ensures Get(w, c) == Tally(rs, c)
    {
      assert Get(w, c) == Get(m, c);
    }
    forall c
      ensures 0 <= TimeIn(rs, c) - Time(w, c) <= 999 * (k + 1)
    {
      assert Time(w, c) == Time(m, c);
    }
  }

  lemma MergeOne(m: CollectorState, rs: seq<RunResult>, k: nat, t: CollectorState, shard: seq<RunResult>)
    requires Agrees(m, rs, k) && Represents(t, shard) && NonNegativeLatencies(shard)
    ensures Agrees(Merge(m, SnapshotOf(t)), rs + shard, k + 1)
  {
    IdleIsEmpty(t, shard);
    if Busy(t) {
      MergeCounted(m, rs, t, shard);
      MergeTimed(m, rs, k, t, shard);
      MergeLabelled(m, rs, t, shard);
      assert Merge(m, SnapshotOf(t)).bounds == m.bounds;
      hide Counted, TimeWithin, PositiveTables, Named, Merge, SnapshotOf, Represents;
    } else {
      assert rs + shard == rs;
      MergeIdle(m, t, rs, k);
    }
  }

  /** Taking the last collector and its shard off. */
  lemma LastShard(ts: seq<CollectorState>, shards: seq<seq<RunResult>>, k: nat)
    requires Shards(ts, shards) && |ts| == k + 1
    ensures |shards| == k + 1 && Shards(ts[..k], shards[..k]) && Represents(ts[k], shards[k])
    ensures Flatten(shards) == Flatten(shards[..k]) + shards[k]
    ensures ts[k].latency.requests == |shards[k]|
    ensures NonNegativeLatencies(Flatten(shards)) ==> NonNegativeLatencies(Flatten(shards[..k])) && NonNegativeLatencies(shards[k])
  {
    IdleIsEmpty(ts[k], shards[k]);
    hide Represents;
    if NonNegativeLatencies(Flatten(shards)) {
      NonNegativeParts(Flatten(shards[..k]), shards[k]);
    }
  }

  lemma NonNegativeParts(a: seq<RunResult>, b: seq<RunResult>)
    requires NonNegativeLatencies(a + b)
    ensures NonNegativeLatencies(a) && NonNegativeLatencies(b)
  {
    assert forall r :: r in a ==> r in a + b;
    assert forall r :: r in b ==> r in a + b;
  }

  lemma EmptyAgrees()
    ensures Agrees(EmptyCollector(), [], 0)
  {
    EmptyRepresents();
    hide BoundsFrom;
    assert forall c :: Time(EmptyCollector(), c) == 0;
  }

  /** Merging k exact collectors agrees with the concatenation of their lists. */
  lemma {:induction false} MergedAgrees(ts: seq<CollectorState>, shards: seq<seq<RunResult>>)
    requires Shards(ts, shards) && NonNegativeLatencies(Flatten(shards))
    ensures Agrees(MergeStates(ts), Flatten(shards), |ts|)
    decreases |ts|
  {
    if |ts| == 0 {
      EmptyAgrees();
      hide Agrees, EmptyCollector;
      assert Flatten(shards) == [];
    } else {
      var k := |ts| - 1;
      LastShard(ts, shards, k);
      assert MergeStates(ts) == Merge(MergeStates(ts[..k]), SnapshotOf(ts[k]));
      hide Agrees, Represents, Merge, SnapshotOf, Shards, NonNegativeLatencies, Flatten, EmptyCollector, MergeStates;
      MergedAgrees(ts[..k], shards[..k]);
      MergeOne(MergeStates(ts[..k]), Flatten(shards[..k]), k, ts[k], shards[k]);
    }
  }
}
