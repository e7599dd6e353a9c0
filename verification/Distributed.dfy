/** A distributed run: shard the request budget, dispatch with retries, merge in completion order. */
module Distributed {
  import opened Sequences
  import opened Ranges
  import opened Histograms
  import opened Collectors
  import opened CollectorLaws
  import opened Aggregation
  import opened EngineModel
  import opened EngineLaws

  // ----- sharding

  /** The request limit of worker `index` of `total`. */
  function Shard(requests: nat, index: nat, total: nat): nat
  {
    if total <= 1 || requests == 0 then requests
    else requests / total + if index < requests % total then 1 else 0
  }

  function ShardSize(requests: nat, total: nat): int -> int
  {
    i => if i >= 0 then Shard(requests, i, total) else 0
  }

  function Indices(n: nat): (r: seq<int>)
    ensures |r| == n && forall i :: 0 <= i < n ==> r[i] == i
  {
    seq(n, i => i)
  }

  lemma {:induction false} ShardPrefix(requests: nat, total: nat, m: nat)
    requires total > 1 && requests > 0 && m <= total
    ensures var r := requests % total;
            Sum(Indices(m), ShardSize(requests, total)) == m * (requests / total) + if m < r then m else r
  {
    if m > 0 {
      ShardPrefix(requests, total, m - 1);
      assert Indices(m) == Indices(m - 1) + [m - 1];
      SumSnoc(Indices(m - 1), m - 1, ShardSize(requests, total));
      assert m * (requests / total) == (m - 1) * (requests / total) + requests / total;
    }
  }

  /** The shards add up to the whole budget, for any budget and any number of workers. */
  lemma ShardsAddUp(requests: nat, total: nat)
    requires total >= 1
    ensures Sum(Indices(total), ShardSize(requests, total)) == requests
  {
    if total > 1 && requests > 0 {
      ShardPrefix(requests, total, total);
      assert requests == total * (requests / total) + requests % total;
    } else if total == 1 {
      assert Indices(1) == [0];
      SumOne(0, ShardSize(requests, 1));
    } else {
      SumBetween(Indices(total), ShardSize(0, total), 0, 0);
    }
  }

  /** No two workers' shards differ by more than one request. */
  lemma ShardsBalanced(requests: nat, total: nat, i: nat, j: nat)
    requires i < total && j < total
    ensures Shard(requests, i, total) <= Shard(requests, j, total) + 1
  {
  }

  /** Every shard keeps a positive limit exactly when there are at least as many requests as workers. */
  lemma ShardsBounded(requests: nat, total: nat)
    requires total >= 1 && requests > 0
    ensures (forall i: nat :: i < total ==> Shard(requests, i, total) > 0) <==> requests >= total
  {
    if requests >= total {
      assert requests / total >= 1;
    } else {
      assert requests / total == 0;
      assert requests % total == requests;
      assert Shard(requests, total - 1, total) == 0;
    }
  }

  /** The configuration sent to worker i of k. */
  function ShardConfig(cfg: Config, i: nat, total: nat): Config
  {
    cfg.(requests := Shard(cfg.requests, i, total))
  }

  /** What a worker checks before it runs a job: among other things it refuses a run without any limit. */
  predicate Accepted(cfg: Config)
  {
    && cfg.concurrency > 0 && cfg.duration >= 0 && cfg.rampUp >= 0
    && (cfg.duration > 0 || cfg.requests > 0)
    && !(cfg.rampUp > 0 && cfg.duration > 0 && cfg.rampUp > cfg.duration)
  }

  /** A shard of an acceptable job is refused exactly if it is empty and the job has no duration. */
  lemma ShardAccepted(cfg: Config, i: nat, total: nat)
    requires Accepted(cfg) && cfg.requests > 0
    ensures Accepted(ShardConfig(cfg, i, total)) <==> cfg.duration > 0 || Shard(cfg.requests, i, total) > 0
  {
  }

  /** With fewer requests than workers exactly the workers from `requests` on get nothing, the others one request each. */
  lemma StarvedShards(requests: nat, total: nat, i: nat)
    requires 0 < requests < total && i < total
    ensures Shard(requests, i, total) == if i < requests then 1 else 0
  {
    assert requests / total == 0 && requests % total == requests;
  }

  // ----- dispatch

  datatype Error = BadAddress | Transport | BadStatus | BadBody | WorkerFailed | ContextDone

  datatype Outcome<T> = Ok(value: T) | Err(error: Error)

  const ATTEMPTS := 3

  /** Attempt i is the one whose answer is used: it succeeds, and nothing before it did or stopped the loop. */
  predicate Answers<T>(attempts: seq<Outcome<T>>, cancelledAfter: seq<bool>, i: nat)
    requires |attempts| == |cancelledAfter| == ATTEMPTS
  {
    i < ATTEMPTS && attempts[i].Ok? &&
    forall j :: 0 <= j < i ==> attempts[j].Err? && attempts[j].error != BadAddress && !cancelledAfter[j]
  }

  /** The outcome of the attempts from number i on, given the error of the one before. */
  function OutcomeFrom<T>(attempts: seq<Outcome<T>>, cancelledAfter: seq<bool>, i: nat, lastErr: Error): Outcome<T>
    requires |attempts| == |cancelledAfter| == ATTEMPTS && i <= ATTEMPTS
    decreases ATTEMPTS - i
  {
    if i == ATTEMPTS then Err(lastErr)
    else if attempts[i].Ok? || attempts[i].error == BadAddress then attempts[i]
    else if cancelledAfter[i] then Err(ContextDone)
    else OutcomeFrom(attempts, cancelledAfter, i + 1, attempts[i].error)
  }

  /** What a dispatch comes back with. */
  function Dispatched<T>(attempts: seq<Outcome<T>>, cancelledAfter: seq<bool>): Outcome<T>
    requires |attempts| == |cancelledAfter| == ATTEMPTS
  {
    OutcomeFrom(attempts, cancelledAfter, 0, Transport)
  }

  lemma {:induction false} OutcomeFromAnswer<T>(attempts: seq<Outcome<T>>, cancelledAfter: seq<bool>, i: nat, lastErr: Error)
    requires |attempts| == |cancelledAfter| == ATTEMPTS && i <= ATTEMPTS
    requires forall j :: 0 <= j < i ==> attempts[j].Err? && attempts[j].error != BadAddress && !cancelledAfter[j]
    ensures var r := OutcomeFrom(attempts, cancelledAfter, i, lastErr);
            && (r.Ok? <==> exists a: nat :: Answers(attempts, cancelledAfter, a))
            && (forall a: nat :: Answers(attempts, cancelledAfter, a) ==> r == attempts[a])
    decreases ATTEMPTS - i
  {
    if i < ATTEMPTS && attempts[i].Err? && attempts[i].error != BadAddress && !cancelledAfter[i] {
      OutcomeFromAnswer(attempts, cancelledAfter, i + 1, attempts[i].error);
    } else if i < ATTEMPTS && attempts[i].Ok? {
      assert Answers(attempts, cancelledAfter, i);
    }
  }

  /** A dispatch succeeds exactly if some attempt answers, and then with that attempt's answer. */
  lemma DispatchedAnswer<T>(attempts: seq<Outcome<T>>, cancelledAfter: seq<bool>)
    requires |attempts| == |cancelledAfter| == ATTEMPTS
    ensures Dispatched(attempts, cancelledAfter).Ok? <==> exists a: nat :: Answers(attempts, cancelledAfter, a)
    ensures forall a: nat :: Answers(attempts, cancelledAfter, a) ==> Dispatched(attempts, cancelledAfter) == attempts[a]
  {
    OutcomeFromAnswer(attempts, cancelledAfter, 0, Transport);
  }

  /**
   The retry loop: what each attempt would give and whether the context is done after it are given.
   The loop answers with the first success, unless a cancellation or a bad address comes first.
   */
  method Dispatch<T>(attempts: seq<Outcome<T>>, cancelledAfter: seq<bool>) returns (r: Outcome<T>, used: nat)
    requires |attempts| == |cancelledAfter| == ATTEMPTS
    ensures r == Dispatched(attempts, cancelledAfter) && used <= ATTEMPTS
    ensures r.Ok? <==> exists i :: 0 <= i < ATTEMPTS && Answers(attempts, cancelledAfter, i)
    ensures forall i :: 0 <= i < ATTEMPTS && Answers(attempts, cancelledAfter, i) ==> r == attempts[i] && used == i + 1
    ensures r.Err? && used < ATTEMPTS ==> r.error == BadAddress || r.error == ContextDone
    ensures r.Err? ==> r == Err(ContextDone) || (0 < used && r == attempts[used - 1])
  {
    var lastErr := Transport;
    var attempt := 0;
    while attempt < ATTEMPTS
      invariant 0 <= attempt <= ATTEMPTS
      invariant forall j :: 0 <= j < attempt ==> attempts[j].Err? && attempts[j].error != BadAddress && !cancelledAfter[j]
      invariant attempt > 0 ==> lastErr == attempts[attempt - 1].error
      invariant OutcomeFrom(attempts, cancelledAfter, attempt, lastErr) == Dispatched(attempts, cancelledAfter)
    {
      if attempts[attempt].Ok? {
        assert Answers(attempts, cancelledAfter, attempt);
        return attempts[attempt], attempt + 1;
      }
      if attempts[attempt].error == BadAddress {
        return attempts[attempt], attempt + 1;
      }
      lastErr := attempts[attempt].error;
      if cancelledAfter[attempt] {
        return Err(ContextDone), attempt + 1;
      }
      attempt := attempt + 1;
    }
    return Err(lastErr), ATTEMPTS;
  }

  // ----- merging

  function MergeSnapshots(snapshots: seq<AggregateSnapshot>): CollectorState
  {
    if |snapshots| == 0 then EmptyCollector()
    else Merge(MergeSnapshots(snapshots[..|snapshots| - 1]), snapshots[|snapshots| - 1])
  }

  function SnapshotsOf(ts: seq<CollectorState>): (r: seq<AggregateSnapshot>)
    ensures |r| == |ts| && forall i :: 0 <= i < |r| ==> r[i] == SnapshotOf(ts[i])
  {
    seq(|ts|, i requires 0 <= i < |ts| => SnapshotOf(ts[i]))
  }

  lemma {:induction false} MergeSnapshotsOf(ts: seq<CollectorState>)
    ensures MergeSnapshots(SnapshotsOf(ts)) == MergeStates(ts)
  {
    hide Merge, SnapshotOf, EmptyCollector;
    if |ts| > 0 {
      MergeSnapshotsOf(ts[..|ts| - 1]);
      assert SnapshotsOf(ts)[..|ts| - 1] == SnapshotsOf(ts[..|ts| - 1]);
    }
  }

  /** The snapshots that arrive, in completion order. */
  function Arrived(outcomes: seq<Outcome<AggregateSnapshot>>, order: seq<nat>): seq<AggregateSnapshot>
    requires forall i :: 0 <= i < |order| ==> order[i] < |outcomes|
  {
    if |order| == 0 then []
    else
      var last := outcomes[order[|order| - 1]];
      Arrived(outcomes, order[..|order| - 1]) + if last.Ok? then [last.value] else []
  }

  datatype WorkerStatus = Running | Failed | Completed

  datatype FinalStatus = AllCompleted | CompletedWithErrors

  /** The order in which the dispatch goroutines get the lock: each worker exactly once. */
  ghost predicate CompletionOrder(order: seq<nat>, workers: nat)
  {
    |order| == workers && Distinct(order) && forall i :: 0 <= i < |order| ==> order[i] < workers
  }

  function StatusOf(outcome: Outcome<AggregateSnapshot>): WorkerStatus
  {
    if outcome.Ok? then Completed else Failed
  }

  /** The status of the whole run. */
  ghost function FinalStatusOf(outcomes: seq<Outcome<AggregateSnapshot>>): FinalStatus
  {
    if forall i :: 0 <= i < |outcomes| ==> outcomes[i].Ok? then AllCompleted else CompletedWithErrors
  }

  /** Collecting the dispatch outcomes of all workers into one report. */
  method CollectOutcomes(outcomes: seq<Outcome<AggregateSnapshot>>, order: seq<nat>, started: nat, ended: nat)
    returns (collector: Collector, states: seq<WorkerStatus>, status: FinalStatus)
    requires CompletionOrder(order, |outcomes|)
    ensures fresh(collector.Repr()) && collector.Valid()
    ensures collector.Contents() == MergeSnapshots(Arrived(outcomes, order)).(window := Window(started, ended))
    ensures |states| == |outcomes| && forall i :: 0 <= i < |states| ==> states[i] == StatusOf(outcomes[i])
    ensures status == FinalStatusOf(outcomes)
  {
    hide MergeSnapshots, Arrived, Collector.Contents, Collector.Valid;
    collector, states := MergeArrivals(outcomes, order);
    collector.SetWindow(started, ended);
    status := AllCompleted;
    var i := 0;
    while i < |states|
      invariant 0 <= i <= |states|
      invariant status == AllCompleted <==> forall j :: 0 <= j < i ==> outcomes[j].Ok?
    {
      if states[i] == Failed {
        status := CompletedWithErrors;
      }
      i := i + 1;
    }
  }

  /** The locked sections of the dispatch goroutines, one after another. */
  method MergeArrivals(outcomes: seq<Outcome<AggregateSnapshot>>, order: seq<nat>)
    returns (collector: Collector, states: seq<WorkerStatus>)
    requires CompletionOrder(order, |outcomes|)
    ensures fresh(collector.Repr()) && collector.Valid()
    ensures collector.Contents() == MergeSnapshots(Arrived(outcomes, order))
    ensures |states| == |outcomes| && forall i :: 0 <= i < |states| ==> states[i] == StatusOf(outcomes[i])
  {
    hide Merge, EmptyCollector, BoundsFrom, Shaped, Collector.Contents, Collector.Valid;
    collector := new Collector();
    states := seq(|outcomes|, _ => Running);
    var n := 0;
    assert order[..0] == [];
    while n < |order|
      invariant 0 <= n <= |order| && |states| == |outcomes|
      invariant fresh(collector.Repr()) && collector.Valid()
      invariant collector.Contents() == MergeSnapshots(Arrived(outcomes, order[..n]))
      invariant forall j :: 0 <= j < n ==> states[order[j]] == StatusOf(outcomes[order[j]])
    {
      hide MergeSnapshots, Arrived;
      var index := order[n];
      ArrivedSnoc(outcomes, order, n);
      if outcomes[index].Ok? {
        collector.MergeSnapshot(outcomes[index].value);
        states := states[index := Completed];
      } else {
        states := states[index := Failed];
      }
      n := n + 1;
    }
    assert order[..n] == order;
    EveryoneSet(outcomes, order, states);
  }

  lemma EveryoneSet(outcomes: seq<Outcome<AggregateSnapshot>>, order: seq<nat>, states: seq<WorkerStatus>)
    requires CompletionOrder(order, |outcomes|) && |states| == |outcomes|
    requires forall j :: 0 <= j < |order| ==> states[order[j]] == StatusOf(outcomes[order[j]])
    ensures forall i :: 0 <= i < |states| ==> states[i] == StatusOf(outcomes[i])
  {
    EveryoneCompletes(order, |outcomes|);
    forall i | 0 <= i < |states|
      ensures states[i] == StatusOf(outcomes[i])
    {
      assert i in order;
      var j :| 0 <= j < |order| && order[j] == i;
    }
  }

  lemma ArrivedSnoc(outcomes: seq<Outcome<AggregateSnapshot>>, order: seq<nat>, n: nat)
    requires n < |order| && (forall i :: 0 <= i < |order| ==> order[i] < |outcomes|)
    ensures MergeSnapshots(Arrived(outcomes, order[..n + 1]))
         == if outcomes[order[n]].Ok? then Merge(MergeSnapshots(Arrived(outcomes, order[..n])), outcomes[order[n]].value)
            else MergeSnapshots(Arrived(outcomes, order[..n]))
  {
    hide Merge, EmptyCollector;
    var before := Arrived(outcomes, order[..n]);
    assert order[..n + 1][..n] == order[..n];
    if outcomes[order[n]].Ok? {
      var last := outcomes[order[n]].value;
      assert Arrived(outcomes, order[..n + 1]) == before + [last];
      assert (before + [last])[..|before|] == before;
    } else {
      assert Arrived(outcomes, order[..n + 1]) == before;
    }
  }

  /** A duplicate-free list of the right length names every worker, each once. */
  lemma EveryoneCompletes(order: seq<nat>, workers: nat)
    requires CompletionOrder(order, workers)
    ensures forall i :: 0 <= i < workers ==> i in order
    ensures multiset(order) == multiset(Indices(workers))
  {
    var ids: seq<int> := order;
    DistinctSize(ids);
    FullSubset((set x | x in ids), Range(0, workers));
    forall i | 0 <= i < workers
      ensures i in order
    {
      assert i in Range(0, workers);
    }
    forall x: int
      ensures x in ids <==> x in Indices(workers)
    {
      if 0 <= x < workers {
        assert x in order;
        assert Indices(workers)[x] == x;
      }
    }
    SameElements(ids, Indices(workers));
  }

  lemma FullSubset<T>(a: set<T>, b: set<T>)
    requires a <= b && |a| == |b|
    ensures a == b
  {
    assert b == a + (b - a);
    assert |b - a| == 0;
  }

  // ----- totals

  lemma {:induction false} MergedTotals(ts: seq<CollectorState>, shards: seq<seq<RunResult>>)
    requires Shards(ts, shards)
    ensures var m := MergeStates(ts);
            m.latency.requests == |Flatten(shards)| && m.outcome.successes + m.outcome.failures == |Flatten(shards)|
    decreases |ts|
  {
    hide BoundsFrom;
    if |ts| == 0 {
      assert Flatten(shards) == [];
    } else {
      var k := |ts| - 1;
      LastShard(ts, shards, k);
      OutcomesCounted(ts[k], shards[k]);
      assert MergeStates(ts) == Merge(MergeStates(ts[..k]), SnapshotOf(ts[k]));
      hide Represents, Shards, Flatten, MergeStates, EmptyCollector, MergedCounts, AddMaps;
      MergedTotals(ts[..k], shards[..k]);
    }
  }

  lemma OutcomesCounted(t: CollectorState, rs: seq<RunResult>)
    requires Represents(t, rs)
    ensures t.outcome.successes + t.outcome.failures == |rs|
  {
    assert Get(t, Successes) == Tally(rs, Successes);
    assert Get(t, Failures) == Tally(rs, Failures);
    RequestsCounted(rs);
  }
}
