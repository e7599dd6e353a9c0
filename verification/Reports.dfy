/** The master's final report, from the engines' schedules to the merged collector, against one central run. */
module Reports {
  import opened Sequences
  import opened Ranges
  import opened Histograms
  import opened Collectors
  import opened CollectorLaws
  import opened Aggregation
  import opened AggregationLaws
  import opened EngineModel
  import opened Distributed

  /** What worker i sends back: its own results, folded, with its own time window. */
  function Answer(results: seq<RunResult>, window: Window): AggregateSnapshot
  {
    SnapshotOf(FoldResults(results).(window := window))
  }

  function WorkerStates(results: seq<seq<RunResult>>, windows: seq<Window>): (ts: seq<CollectorState>)
    requires |windows| == |results|
    ensures |ts| == |results| && forall i :: 0 <= i < |ts| ==> ts[i] == FoldResults(results[i]).(window := windows[i])
  {
    seq(|results|, i requires 0 <= i < |results| => FoldResults(results[i]).(window := windows[i]))
  }

  /** The elements in another order. */
  function Arranged<T>(s: seq<T>, order: seq<nat>): (r: seq<T>)
    requires forall j :: 0 <= j < |order| ==> order[j] < |s|
    ensures |r| == |order| && forall j :: 0 <= j < |r| ==> r[j] == s[order[j]]
  {
    seq(|order|, j requires 0 <= j < |order| => s[order[j]])
  }

  lemma WindowIrrelevant(s: CollectorState, rs: seq<RunResult>, w: Window)
    requires Represents(s, rs)
    ensures Represents(s.(window := w), rs)
  {
  }

  ghost function Occurrences<T>(x: T): seq<T> -> int
  {
    (s: seq<T>) => multiset(s)[x]
  }

  lemma {:induction false} FlattenOccurrences<T>(parts: seq<seq<T>>, x: T)
    ensures multiset(Flatten(parts))[x] == Sum(parts, Occurrences(x))
  {
    if |parts| > 0 {
      FlattenOccurrences(parts[..|parts| - 1], x);
    }
  }

  /** Dealing the parts out in another order keeps everything. */
  lemma FlattenPerm(a: seq<seq<RunResult>>, b: seq<seq<RunResult>>)
    requires multiset(a) == multiset(b)
    ensures multiset(Flatten(a)) == multiset(Flatten(b))
  {
    hide Flatten, Occurrences;
    forall x
      ensures multiset(Flatten(a))[x] == multiset(Flatten(b))[x]
    {
      FlattenOccurrences(a, x);
      FlattenOccurrences(b, x);
      SumPerm(a, b, Occurrences(x));
    }
  }

  lemma ArrangedPerm<T>(s: seq<T>, order: seq<nat>)
    requires CompletionOrder(order, |s|)
    ensures multiset(Arranged(s, order)) == multiset(s)
  {
    EveryoneCompletes(order, |s|);
    var all: seq<int> := order;
    forall x
      ensures multiset(Arranged(s, order))[x] == multiset(s)[x]
    {
      PickedOccurrences(s, all, Arranged(s, order), x);
      PickedOccurrences(s, Indices(|s|), s, x);
      SumPerm(all, Indices(|s|), PickIs(s, x));
    }
  }

  ghost function PickIs<T>(s: seq<T>, x: T): int -> int
  {
    (i: int) => if 0 <= i < |s| && s[i] == x then 1 else 0
  }

  lemma {:induction false} PickedOccurrences<T>(s: seq<T>, ids: seq<int>, picked: seq<T>, x: T)
    requires |picked| == |ids| && forall j :: 0 <= j < |ids| ==> 0 <= ids[j] < |s| && picked[j] == s[ids[j]]
    ensures multiset(picked)[x] == Sum(ids, PickIs(s, x))
  {
    if |ids| > 0 {
      var n := |ids| - 1;
      PickedOccurrences(s, ids[..n], picked[..n], x);
      assert picked == picked[..n] + [picked[n]];
    }
  }

  lemma InRange(order: seq<nat>, k: nat)
    requires CompletionOrder(order, k)
    ensures |order| == k && forall j :: 0 <= j < |order| ==> order[j] < k
  {
  }

  /** Each worker's collector holds exactly its own results. */
  lemma WorkersRepresent(results: seq<seq<RunResult>>, windows: seq<Window>)
    requires |results| == |windows|
    ensures Shards(WorkerStates(results, windows), results)
  {
    hide Represents, FoldResults;
    forall i | 0 <= i < |results|
      ensures Represents(WorkerStates(results, windows)[i], results[i])
    {
      FoldRepresents(results[i]);
      WindowIrrelevant(FoldResults(results[i]), results[i], windows[i]);
    }
  }

  // ----- what arrives

  /** The workers whose dispatch succeeded, in completion order. */
  function Survivors(outcomes: seq<Outcome<AggregateSnapshot>>, order: seq<nat>): (ids: seq<nat>)
    requires forall j :: 0 <= j < |order| ==> order[j] < |outcomes|
    ensures forall j :: 0 <= j < |ids| ==> ids[j] < |outcomes| && outcomes[ids[j]].Ok?
    ensures |ids| <= |order|
  {
    if |order| == 0 then []
    else
      var last := order[|order| - 1];
      Survivors(outcomes, order[..|order| - 1]) + if outcomes[last].Ok? then [last] else []
  }

  /** Each successful dispatch brought back the snapshot of these results; the others brought nothing. */
  ghost predicate Brought(outcomes: seq<Outcome<AggregateSnapshot>>, parts: seq<seq<RunResult>>, windows: seq<Window>)
  {
    && |outcomes| == |parts| == |windows|
    && forall i :: 0 <= i < |outcomes| ==>
         if outcomes[i].Ok? then outcomes[i].value == Answer(parts[i], windows[i]) else parts[i] == []
  }

  lemma {:induction false} AllArrive(outcomes: seq<Outcome<AggregateSnapshot>>, parts: seq<seq<RunResult>>, windows: seq<Window>, order: seq<nat>)
    requires Brought(outcomes, parts, windows) && forall j :: 0 <= j < |order| ==> order[j] < |outcomes|
    ensures Arrived(outcomes, order) == SnapshotsOf(Arranged(WorkerStates(parts, windows), Survivors(outcomes, order)))
  {
    hide SnapshotOf, FoldResults;
    if |order| > 0 {
      var n, ts := |order| - 1, WorkerStates(parts, windows);
      var before, all := Survivors(outcomes, order[..n]), Survivors(outcomes, order);
      AllArrive(outcomes, parts, windows, order[..n]);
      if outcomes[order[n]].Ok? {
        assert Arranged(ts, all) == Arranged(ts, before) + [ts[order[n]]];
        assert SnapshotsOf(Arranged(ts, all)) == SnapshotsOf(Arranged(ts, before)) + [SnapshotOf(ts[order[n]])];
      } else {
        assert all == before;
      }
    }
  }

  lemma FlattenArrangedSnoc(parts: seq<seq<RunResult>>, ids: seq<nat>, last: nat)
    requires last < |parts| && forall j :: 0 <= j < |ids| ==> ids[j] < |parts|
    ensures Flatten(Arranged(parts, ids + [last])) == Flatten(Arranged(parts, ids)) + parts[last]
  {
    assert Arranged(parts, ids + [last]) == Arranged(parts, ids) + [parts[last]];
    FlattenSnoc(Arranged(parts, ids), parts[last]);
  }

  /** Workers that brought nothing contribute nothing. */
  lemma {:induction false} SurvivorsFlatten(outcomes: seq<Outcome<AggregateSnapshot>>, parts: seq<seq<RunResult>>, windows: seq<Window>, order: seq<nat>)
    requires Brought(outcomes, parts, windows) && forall j :: 0 <= j < |order| ==> order[j] < |outcomes|
    ensures Flatten(Arranged(parts, Survivors(outcomes, order))) == Flatten(Arranged(parts, order))
  {
    hide Answer, Flatten;
    if |order| > 0 {
      var n := |order| - 1;
      var before, all := Survivors(outcomes, order[..n]), Survivors(outcomes, order);
      SurvivorsFlatten(outcomes, parts, windows, order[..n]);
      assert all == if outcomes[order[n]].Ok? then before + [order[n]] else before;
      assert outcomes[order[n]].Err? ==> parts[order[n]] == [];
      hide Brought, Survivors, Arranged;
      assert order == order[..n] + [order[n]];
      FlattenArrangedSnoc(parts, order[..n], order[n]);
      if outcomes[order[n]].Ok? {
        FlattenArrangedSnoc(parts, before, order[n]);
      } else {
        assert Flatten(Arranged(parts, before)) + [] == Flatten(Arranged(parts, before));
      }
    } else {
      assert order == Survivors(outcomes, order);
    }
  }

  /** The collectors whose snapshots the master merges, in the order it does. */
  ghost function Contributors(outcomes: seq<Outcome<AggregateSnapshot>>, parts: seq<seq<RunResult>>, windows: seq<Window>, order: seq<nat>): seq<CollectorState>
    requires |outcomes| == |parts| == |windows| && CompletionOrder(order, |outcomes|)
  {
    Arranged(WorkerStates(parts, windows), Survivors(outcomes, order))
  }

  lemma ShardsArranged(ts: seq<CollectorState>, parts: seq<seq<RunResult>>, ids: seq<nat>)
    requires Shards(ts, parts) && forall j :: 0 <= j < |ids| ==> ids[j] < |ts|
    ensures |ts| == |parts| && Shards(Arranged(ts, ids), Arranged(parts, ids))
  {
    hide Represents;
  }

  lemma ArrivedStates(outcomes: seq<Outcome<AggregateSnapshot>>, parts: seq<seq<RunResult>>, windows: seq<Window>, order: seq<nat>)
    requires |outcomes| == |parts| == |windows| && Brought(outcomes, parts, windows) && CompletionOrder(order, |outcomes|)
    ensures MergeSnapshots(Arrived(outcomes, order)) == MergeStates(Contributors(outcomes, parts, windows, order))
  {
    InRange(order, |outcomes|);
    AllArrive(outcomes, parts, windows, order);
    MergeSnapshotsOf(Contributors(outcomes, parts, windows, order));
    hide *;
  }

  lemma ContributorShards(outcomes: seq<Outcome<AggregateSnapshot>>, parts: seq<seq<RunResult>>, windows: seq<Window>, order: seq<nat>)
    returns (shards: seq<seq<RunResult>>)
    requires |outcomes| == |parts| == |windows| && Brought(outcomes, parts, windows) && CompletionOrder(order, |outcomes|)
    ensures |Contributors(outcomes, parts, windows, order)| <= |parts|
    ensures Shards(Contributors(outcomes, parts, windows, order), shards)
    ensures multiset(Flatten(shards)) == multiset(Flatten(parts))
  {
    hide Represents, FoldResults, SnapshotOf, Flatten, CompletionOrder, Shards, Brought, Answer, Survivors;
    InRange(order, |outcomes|);
    var ids := Survivors(outcomes, order);
    shards := Arranged(parts, ids);
    WorkersRepresent(parts, windows);
    ShardsArranged(WorkerStates(parts, windows), parts, ids);
    SurvivorsFlatten(outcomes, parts, windows, order);
    ArrangedPerm(parts, order);
    FlattenPerm(Arranged(parts, order), parts);
  }

  /** What the master holds is the merge of the successful workers' collectors, which hold all that was brought. */
  lemma MasterMerges(outcomes: seq<Outcome<AggregateSnapshot>>, parts: seq<seq<RunResult>>, windows: seq<Window>, order: seq<nat>)
    returns (shards: seq<seq<RunResult>>)
    requires |outcomes| == |parts| == |windows| && Brought(outcomes, parts, windows) && CompletionOrder(order, |outcomes|)
    ensures MergeSnapshots(Arrived(outcomes, order)) == MergeStates(Contributors(outcomes, parts, windows, order))
    ensures |Contributors(outcomes, parts, windows, order)| <= |parts|
    ensures Shards(Contributors(outcomes, parts, windows, order), shards)
    ensures multiset(Flatten(shards)) == multiset(Flatten(parts))
  {
    ArrivedStates(outcomes, parts, windows, order);
    shards := ContributorShards(outcomes, parts, windows, order);
  }

  function Size(): seq<RunResult> -> int
  {
    (rs: seq<RunResult>) => |rs|
  }

  lemma {:induction false} FlattenSize(parts: seq<seq<RunResult>>)
    ensures |Flatten(parts)| == Sum(parts, Size())
  {
    if |parts| > 0 {
      FlattenSize(parts[..|parts| - 1]);
    }
  }

  /** The master's report counts exactly the results that were brought, in whatever order they came. */
  lemma MasterCounts(outcomes: seq<Outcome<AggregateSnapshot>>, parts: seq<seq<RunResult>>, windows: seq<Window>, order: seq<nat>)
    requires |outcomes| == |parts| == |windows| && Brought(outcomes, parts, windows) && CompletionOrder(order, |outcomes|)
    ensures var m := MergeSnapshots(Arrived(outcomes, order));
            m.latency.requests == Sum(parts, Size()) && m.outcome.successes + m.outcome.failures == Sum(parts, Size())
  {
    hide Brought, CompletionOrder, MergeSnapshots, Arrived, MergeStates, Shards, Flatten, Contributors;
    var shards := MasterMerges(outcomes, parts, windows, order);
    MergedTotals(Contributors(outcomes, parts, windows, order), shards);
    assert |multiset(Flatten(shards))| == |Flatten(shards)| && |multiset(Flatten(parts))| == |Flatten(parts)|;
    FlattenSize(parts);
  }

  /**
   What the master holds agrees with one central collector fed all the results that were brought, in
   any order: counts, tables, histograms and token rate exactly, maximum at microsecond floor,
   durations short by under 1us a worker, minimum and estimate flag exactly under their conditions.
   */
  lemma MasterAgrees(outcomes: seq<Outcome<AggregateSnapshot>>, parts: seq<seq<RunResult>>, windows: seq<Window>,
                     order: seq<nat>, all: seq<RunResult>)
    requires |outcomes| == |parts| == |windows| && Brought(outcomes, parts, windows) && CompletionOrder(order, |outcomes|)
    requires multiset(all) == multiset(Flatten(parts)) && NonNegativeLatencies(all)
    ensures var m, s := MergeSnapshots(Arrived(outcomes, order)), FoldResults(all);
            && SameCounts(m, s) && m.tokens.rate == s.tokens.rate && m.latency.max == Floor(s.latency.max)
            && (forall k :: 0 <= Time(s, k) - Time(m, k) <= 999 * |parts|)
            && (m.latency.min == Floor(s.latency.min) <==> MinimumKept(CarriedMinima(Contributors(outcomes, parts, windows, order))))
            && (m.tokens.estimated == s.tokens.estimated <==> !SomeEstimate(all))
  {
    hide Brought, CompletionOrder, MergeSnapshots, Arrived, MergeStates, Shards, FoldResults, Represents, SameCounts, CarriedMinima,
         MinimumKept, SomeEstimate, Time, Contributors, Named;
    FoldRepresents(all);
    var ts := Contributors(outcomes, parts, windows, order);
    var shards := MasterMerges(outcomes, parts, windows, order);
    DistributedIsCentral(ts, shards, all, FoldResults(all));
  }

  // ----- executions of a job

  /** One attempt at a worker: what its engine did, if it ran to its end, and what came back to the master. */
  datatype Attempt = Attempt(schedule: seq<Step>, results: seq<RunResult>, window: Window, outcome: Outcome<AggregateSnapshot>)

  /** Each worker's three attempts, whether the context is done after each, and the order in which the dispatches end. */
  datatype Execution = Execution(attempts: seq<seq<Attempt>>, cancelledAfter: seq<seq<bool>>, order: seq<nat>)

  /** The schedule takes the engine from start to finish, collecting these results. */
  ghost predicate Ends(cfg: Config, steps: seq<Step>, results: seq<RunResult>)
    requires ValidConfig(cfg)
  {
    Legal(cfg, Init(cfg), steps) && Run(cfg, Init(cfg), steps).done && results == Run(cfg, Init(cfg), steps).collected
  }

  /** An attempt succeeds only if the worker accepts the job and its engine runs to an end, cancelled or not. */
  ghost predicate FromWorker(cfg: Config, a: Attempt)
  {
    a.outcome.Ok? ==> Accepted(cfg) && Ends(cfg, a.schedule, a.results) && a.outcome.value == Answer(a.results, a.window)
  }

  /** Three attempts for every worker, and every worker once in the order. */
  ghost predicate WellFormed(e: Execution, workers: nat)
  {
    && |e.attempts| == |e.cancelledAfter| == workers && CompletionOrder(e.order, workers)
    && (forall i :: 0 <= i < workers ==> |e.attempts[i]| == |e.cancelledAfter[i]| == ATTEMPTS)
  }

  ghost predicate Possible(cfg: Config, workers: nat, e: Execution)
  {
    && WellFormed(e, workers)
    && (forall i, j :: 0 <= i < workers && 0 <= j < ATTEMPTS ==> FromWorker(ShardConfig(cfg, i, workers), e.attempts[i][j]))
  }

  function OutcomesOf(attempts: seq<Attempt>): (r: seq<Outcome<AggregateSnapshot>>)
    ensures |r| == |attempts| && forall j :: 0 <= j < |r| ==> r[j] == attempts[j].outcome
  {
    seq(|attempts|, j requires 0 <= j < |attempts| => attempts[j].outcome)
  }

  /** What the dispatches come back with. */
  ghost function Dispatches(e: Execution, workers: nat): (r: seq<Outcome<AggregateSnapshot>>)
    requires WellFormed(e, workers)
    ensures |r| == workers
    ensures forall i :: 0 <= i < workers ==> r[i] == Dispatched(OutcomesOf(e.attempts[i]), e.cancelledAfter[i])
  {
    seq(workers, i requires 0 <= i < workers => Dispatched(OutcomesOf(e.attempts[i]), e.cancelledAfter[i]))
  }

  /** The master's collector at the end of the job. */
  ghost function Report(e: Execution, workers: nat): CollectorState
    requires WellFormed(e, workers)
  {
    MergeSnapshots(Arrived(Dispatches(e, workers), e.order))
  }

  /** The first attempt that answers, if any does. */
  ghost predicate AnsweredBy(attempts: seq<Attempt>, cancelledAfter: seq<bool>, j: nat)
    requires |attempts| == |cancelledAfter| == ATTEMPTS
  {
    Answers(OutcomesOf(attempts), cancelledAfter, j)
  }

  /** What one worker contributes: the results of the attempt that answers, or nothing. */
  ghost predicate Contributes(cfg: Config, attempts: seq<Attempt>, r: Outcome<AggregateSnapshot>, part: seq<RunResult>, window: Window)
  {
    if r.Ok? then
      && r.value == Answer(part, window) && Accepted(cfg)
      && exists j :: 0 <= j < |attempts| && attempts[j].outcome.Ok? && Ends(cfg, attempts[j].schedule, part)
    else part == []
  }

  lemma Contribution(cfg: Config, attempts: seq<Attempt>, cancelledAfter: seq<bool>) returns (part: seq<RunResult>, window: Window)
    requires |attempts| == |cancelledAfter| == ATTEMPTS
    requires forall j :: 0 <= j < ATTEMPTS ==> FromWorker(cfg, attempts[j])
    ensures var r := Dispatched(OutcomesOf(attempts), cancelledAfter);
            && (r.Ok? <==> exists j: nat :: AnsweredBy(attempts, cancelledAfter, j))
            && Contributes(cfg, attempts, r, part, window)
  {
    var outcomes := OutcomesOf(attempts);
    DispatchedAnswer(outcomes, cancelledAfter);
    hide Ends, Answer, Dispatched, Accepted;
    part, window := [], Window(0, 0);
    if Dispatched(outcomes, cancelledAfter).Ok? {
      var j: nat :| Answers(outcomes, cancelledAfter, j);
      assert AnsweredBy(attempts, cancelledAfter, j);
      assert FromWorker(cfg, attempts[j]);
      part, window := attempts[j].results, attempts[j].window;
    }
  }

  lemma ContributionOf(cfg: Config, workers: nat, e: Execution, i: nat) returns (part: seq<RunResult>, window: Window)
    requires Possible(cfg, workers, e) && i < workers
    ensures WellFormed(e, workers)
    ensures var r := Dispatches(e, workers)[i];
            && (r.Ok? <==> exists j: nat :: AnsweredBy(e.attempts[i], e.cancelledAfter[i], j))
            && Contributes(ShardConfig(cfg, i, workers), e.attempts[i], r, part, window)
  {
    hide FromWorker, ShardConfig, Contributes, CompletionOrder, Dispatched, AnsweredBy;
    part, window := Contribution(ShardConfig(cfg, i, workers), e.attempts[i], e.cancelledAfter[i]);
  }

  ghost predicate ContributesAt(cfg: Config, workers: nat, e: Execution, i: nat, part: seq<RunResult>, window: Window)
    requires WellFormed(e, workers) && i < workers
  {
    Contributes(ShardConfig(cfg, i, workers), e.attempts[i], Dispatches(e, workers)[i], part, window)
  }

  lemma ContributionAt(cfg: Config, workers: nat, e: Execution, i: nat) returns (part: seq<RunResult>, window: Window)
    requires WellFormed(e, workers) && Possible(cfg, workers, e) && i < workers
    ensures ContributesAt(cfg, workers, e, i, part, window)
  {
    part, window := ContributionOf(cfg, workers, e, i);
  }

  lemma {:induction false} ContributionsUpTo(cfg: Config, workers: nat, e: Execution, n: nat)
    returns (parts: seq<seq<RunResult>>, windows: seq<Window>)
    requires WellFormed(e, workers) && Possible(cfg, workers, e) && n <= workers
    ensures |parts| == |windows| == n
    ensures forall i :: 0 <= i < n ==> ContributesAt(cfg, workers, e, i, parts[i], windows[i])
  {
    hide *;
    parts, windows := [], [];
    if n > 0 {
      parts, windows := ContributionsUpTo(cfg, workers, e, n - 1);
      var part, window := ContributionAt(cfg, workers, e, n - 1);
      parts, windows := parts + [part], windows + [window];
    }
  }

  /** What all workers contribute. */
  lemma Contributions(cfg: Config, workers: nat, e: Execution) returns (parts: seq<seq<RunResult>>, windows: seq<Window>)
    requires WellFormed(e, workers) && Possible(cfg, workers, e)
    ensures |parts| == |windows| == workers && Brought(Dispatches(e, workers), parts, windows)
    ensures forall i :: 0 <= i < workers ==> ContributesAt(cfg, workers, e, i, parts[i], windows[i])
  {
    parts, windows := ContributionsUpTo(cfg, workers, e, workers);
    AllBring(cfg, workers, e, parts, windows);
  }

  lemma AllBring(cfg: Config, workers: nat, e: Execution, parts: seq<seq<RunResult>>, windows: seq<Window>)
    requires WellFormed(e, workers) && |parts| == |windows| == workers
    requires forall i :: 0 <= i < workers ==> ContributesAt(cfg, workers, e, i, parts[i], windows[i])
    ensures Brought(Dispatches(e, workers), parts, windows)
  {
    forall i | 0 <= i < workers
      ensures Contributes(ShardConfig(cfg, i, workers), e.attempts[i], Dispatches(e, workers)[i], parts[i], windows[i])
    {
      assert ContributesAt(cfg, workers, e, i, parts[i], windows[i]);
    }
    hide Answer, Ends, Accepted, ShardConfig, CompletionOrder, Dispatched;
  }
}
