/** How a job's request budget relates to what its report counts, on every execution. */
module Budgets {
  import opened Sequences
  import opened Ranges
  import opened Histograms
  import opened Collectors
  import opened CollectorLaws
  import opened Aggregation
  import opened EngineModel
  import opened EngineLaws
  import opened Distributed
  import opened Reports

  // ----- sums over workers

  lemma {:induction false} SizesExact(parts: seq<seq<RunResult>>, f: int -> int)
    requires forall i :: 0 <= i < |parts| ==> |parts[i]| == f(i)
    ensures Sum(parts, Size()) == Sum(Indices(|parts|), f)
  {
    if |parts| > 0 {
      var n := |parts| - 1;
      SizesExact(parts[..n], f);
      assert Indices(n + 1)[..n] == Indices(n);
    }
  }

  lemma {:induction false} SizesAtMost(parts: seq<seq<RunResult>>, f: int -> int)
    requires forall i :: 0 <= i < |parts| ==> |parts[i]| <= f(i)
    ensures Sum(parts, Size()) <= Sum(Indices(|parts|), f)
  {
    if |parts| > 0 {
      var n := |parts| - 1;
      SizesAtMost(parts[..n], f);
      assert Indices(n + 1)[..n] == Indices(n);
    }
  }

  /** No worker is handed an empty shard that it would take for a run without limit. */
  predicate Bounded(cfg: Config, workers: nat)
  {
    cfg.duration == 0 || workers <= cfg.requests
  }

  lemma BoundedShard(cfg: Config, workers: nat, i: nat)
    requires Accepted(cfg) && cfg.requests > 0 && i < workers && Bounded(cfg, workers)
    ensures Accepted(ShardConfig(cfg, i, workers)) <==> ShardConfig(cfg, i, workers).requests > 0
    ensures ShardConfig(cfg, i, workers).requests == ShardSize(cfg.requests, workers)(i)
    ensures ShardSize(cfg.requests, workers)(i) == 0 <==> cfg.requests < workers && i >= cfg.requests
  {
    ShardAccepted(cfg, i, workers);
    ShardsBounded(cfg.requests, workers);
    if cfg.requests < workers {
      StarvedShards(cfg.requests, workers, i);
    }
  }

  // ----- every execution without cancellation

  /** No engine whose answer could count was cancelled. */
  ghost predicate Undisturbed(e: Execution)
  {
    forall i, j :: 0 <= i < |e.attempts| && 0 <= j < |e.attempts[i]| && e.attempts[i][j].outcome.Ok? ==> Cancel !in e.attempts[i][j].schedule
  }

  /** Every worker that accepts its shard answers within the attempts. */
  ghost predicate Served(cfg: Config, workers: nat, e: Execution)
    requires Possible(cfg, workers, e)
  {
    forall i :: 0 <= i < workers && Accepted(ShardConfig(cfg, i, workers)) ==>
      exists j: nat :: AnsweredBy(e.attempts[i], e.cancelledAfter[i], j)
  }

  /** A worker that accepts its shard and answers contributes exactly its shard; one that refuses, nothing. */
  lemma PartExact(cfg: Config, attempts: seq<Attempt>, r: Outcome<AggregateSnapshot>, part: seq<RunResult>, window: Window)
    requires Contributes(cfg, attempts, r, part, window) && ValidConfig(cfg)
    requires forall j :: 0 <= j < |attempts| && attempts[j].outcome.Ok? ==> Cancel !in attempts[j].schedule
    requires (Accepted(cfg) <==> r.Ok?) && (Accepted(cfg) <==> cfg.requests > 0)
    ensures |part| == cfg.requests
  {
    hide Accepted, Answer;
    if r.Ok? {
      var j :| 0 <= j < |attempts| && attempts[j].outcome.Ok? && Ends(cfg, attempts[j].schedule, part);
      Exactness(cfg, attempts[j].schedule);
    }
  }

  lemma AnswersMeanOk(cfg: Config, workers: nat, e: Execution, i: nat)
    requires Possible(cfg, workers, e) && i < workers
    ensures Dispatches(e, workers)[i].Ok? <==> exists j: nat :: AnsweredBy(e.attempts[i], e.cancelledAfter[i], j)
    ensures Dispatches(e, workers)[i].Ok? ==> Accepted(ShardConfig(cfg, i, workers))
  {
    var part, window := ContributionOf(cfg, workers, e, i);
    hide Accepted, Dispatched, ShardConfig, WellFormed, Possible;
  }

  /** Uncancelled and served, a worker contributes its shard, and answers exactly if it has one. */
  lemma ServedPart(cfg: Config, workers: nat, e: Execution, i: nat, part: seq<RunResult>, window: Window)
    requires Accepted(cfg) && cfg.requests > 0 && i < workers && Bounded(cfg, workers) && WellFormed(e, workers)
    requires Possible(cfg, workers, e) && Undisturbed(e) && Served(cfg, workers, e)
    requires ContributesAt(cfg, workers, e, i, part, window)
    ensures |part| == ShardSize(cfg.requests, workers)(i)
    ensures Dispatches(e, workers)[i].Ok? <==> !(cfg.requests < workers && i >= cfg.requests)
  {
    AnswersMeanOk(cfg, workers, e, i);
    BoundedShard(cfg, workers, i);
    hide Contributes, Possible, Accepted, AnsweredBy, ShardSize;
    PartExact(ShardConfig(cfg, i, workers), e.attempts[i], Dispatches(e, workers)[i], part, window);
  }

  /**
   A job of N requests over any number of workers, whichever attempt of each dispatch answers and in
   whatever order the dispatches end: unless an engine is cancelled, the report has exactly N requests
   and successes plus failures make N. With fewer requests than workers, those without a shard refuse
   it, and that is when the run completes with errors.
   */
  lemma MasterTotals(cfg: Config, workers: nat, e: Execution)
    requires Accepted(cfg) && cfg.requests > 0 && workers > 0 && Bounded(cfg, workers)
    requires WellFormed(e, workers) && Possible(cfg, workers, e) && Undisturbed(e) && Served(cfg, workers, e)
    ensures Report(e, workers).latency.requests == cfg.requests
    ensures Report(e, workers).outcome.successes + Report(e, workers).outcome.failures == cfg.requests
    ensures FinalStatusOf(Dispatches(e, workers)) == CompletedWithErrors <==> cfg.requests < workers
  {
    InOrder(e, workers);
    var parts, windows := Contributions(cfg, workers, e);
    ShardsAddUp(cfg.requests, workers);
    AllServed(cfg, workers, e, parts, windows);
    StatusExact(Dispatches(e, workers), cfg.requests);
    hide *;
    MasterCounts(Dispatches(e, workers), parts, windows, e.order);
    SizesExact(parts, ShardSize(cfg.requests, workers));
    ReportIs(e, workers);
  }

  lemma InOrder(e: Execution, workers: nat)
    requires WellFormed(e, workers)
    ensures CompletionOrder(e.order, workers)
  {
  }

  lemma ReportIs(e: Execution, workers: nat)
    requires WellFormed(e, workers)
    ensures CompletionOrder(e.order, workers) && forall j :: 0 <= j < |e.order| ==> e.order[j] < workers
    ensures Report(e, workers) == MergeSnapshots(Arrived(Dispatches(e, workers), e.order))
  {
  }

  lemma AllServed(cfg: Config, workers: nat, e: Execution, parts: seq<seq<RunResult>>, windows: seq<Window>)
    requires Accepted(cfg) && cfg.requests > 0 && Bounded(cfg, workers)
    requires WellFormed(e, workers) && Possible(cfg, workers, e) && Undisturbed(e) && Served(cfg, workers, e)
    requires |parts| == |windows| == workers && forall i :: 0 <= i < workers ==> ContributesAt(cfg, workers, e, i, parts[i], windows[i])
    ensures forall i :: 0 <= i < workers ==> |parts[i]| == ShardSize(cfg.requests, workers)(i)
    ensures forall i :: 0 <= i < workers ==> (Dispatches(e, workers)[i].Ok? <==> !(cfg.requests < workers && i >= cfg.requests))
  {
    hide *;
    forall i | 0 <= i < workers
      ensures |parts[i]| == ShardSize(cfg.requests, workers)(i)
      ensures Dispatches(e, workers)[i].Ok? <==> !(cfg.requests < workers && i >= cfg.requests)
    {
      ServedPart(cfg, workers, e, i, parts[i], windows[i]);
    }
  }

  lemma StatusExact(r: seq<Outcome<AggregateSnapshot>>, n: nat)
    requires forall i :: 0 <= i < |r| ==> (r[i].Ok? <==> !(n < |r| && i >= n))
    ensures FinalStatusOf(r) == CompletedWithErrors <==> n < |r|
  {
    assert n < |r| ==> !r[n].Ok?;
  }

  // ----- every execution, cancelled or not

  /** An engine with a limit never reports more than it. */
  lemma PartAtMost(cfg: Config, attempts: seq<Attempt>, r: Outcome<AggregateSnapshot>, part: seq<RunResult>, window: Window)
    requires Contributes(cfg, attempts, r, part, window) && ValidConfig(cfg)
    requires Accepted(cfg) <==> cfg.requests > 0
    ensures |part| <= cfg.requests
  {
    hide Accepted, Answer;
    if r.Ok? {
      var j :| 0 <= j < |attempts| && attempts[j].outcome.Ok? && Ends(cfg, attempts[j].schedule, part);
      Conservation(cfg, attempts[j].schedule);
      HeldNonNegative(Run(cfg, Init(cfg), attempts[j].schedule));
    }
  }

  lemma HeldNonNegative(s: State)
    ensures Held(s) >= 0
  {
    SumBetween(s.workers, HoldsCall(), 0, 1);
  }

  lemma PartWithin(cfg: Config, workers: nat, e: Execution, i: nat, part: seq<RunResult>, window: Window)
    requires Accepted(cfg) && cfg.requests > 0 && i < workers && Bounded(cfg, workers)
    requires WellFormed(e, workers) && ContributesAt(cfg, workers, e, i, part, window)
    ensures |part| <= ShardSize(cfg.requests, workers)(i)
  {
    BoundedShard(cfg, workers, i);
    hide Contributes, WellFormed, Accepted, ShardSize;
    PartAtMost(ShardConfig(cfg, i, workers), e.attempts[i], Dispatches(e, workers)[i], part, window);
  }

  lemma WithinBudget(cfg: Config, workers: nat, e: Execution)
    requires Accepted(cfg) && cfg.requests > 0 && workers > 0 && Bounded(cfg, workers)
    requires WellFormed(e, workers) && Possible(cfg, workers, e)
    ensures Report(e, workers).latency.requests <= cfg.requests
  {
    var parts, windows := Contributions(cfg, workers, e);
    ShardsAddUp(cfg.requests, workers);
    hide *;
    forall i | 0 <= i < workers
      ensures |parts[i]| <= ShardSize(cfg.requests, workers)(i)
    {
      PartWithin(cfg, workers, e, i, parts[i], windows[i]);
    }
    ReportIs(e, workers);
    MasterCounts(Dispatches(e, workers), parts, windows, e.order);
    SizesAtMost(parts, ShardSize(cfg.requests, workers));
  }
}
