/** What every run of the job server keeps, and that it makes progress. */
module JobServerLaws {
  import opened Sequences
  import opened Ranges
  import opened JobQueues
  import opened JobServer

  // ----- the started list

  lemma {:induction false} StartedSame(a: map<JobId, Job>, b: map<JobId, Job>, order: seq<JobId>)
    requires forall i :: 0 <= i < |order| ==> (IsAttached(a, order[i]) <==> IsAttached(b, order[i]))
    ensures StartedIn(a, order) == StartedIn(b, order)
  {
    if |order| > 0 {
      StartedSame(a, b, order[..|order| - 1]);
    }
  }

  /** Attaching the job at position p, behind which nothing is attached, appends it. */
  lemma {:induction false} StartedOneMore(a: map<JobId, Job>, b: map<JobId, Job>, order: seq<JobId>, p: nat)
    requires p < |order| && Distinct(order) && !IsAttached(a, order[p]) && IsAttached(b, order[p])
    requires forall i :: 0 <= i < |order| && i != p ==> (IsAttached(a, order[i]) <==> IsAttached(b, order[i]))
    requires forall i :: p < i < |order| ==> !IsAttached(a, order[i])
    ensures StartedIn(b, order) == StartedIn(a, order) + [order[p]]
  {
    var k := |order| - 1;
    if p < k {
      StartedOneMore(a, b, order[..k], p);
    } else {
      StartedSame(a, b, order[..k]);
    }
  }

  // ----- one job changes

  /** A job moves on without being started: its goroutine, if any, still fits. */
  ghost predicate MovedOn(q: QueueState, n: QueueState, id: JobId)
  {
    && id in q.jobs && n.order == q.order && n.maxJobs == q.maxJobs && n.token == q.token
    && n.jobs.Keys == q.jobs.Keys
    && (forall x :: x in q.jobs && x != id ==> n.jobs[x] == q.jobs[x])
    && n.jobs[id].attached == q.jobs[id].attached
    && Before(q.jobs[id].status, n.jobs[id].status) && n.jobs[id].status != Running && n.jobs[id].status != Pending
    && JobFits(n.jobs[id])
  }

  lemma MovedOnListing(q: QueueState, n: QueueState, id: JobId)
    requires Listing(q) && MovedOn(q, n, id)
    ensures Listing(n)
  {
    assert |n.jobs| == |n.jobs.Keys| == |q.jobs.Keys| == |q.jobs|;
  }

  lemma MovedOnInOrder(q: QueueState, n: QueueState, id: JobId, started: seq<JobId>)
    requires InOrder(q, started) && MovedOn(q, n, id)
    ensures InOrder(n, started)
  {
    StartedSame(q.jobs, n.jobs, n.order);
    forall a, b | 0 <= a < b < |n.order| && IsPending(n.jobs, n.order[a])
      ensures !IsAttached(n.jobs, n.order[b])
    {
      assert IsPending(q.jobs, q.order[a]);
    }
  }

  lemma MovedOnPending(q: QueueState, n: QueueState, id: JobId)
    requires MovedOn(q, n, id)
    ensures SomePending(n) ==> SomePending(q)
  {
    if SomePending(n) {
      var x :| x in n.jobs && n.jobs[x].status == Pending;
      assert x in q.jobs && q.jobs[x].status == Pending;
    }
  }

  /** Goroutines keep fitting if each job they name moves from one fitting status to another. */
  lemma OwnedSame(q: QueueState, n: QueueState, routines: seq<JobRoutine>)
    requires Owned(q, routines)
    requires forall i :: 0 <= i < |routines| && RoutineFits(q, routines[i]) ==> RoutineFits(n, routines[i])
    requires forall id :: id in n.jobs && n.jobs[id].status == Running ==> id in q.jobs && q.jobs[id].status == Running
    ensures Owned(n, routines)
  {
  }

  // ----- each step keeps the invariant

  lemma SubmitKeeps(max: nat, s: Server, id: JobId, spec: JobSpec, now: nat)
    requires Inv(max, s) && Enabled(max, s, Submit(id, spec, now))
    ensures Inv(max, Apply(max, s, Submit(id, spec, now)))
  {
    hide Owned, InOrder, Listing;
    EnqueueKeepsListing(s.queue, id, spec, now);
    SubmitInOrder(s.queue, id, spec, now, s.started);
    SubmitOwned(s.queue, id, spec, now, s.routines);
  }

  lemma SubmitOwned(q: QueueState, id: JobId, spec: JobSpec, now: nat, routines: seq<JobRoutine>)
    requires Owned(q, routines) && id !in q.jobs
    ensures Owned(Enqueued(q, id, spec, now), routines)
  {
    OwnedSame(q, Enqueued(q, id, spec, now), routines);
  }

  lemma SubmitInOrder(q: QueueState, id: JobId, spec: JobSpec, now: nat, started: seq<JobId>)
    requires InOrder(q, started) && Listing(q) && id !in q.jobs
    ensures InOrder(Enqueued(q, id, spec, now), started)
  {
    var n := Enqueued(q, id, spec, now);
    StartedSame(q.jobs, n.jobs, q.order);
    assert n.order[..|q.order|] == q.order;
    forall a, b | 0 <= a < b < |n.order| && IsPending(n.jobs, n.order[a])
      ensures !IsAttached(n.jobs, n.order[b])
    {
      if b < |q.order| {
        assert IsPending(q.jobs, q.order[a]);
      }
    }
  }

  lemma CancelKeeps(max: nat, s: Server, id: JobId, now: nat)
    requires Inv(max, s) && Enabled(max, s, CancelJob(id, now))
    ensures Inv(max, Apply(max, s, CancelJob(id, now)))
  {
    hide Owned, InOrder, Listing, SomePending;
    var q, n := s.queue, Cancelling(s.queue, id, now);
    CancelMoves(q, id, now, s.started);
    CancelOwned(q, id, now, s.routines);
    MovedOnListing(q, n, id);
    MovedOnInOrder(q, n, id, s.started);
    MovedOnPending(q, n, id);
  }

  lemma CancelMoves(q: QueueState, id: JobId, now: nat, started: seq<JobId>)
    requires InOrder(q, started) && id in q.jobs && !Terminal(q.jobs[id].status)
    ensures MovedOn(q, Cancelling(q, id, now), id)
  {
  }

  lemma CancelOwned(q: QueueState, id: JobId, now: nat, routines: seq<JobRoutine>)
    requires Owned(q, routines) && id in q.jobs && !Terminal(q.jobs[id].status)
    ensures Owned(Cancelling(q, id, now), routines)
  {
    OwnedSame(q, Cancelling(q, id, now), routines);
  }

  /** Starting the first pending job, in the queue. */
  lemma StartKeepsQueue(q: QueueState, started: seq<JobId>, p: nat, now: nat)
    requires Listing(q) && InOrder(q, started) && Resolves(q) && p == FirstPending(q, 0) < |q.order|
    ensures Listing(Started(q, q.order[p], now)) && InOrder(Started(q, q.order[p], now), started + [q.order[p]])
  {
    var n := Started(q, q.order[p], now);
    assert |n.jobs| == |n.jobs.Keys| == |q.jobs.Keys| == |q.jobs|;
    assert n.jobs.Keys == q.jobs.Keys;
    assert IsPending(q.jobs, q.order[p]) && JobFits(q.jobs[q.order[p]]);
    StartedOneMore(q.jobs, n.jobs, q.order, p);
    forall a, b | 0 <= a < b < |q.order| && IsPending(n.jobs, q.order[a])
      ensures !IsAttached(n.jobs, q.order[b])
    {
      assert IsPending(q.jobs, q.order[a]);
    }
  }

  /** Starting a pending job gives it a goroutine of its own. */
  lemma StartKeepsOwned(q: QueueState, routines: seq<JobRoutine>, id: JobId, now: nat)
    requires Owned(q, routines) && IsPending(q.jobs, id) && JobFits(q.jobs[id])
    ensures Owned(Started(q, id, now), routines + [JobRoutine(id, Executing)])
  {
    var n, all := Started(q, id, now), routines + [JobRoutine(id, Executing)];
    assert all[|routines|] == JobRoutine(id, Executing);
    forall i | 0 <= i < |routines|
      ensures all[i] == routines[i] && RoutineFits(n, all[i]) && all[i].id != id
    {
      assert RoutineFits(q, routines[i]);
    }
    forall x | x in n.jobs && n.jobs[x].status == Running
      ensures Runner(all, x)
    {
      if x != id {
        assert Runner(routines, x);
        var i :| 0 <= i < |routines| && routines[i].id == x && routines[i].stage != Releasing;
        assert all[i].id == x;
      }
    }
  }

  lemma FirstPendingIs(q: QueueState, started: seq<JobId>)
    requires Listing(q) && InOrder(q, started) && Resolves(q)
    ensures var p := FirstPending(q, 0);
            if p < |q.order| then IsPending(q.jobs, q.order[p]) && JobFits(q.jobs[q.order[p]]) else !SomePending(q)
  {
    if FirstPending(q, 0) == |q.order| {
      forall id | id in q.jobs
        ensures q.jobs[id].status != Pending
      {
        assert id in q.order;
      }
    }
  }

  lemma ScanKeeps(max: nat, s: Server, now: nat)
    requires Inv(max, s) && Enabled(max, s, Scan(now))
    ensures Inv(max, Apply(max, s, Scan(now)))
  {
    hide Owned, InOrder, Listing, SomePending, Started, Resolves, FirstPending;
    FirstPendingIs(s.queue, s.started);
    var p := FirstPending(s.queue, 0);
    if p < |s.queue.order| {
      StartKeepsQueue(s.queue, s.started, p, now);
      StartKeepsOwned(s.queue, s.routines, s.queue.order[p], now);
    }
  }

  /** A goroutine moves to a stage that still fits. */
  lemma StageOwned(q: QueueState, n: QueueState, routines: seq<JobRoutine>, i: nat, stage: Stage)
    requires Owned(q, routines) && i < |routines|
    requires forall j :: 0 <= j < |routines| && j != i && RoutineFits(q, routines[j]) ==> RoutineFits(n, routines[j])
    requires RoutineFits(n, routines[i].(stage := stage))
    requires forall id :: id in n.jobs && n.jobs[id].status == Running ==> id in q.jobs && q.jobs[id].status == Running
    requires stage == Releasing ==> n.jobs[routines[i].id].status != Running
    ensures Owned(n, routines[i := routines[i].(stage := stage)])
  {
    var all := routines[i := routines[i].(stage := stage)];
    forall x | x in n.jobs && n.jobs[x].status == Running
      ensures Runner(all, x)
    {
      assert Runner(routines, x);
      var j :| 0 <= j < |routines| && routines[j].id == x && routines[j].stage != Releasing;
      assert all[j].id == x && all[j].stage != Releasing;
    }
  }

  lemma ReturnKeeps(max: nat, s: Server, i: nat, ok: bool)
    requires Inv(max, s) && Enabled(max, s, Return(i, ok))
    ensures Inv(max, Apply(max, s, Return(i, ok)))
  {
    assert RoutineFits(s.queue, s.routines[i]);
    hide Owned, InOrder, Listing;
    StageOwned(s.queue, s.queue, s.routines, i, Reporting(ok));
  }

  lemma Reported(q: QueueState, routines: seq<JobRoutine>, started: seq<JobId>, i: nat, n: QueueState)
    requires Owned(q, routines) && InOrder(q, started) && i < |routines| && routines[i].stage.Reporting?
    requires exists now: nat :: n == Completing(q, routines[i].id, "summary", now) || n == Failing(q, routines[i].id, "error", now)
    ensures Owned(n, routines[i := routines[i].(stage := Releasing)])
    ensures n == q || MovedOn(q, n, routines[i].id)
  {
    var r := routines[i];
    assert RoutineFits(q, r);
    assert forall j :: 0 <= j < |routines| && j != i ==> routines[j].id != r.id;
    ReportedMoves(q, r, started, n);
    hide Owned, InOrder, Completing, Failing;
    StageOwned(q, n, routines, i, Releasing);
  }

  /** Reporting changes at most the job reported on, and leaves it terminal. */
  lemma ReportedMoves(q: QueueState, r: JobRoutine, started: seq<JobId>, n: QueueState)
    requires RoutineFits(q, r) && r.stage.Reporting? && InOrder(q, started)
    requires exists now: nat :: n == Completing(q, r.id, "summary", now) || n == Failing(q, r.id, "error", now)
    ensures n == q || MovedOn(q, n, r.id)
    ensures n.jobs.Keys == q.jobs.Keys && r.id in n.jobs && Terminal(n.jobs[r.id].status) && n.jobs[r.id].attached
    ensures forall x :: x in q.jobs && x != r.id ==> n.jobs[x] == q.jobs[x]
  {
    assert JobFits(q.jobs[r.id]);
    hide InOrder;
  }

  lemma ReportKeeps(max: nat, s: Server, i: nat, now: nat)
    requires Inv(max, s) && Enabled(max, s, Report(i, now))
    ensures Inv(max, Apply(max, s, Report(i, now)))
  {
    hide Owned, InOrder, Listing, SomePending, Completing, Failing;
    var r, q, n := s.routines[i], s.queue, Apply(max, s, Report(i, now)).queue;
    Reported(q, s.routines, s.started, i, n);
    if n != q {
      MovedOnListing(q, n, r.id);
      MovedOnInOrder(q, n, r.id, s.started);
      MovedOnPending(q, n, r.id);
    }
  }

  lemma ReleaseOwned(q: QueueState, routines: seq<JobRoutine>, i: nat)
    requires Owned(q, routines) && i < |routines| && routines[i].stage == Releasing
    ensures Owned(q, routines[..i] + routines[i + 1..])
  {
    var all := routines[..i] + routines[i + 1..];
    assert forall j :: 0 <= j < |all| ==> all[j] == routines[if j < i then j else j + 1];
    forall x | x in q.jobs && q.jobs[x].status == Running
      ensures Runner(all, x)
    {
      assert Runner(routines, x);
      var j :| 0 <= j < |routines| && routines[j].id == x && routines[j].stage != Releasing;
      assert all[if j < i then j else j - 1] == routines[j];
    }
  }

  lemma ReleaseKeeps(max: nat, s: Server, i: nat)
    requires Inv(max, s) && Enabled(max, s, Release(i))
    ensures Inv(max, Apply(max, s, Release(i)))
  {
    hide Owned, InOrder, Listing, SomePending;
    ReleaseOwned(s.queue, s.routines, i);
  }

  /** The steps that touch neither jobs nor job goroutines. */
  predicate Quiet(step: Step)
  {
    step.Stop? || step.EndContext? || step.CheckTop? || step.AcquireSlot? || step.GiveUp? || step.Wake? || step.Abandon?
  }

  lemma QuietKeeps(max: nat, s: Server, step: Step)
    requires Inv(max, s) && Enabled(max, s, step) && Quiet(step)
    ensures Inv(max, Apply(max, s, step))
  {
    var t := Apply(max, s, step);
    assert t.queue == s.queue || t.queue == s.queue.(token := false);
    assert Listing(t.queue) && Owned(t.queue, t.routines) && InOrder(t.queue, t.started);
    hide Owned, InOrder, Listing;
  }

  lemma StepKeeps(max: nat, s: Server, step: Step)
    requires Inv(max, s) && Enabled(max, s, step)
    ensures Inv(max, Apply(max, s, step))
  {
    hide Inv, Enabled, Apply;
    match step
    case Submit(id, spec, now) => SubmitKeeps(max, s, id, spec, now);
    case CancelJob(id, now) => CancelKeeps(max, s, id, now);
    case Scan(now) => ScanKeeps(max, s, now);
    case Return(i, ok) => ReturnKeeps(max, s, i, ok);
    case Report(i, now) => ReportKeeps(max, s, i, now);
    case Release(i) => ReleaseKeeps(max, s, i);
    case _ => QuietKeeps(max, s, step);
  }

  lemma {:induction false} RunKeeps(max: nat, s: Server, steps: seq<Step>)
    requires Inv(max, s) && Legal(max, s, steps)
    ensures Inv(max, Run(max, s, steps))
    decreases |steps|
  {
    if |steps| > 0 {
      StepKeeps(max, s, steps[0]);
      RunKeeps(max, Apply(max, s, steps[0]), steps[1..]);
    }
  }
}
