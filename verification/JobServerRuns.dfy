/** The main results about runs of the job server. */
module JobServerRuns {
  import opened Sequences
  import opened Ranges
  import opened JobQueues
  import opened JobServer
  import opened JobServerLaws

  lemma InitInv(max: nat, maxJobs: nat)
    ensures Inv(max, Init(maxJobs))
  {
  }

  lemma ReachableInv(max: nat, maxJobs: nat, steps: seq<Step>)
    requires Legal(max, Init(maxJobs), steps)
    ensures Inv(max, Run(max, Init(maxJobs), steps))
  {
    InitInv(max, maxJobs);
    RunKeeps(max, Init(maxJobs), steps);
  }

  // ----- concurrency

  ghost function RunningJobs(q: QueueState): set<JobId>
  {
    set id | id in q.jobs && q.jobs[id].status == Running
  }

  function IdsOf(routines: seq<JobRoutine>): (ids: seq<JobId>)
    ensures |ids| == |routines| && forall i :: 0 <= i < |ids| ==> ids[i] == routines[i].id
  {
    seq(|routines|, i requires 0 <= i < |routines| => routines[i].id)
  }

  lemma RunningOwned(q: QueueState, routines: seq<JobRoutine>)
    requires Owned(q, routines)
    ensures |RunningJobs(q)| <= |routines|
  {
    var ids := IdsOf(routines);
    DistinctSize(ids);
    forall id | id in RunningJobs(q)
      ensures id in ids
    {
      assert Runner(routines, id);
      var i :| 0 <= i < |routines| && routines[i].id == id && routines[i].stage != Releasing;
      assert ids[i] == id;
    }
    SubsetSize(RunningJobs(q), set id | id in ids);
  }

  /** In every reachable state: running jobs <= goroutines <= occupied slots <= the concurrency limit. */
  lemma ConcurrencyBound(max: nat, maxJobs: nat, steps: seq<Step>)
    requires Legal(max, Init(maxJobs), steps)
    ensures var s := Run(max, Init(maxJobs), steps);
            |RunningJobs(s.queue)| <= |s.routines| <= s.slots <= max
  {
    ReachableInv(max, maxJobs, steps);
    RunningOwned(Run(max, Init(maxJobs), steps).queue, Run(max, Init(maxJobs), steps).routines);
  }

  /** The listing stays exact: no duplicates, exactly the jobs, at most maxJobs. */
  lemma ListingKept(max: nat, maxJobs: nat, steps: seq<Step>)
    requires Legal(max, Init(maxJobs), steps)
    ensures var q := Run(max, Init(maxJobs), steps).queue;
            Listing(q) && |q.order| == |q.jobs|
  {
    ReachableInv(max, maxJobs, steps);
    var q := Run(max, Init(maxJobs), steps).queue;
    DistinctSize(q.order);
    assert (set id | id in q.order) == q.jobs.Keys;
  }

  // ----- lifecycle

  /** A job only moves forward, and once terminal its record never changes again. */
  ghost predicate Forward(q: QueueState, n: QueueState)
  {
    forall id :: id in q.jobs ==>
      id in n.jobs && Before(q.jobs[id].status, n.jobs[id].status) && (Terminal(q.jobs[id].status) ==> n.jobs[id] == q.jobs[id])
  }

  lemma StepForward(max: nat, s: Server, step: Step)
    requires Inv(max, s) && Enabled(max, s, step)
    ensures Forward(s.queue, Apply(max, s, step).queue)
  {
    hide InOrder, Listing, SlotsHeld, Wakeable;
    match step
    case Report(i, now) =>
      assert RoutineFits(s.queue, s.routines[i]);
      hide Owned;
    case Scan(now) => hide Owned;
    case _ => hide Owned, FirstPending, Started, Completing, Failing;
  }

  /** Pending to running, running to terminal, pending to cancelled, and the compositions of these. */
  predicate Reaches(from: Status, to: Status)
  {
    Before(from, to) || (from == Pending && Terminal(to))
  }

  /** Over any continuation of any run: statuses only advance and terminal records are final. */
  lemma {:induction false} Lifecycle(max: nat, s: Server, steps: seq<Step>, id: JobId)
    requires Inv(max, s) && Legal(max, s, steps) && id in s.queue.jobs
    ensures id in Run(max, s, steps).queue.jobs
    ensures Reaches(s.queue.jobs[id].status, Run(max, s, steps).queue.jobs[id].status)
    ensures Terminal(s.queue.jobs[id].status) ==> Run(max, s, steps).queue.jobs[id] == s.queue.jobs[id]
    decreases |steps|
  {
    if |steps| > 0 {
      hide Inv, Apply, Enabled;
      StepForward(max, s, steps[0]);
      StepKeeps(max, s, steps[0]);
      Lifecycle(max, Apply(max, s, steps[0]), steps[1..], id);
    }
  }

  lemma {:induction false} StartedDistinct(jobs: map<JobId, Job>, order: seq<JobId>)
    requires Distinct(order)
    ensures Distinct(StartedIn(jobs, order))
    ensures forall id :: id in StartedIn(jobs, order) <==> id in order && IsAttached(jobs, id)
  {
    if |order| > 0 {
      var k := |order| - 1;
      StartedDistinct(jobs, order[..k]);
      assert order == order[..k] + [order[k]];
    }
  }

  /**
   Each job is started at most once, and starts follow submission order: the list of starts is
   exactly the submission order cut down to the jobs ever started.
   */
  lemma StartsInOrder(max: nat, maxJobs: nat, steps: seq<Step>)
    requires Legal(max, Init(maxJobs), steps)
    ensures var s := Run(max, Init(maxJobs), steps);
            s.started == StartedIn(s.queue.jobs, s.queue.order) && Distinct(s.started)
  {
    ReachableInv(max, maxJobs, steps);
    StartedDistinct(Run(max, Init(maxJobs), steps).queue.jobs, Run(max, Init(maxJobs), steps).queue.order);
  }

  // ----- wake-ups and progress

  /** Whenever the dispatcher is parked and a pending job exists, the channel holds a token. */
  lemma NoLostWakeup(max: nat, maxJobs: nat, steps: seq<Step>)
    requires Legal(max, Init(maxJobs), steps)
    ensures var s := Run(max, Init(maxJobs), steps);
            s.dispatcher == Parked && SomePending(s.queue) ==> s.queue.token
  {
    ReachableInv(max, maxJobs, steps);
  }

  /** A step of the server itself, not of a client or of the operator. */
  predicate Internal(step: Step)
  {
    !step.Submit? && !step.CancelJob? && !step.Stop? && !step.EndContext?
  }

  ghost predicate Unfinished(q: QueueState)
  {
    exists id :: id in q.jobs && !Terminal(q.jobs[id].status)
  }

  function NextOf(r: JobRoutine, i: nat): Step
  {
    match r.stage
    case Executing => Return(i, true)
    case Reporting(_) => Report(i, 0)
    case Releasing => Release(i)
  }

  lemma RoutineMoves(max: nat, s: Server, i: nat)
    requires Inv(max, s) && i < |s.routines|
    ensures Internal(NextOf(s.routines[i], i)) && Enabled(max, s, NextOf(s.routines[i], i))
  {
  }

  /** Without goroutines an unfinished job can only be pending. */
  lemma IdlePending(q: QueueState, routines: seq<JobRoutine>)
    requires Owned(q, routines) && |routines| == 0 && Unfinished(q)
    ensures SomePending(q)
  {
    var id :| id in q.jobs && !Terminal(q.jobs[id].status);
    assert !Runner(routines, id);
  }

  /** As long as some job is not terminal and nobody shut the server down, it can take a step. */
  lemma Progress(max: nat, s: Server) returns (step: Step)
    requires max >= 1 && Inv(max, s) && !ShuttingDown(s) && Unfinished(s.queue)
    ensures Internal(step) && Enabled(max, s, step)
  {
    if |s.routines| > 0 {
      RoutineMoves(max, s, 0);
      step := NextOf(s.routines[0], 0);
    } else {
      IdlePending(s.queue, s.routines);
      match s.dispatcher
      case AtTop => step := CheckTop;
      case Acquiring => step := AcquireSlot;
      case Scanning => step := Scan(0); assert Resolves(s.queue);
      case Parked => step := Wake;
    }
  }

  // ----- the measure

  function JobWeight(jobs: map<JobId, Job>): JobId -> int
  {
    (id: JobId) => if id !in jobs then 0 else match jobs[id].status case Pending => 11 case Running => 1 case _ => 0
  }

  function StageWeight(): JobRoutine -> int
  {
    (r: JobRoutine) => match r.stage case Executing => 3 case Reporting(_) => 2 case Releasing => 1
  }

  function DispatcherWeight(d: Dispatcher): int
  {
    match d
    case AtTop => 4
    case Acquiring => 3
    case Scanning => 2
    case Parked => 1
    case Halted => 0
  }

  function Bit(b: bool): int
  {
    if b then 1 else 0
  }

  function Measure(s: Server): int
  {
    Sum(s.queue.order, JobWeight(s.queue.jobs)) + Sum(s.routines, StageWeight()) + DispatcherWeight(s.dispatcher)
      + 3 * Bit(s.queue.token) + Bit(!s.stopped) + Bit(!s.contextDone)
  }

  lemma MeasureNonNegative(s: Server)
    ensures Measure(s) >= 0
  {
    SumBetween(s.queue.order, JobWeight(s.queue.jobs), 0, 11);
    SumBetween(s.routines, StageWeight(), 1, 3);
  }

  /** In a list without duplicates, an element stands on neither side of itself. */
  lemma SplitAround(order: seq<JobId>, id: JobId) returns (l: seq<JobId>, r: seq<JobId>)
    requires Distinct(order) && id in order
    ensures order == l + [id] + r && id !in l && id !in r
  {
    var p :| 0 <= p < |order| && order[p] == id;
    l, r := order[..p], order[p + 1..];
  }

  /** Changing one job changes the sum by its own weight. */
  lemma JobChange(order: seq<JobId>, a: map<JobId, Job>, b: map<JobId, Job>, id: JobId)
    requires Distinct(order) && id in order && a.Keys == b.Keys && forall x :: x in a && x != id ==> b[x] == a[x]
    ensures Sum(order, JobWeight(b)) == Sum(order, JobWeight(a)) - JobWeight(a)(id) + JobWeight(b)(id)
  {
    hide Sum, Distinct;
    var l, r := SplitAround(order, id);
    var f, g := JobWeight(a), JobWeight(b);
    SumMiddle(l, id, r, f);
    SumMiddle(l, id, r, g);
    SumEqual(l, f, g);
    SumEqual(r, f, g);
  }

  lemma CancelDrops(max: nat, s: Server, id: JobId, now: nat)
    requires Inv(max, s) && Enabled(max, s, CancelJob(id, now))
    ensures Measure(Apply(max, s, CancelJob(id, now))) < Measure(s)
  {
    hide Owned, InOrder, Sum, Wakeable, SlotsHeld;
    JobChange(s.queue.order, s.queue.jobs, Cancelling(s.queue, id, now).jobs, id);
  }

  /** What starting a job takes off the queue's share of the measure. */
  lemma StartedWeight(q: QueueState, id: JobId, now: nat)
    requires Listing(q) && IsPending(q.jobs, id)
    ensures Started(q, id, now).order == q.order && Started(q, id, now).token == q.token
    ensures Sum(q.order, JobWeight(Started(q, id, now).jobs)) == Sum(q.order, JobWeight(q.jobs)) - 10
  {
    hide Sum, Distinct;
    JobChange(q.order, q.jobs, Started(q, id, now).jobs, id);
  }

  lemma ScanDrops(max: nat, s: Server, now: nat)
    requires Inv(max, s) && Enabled(max, s, Scan(now))
    ensures Measure(Apply(max, s, Scan(now))) < Measure(s)
  {
    FirstPendingIs(s.queue, s.started);
    hide Owned, InOrder, Wakeable, SlotsHeld, FirstPending, Resolves, Listing, Started, Measure;
    var p := FirstPending(s.queue, 0);
    if p < |s.queue.order| {
      StartDrops(s, s.queue.order[p], now);
    } else {
      ParkDrops(s);
    }
  }

  lemma StartDrops(s: Server, id: JobId, now: nat)
    requires s.dispatcher == Scanning && Listing(s.queue) && IsPending(s.queue.jobs, id)
    ensures Measure(s.(queue := Started(s.queue, id, now), dispatcher := AtTop,
                       routines := s.routines + [JobRoutine(id, Executing)], started := s.started + [id])) < Measure(s)
  {
    hide Sum, Listing, Started, JobWeight, StageWeight;
    StartedWeight(s.queue, id, now);
    LaunchedWeight(s.routines, id);
  }

  lemma ParkDrops(s: Server)
    requires s.dispatcher == Scanning
    ensures Measure(s.(dispatcher := Parked)) < Measure(s)
  {
    hide Sum, JobWeight, StageWeight;
  }

  lemma LaunchedWeight(routines: seq<JobRoutine>, id: JobId)
    ensures Sum(routines + [JobRoutine(id, Executing)], StageWeight()) == Sum(routines, StageWeight()) + 3
  {
    SumSnoc(routines, JobRoutine(id, Executing), StageWeight());
  }

  /** Reporting an outcome never adds to the queue's share. */
  lemma ReportedWeight(q: QueueState, id: JobId, n: QueueState)
    requires Listing(q) && id in q.jobs && (q.jobs[id].status == Running || q.jobs[id].status == Cancelled)
    requires exists now: nat :: n == Completing(q, id, "summary", now) || n == Failing(q, id, "error", now)
    ensures n.order == q.order && n.token == q.token
    ensures Sum(q.order, JobWeight(n.jobs)) <= Sum(q.order, JobWeight(q.jobs))
  {
    hide Sum, Distinct;
    JobChange(q.order, q.jobs, n.jobs, id);
  }

  lemma ReportDrops(max: nat, s: Server, i: nat, now: nat)
    requires Inv(max, s) && Enabled(max, s, Report(i, now))
    ensures Measure(Apply(max, s, Report(i, now))) < Measure(s)
  {
    var t, r := Apply(max, s, Report(i, now)), s.routines[i];
    assert RoutineFits(s.queue, r);
    hide Owned, InOrder, Sum, Wakeable, SlotsHeld, Listing, Completing, Failing;
    SumUpdate(s.routines, i, r.(stage := Releasing), StageWeight());
    ReportedWeight(s.queue, r.id, t.queue);
  }

  /** Every step except an accepted submission makes the measure smaller. */
  lemma MeasureDrops(max: nat, s: Server, step: Step)
    requires Inv(max, s) && Enabled(max, s, step) && !step.Submit?
    ensures Measure(Apply(max, s, step)) < Measure(s)
  {
    hide Inv, Enabled, Apply, Measure;
    match step
    case CancelJob(id, now) => CancelDrops(max, s, id, now);
    case Scan(now) => ScanDrops(max, s, now);
    case Report(i, now) => ReportDrops(max, s, i, now);
    case Return(i, ok) => ReturnDrops(max, s, i, ok);
    case Release(i) => ReleaseDrops(max, s, i);
    case _ => QuietDrops(max, s, step);
  }

  lemma ReturnDrops(max: nat, s: Server, i: nat, ok: bool)
    requires Enabled(max, s, Return(i, ok))
    ensures Measure(Apply(max, s, Return(i, ok))) < Measure(s)
  {
    hide Sum, JobWeight;
    SumUpdate(s.routines, i, s.routines[i].(stage := Reporting(ok)), StageWeight());
  }

  lemma ReleaseDrops(max: nat, s: Server, i: nat)
    requires Enabled(max, s, Release(i))
    ensures Measure(Apply(max, s, Release(i))) < Measure(s)
  {
    hide Sum, JobWeight;
    SumRemove(s.routines, i, StageWeight());
  }

  lemma QuietDrops(max: nat, s: Server, step: Step)
    requires Enabled(max, s, step) && Quiet(step)
    ensures Measure(Apply(max, s, step)) < Measure(s)
  {
    hide Sum, JobWeight, StageWeight;
  }

  ghost predicate NoSubmissions(steps: seq<Step>)
  {
    forall i :: 0 <= i < |steps| ==> !steps[i].Submit?
  }

  /** With no further submissions every run is finite, whatever clients and operators do. */
  lemma {:induction false} RunsBounded(max: nat, s: Server, steps: seq<Step>)
    requires Inv(max, s) && Legal(max, s, steps) && NoSubmissions(steps)
    ensures |steps| <= Measure(s) - Measure(Run(max, s, steps))
    ensures |steps| <= Measure(s)
    decreases |steps|
  {
    hide Inv, Enabled, Apply, Measure;
    if |steps| > 0 {
      MeasureDrops(max, s, steps[0]);
      StepKeeps(max, s, steps[0]);
      RunsBounded(max, Apply(max, s, steps[0]), steps[1..]);
    }
    MeasureNonNegative(Run(max, s, steps));
  }

  /** Without a shutdown, the server's own steps alone can bring every job to a terminal state. */
  lemma {:induction false} Drains(max: nat, s: Server) returns (steps: seq<Step>)
    requires max >= 1 && Inv(max, s) && !ShuttingDown(s)
    ensures Legal(max, s, steps) && (forall i :: 0 <= i < |steps| ==> Internal(steps[i]))
    ensures !Unfinished(Run(max, s, steps).queue)
    decreases Measure(s)
  {
    hide Inv, Enabled, Apply, Measure, Unfinished;
    steps := [];
    if Unfinished(s.queue) {
      var step := Progress(max, s);
      MeasureDrops(max, s, step);
      MeasureNonNegative(s);
      StepKeeps(max, s, step);
      StepQuiet(max, s, step);
      var rest := Drains(max, Apply(max, s, step));
      steps := [step] + rest;
      assert steps[1..] == rest;
    }
  }

  lemma StepQuiet(max: nat, s: Server, step: Step)
    requires Enabled(max, s, step) && Internal(step) && !ShuttingDown(s)
    ensures !ShuttingDown(Apply(max, s, step))
  {
  }

  ghost predicate AllInternal(steps: seq<Step>)
  {
    forall i :: 0 <= i < |steps| ==> Internal(steps[i])
  }

  /** No step of the server itself is left to take. */
  ghost predicate AtRest(max: nat, s: Server)
  {
    forall step: Step :: Internal(step) ==> !Enabled(max, s, step)
  }

  lemma {:induction false} StaysUp(max: nat, s: Server, steps: seq<Step>)
    requires Legal(max, s, steps) && AllInternal(steps) && !ShuttingDown(s)
    ensures !ShuttingDown(Run(max, s, steps))
    decreases |steps|
  {
    if |steps| > 0 {
      StepQuiet(max, s, steps[0]);
      assert AllInternal(steps[1..]) by {
        forall i | 0 <= i < |steps| - 1
          ensures Internal(steps[1..][i])
        {
          assert steps[1..][i] == steps[i + 1];
        }
      }
      hide Enabled, Apply, Internal, AllInternal;
      StaysUp(max, Apply(max, s, steps[0]), steps[1..]);
    }
  }

  /**
   Without a shutdown every schedule of the server's own steps is finite, and one that cannot be
   continued leaves every job in a terminal state.
   */
  lemma EveryScheduleDrains(max: nat, s: Server, steps: seq<Step>)
    requires max >= 1 && Inv(max, s) && !ShuttingDown(s) && Legal(max, s, steps) && AllInternal(steps)
    ensures |steps| <= Measure(s)
    ensures AtRest(max, Run(max, s, steps)) ==> !Unfinished(Run(max, s, steps).queue)
  {
    assert NoSubmissions(steps) by {
      forall i | 0 <= i < |steps|
        ensures !steps[i].Submit?
      {
        assert Internal(steps[i]);
      }
    }
    RunsBounded(max, s, steps);
    RunKeeps(max, s, steps);
    StaysUp(max, s, steps);
    hide Inv, Legal, Run, Enabled, Unfinished, Measure;
    var t := Run(max, s, steps);
    if AtRest(max, t) && Unfinished(t.queue) {
      var step := Progress(max, t);
      assert false;
    }
  }

  // ----- the queue never gets room again

  /** How many accepted submissions a run contains. */
  function Submissions(steps: seq<Step>): nat
  {
    if |steps| == 0 then 0 else (if steps[0].Submit? then 1 else 0) + Submissions(steps[1..])
  }

  /** Jobs are never removed: the table grows by exactly the accepted submissions. */
  lemma {:induction false} JobsCounted(max: nat, s: Server, steps: seq<Step>)
    requires Inv(max, s) && Legal(max, s, steps)
    ensures |Run(max, s, steps).queue.jobs| == |s.queue.jobs| + Submissions(steps)
    ensures Run(max, s, steps).queue.maxJobs == s.queue.maxJobs
    decreases |steps|
  {
    if |steps| > 0 {
      hide Inv;
      var t := Apply(max, s, steps[0]);
      if steps[0].Submit? {
        assert |t.queue.jobs| == |s.queue.jobs| + 1;
      } else {
        JobsKept(max, s, steps[0]);
      }
      StepKeeps(max, s, steps[0]);
      hide Enabled, Apply;
      JobsCounted(max, t, steps[1..]);
    }
  }

  /** After any run of a fresh server, a submission with a fresh id is accepted exactly while fewer than maxJobs have been. */
  lemma AcceptedExactly(max: nat, maxJobs: nat, steps: seq<Step>, id: JobId, spec: JobSpec, now: nat)
    requires Legal(max, Init(maxJobs), steps) && id !in Run(max, Init(maxJobs), steps).queue.jobs
    ensures Enabled(max, Run(max, Init(maxJobs), steps), Submit(id, spec, now)) <==> Submissions(steps) < maxJobs
    ensures Submissions(steps) <= maxJobs
  {
    InitInv(max, maxJobs);
    JobsCounted(max, Init(maxJobs), steps);
    ReachableInv(max, maxJobs, steps);
  }

  /** Once maxJobs submissions have been accepted, no later one is, on any continuation. */
  lemma {:induction false} FullForever(max: nat, s: Server, steps: seq<Step>)
    requires Inv(max, s) && Legal(max, s, steps) && |s.queue.jobs| == s.queue.maxJobs
    ensures |Run(max, s, steps).queue.jobs| == Run(max, s, steps).queue.maxJobs == s.queue.maxJobs
    ensures NoSubmissions(steps)
  {
    JobsCounted(max, s, steps);
    RunKeeps(max, s, steps);
    hide Legal, Run;
    SubmissionsNone(steps);
  }

  lemma {:induction false} SubmissionsNone(steps: seq<Step>)
    ensures Submissions(steps) == 0 <==> NoSubmissions(steps)
  {
    if |steps| > 0 {
      SubmissionsNone(steps[1..]);
      assert forall i :: 0 < i < |steps| ==> steps[i] == steps[1..][i - 1];
      assert NoSubmissions(steps) <==> !steps[0].Submit? && NoSubmissions(steps[1..]) by {
        if NoSubmissions(steps) {
          forall i | 0 <= i < |steps| - 1
            ensures !steps[1..][i].Submit?
          {
            assert steps[1..][i] == steps[i + 1];
          }
        }
      }
    }
  }

  lemma JobsKept(max: nat, s: Server, step: Step)
    requires Inv(max, s) && Enabled(max, s, step) && !step.Submit?
    ensures Apply(max, s, step).queue.maxJobs == s.queue.maxJobs
    ensures Apply(max, s, step).queue.jobs.Keys == s.queue.jobs.Keys
    ensures |Apply(max, s, step).queue.jobs| == |s.queue.jobs|
  {
    hide Listing, InOrder;
    if step.Report? {
      assert RoutineFits(s.queue, s.routines[step.i]);
    }
    SameKeys(s.queue, Apply(max, s, step).queue);
  }

  lemma SameKeys(q: QueueState, n: QueueState)
    ensures q.jobs.Keys == n.jobs.Keys ==> |q.jobs| == |n.jobs|
  {
    assert |q.jobs| == |q.jobs.Keys| && |n.jobs| == |n.jobs.Keys|;
  }
}
