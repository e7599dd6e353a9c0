/** What Stop does to the job server: exactly when one more job is started afterwards. */
module JobServerStops {
  import opened Sequences
  import opened Ranges
  import opened JobQueues
  import opened JobServer
  import opened JobServerLaws
  import opened JobServerRuns

  /** How many jobs a stopped dispatcher may still start: a check of the stop signal lies ahead, or one scan. */
  function StillOwed(d: Dispatcher): nat
  {
    if d == AtTop || d == Halted then 0 else 1
  }

  lemma StoppedStep(max: nat, s: Server, step: Step)
    requires s.stopped && Enabled(max, s, step)
    ensures var t := Apply(max, s, step);
            t.stopped && |t.started| + StillOwed(t.dispatcher) <= |s.started| + StillOwed(s.dispatcher)
  {
    hide FirstPending, Started, Completing, Failing, Cancelling, Enqueued, Resolves;
  }

  /** After Stop at most one more job is ever started, whatever is submitted. */
  lemma {:induction false} StopStartsAtMostOne(max: nat, s: Server, steps: seq<Step>)
    requires s.stopped && Legal(max, s, steps)
    ensures |Run(max, s, steps).started| + StillOwed(Run(max, s, steps).dispatcher) <= |s.started| + StillOwed(s.dispatcher)
    ensures |Run(max, s, steps).started| <= |s.started| + 1
    decreases |steps|
  {
    if |steps| > 0 {
      hide Enabled, Apply;
      StoppedStep(max, s, steps[0]);
      StopStartsAtMostOne(max, Apply(max, s, steps[0]), steps[1..]);
    }
  }

  // ----- no further start

  /** Nothing is pending and nothing can be submitted. */
  ghost predicate Exhausted(s: Server)
  {
    !SomePending(s.queue) && |s.queue.jobs| == s.queue.maxJobs
  }

  lemma ExhaustedStep(max: nat, s: Server, step: Step)
    requires Inv(max, s) && Exhausted(s) && Enabled(max, s, step)
    ensures Exhausted(Apply(max, s, step)) && Apply(max, s, step).started == s.started
  {
    assert !step.Submit?;
    JobsKept(max, s, step);
    NothingPends(max, s, step);
    hide Inv, SomePending, FirstPending, Started, Completing, Failing, Cancelling, Enqueued;
  }

  lemma NothingPends(max: nat, s: Server, step: Step)
    requires Inv(max, s) && !SomePending(s.queue) && Enabled(max, s, step) && !step.Submit?
    ensures !SomePending(Apply(max, s, step).queue)
    ensures step.Scan? ==> FirstPending(s.queue, 0) == |s.queue.order|
  {
    if step.Scan? {
      FirstPendingIs(s.queue, s.started);
    }
    StepForward(max, s, step);
    JobsKept(max, s, step);
    hide Inv, Enabled, Apply, FirstPending;
    var n := Apply(max, s, step).queue;
    forall x | x in n.jobs
      ensures n.jobs[x].status != Pending
    {
      assert x in s.queue.jobs && Before(s.queue.jobs[x].status, n.jobs[x].status);
    }
  }

  lemma {:induction false} ExhaustedNeverStarts(max: nat, s: Server, steps: seq<Step>)
    requires Inv(max, s) && Exhausted(s) && Legal(max, s, steps)
    ensures Run(max, s, steps).started == s.started
    decreases |steps|
  {
    if |steps| > 0 {
      hide Inv, Exhausted, Enabled, Apply;
      ExhaustedStep(max, s, steps[0]);
      StepKeeps(max, s, steps[0]);
      ExhaustedNeverStarts(max, Apply(max, s, steps[0]), steps[1..]);
    }
  }

  // ----- one further start

  /** Some clock reading later than every job's id. */
  lemma FreshId(ids: set<JobId>) returns (id: JobId)
    ensures id !in ids
  {
    var top := LatestId(ids);
    id := JobId(top + 1);
  }

  lemma LatestId(ids: set<JobId>) returns (top: nat)
    ensures forall id :: id in ids ==> id.nanos <= top
    decreases |ids|
  {
    top := 0;
    if ids != {} {
      var id :| id in ids;
      var below := LatestId(ids - {id});
      top := if id.nanos > below then id.nanos else below;
    }
  }

  /** A step towards the next start: it starts a job, or a pending job stays pending and the dispatcher on its way. */
  ghost predicate Leads(s: Server, t: Server)
  {
    |t.started| > |s.started| || (t.started == s.started && StillOwed(t.dispatcher) == 1 && SomePending(t.queue))
  }

  lemma PendingStays(q: QueueState, n: QueueState, routines: seq<JobRoutine>, i: nat)
    requires SomePending(q) && Owned(q, routines) && i < |routines|
    requires forall x :: x in q.jobs && x != routines[i].id ==> x in n.jobs && n.jobs[x] == q.jobs[x]
    ensures SomePending(n)
  {
    var x :| x in q.jobs && q.jobs[x].status == Pending;
    assert RoutineFits(q, routines[i]);
    assert x in n.jobs && n.jobs[x].status == Pending;
  }

  lemma RoutineLeads(max: nat, s: Server)
    requires Inv(max, s) && s.dispatcher == Acquiring && SomePending(s.queue) && |s.routines| > 0
    ensures var step := NextOf(s.routines[0], 0);
            Internal(step) && Enabled(max, s, step) && Leads(s, Apply(max, s, step))
  {
    RoutineMoves(max, s, 0);
    if s.routines[0].stage.Reporting? {
      ReportLeads(max, s);
    }
    hide Inv, SomePending, Completing, Failing;
  }

  lemma ReportLeads(max: nat, s: Server)
    requires Inv(max, s) && SomePending(s.queue) && Enabled(max, s, Report(0, 0))
    ensures SomePending(Apply(max, s, Report(0, 0)).queue)
  {
    hide Owned, InOrder, Listing, SlotsHeld, SomePending, Wakeable;
    PendingStays(s.queue, Apply(max, s, Report(0, 0)).queue, s.routines, 0);
  }

  lemma ScanLeads(max: nat, s: Server)
    requires Inv(max, s) && s.dispatcher == Scanning && SomePending(s.queue)
    ensures Enabled(max, s, Scan(0)) && |Apply(max, s, Scan(0)).started| == |s.started| + 1
  {
    FirstPendingIs(s.queue, s.started);
    hide FirstPending, Started, SomePending, Inv;
  }

  lemma WakeLeads(max: nat, s: Server)
    requires Inv(max, s) && s.dispatcher == Parked && SomePending(s.queue)
    ensures Enabled(max, s, Wake) && Leads(s, Apply(max, s, Wake))
  {
    hide Owned, InOrder, Listing;
    var t := Apply(max, s, Wake);
    assert t.queue.jobs == s.queue.jobs;
  }

  lemma SubmitLeads(max: nat, s: Server, spec: JobSpec) returns (step: Step)
    requires Inv(max, s) && StillOwed(s.dispatcher) == 1 && |s.queue.jobs| < s.queue.maxJobs
    ensures step.Submit? && Enabled(max, s, step) && Leads(s, Apply(max, s, step))
  {
    hide Inv;
    var id := FreshId(s.queue.jobs.Keys);
    step := Submit(id, spec, 0);
    var t := Apply(max, s, step);
    assert id in t.queue.jobs && t.queue.jobs[id].status == Pending;
  }

  lemma PendingLeads(max: nat, s: Server) returns (step: Step)
    requires max >= 1 && Inv(max, s) && StillOwed(s.dispatcher) == 1 && SomePending(s.queue)
    ensures !step.Submit? && Enabled(max, s, step) && Leads(s, Apply(max, s, step))
  {
    if s.dispatcher == Scanning {
      ScanLeads(max, s);
      step := Scan(0);
    } else if s.dispatcher == Parked {
      WakeLeads(max, s);
      step := Wake;
    } else if s.slots < max {
      hide Inv;
      step := AcquireSlot;
    } else {
      assert |s.routines| > 0;
      RoutineLeads(max, s);
      step := NextOf(s.routines[0], 0);
    }
  }

  lemma {:induction false} CanStart(max: nat, s: Server, spec: JobSpec) returns (steps: seq<Step>)
    requires max >= 1 && Inv(max, s) && StillOwed(s.dispatcher) == 1
    requires SomePending(s.queue) || |s.queue.jobs| < s.queue.maxJobs
    ensures Legal(max, s, steps) && |Run(max, s, steps).started| > |s.started|
    decreases if SomePending(s.queue) then 0 else 1, Measure(s)
  {
    hide Inv, Enabled, Apply, Measure, SomePending;
    var step;
    if SomePending(s.queue) {
      step := PendingLeads(max, s);
      MeasureDrops(max, s, step);
    } else {
      step := SubmitLeads(max, s, spec);
    }
    MeasureNonNegative(s);
    StepKeeps(max, s, step);
    var t := Apply(max, s, step);
    var rest := [];
    if |t.started| == |s.started| {
      rest := CanStart(max, t, spec);
    }
    steps := [step] + rest;
    assert steps[1..] == rest;
  }

  /**
   After Stop, a further job is started on some continuation exactly when the dispatcher is past its
   check of the stop signal and a job is pending or can still be submitted.
   */
  lemma StopMissedExactly(max: nat, s: Server, spec: JobSpec)
    requires max >= 1 && s.stopped && Inv(max, s)
    ensures (exists steps :: Legal(max, s, steps) && |Run(max, s, steps).started| > |s.started|)
       <==> StillOwed(s.dispatcher) == 1 && (SomePending(s.queue) || |s.queue.jobs| < s.queue.maxJobs)
  {
    hide SomePending, Legal, Run;
    if StillOwed(s.dispatcher) == 1 && (SomePending(s.queue) || |s.queue.jobs| < s.queue.maxJobs) {
      var steps := CanStart(max, s, spec);
    } else {
      forall steps | Legal(max, s, steps)
        ensures |Run(max, s, steps).started| <= |s.started|
      {
        if StillOwed(s.dispatcher) == 0 {
          StopStartsAtMostOne(max, s, steps);
        } else {
          ExhaustedNeverStarts(max, s, steps);
        }
      }
    }
  }

  // ----- the failing input, from a fresh server

  /** A dispatcher that waits for a job does not see Stop and starts the next submission. */
  lemma StopMissed(max: nat, maxJobs: nat, id: JobId, spec: JobSpec)
    requires max >= 1 && maxJobs >= 1
    ensures var before := [CheckTop, AcquireSlot, Scan(0), Stop];
            var after := [Submit(id, spec, 0), Wake, Scan(0)];
            && Legal(max, Init(maxJobs), before)
            && var s := Run(max, Init(maxJobs), before);
               && s.stopped && s.started == []
               && Legal(max, s, after) && Run(max, s, after).started == [id]
  {
    var s0 := Init(maxJobs);
    var s1 := s0.(dispatcher := Acquiring);
    var s2 := s0.(dispatcher := Scanning, slots := 1);
    var s3 := s0.(dispatcher := Parked, slots := 1);
    var s4 := s3.(stopped := true);
    RunFour(max, s0, CheckTop, AcquireSlot, Scan(0), Stop, s4);
    var s5 := s4.(queue := Enqueued(s0.queue, id, spec, 0));
    var s6 := s5.(dispatcher := Scanning, queue := s5.queue.(token := false));
    assert s6.queue.order == [id] && FirstPending(s6.queue, 0) == 0;
    var s7 := Apply(max, s6, Scan(0));
    RunThree(max, s4, Submit(id, spec, 0), Wake, Scan(0), s7);
  }

  lemma RunThree(max: nat, s: Server, a: Step, b: Step, c: Step, end: Server)
    requires Enabled(max, s, a)
    requires var t := Apply(max, s, a); Enabled(max, t, b)
    requires var u := Apply(max, Apply(max, s, a), b); Enabled(max, u, c) && Apply(max, u, c) == end
    ensures Legal(max, s, [a, b, c]) && Run(max, s, [a, b, c]) == end
  {
    hide Apply, Enabled;
    var t := Apply(max, s, a);
    var u := Apply(max, t, b);
    assert Legal(max, end, []) && Run(max, end, []) == end;
    RunCons(max, u, c, []);
    RunCons(max, t, b, [c]);
    RunCons(max, s, a, [b, c]);
    assert [c] + [] == [c] && [b] + [c] == [b, c] && [a] + [b, c] == [a, b, c];
  }

  lemma RunFour(max: nat, s: Server, a: Step, b: Step, c: Step, d: Step, end: Server)
    requires Enabled(max, s, a)
    requires var t := Apply(max, s, a); Enabled(max, t, b)
    requires var u := Apply(max, Apply(max, s, a), b); Enabled(max, u, c) && Enabled(max, Apply(max, u, c), d)
    requires Apply(max, Apply(max, Apply(max, Apply(max, s, a), b), c), d) == end
    ensures Legal(max, s, [a, b, c, d]) && Run(max, s, [a, b, c, d]) == end
  {
    hide Apply, Enabled;
    RunThree(max, Apply(max, s, a), b, c, d, end);
    RunCons(max, s, a, [b, c, d]);
    assert [a] + [b, c, d] == [a, b, c, d];
  }

  lemma RunCons(max: nat, s: Server, step: Step, rest: seq<Step>)
    requires Enabled(max, s, step) && Legal(max, Apply(max, s, step), rest)
    ensures Legal(max, s, [step] + rest) && Run(max, s, [step] + rest) == Run(max, Apply(max, s, step), rest)
  {
    hide Apply, Enabled;
    assert ([step] + rest)[1..] == rest;
  }
}
