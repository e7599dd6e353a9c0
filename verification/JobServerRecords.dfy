/** What a job's record says in the end, told from what happened to the job over the run. */
module JobServerRecords {
  import opened Sequences
  import opened Ranges
  import opened JobQueues
  import opened JobServer
  import opened JobServerLaws
  import opened JobServerRuns

  datatype Moment = Never | At(time: nat)

  /** What Run came back with for the job. */
  datatype Verdict = Open | Returned(ok: bool)

  /** What happened to one job, and when; `wasStarted` is how the cancellation found it. */
  datatype Story = Story(submitted: Moment, spec: JobSpec, started: Moment, verdict: Verdict, reported: Moment,
                         cancelled: Moment, wasStarted: bool)

  const UNTOLD := Story(Never, JobSpec([], 0), Never, Open, Never, Never, false)

  /** The goroutine of this step belongs to the job. */
  predicate Concerns(s: Server, i: nat, id: JobId)
  {
    i < |s.routines| && s.routines[i].id == id
  }

  /** The step from s to t added the job to the list of starts. */
  predicate Starts(s: Server, t: Server, id: JobId)
  {
    t.started == s.started + [id]
  }

  /** The story after one more step. */
  function Told(s: Server, t: Server, step: Step, id: JobId, y: Story): Story
  {
    match step
    case Submit(x, spec, now) => if x == id then UNTOLD.(submitted := At(now), spec := spec) else y
    case CancelJob(x, now) => if x == id then y.(cancelled := At(now), wasStarted := y.started.At?) else y
    case Scan(now) => if Starts(s, t, id) then y.(started := At(now)) else y
    case Return(i, ok) => if Concerns(s, i, id) then y.(verdict := Returned(ok)) else y
    case Report(i, now) => if Concerns(s, i, id) then y.(reported := At(now)) else y
    case _ => y
  }

  function StoryFrom(max: nat, s: Server, steps: seq<Step>, id: JobId, y: Story): Story
    requires Legal(max, s, steps)
    decreases |steps|
  {
    if |steps| == 0 then y
    else var t := Apply(max, s, steps[0]); StoryFrom(max, t, steps[1..], id, Told(s, t, steps[0], id, y))
  }

  /** The story of a job over a run of a fresh server. */
  function StoryOf(max: nat, maxJobs: nat, steps: seq<Step>, id: JobId): Story
    requires Legal(max, Init(maxJobs), steps)
  {
    StoryFrom(max, Init(maxJobs), steps, id, UNTOLD)
  }

  function TimeOf(m: Moment): nat
  {
    if m.At? then m.time else 0
  }

  /** How the record ends: a cancellation counts, and its cancel function was called if the job had started; else the verdict, once reported. */
  predicate EndsAs(j: Job, y: Story)
  {
    if y.cancelled.At? then
      j.status == Cancelled && j.endedAt == y.cancelled.time && j.result == j.error == "" && (j.signalled <==> y.wasStarted)
    else if y.reported.At? then
      && j.endedAt == y.reported.time && !j.signalled
      && (y.verdict == Returned(true) ==> j.status == Completed && j.result == "summary" && j.error == "")
      && (y.verdict == Returned(false) ==> j.status == Failed && j.result == "" && j.error == "error")
    else
      j.status == (if y.started.At? then Running else Pending) && j.endedAt == 0 && j.result == j.error == "" && !j.signalled
  }

  predicate RecordIs(j: Job, y: Story)
  {
    && y.submitted == At(j.createdAt) && y.spec == j.spec
    && j.startedAt == TimeOf(y.started) && (j.attached <==> y.started.At?)
    && (y.reported.At? ==> y.verdict.Returned?) && (y.verdict.Returned? ==> y.started.At?)
    && EndsAs(j, y)
  }

  /** The job's goroutine stands where the story left it. */
  predicate StageIs(stage: Stage, y: Story)
  {
    && y.started.At?
    && (stage.Executing? ==> y.verdict.Open? && y.reported.Never?)
    && (stage.Reporting? ==> y.verdict == Returned(stage.ok) && y.reported.Never?)
    && (stage.Releasing? ==> y.reported.At?)
  }

  ghost predicate StagesAre(routines: seq<JobRoutine>, id: JobId, y: Story)
  {
    forall i :: 0 <= i < |routines| && routines[i].id == id ==> StageIs(routines[i].stage, y)
  }

  /** The story agrees with the state. */
  ghost predicate Agrees(s: Server, id: JobId, y: Story)
  {
    && (id in s.queue.jobs <==> y.submitted.At?)
    && (id !in s.queue.jobs ==> y == UNTOLD)
    && (id in s.queue.jobs ==> RecordIs(s.queue.jobs[id], y))
    && StagesAre(s.routines, id, y)
  }

  lemma StepAgrees(max: nat, s: Server, step: Step, id: JobId, y: Story)
    requires Inv(max, s) && Enabled(max, s, step) && Agrees(s, id, y)
    ensures var t := Apply(max, s, step); Agrees(t, id, Told(s, t, step, id, y))
  {
    hide Inv, Enabled, Apply, Told, Agrees;
    match step
    case Submit(_, _, _) => SubmitAgrees(max, s, step, id, y);
    case CancelJob(_, _) => CancelAgrees(max, s, step, id, y);
    case Scan(now) => ScanAgrees(max, s, now, id, y);
    case Return(i, ok) => ReturnAgrees(max, s, i, ok, id, y);
    case Report(i, now) => ReportAgrees(max, s, i, now, id, y);
    case Release(i) => ReleaseAgrees(max, s, i, id, y);
    case _ => QuietAgrees(max, s, step, id, y);
  }

  lemma QuietAgrees(max: nat, s: Server, step: Step, id: JobId, y: Story)
    requires Enabled(max, s, step) && Quiet(step) && Agrees(s, id, y)
    ensures var t := Apply(max, s, step); Agrees(t, id, Told(s, t, step, id, y))
  {
    hide RecordIs, StageIs;
    var t := Apply(max, s, step);
    assert t.queue.jobs == s.queue.jobs && t.routines == s.routines;
  }

  lemma SubmitAgrees(max: nat, s: Server, step: Step, id: JobId, y: Story)
    requires Inv(max, s) && Enabled(max, s, step) && step.Submit? && Agrees(s, id, y)
    ensures var t := Apply(max, s, step); Agrees(t, id, Told(s, t, step, id, y))
  {
    hide InOrder, Listing, Wakeable, SlotsHeld;
    forall i | 0 <= i < |s.routines|
      ensures s.routines[i].id in s.queue.jobs
    {
      assert RoutineFits(s.queue, s.routines[i]);
    }
    hide Owned, RoutineFits, StageIs;
  }

  lemma CancelAgrees(max: nat, s: Server, step: Step, id: JobId, y: Story)
    requires Inv(max, s) && Enabled(max, s, step) && step.CancelJob? && Agrees(s, id, y)
    ensures var t := Apply(max, s, step); Agrees(t, id, Told(s, t, step, id, y))
  {
    hide Inv;
  }

  lemma ScanAgrees(max: nat, s: Server, now: nat, id: JobId, y: Story)
    requires Inv(max, s) && Enabled(max, s, Scan(now)) && Agrees(s, id, y)
    ensures var t := Apply(max, s, Scan(now)); Agrees(t, id, Told(s, t, Scan(now), id, y))
  {
    FirstPendingIs(s.queue, s.started);
    hide Inv, FirstPending, Resolves, Started, JobFits, StagesAre, RecordIs, StageIs;
    var p, t := FirstPending(s.queue, 0), Apply(max, s, Scan(now));
    if p < |s.queue.order| {
      var first := s.queue.order[p];
      StartedList(s, t, first);
      OwnedBy(max, s);
      NoRoutineYet(s.queue, s.routines, first);
      if id == first {
        StartedRecord(s.queue, id, y, now);
      } else {
        StartedOther(s.queue, first, id, now);
      }
      StagesMore(s.routines, first, id, y, now);
    } else {
      assert t.started != s.started + [id];
    }
  }

  lemma OwnedBy(max: nat, s: Server)
    requires Inv(max, s)
    ensures Owned(s.queue, s.routines)
  {
  }

  lemma StartedList(s: Server, t: Server, first: JobId)
    requires t.started == s.started + [first]
    ensures forall id :: Starts(s, t, id) <==> id == first
  {
    assert t.started[|s.started|] == first;
  }

  lemma StartedRecord(q: QueueState, id: JobId, y: Story, now: nat)
    requires IsPending(q.jobs, id) && RecordIs(q.jobs[id], y)
    ensures y.verdict.Open? && y.reported.Never?
    ensures id in Started(q, id, now).jobs && RecordIs(Started(q, id, now).jobs[id], y.(started := At(now)))
  {
  }

  lemma StartedOther(q: QueueState, first: JobId, id: JobId, now: nat)
    requires first in q.jobs && id != first
    ensures id in Started(q, first, now).jobs <==> id in q.jobs
    ensures id in q.jobs ==> Started(q, first, now).jobs[id] == q.jobs[id]
  {
  }

  lemma NoRoutineYet(q: QueueState, routines: seq<JobRoutine>, id: JobId)
    requires Owned(q, routines) && IsPending(q.jobs, id)
    ensures forall i :: 0 <= i < |routines| ==> routines[i].id != id
  {
    forall i | 0 <= i < |routines|
      ensures routines[i].id != id
    {
      assert RoutineFits(q, routines[i]);
    }
  }

  lemma StagesMore(routines: seq<JobRoutine>, first: JobId, id: JobId, y: Story, now: nat)
    requires StagesAre(routines, id, y) && forall i :: 0 <= i < |routines| ==> routines[i].id != first
    requires id == first ==> y.verdict.Open? && y.reported.Never?
    ensures StagesAre(routines + [JobRoutine(first, Executing)], id, if id == first then y.(started := At(now)) else y)
  {
  }

  lemma ReturnAgrees(max: nat, s: Server, i: nat, ok: bool, id: JobId, y: Story)
    requires Inv(max, s) && Enabled(max, s, Return(i, ok)) && Agrees(s, id, y)
    ensures var t := Apply(max, s, Return(i, ok)); Agrees(t, id, Told(s, t, Return(i, ok), id, y))
  {
    OneRoutineEach(s.queue, s.routines, i);
    hide Inv, StageIs, StagesAre, RecordIs;
    StagesReturned(s.routines, id, y, i, ok);
    if s.routines[i].id == id {
      StageOf(s.routines, id, y, i);
      ReturnedRecord(s.queue.jobs[id], y, ok);
    }
  }

  lemma ReturnedRecord(j: Job, y: Story, ok: bool)
    requires RecordIs(j, y) && StageIs(Executing, y)
    ensures RecordIs(j, y.(verdict := Returned(ok)))
  {
  }

  lemma StagesReturned(routines: seq<JobRoutine>, id: JobId, y: Story, i: nat, ok: bool)
    requires StagesAre(routines, id, y) && i < |routines| && routines[i].stage == Executing
    requires forall j :: 0 <= j < |routines| && j != i ==> routines[j].id != routines[i].id
    ensures StagesAre(routines[i := routines[i].(stage := Reporting(ok))], id, if routines[i].id == id then y.(verdict := Returned(ok)) else y)
  {
  }

  lemma OneRoutineEach(q: QueueState, routines: seq<JobRoutine>, i: nat)
    requires Owned(q, routines) && i < |routines|
    ensures forall j :: 0 <= j < |routines| && j != i ==> routines[j].id != routines[i].id
    ensures RoutineFits(q, routines[i])
  {
  }

  lemma ReportAgrees(max: nat, s: Server, i: nat, now: nat, id: JobId, y: Story)
    requires Inv(max, s) && Enabled(max, s, Report(i, now)) && Agrees(s, id, y)
    ensures var t := Apply(max, s, Report(i, now)); Agrees(t, id, Told(s, t, Report(i, now), id, y))
  {
    OwnedBy(max, s);
    OneRoutineEach(s.queue, s.routines, i);
    hide Inv, Completing, Failing, RecordIs, StagesAre, StageIs;
    var ok := s.routines[i].stage.ok;
    if s.routines[i].id == id {
      StageOf(s.routines, id, y, i);
      ReportedRecord(s.queue, id, y, ok, now);
    } else {
      ReportedOther(s.queue, s.routines[i].id, id, now);
    }
    StagesReported(s.routines, id, y, i, now);
  }

  lemma StageOf(routines: seq<JobRoutine>, id: JobId, y: Story, i: nat)
    requires StagesAre(routines, id, y) && i < |routines| && routines[i].id == id
    ensures StageIs(routines[i].stage, y)
  {
  }

  /** The outcome goes into the record of a running job; a cancelled one keeps what it has. */
  lemma ReportedRecord(q: QueueState, id: JobId, y: Story, ok: bool, now: nat)
    requires id in q.jobs && RecordIs(q.jobs[id], y) && StageIs(Reporting(ok), y)
    ensures var n := if ok then Completing(q, id, "summary", now) else Failing(q, id, "error", now);
            id in n.jobs && RecordIs(n.jobs[id], y.(reported := At(now)))
  {
  }

  lemma ReportedOther(q: QueueState, x: JobId, id: JobId, now: nat)
    requires id != x && x in q.jobs
    ensures forall n :: n == Completing(q, x, "summary", now) || n == Failing(q, x, "error", now) ==>
              (id in n.jobs <==> id in q.jobs) && (id in q.jobs ==> n.jobs[id] == q.jobs[id])
  {
  }

  lemma StagesReported(routines: seq<JobRoutine>, id: JobId, y: Story, i: nat, now: nat)
    requires StagesAre(routines, id, y) && i < |routines| && forall j :: 0 <= j < |routines| && j != i ==> routines[j].id != routines[i].id
    ensures StagesAre(routines[i := routines[i].(stage := Releasing)], id, if routines[i].id == id then y.(reported := At(now)) else y)
  {
  }

  lemma ReleaseAgrees(max: nat, s: Server, i: nat, id: JobId, y: Story)
    requires Enabled(max, s, Release(i)) && Agrees(s, id, y)
    ensures var t := Apply(max, s, Release(i)); Agrees(t, id, Told(s, t, Release(i), id, y))
  {
    hide RecordIs, StageIs;
    var t := Apply(max, s, Release(i));
    assert forall j :: 0 <= j < |t.routines| ==> t.routines[j] == s.routines[if j < i then j else j + 1];
  }

  lemma {:induction false} RunAgrees(max: nat, s: Server, steps: seq<Step>, id: JobId, y: Story)
    requires Inv(max, s) && Legal(max, s, steps) && Agrees(s, id, y)
    ensures Agrees(Run(max, s, steps), id, StoryFrom(max, s, steps, id, y))
    decreases |steps|
  {
    hide Inv, Enabled, Apply, Told, Agrees;
    if |steps| > 0 {
      var t := Apply(max, s, steps[0]);
      StepAgrees(max, s, steps[0], id, y);
      StepKeeps(max, s, steps[0]);
      RunAgrees(max, t, steps[1..], id, Told(s, t, steps[0], id, y));
    }
  }

  /**
   Over any run of a fresh server, what every job's record says is what happened to it: submission and
   start times, and for a job that was not cancelled, once its goroutine has reported, completed with the
   result if Run returned without an error and failed with the error otherwise. A cancelled job stays
   cancelled, and its cancel function was called exactly if it had been started.
   */
  lemma RecordsTellTheRun(max: nat, maxJobs: nat, steps: seq<Step>, id: JobId)
    requires Legal(max, Init(maxJobs), steps)
    ensures var q, y := Run(max, Init(maxJobs), steps).queue, StoryOf(max, maxJobs, steps, id);
            && (id in q.jobs <==> y.submitted.At?)
            && (id in q.jobs ==> RecordIs(q.jobs[id], y))
  {
    InitInv(max, maxJobs);
    RunAgrees(max, Init(maxJobs), steps, id, UNTOLD);
  }
}
