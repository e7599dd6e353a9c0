/**
 The persistent master as a step system: client submissions and cancellations, one dispatcher
 goroutine that takes a slot and then a job, and one goroutine per started job.
 */
module JobServer {
  import opened Sequences
  import opened Ranges
  import opened JobQueues

  datatype Dispatcher = AtTop | Acquiring | Scanning | Parked | Halted

  /** A job goroutine: inside Run, about to report its outcome, or about to give its slot back. */
  datatype Stage = Executing | Reporting(ok: bool) | Releasing

  datatype JobRoutine = JobRoutine(id: JobId, stage: Stage)

  /** `started` records the ids in the order the dispatcher started them. */
  datatype Server = Server(
    queue: QueueState, slots: nat, dispatcher: Dispatcher, routines: seq<JobRoutine>,
    stopped: bool, contextDone: bool, started: seq<JobId>)

  datatype Step =
    | Submit(id: JobId, spec: JobSpec, now: nat)
    | CancelJob(id: JobId, now: nat)
    | Stop | EndContext
    | CheckTop | AcquireSlot | GiveUp | Scan(now: nat) | Wake | Abandon
    | Return(i: nat, ok: bool) | Report(i: nat, now: nat) | Release(i: nat)

  function Init(maxJobs: nat): Server
  {
    Server(QueueState(map[], [], maxJobs, false), 0, AtTop, [], false, false, [])
  }

  predicate ShuttingDown(s: Server)
  {
    s.stopped || s.contextDone
  }

  /** Submit is an accepted submission with a fresh id; CancelJob is one that is not refused. */
  predicate Enabled(max: nat, s: Server, step: Step)
  {
    match step
    case Submit(id, spec, now) => |s.queue.jobs| < s.queue.maxJobs && id !in s.queue.jobs
    case CancelJob(id, now) => id in s.queue.jobs && !Terminal(s.queue.jobs[id].status)
    case Stop => !s.stopped
    case EndContext => !s.contextDone
    case CheckTop => s.dispatcher == AtTop
    case AcquireSlot => s.dispatcher == Acquiring && s.slots < max
    case GiveUp => s.dispatcher == Acquiring && ShuttingDown(s)
    case Scan(now) => s.dispatcher == Scanning && Resolves(s.queue)
    case Wake => s.dispatcher == Parked && s.queue.token
    case Abandon => s.dispatcher == Parked && s.contextDone && s.slots > 0
    case Return(i, ok) => i < |s.routines| && s.routines[i].stage == Executing
    case Report(i, now) => i < |s.routines| && s.routines[i].stage.Reporting?
    case Release(i) => i < |s.routines| && s.routines[i].stage == Releasing && s.slots > 0
  }

  function Apply(max: nat, s: Server, step: Step): Server
    requires Enabled(max, s, step)
  {
    match step
    case Submit(id, spec, now) => s.(queue := Enqueued(s.queue, id, spec, now))
    case CancelJob(id, now) => s.(queue := Cancelling(s.queue, id, now))
    case Stop => s.(stopped := true)
    case EndContext => s.(contextDone := true)
    case CheckTop => s.(dispatcher := if ShuttingDown(s) then Halted else Acquiring)
    case AcquireSlot => s.(dispatcher := Scanning, slots := s.slots + 1)
    case GiveUp => s.(dispatcher := Halted)
    case Scan(now) =>
      var p := FirstPending(s.queue, 0);
      if p == |s.queue.order| then s.(dispatcher := Parked)
      else
        var id := s.queue.order[p];
        s.(queue := Started(s.queue, id, now), dispatcher := AtTop,
           routines := s.routines + [JobRoutine(id, Executing)], started := s.started + [id])
    case Wake => s.(dispatcher := Scanning, queue := s.queue.(token := false))
    case Abandon => s.(dispatcher := Halted, slots := s.slots - 1)
    case Return(i, ok) => s.(routines := s.routines[i := s.routines[i].(stage := Reporting(ok))])
    case Report(i, now) =>
      var r := s.routines[i];
      s.(queue := if r.stage.ok then Completing(s.queue, r.id, "summary", now) else Failing(s.queue, r.id, "error", now),
         routines := s.routines[i := r.(stage := Releasing)])
    case Release(i) => s.(routines := s.routines[..i] + s.routines[i + 1..], slots := s.slots - 1)
  }

  predicate Legal(max: nat, s: Server, steps: seq<Step>)
    decreases |steps|
  {
    |steps| > 0 ==> Enabled(max, s, steps[0]) && Legal(max, Apply(max, s, steps[0]), steps[1..])
  }

  function Run(max: nat, s: Server, steps: seq<Step>): Server
    requires Legal(max, s, steps)
    decreases |steps|
  {
    if |steps| == 0 then s else Run(max, Apply(max, s, steps[0]), steps[1..])
  }

  // ----- the invariant

  predicate Before(from: Status, to: Status)
  {
    from == to
    || (from == Pending && (to == Running || to == Cancelled))
    || (from == Running && Terminal(to))
  }

  /** The dispatcher holds a slot between taking it and handing it to a job goroutine. */
  function DispatcherSlots(d: Dispatcher): nat
  {
    if d == Scanning || d == Parked then 1 else 0
  }

  ghost predicate SlotsHeld(max: nat, s: Server)
  {
    s.slots == |s.routines| + DispatcherSlots(s.dispatcher) && s.slots <= max
  }

  /** Each goroutine runs its own job, which the queue knows as running or cancelled until it reports. */
  ghost predicate Owned(q: QueueState, routines: seq<JobRoutine>)
  {
    && (forall i, j :: 0 <= i < j < |routines| ==> routines[i].id != routines[j].id)
    && (forall i :: 0 <= i < |routines| ==> RoutineFits(q, routines[i]))
    && (forall id :: id in q.jobs && q.jobs[id].status == Running ==> Runner(routines, id))
  }

  /** Some goroutine is still working on the job. */
  ghost predicate Runner(routines: seq<JobRoutine>, id: JobId)
  {
    exists i :: 0 <= i < |routines| && routines[i].id == id && routines[i].stage != Releasing
  }

  predicate RoutineFits(q: QueueState, r: JobRoutine)
  {
    && r.id in q.jobs && q.jobs[r.id].attached
    && (if r.stage == Releasing then Terminal(q.jobs[r.id].status)
        else q.jobs[r.id].status == Running || q.jobs[r.id].status == Cancelled)
  }

  /** The ids in order whose jobs were started. */
  function StartedIn(jobs: map<JobId, Job>, order: seq<JobId>): seq<JobId>
  {
    if |order| == 0 then []
    else
      var rest, last := StartedIn(jobs, order[..|order| - 1]), order[|order| - 1];
      if IsAttached(jobs, last) then rest + [last] else rest
  }

  /** Started jobs come before pending ones, so starts follow submission order and happen once. */
  ghost predicate InOrder(q: QueueState, started: seq<JobId>)
  {
    && started == StartedIn(q.jobs, q.order)
    && (forall id :: id in q.jobs ==> JobFits(q.jobs[id]))
    && PendingLast(q)
  }

  ghost predicate PendingLast(q: QueueState)
  {
    forall a, b :: 0 <= a < b < |q.order| && IsPending(q.jobs, q.order[a]) ==> !IsAttached(q.jobs, q.order[b])
  }

  predicate IsPending(jobs: map<JobId, Job>, id: JobId)
  {
    id in jobs && jobs[id].status == Pending
  }

  predicate IsAttached(jobs: map<JobId, Job>, id: JobId)
  {
    id in jobs && jobs[id].attached
  }

  predicate JobFits(job: Job)
  {
    (job.status == Pending ==> !job.attached) && (job.status == Running || job.status == Completed || job.status == Failed ==> job.attached)
  }

  ghost predicate SomePending(q: QueueState)
  {
    exists id :: id in q.jobs && q.jobs[id].status == Pending
  }

  /** No lost wake-up. */
  ghost predicate Wakeable(s: Server)
  {
    s.dispatcher == Parked && SomePending(s.queue) ==> s.queue.token
  }

  /** The dispatcher gives up only on a shutdown. */
  predicate Dispatching(s: Server)
  {
    s.dispatcher == Halted ==> ShuttingDown(s)
  }

  ghost predicate Inv(max: nat, s: Server)
  {
    && Listing(s.queue) && SlotsHeld(max, s) && Owned(s.queue, s.routines) && InOrder(s.queue, s.started)
    && Wakeable(s) && Dispatching(s)
  }
}
