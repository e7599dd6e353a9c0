/** The master's job queue: a locked table of jobs, their submission order and a one-token wake-up channel. */
module JobQueues {
  import opened Ranges

  datatype Status = Pending | Running | Completed | Failed | Cancelled

  predicate Terminal(status: Status)
  {
    status == Completed || status == Failed || status == Cancelled
  }

  /** The id "job-<n>", with n the clock reading in nanoseconds. */
  datatype JobId = JobId(nanos: nat)

  datatype JobSpec = JobSpec(workers: seq<string>, requests: nat)

  /** `attached`: a cancel function is attached (done when the job is dequeued); `signalled`: it was called. */
  datatype Job = Job(spec: JobSpec, status: Status, createdAt: nat, startedAt: nat, endedAt: nat,
                     result: string, error: string, attached: bool, signalled: bool)

  datatype QueueState = QueueState(jobs: map<JobId, Job>, order: seq<JobId>, maxJobs: nat, token: bool)

  datatype JobInfo = JobInfo(id: JobId, job: Job)

  datatype QueueError = QueueFull | NotFound | AlreadyTerminal(status: Status)

  datatype Reply<T> = Ok(value: T) | Err(error: QueueError)

  /** The order lists exactly the jobs, each once, and there are at most maxJobs of them. */
  ghost predicate Listing(q: QueueState)
  {
    Distinct(q.order) && (forall id :: id in q.order <==> id in q.jobs) && |q.jobs| <= q.maxJobs
  }

  /** Every listed id is a job, so a scan never misses. */
  predicate Resolves(q: QueueState)
  {
    forall i :: 0 <= i < |q.order| ==> q.order[i] in q.jobs
  }

  function Enqueued(q: QueueState, id: JobId, spec: JobSpec, now: nat): QueueState
  {
    q.(jobs := q.jobs[id := Job(spec, Pending, now, 0, 0, "", "", false, false)], order := q.order + [id], token := true)
  }

  /** Position of the first pending job from i on, or the length of the order. */
  function FirstPending(q: QueueState, i: nat): (r: nat)
    requires Resolves(q) && i <= |q.order|
    ensures i <= r <= |q.order|
    ensures forall j :: i <= j < r ==> q.jobs[q.order[j]].status != Pending
    ensures r < |q.order| ==> q.jobs[q.order[r]].status == Pending
    decreases |q.order| - i
  {
    if i == |q.order| || q.jobs[q.order[i]].status == Pending then i else FirstPending(q, i + 1)
  }

  function Started(q: QueueState, id: JobId, now: nat): QueueState
    requires id in q.jobs
  {
    q.(jobs := q.jobs[id := q.jobs[id].(status := Running, startedAt := now, attached := true)])
  }

  function Completing(q: QueueState, id: JobId, result: string, now: nat): QueueState
  {
    if id in q.jobs && q.jobs[id].status != Cancelled then
      q.(jobs := q.jobs[id := q.jobs[id].(status := Completed, endedAt := now, result := result)])
    else q
  }

  function Failing(q: QueueState, id: JobId, error: string, now: nat): QueueState
  {
    if id in q.jobs && q.jobs[id].status != Cancelled then
      q.(jobs := q.jobs[id := q.jobs[id].(status := Failed, endedAt := now, error := error)])
    else q
  }

  function Cancelling(q: QueueState, id: JobId, now: nat): QueueState
  {
    if id in q.jobs && !Terminal(q.jobs[id].status) then
      q.(jobs := q.jobs[id := q.jobs[id].(status := Cancelled, endedAt := now, signalled := q.jobs[id].attached || q.jobs[id].signalled)])
    else q
  }

  class QueuedJob {
    const id: JobId
    const spec: JobSpec
    var status: Status
    var createdAt: nat
    var startedAt: nat
    var endedAt: nat
    var result: string
    var error: string
    var attached: bool
    var signalled: bool

    constructor (id: JobId, spec: JobSpec, now: nat)
      ensures this.id == id && View() == Job(spec, Pending, now, 0, 0, "", "", false, false)
    {
      this.id, this.spec, status := id, spec, Pending;
      createdAt, startedAt, endedAt := now, 0, 0;
      result, error, attached, signalled := "", "", false, false;
    }

    function View(): Job
      reads this
    {
      Job(spec, status, createdAt, startedAt, endedAt, result, error, attached, signalled)
    }
  }

  class JobQueue {
    var jobs: map<JobId, QueuedJob>
    var order: seq<JobId>
    var maxJobs: nat
    var notEmpty: bool

    ghost predicate Valid()
      reads this
    {
      && (forall id :: id in jobs ==> jobs[id].id == id)
      && (forall i :: 0 <= i < |order| ==> order[i] in jobs)
    }

    ghost function Contents(): (q: QueueState)
      reads this, jobs.Values
      ensures Valid() ==> Resolves(q)
    {
      QueueState(map id | id in jobs :: jobs[id].View(), order, maxJobs, notEmpty)
    }

    constructor (maxJobs: int)
      ensures Valid()
      ensures Contents() == QueueState(map[], [], if maxJobs <= 0 then 100 else maxJobs, false)
    {
      jobs := map[];
      order := [];
      this.maxJobs := if maxJobs <= 0 then 100 else maxJobs;
      notEmpty := false;
    }

    /** The id comes from the clock, so it is a parameter here. */
    method Enqueue(spec: JobSpec, id: JobId, now: nat) returns (r: Reply<JobId>)
      requires Valid()
      modifies this
      ensures Valid()
      ensures r == if old(|jobs|) >= maxJobs then Err(QueueFull) else Ok(id)
      ensures Contents() == if r.Ok? then Enqueued(old(Contents()), id, spec, now) else old(Contents())
    {
      if |jobs| >= maxJobs {
        return Err(QueueFull);
      }
      var job := new QueuedJob(id, spec, now);
      jobs := jobs[id := job];
      order := order + [id];
      if !notEmpty {
        notEmpty := true;
      }
      forall x | x in jobs
        ensures x in Enqueued(old(Contents()), id, spec, now).jobs && jobs[x].View() == Enqueued(old(Contents()), id, spec, now).jobs[x]
      {
        assert x == id || (x in old(jobs) && jobs[x] == old(jobs[x]));
      }
      assert Contents().jobs == Enqueued(old(Contents()), id, spec, now).jobs;
      return Ok(id);
    }

    /** The locked scan of Dequeue: the first pending job in submission order is started. */
    method TryDequeue(now: nat) returns (found: bool, job: QueuedJob?)
      requires Valid()
      modifies jobs.Values
      ensures Valid()
      ensures var p := FirstPending(old(Contents()), 0);
              && (found <==> p < |order|)
              && (found ==> job != null && job.id == order[p] && Contents() == Started(old(Contents()), order[p], now))
              && (!found ==> job == null && Contents() == old(Contents()))
    {
      var i := 0;
      while i < |order|
        invariant 0 <= i <= |order|
        invariant Valid() && unchanged(this) && Contents() == old(Contents())
        invariant FirstPending(Contents(), i) == FirstPending(Contents(), 0)
      {
        var qj := jobs[order[i]];
        if qj.status == Pending {
          qj.status := Running;
          qj.startedAt := now;
          qj.attached := true;
          assert Contents().jobs == Started(old(Contents()), order[i], now).jobs;
          return true, qj;
        }
        i := i + 1;
      }
      return false, null;
    }

    method Complete(id: JobId, result: string, now: nat)
      requires Valid()
      modifies jobs.Values
      ensures Valid() && Contents() == Completing(old(Contents()), id, result, now)
    {
      if id in jobs {
        var qj := jobs[id];
        if qj.status == Cancelled {
          return;
        }
        qj.status := Completed;
        qj.endedAt := now;
        qj.result := result;
        assert Contents().jobs == Completing(old(Contents()), id, result, now).jobs;
      }
    }

    method Fail(id: JobId, error: string, now: nat)
      requires Valid()
      modifies jobs.Values
      ensures Valid() && Contents() == Failing(old(Contents()), id, error, now)
    {
      if id in jobs {
        var qj := jobs[id];
        if qj.status == Cancelled {
          return;
        }
        qj.status := Failed;
        qj.endedAt := now;
        qj.error := error;
        assert Contents().jobs == Failing(old(Contents()), id, error, now).jobs;
      }
    }

    method Cancel(id: JobId, now: nat) returns (r: Reply<()>)
      requires Valid()
      modifies jobs.Values
      ensures Valid() && Contents() == Cancelling(old(Contents()), id, now)
      ensures r == if id !in jobs then Err(NotFound)
                   else if Terminal(old(Contents()).jobs[id].status) then Err(AlreadyTerminal(old(Contents()).jobs[id].status))
                   else Ok(())
    {
      if id !in jobs {
        return Err(NotFound);
      }
      var qj := jobs[id];
      if qj.status == Completed || qj.status == Failed || qj.status == Cancelled {
        return Err(AlreadyTerminal(qj.status));
      }
      qj.status := Cancelled;
      qj.endedAt := now;
      if qj.attached {
        qj.signalled := true;
      }
      assert Contents().jobs == Cancelling(old(Contents()), id, now).jobs;
      return Ok(());
    }

    method Get(id: JobId) returns (r: Reply<JobInfo>)
      requires Valid()
      ensures r == if id in jobs then Ok(JobInfo(id, Contents().jobs[id])) else Err(NotFound)
    {
      if id !in jobs {
        return Err(NotFound);
      }
      return Ok(JobInfo(jobs[id].id, jobs[id].View()));
    }

    /** All jobs in submission order. */
    method List() returns (infos: seq<JobInfo>)
      requires Valid()
      ensures |infos| == |order|
      ensures forall i :: 0 <= i < |order| ==> infos[i] == JobInfo(order[i], Contents().jobs[order[i]])
    {
      infos := [];
      var i := 0;
      while i < |order|
        invariant 0 <= i <= |order| && |infos| == i
        invariant forall j :: 0 <= j < i ==> infos[j] == JobInfo(order[j], Contents().jobs[order[j]])
      {
        infos := infos + [JobInfo(jobs[order[i]].id, jobs[order[i]].View())];
        i := i + 1;
      }
    }
  }

  /** A submission keeps the listing exactly when its id is fresh: the clock must not repeat. */
  lemma EnqueueKeepsListing(q: QueueState, id: JobId, spec: JobSpec, now: nat)
    requires Listing(q) && |q.jobs| < q.maxJobs
    ensures Listing(Enqueued(q, id, spec, now)) <==> id !in q.jobs
  {
    var n := Enqueued(q, id, spec, now);
    if id in q.jobs {
      var i :| 0 <= i < |q.order| && q.order[i] == id;
      assert n.order[i] == n.order[|q.order|];
      assert !Distinct(n.order);
    } else {
      assert |n.jobs| == |q.jobs| + 1;
      forall x
        ensures x in n.order <==> x in n.jobs
      {
        assert x in q.order <==> x in q.jobs;
      }
    }
  }
}
