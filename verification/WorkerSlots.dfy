/** A worker's table of active jobs: admission up to a capacity, cancellation and shutdown. */
module WorkerSlots {
  import opened Ranges

  /** H is the handle through which a job is cancelled. */
  datatype Slots<H> = Slots(jobs: map<string, H>, capacity: int, lastJobID: string, lastSeen: int)

  function Admitted<H>(s: Slots<H>, id: string, handle: H): Slots<H>
  {
    s.(jobs := s.jobs[id := handle])
  }

  /** The job leaves the table; only a job that ran is remembered as the last one. */
  function Ended<H>(s: Slots<H>, id: string, ran: bool, now: int): Slots<H>
  {
    Slots(s.jobs - {id}, s.capacity, if ran then id else s.lastJobID, now)
  }

  datatype Admission<H> = Accepted(handle: H) | AtCapacity(active: set<string>)

  class JobHandle {
    const id: string
    var cancelled: bool

    constructor (id: string)
      ensures this.id == id && !cancelled
    {
      this.id, cancelled := id, false;
    }
  }

  class Worker {
    var jobs: map<string, JobHandle>
    var capacity: int
    var lastJobID: string
    var lastSeen: int

    ghost predicate Valid()
      reads this
    {
      forall id :: id in jobs ==> jobs[id].id == id
    }

    ghost function Contents(): Slots<JobHandle>
      reads this
    {
      Slots(jobs, capacity, lastJobID, lastSeen)
    }

    constructor (capacity: int, now: int)
      ensures Valid() && Contents() == Slots(map[], if capacity <= 0 then 1 else capacity, "", now)
    {
      jobs := map[];
      this.capacity := if capacity <= 0 then 1 else capacity;
      lastJobID, lastSeen := "", now;
    }

    /** The locked admission at the start of a run request. */
    method Admit(id: string) returns (r: Admission<JobHandle>)
      requires Valid()
      modifies this
      ensures Valid()
      ensures old(|jobs|) >= capacity ==> r == AtCapacity(jobs.Keys) && Contents() == old(Contents())
      ensures old(|jobs|) < capacity ==>
        r.Accepted? && fresh(r.handle) && !r.handle.cancelled && Contents() == Admitted(old(Contents()), id, r.handle)
    {
      if |jobs| >= capacity {
        return AtCapacity(jobs.Keys);
      }
      var handle := new JobHandle(id);
      jobs := jobs[id := handle];
      return Accepted(handle);
    }

    /** `ran` is false when the runner could not be built. */
    method End(id: string, ran: bool, now: int)
      requires Valid()
      modifies this
      ensures Valid() && Contents() == Ended(old(Contents()), id, ran, now)
    {
      jobs := jobs - {id};
      if ran {
        lastJobID := id;
      }
      lastSeen := now;
    }

    method Cancel(id: string) returns (found: bool)
      requires Valid()
      modifies jobs.Values
      ensures Valid() && Contents() == old(Contents())
      ensures found <==> id in jobs
      ensures forall k :: k in jobs ==> jobs[k].cancelled == (old(jobs[k].cancelled) || k == id)
    {
      if id !in jobs {
        return false;
      }
      jobs[id].cancelled := true;
      return true;
    }

    /** Closes admission and cancels every job active at that moment, in whatever order the table yields them. */
    method Shutdown()
      requires Valid()
      modifies this, jobs.Values
      ensures Valid() && Contents() == old(Contents()).(capacity := 0)
      ensures forall id :: id in jobs ==> jobs[id].cancelled
    {
      capacity := 0;
      var active: seq<JobHandle> := [];
      var left := jobs.Keys;
      while left != {}
        invariant left <= jobs.Keys
        invariant forall h :: h in active ==> h in jobs.Values
        invariant forall id :: id in jobs && id !in left ==> jobs[id] in active
        decreases |left|
      {
        var id :| id in left;
        active := active + [jobs[id]];
        left := left - {id};
      }
      var i := 0;
      while i < |active|
        invariant 0 <= i <= |active|
        invariant Valid() && Contents() == old(Contents()).(capacity := 0)
        invariant forall j :: 0 <= j < i ==> active[j].cancelled
      {
        active[i].cancelled := true;
        i := i + 1;
      }
      forall id | id in jobs
        ensures jobs[id].cancelled
      {
        assert jobs[id] in active;
      }
    }
  }

  // ----- runs of a worker

  /** A run request that was admitted and has not ended, with the handle it was given. */
  datatype Execution = Execution(id: string, handle: nat)

  /** `cancelling`: handles a cancel request or a shutdown has picked up; `cancelled`: those called. */
  datatype State = State(slots: Slots<nat>, executing: seq<Execution>, next: nat, cancelling: set<nat>, cancelled: set<nat>)

  datatype Step =
    | Request(id: string)
    | End(i: nat, ran: bool, now: int)
    | LookUp(id: string)
    | CloseDoor
    | CallCancel(handle: nat)

  function Init(capacity: int, now: int): State
  {
    State(Slots(map[], if capacity <= 0 then 1 else capacity, "", now), [], 0, {}, {})
  }

  predicate Enabled(s: State, step: Step)
  {
    match step
    case End(i, ran, now) => i < |s.executing|
    case CallCancel(h) => h in s.cancelling
    case _ => true
  }

  predicate Admits(s: State)
  {
    |s.slots.jobs| < s.slots.capacity
  }

  function Apply(s: State, step: Step): State
    requires Enabled(s, step)
  {
    match step
    case Request(id) =>
      if !Admits(s) then s
      else s.(slots := Admitted(s.slots, id, s.next), executing := s.executing + [Execution(id, s.next)], next := s.next + 1)
    case End(i, ran, now) =>
      s.(slots := Ended(s.slots, s.executing[i].id, ran, now), executing := s.executing[..i] + s.executing[i + 1..])
    case LookUp(id) => if id in s.slots.jobs then s.(cancelling := s.cancelling + {s.slots.jobs[id]}) else s
    case CloseDoor => s.(slots := s.slots.(capacity := 0), cancelling := s.cancelling + s.slots.jobs.Values)
    case CallCancel(h) => s.(cancelling := s.cancelling - {h}, cancelled := s.cancelled + {h})
  }

  predicate Legal(s: State, steps: seq<Step>)
    decreases |steps|
  {
    |steps| > 0 ==> Enabled(s, steps[0]) && Legal(Apply(s, steps[0]), steps[1..])
  }

  function Run(s: State, steps: seq<Step>): State
    requires Legal(s, steps)
    decreases |steps|
  {
    if |steps| == 0 then s else Run(Apply(s, steps[0]), steps[1..])
  }

  ghost predicate Active(s: State, id: string)
  {
    exists i :: 0 <= i < |s.executing| && s.executing[i].id == id
  }

  /** The table is exactly the set of executing jobs, each executing once. */
  ghost predicate Tracks(s: State)
  {
    && (forall i, j :: 0 <= i < j < |s.executing| ==> s.executing[i].id != s.executing[j].id)
    && (forall id :: id in s.slots.jobs <==> Active(s, id))
  }

  /** Every executing job can be cancelled through the table. */
  ghost predicate Reachable(s: State)
  {
    forall i :: 0 <= i < |s.executing| ==>
      s.executing[i].id in s.slots.jobs && s.slots.jobs[s.executing[i].id] == s.executing[i].handle
  }

  /** The caller's side: no job id is submitted while a job with that id is still executing. */
  ghost predicate Fresh(s: State, step: Step)
  {
    step.Request? && Admits(s) ==> !Active(s, step.id)
  }

  ghost predicate FreshRun(s: State, steps: seq<Step>)
    requires Legal(s, steps)
    decreases |steps|
  {
    |steps| > 0 ==> Fresh(s, steps[0]) && FreshRun(Apply(s, steps[0]), steps[1..])
  }

  ghost predicate TracksThroughout(s: State, steps: seq<Step>)
    requires Legal(s, steps)
    decreases |steps|
  {
    Tracks(s) && (|steps| > 0 ==> TracksThroughout(Apply(s, steps[0]), steps[1..]))
  }

  lemma RequestTracks(s: State, id: string)
    requires Tracks(s) && Reachable(s) && Admits(s)
    ensures var t := Apply(s, Request(id));
            if Active(s, id) then !Tracks(t) else Tracks(t) && Reachable(t)
  {
    var t, n := Apply(s, Request(id)), |s.executing|;
    assert t.executing[n] == Execution(id, s.next);
    assert forall i :: 0 <= i < n ==> t.executing[i] == s.executing[i];
    if Active(s, id) {
      var i :| 0 <= i < n && s.executing[i].id == id;
      assert t.executing[i].id == t.executing[n].id;
    } else {
      forall x
        ensures x in t.slots.jobs <==> Active(t, x)
      {
        if Active(s, x) {
          var i :| 0 <= i < n && s.executing[i].id == x;
          assert t.executing[i].id == x;
        }
      }
    }
  }

  lemma EndTracks(s: State, i: nat, ran: bool, now: int)
    requires Tracks(s) && Reachable(s) && i < |s.executing|
    ensures var t := Apply(s, End(i, ran, now)); Tracks(t) && Reachable(t)
  {
    var t := Apply(s, End(i, ran, now));
    assert t.slots.jobs == s.slots.jobs - {s.executing[i].id};
    assert forall j :: 0 <= j < |t.executing| ==> t.executing[j] == s.executing[if j < i then j else j + 1];
    EndActive(s, t, i);
    hide Apply, Active, Ended;
    EndDistinct(s.executing, t.executing, i);
    EndReachable(s, t, i);
  }

  lemma EndDistinct(a: seq<Execution>, b: seq<Execution>, i: nat)
    requires i < |a| && |b| == |a| - 1 && forall j, k :: 0 <= j < k < |a| ==> a[j].id != a[k].id
    requires forall j :: 0 <= j < |b| ==> b[j] == a[if j < i then j else j + 1]
    ensures forall j, k :: 0 <= j < k < |b| ==> b[j].id != b[k].id
  {
  }

  lemma EndReachable(s: State, t: State, i: nat)
    requires Tracks(s) && Reachable(s) && i < |s.executing| && |t.executing| == |s.executing| - 1
    requires forall j :: 0 <= j < |t.executing| ==> t.executing[j] == s.executing[if j < i then j else j + 1]
    requires t.slots.jobs == s.slots.jobs - {s.executing[i].id}
    ensures Reachable(t)
  {
    hide Active;
    forall j | 0 <= j < |t.executing|
      ensures t.executing[j].id in t.slots.jobs && t.slots.jobs[t.executing[j].id] == t.executing[j].handle
    {
      var k := if j < i then j else j + 1;
      assert s.executing[k].id != s.executing[i].id;
    }
  }

  /** Removing one execution leaves exactly the other ids active. */
  lemma EndActive(s: State, t: State, i: nat)
    requires Tracks(s) && i < |s.executing| && |t.executing| == |s.executing| - 1
    requires forall j :: 0 <= j < |t.executing| ==> t.executing[j] == s.executing[if j < i then j else j + 1]
    ensures forall x :: Active(t, x) <==> Active(s, x) && x != s.executing[i].id
  {
    forall x
      ensures Active(t, x) <==> Active(s, x) && x != s.executing[i].id
    {
      if Active(s, x) && x != s.executing[i].id {
        var j :| 0 <= j < |s.executing| && s.executing[j].id == x;
        assert t.executing[if j < i then j else j - 1].id == x;
      }
      if Active(t, x) {
        var j :| 0 <= j < |t.executing| && t.executing[j].id == x;
        assert s.executing[if j < i then j else j + 1].id == x;
      }
    }
  }

  lemma StepTracks(s: State, step: Step)
    requires Tracks(s) && Reachable(s) && Enabled(s, step)
    ensures Tracks(Apply(s, step)) <==> Fresh(s, step)
    ensures Fresh(s, step) ==> Reachable(Apply(s, step))
  {
    if step.Request? && Admits(s) {
      RequestTracks(s, step.id);
    } else if step.End? {
      EndTracks(s, step.i, step.ran, step.now);
    } else {
      var t := Apply(s, step);
      assert t.executing == s.executing && t.slots.jobs == s.slots.jobs;
      assert forall x :: Active(t, x) <==> Active(s, x);
    }
  }

  /** Over every run: the table tracks the executing jobs throughout exactly when concurrently active ids are distinct. */
  lemma {:induction false} TracksExactly(s: State, steps: seq<Step>)
    requires Tracks(s) && Reachable(s) && Legal(s, steps)
    ensures TracksThroughout(s, steps) <==> FreshRun(s, steps)
    ensures FreshRun(s, steps) ==> Tracks(Run(s, steps)) && Reachable(Run(s, steps))
    decreases |steps|
  {
    if |steps| > 0 {
      hide Tracks, Reachable, Fresh, Enabled, Apply;
      StepTracks(s, steps[0]);
      if Fresh(s, steps[0]) {
        TracksExactly(Apply(s, steps[0]), steps[1..]);
      }
    }
  }

  lemma {:induction false} TableBounded(s: State, steps: seq<Step>, capacity: nat)
    requires Legal(s, steps) && |s.slots.jobs| <= capacity && s.slots.capacity <= capacity
    ensures |Run(s, steps).slots.jobs| <= capacity && Run(s, steps).slots.capacity <= capacity
    decreases |steps|
  {
    if |steps| > 0 {
      var t := Apply(s, steps[0]);
      match steps[0]
      case Request(id) =>
        assert |t.slots.jobs| <= |s.slots.jobs| + 1;
        TableBounded(t, steps[1..], capacity);
      case End(i, ran, now) =>
        SubsetSize(t.slots.jobs.Keys, s.slots.jobs.Keys);
        assert |t.slots.jobs| == |t.slots.jobs.Keys| && |s.slots.jobs| == |s.slots.jobs.Keys|;
        TableBounded(t, steps[1..], capacity);
      case _ =>
        TableBounded(t, steps[1..], capacity);
    }
  }

  lemma TrackedSize(s: State)
    requires Tracks(s)
    ensures |s.executing| == |s.slots.jobs|
  {
    var ids := seq(|s.executing|, i requires 0 <= i < |s.executing| => s.executing[i].id);
    DistinctSize(ids);
    forall id
      ensures id in ids <==> id in s.slots.jobs
    {
      if id in s.slots.jobs {
        assert Active(s, id);
        var i :| 0 <= i < |s.executing| && s.executing[i].id == id;
        assert ids[i] == id;
      }
      if id in ids {
        var i :| 0 <= i < |ids| && ids[i] == id;
        assert s.executing[i].id == id;
        assert Active(s, id);
      }
    }
    assert (set id | id in ids) == s.slots.jobs.Keys;
    assert |s.slots.jobs.Keys| == |s.slots.jobs|;
  }

  /** With distinct active ids a worker never executes more jobs than the capacity it was created with. */
  lemma CapacityHolds(capacity: int, now: int, steps: seq<Step>)
    requires Legal(Init(capacity, now), steps) && FreshRun(Init(capacity, now), steps)
    ensures var s := Run(Init(capacity, now), steps);
            |s.executing| == |s.slots.jobs| <= Places(capacity)
  {
    var s := Init(capacity, now);
    TracksExactly(s, steps);
    TableBounded(s, steps, s.slots.capacity);
    TrackedSize(Run(s, steps));
  }

  /** On a worker of capacity one no id is ever admitted while a job is executing, so every run is fresh. */
  lemma {:induction false} SingleIsFresh(s: State, steps: seq<Step>)
    requires Tracks(s) && Reachable(s) && s.slots.capacity <= 1 && Legal(s, steps)
    ensures FreshRun(s, steps)
    decreases |steps|
  {
    if |steps| > 0 {
      TrackedSize(s);
      assert Admits(s) ==> forall id :: !Active(s, id);
      assert Fresh(s, steps[0]);
      StepTracks(s, steps[0]);
      assert Apply(s, steps[0]).slots.capacity <= 1;
      hide Apply, Fresh, Tracks, Reachable, Enabled;
      SingleIsFresh(Apply(s, steps[0]), steps[1..]);
    }
  }

  function Repeats(id: string, m: nat): seq<Step>
  {
    seq(m, _ => Request(id))
  }

  /** One id, sent again and again, takes one place in the table and is admitted every time. */
  lemma {:induction false} RepeatsPileUp(s: State, id: string, m: nat)
    requires s.slots.capacity >= 2 && s.slots.jobs.Keys <= {id}
    ensures Legal(s, Repeats(id, m)) && |Run(s, Repeats(id, m)).executing| == |s.executing| + m
    decreases m
  {
    if m > 0 {
      SubsetSize(s.slots.jobs.Keys, {id});
      assert |s.slots.jobs| == |s.slots.jobs.Keys|;
      var t := Apply(s, Request(id));
      assert |t.executing| == |s.executing| + 1 && t.slots.capacity >= 2 && t.slots.jobs.Keys <= {id};
      RepeatsPileUp(t, id, m - 1);
      assert Repeats(id, m)[0] == Request(id) && Repeats(id, m)[1..] == Repeats(id, m - 1);
      hide Apply;
    }
  }

  /** A worker of capacity two or more executes m jobs at once, for every m, if one id is sent m times. */
  lemma DuplicateIdsPileUp(capacity: int, now: int, m: nat)
    requires capacity >= 2
    ensures Legal(Init(capacity, now), Repeats("a", m)) && |Run(Init(capacity, now), Repeats("a", m)).executing| == m
  {
    RepeatsPileUp(Init(capacity, now), "a", m);
  }

  function Places(capacity: int): int
  {
    if capacity <= 0 then 1 else capacity
  }

  /** Whatever ids are sent: a worker never executes more jobs than its capacity exactly if that is one. */
  lemma CapacityExact(capacity: int, now: int)
    ensures (forall steps :: Legal(Init(capacity, now), steps) ==> |Run(Init(capacity, now), steps).executing| <= Places(capacity))
       <==> Places(capacity) == 1
  {
    if Places(capacity) == 1 {
      forall steps | Legal(Init(capacity, now), steps)
        ensures |Run(Init(capacity, now), steps).executing| <= 1
      {
        SingleIsFresh(Init(capacity, now), steps);
        CapacityHolds(capacity, now, steps);
      }
    } else {
      DuplicateIdsPileUp(capacity, now, capacity + 1);
    }
  }

  // ----- shutdown

  /** Admission is closed and every executing job's cancel has been called or is about to be. */
  ghost predicate Draining(s: State)
  {
    s.slots.capacity == 0 && forall i :: 0 <= i < |s.executing| ==> s.executing[i].handle in s.cancelling + s.cancelled
  }

  lemma CloseDoorDrains(s: State)
    requires Tracks(s) && Reachable(s)
    ensures Draining(Apply(s, CloseDoor))
  {
    forall i | 0 <= i < |s.executing|
      ensures s.executing[i].handle in s.slots.jobs.Values
    {
      assert s.slots.jobs[s.executing[i].id] == s.executing[i].handle;
    }
  }

  /** From a closed worker nothing is admitted: the table and the executing jobs only shrink. */
  lemma {:induction false} ClosedOnlyShrinks(s: State, steps: seq<Step>)
    requires s.slots.capacity <= 0 && Legal(s, steps)
    ensures var t := Run(s, steps);
            t.slots.capacity <= 0 && t.slots.jobs.Keys <= s.slots.jobs.Keys && multiset(t.executing) <= multiset(s.executing)
    ensures s.cancelled <= Run(s, steps).cancelled
    ensures Draining(s) ==> Draining(Run(s, steps))
    decreases |steps|
  {
    if |steps| > 0 {
      ClosedStep(s, steps[0]);
      hide Apply, Draining;
      ClosedOnlyShrinks(Apply(s, steps[0]), steps[1..]);
    }
  }

  lemma ClosedStep(s: State, step: Step)
    requires s.slots.capacity <= 0 && Enabled(s, step)
    ensures var t := Apply(s, step);
            t.slots.capacity <= 0 && t.slots.jobs.Keys <= s.slots.jobs.Keys && multiset(t.executing) <= multiset(s.executing)
    ensures s.cancelled <= Apply(s, step).cancelled
    ensures Draining(s) ==> Draining(Apply(s, step))
  {
    if step.End? {
      var l, x, r := s.executing[..step.i], s.executing[step.i], s.executing[step.i + 1..];
      assert s.executing == l + [x] + r;
      assert multiset(s.executing) == multiset(l) + multiset([x]) + multiset(r);
    }
  }

  /**
   Shutdown after any run with distinct active ids, followed by anything at all: nothing is admitted,
   the active set only shrinks, and once the shutdown has called the handles it picked up every job
   still executing has had its cancel called.
   */
  lemma ShutdownDrains(capacity: int, now: int, before: seq<Step>, after: seq<Step>)
    requires Legal(Init(capacity, now), before) && FreshRun(Init(capacity, now), before)
    requires Legal(Apply(Run(Init(capacity, now), before), CloseDoor), after)
    ensures var s := Run(Init(capacity, now), before);
            var t := Run(Apply(s, CloseDoor), after);
            && t.slots.jobs.Keys <= s.slots.jobs.Keys
            && multiset(t.executing) <= multiset(s.executing)
            && (forall i :: 0 <= i < |t.executing| ==> t.executing[i].handle in t.cancelling + t.cancelled)
            && (s.slots.jobs.Values <= t.cancelled ==> forall x :: x in t.executing ==> x.handle in t.cancelled)
  {
    var s := Run(Init(capacity, now), before);
    TracksExactly(Init(capacity, now), before);
    CloseDoorDrains(s);
    ClosedOnlyShrinks(Apply(s, CloseDoor), after);
    var t := Run(Apply(s, CloseDoor), after);
    forall x | x in t.executing
      ensures x.handle in s.slots.jobs.Values
    {
      StillThere(t.executing, s.executing, x);
      assert s.slots.jobs[x.id] == x.handle;
    }
  }

  lemma StillThere(a: seq<Execution>, b: seq<Execution>, x: Execution)
    requires multiset(a) <= multiset(b) && x in a
    ensures x in b
  {
    assert x in multiset(a);
    assert x in multiset(b);
  }
}
