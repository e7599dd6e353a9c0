/** What a worker remembers of a run, and which jobs a cancel request reaches. */
module WorkerSlotsRuns {
  import opened WorkerSlots

  // ----- the last job

  /** The end of an execution: which job it was, whether it ran, and when. */
  datatype Ending = Ending(id: string, ran: bool, now: int)

  /** The ends of a run, in order. */
  function EndingsOf(s: State, steps: seq<Step>): seq<Ending>
    requires Legal(s, steps)
    decreases |steps|
  {
    if |steps| == 0 then []
    else (if steps[0].End? then [Ending(s.executing[steps[0].i].id, steps[0].ran, steps[0].now)] else []) + EndingsOf(Apply(s, steps[0]), steps[1..])
  }

  ghost predicate NoneRan(ends: seq<Ending>)
  {
    forall k :: 0 <= k < |ends| ==> !ends[k].ran
  }

  /** The last of the ends that ran is this job's; `before` if none did. */
  ghost predicate LastRan(ends: seq<Ending>, before: string, id: string)
  {
    if NoneRan(ends) then id == before
    else exists k :: LastAt(ends, k, id)
  }

  ghost predicate LastAt(ends: seq<Ending>, k: int, id: string)
  {
    0 <= k < |ends| && ends[k].ran && ends[k].id == id && NoneRan(ends[k + 1..])
  }

  function LastSeen(ends: seq<Ending>, before: int): int
  {
    if |ends| == 0 then before else ends[|ends| - 1].now
  }

  lemma {:induction false} Remembered(s: State, steps: seq<Step>)
    requires Legal(s, steps)
    ensures Run(s, steps).slots.lastSeen == LastSeen(EndingsOf(s, steps), s.slots.lastSeen)
    ensures LastRan(EndingsOf(s, steps), s.slots.lastJobID, Run(s, steps).slots.lastJobID)
    decreases |steps|
  {
    if |steps| > 0 {
      var t := Apply(s, steps[0]);
      EndIs(s, steps[0]);
      hide Apply, Enabled, LastRan, LastSeen;
      Remembered(t, steps[1..]);
      if steps[0].End? {
        var first := Ending(s.executing[steps[0].i].id, steps[0].ran, steps[0].now);
        OneMoreEnd(first, EndingsOf(t, steps[1..]), s.slots.lastJobID, Run(s, steps).slots.lastJobID);
        SeenMore(first, EndingsOf(t, steps[1..]), s.slots.lastSeen);
      } else {
        assert [] + EndingsOf(t, steps[1..]) == EndingsOf(t, steps[1..]);
      }
    }
  }

  /** What one step changes of the two fields. */
  lemma EndIs(s: State, step: Step)
    requires Enabled(s, step)
    ensures var t := Apply(s, step).slots;
            && t.lastJobID == (if step.End? && step.ran then s.executing[step.i].id else s.slots.lastJobID)
            && t.lastSeen == (if step.End? then step.now else s.slots.lastSeen)
  {
  }

  lemma SeenMore(first: Ending, rest: seq<Ending>, before: int)
    ensures LastSeen([first] + rest, before) == LastSeen(rest, first.now)
  {
  }

  lemma OneMoreEnd(first: Ending, rest: seq<Ending>, before: string, id: string)
    requires LastRan(rest, if first.ran then first.id else before, id)
    ensures LastRan([first] + rest, before, id)
  {
    var all := [first] + rest;
    NoneRanCons(first, rest);
    assert all[1..] == rest;
    if NoneRan(rest) {
      assert first.ran ==> LastAt(all, 0, id);
    } else {
      var k :| LastAt(rest, k, id);
      assert all[k + 2..] == rest[k + 1..];
      assert LastAt(all, k + 1, id);
    }
  }

  lemma NoneRanCons(first: Ending, rest: seq<Ending>)
    ensures NoneRan([first] + rest) <==> !first.ran && NoneRan(rest)
  {
    var all := [first] + rest;
    assert all[0] == first && forall k :: 0 <= k < |rest| ==> rest[k] == all[k + 1];
  }

  /** Over any run of a new worker: its last job is the last one that ended after running, and it was last seen at the last end. */
  lemma LastJobIs(capacity: int, now: int, steps: seq<Step>)
    requires Legal(Init(capacity, now), steps)
    ensures var t, ends := Run(Init(capacity, now), steps).slots, EndingsOf(Init(capacity, now), steps);
            LastRan(ends, "", t.lastJobID) && t.lastSeen == LastSeen(ends, now)
  {
    Remembered(Init(capacity, now), steps);
  }

  // ----- cancel requests

  /** Handles are given out once. */
  ghost predicate HandlesFresh(s: State)
  {
    && (forall i :: 0 <= i < |s.executing| ==> s.executing[i].handle < s.next)
    && (forall i, j :: 0 <= i < j < |s.executing| ==> s.executing[i].handle != s.executing[j].handle)
    && (forall h :: h in s.cancelling + s.cancelled ==> h < s.next)
    && (forall id :: id in s.slots.jobs ==> s.slots.jobs[id] < s.next)
  }

  /** Only jobs with these ids have been asked to stop. */
  ghost predicate OnlyAsked(s: State, asked: set<string>)
  {
    forall i :: 0 <= i < |s.executing| && s.executing[i].handle in s.cancelling + s.cancelled ==> s.executing[i].id in asked
  }

  lemma StepAsks(s: State, step: Step, asked: set<string>)
    requires Tracks(s) && Reachable(s) && HandlesFresh(s) && OnlyAsked(s, asked) && Enabled(s, step) && Fresh(s, step) && !step.CloseDoor?
    ensures HandlesFresh(Apply(s, step)) && OnlyAsked(Apply(s, step), if step.LookUp? then asked + {step.id} else asked)
  {
    match step
    case Request(id) => RequestAsks(s, id, asked);
    case End(i, ran, now) => EndAsks(s, i, ran, now, asked);
    case LookUp(id) => LookUpAsks(s, id, asked);
    case CallCancel(h) =>
      assert Apply(s, step).cancelling + Apply(s, step).cancelled == s.cancelling + s.cancelled;
  }

  lemma RequestAsks(s: State, id: string, asked: set<string>)
    requires HandlesFresh(s) && OnlyAsked(s, asked)
    ensures HandlesFresh(Apply(s, Request(id))) && OnlyAsked(Apply(s, Request(id)), asked)
  {
    var t := Apply(s, Request(id));
    assert forall i :: 0 <= i < |s.executing| ==> t.executing[i] == s.executing[i];
    assert Admits(s) ==> t.executing[|s.executing|] == Execution(id, s.next);
  }

  lemma EndAsks(s: State, i: nat, ran: bool, now: int, asked: set<string>)
    requires HandlesFresh(s) && OnlyAsked(s, asked) && i < |s.executing|
    ensures HandlesFresh(Apply(s, End(i, ran, now))) && OnlyAsked(Apply(s, End(i, ran, now)), asked)
  {
    var t := Apply(s, End(i, ran, now));
    assert forall j :: 0 <= j < |t.executing| ==> t.executing[j] == s.executing[if j < i then j else j + 1];
    assert t.cancelling == s.cancelling && t.cancelled == s.cancelled && t.next == s.next;
    assert forall id :: id in t.slots.jobs ==> id in s.slots.jobs && t.slots.jobs[id] == s.slots.jobs[id];
    hide Apply, Ended;
  }

  /** The table gives the handle of the one job executing under the id. */
  lemma LookUpAsks(s: State, id: string, asked: set<string>)
    requires Tracks(s) && Reachable(s) && HandlesFresh(s) && OnlyAsked(s, asked)
    ensures HandlesFresh(Apply(s, LookUp(id))) && OnlyAsked(Apply(s, LookUp(id)), asked + {id})
  {
    if id in s.slots.jobs {
      assert Active(s, id);
      var k :| 0 <= k < |s.executing| && s.executing[k].id == id;
      assert s.slots.jobs[id] == s.executing[k].handle;
      var t := Apply(s, LookUp(id));
      assert t.executing == s.executing && t.cancelling + t.cancelled == s.cancelling + s.cancelled + {s.executing[k].handle};
      hide Apply, Tracks, Reachable;
    }
  }

  lemma {:induction false} RunAsks(s: State, steps: seq<Step>, asked: set<string>)
    requires Tracks(s) && Reachable(s) && HandlesFresh(s) && OnlyAsked(s, asked)
    requires Legal(s, steps) && FreshRun(s, steps) && CloseDoor !in steps
    ensures forall i :: 0 <= i < |Run(s, steps).executing| ==> Named(Run(s, steps), i, asked, steps)
    decreases |steps|
  {
    if |steps| > 0 {
      hide Tracks, Reachable, Fresh, Enabled, Apply, HandlesFresh, OnlyAsked;
      var more := if steps[0].LookUp? then asked + {steps[0].id} else asked;
      StepAsks(s, steps[0], asked);
      StepTracks(s, steps[0]);
      RunAsks(Apply(s, steps[0]), steps[1..], more);
      var t := Run(s, steps);
      forall i | 0 <= i < |t.executing|
        ensures Named(t, i, asked, steps)
      {
        assert Named(t, i, more, steps[1..]);
      }
    }
  }

  ghost predicate Named(t: State, i: nat, asked: set<string>, steps: seq<Step>)
    requires i < |t.executing|
  {
    t.executing[i].handle in t.cancelling + t.cancelled ==> t.executing[i].id in asked || LookUp(t.executing[i].id) in steps
  }

  /** Without a shutdown and with distinct active ids: a job is asked to stop only if a cancel request named it. */
  lemma CancelsOnlyNamed(capacity: int, now: int, steps: seq<Step>, i: nat)
    requires Legal(Init(capacity, now), steps) && FreshRun(Init(capacity, now), steps) && CloseDoor !in steps
    requires i < |Run(Init(capacity, now), steps).executing|
    ensures var t := Run(Init(capacity, now), steps);
            t.executing[i].handle in t.cancelling + t.cancelled ==> LookUp(t.executing[i].id) in steps
  {
    RunAsks(Init(capacity, now), steps, {});
    assert Named(Run(Init(capacity, now), steps), i, {}, steps);
  }

  lemma {:induction false} AskedStays(s: State, steps: seq<Step>, h: nat)
    requires Legal(s, steps) && h in s.cancelling + s.cancelled
    ensures h in Run(s, steps).cancelling + Run(s, steps).cancelled
    decreases |steps|
  {
    if |steps| > 0 {
      AskedStays(Apply(s, steps[0]), steps[1..], h);
    }
  }

  /** And a cancel request that names an executing job reaches it, whatever follows. */
  lemma CancelReaches(capacity: int, now: int, before: seq<Step>, id: string, after: seq<Step>, i: nat)
    requires Legal(Init(capacity, now), before) && FreshRun(Init(capacity, now), before)
    requires i < |Run(Init(capacity, now), before).executing| && Run(Init(capacity, now), before).executing[i].id == id
    requires Legal(Apply(Run(Init(capacity, now), before), LookUp(id)), after)
    ensures var s := Run(Init(capacity, now), before);
            var t := Run(Apply(s, LookUp(id)), after);
            s.executing[i].handle in t.cancelling + t.cancelled
  {
    TracksExactly(Init(capacity, now), before);
    var s := Run(Init(capacity, now), before);
    AskedStays(Apply(s, LookUp(id)), after, s.executing[i].handle);
  }
}
