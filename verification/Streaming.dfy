/** Time accounting shared by the streaming runners: first chunk, gaps between chunks, generation time. */
module Streaming {
  import opened Sequences

  datatype Option<T> = None | Some(value: T)

  /** The gaps between consecutive times. */
  function Gaps(times: seq<int>): seq<int>
  {
    var n := |times|;
    if n <= 1 then [] else Gaps(times[..n - 1]) + [times[n - 1] - times[n - 2]]
  }

  function Same(): int -> int
  {
    (x: int) => x
  }

  datatype Timing = Timing(ttft: int, generation: int, itl: seq<int>, latency: int)

  /** The timing of a stream whose chunks were counted at the given times. */
  function TimingOf(start: int, times: seq<int>, end: int): Timing
  {
    if |times| == 0 then Timing(0, 0, [], end - start)
    else Timing(times[0] - start, times[|times| - 1] - times[0], Gaps(times), end - start)
  }

  /** The loop's variables after chunks were counted at these times. */
  ghost predicate Observed(times: seq<int>, first: Option<int>, prev: int, itl: seq<int>)
  {
    if |times| == 0 then first == None && itl == []
    else first == Some(times[0]) && prev == times[|times| - 1] && itl == Gaps(times)
  }

  lemma ObservedNext(times: seq<int>, first: Option<int>, prev: int, itl: seq<int>, now: int)
    requires Observed(times, first, prev, itl)
    ensures if first == None then Observed(times + [now], Some(now), now, itl)
            else Observed(times + [now], first, now, itl + [now - prev])
  {
    assert (times + [now])[..|times|] == times;
  }

  lemma {:induction false} GapsSum(times: seq<int>)
    requires |times| > 0
    ensures |Gaps(times)| == |times| - 1
    ensures Sum(Gaps(times), Same()) == times[|times| - 1] - times[0]
  {
    var n := |times|;
    if n > 1 {
      GapsSum(times[..n - 1]);
      SumSnoc(Gaps(times[..n - 1]), times[n - 1] - times[n - 2], Same());
    }
  }

  /** Each gap is the time from one chunk to the next. */
  lemma {:induction false} GapAt(times: seq<int>, i: nat)
    requires i + 1 < |times|
    ensures i < |Gaps(times)| == |times| - 1 && Gaps(times)[i] == times[i + 1] - times[i]
  {
    GapsSum(times);
    if i + 2 < |times| {
      GapAt(times[..|times| - 1], i);
    } else if i > 0 {
      GapsSum(times[..|times| - 1]);
    }
  }

  /** The successive readings of a clock. */
  datatype Clock = Clock(reading: nat -> int)

  function Now(clock: Clock, i: nat): int
  {
    clock.reading(i)
  }

  /** A clock read in order never goes back. */
  ghost predicate Monotone(clock: Clock)
  {
    forall i: nat, j: nat :: i <= j ==> Now(clock, i) <= Now(clock, j)
  }

  /** The first n readings. */
  function Readings(clock: Clock, n: nat): (times: seq<int>)
    ensures |times| == n && forall i :: 0 <= i < n ==> times[i] == Now(clock, i)
  {
    seq(n, (i: nat) => Now(clock, i))
  }

  /**
   With a monotone clock: one gap fewer than chunks, the gaps sum to the generation time, and time to
   first token plus generation time is within the latency, the rest being the wait for the end.
   */
  lemma TimeAccounting(start: int, clock: Clock, n: nat)
    requires Monotone(clock) && start <= Now(clock, 0)
    ensures var t := TimingOf(start, Readings(clock, n), Now(clock, n));
            && |t.itl| == (if n == 0 then 0 else n - 1)
            && Sum(t.itl, Same()) == t.generation
            && t.ttft >= 0 && t.generation >= 0
            && t.ttft + t.generation <= t.latency
            && (n > 0 ==> t.latency - t.ttft - t.generation == Now(clock, n) - Now(clock, n - 1))
            && (forall x :: x in t.itl ==> x >= 0)
  {
    if n > 0 {
      GapsSum(Readings(clock, n));
      GapsSorted(Readings(clock, n));
    }
  }

  lemma {:induction false} GapsSorted(times: seq<int>)
    requires forall i, j :: 0 <= i < j < |times| ==> times[i] <= times[j]
    ensures forall x :: x in Gaps(times) ==> x >= 0
  {
    if |times| > 1 {
      GapsSorted(times[..|times| - 1]);
    }
  }
}
