/**
 The request pacer: each call reserves the next free slot under a lock and then sleeps until it.
 Times are nanoseconds; 0 is the zero time ("nothing reserved yet").
 */
module Pacing {
  import opened Durations
  import opened Sequences
  import opened Ranges

  function LaterOf(a: int, b: int): int
  {
    if a < b then b else a
  }

  /** The slot of the k-th call, when calls come at the given times. */
  function Slot(calls: seq<nat>, interval: int, k: nat): int
    requires k < |calls|
  {
    if k == 0 then calls[0] else LaterOf(calls[k], Slot(calls, interval, k - 1) + interval)
  }

  /** Nanoseconds between slots at the given rate: truncated, and at least 1. */
  function Interval(qps: real): int
    requires qps > 0.0
  {
    var interval := (SECOND as real / qps).Floor;
    if interval <= 0 then 1 else interval
  }

  /** When the caller's context ends. */
  datatype Context = Endless | Ends(at: nat)

  predicate DoneBy(context: Context, time: int)
  {
    context.Ends? && context.at <= time
  }

  class QpsPacer {
    const interval: int
    var next: nat
    ghost var calls: seq<nat>

    ghost predicate Valid()
      reads this
    {
      interval >= 1 &&
      next == if |calls| == 0 then 0 else Slot(calls, interval, |calls| - 1) + interval
    }

    constructor (qps: real)
      requires qps > 0.0
      ensures Valid() && interval == Interval(qps) && calls == []
    {
      interval := Interval(qps);
      next := 0;
      calls := [];
    }

    /** The locked part of Wait. */
    method Reserve(now: nat) returns (scheduled: nat)
      requires Valid()
      modifies this
      ensures Valid() && calls == old(calls) + [now]
      ensures scheduled == Slot(calls, interval, |calls| - 1)
    {
      SlotAtLeastCall(calls, interval);
      if next == 0 || now > next {
        next := now;
      }
      scheduled := next;
      next := next + interval;
      PrefixSlot(calls, now, interval);
      calls := calls + [now];
    }

    /**
     The whole call. `later` is the second clock reading, made outside the lock; `slack` is how long the
     goroutine waits for a processor once the timer has fired or the context is done, and `timerWins`
     decides if both are ready by then.
     */
    method Wait(now: nat, later: nat, context: Context, slack: nat, timerWins: bool) returns (scheduled: nat, ok: bool, returned: nat)
      requires Valid() && now <= later
      modifies this
      ensures Valid() && calls == old(calls) + [now] && scheduled == Slot(calls, interval, |calls| - 1)
      ensures ok ==> returned >= scheduled
      ensures !ok ==> DoneBy(context, returned)
      ensures ok && context.Endless? ==> returned <= LaterOf(later, scheduled) + slack
      ensures DoneBy(context, later) && scheduled <= later ==> !ok
      ensures returned >= later && (context.Endless? ==> ok)
    {
      scheduled := Reserve(now);
      var delay := scheduled - later;
      if delay <= 0 {
        return scheduled, !DoneBy(context, later), later;
      }
      var fires := later + delay;
      var ready := if DoneBy(context, fires) then LaterOf(later, context.at) else fires;
      returned := ready + slack;
      if !DoneBy(context, returned) {
        ok := true;
      } else if returned < fires {
        ok := false;
      } else {
        ok := timerWins;
      }
    }
  }

  lemma {:induction false} SlotAtLeastCall(calls: seq<nat>, interval: int)
    requires interval >= 1
    ensures forall k :: 0 <= k < |calls| ==> Slot(calls, interval, k) >= calls[k]
  {
  }

  lemma {:induction false} PrefixSlotAt(calls: seq<nat>, now: nat, interval: int, k: nat)
    requires k < |calls|
    ensures Slot(calls + [now], interval, k) == Slot(calls, interval, k)
  {
    if k > 0 {
      PrefixSlotAt(calls, now, interval, k - 1);
    }
  }

  lemma PrefixSlot(calls: seq<nat>, now: nat, interval: int)
    ensures |calls| > 0 ==> Slot(calls + [now], interval, |calls| - 1) == Slot(calls, interval, |calls| - 1)
  {
    if |calls| > 0 {
      PrefixSlotAt(calls, now, interval, |calls| - 1);
    }
  }

  /** Closed form, for any call times: the k-th slot is the latest of t_j + (k - j) interval over j <= k. */
  lemma {:induction false} ClosedForm(calls: seq<nat>, interval: int, k: nat)
    requires k < |calls| && interval >= 1
    ensures forall j :: 0 <= j <= k ==> Slot(calls, interval, k) >= calls[j] + (k - j) * interval
    ensures exists j :: 0 <= j <= k && Slot(calls, interval, k) == calls[j] + (k - j) * interval
  {
    if k == 0 {
      assert calls[0] + (0 - 0) * interval == calls[0];
    } else {
      ClosedForm(calls, interval, k - 1);
      forall j | 0 <= j <= k
        ensures Slot(calls, interval, k) >= calls[j] + (k - j) * interval
      {
        if j < k {
          assert (k - j) * interval == (k - 1 - j) * interval + interval;
        }
      }
      var i :| 0 <= i <= k - 1 && Slot(calls, interval, k - 1) == calls[i] + (k - 1 - i) * interval;
      assert (k - i) * interval == (k - 1 - i) * interval + interval;
      if Slot(calls, interval, k) == calls[k] {
        assert calls[k] + (k - k) * interval == calls[k];
      }
    }
  }

  /** Slots are at least one interval apart. */
  lemma {:induction false} Spacing(calls: seq<nat>, interval: int, i: nat, j: nat)
    requires i <= j < |calls| && interval >= 1
    ensures Slot(calls, interval, j) >= Slot(calls, interval, i) + (j - i) * interval
    decreases j
  {
    if i < j {
      Spacing(calls, interval, i, j - 1);
      assert (j - i) * interval == (j - 1 - i) * interval + interval;
    }
  }

  function CeilDiv(w: int, interval: int): int
    requires interval >= 1
  {
    (w + interval - 1) / interval
  }

  lemma CeilDivIs(w: int, interval: int)
    requires interval >= 1
    ensures (CeilDiv(w, interval) - 1) * interval < w <= CeilDiv(w, interval) * interval
    ensures w >= 0 ==> CeilDiv(w, interval) >= 0
  {
    var c := CeilDiv(w, interval);
    assert w + interval - 1 == c * interval + (w + interval - 1) % interval;
    assert (c - 1) * interval == c * interval - interval;
  }

  ghost function InWindow(calls: seq<nat>, interval: int, from: int, width: int): set<int>
  {
    set k | 0 <= k < |calls| && from <= Slot(calls, interval, k) < from + width
  }

  /** Two slots of one window are fewer than ceil(width / interval) positions apart. */
  lemma WindowSpan(calls: seq<nat>, interval: int, from: int, width: nat, lo: nat, k: nat)
    requires interval >= 1 && lo <= k < |calls|
    requires from <= Slot(calls, interval, lo) && Slot(calls, interval, k) < from + width
    ensures k - lo < CeilDiv(width, interval)
  {
    Spacing(calls, interval, lo, k);
    CeilDivIs(width, interval);
    MulOrder(k - lo, CeilDiv(width, interval), interval);
  }

  /** Any half-open window of the given width holds at most ceil(width / interval) slots. */
  lemma RateBound(calls: seq<nat>, interval: int, from: int, width: nat)
    requires interval >= 1
    ensures |InWindow(calls, interval, from, width)| <= CeilDiv(width, interval)
  {
    var s := InWindow(calls, interval, from, width);
    CeilDivIs(width, interval);
    hide CeilDiv, Slot;
    if s != {} {
      var lo := FirstIn(calls, interval, from, width);
      forall k | k in s
        ensures lo <= k < lo + CeilDiv(width, interval)
      {
        WindowSpan(calls, interval, from, width, lo, k);
      }
      SubsetSize(s, Range(lo, CeilDiv(width, interval)));
    }
  }

  lemma FirstIn(calls: seq<nat>, interval: int, from: int, width: nat) returns (lo: nat)
    requires InWindow(calls, interval, from, width) != {}
    ensures lo in InWindow(calls, interval, from, width)
    ensures forall k :: k in InWindow(calls, interval, from, width) ==> lo <= k
  {
    var s := InWindow(calls, interval, from, width);
    var first :| first in s;
    lo := first;
    while exists k :: k in s && k < lo
      invariant lo in s
      decreases lo
    {
      var k :| k in s && k < lo;
      lo := k;
    }
  }

  /** A burst: n calls at one moment. */
  function Burst(at: nat, n: nat): (calls: seq<nat>)
    ensures |calls| == n && forall k :: 0 <= k < n ==> calls[k] == at
  {
    seq(n, _ => at)
  }

  lemma {:induction false} BurstSlot(at: nat, n: nat, interval: int, k: nat)
    requires k < n && interval >= 1
    ensures Slot(Burst(at, n), interval, k) == at + k * interval
  {
    if k > 0 {
      BurstSlot(at, n, interval, k - 1);
      assert k * interval == (k - 1) * interval + interval;
    }
  }

  /** The bound is reached: a burst fills its first window completely. */
  lemma RateBoundTight(at: nat, width: nat, interval: int)
    requires interval >= 1
    ensures CeilDiv(width, interval) >= 0
    ensures |InWindow(Burst(at, CeilDiv(width, interval)), interval, at, width)| == CeilDiv(width, interval)
  {
    var c := CeilDiv(width, interval);
    CeilDivIs(width, interval);
    hide CeilDiv, Slot;
    var s := InWindow(Burst(at, c), interval, at, width);
    forall k | 0 <= k < c
      ensures k in s
    {
      BurstSlot(at, c, interval, k);
      MulOrder(k, c - 1, interval);
      MulOrder(0, k, interval);
    }
    assert s == Range(0, c);
  }

  /** "At most n slots in every one-second window, however the calls come." */
  ghost predicate CapsPerSecond(interval: int, n: int)
  {
    forall calls: seq<nat>, from: int :: |InWindow(calls, interval, from, SECOND)| <= n
  }

  /** The configured rate caps requests per second at n exactly when n intervals cover the second. */
  lemma CapExact(interval: int, n: int)
    requires interval >= 1
    ensures CapsPerSecond(interval, n) <==> n * interval >= SECOND
  {
    var c := CeilDiv(SECOND, interval);
    CeilDivIs(SECOND, interval);
    hide CeilDiv, InWindow;
    MulOrder(n, c - 1, interval);
    MulOrder(c, n, interval);
    if n * interval >= SECOND {
      forall calls: seq<nat>, from: int
        ensures |InWindow(calls, interval, from, SECOND)| <= n
      {
        RateBound(calls, interval, from, SECOND);
      }
    } else {
      RateBoundTight(0, SECOND, interval);
      assert |InWindow(Burst(0, c), interval, 0, SECOND)| > n;
    }
  }

  /** Truncating a real quotient of integers is integer division. */
  lemma TruncatedQuotient(a: nat, n: int)
    requires n >= 1
    ensures (a as real / n as real).Floor == a / n
  {
    var d, exact := a / n, a as real / n as real;
    assert a == d * n + a % n;
    assert exact == d as real + (a % n) as real / n as real by {
      assert a as real == d as real * n as real + (a % n) as real;
    }
    assert 0.0 <= (a % n) as real / n as real < 1.0;
  }

  /** This many nanoseconds for each request fit into a second, and one more does not. */
  predicate Fills(interval: int, qps: real, second: real)
  {
    interval as real * qps <= second < (interval + 1) as real * qps
  }

  /** The interval for any rate, whole or not: the whole nanoseconds of one request's share, and never 0. */
  lemma IntervalIs(qps: real)
    requires qps > 0.0
    ensures qps <= 1_000_000_000.0 ==> Fills(Interval(qps), qps, 1_000_000_000.0)
    ensures qps > 1_000_000_000.0 ==> Interval(qps) == 1
  {
    hide Fills;
    ShareIs(1_000_000_000.0, qps);
    IntervalShare(qps);
    hide Interval;
  }

  lemma IntervalShare(qps: real)
    requires qps > 0.0
    ensures var share := (1_000_000_000.0 / qps).Floor; Interval(qps) == if share <= 0 then 1 else share
  {
    assert SECOND as real == 1_000_000_000.0;
  }

  lemma ShareIs(second: real, qps: real)
    requires second > 0.0 && qps > 0.0
    ensures var share := (second / qps).Floor; Fills(share, qps, second) && (share >= 1 <==> qps <= second)
  {
    var exact := second / qps;
    var whole := exact.Floor;
    assert whole as real <= exact < (whole + 1) as real;
    FloorShare(exact, whole, qps, second) by {
      assert exact * qps == second;
    }
  }

  lemma FloorShare(exact: real, whole: int, qps: real, second: real)
    requires qps > 0.0 && exact * qps == second && whole as real <= exact < (whole + 1) as real
    ensures Fills(whole, qps, second) && (whole >= 1 <==> qps <= second)
  {
    ScaledBetween(whole as real, exact, (whole + 1) as real, qps, second);
    ScaledOne(exact, qps, second);
    assert whole >= 1 <==> 1.0 <= exact;
  }

  lemma ScaledBetween(lo: real, exact: real, hi: real, qps: real, second: real)
    requires qps > 0.0 && exact * qps == second && lo <= exact < hi
    ensures lo * qps <= second < hi * qps
  {
    RealOrder(lo, exact, qps);
    RealOrder(exact, hi, qps);
  }

  lemma ScaledOne(exact: real, qps: real, second: real)
    requires qps > 0.0 && exact * qps == second
    ensures 1.0 <= exact <==> qps <= second
  {
    RealOrder(1.0, exact, qps);
  }

  lemma RealOrder(a: real, b: real, c: real)
    requires c > 0.0
    ensures a <= b <==> a * c <= b * c
    ensures a < b <==> a * c < b * c
  {
  }

  /** At 3 requests a second the cap fails: four slots in one second. */
  lemma ThreePerSecond()
    ensures !CapsPerSecond(Interval(3.0), 3)
    ensures |InWindow(Burst(0, 4), Interval(3.0), 0, SECOND)| == 4
  {
    assert Interval(3.0) == 333_333_333;
    CapExact(333_333_333, 3);
    RateBoundTight(0, SECOND, 333_333_333);
  }

  // ----- a job paced by several workers, each with a pacer of its own at the full rate

  /** How many slots of one pacer fall into the window. */
  ghost function SlotsIn(interval: int, from: int, width: int): seq<nat> -> int
  {
    (calls: seq<nat>) => |InWindow(calls, interval, from, width)|
  }

  /** The slots of all pacers in the window. */
  ghost function AllSlotsIn(pacers: seq<seq<nat>>, interval: int, from: int, width: int): int
  {
    Sum(pacers, SlotsIn(interval, from, width))
  }

  /** "At most n slots in every one-second window", over k pacers together. */
  ghost predicate CapsTogether(k: nat, interval: int, n: int)
  {
    forall pacers: seq<seq<nat>>, from: int :: |pacers| == k ==> AllSlotsIn(pacers, interval, from, SECOND) <= n
  }

  lemma AllSlotsBound(pacers: seq<seq<nat>>, interval: int, from: int, width: nat)
    requires interval >= 1
    ensures AllSlotsIn(pacers, interval, from, width) <= |pacers| * CeilDiv(width, interval)
  {
    var c := CeilDiv(width, interval);
    hide CeilDiv, InWindow;
    forall calls | calls in pacers
      ensures 0 <= SlotsIn(interval, from, width)(calls) <= c
    {
      RateBound(calls, interval, from, width);
    }
    SumBetween(pacers, SlotsIn(interval, from, width), 0, c);
  }

  /** A burst on every pacer fills the bound. */
  lemma AllSlotsTight(k: nat, interval: int, width: nat)
    requires interval >= 1
    ensures CeilDiv(width, interval) >= 0
    ensures AllSlotsIn(seq(k, _ => Burst(0, CeilDiv(width, interval))), interval, 0, width) == k * CeilDiv(width, interval)
  {
    RateBoundTight(0, width, interval);
    var c := CeilDiv(width, interval);
    var pacers := seq(k, _ => Burst(0, c));
    hide CeilDiv, InWindow, Burst;
    forall calls | calls in pacers
      ensures SlotsIn(interval, 0, width)(calls) == c
    {
      assert calls == Burst(0, c);
    }
    SumBetween(pacers, SlotsIn(interval, 0, width), c, c);
  }

  /** k pacers together stay at n slots a second exactly when k times the slots of one second do. */
  lemma TogetherExact(k: nat, interval: int, n: int)
    requires interval >= 1
    ensures CapsTogether(k, interval, n) <==> k * CeilDiv(SECOND, interval) <= n
  {
    AllSlotsTight(k, interval, SECOND);
    var c := CeilDiv(SECOND, interval);
    hide CeilDiv, AllSlotsIn;
    if k * c <= n {
      forall pacers: seq<seq<nat>>, from: int | |pacers| == k
        ensures AllSlotsIn(pacers, interval, from, SECOND) <= n
      {
        AllSlotsBound(pacers, interval, from, SECOND);
        assert |pacers| * CeilDiv(SECOND, interval) == k * c;
      }
    } else {
      assert AllSlotsIn(seq(k, _ => Burst(0, c)), interval, 0, SECOND) > n;
    }
  }

  /**
   The documented cap for a whole rate n, over k workers: it holds exactly when n is at least k times
   10^9, or when there is one worker and n divides 10^9.
   */
  lemma WholeRateCap(k: nat, n: int)
    requires k >= 1 && n >= 1
    ensures CapsTogether(k, Interval(n as real), n) <==> n >= k * SECOND || (k == 1 && SECOND % n == 0)
  {
    TruncatedQuotient(SECOND, n);
    var interval := Interval(n as real);
    TogetherExact(k, interval, n);
    CeilDivIs(SECOND, interval);
    var c := CeilDiv(SECOND, interval);
    hide CeilDiv, CapsTogether;
    if n > SECOND {
      assert interval == 1;
      assert SECOND % n == SECOND;
    } else {
      assert interval == SECOND / n;
      SlowRate(k, n, interval, c);
    }
  }

  /** At rates up to 10^9 one pacer already uses the whole cap. */
  lemma SlowRate(k: nat, n: int, interval: int, c: int)
    requires k >= 1 && 1 <= n <= SECOND && interval == SECOND / n && interval >= 1
    requires (c - 1) * interval < SECOND <= c * interval
    ensures k * c <= n <==> n >= k * SECOND || (k == 1 && SECOND % n == 0)
  {
    var r := SECOND % n;
    assert SECOND == interval * n + r && 0 <= r < n;
    MulOrder(n, c, interval);
    MulOrder(c - 1, n, interval);
    assert n <= c;
    MulOrder(2, k, c);
    MulOrder(2, k, SECOND);
    MulOrder(c, n, interval);
    assert k == 1 ==> (c <= n <==> r == 0);
  }

  /** Two workers at one request a second: two slots in the same second. */
  lemma TwoWorkersAtOne()
    ensures CapsPerSecond(Interval(1.0), 1) && !CapsTogether(2, Interval(1.0), 1)
    ensures AllSlotsIn([Burst(0, 1), Burst(0, 1)], Interval(1.0), 0, SECOND) == 2
  {
    assert Interval(1.0) == SECOND;
    assert CeilDiv(SECOND, SECOND) == 1;
    CapExact(SECOND, 1);
    TogetherExact(2, SECOND, 1);
    AllSlotsTight(2, SECOND, SECOND);
    assert seq(2, _ => Burst(0, 1)) == [Burst(0, 1), Burst(0, 1)];
  }

  // ----- how long a worker waits

  datatype Request = Request(worker: nat, at: nat)

  function Times(requests: seq<Request>): (calls: seq<nat>)
    ensures |calls| == |requests|
  {
    seq(|requests|, i requires 0 <= i < |requests| => requests[i].at)
  }

  /** C workers, a monotone clock, and no worker asks again before its previous slot. */
  ghost predicate OneOutstanding(requests: seq<Request>, workers: nat, interval: int)
  {
    && (forall k :: 0 <= k < |requests| ==> requests[k].worker < workers)
    && (forall i, j :: 0 <= i < j < |requests| ==> requests[i].at <= requests[j].at)
    && (forall i, j :: 0 <= i < j < |requests| && requests[i].worker == requests[j].worker
          ==> Slot(Times(requests), interval, i) <= requests[j].at)
  }

  /** From the first slot still ahead at request k on, slots pile up one interval at a time. */
  lemma {:induction false} PileUp(calls: seq<nat>, interval: int, now: nat, p: nat, i: nat)
    requires interval >= 1 && p <= i < |calls|
    requires forall j :: p <= j <= i ==> calls[j] <= now
    requires p > 0 ==> Slot(calls, interval, p - 1) <= now
    ensures Slot(calls, interval, i) <= now + (i - p + 1) * interval
    decreases i
  {
    MulSucc(i - p, interval);
    if i > p {
      PileUp(calls, interval, now, p, i - 1);
    } else if p > 0 {
      assert Slot(calls, interval, p) == LaterOf(calls[p], Slot(calls, interval, p - 1) + interval);
    }
  }

  /** The first request before k whose slot is still ahead when request k is made, or k. */
  function FirstAhead(requests: seq<Request>, interval: int, k: nat, from: nat): (p: nat)
    requires from <= k < |requests|
    ensures from <= p <= k
    ensures p < k ==> Slot(Times(requests), interval, p) > requests[k].at
    ensures forall i :: from <= i < p ==> Slot(Times(requests), interval, i) <= requests[k].at
    decreases k - from
  {
    if from == k || Slot(Times(requests), interval, from) > requests[k].at then from
    else FirstAhead(requests, interval, k, from + 1)
  }

  /** Requests whose slots are all still ahead of request k come from different workers. */
  lemma AheadDistinct(requests: seq<Request>, workers: nat, interval: int, p: nat, k: nat)
    requires interval >= 1 && OneOutstanding(requests, workers, interval) && p <= k < |requests|
    requires p < k ==> Slot(Times(requests), interval, p) > requests[k].at
    ensures k - p + 1 <= workers
  {
    hide Slot, Times;
    var ids := seq(k - p + 1, i requires 0 <= i < k - p + 1 => requests[p + i].worker);
    forall i, j | 0 <= i < j < |ids|
      ensures ids[i] != ids[j]
    {
      Spacing(Times(requests), interval, p, p + i);
      MulOrder(0, i, interval);
      assert requests[p + j].at <= requests[k].at;
    }
    Pigeonhole(ids, workers);
  }

  /** Waiting bound: with C workers, every reserved slot is at most C intervals after the request. */
  lemma WaitBound(requests: seq<Request>, workers: nat, interval: int, k: nat)
    requires interval >= 1 && OneOutstanding(requests, workers, interval) && k < |requests|
    ensures Slot(Times(requests), interval, k) - requests[k].at <= workers * interval
  {
    var p := FirstAhead(requests, interval, k, 0);
    forall j | p <= j <= k
      ensures Times(requests)[j] <= requests[k].at
    {
      assert requests[j].at <= requests[k].at;
    }
    PileUp(Times(requests), interval, requests[k].at, p, k);
    AheadDistinct(requests, workers, interval, p, k);
    MulOrder(k - p + 1, workers, interval);
  }
}
