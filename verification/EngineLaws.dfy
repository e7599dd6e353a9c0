/** What every schedule of the engine keeps, that it ends, and how. */
module EngineLaws {
  import opened Sequences
  import opened Collectors
  import opened CollectorLaws
  import opened EngineModel

  // ----- weights of phases

  function HoldsCall(): Phase -> int
  {
    (p: Phase) => if p.Calling? || p.Sending? then 1 else 0
  }

  function IsExited(): Phase -> int
  {
    (p: Phase) => if p.Exited? then 1 else 0
  }

  /** Steps a worker may still take before its next ticket. */
  function Distance(): Phase -> int
  {
    (p: Phase) =>
      match p
      case Delaying => 4
      case AtTop => 3
      case Pacing => 2
      case Ticketing => 1
      case Calling => 9
      case Sending(_) => 8
      case BackingOff => 4
      case Exited => 0
  }

  /** Steps a worker may still take once the run is cancelled. */
  function WindDown(): Phase -> int
  {
    (p: Phase) =>
      match p
      case Delaying => 2
      case AtTop => 1
      case Pacing => 8
      case Ticketing => 7
      case Calling => 6
      case Sending(_) => 5
      case BackingOff => 2
      case Exited => 0
  }

  function Held(s: State): int
  {
    Sum(s.workers, HoldsCall())
  }

  function Gone(s: State): int
  {
    Sum(s.workers, IsExited())
  }

  /** 1 for a worker that holds exactly this result ready to send. */
  function Holding(x: RunResult): Phase -> int
  {
    (p: Phase) => if p == Sending(x) then 1 else 0
  }

  // ----- the invariant

  function Overdrawn(cfg: Config, s: State): int
  {
    if cfg.requests > 0 && s.issued > cfg.requests then s.issued - cfg.requests else 0
  }

  function Least(a: int, b: int): int
  {
    if a < b then a else b
  }

  /** Every call begun is collected, queued, held by a worker or was dropped on cancellation. */
  ghost predicate Conserved(s: State)
  {
    && s.started == |s.collected| + |s.queue| + Held(s) + |s.dropped|
    && s.sent == s.collected + s.queue
  }

  /** Every result produced was sent or dropped, or its worker still holds it. */
  ghost predicate Accounted(s: State)
  {
    forall x: RunResult :: Copies(s.produced, x) == Copies(s.sent, x) + Copies(s.dropped, x) + Sum(s.workers, Holding(x))
  }

  /** How often a result occurs in a list. */
  function Copies(rs: seq<RunResult>, x: RunResult): int
  {
    multiset(rs)[x]
  }

  lemma CopiesConcat(a: seq<RunResult>, b: seq<RunResult>, x: RunResult)
    ensures Copies(a + b, x) == Copies(a, x) + Copies(b, x)
  {
    assert multiset(a + b) == multiset(a) + multiset(b);
  }

  lemma CopiesOne(r: RunResult, x: RunResult)
    ensures Copies([r], x) == if r == x then 1 else 0
  {
  }

  /** Tickets: calls begun are exactly the tickets up to the limit; each overdraft sends a worker home. */
  ghost predicate Ticketed(cfg: Config, s: State)
  {
    && (cfg.requests > 0 ==> s.started == Least(s.issued, cfg.requests))
    && (cfg.requests == 0 ==> s.issued == 0)
    && Overdrawn(cfg, s) <= Gone(s)
    && (!s.cancelled ==> Overdrawn(cfg, s) == Gone(s) && s.dropped == [])
  }

  ghost predicate Channeled(cfg: Config, s: State)
  {
    && |s.workers| == cfg.concurrency
    && |s.queue| <= 2 * cfg.concurrency
    && (s.closed ==> AllExited(s))
    && (s.done ==> s.closed && s.queue == [])
  }

  ghost predicate Inv(cfg: Config, s: State)
  {
    Conserved(s) && Accounted(s) && Ticketed(cfg, s) && Channeled(cfg, s)
  }

  lemma InitInv(cfg: Config)
    requires ValidConfig(cfg)
    ensures Inv(cfg, Init(cfg))
  {
    var s := Init(cfg);
    forall x: RunResult
      ensures Sum(s.workers, Holding(x)) == 0
    {
      SumBetween(s.workers, Holding(x), 0, 0);
    }
    SumBetween(s.workers, HoldsCall(), 0, 0);
    SumBetween(s.workers, IsExited(), 0, 0);
  }

  lemma GoneWithin(s: State)
    ensures 0 <= Gone(s) <= |s.workers|
    ensures Gone(s) == |s.workers| <==> AllExited(s)
  {
    SumBetween(s.workers, IsExited(), 0, 1);
    if AllExited(s) {
      SumBetween(s.workers, IsExited(), 1, 1);
    } else {
      var w :| 0 <= w < |s.workers| && s.workers[w] != Exited;
      SumUpdate(s.workers, w, Exited, IsExited());
      SumBetween(s.workers[w := Exited], IsExited(), 0, 1);
    }
  }

  lemma WorkConserves(cfg: Config, s: State, w: nat, act: Act)
    requires Conserved(s) && Enabled(cfg, s, Work(w, act))
    ensures Conserved(Apply(cfg, s, Work(w, act)))
  {
    SumUpdate(s.workers, w, NextPhase(cfg, s, s.workers[w], act), HoldsCall());
    hide Sum, FinalResult, InstantFailure;
  }

  lemma WorkAccountsFor(cfg: Config, s: State, w: nat, act: Act, x: RunResult)
    requires Enabled(cfg, s, Work(w, act))
    ensures var t := Apply(cfg, s, Work(w, act));
            Copies(t.produced, x) - Copies(t.sent, x) - Copies(t.dropped, x) - Sum(t.workers, Holding(x))
            == Copies(s.produced, x) - Copies(s.sent, x) - Copies(s.dropped, x) - Sum(s.workers, Holding(x))
  {
    var p, n := s.workers[w], NextPhase(cfg, s, s.workers[w], act);
    SumUpdate(s.workers, w, n, Holding(x));
    hide Sum, FinalResult, InstantFailure, LastTicket, Copies;
    match act
    case Send =>
      CopiesConcat(s.sent, [p.r], x);
      CopiesOne(p.r, x);
    case Drop =>
      CopiesConcat(s.dropped, [p.r], x);
      CopiesOne(p.r, x);
    case Return(_, _) =>
      CopiesConcat(s.produced, [n.r], x);
      CopiesOne(n.r, x);
    case _ =>
  }

  lemma WorkAccounts(cfg: Config, s: State, w: nat, act: Act)
    requires Accounted(s) && Enabled(cfg, s, Work(w, act))
    ensures Accounted(Apply(cfg, s, Work(w, act)))
  {
    hide Apply, Enabled, Sum, Copies, Holding;
    forall x: RunResult
    {
      WorkAccountsFor(cfg, s, w, act, x);
    }
  }

  lemma WorkTickets(cfg: Config, s: State, w: nat, act: Act)
    requires Ticketed(cfg, s) && Enabled(cfg, s, Work(w, act))
    ensures Ticketed(cfg, Apply(cfg, s, Work(w, act)))
  {
    SumUpdate(s.workers, w, NextPhase(cfg, s, s.workers[w], act), IsExited());
    hide Sum, FinalResult, InstantFailure;
  }

  lemma WorkKeeps(cfg: Config, s: State, w: nat, act: Act)
    requires ValidConfig(cfg) && Inv(cfg, s) && Enabled(cfg, s, Work(w, act))
    ensures Inv(cfg, Apply(cfg, s, Work(w, act)))
  {
    WorkConserves(cfg, s, w, act);
    WorkAccounts(cfg, s, w, act);
    WorkTickets(cfg, s, w, act);
    hide Conserved, Accounted, Ticketed;
  }

  lemma StepKeeps(cfg: Config, s: State, step: Step)
    requires ValidConfig(cfg) && Inv(cfg, s) && Enabled(cfg, s, step)
    ensures Inv(cfg, Apply(cfg, s, step))
  {
    match step
    case Work(w, act) => WorkKeeps(cfg, s, w, act);
    case Receive => assert s.collected + s.queue == (s.collected + [s.queue[0]]) + s.queue[1..];
    case Cancel =>
    case Close =>
    case Finish =>
  }

  lemma {:induction false} RunKeeps(cfg: Config, s: State, steps: seq<Step>)
    requires ValidConfig(cfg) && Inv(cfg, s) && Legal(cfg, s, steps)
    ensures Inv(cfg, Run(cfg, s, steps))
    decreases |steps|
  {
    if |steps| > 0 {
      StepKeeps(cfg, s, steps[0]);
      RunKeeps(cfg, Apply(cfg, s, steps[0]), steps[1..]);
    }
  }

  /**
   Conservation in every reachable state, under cancellation at any point: collected + queued + held
   + dropped = min(issued, Requests); no result is lost or duplicated; results are collected in the
   order they were sent.
   */
  lemma Conservation(cfg: Config, steps: seq<Step>)
    requires ValidConfig(cfg) && cfg.requests > 0 && Legal(cfg, Init(cfg), steps)
    ensures var s := Run(cfg, Init(cfg), steps);
            && |s.collected| + |s.queue| + Held(s) + |s.dropped| == Least(s.issued, cfg.requests)
            && (forall x: RunResult :: Copies(s.produced, x)
                  == Copies(s.collected, x) + Copies(s.queue, x) + Copies(s.dropped, x) + Sum(s.workers, Holding(x)))
            && s.collected + s.queue == s.sent
            && |s.queue| <= 2 * cfg.concurrency
            && s.issued <= cfg.requests + cfg.concurrency
  {
    InitInv(cfg);
    RunKeeps(cfg, Init(cfg), steps);
    var s := Run(cfg, Init(cfg), steps);
    GoneWithin(s);
    forall x: RunResult
      ensures Copies(s.sent, x) == Copies(s.collected, x) + Copies(s.queue, x)
    {
      CopiesConcat(s.collected, s.queue, x);
    }
  }

  /** The channel closes only after every worker has exited, and nothing is sent on a closed channel. */
  lemma NoSendAfterClose(cfg: Config, steps: seq<Step>, w: nat)
    requires ValidConfig(cfg) && Legal(cfg, Init(cfg), steps)
    ensures var s := Run(cfg, Init(cfg), steps);
            (s.closed ==> AllExited(s)) && (Enabled(cfg, s, Work(w, Send)) ==> !s.closed)
  {
    InitInv(cfg);
    RunKeeps(cfg, Init(cfg), steps);
  }

  // ----- progress

  /** No interleaving deadlocks: until the run is done some step other than a cancellation is enabled. */
  lemma NoDeadlock(cfg: Config, steps: seq<Step>)
    requires ValidConfig(cfg) && Legal(cfg, Init(cfg), steps)
    ensures var s := Run(cfg, Init(cfg), steps);
            s.done || exists step: Step :: step != Cancel && Enabled(cfg, s, step)
  {
    InitInv(cfg);
    RunKeeps(cfg, Init(cfg), steps);
    var s := Run(cfg, Init(cfg), steps);
    if |s.queue| > 0 {
      assert Enabled(cfg, s, Receive);
    } else if AllExited(s) {
      assert Enabled(cfg, s, Close) || s.done || Enabled(cfg, s, Finish);
    } else {
      var w :| 0 <= w < |s.workers| && s.workers[w] != Exited;
      var act := ActFor(s.workers[w]);
      assert Enabled(cfg, s, Work(w, act));
    }
  }

  function ActFor(p: Phase): Act
    requires p != Exited
  {
    match p
    case Delaying => DelayDone
    case AtTop => Check
    case Pacing => PaceDone
    case Ticketing => TakeTicket
    case Calling => Return(SomeResult(), false)
    case Sending(_) => Send
    case BackingOff => BackoffDone
  }

  function SomeResult(): RunResult
  {
    RunResult(true, 0, 200, NO_ERROR, 0, [], 0, false, 0.0, false, 0, 0, false, false, "", "")
  }

  function Open(b: bool): int
  {
    if b then 0 else 1
  }

  /** Bounds the steps left in a request-bound run. */
  function Measure(cfg: Config, s: State): int
  {
    10 * (cfg.requests + cfg.concurrency - s.issued) + Sum(s.workers, Distance()) + 2 * |s.queue|
      + Open(s.cancelled) + Open(s.closed) + Open(s.done)
  }

  lemma MeasureDrops(cfg: Config, s: State, step: Step)
    requires ValidConfig(cfg) && cfg.requests > 0 && Enabled(cfg, s, step)
    ensures Measure(cfg, Apply(cfg, s, step)) < Measure(cfg, s)
  {
    hide Sum;
    match step
    case Work(w, act) => WorkDrops(cfg, s, w, act);
    case _ =>
  }

  lemma WorkDrops(cfg: Config, s: State, w: nat, act: Act)
    requires ValidConfig(cfg) && cfg.requests > 0 && Enabled(cfg, s, Work(w, act))
    ensures Measure(cfg, Apply(cfg, s, Work(w, act))) < Measure(cfg, s)
  {
    hide Sum, FinalResult, InstantFailure;
    SumUpdate(s.workers, w, NextPhase(cfg, s, s.workers[w], act), Distance());
  }

  lemma MeasureNonNegative(cfg: Config, s: State)
    requires ValidConfig(cfg) && cfg.requests > 0 && Inv(cfg, s)
    ensures Measure(cfg, s) >= 0
  {
    GoneWithin(s);
    SumBetween(s.workers, Distance(), 0, 9);
  }

  lemma {:induction false} StepsBounded(cfg: Config, s: State, steps: seq<Step>)
    requires ValidConfig(cfg) && cfg.requests > 0 && Inv(cfg, s) && Legal(cfg, s, steps)
    ensures |steps| <= Measure(cfg, s) - Measure(cfg, Run(cfg, s, steps))
    decreases |steps|
  {
    if |steps| > 0 {
      MeasureDrops(cfg, s, steps[0]);
      StepKeeps(cfg, s, steps[0]);
      StepsBounded(cfg, Apply(cfg, s, steps[0]), steps[1..]);
    }
  }

  /** Termination: no schedule of a request-bound run, cancelled or not, is longer than this. */
  lemma Terminates(cfg: Config, steps: seq<Step>)
    requires ValidConfig(cfg) && cfg.requests > 0 && Legal(cfg, Init(cfg), steps)
    ensures |steps| <= 10 * cfg.requests + 14 * cfg.concurrency + 3
  {
    InitInv(cfg);
    RunKeeps(cfg, Init(cfg), steps);
    StepsBounded(cfg, Init(cfg), steps);
    MeasureNonNegative(cfg, Run(cfg, Init(cfg), steps));
    SumBetween(Init(cfg).workers, Distance(), 0, 4);
  }

  /** Bounds the steps left once the run is cancelled, request-bound or not. */
  function CancelMeasure(s: State): int
  {
    Sum(s.workers, WindDown()) + 2 * |s.queue| + Open(s.closed) + Open(s.done)
  }

  /** After a cancellation every schedule ends too, even without a request limit. */
  lemma {:induction false} EndsAfterCancel(cfg: Config, s: State, steps: seq<Step>)
    requires ValidConfig(cfg) && s.cancelled && Legal(cfg, s, steps)
    ensures Run(cfg, s, steps).cancelled
    ensures |steps| <= CancelMeasure(s)
    decreases |steps|
  {
    if |steps| > 0 {
      CancelMeasureDrops(cfg, s, steps[0]);
      EndsAfterCancel(cfg, Apply(cfg, s, steps[0]), steps[1..]);
    } else {
      SumBetween(s.workers, WindDown(), 0, 8);
    }
  }

  lemma CancelMeasureDrops(cfg: Config, s: State, step: Step)
    requires s.cancelled && Enabled(cfg, s, step)
    ensures CancelMeasure(Apply(cfg, s, step)) < CancelMeasure(s)
  {
    match step
    case Work(w, act) =>
      var p, n := s.workers[w], NextPhase(cfg, s, s.workers[w], act);
      SumUpdate(s.workers, w, n, WindDown());
      hide Sum;
      assert Sum(Apply(cfg, s, step).workers, WindDown()) == Sum(s.workers, WindDown()) - WindDown()(p) + WindDown()(n);
    case _ =>
  }

  // ----- how a run ends

  lemma {:induction false} StaysUncancelled(cfg: Config, s: State, steps: seq<Step>)
    requires Legal(cfg, s, steps) && !s.cancelled && Cancel !in steps
    ensures !Run(cfg, s, steps).cancelled
    decreases |steps|
  {
    if |steps| > 0 {
      assert steps[0] in steps;
      StaysUncancelled(cfg, Apply(cfg, s, steps[0]), steps[1..]);
    }
  }

  lemma NobodyHolds(s: State)
    requires AllExited(s)
    ensures Held(s) == 0
  {
    SumBetween(s.workers, HoldsCall(), 0, 0);
  }

  /**
   Exactness: an uncancelled request-bound run that is over has collected exactly `requests` results
   and moved the ticket counter to requests + concurrency.
   */
  lemma Exactness(cfg: Config, steps: seq<Step>)
    requires ValidConfig(cfg) && cfg.requests > 0 && Legal(cfg, Init(cfg), steps) && Cancel !in steps
    requires Run(cfg, Init(cfg), steps).done
    ensures var s := Run(cfg, Init(cfg), steps);
            && |s.collected| == cfg.requests && s.issued == cfg.requests + cfg.concurrency
            && s.collected == s.sent && s.dropped == []
  {
    InitInv(cfg);
    RunKeeps(cfg, Init(cfg), steps);
    StaysUncancelled(cfg, Init(cfg), steps);
    GoneWithin(Run(cfg, Init(cfg), steps));
    NobodyHolds(Run(cfg, Init(cfg), steps));
  }

  /** Without a request limit and without a cancellation the run is never over. */
  lemma UnboundedNeverEnds(cfg: Config, steps: seq<Step>)
    requires ValidConfig(cfg) && cfg.requests == 0 && Legal(cfg, Init(cfg), steps) && Cancel !in steps
    ensures !Run(cfg, Init(cfg), steps).done
  {
    InitInv(cfg);
    RunKeeps(cfg, Init(cfg), steps);
    StaysUncancelled(cfg, Init(cfg), steps);
    GoneWithin(Run(cfg, Init(cfg), steps));
  }

  lemma {:induction false} RunSnoc(cfg: Config, s: State, steps: seq<Step>, step: Step)
    requires Legal(cfg, s, steps) && Enabled(cfg, Run(cfg, s, steps), step)
    ensures Legal(cfg, s, steps + [step])
    ensures Run(cfg, s, steps + [step]) == Apply(cfg, Run(cfg, s, steps), step)
    decreases |steps|
  {
    if |steps| == 0 {
      assert ([] + [step])[1..] == [];
    } else {
      RunSnoc(cfg, Apply(cfg, s, steps[0]), steps[1..], step);
      assert (steps + [step])[1..] == steps[1..] + [step];
    }
  }

  /** From wherever an uncancelled request-bound run stands, it can be continued to its end, without a cancellation. */
  lemma {:induction false} CanFinish(cfg: Config, steps: seq<Step>) returns (full: seq<Step>)
    requires ValidConfig(cfg) && cfg.requests > 0 && Legal(cfg, Init(cfg), steps) && Cancel !in steps
    ensures steps <= full && Legal(cfg, Init(cfg), full) && Cancel !in full && Run(cfg, Init(cfg), full).done
    decreases Measure(cfg, Run(cfg, Init(cfg), steps))
  {
    var s := Run(cfg, Init(cfg), steps);
    full := steps;
    if !s.done {
      NoDeadlock(cfg, steps);
      var step: Step :| step != Cancel && Enabled(cfg, s, step);
      RunSnoc(cfg, Init(cfg), steps, step);
      InitInv(cfg);
      RunKeeps(cfg, Init(cfg), steps);
      MeasureNonNegative(cfg, s);
      MeasureDrops(cfg, s, step);
      full := CanFinish(cfg, steps + [step]);
    }
  }
}
