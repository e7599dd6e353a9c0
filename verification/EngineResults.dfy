/** What the engine delivers, in terms of what its runners returned, and when its workers start and pause. */
module EngineResults {
  import opened Durations
  import opened Sequences
  import opened Ranges
  import opened Collectors
  import opened EngineModel
  import opened EngineLaws
  import opened Distributed

  // ----- from runner to collector

  /** What a runner gave back: its result, and whether there was an error beside it. */
  datatype Returned = Returned(r: RunResult, failed: bool)

  /** What the runners returned over a schedule, in order. */
  function Returns(steps: seq<Step>): seq<Returned>
  {
    if |steps| == 0 then []
    else (if steps[0].Work? && steps[0].act.Return? then [Returned(steps[0].act.r, steps[0].act.failed)] else []) + Returns(steps[1..])
  }

  /** A result passes unchanged, but an error beside a result without a category makes it an "unknown" failure. */
  predicate Delivers(x: Returned, d: RunResult)
  {
    && (!x.failed || x.r.errorCategory != "none" ==> d == x.r)
    && (x.failed && x.r.errorCategory == "none" ==>
          !d.success && d.errorCategory == "unknown" && d.(success := x.r.success, errorCategory := x.r.errorCategory) == x.r)
  }

  ghost predicate DeliversAll(xs: seq<Returned>, ds: seq<RunResult>)
  {
    |xs| == |ds| && forall i :: 0 <= i < |xs| ==> Delivers(xs[i], ds[i])
  }

  lemma DeliversConcat(xs: seq<Returned>, ds: seq<RunResult>, ys: seq<Returned>, es: seq<RunResult>)
    requires DeliversAll(xs, ds) && DeliversAll(ys, es)
    ensures DeliversAll(xs + ys, ds + es)
  {
    hide Delivers;
  }

  lemma {:induction false} ProducedFrom(cfg: Config, s: State, steps: seq<Step>) returns (more: seq<RunResult>)
    requires Legal(cfg, s, steps)
    ensures Run(cfg, s, steps).produced == s.produced + more && DeliversAll(Returns(steps), more)
    decreases |steps|
  {
    more := [];
    if |steps| > 0 {
      var first := ProducedBy(cfg, s, steps[0]);
      var rest := ProducedFrom(cfg, Apply(cfg, s, steps[0]), steps[1..]);
      more := first + rest;
      hide Apply, Enabled, Delivers, DeliversAll;
      assert s.produced + first + rest == s.produced + more;
      DeliversConcat(if steps[0].Work? && steps[0].act.Return? then [Returned(steps[0].act.r, steps[0].act.failed)] else [],
                     first, Returns(steps[1..]), rest);
    }
  }

  lemma ProducedBy(cfg: Config, s: State, step: Step) returns (more: seq<RunResult>)
    requires Enabled(cfg, s, step)
    ensures Apply(cfg, s, step).produced == s.produced + more
    ensures DeliversAll(if step.Work? && step.act.Return? then [Returned(step.act.r, step.act.failed)] else [], more)
  {
    more := if step.Work? && step.act.Return? then [FinalResult(step.act.r, step.act.failed)] else [];
    if !(step.Work? && step.act.Return?) {
      assert s.produced + [] == s.produced;
    }
  }

  /** In every reachable state: what was produced is what the runners returned, delivered in that order. */
  lemma ProducedIsReturned(cfg: Config, steps: seq<Step>)
    requires ValidConfig(cfg) && Legal(cfg, Init(cfg), steps)
    ensures DeliversAll(Returns(steps), Run(cfg, Init(cfg), steps).produced)
  {
    var more := ProducedFrom(cfg, Init(cfg), steps);
    assert [] + more == more;
  }

  /**
   What every schedule keeps of the results themselves: each one a runner returned is delivered, and of
   what was delivered every copy is collected, in the queue, dropped, or ready to send at a worker.
   */
  lemma ResultsConserved(cfg: Config, steps: seq<Step>)
    requires ValidConfig(cfg) && Legal(cfg, Init(cfg), steps)
    ensures var s := Run(cfg, Init(cfg), steps);
            && DeliversAll(Returns(steps), s.produced)
            && forall x: RunResult :: multiset(s.produced)[x]
                 == multiset(s.collected)[x] + multiset(s.queue)[x] + multiset(s.dropped)[x] + Sum(s.workers, Holding(x))
  {
    ProducedIsReturned(cfg, steps);
    InitInv(cfg);
    RunKeeps(cfg, Init(cfg), steps);
    hide DeliversAll, Legal, Run;
    var s := Run(cfg, Init(cfg), steps);
    forall x: RunResult
      ensures Copies(s.sent, x) == Copies(s.collected, x) + Copies(s.queue, x)
    {
      CopiesConcat(s.collected, s.queue, x);
    }
    hide Sum;
    assert forall x: RunResult :: Copies(s.produced, x) == Copies(s.sent, x) + Copies(s.dropped, x) + Sum(s.workers, Holding(x));
  }

  /** A finished run without a cancellation collects exactly what its runners returned, each result as often as it came. */
  lemma AllCollected(cfg: Config, steps: seq<Step>)
    requires ValidConfig(cfg) && cfg.requests > 0 && Legal(cfg, Init(cfg), steps) && Cancel !in steps
    requires Run(cfg, Init(cfg), steps).done
    ensures var s := Run(cfg, Init(cfg), steps);
            && |Returns(steps)| == cfg.requests
            && DeliversAll(Returns(steps), s.produced) && multiset(s.collected) == multiset(s.produced)
  {
    Exactness(cfg, steps);
    ResultsConserved(cfg, steps);
    InitInv(cfg);
    RunKeeps(cfg, Init(cfg), steps);
    hide DeliversAll, Legal, Run;
    var s := Run(cfg, Init(cfg), steps);
    forall x: RunResult
      ensures multiset(s.collected)[x] == multiset(s.produced)[x]
    {
      SumBetween(s.workers, Holding(x), 0, 0);
    }
    assert multiset(s.collected) == multiset(s.produced);
    assert |multiset(s.collected)| == |s.collected| && |multiset(s.produced)| == |s.produced|;
    SameSize(Returns(steps), s.produced);
  }

  lemma SameSize(xs: seq<Returned>, ds: seq<RunResult>)
    requires DeliversAll(xs, ds)
    ensures |xs| == |ds|
  {
  }

  // ----- pauses after instant failures

  /** A failure in under a millisecond. */
  function Instant(): RunResult -> int
  {
    (r: RunResult) => if !r.success && r.latency < 1_000_000 then 1 else 0
  }

  function IsPausing(): Phase -> int
  {
    (p: Phase) => if p.BackingOff? then 1 else 0
  }

  /** How many pauses ended, by themselves or by a cancellation. */
  function PausesEnded(steps: seq<Step>): nat
  {
    if |steps| == 0 then 0 else PausesIn(steps[0]) + PausesEnded(steps[1..])
  }

  function PausesIn(step: Step): nat
  {
    if step.Work? && (step.act.BackoffDone? || step.act.BackoffCancelled?) then 1 else 0
  }

  lemma PauseStep(cfg: Config, s: State, step: Step)
    requires Enabled(cfg, s, step)
    ensures var t := Apply(cfg, s, step);
            Sum(t.sent, Instant()) - Sum(t.workers, IsPausing()) - PausesIn(step) == Sum(s.sent, Instant()) - Sum(s.workers, IsPausing())
  {
    if step.Work? {
      var p, n := s.workers[step.w], NextPhase(cfg, s, s.workers[step.w], step.act);
      SumUpdate(s.workers, step.w, n, IsPausing());
      SentBy(cfg, s, step.w, step.act);
      WorkersAfter(cfg, s, step.w, step.act);
      PhasePauses(cfg, s, p, step.act);
      hide *;
    }
  }

  lemma WorkersAfter(cfg: Config, s: State, w: nat, act: Act)
    requires Enabled(cfg, s, Work(w, act))
    ensures Apply(cfg, s, Work(w, act)).workers == s.workers[w := NextPhase(cfg, s, s.workers[w], act)]
    ensures PausesIn(Work(w, act)) == if act.BackoffDone? || act.BackoffCancelled? then 1 else 0
  {
    hide FinalResult, LastTicket, InstantFailure;
  }

  lemma SentBy(cfg: Config, s: State, w: nat, act: Act)
    requires Enabled(cfg, s, Work(w, act))
    ensures act.Send? ==> s.workers[w].Sending?
    ensures Sum(Apply(cfg, s, Work(w, act)).sent, Instant()) ==
            Sum(s.sent, Instant()) + if act.Send? then Instant()(s.workers[w].r) else 0
  {
    hide FinalResult, LastTicket, InstantFailure, NextPhase;
    if act.Send? {
      SumSnoc(s.sent, s.workers[w].r, Instant());
    }
    hide Sum;
  }

  lemma PhasePauses(cfg: Config, s: State, p: Phase, act: Act)
    requires CanAct(cfg, s, p, act)
    ensures act.Send? ==> p.Sending?
    ensures IsPausing()(NextPhase(cfg, s, p, act)) - IsPausing()(p) ==
            (if act.Send? then Instant()(p.r) else 0) - (if act.BackoffDone? || act.BackoffCancelled? then 1 else 0)
  {
    hide FinalResult, LastTicket;
  }

  lemma {:induction false} PausesFrom(cfg: Config, s: State, steps: seq<Step>)
    requires Legal(cfg, s, steps)
    ensures var t := Run(cfg, s, steps);
            Sum(t.sent, Instant()) - Sum(t.workers, IsPausing()) - PausesEnded(steps) == Sum(s.sent, Instant()) - Sum(s.workers, IsPausing())
    decreases |steps|
  {
    if |steps| > 0 {
      PauseStep(cfg, s, steps[0]);
      PausesFrom(cfg, Apply(cfg, s, steps[0]), steps[1..]);
    }
  }

  /** Over any schedule: every instant failure sent, and nothing else, makes its worker pause once. */
  lemma PausesCounted(cfg: Config, steps: seq<Step>)
    requires ValidConfig(cfg) && Legal(cfg, Init(cfg), steps)
    ensures var s := Run(cfg, Init(cfg), steps); Sum(s.sent, Instant()) == PausesEnded(steps) + Sum(s.workers, IsPausing())
  {
    PausesFrom(cfg, Init(cfg), steps);
    SumBetween(Init(cfg).workers, IsPausing(), 0, 0);
  }

  // ----- the ramp-up

  /**
   Workers start one after the other in equal steps: with at least C nanoseconds of ramp-up the steps are
   the C-th part of it, so everybody has started before it is over; with fewer they are a millisecond.
   */
  lemma RampUp(cfg: Config, i: nat)
    requires ValidConfig(cfg)
    ensures cfg.rampUp <= 0 || cfg.concurrency == 1 ==> StartDelay(cfg, i) == 0
    ensures StartDelay(cfg, 0) == 0
    ensures cfg.rampUp > 0 && cfg.concurrency > 1 ==>
              var step := StartDelay(cfg, 1);
              && StartDelay(cfg, i) == i * step
              && (if cfg.rampUp >= cfg.concurrency then cfg.concurrency * step <= cfg.rampUp < cfg.concurrency * (step + 1) else step == 1_000_000)
    ensures cfg.rampUp >= cfg.concurrency && i < cfg.concurrency ==> StartDelay(cfg, i) < cfg.rampUp
    ensures i < cfg.concurrency ==> |Init(cfg).workers| == cfg.concurrency && Init(cfg).workers[i] == (if StartDelay(cfg, i) > 0 then Delaying else AtTop)
  {
    var c, up := cfg.concurrency, cfg.rampUp;
    if up > 0 {
      Steps(up, c);
      assert 1 * StartDelay(cfg, 1) == StartDelay(cfg, 1);
      if up >= c && i < c {
        MulOrder(i + 1, c, up / c);
        assert (i + 1) * (up / c) == i * (up / c) + up / c;
      }
    }
  }

  /**
   A job a worker accepts has workers, and something that ends it: a request limit or a duration, after
   which no worker is still waiting to start.
   */
  lemma AcceptedJob(cfg: Config, i: nat)
    requires Accepted(cfg)
    ensures ValidConfig(cfg) && (cfg.requests > 0 || cfg.duration > 0)
    ensures cfg.duration > 0 && cfg.rampUp >= cfg.concurrency && i < cfg.concurrency ==> StartDelay(cfg, i) < cfg.duration
  {
    RampUp(cfg, i);
  }

  lemma Steps(up: int, c: nat)
    requires up > 0 && c > 0
    ensures c * (up / c) <= up < c * (up / c + 1)
    ensures up / c >= 1 <==> up >= c
  {
    var step := up / c;
    assert up == c * step + up % c;
    assert c * (step + 1) == c * step + c;
    MulOrder(1, step, c);
    MulOrder(step, 0, c);
  }
}
