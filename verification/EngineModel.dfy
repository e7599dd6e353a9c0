/**
 The load engine as a step system: C worker goroutines, one atomic ticket counter, a bounded result
 channel, a closer goroutine and the collecting loop. Any step that is enabled may come next.
 */
module EngineModel {
  import opened Durations
  import opened Sequences
  import opened Histograms
  import opened Collectors
  import opened CollectorLaws

  /**
   The parts of the run configuration that shape scheduling. requests == 0 means "no limit"; with a
   duration the run's context ends by itself, which is a Cancel step like any other.
   */
  datatype Config = Config(requests: nat, concurrency: nat, rampUp: int, duration: int)

  predicate ValidConfig(cfg: Config)
  {
    cfg.concurrency > 0
  }

  /** How long worker i waits before its first loop iteration. */
  function StartDelay(cfg: Config, i: nat): int
    requires ValidConfig(cfg)
  {
    if cfg.rampUp <= 0 || cfg.concurrency == 1 then 0
    else
      var step := cfg.rampUp / cfg.concurrency;
      i * (if step <= 0 then MILLISECOND else step)
  }

  /** Where a worker goroutine stands. */
  datatype Phase =
    | Delaying            // sleeping out its ramp-up delay
    | AtTop               // about to check for cancellation
    | Pacing              // inside the pacer
    | Ticketing           // about to take a ticket
    | Calling             // inside the runner
    | Sending(r: RunResult)
    | BackingOff          // sleeping 1 ms after an instant failure
    | Exited

  datatype Act =
    | DelayDone | DelayCancelled
    | Check
    | PaceDone | PaceCancelled
    | TakeTicket
    | Return(r: RunResult, failed: bool)
    | Send | Drop
    | BackoffDone | BackoffCancelled

  datatype Step = Work(w: nat, act: Act) | Cancel | Close | Receive | Finish

  /** `started`, `produced`, `sent` and `dropped` only record history. */
  datatype State = State(
    workers: seq<Phase>, issued: nat, queue: seq<RunResult>, collected: seq<RunResult>,
    cancelled: bool, closed: bool, done: bool,
    started: nat, produced: seq<RunResult>, sent: seq<RunResult>, dropped: seq<RunResult>)

  function Init(cfg: Config): State
    requires ValidConfig(cfg)
  {
    State(seq(cfg.concurrency, i requires 0 <= i < cfg.concurrency => if StartDelay(cfg, i) > 0 then Delaying else AtTop),
          0, [], [], false, false, false, 0, [], [], [])
  }

  /** A runner error on a result without a category turns it into an "unknown" failure. */
  function FinalResult(r: RunResult, failed: bool): RunResult
  {
    if failed && r.errorCategory == NO_ERROR then r.(success := false, errorCategory := "unknown") else r
  }

  predicate InstantFailure(r: RunResult)
  {
    !r.success && r.latency < MILLISECOND
  }

  predicate LastTicket(cfg: Config, s: State)
  {
    cfg.requests > 0 && s.issued + 1 > cfg.requests
  }

  /** Whether a worker in phase p may do this now. A send does not look at whether the channel is closed. */
  predicate CanAct(cfg: Config, s: State, p: Phase, act: Act)
  {
    match act
    case DelayDone => p.Delaying?
    case DelayCancelled => p.Delaying? && s.cancelled
    case Check => p.AtTop?
    case PaceDone => p.Pacing?
    case PaceCancelled => p.Pacing? && s.cancelled
    case TakeTicket => p.Ticketing?
    case Return(r, failed) => p.Calling?
    case Send => p.Sending? && |s.queue| < 2 * cfg.concurrency
    case Drop => p.Sending? && s.cancelled
    case BackoffDone => p.BackingOff?
    case BackoffCancelled => p.BackingOff? && s.cancelled
  }

  function NextPhase(cfg: Config, s: State, p: Phase, act: Act): Phase
    requires CanAct(cfg, s, p, act)
  {
    match act
    case DelayDone => AtTop
    case DelayCancelled => Exited
    case Check => if s.cancelled then Exited else Pacing
    case PaceDone => Ticketing
    case PaceCancelled => Exited
    case TakeTicket => if LastTicket(cfg, s) then Exited else Calling
    case Return(r, failed) => Sending(FinalResult(r, failed))
    case Send => if InstantFailure(p.r) then BackingOff else AtTop
    case Drop => Exited
    case BackoffDone => AtTop
    case BackoffCancelled => Exited
  }

  /** What the act changes besides the worker's own phase. */
  function Effect(cfg: Config, s: State, p: Phase, act: Act): State
    requires CanAct(cfg, s, p, act)
  {
    match act
    case TakeTicket =>
      s.(issued := if cfg.requests > 0 then s.issued + 1 else s.issued,
         started := if LastTicket(cfg, s) then s.started else s.started + 1)
    case Return(r, failed) => s.(produced := s.produced + [FinalResult(r, failed)])
    case Send => s.(queue := s.queue + [p.r], sent := s.sent + [p.r])
    case Drop => s.(dropped := s.dropped + [p.r])
    case _ => s
  }

  predicate AllExited(s: State)
  {
    forall w :: 0 <= w < |s.workers| ==> s.workers[w] == Exited
  }

  predicate Enabled(cfg: Config, s: State, step: Step)
  {
    match step
    case Work(w, act) => w < |s.workers| && CanAct(cfg, s, s.workers[w], act)
    case Cancel => !s.cancelled
    case Close => !s.closed && AllExited(s)
    case Receive => |s.queue| > 0
    case Finish => s.closed && |s.queue| == 0 && !s.done
  }

  function Apply(cfg: Config, s: State, step: Step): State
    requires Enabled(cfg, s, step)
  {
    match step
    case Work(w, act) =>
      Effect(cfg, s, s.workers[w], act).(workers := s.workers[w := NextPhase(cfg, s, s.workers[w], act)])
    case Cancel => s.(cancelled := true)
    case Close => s.(closed := true)
    case Receive => s.(queue := s.queue[1..], collected := s.collected + [s.queue[0]])
    case Finish => s.(done := true)
  }

  /** A schedule is legal if each step is enabled when its turn comes. */
  predicate Legal(cfg: Config, s: State, steps: seq<Step>)
    decreases |steps|
  {
    |steps| > 0 ==> Enabled(cfg, s, steps[0]) && Legal(cfg, Apply(cfg, s, steps[0]), steps[1..])
  }

  function Run(cfg: Config, s: State, steps: seq<Step>): State
    requires Legal(cfg, s, steps)
    decreases |steps|
  {
    if |steps| == 0 then s else Run(cfg, Apply(cfg, s, steps[0]), steps[1..])
  }

  /** The collecting loop: every result received from the channel is folded in, in order. */
  method CollectResults(results: seq<RunResult>) returns (collector: Collector)
    ensures fresh(collector.Repr()) && collector.Valid()
    ensures collector.Contents() == FoldResults(results)
  {
    hide AddResult, EmptyCollector, BoundsFrom, Shaped;
    hide Collector.Contents, Collector.Valid;
    collector := new Collector();
    var i := 0;
    while i < |results|
      invariant 0 <= i <= |results|
      invariant fresh(collector.Repr()) && collector.Valid()
      invariant collector.Contents() == FoldResults(results[..i])
    {
      collector.Add(results[i]);
      assert results[..i + 1][..i] == results[..i];
      i := i + 1;
    }
    assert results[..i] == results;
  }
}
