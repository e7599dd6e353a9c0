/** When a job's report can count more requests than its budget. */
module Overruns {
  import opened Sequences
  import opened Ranges
  import opened Histograms
  import opened Collectors
  import opened CollectorLaws
  import opened Aggregation
  import opened EngineModel
  import opened EngineLaws
  import opened Distributed
  import opened Reports
  import opened Budgets

  // ----- schedules of one engine

  lemma RunCons(cfg: Config, s: State, step: Step, rest: seq<Step>)
    requires Enabled(cfg, s, step) && Legal(cfg, Apply(cfg, s, step), rest)
    ensures Legal(cfg, s, [step] + rest) && Run(cfg, s, [step] + rest) == Run(cfg, Apply(cfg, s, step), rest)
  {
    hide Apply, Enabled;
    assert ([step] + rest)[1..] == rest;
  }

  lemma {:induction false} RunConcat(cfg: Config, s: State, a: seq<Step>, b: seq<Step>)
    requires Legal(cfg, s, a) && Legal(cfg, Run(cfg, s, a), b)
    ensures Legal(cfg, s, a + b) && Run(cfg, s, a + b) == Run(cfg, Run(cfg, s, a), b)
    decreases |a|
  {
    hide Apply, Enabled;
    if |a| == 0 {
      assert a + b == b;
    } else {
      RunConcat(cfg, Apply(cfg, s, a[0]), a[1..], b);
      assert (a + b)[1..] == a[1..] + b;
    }
  }

  /** The first worker makes one request, its result is sent and collected. */
  function Round(): seq<Step>
  {
    [Work(0, Check), Work(0, PaceDone), Work(0, TakeTicket), Work(0, Return(SomeResult(), false)), Work(0, Send), Receive]
  }

  function Rounds(n: nat): seq<Step>
  {
    if n == 0 then [] else Rounds(n - 1) + Round()
  }

  /** An engine without limit, its first worker at the top of the loop and nothing in the channel. */
  ghost predicate Idling(cfg: Config, s: State)
  {
    && cfg.concurrency > 0 && cfg.requests == 0 && |s.workers| > 0 && s.workers[0] == AtTop
    && s.queue == [] && !s.cancelled && !s.closed && !s.done
  }

  lemma RoundHalf(cfg: Config, s: State)
    requires Idling(cfg, s)
    ensures var steps := [Work(0, Check), Work(0, PaceDone), Work(0, TakeTicket)];
            && Legal(cfg, s, steps)
            && Run(cfg, s, steps) == s.(workers := s.workers[0 := Calling], started := s.started + 1)
  {
    var s1 := s.(workers := s.workers[0 := Pacing]);
    var s2 := s.(workers := s.workers[0 := Ticketing]);
    var s3 := s.(workers := s.workers[0 := Calling], started := s.started + 1);
    assert s1.workers[0 := Ticketing] == s2.workers && s2.workers[0 := Calling] == s3.workers;
    assert Apply(cfg, s, Work(0, Check)) == s1;
    assert Apply(cfg, s1, Work(0, PaceDone)) == s2;
    assert Apply(cfg, s2, Work(0, TakeTicket)) == s3;
    assert Legal(cfg, s3, []) && Run(cfg, s3, []) == s3;
    RunCons(cfg, s2, Work(0, TakeTicket), []);
    RunCons(cfg, s1, Work(0, PaceDone), [Work(0, TakeTicket)]);
    RunCons(cfg, s, Work(0, Check), [Work(0, PaceDone), Work(0, TakeTicket)]);
    assert [Work(0, Check)] + [Work(0, PaceDone), Work(0, TakeTicket)] == [Work(0, Check), Work(0, PaceDone), Work(0, TakeTicket)];
    assert [Work(0, PaceDone)] + [Work(0, TakeTicket)] == [Work(0, PaceDone), Work(0, TakeTicket)];
    assert [Work(0, TakeTicket)] + [] == [Work(0, TakeTicket)];
  }

  lemma RoundRest(cfg: Config, s: State)
    requires cfg.concurrency > 0 && |s.workers| > 0 && s.workers[0] == Calling && s.queue == []
    ensures var r := SomeResult();
            var steps := [Work(0, Return(r, false)), Work(0, Send), Receive];
            && Legal(cfg, s, steps)
            && var t := Run(cfg, s, steps);
               t == s.(workers := s.workers[0 := AtTop], collected := s.collected + [r], produced := t.produced, sent := t.sent)
  {
    var r := SomeResult();
    var return_, send := Work(0, Return(r, false)), Work(0, Send);
    var s1 := s.(workers := s.workers[0 := Sending(r)], produced := s.produced + [r]);
    var s2 := s1.(workers := s.workers[0 := AtTop], queue := [r], sent := s.sent + [r]);
    var s3 := s2.(queue := [], collected := s.collected + [r]);
    assert s1.workers[0 := AtTop] == s2.workers && [] + [r] == [r] && [r][1..] == [];
    assert Apply(cfg, s, return_) == s1;
    assert Apply(cfg, s1, send) == s2;
    assert Apply(cfg, s2, Receive) == s3;
    assert Legal(cfg, s3, []) && Run(cfg, s3, []) == s3;
    RunCons(cfg, s2, Receive, []);
    RunCons(cfg, s1, send, [Receive]);
    RunCons(cfg, s, return_, [send, Receive]);
    assert [return_] + [send, Receive] == [return_, send, Receive] && [send] + [Receive] == [send, Receive] && [Receive] + [] == [Receive];
  }

  lemma OneRound(cfg: Config, s: State)
    requires Idling(cfg, s)
    ensures Legal(cfg, s, Round())
    ensures var t := Run(cfg, s, Round());
            Idling(cfg, t) && t.workers == s.workers && t.collected == s.collected + [SomeResult()]
  {
    var a := [Work(0, Check), Work(0, PaceDone), Work(0, TakeTicket)];
    var b := [Work(0, Return(SomeResult(), false)), Work(0, Send), Receive];
    RoundHalf(cfg, s);
    var m := Run(cfg, s, a);
    RoundRest(cfg, m);
    hide Legal, Run;
    RunConcat(cfg, s, a, b);
    assert a + b == Round();
    assert s.workers[0 := Calling][0 := AtTop] == s.workers;
  }

  lemma {:induction false} ManyRounds(cfg: Config, n: nat)
    requires cfg.concurrency > 0 && cfg.requests == 0
    ensures Legal(cfg, Init(cfg), Rounds(n))
    ensures var s := Run(cfg, Init(cfg), Rounds(n));
            Idling(cfg, s) && s.workers == Init(cfg).workers && s.collected == seq(n, _ => SomeResult())
  {
    if n > 0 {
      ManyRounds(cfg, n - 1);
      hide Legal, Run;
      OneRound(cfg, Run(cfg, Init(cfg), Rounds(n - 1)));
      RunConcat(cfg, Init(cfg), Rounds(n - 1), Round());
      assert seq(n, _ => SomeResult()) == seq(n - 1, _ => SomeResult()) + [SomeResult()];
    }
  }

  /** A cancelled run can be continued to its end, and what was collected stays. */
  lemma {:induction false} WindsDown(cfg: Config, steps: seq<Step>) returns (full: seq<Step>)
    requires ValidConfig(cfg) && Legal(cfg, Init(cfg), steps) && Run(cfg, Init(cfg), steps).cancelled
    ensures Legal(cfg, Init(cfg), full) && Run(cfg, Init(cfg), full).done
    ensures |Run(cfg, Init(cfg), full).collected| >= |Run(cfg, Init(cfg), steps).collected|
    decreases CancelMeasure(Run(cfg, Init(cfg), steps))
  {
    var s := Run(cfg, Init(cfg), steps);
    full := steps;
    if !s.done {
      NoDeadlock(cfg, steps);
      var step: Step :| step != Cancel && Enabled(cfg, s, step);
      RunSnoc(cfg, Init(cfg), steps, step);
      CancelMeasureDrops(cfg, s, step);
      CancelMeasureNonNegative(s);
      StaysCancelled(cfg, s, step);
      full := WindsDown(cfg, steps + [step]);
    }
  }

  lemma CancelMeasureNonNegative(s: State)
    ensures CancelMeasure(s) >= 0
  {
    SumBetween(s.workers, WindDown(), 0, 8);
  }

  lemma StaysCancelled(cfg: Config, s: State, step: Step)
    requires Enabled(cfg, s, step) && s.cancelled
    ensures Apply(cfg, s, step).cancelled && |Apply(cfg, s, step).collected| >= |s.collected|
  {
  }

  // ----- a job whose only answer comes from the last worker

  function Failing(): Attempt
  {
    Attempt([], [], Window(0, 0), Err(Transport))
  }

  function Answering(schedule: seq<Step>, results: seq<RunResult>): Attempt
  {
    Attempt(schedule, results, Window(0, 0), Ok(Answer(results, Window(0, 0))))
  }

  /** Every worker fails but the last, whose first attempt answers. */
  function OnlyLast(workers: nat, schedule: seq<Step>, results: seq<RunResult>): Execution
    requires workers > 0
  {
    var a := Answering(schedule, results);
    Execution(seq(workers, i => if i == workers - 1 then [a, a, a] else [Failing(), Failing(), Failing()]),
              seq(workers, _ => [false, false, false]), seq(workers, i requires 0 <= i < workers => i))
  }

  lemma OnlyLastPossible(cfg: Config, workers: nat, schedule: seq<Step>, results: seq<RunResult>)
    requires workers > 0 && Accepted(ShardConfig(cfg, workers - 1, workers)) && Ends(ShardConfig(cfg, workers - 1, workers), schedule, results)
    ensures WellFormed(OnlyLast(workers, schedule, results), workers)
    ensures Possible(cfg, workers, OnlyLast(workers, schedule, results))
  {
    hide Accepted, Ends, ShardConfig, Answer;
    var e, c := OnlyLast(workers, schedule, results), ShardConfig(cfg, workers - 1, workers);
    assert Distinct(e.order) && CompletionOrder(e.order, workers);
    assert FromWorker(c, Answering(schedule, results));
    forall i, j | 0 <= i < workers && 0 <= j < ATTEMPTS
      ensures FromWorker(ShardConfig(cfg, i, workers), e.attempts[i][j])
    {
      assert e.attempts[i][j] == if i == workers - 1 then Answering(schedule, results) else Failing();
    }
  }

  lemma OnlyLastDispatches(workers: nat, schedule: seq<Step>, results: seq<RunResult>)
    requires workers > 0 && WellFormed(OnlyLast(workers, schedule, results), workers)
    ensures var r := Dispatches(OnlyLast(workers, schedule, results), workers);
            forall i :: 0 <= i < workers ==>
              r[i] == if i == workers - 1 then Ok(Answer(results, Window(0, 0))) else Err(Transport)
  {
    hide Answer;
    var e := OnlyLast(workers, schedule, results);
    var no := [false, false, false];
    forall i | 0 <= i < workers
      ensures Dispatches(e, workers)[i] == if i == workers - 1 then Ok(Answer(results, Window(0, 0))) else Err(Transport)
    {
      if i == workers - 1 {
        FirstAnswers(OutcomesOf(e.attempts[i]), no);
      } else {
        assert forall j :: 0 <= j < ATTEMPTS ==> e.attempts[i][j] == Failing();
        NoneAnswers(OutcomesOf(e.attempts[i]), no);
      }
    }
  }

  lemma FirstAnswers<T>(attempts: seq<Outcome<T>>, no: seq<bool>)
    requires |attempts| == |no| == ATTEMPTS && attempts[0].Ok?
    ensures Dispatched(attempts, no) == attempts[0]
  {
  }

  lemma NoneAnswers<T>(attempts: seq<Outcome<T>>, no: seq<bool>)
    requires |attempts| == |no| == ATTEMPTS && forall j :: 0 <= j < ATTEMPTS ==> attempts[j] == Err(Transport) && !no[j]
    ensures Dispatched(attempts, no) == Err(Transport)
  {
    assert OutcomeFrom(attempts, no, 3, Transport) == Err(Transport);
    assert OutcomeFrom(attempts, no, 2, Transport) == Err(Transport);
    assert OutcomeFrom(attempts, no, 1, Transport) == Err(Transport);
  }

  /** The results each worker brings: the last one all of them. */
  function LastPart(workers: nat, results: seq<RunResult>): (parts: seq<seq<RunResult>>)
    requires workers > 0
    ensures |parts| == workers && forall i :: 0 <= i < workers ==> parts[i] == if i == workers - 1 then results else []
  {
    seq(workers, i => if i == workers - 1 then results else [])
  }

  lemma LastPartSize(workers: nat, results: seq<RunResult>)
    requires workers > 0
    ensures Sum(LastPart(workers, results), Size()) == |results|
  {
    var parts := LastPart(workers, results);
    SumBetween(parts[..workers - 1], Size(), 0, 0);
    assert parts == parts[..workers - 1] + [results];
    SumSnoc(parts[..workers - 1], results, Size());
  }

  lemma LastBrings(workers: nat, schedule: seq<Step>, results: seq<RunResult>, windows: seq<Window>)
    requires workers > 0 && WellFormed(OnlyLast(workers, schedule, results), workers)
    requires |windows| == workers && forall i :: 0 <= i < workers ==> windows[i] == Window(0, 0)
    ensures Brought(Dispatches(OnlyLast(workers, schedule, results), workers), LastPart(workers, results), windows)
  {
    OnlyLastDispatches(workers, schedule, results);
    hide Answer, Dispatches, WellFormed, OnlyLast, LastPart;
  }

  lemma OnlyLastCounts(workers: nat, schedule: seq<Step>, results: seq<RunResult>)
    requires workers > 0 && WellFormed(OnlyLast(workers, schedule, results), workers)
    ensures Report(OnlyLast(workers, schedule, results), workers).latency.requests == |results|
  {
    var windows := seq(workers, _ => Window(0, 0));
    var e := OnlyLast(workers, schedule, results);
    LastBrings(workers, schedule, results, windows);
    LastPartSize(workers, results);
    ReportIs(e, workers);
    hide *;
    MasterCounts(Dispatches(e, workers), LastPart(workers, results), windows, e.order);
  }

  // ----- the budget

  /** With a duration and fewer requests than workers, some execution reports more than the budget. */
  lemma Overrun(cfg: Config, workers: nat) returns (e: Execution)
    requires Accepted(cfg) && 0 < cfg.requests < workers && cfg.duration > 0
    ensures WellFormed(e, workers) && Possible(cfg, workers, e) && Report(e, workers).latency.requests > cfg.requests
  {
    var c := ShardConfig(cfg, workers - 1, workers);
    StarvedShards(cfg.requests, workers, workers - 1);
    ShardAccepted(cfg, workers - 1, workers);
    var n := cfg.requests + 1;
    ManyRounds(c, n);
    RunSnoc(c, Init(c), Rounds(n), Cancel);
    var full := WindsDown(c, Rounds(n) + [Cancel]);
    var results := Run(c, Init(c), full).collected;
    e := OnlyLast(workers, full, results);
    hide Possible, WellFormed, Report, OnlyLast, Legal, Run, Accepted;
    OnlyLastPossible(cfg, workers, full, results);
    OnlyLastCounts(workers, full, results);
  }

  /** No execution, cancelled or not, reports more than the budget: exactly if the job has no duration or no worker goes without a shard. */
  lemma BudgetExact(cfg: Config, workers: nat)
    requires Accepted(cfg) && cfg.requests > 0 && workers > 0
    ensures (forall e :: WellFormed(e, workers) && Possible(cfg, workers, e) ==> Report(e, workers).latency.requests <= cfg.requests)
       <==> cfg.duration == 0 || workers <= cfg.requests
  {
    hide WellFormed, Possible, Report;
    if Bounded(cfg, workers) {
      forall e | WellFormed(e, workers) && Possible(cfg, workers, e)
        ensures Report(e, workers).latency.requests <= cfg.requests
      {
        WithinBudget(cfg, workers, e);
      }
    } else {
      var e := Overrun(cfg, workers);
    }
  }

  /** One request, two workers and a duration: the second worker reports two requests before its deadline. */
  lemma TwoForOne()
    ensures var cfg := Config(1, 1, 0, 1_000_000_000);
            var schedule := Rounds(2) + [Cancel, Work(0, Check), Close, Finish];
            var e := OnlyLast(2, schedule, [SomeResult(), SomeResult()]);
            && Accepted(cfg) && WellFormed(e, 2) && Possible(cfg, 2, e)
            && Report(e, 2).latency.requests == 2
  {
    var cfg := Config(1, 1, 0, 1_000_000_000);
    var schedule := Rounds(2) + [Cancel, Work(0, Check), Close, Finish];
    var results := [SomeResult(), SomeResult()];
    StarvedShards(1, 2, 1);
    assert ShardConfig(cfg, 1, 2) == Config(0, 1, 0, 1_000_000_000);
    RoundsEnd(ShardConfig(cfg, 1, 2), 2);
    assert seq(2, _ => SomeResult()) == results;
    hide Possible, WellFormed, Report, OnlyLast, Ends, Rounds;
    OnlyLastPossible(cfg, 2, schedule, results);
    OnlyLastCounts(2, schedule, results);
  }

  lemma RoundsEnd(c: Config, n: nat)
    requires c.concurrency == 1 && c.requests == 0
    ensures Ends(c, Rounds(n) + [Cancel, Work(0, Check), Close, Finish], seq(n, _ => SomeResult()))
  {
    assert |Init(c).workers| == 1;
    hide *;
    var tail := [Cancel, Work(0, Check), Close, Finish];
    ManyRounds(c, n);
    var s := Run(c, Init(c), Rounds(n));
    LastWords(c, s);
    RunConcat(c, Init(c), Rounds(n), tail);
    EndsWith(c, Rounds(n) + tail, seq(n, _ => SomeResult()));
  }

  lemma EndsWith(c: Config, steps: seq<Step>, results: seq<RunResult>)
    requires ValidConfig(c) && Legal(c, Init(c), steps) && Run(c, Init(c), steps).done && Run(c, Init(c), steps).collected == results
    ensures Ends(c, steps, results)
  {
    hide Legal, Run;
  }

  /** The deadline, then the only worker leaves and the engine ends. */
  lemma LastWords(cfg: Config, s: State)
    requires Idling(cfg, s) && |s.workers| == 1
    ensures var tail := [Cancel, Work(0, Check), Close, Finish];
            Legal(cfg, s, tail) && Run(cfg, s, tail).done && Run(cfg, s, tail).collected == s.collected
  {
    var s1 := s.(cancelled := true);
    var s2 := s1.(workers := [Exited]);
    var s3 := s2.(closed := true);
    var s4 := s3.(done := true);
    assert s1.workers[0 := Exited] == [Exited];
    assert Apply(cfg, s, Cancel) == s1 && Apply(cfg, s1, Work(0, Check)) == s2;
    assert Apply(cfg, s2, Close) == s3 && Apply(cfg, s3, Finish) == s4;
    assert Legal(cfg, s4, []) && Run(cfg, s4, []) == s4;
    RunCons(cfg, s3, Finish, []);
    RunCons(cfg, s2, Close, [Finish]);
    RunCons(cfg, s1, Work(0, Check), [Close, Finish]);
    RunCons(cfg, s, Cancel, [Work(0, Check), Close, Finish]);
    assert [Cancel] + [Work(0, Check), Close, Finish] == [Cancel, Work(0, Check), Close, Finish];
    assert [Work(0, Check)] + [Close, Finish] == [Work(0, Check), Close, Finish];
    assert [Close] + [Finish] == [Close, Finish] && [Finish] + [] == [Finish];
  }
}
