# vibeready, verified

vibeready is a load generator for HTTP, streaming and WebSocket services. A run takes tickets,
paces requests, collects one result for each, and reports counts, latencies and percentiles; a
master can spread a job over several workers and merge what they report. This project models that
logic in Dafny and proves what holds of it for every input, every schedule and every merge order.
Check it with `dafny verify dfyconfig.toml`.

## What is modelled, file by file

| files | part of the system |
|---|---|
| `Histograms`, `HistogramLaws` | the log-scale histogram: recording, merging, quantiles |
| `Collectors`, `CollectorLaws`, `SummaryLaws`, `SummaryFigures` | the collector: adding results, snapshots, merging, summary |
| `Aggregation`, `AggregationLaws` | why a sharded, truncated run agrees with a central one |
| `Pacing` | the reservation pacer behind `--qps` |
| `EngineModel`, `EngineLaws`, `EngineResults` | the engine as a step system: workers, ticket counter, bounded channel, closer |
| `Distributed`, `Reports`, `Budgets`, `Overruns` | sharding, dispatch with retries, merging in completion order, end to end |
| `JobQueues`, `JobServer`, `JobServerLaws`, `JobServerRuns`, `JobServerRecords`, `JobServerStops` | the job queue and the persistent master as a step system |
| `WorkerSlots`, `WorkerSlotsRuns` | a worker's job slots, cancellation and shutdown |
| `WebSocket`, `WebSocketLaws`, `WebSocketWire`, `WebSocketRunner` | the frame codec, the buffered connection, the receive loop |
| `Streaming`, `Text`, `TextLaws`, `JsonWalk`, `JsonSignals`, `Sse`, `SseLaws`, `SseRendering` | stream timing, words, the event and line loops, the JSON walks |
| `Shell`, `ShellExact`, `RetestCommand`, `RetestReading` | the re-test command, against a POSIX word splitter and a flag reader |
| `Sequences`, `Ranges`, `Durations` | sums, counting facts and units used throughout |

Objects that the program updates in place are classes here, with their fields; each method's
contract ties the new state to a function of the old one, and the lemmas are about that function.
Goroutines, channels and locks are step systems: a locked section or a channel operation is one
step, any enabled step may come next, and a statement about runs is about every sequence of steps.
Durations and times are integer nanoseconds. Powers of 1.25, quantile arguments and token rates are
reals. Clock readings, random masks and the order of map keys are parameters or free choices.

## What came out

Main results: a distributed run reports exactly what a central one would, up to less than one
microsecond a worker in each summed duration (`AggregationLaws.DistributedIsCentral`); its
percentiles stay within a quarter (plus 1.25us) above the true order statistics
(`AggregationLaws.DistributedQuantile`); a job of N requests ends with exactly N in the master's
report, whichever attempts answer (`Budgets.MasterTotals`), because each engine conserves,
terminates and never deadlocks; the job server never runs more than its limit, loses no wake-up and
drains on every schedule; frames, event streams and quoted commands read back as what was written.

What single steps mean is pinned apart from the functions that compute them: what is collected is what
the runners returned (`EngineResults.AllCollected`), a job's record is what happened to the job
(`JobServerRecords.RecordsTellTheRun`), every figure of a report has its meaning in the results
(`SummaryFigures`), frames are given byte by byte (`WebSocketWire`), words by position (`TextLaws`), and
the re-test command's flags are read back one by one (`RetestReading`).

Where a promise or an expectation does not hold, the exact condition is proved:

- The documented global QPS cap (docs/cli-reference.md:18) is exceeded when the interval is truncated,
  and when a job runs on several workers, because each paces at the full rate: for a whole rate n over
  k workers it holds exactly if n >= k 10^9, or k is 1 and n divides 10^9 (`Pacing.WholeRateCap`).
  One worker at 3 per second gets four slots in one second, two workers at 1 per second get two. Slots
  are what is bounded: requests that start late may still start together.
- A merged minimum latency is wrong when one worker's minimum is below 1us: the test `incomingMin > 0`
  ignores it unless it comes first (`AggregationLaws.RunningMinExact`; 5us and 500ns in
  `AggregationLaws.MinimumLost`).
- Snapshots do not carry the flag for estimated tokens nor the TTFT extremes. The merged flag is right
  exactly if no result has estimated tokens, the extremes exactly if none has a TTFT
  (`AggregationLaws.DistributedIsCentral`).
- A merged average can exceed the merged maximum, by less than 1us (`SummaryLaws.MergedAverage`), because
  only the sum of the latencies keeps what the maximum loses to truncation. However the results are
  dealt out it does not, exactly if their total at microsecond floor is below their number times the
  maximum at microsecond floor plus 1 ns (`SummaryLaws.AverageExact`).
- With fewer requests than workers some shards are empty. Without a duration their workers refuse the
  job, the total is still N and the run completes with errors (`Budgets.MasterTotals`). With a duration
  an empty shard means "no limit", and the report can exceed N: it stays within N on every execution
  exactly if there is no duration or there are no more workers than requests (`Overruns.BudgetExact`).
- Finished jobs stay in the queue's table and count against its limit: a submission is accepted exactly
  while fewer than `maxJobs` have been, ever (`JobServerRuns.AcceptedExactly`).
- After `Stop` one more job can be started: exactly if the dispatcher is past its check of the signal
  (taking a slot, scanning or waiting) and a job is pending or can still be submitted
  (`JobServerStops.StopMissedExactly`); never more than one.
- A queue needs fresh ids to list its jobs, and a worker's table tracks its jobs exactly if active ids are
  distinct (`JobQueues.EnqueueKeepsListing`, `WorkerSlots.TracksExactly`). A dispatch sends the same id in
  every attempt (internal/distributed/master.go:275-313). Capacity 1, the default
  (internal/cli/master.go:81), holds whatever ids come, and no other does (`WorkerSlots.CapacityExact`):
  on any larger one an id sent m times makes m jobs execute (`WorkerSlots.DuplicateIdsPileUp`).
- A WebSocket stream that breaks off inside a frame is reported as a success when the break falls between
  two fields, or the connection's error mentions a close (`WebSocketRunner.BrokenStream`).
- A stream's time to first token comes from response headers when no chunk was counted, or when it
  measures 0; nothing ties those values to the latency (`SseLaws.StreamAccounting`).
- Header names and stream key lists are quoted without escaping, and some settings are written bare: the
  re-test command survives a shell exactly if the former have no single quote and the latter are plain
  words (`RetestCommand.CommandExact`).
- The histogram has 82 buckets, not about 93 (`HistogramLaws.BucketCount`).

The code disagrees with its own comments in one more place: `Worker.Shutdown` says it waits for
active jobs, but it cancels them and returns; the model follows the code.

What the step systems and laws take for granted: ids of submissions are fresh where a statement says
so, clocks are monotone where it says so, a `Run` or runner call that was started can return.

## Model

| member | source | states |
|---|---|---|
| Histograms.BuildBounds | internal/stats/histogram.go:17-25 | the bounds loop ends and yields the specified bound list: truncated powers of 1.25 below 60 s, then 60 s |
| HistogramLaws.BoundsAreLadder | internal/stats/histogram.go:17-25 | bounds never decrease, end at 60 s, and each is below 1.25 times (its predecessor plus the microsecond that truncation can lose), although small bounds repeat |
| HistogramLaws.BucketCount | internal/stats/histogram.go:18-25 | exactly 82 buckets come out (the capacity hint at line 18 and docs/architecture.md:42 say about 93) |
| HistogramLaws.BoundsAt | internal/stats/histogram.go:18-25 | each of the first 81 bounds is 1.25^k microseconds cut to whole microseconds, the last one 60 s |
| HistogramLaws.MicrosIs | internal/stats/histogram.go:48-58 | durations become whole microseconds, cut toward zero |
| Histograms.Histogram.constructor | internal/stats/histogram.go:17-31 | a new histogram has the default bounds and only zero counts |
| Histograms.Histogram.FromSnapshot | internal/stats/histogram.go:34-45 | rebuilding from a snapshot restores bounds (from microseconds) and counts |
| Histograms.Histogram.Snapshot | internal/stats/histogram.go:48-58 | the snapshot carries the bounds in microseconds and a copy of the counts |
| Histograms.Histogram.Record | internal/stats/histogram.go:80-86 | one count goes up, in the bucket of the sample clamped at 0; nothing else changes |
| Histograms.Histogram.BucketIndex | internal/stats/histogram.go:139-146 | the search returns the first bucket whose bound reaches the sample, the last bucket if none does |
| Histograms.Histogram.Merge | internal/stats/histogram.go:61-77 | no counts: unchanged; own counts empty: takes over the snapshot; different lengths: unchanged; otherwise pointwise sums, with the caller's bounds kept |
| Histograms.Histogram.TotalCount | internal/stats/histogram.go:113-119 | the loop returns the number of samples |
| Histograms.Histogram.MinNonZero | internal/stats/histogram.go:121-128 | the bound of the first bucket with samples, 0 if there is none |
| Histograms.Histogram.MaxNonZero | internal/stats/histogram.go:130-137 | the bound of the last bucket with samples, 0 if there is none |
| Histograms.Histogram.Quantile | internal/stats/histogram.go:89-110 | the accumulator loop returns the value of the quantile specification for every q, including q <= 0, q >= 1 and an empty histogram |
| HistogramLaws.RecordCounts | internal/stats/histogram.go:80-86 | if the counts are exact for a list of samples, recording one more keeps them exact for the longer list |
| HistogramLaws.NegativeSample | internal/stats/histogram.go:80-83 | a negative sample counts in the first bucket |
| HistogramLaws.MergeCounts | internal/stats/histogram.go:74-76 | merging counts that are exact for two lists gives counts that are exact for both together |
| HistogramLaws.RankExact | internal/stats/histogram.go:101-106 | the rank searched for is the one r with r - 1 < q n <= r for q between 0 and 1, the first for q <= 0 and the last for q >= 1 |
| HistogramLaws.QuantileIsOrderStatistic | internal/stats/histogram.go:89-110 | on exact counts, every quantile is the bound of the bucket that holds the true order statistic of that rank in the sorted samples |
| HistogramLaws.QuantileErrorBound | internal/stats/histogram.go:89-110 | for non-negative samples and any q, with x the true order statistic of that rank: answer < 1.25 (x + 1us), and x <= answer exactly when x <= 60 s |
| HistogramLaws.BucketBoundTight | internal/stats/histogram.go:139-146 | the bound of a sample's bucket is below 1.25 (x + 1us) and is at least x exactly when x <= 60 s |
| HistogramLaws.QuantileMonotone | internal/stats/histogram.go:89-110 | the quantile is monotone in q over all reals, across both special cases |
| HistogramLaws.MergedIndexBetween | internal/stats/histogram.go:101-109 | the merged search stops between the stops of its two parts, despite the ceiling in each target rank |
| HistogramLaws.MergedQuantileBetween | internal/stats/histogram.go:61-77 | for any number of non-empty parts and every q, the merged quantile lies between two of the parts' quantiles |
| Collectors.Collector.constructor | internal/stats/collector.go:52-60 | a new collector is empty |
| Collectors.Collector.FromSnapshot | internal/stats/collector.go:63-67 | rebuilding from a snapshot is merging it into an empty collector |
| Collectors.Collector.SetWindow | internal/stats/collector.go:70-73 | only the time window changes |
| Collectors.Collector.SetPricing | internal/stats/collector.go:46-49 | only the price per thousand output tokens changes |
| Collectors.Collector.Add | internal/stats/collector.go:76-155 | the thirty fields, two tables and three histograms after one result are those of the value-level step; what that step means is AddRepresents |
| Collectors.Collector.Snapshot | internal/stats/collector.go:158-187 | the snapshot carries counts, tables, histograms and durations cut to whole microseconds |
| Collectors.Collector.MergeSnapshot | internal/stats/collector.go:190-243 | the whole new state, with the early return on an empty snapshot, the minimum guard of line 203 and first-wins provider and model |
| Collectors.Collector.Summarize | internal/stats/collector.go:246-336 | the whole summary but its formatted copies: window and duration, totals, averages by truncating division guarded by their counts, percentiles, tokens, backend overhead, provider and model, and, as reals, error rate, throughput, token rate, ratios and cost |
| Collectors.Collector.SummarizeRates | internal/stats/collector.go:261-335 | error rate, throughput, token rate, upstream ratio, cache hit rate and cost, each under the guard the source puts before it |
| SummaryLaws.SummaryExact | internal/stats/collector.go:246-336 | the report of any results counts them all, successes plus failures make the total, the average latency and the average time to first token lie between their extremes, and the percentiles of latencies, times to first token and gaps are each in order |
| SummaryLaws.SummaryRates | internal/stats/collector.go:261-335 | in the report of any results error rate and cache hit rate are between 0 and 1, error rate times total gives the failures, and throughput times duration the total |
| SummaryFigures.SummaryPercentiles | internal/stats/collector.go:270-333 | each of the twelve percentiles is the quantile its name says of the latencies, times to first token or gaps behind it, up to its bucket; all 0 without samples |
| SummaryFigures.SummaryMeans | internal/stats/collector.go:263-310 | each average is the whole part of its sum over its count, 0 without any, and upstream average plus backend overhead make the latency average |
| SummaryFigures.SummaryCounts | internal/stats/collector.go:246-317 | window, status and error tables, token counts, the estimate flag, provider and model are those of the results |
| SummaryFigures.SummaryRatios | internal/stats/collector.go:298-320 | token rate, upstream ratio and cache hit rate multiplied back give their dividends, and a thousand times the cost is tokens times price |
| SummaryFigures.SummaryEmpty | internal/stats/collector.go:246-257 | without results everything is 0 but the window |
| SummaryFigures.FirstNameIs | internal/stats/collector.go:141-147 | provider and model are the first name any result gave |
| SummaryFigures.PositiveIs | internal/stats/collector.go:100-104 | exactly the positive gaps are samples |
| SummaryLaws.MergedAverage | internal/stats/collector.go:213-213 | for any number of workers the average of a merged report is at most 999 ns below the central one, and at most 999 ns above its own maximum |
| SummaryLaws.AverageExact | internal/stats/collector.go:206-213 | the merged average stays within the merged maximum for every dealing of the results to workers if and only if the total at microsecond floor is below n (maximum at microsecond floor + 1 ns), for n results |
| SummaryLaws.AverageAboveMaximum | internal/stats/collector.go:206-213 | an instance where it does not: two requests of 1.5us give an average of 1.5us and a maximum of 1us |
| Collectors.AddEntries | internal/stats/collector.go:237-242 | the map loop adds every incoming entry, in whatever order the keys come |
| CollectorLaws.AddRepresents | internal/stats/collector.go:76-155 | adding a result keeps the collector exact: every counter, clock, table, extreme (latency and TTFT), name and histogram stands for the list one result longer |
| CollectorLaws.FoldRepresents | internal/stats/collector.go:76-155 | feeding any list one result at a time gives a collector exact for that list |
| SummaryFigures.OneResult | internal/stats/collector.go:76-155 | what a collector holds after one result: counts, latency, tables, names and cache counters, field by field |
| SummaryFigures.OneResultTimes | internal/stats/collector.go:86-140 | and its times, tokens and upstream figures, where values that are not positive count as missing |
| CollectorLaws.RequestsCounted | internal/stats/collector.go:84-124 | the counters defined over a list count it all, and successes plus failures make the total |
| Aggregation.MergeOne | internal/stats/collector.go:190-243 | merging one more exact collector extends agreement to the longer list: counts exact, durations short by at most 999 ns more |
| Aggregation.MergedAgrees | internal/stats/collector.go:190-243 | merging k exact collectors agrees with the concatenation of their lists |
| AggregationLaws.DistributedIsCentral | internal/stats/collector.go:62-243 | for any dealing of any results to any collectors, in any merge order: counts, tables, histograms and token rate equal those of one collector fed everything, maximum at microsecond floor, each duration short by 0 to 999 ns a collector, minimum right if and only if the guard holds, estimate flag right if and only if no result has estimated tokens, TTFT extremes right if and only if no result has a TTFT, provider and model those of the first result in merge order that has one |
| AggregationLaws.RunningMinExact | internal/stats/collector.go:203-205 | the running minimum is the true one if and only if the first carried minimum is 0 or none is 0 |
| AggregationLaws.MinimumKeptInEveryOrder | internal/stats/collector.go:203-205 | it is right in every merge order if and only if all carried minima are 0 or none is |
| AggregationLaws.MinimumAgrees | internal/stats/collector.go:203-205 | the merged minimum latency is the true one at microsecond floor if and only if that guard holds of the carried minima |
| AggregationLaws.MinimumLost | internal/stats/collector.go:203-205 | 5us merged before 500ns reports 5us, after it 0, and 0 is the true minimum at microsecond floor |
| AggregationLaws.MergedMax | internal/stats/collector.go:206-208 | the merged maximum latency is the true one at microsecond floor |
| AggregationLaws.NeverMerged | internal/stats/collector.go:190-243 | the estimate flag and the TTFT extremes of a merged collector are never set |
| AggregationLaws.MergedWindow | internal/stats/collector.go:191-196 | merging any collectors, idle ones included, spans from the earliest start that was set to the latest end |
| AggregationLaws.DistributedQuantile | internal/stats/collector.go:220-222 | every quantile of a distributed run, of latencies, times to first token and inter-token gaps alike, is the bucket bound of the order statistic in the plain sorted list of all samples, with the error bound |
| AggregationLaws.SnapshotFixpoint | internal/stats/collector.go:62-67 | rebuilding a collector from its snapshot and taking the snapshot again changes nothing, for any collector with default bounds that has requests or is untouched, if and only if its maximum at microsecond floor is not negative |
| AggregationLaws.FixpointsEverywhere | internal/stats/collector.go:62-67 | that holds of every exact collector and of every merge of exact collectors |
| Pacing.QpsPacer.constructor | internal/engine/pacer.go:25-36 | the interval is the truncated quotient, at least 1 ns; no slot is reserved yet |
| Pacing.QpsPacer.Reserve | internal/engine/pacer.go:39-46 | the locked part hands out exactly the next slot of the specification and advances the state to match |
| Pacing.QpsPacer.Wait | internal/engine/pacer.go:38-62 | a successful wait returns at its slot or later, and on time when the timer is; a failed one only after the context has ended; a context already done fails a wait whose slot has passed |
| Pacing.IntervalIs | internal/engine/pacer.go:30-33 | for every rate up to 10^9, whole or not, interval times rate is at most a second and one more nanosecond exceeds it; above, the interval is 1 ns |
| Pacing.ClosedForm | internal/engine/pacer.go:38-46 | the k-th slot is the maximum over j <= k of t_j + (k - j) interval, for any call times |
| Pacing.Spacing | internal/engine/pacer.go:38-46 | slots are at least one interval apart |
| Pacing.RateBound | internal/engine/pacer.go:38-46 | a half-open window of any width holds at most ceil(width / interval) slots |
| Pacing.RateBoundTight | internal/engine/pacer.go:38-46 | a burst reaches that bound |
| Pacing.CapExact | internal/engine/pacer.go:30-35 | one pacer: at most n slots in every second if and only if n intervals cover the second |
| Pacing.TogetherExact | internal/distributed/master.go:470-481 | k workers, each with a pacer at the full rate because sharding divides only the requests: at most n slots together in every second if and only if k ceil(second / interval) <= n |
| Pacing.WholeRateCap | internal/engine/pacer.go:30-35 | the documented cap (docs/cli-reference.md:18) for a whole rate n over k workers (internal/distributed/master.go:470-481) holds if and only if n >= k 10^9, or k is 1 and n divides 10^9 |
| Pacing.ThreePerSecond | internal/engine/pacer.go:30-35 | the cap fails at 3 requests a second with one worker: four slots in one second |
| Pacing.TwoWorkersAtOne | internal/distributed/master.go:470-481 | and at 1 request a second with two workers, although it holds with one: two slots in one second |
| Pacing.AheadDistinct | internal/engine/engine.go:83-92 | requests whose slots are all still ahead come from different workers, because a worker has one wait at a time |
| Pacing.WaitBound | internal/engine/pacer.go:38-62 | with C workers a slot is at most C intervals after its request |
| EngineModel.CollectResults | internal/engine/engine.go:148-157 | the collecting loop leaves the collector that the received results, in order, define |
| EngineLaws.Conservation | internal/engine/engine.go:83-157 | in every reachable state collected + queued + held + dropped = min(issued, Requests); no result is lost or doubled, order of sending is order of collecting, the channel holds at most 2C |
| EngineResults.ResultsConserved | internal/engine/engine.go:108-118 | over any schedule every result a runner returned is delivered, unchanged unless an error came beside it without a category, when it becomes an unknown failure and nothing else changes; every copy delivered is collected, queued, dropped or held |
| EngineResults.AllCollected | internal/engine/engine.go:108-157 | a finished run without a cancellation collects exactly the results its runners returned, Requests of them |
| EngineResults.PausesCounted | internal/engine/engine.go:120-127 | over any schedule every failure sent that took under a millisecond, and nothing else, makes its worker pause once |
| EngineResults.RampUp | internal/engine/engine.go:128-141 | workers start in equal steps, the C-th part of the ramp-up, so all have started before it is over; a millisecond if it is shorter than C ns |
| EngineResults.AcceptedJob | internal/distributed/worker.go:113-116 | a job a worker accepts has workers and something that ends it, and no worker waits to start beyond its duration |
| EngineLaws.NoSendAfterClose | internal/engine/engine.go:111-115 | the channel closes only after every worker has exited; no send on a closed channel is ever enabled |
| EngineLaws.NoDeadlock | internal/engine/engine.go:69-157 | until the run is over some step other than a cancellation is enabled, in every reachable state |
| EngineLaws.MeasureDrops | internal/engine/engine.go:83-157 | every step of a request-bound run makes a measure smaller |
| EngineLaws.Terminates | internal/engine/engine.go:83-157 | no schedule of a request-bound run, cancelled or not, has more than 10 Requests + 14 C + 3 steps |
| EngineLaws.EndsAfterCancel | internal/engine/engine.go:69-125 | after a cancellation every schedule is finite, even without a request limit |
| EngineLaws.Exactness | internal/engine/engine.go:94-99 | an uncancelled request-bound run ends with exactly Requests results collected and the ticket counter at Requests + Concurrency |
| EngineLaws.CanFinish | internal/engine/engine.go:83-157 | from wherever an uncancelled run stands, some schedule takes it to its end |
| EngineLaws.UnboundedNeverEnds | internal/engine/engine.go:94-99 | with limit 0 and no cancellation no schedule ends the run |
| Distributed.ShardsAddUp | internal/distributed/master.go:470-481 | the shards sum to the whole budget |
| Distributed.ShardsBalanced | internal/distributed/master.go:474-479 | two shards differ by at most one request |
| Distributed.ShardsBounded | internal/distributed/master.go:474-479 | every shard keeps a positive limit if and only if there are at least as many requests as workers |
| Distributed.StarvedShards | internal/distributed/master.go:474-479 | with fewer requests than workers the first workers get one request each and the others none |
| Distributed.ShardAccepted | internal/distributed/worker.go:113-116 | a shard of an acceptable job is refused by the worker if and only if it is empty and the job has no duration (internal/config/config.go:84-86) |
| Distributed.Dispatch | internal/distributed/master.go:268-314 | three attempts: success exactly if some attempt answers before a fatal error or a cancellation, and then that attempt's answer; otherwise which error comes back |
| Distributed.DispatchedAnswer | internal/distributed/master.go:275-313 | a dispatch succeeds if and only if some attempt answers, and then with that attempt's answer |
| Distributed.MergeArrivals | internal/distributed/master.go:165-191 | the goroutines' locked sections, in any completion order, merge exactly the successful snapshots and set every worker's status |
| Distributed.CollectOutcomes | internal/distributed/master.go:156-201 | the final state: merged snapshots, the job's window, and completed if and only if every worker succeeded |
| Distributed.EveryoneCompletes | internal/distributed/master.go:165-191 | a completion order names every worker exactly once |
| Distributed.MergedTotals | internal/stats/collector.go:210-212 | requests, and successes plus failures, of the merge are the number of all results |
| Reports.MasterCounts | internal/distributed/master.go:165-193 | whatever the successful dispatches brought, merged in any order, is what the report counts |
| Budgets.MasterTotals | internal/distributed/master.go:138-201 | N requests over any number of workers, from schedules to report: whichever attempt of each dispatch answers and in whatever order they end, unless an engine is cancelled the report has exactly N requests, successes plus failures make N, and the run completes with errors if and only if there are fewer requests than workers (for jobs without a duration, or with no more workers than requests) |
| Budgets.WithinBudget | internal/distributed/master.go:138-201 | for the same jobs no execution, with engines cancelled and dispatches failing in any way, reports more than N |
| Overruns.BudgetExact | internal/distributed/master.go:138-201 | the report stays within N on every execution if and only if the job has no duration or no more workers than requests |
| Overruns.TwoForOne | internal/engine/engine.go:94-99 | one request, two workers and a duration: a concrete schedule cut off by its deadline reports two requests |
| Reports.MasterAgrees | internal/distributed/master.go:156-193 | what the master holds agrees with one central collector fed all that was brought, in any order: counts, tables, histograms and token rate exactly, maximum at microsecond floor, durations short by under 1us a worker, minimum and estimate flag right exactly under their conditions |
| JobQueues.JobQueue.constructor | internal/distributed/queue.go:33-42 | an empty queue; a limit of 0 or less becomes 100 |
| JobQueues.JobQueue.Enqueue | internal/distributed/queue.go:45-68 | refused if and only if the table is full; otherwise one pending job at the end of the order and a token in the channel |
| JobQueues.JobQueue.TryDequeue | internal/distributed/queue.go:74-85 | starts the first pending job in submission order and attaches its cancel function, or changes nothing if none is pending |
| JobQueues.JobQueue.Complete | internal/distributed/queue.go:96-107 | an existing job that is not cancelled becomes completed with the result, from whatever status it has |
| JobQueues.JobQueue.Fail | internal/distributed/queue.go:110-121 | an existing job that is not cancelled becomes failed with the error, from whatever status it has |
| JobQueues.JobQueue.Cancel | internal/distributed/queue.go:124-142 | unknown and terminal jobs are refused and nothing changes; otherwise cancelled, and the attached function is called |
| JobQueues.JobQueue.Get | internal/distributed/queue.go:145-153 | the job with that id, or not found |
| JobQueues.JobQueue.List | internal/distributed/queue.go:156-165 | every job once, in submission order |
| JobQueues.EnqueueKeepsListing | internal/distributed/queue.go:53-61 | a submission keeps the order a duplicate-free listing of the jobs if and only if its clock-made id is fresh |
| JobServerLaws.StepKeeps | internal/distributed/master.go:65-110 | every step of dispatcher, job goroutines, clients and operator keeps the whole invariant |
| JobServerLaws.RunKeeps | internal/distributed/master.go:65-110 | so does every run |
| JobServerRuns.ConcurrencyBound | internal/distributed/master.go:66-110 | in every reachable state running jobs <= job goroutines <= occupied slots <= maxConcurrent |
| JobServerRuns.ListingKept | internal/distributed/queue.go:49-61 | in every reachable state the order lists exactly the jobs, each once, at most maxJobs |
| JobServerRuns.Lifecycle | internal/distributed/queue.go:72-142 | along any run a job only moves pending, running, terminal or pending, cancelled; a terminal record never changes again |
| JobServerRecords.RecordsTellTheRun | internal/distributed/master.go:86-107 | over any run every record says what happened to its job: spec and times; completed with the result if Run returned without an error and failed with the error otherwise, once reported; cancelled if it was, with its cancel function called exactly if it had been started |
| JobServerRuns.StartsInOrder | internal/distributed/queue.go:75-83 | each job is started at most once and the starts are the submission order cut down to the started jobs |
| JobServerRuns.NoLostWakeup | internal/distributed/queue.go:63-66 | whenever the dispatcher is parked and a pending job exists the channel holds a token |
| JobServerRuns.Progress | internal/distributed/master.go:77-107 | in every state the invariant allows: while a job is unfinished and nobody shut the server down, one of its own steps is enabled |
| JobServerRuns.MeasureDrops | internal/distributed/queue.go:72-142 | every step but an accepted submission makes a measure smaller |
| JobServerRuns.RunsBounded | internal/distributed/master.go:65-110 | without further submissions every run is finite, bounded by the measure |
| JobServerRuns.Drains | internal/distributed/master.go:65-110 | without a shutdown some schedule of the server's own steps brings every job to a terminal state |
| JobServerRuns.EveryScheduleDrains | internal/distributed/master.go:65-110 | and every schedule of them is finite, with every job terminal once no step is left to take |
| JobServerRuns.JobsCounted | internal/distributed/queue.go:49-61 | the table grows by exactly the accepted submissions |
| JobServerRuns.AcceptedExactly | internal/distributed/queue.go:49-51 | after any run of a fresh server a submission with a fresh id is accepted if and only if fewer than maxJobs have been |
| JobServerRuns.FullForever | internal/distributed/queue.go:49-51 | from a full table on, no submission is accepted on any continuation |
| JobServerStops.StopStartsAtMostOne | internal/distributed/master.go:68-86 | after Stop at most one more job is ever started |
| JobServerStops.StopMissedExactly | internal/distributed/master.go:68-89 | after Stop some continuation starts a further job if and only if the dispatcher is past its check of the signal and a job is pending or can still be submitted |
| JobServerStops.StopMissed | internal/distributed/queue.go:87-91 | from a fresh server: the dispatcher waits for a job, Stop is called, and the next submission is started |
| WorkerSlots.Worker.constructor | internal/distributed/worker.go:36-48 | no jobs; a capacity of 0 or less becomes 1 |
| WorkerSlots.Worker.Admit | internal/distributed/worker.go:124-136 | at capacity the active ids come back and nothing changes; otherwise the job is entered under a fresh handle, replacing one of the same id |
| WorkerSlots.Worker.End | internal/distributed/worker.go:141-163 | the job leaves the table; only a job that ran becomes the last job |
| WorkerSlots.Worker.Cancel | internal/distributed/worker.go:192-201 | found exactly if active, and then that job's cancel is called and no other |
| WorkerSlots.Worker.Shutdown | internal/distributed/worker.go:226-240 | capacity 0, the table unchanged, every active job's cancel called |
| WorkerSlotsRuns.LastJobIs | internal/distributed/worker.go:141-163 | over any run the last job is the last one that ended after running, and last seen is the time of the last end |
| WorkerSlotsRuns.CancelsOnlyNamed | internal/distributed/worker.go:192-201 | without a shutdown and with distinct active ids a job is asked to stop only if a cancel request named it |
| WorkerSlotsRuns.CancelReaches | internal/distributed/worker.go:192-201 | a cancel request that names an executing job reaches it |
| WorkerSlots.StepTracks | internal/distributed/worker.go:124-163 | from a state where the table is exactly the set of executing jobs, a step keeps that if and only if it does not admit an id that is still executing |
| WorkerSlots.TracksExactly | internal/distributed/worker.go:124-163 | over every run the table tracks the executing jobs throughout if and only if concurrently active ids are distinct |
| WorkerSlots.CapacityHolds | internal/distributed/worker.go:124-136 | with distinct active ids executing jobs never exceed the capacity the worker was created with |
| WorkerSlots.CapacityExact | internal/distributed/worker.go:124-143 | whatever ids come, on every run executing jobs stay within the capacity if and only if that is one |
| WorkerSlots.DuplicateIdsPileUp | internal/distributed/worker.go:135-143 | on any larger capacity one id sent m times makes m jobs execute at once, for every m |
| WorkerSlots.ClosedOnlyShrinks | internal/distributed/worker.go:226-240 | once closed, on any continuation nothing is admitted and table and executing jobs only shrink |
| WorkerSlots.ShutdownDrains | internal/distributed/worker.go:226-240 | shutdown after any run with distinct ids: every job still executing has its cancel called or picked up to be called, and called once the shutdown is through |
| WebSocket.Conn.Read | internal/protocol/websocket/runner.go:288-293 | a read yields the next bytes of the stream, from the handshake buffer before the network, and loses none |
| WebSocket.ReadFull | internal/protocol/websocket/runner.go:349-351 | the buffer is filled with exactly the next bytes; otherwise the connection's own error, or an end of input that is clean only if no byte was there |
| WebSocket.WriteFrame | internal/protocol/websocket/runner.go:310-345 | exactly the encoded frame is appended to what was sent, or as much of it as the connection still takes and a failure |
| WebSocket.ReadFrame | internal/protocol/websocket/runner.go:347-399 | the outcome and the bytes left are those of parsing the stream's bytes, however they are split over buffer and segments |
| WebSocket.Unmask | internal/protocol/websocket/runner.go:392-396 | unmasking in place computes the masked sequence |
| WebSocketLaws.MaskedTwice | internal/protocol/websocket/runner.go:337-340 | masking twice with one key gives the data back |
| WebSocketWire.WrittenBytes | internal/protocol/websocket/runner.go:310-345 | byte by byte: final bit and opcode, mask bit, length in network order, the key, and payload byte i xored with key byte i % 4 (sections 5.2 and 5.3 of RFC 6455) |
| WebSocketWire.ReadBytes | internal/protocol/websocket/runner.go:347-399 | for any bytes: a frame comes back exactly if header, key and payload are there and the length is at most 10 MiB, with the payload of the input, byte i xored with key byte i % 4, and the rest |
| WebSocketWire.PongAnswers | internal/protocol/websocket/runner.go:136-148 | a ping is answered with a final masked frame of opcode 10 that a peer reads as the same payload, and nothing else is answered |
| WebSocketLaws.FrameRoundTrip | internal/protocol/websocket/runner.go:310-399 | any frame written, masked or not and followed by anything, reads back as itself with its opcode cut to four bits, unless it is over the reader's limit, which the writer does not check |
| WebSocketLaws.ReadBackAll | internal/protocol/websocket/runner.go:310-399 | reading a list of written frames yields the frames before the first oversized one, that error or the end of input, and the unread bytes from that frame on |
| WebSocketLaws.RoundTrip | internal/protocol/websocket/runner.go:310-399 | a list of frames reads back as itself, up to the end of input with no byte left unread, if and only if no payload is over 10 MiB |
| WebSocketLaws.MinimalLength | internal/protocol/websocket/runner.go:314-327 | no length field that reads as n is shorter than the one written for n (section 5.2 of RFC 6455) |
| WebSocketLaws.Truncated | internal/protocol/websocket/runner.go:347-389 | a frame cut short by the end of input reads as a clean end if and only if the cut falls between two fields, elsewhere as an unexpected end; cut by a connection error, it reads as that error |
| WebSocketRunner.Receive | internal/protocol/websocket/runner.go:90-178 | the run reports exactly the frames up to the first close, end of input, error or failing pong: bytes, words of the text frames, timing, success; pings are answered with their payloads, as far as the connection takes them |
| WebSocketRunner.ConversationOf | internal/protocol/websocket/runner.go:101-154 | whatever follows them and however the input ends, a peer's frames are counted up to the first close or the first ping whose pong does not get through, and all of them if there is neither |
| WebSocketRunner.BrokenStream | internal/protocol/websocket/runner.go:101-154 | a stream that breaks off inside a frame is reported as success if and only if the pongs before got through and either the input ended between two fields or the connection failed with an error that mentions a close |
| WebSocketRunner.OversizedBreaks | internal/protocol/websocket/runner.go:103-116 | a frame over 10 MiB breaks the conversation off with that error, after the frames before it |
| WebSocketRunner.TextSession | internal/protocol/websocket/runner.go:90-178 | a server that sends texts and a close: a success with all their bytes, their words as tokens and the times of all the frames |
| WebSocketRunner.BrokenSession | internal/protocol/websocket/runner.go:103-147 | any other ending is an aborted failure with its bytes and its latency and no tokens |
| Streaming.GapsSum | internal/protocol/httpstream/runner.go:127-138 | gaps are one fewer than chunks and sum to last minus first |
| Streaming.GapAt | internal/protocol/httpstream/runner.go:127-138 | gap i is the time from chunk i to the next |
| Streaming.TimeAccounting | internal/protocol/httpstream/runner.go:198-207 | with a monotone clock: gaps sum to the generation time, and TTFT plus generation time is within the latency by exactly the wait after the last chunk |
| SseLaws.StreamAccounting | internal/protocol/httpstream/runner.go:199-207 | the same for the line and event loops if the first counted chunk came after the start; if not, exactly if the response headers' values fit |
| JsonWalk.DetectDone | internal/protocol/httpstream/runner.go:343-375 | true if and only if some node at some depth has a qualifying entry, in whatever order the keys come |
| JsonSignals.DoneFlag | internal/protocol/httpstream/runner.go:348-352 | {"done": true} ends a stream, {"done": false} and every other scalar there do not |
| JsonSignals.FinishReason | internal/protocol/httpstream/runner.go:353-357 | a finish or stop reason ends it if and only if it is text that is not blank |
| JsonSignals.EventMarker | internal/protocol/httpstream/runner.go:358-362 | an event entry ends it if and only if it is the marker up to case |
| JsonSignals.OtherKeys | internal/protocol/httpstream/runner.go:343-375 | no scalar under any other key does |
| JsonSignals.KeyCase | internal/protocol/httpstream/runner.go:347-348 | the done key counts in any case |
| JsonWalk.CollectPreferredText | internal/protocol/httpstream/runner.go:296-314 | appends one text for each path that ends in a preferred key with a non-blank string, and nothing else |
| JsonSignals.TextEntry | internal/protocol/httpstream/runner.go:296-314 | an entry is a text if and only if its key, in any case, is preferred and it holds a string that is not blank |
| JsonWalk.CollectPreferredTokens | internal/protocol/httpstream/runner.go:316-341 | the count is a number under a preferred key, truncated, or 0; if all such numbers are positive it is positive exactly if there is one, whatever the key order |
| JsonSignals.TokenEntry | internal/protocol/httpstream/runner.go:316-341 | a preferred number of at least 1 in a flat chunk counts as its whole part |
| JsonSignals.TruncatedIs | internal/protocol/httpstream/runner.go:316-341 | numbers are cut toward zero |
| JsonWalk.NormalizeKeys | internal/protocol/httpstream/runner.go:288-294 | the set of lower-cased keys |
| JsonWalk.OrderIrrelevant | internal/protocol/httpstream/runner.go:296-314 | two walks of one tree, in any key orders, collect the same texts equally often and their joined texts have equal word counts |
| Text.JoinWords | internal/protocol/httpstream/runner.go:268-268 | the words of the space-joined text are the sum of the words of its pieces |
| TextLaws.WordCountIs | internal/protocol/httpstream/runner.go:208-211 | the word count of any text is the length of the list of its maximal runs without white space, given by position |
| TextLaws.WordsBack | internal/protocol/httpstream/runner.go:208-211 | words joined by spaces count as many as there are |
| TextLaws.TrimIs | internal/protocol/httpstream/runner.go:236-236 | trimming takes white space off both ends, all of it, and nothing else |
| TextLaws.SpaceIs | internal/protocol/httpstream/runner.go:236-236 | white space is the six characters of ASCII |
| TextLaws.LowerIs | internal/protocol/httpstream/runner.go:347-347 | lower case moves the capital letters and nothing else |
| Sse.ExtractChunk | internal/protocol/httpstream/runner.go:249-272 | a payload is the done marker, plain text, or a tree with its preferred texts, a token count and its done flag |
| Sse.ExtractSSEChunk | internal/protocol/httpstream/runner.go:230-247 | an event ends the stream if a data line is the marker; otherwise its data values, concatenated, are the payload |
| SseRendering.PayloadIs | internal/protocol/httpstream/runner.go:230-243 | an event of any number of data lines among other lines has the payload of its values run together, without the white space around them, and is a done marker exactly if one of them is |
| SseRendering.EventMeans | internal/protocol/httpstream/runner.go:230-272 | an event in terms of its data values: done marker, nothing, plain text, or the texts, tokens and done flag of the decoded tree |
| Sse.FoldEvents | internal/protocol/httpstream/runner.go:115-159 | the line loop extracts every event of the body and counts every byte, ending at the end or at a read failure |
| Sse.ConsumeSSE | internal/protocol/httpstream/runner.go:95-222 | the report for an event stream: bytes, timing, tokens counted, declared or estimated in that order, aborted unless some event said done |
| SseRendering.TokenSources | internal/protocol/httpstream/runner.go:180-222 | tokens are those the chunks counted, or else the header's, or else the words, or else the late header's |
| SseRendering.TimeSources | internal/protocol/httpstream/runner.go:180-222 | times are measured from the start to the first counted chunk and on to the last; without one they are the header's |
| SseRendering.ReportFigures | internal/protocol/httpstream/runner.go:195-222 | aborted if a header says so or the stream did not end as it should; estimated exactly if nothing was counted or declared and some chunk has words |
| Sse.FoldLines | internal/protocol/httpstream/runner.go:160-193 | the line formats extract every non-blank line and count every byte |
| Sse.ConsumeLines | internal/protocol/httpstream/runner.go:160-222 | the report for a line format: reaching the end counts as done |
| SseRendering.LinesFormatBack | internal/protocol/httpstream/runner.go:160-193 | a body of padded lines with either line ending yields the text of each line that has one |
| Sse.TextWords | internal/protocol/httpstream/runner.go:201-211 | the estimate over the collected text is the sum over the chunks |
| SseLaws.EventsAreRuns | internal/protocol/httpstream/runner.go:115-159 | the processed events are exactly the maximal runs of non-blank lines that a blank line follows, in order; a final run without one is dropped |
| SseLaws.SplitAtBlank | internal/protocol/httpstream/runner.go:115-159 | after a blank line the rest is parsed as if it stood alone |
| SseLaws.SplitExactly | internal/protocol/httpstream/runner.go:115-159 | parsing distributes over concatenation for every continuation if and only if the first part ends with a blank line or is empty |
| SseLaws.RenderRoundTrip | cmd/mockserver/main.go:87-93 | reading a rendered list of payloads gives one event for each, with that payload |
| SseRendering.EventsBack | internal/protocol/httpstream/runner.go:115-159 | events of any lines, with either line ending, are read back line by line |
| SseRendering.StreamBack | internal/protocol/httpstream/runner.go:115-159 | so each event read from a written body has the values of its own data lines run together as its payload |
| SseLaws.ChunkDetermined | internal/protocol/httpstream/runner.go:230-272 | two readings of one event agree on done, on being timed and on the number of words, whatever order the keys came in |
| RetestCommand.BuildRetestCommand | internal/output/agent.go:178-291 | the builder holds exactly the rendered argument list of the settings |
| Shell.ArgsBack | internal/output/agent.go:178-291 | safe arguments, bare or quoted, are read back by a POSIX shell word for word |
| Shell.QuotingRoundTrip | internal/output/agent.go:293-295 | any list of strings, each escaped and in quotes, is read back as that list |
| Shell.SpecialIs | internal/output/agent.go:293-295 | the characters besides blanks, quotes and backslash that stop the shell model (section 2.2 of the Shell Command Language) |
| ShellExact.LoadBound | internal/output/agent.go:293-295 | no way of reading a rendered line yields more characters and words than its tokens allow |
| ShellExact.ArgsExact | internal/output/agent.go:178-291 | a command line is read back as the arguments it was rendered from if and only if all of them are safe |
| ShellExact.PiecesExact | internal/output/agent.go:188-195 | a quoted argument of escaped and unescaped pieces, such as the headers, is read back if and only if no unescaped piece has a quote |
| ShellExact.RawQuoteExact | internal/output/agent.go:246-255 | text put in quotes unescaped is read back as itself if and only if it contains no quote |
| RetestCommand.StreamKeysEqual | internal/output/agent.go:297-307 | true if and only if the lists agree key by key up to case |
| RetestCommand.SettingsExact | internal/output/agent.go:178-291 | the arguments are safe if and only if the settings are: bare words plain, header names and written key lists without a quote |
| RetestCommand.CommandExact | internal/output/agent.go:178-291 | the printed command hands the program exactly its arguments if and only if the settings are safe in that sense |
| RetestReading.CommandRead | internal/cli/parse.go:46-82 | for safe settings the program, started by the shell, reads its flags from the printed command, each once and no others |
| RetestReading.TargetRead | internal/output/agent.go:180-213 | URL, method, headers, body and payload sources come back under their flags, exactly if given |
| RetestReading.ProtocolRead | internal/output/agent.go:214-234 | so do protocol, service, method, TLS, token field and subprotocol |
| RetestReading.StreamRead | internal/output/agent.go:235-256 | so do the stream settings, the key lists exactly if they differ from the standard ones by more than case |
| RetestReading.LimitRead | internal/output/agent.go:257-269 | so do price, concurrency, duration, requests and timeout |
| RetestReading.ReportRead | internal/output/agent.go:270-289 | so do output, agent context, metrics port, rate and ramp-up |
| RetestReading.KeysBack | internal/output/agent.go:246-255 | a written key list splits at its commas into its keys if none has a comma |
| RetestReading.ShortenedIs | internal/output/agent.go:197-204 | a body of at most 4000 characters stays, a longer one is cut to 4000 that end in three dots |

## Left out

- Transport: HTTP, TLS, gRPC, dialling and the WebSocket upgrade handshake.
- Authentication of jobs and of the master's interface.
- Dashboard, live broadcast, console, JSON, Prometheus and Markdown output: formatting.
- Command-line flags, configuration files and validation: each claim is settled by one branch.
- IEEE rounding of 1.25^k, of quantile ranks and of rates: reals are used instead.
- 64-bit overflow of counters and durations: integers are unbounded.
- Durations as formatted text.
- JSON encoding between master and worker: taken as lossless on the snapshot fields.
- JSON decoding of a chunk is a parameter of `Sse.Settings`.
- `JsonWalk.CollectPreferredTokens`: which of several preferred numbers is found depends on map order, so no single value is stated.
- Payload choice and observers in the engine. Cancellation stands for the deadline, the cancel request and a lost connection alike.
- Real timers and sleeping: a sleep ends in a step of its own; `Duration` is a cancellation.
- The master's refusal of an empty worker list, its health checks of workers, and the pauses between dispatch attempts.
- Refused submissions and refused cancellations are not steps of the job server: they change nothing.
- Health and status answers of a worker.
- `WorkerSlots.Worker.Shutdown`: collecting the handles and calling them is one method here; the step system has a step for each call.
- A failing random source for WebSocket masks. Of an error's text only whether it mentions a close is kept.
- White space, lower case and case folding beyond ASCII.
- `RetestCommand.BuildRetestCommand`: printed numbers and durations are given; text is a sequence of characters, so the cut of long bodies is by characters; headers come as a list in the order the map yields them.
- `RetestReading.ReadFlags` reads flags the way the program's flag parser does; its early scan for `--config` and the checks of the values are not modelled.
- The shell model stops at any unquoted character that has, somewhere, a meaning of its own, instead of expanding it; a few bare words that a shell passes on, such as `a=b`, therefore do not count as plain.
- `Collectors.Collector.Summarize`: leaves out the copies of durations formatted as text; rates are reals, not floats.
- `JobQueues.JobQueue.TryDequeue`: is the locked scan only; the wait on the wake-up channel around it is the dispatcher's `Parked` state in the step system.
- `Distributed.Dispatch`: what each attempt would give, and whether the context is done after it, are inputs, because both are I/O; `Reports.Possible` says what a worker can answer.
- Of a job's configuration only what shapes scheduling is checked in `Distributed.Accepted`; the other checks do not depend on the shard.
