# SentinelFlow: models and proofs

SentinelFlow runs monitoring checks: it fetches a payload for each check, evaluates it, and
sends alerts to handlers, with limits on concurrency, circuit breakers, deduplication of
alerts, statistics, and a daemon that repeats all of this at a fixed interval. This project
models the stateful and the arithmetic parts of it in Dafny and proves what they promise over
whole runs. `dafny verify dfyconfig.toml` checks everything.

| file | models | about |
|---|---|---|
| Resilience | runtime/resilience.py, the breaker | locked sections as atomic steps, calls interleaving freely; the three-state machine refines a memoryless rule |
| LoadBound | breaker under the limiter | how many calls reach a dead dependency, and that the bound is attained |
| DispatchBreaker | resilience/circuit_breaker.py | the second breaker, and exactly when it decides like the first |
| SlackDispatch | src/handlers/slack.py, src/utils/retry.py | a bounded retry loop against that breaker |
| AlertDedupe, DedupeTheorems | src/core/policies.py | suppression, purging, conservation of counts, optimality, non-interference |
| Batch, BatchTheorems, TaskOutcomes | src/engine/executor.py | the batch as a step system over permits, breakers, counters, history and policy; what becomes of each task, and who hears of it |
| Limiter, ExecutorSteps, Executor | runtime/resilience.py, src/engine/executor.py | the same as objects whose methods update their fields; every call of `Resume` is a step of `Batch` |
| History, BoundedDeque | src/core/history.py | per-check ring buffers |
| Daemon | src/engine/scheduler.py | start times of the drift-controlled loop |
| ZScore, Detector, Ewma | analytics/ | sharp sample-size bound, streaming equals batch, closed forms |
| JsonPath | src/data/ingestors/http_api.py | dotted-path lookup |
| Traces, Wrappers, RealArithmetic | | shared helpers |

Time is a `real` that is passed in; where a theorem needs the clock not to run backwards, it
says so. Floats are `real`. A run is a list of events with the latest one outermost. What the
environment decides (what a fetch or an evaluator yields, how a post ends, when a timeout or a
cancellation strikes, how long a batch takes) is part of the event, so the theorems hold for
every behaviour of the environment.

## Where the code and its descriptions differ

The model follows the code.

* `cooldown_seconds` is accepted and never read (src/core/policies.py:28), although the class
  and the README.md:107 of the repository speak of cooldowns; only the dedupe window suppresses.
* `AlertEvent` is frozen (src/models/entities.py:41), so appending the count of suppressed
  alerts to its message (src/core/policies.py:49) raises. `FrozenEventsRaise` says exactly when,
  and that the count and the dispatch are then lost; `FrozenEventsLoseDispatches` has a run.
  Deduplication is optimal only up to these raises, and at every point of a run if and only if
  there are none (`OptimalUnlessUnmentionable`). `DecisionFails` and `FrozenAlertFailsItsCheck`
  say what a raise does to the check: it fails, although it could fetch, evaluate and dispatch.
* HALF_OPEN admits any number of calls in both breakers, although a comment in
  resilience/circuit_breaker.py:38 thinks of one request.
* At the very end of the timeout the first breaker still refuses (`>`, runtime/resilience.py:30)
  and the second one admits (`>=`, resilience/circuit_breaker.py:33). `BreakersAgree`: that is the only
  difference in their decisions.
* A call that its breaker refuses is neither started nor skipped: it touches no counter and no
  history. The status "skipped" (src/engine/executor.py:250) needs a circuit that is open
  further down, and then counts as a success for the breaker of the check.
* A timeout that the pipeline itself raises is counted and recorded twice, as failed and as
  timed out. The ledger law is stated so that it holds for this as well.
* A Slack dispatch whose retries open the breaker returns normally, with the alert lost.
  `RetryMeetsBreaker` gives the exact condition, `SlackDropsSilently` the configured numbers.
* A lookup of the root or of a child of the root under the empty key finds nothing: the path is
  empty. `AddressesAreFound` states these as the only exceptions.

## Model

| member | source | states |
|---|---|---|
| Resilience.ReachableStates | runtime/resilience.py:16-52 | in every interleaving of enter, success, failure and cancellation: CLOSED exactly while fewer failures than the threshold have completed since the last success; outside CLOSED the stored time is that of the latest failure; HALF_OPEN exactly when a late enough entry came since the latest completion |
| Resilience.AdmissionIsMemoryless | runtime/resilience.py:26-52 | an entry is rejected exactly when at least the threshold of failures completed since the last success and the latest failure is at most the reset timeout ago; HALF_OPEN never changes an admission |
| Resilience.CancellationIsInvisible | runtime/resilience.py:35-52 | dropping all cancelled calls from a run leaves the breaker in the same state |
| Resilience.CircuitBreaker.constructor | runtime/resilience.py:17-24 | a new breaker is at the start of its run |
| Resilience.CircuitBreaker.Admit | runtime/resilience.py:26-33 | admits unless the memoryless rule refuses, moves OPEN to HALF_OPEN only when admitting, and changes nothing when it refuses |
| Resilience.CircuitBreaker.Finish | runtime/resilience.py:35-52 | failure, success and cancellation each do what the run semantics says; afterwards CLOSED means fewer failures than the threshold |
| LoadBound.LoadUnderTotalFailure | runtime/resilience.py:26-73 | in any run with at most m calls in flight: since the latest success, admissions (the calls then in flight included) are at most threshold + m - 1 + m times the half-open episodes (plus cancelled calls), and the episodes times the reset timeout are less than the time since the opening |
| LoadBound.LoadBoundIsSharp | runtime/resilience.py:26-73 | for every threshold, m, timeout and number of episodes some legal run attains the bound exactly |
| LoadBound.TalliesAreGhost | runtime/resilience.py:26-73 | the counted system runs the breaker unchanged |
| DispatchBreaker.ReachableStates | resilience/circuit_breaker.py:25-58 | the counter is the number of failures since the last success, CLOSED exactly below the threshold, the time is that of the latest failure or none |
| DispatchBreaker.AdmissionIsMemoryless | resilience/circuit_breaker.py:25-42 | refuses exactly when tripped and the latest failure is less than the timeout ago |
| DispatchBreaker.DecisionsAgreeOffBoundary | resilience/circuit_breaker.py:33 | after any common history the two breakers decide alike if and only if the entry is not exactly at the end of the timeout of a tripped circuit; there the first refuses and the second admits |
| DispatchBreaker.BreakersAgree | resilience/circuit_breaker.py:25-58 | the same decision at every entry of a run if and only if no entry falls on the boundary |
| DispatchBreaker.StatesAgree | resilience/circuit_breaker.py:25-58 | without boundary entries: same circuit state, same failure time outside CLOSED, same counter while CLOSED, and the first counter never ahead |
| DispatchBreaker.CircuitBreaker.constructor | resilience/circuit_breaker.py:15-23 | a new breaker is at the start of its run |
| DispatchBreaker.CircuitBreaker.AllowRequest | resilience/circuit_breaker.py:25-42 | allows exactly what the memoryless rule allows |
| DispatchBreaker.CircuitBreaker.RecordSuccess | resilience/circuit_breaker.py:44-48 | closes the circuit and forgets the failures |
| DispatchBreaker.CircuitBreaker.RecordFailure | resilience/circuit_breaker.py:50-58 | counts every failure, opens from CLOSED at the threshold and from HALF_OPEN always |
| SlackDispatch.SlackHandler.constructor | src/handlers/slack.py:21-24 | the breaker of the handler opens at 3 failures for 30 seconds |
| SlackDispatch.SlackHandler.Dispatch | src/handlers/slack.py:79-140 | the retry loop around the breaker-protected post has the specified outcome, number of posts and breaker state, for every behaviour of the network |
| SlackDispatch.FirstUnretriedDecides | src/handlers/slack.py:79-140 | for every world: the first attempt that is turned away or does not meet a client error ends the dispatch; a delivery leaves the breaker as new, a missing webhook makes no post, neither it nor a foreign exception is counted or retried |
| SlackDispatch.DeliveryResets | src/handlers/slack.py:131-138 | the dispatch is sent if and only if its decisive attempt is an admitted delivery; then the breaker is closed without failures, otherwise its counter has grown by exactly the client errors before |
| SlackDispatch.ClientErrorsAreCounted | src/handlers/slack.py:137-140 | each client error adds one failure and its time |
| SlackDispatch.ConfiguredWaits | src/utils/retry.py:32-50 | the waits between three attempts are one to 1.2 and two to 2.4 seconds |
| SlackDispatch.WaitsDouble | src/utils/retry.py:32-44 | the base wait doubles up to the cap and never exceeds it |
| SlackDispatch.PostsUnderTotalFailure | src/handlers/slack.py:79-140 | when every post fails with a client error: posts stop at the first attempt past the tolerated failures that follows its predecessor within the timeout, there the dispatch returns normally; otherwise all attempts post and it raises |
| SlackDispatch.RetryMeetsBreaker | src/utils/retry.py:47-71 | with A attempts, f prior failures and threshold N, and each pause below the timeout: exactly min(A, N - f) posts, and it raises if and only if A is at most N - f |
| SlackDispatch.SlackDropsSilently | src/utils/retry.py:32-50 | with three attempts and the configured waits, a failing Slack raises only from a clean counter; with earlier failures the alert is dropped without an exception |
| SlackDispatch.RunsAreReachable | resilience/circuit_breaker.py:25-58 | the state condition of the Slack theorems holds after every run of the breaker |
| AlertDedupe.AlertPolicy.constructor | src/core/policies.py:10-13 | starts with three empty dictionaries |
| AlertDedupe.AlertPolicy.ShouldDispatch | src/core/policies.py:23-52 | suppresses inside the window, else dispatches with the pending count, or raises on a frozen message; all three dictionaries follow the run |
| AlertDedupe.AlertPolicy.PurgeOldState | src/core/policies.py:54-64 | of both dictionaries exactly the entries at most the maximal age old remain, with their values, and the counts stay |
| AlertDedupe.DropOld | src/core/policies.py:57-64 | the loop over a copy of the keys, deleting on the way, keeps exactly the entries at most the maximal age old, with their values |
| AlertDedupe.DispatchedIsSeen | src/core/policies.py:37-64 | in every run with purges, every dispatched key has a last-seen entry no older than its dispatch |
| AlertDedupe.SuppressionsAreConserved | src/core/policies.py:39-52 | per fingerprint: alerts suppressed = counts reported on dispatches + pending count + counts lost on messages that cannot be assigned; nothing is lost if all can |
| DedupeTheorems.PurgingIsInvisible | src/core/policies.py:54-64 | purges anywhere in a run change no verdict and no reported count, if each keeps at least the windows in use |
| DedupeTheorems.ShortPurgesShow | src/core/policies.py:54-64 | for any maximal age below the window there is a run in which the purge lets a duplicate through |
| DedupeTheorems.FingerprintIsInjective | src/core/policies.py:15-21 | colon-free evaluator types and severities make the fingerprint injective, whatever the metric ids |
| DedupeTheorems.ColonsCollide | src/core/policies.py:15-21 | a colon in either always yields another triple with the same fingerprint |
| DedupeTheorems.NonInterference | src/core/policies.py:15-52 | the verdicts on one triple equal those in the run filtered to that triple |
| DedupeTheorems.PendingSinceSuppressed | src/core/policies.py:39-47 | suppressed alerts are pending exactly while the latest alert of the fingerprint was suppressed, whatever the purges |
| DedupeTheorems.SeenIsLatest | src/core/policies.py:39 | a last-seen entry is the time of the latest alert of its fingerprint, dispatched or not |
| DedupeTheorems.UnseenIsOld | src/core/policies.py:57-60 | where there is no last-seen entry, the latest alert is older than every purge keeps |
| DedupeTheorems.FrozenEventsRaise | src/core/policies.py:47-51 | over the trace: raises exactly for a frozen event at least its window after the latest dispatch, when the latest alert of its fingerprint was suppressed; then no dispatch is recorded, the count is gone and the next alert goes out without mentioning it |
| DedupeTheorems.FrozenEventsLoseDispatches | src/core/policies.py:47-51 | for every source and window, a run that raises: three frozen alerts of which one is dispatched although two are a window apart, so that optimality fails by exactly the one raise |
| DedupeTheorems.DispatchesAreGreedy | src/core/policies.py:37-52 | without raises the dispatch times of a fingerprint are the greedy selection of its alert times, whatever the other traffic and the purges that keep the window |
| DedupeTheorems.GreedyStaysAhead | src/core/policies.py:37-52 | no choice of times at least d apart is larger than the greedy one, and one of the same size ends no earlier |
| DedupeTheorems.DispatchesStayApart | src/core/policies.py:41-45 | for every kind of message: dispatches of a fingerprint are pairwise at least d apart if its windows are at least d and purges keep d |
| DedupeTheorems.DispatchesStayAhead | src/core/policies.py:37-52 | for every kind of message and any purges: with windows of at most d, a choice of alerts d apart is larger than the dispatches by at most the number of raises, and ends no earlier where it attains this |
| DedupeTheorems.DedupeIsOptimal | src/core/policies.py:37-52 | for every kind of message: dispatches are pairwise at least the window apart, and no other choice of the alerts so far apart is larger, except by the number of alerts on which the method raised |
| DedupeTheorems.RaiseIsNotOptimal | src/core/policies.py:47-51 | a run that ends in a raise is not optimal: the alert could have been chosen in addition |
| DedupeTheorems.OptimalUnlessUnmentionable | src/core/policies.py:37-52 | the dispatches are an optimal choice at every point of a run if and only if no frozen event came first after suppressed ones with the window over |
| DedupeTheorems.SuppressedExactlyInWindow | src/core/policies.py:41-45 | an alert is suppressed if and only if the latest dispatch of its fingerprint is less than its window before it, whatever the messages and the windows of other alerts |
| BatchTheorems.BooksBalance | src/engine/executor.py:122-285 | at every point of every run each counter, gauge, number of history entries and the free slots have grown by exactly what the program points of the tasks account for |
| BatchTheorems.LedgerIsConserved | src/engine/executor.py:122-285 | per check, at every point of every run from a state in which it holds, such as that of a new executor: started = passed + alerted + failed + skipped + cancelled + in flight; successful history entries = passed + alerted; the others = failed + skipped + timeout |
| BatchTheorems.BalanceIsConserved | src/engine/executor.py:122-285 | so all ledgers balance throughout; `Executor.Valid` carries this from the constructor through every `Resume` and `StartBatch` |
| BatchTheorems.RunsAreSound | src/engine/executor.py:107-310 | in every run permits plus running tasks equal each limit, every breaker is where its own calls have taken it, every task past the global semaphore has a limiter, and the policy is where its alerts have taken it |
| BatchTheorems.ConcurrencyIsBounded | src/engine/executor.py:300-302 | free slots plus holders equal the concurrency limit, permits plus running calls of a check equal its limit, none ever negative, and the gauge shows exactly the running calls |
| BatchTheorems.RejectedExactly | runtime/resilience.py:68-73 | a task is turned away exactly when the breaker of its check is enabled and the memoryless rule refuses the calls so far |
| BatchTheorems.FirstConfigurationWins | runtime/resilience.py:80-98 | a check id has a limiter if and only if it had one before or a task has asked for it, and its limits are the old ones or those of the first task that asked |
| BatchTheorems.EvaluationIsAllOrNothing | src/engine/executor.py:151-167 | the first exception of an evaluator decides; without one all alerts are kept, in order |
| BatchTheorems.AlertsStayApart | src/engine/executor.py:193-204 | however tasks interleave, and with the frozen events that evaluators produce: alerts of a fingerprint go out at least d apart if its windows are at least d, and any other choice so far apart is larger by at most the number of raises if they are at most d |
| BatchTheorems.DecisionFails | src/engine/executor.py:193-224 | a policy decision ends the check as failed, with its count, its history entry and the failure told to its breaker, exactly when the window is over since the latest dispatch and its handlers are missing or the event is frozen and the latest alert was suppressed; otherwise the check goes on |
| BatchTheorems.FrozenAlertFailsItsCheck | src/engine/executor.py:193-267 | for every source and window there is a batch in which a check fails only because a frozen alert cannot mention a suppressed one |
| TaskOutcomes.AfterSemaphores | src/engine/executor.py:300-302 | past the global semaphore a task queues for its check; past that one it fetches, unless its enabled breaker refuses by the memoryless rule, and then it is rejected |
| TaskOutcomes.AfterFetching | src/engine/executor.py:145-176 | skipped, timed out or failed exactly by the kind of the first exception; without one passed if and only if there are no alerts, otherwise on to deciding all of them |
| TaskOutcomes.AfterDeciding | src/engine/executor.py:193-226 | in every run: an alert goes to the handlers if and only if the policy dispatches it and they are found, is passed over if and only if it is suppressed, and fails the check otherwise |
| TaskOutcomes.AfterTheRest | src/engine/executor.py:226-285 | handlers return to all remaining decisions; alerted only when none is left; timeouts and cancellations end a task as started or not; no other task moves |
| TaskOutcomes.EveryAlertIsDecided | src/engine/executor.py:193-240 | in every run: a task that ends alerted has put exactly the alerts of its evaluators to the policy, once each and in order; while it decides, those put and those to come are all of them; a passed one had none |
| TaskOutcomes.HandlersGetDispatches | src/engine/executor.py:193-226 | in every run: exactly the alerts the policy dispatches reach the handlers, in order; only a failed check may have lost its last one |
| TaskOutcomes.StepAsks | src/engine/executor.py:193-201 | the policy is asked only by decisions, about the next alert of the task, with the window of its check and the time of the step |
| TaskOutcomes.EndingsAreRecorded | src/engine/executor.py:172-285 | every step adds the history entries of the ending it leads to, with the duration of the right stopwatch, and no others |
| TaskOutcomes.BreakersHearStep | runtime/resilience.py:35-52 | every step tells the enabled breaker of its check how the call entered or ended, and no other breaker anything |
| TaskOutcomes.BreakersHearAll | runtime/resilience.py:26-73 | in every run: an enabled breaker has heard exactly the entries and endings of the calls of its check, a success for passed, alerted and skipped, a failure for failed, a cancellation for timed out and aborted |
| TaskOutcomes.RejectedByOutcomes | runtime/resilience.py:26-73 | a task is rejected if and only if its breaker is enabled and the memoryless rule refuses what has become of the calls of its check |
| BatchTheorems.RunsAreShort | src/engine/executor.py:304-310 | no run is longer than five steps for each task plus two for each of its evaluators |
| BatchTheorems.StepsBurnFuel | src/engine/executor.py:107-285 | a numeric measure of the task falls on every step |
| BatchTheorems.NeverStuck | src/engine/executor.py:300-310 | with positive limits, as long as a task is unfinished some step is enabled that is neither a timeout nor a cancellation |
| BatchTheorems.DrainedIsReady | src/engine/executor.py:287-310 | when all tasks are done, all permits are back, nothing is in flight, and the executor is ready for any next batch |
| Limiter.CheckResilience.constructor | runtime/resilience.py:54-66 | a new limiter has all its permits and a new breaker |
| Limiter.CheckResilience.Enter | runtime/resilience.py:68-73 | takes a permit and asks the breaker if enabled, which hears of the entry; admits unless an enabled breaker refuses; a refusal gives the permit back |
| Limiter.CheckResilience.Leave | runtime/resilience.py:68-73 | the breaker, if enabled, hears exactly the outcome of the call, and the permit is given back |
| Limiter.ResilienceManager.ForCheck | runtime/resilience.py:80-98 | returns the one limiter of the id, created with all its permits on first request from that request's limits, and nothing else changes |
| Limiter.ResilienceManager.OthersUnchanged | runtime/resilience.py:75-98 | touching the limiter of one id changes the view of that id and of no other |
| Limiter.ResilienceManager.Enter | runtime/resilience.py:68-73 | entering one check changes its slot and no other |
| Limiter.ResilienceManager.Leave | runtime/resilience.py:68-73 | leaving one check changes its slot and no other |
| ExecutorSteps.CodeMatchesStep | src/engine/executor.py:107-285 | what the statements do between two suspension points, in every branch, is the step of the step system |
| ExecutorSteps.RunGoesOn | src/engine/executor.py:107-310 | after any run, one more stretch of code is one more step of the run, and all ledgers still balance |
| ExecutorSteps.NextBatch | src/engine/executor.py:287-310 | a drained batch leaves a state from which any next batch may run, with all permits and balanced ledgers |
| Executor.Evaluate | src/engine/executor.py:151-167 | the loop over the evaluators collects what the specification collects, stopping at the first exception |
| Executor.Executor.constructor | src/engine/executor.py:26-37 | starts between batches, with balanced ledgers, no counters, no gauge, and an empty history of size 100 |
| Executor.Executor.TakeSlot | src/engine/executor.py:300-302 | a waiting task takes a global slot and gets hold of its limiter |
| Executor.Executor.EnterCheck | src/engine/executor.py:122-126 | an admitted call counts as started and in flight; a refused one leaves both semaphores without a trace in the counters |
| Executor.Executor.FetchReturned | src/engine/executor.py:145-176 | evaluation, then passed, or on to the policy, or the exception branch |
| Executor.Executor.DecideOn | src/engine/executor.py:193-224 | suppressed alerts are skipped, dispatched ones go to the handlers, exceptions end the check |
| Executor.Executor.Raise | src/engine/executor.py:247-267 | skipped, failed, or failed and timed out, each with its entries, outcome for the breaker and release of permits |
| Executor.Executor.Succeed | src/engine/executor.py:235-240 | one successful entry, one count, a success for the breaker, both semaphores released |
| Executor.Executor.Cancel | src/engine/executor.py:242-245 | what a cancellation does to a task that waits, is queued, or runs |
| Executor.Executor.Expire | src/engine/executor.py:277-285 | a timeout cancels the task and adds one failed entry and one timeout |
| Executor.Executor.Resume | src/engine/executor.py:107-310 | every enabled step of any task keeps the object exactly in the state that the run so far leads to, with balanced ledgers, so all theorems about runs hold of it |
| Executor.Executor.StartBatch | src/engine/executor.py:287-310 | a drained executor starts any next batch with all permits, keeping limiters, counters, history and policy |
| History.ExecutionHistory.constructor | src/core/history.py:6-9 | starts empty |
| History.ExecutionHistory.AddResult | src/core/history.py:11-18 | the new result is last in the buffer of its check, every buffer keeps holding the latest results, and no other buffer changes |
| History.ExecutionHistory.GetRecent | src/core/history.py:20-24 | exactly the last results of that check, `max_size` of them or all if there are fewer, in order; empty for an unknown check |
| History.ResultsAreAll | src/core/history.py:11-18 | the results of a check are all that was added for it, successful or not, and nothing else |
| History.AddedKeeps | src/core/history.py:11-18 | adding a result extends the buffer of its check and leaves every other buffer correct |
| BoundedDeque.Latest | src/core/history.py:14 | the last n elements in order, or all if there are fewer |
| BoundedDeque.PushKeepsNewest | src/core/history.py:14-18 | an append to a bounded deque keeps the new element last and drops only the oldest |
| BoundedDeque.PushKeepsLatest | src/core/history.py:14-18 | a bounded deque holds the latest elements of everything ever appended |
| Daemon.Scheduler.constructor | src/engine/scheduler.py:21-23 | not running |
| Daemon.Scheduler.RunDaemon | src/engine/scheduler.py:29-68 | the loop starts its cycles at the times of the recursion, for every sequence of durations and wake-up delays |
| Daemon.ClosedForm | src/engine/scheduler.py:38-63 | the start of cycle k is the maximum over j <= k of grid point j plus all work since, and some j attains it |
| Daemon.NeverEarly | src/engine/scheduler.py:43-63 | no cycle starts before its grid point |
| Daemon.LatenessStep | src/engine/scheduler.py:43-63 | lateness is a waiting-time recursion |
| Daemon.BacklogDrains | src/engine/scheduler.py:43-63 | once n batches have each left slack s with n * s at least the backlog, starts are on the grid (within the jitter of the event loop) and stay there while batches leave the slack |
| Daemon.DrainTimeIsExact | src/engine/scheduler.py:43-63 | with batches that leave exactly the slack, the lateness after n cycles is exactly the backlog less n slacks, or zero |
| ZScore.SquareFormIsFaithful | analytics/zscore.py:13-17 | comparing squares decides as the quotient by the standard deviation does, for every threshold |
| ZScore.DetectIsQuotient | analytics/zscore.py:3-17 | for the mean and the sample standard deviation of a list: flagged if and only if the z-score of its last value exceeds the threshold |
| ZScore.ConstantListsAreQuiet | analytics/zscore.py:10-11 | equal values are never flagged, for any threshold |
| ZScore.Samuelson | analytics/zscore.py:7-16 | n * (last - mean)^2 is at most (n - 1) times the sum of squared deviations |
| ZScore.FlaggedIsLongEnough | analytics/zscore.py:3-17 | only lists long enough for the threshold are ever flagged |
| ZScore.SpikesAreFlagged | analytics/zscore.py:3-17 | n - 1 equal values followed by a different one are flagged if and only if n is long enough |
| ZScore.DefaultThresholdNeedsEleven | analytics/zscore.py:3-17 | at threshold 3, long enough means at least eleven values |
| ZScore.VerdictIsAffineInvariant | analytics/zscore.py:3-17 | mapping x to a * x + b with a nonzero changes no verdict |
| Detector.StatisticalAnomalyDetector.constructor | analytics/detectors.py:5-7 | an empty window |
| Detector.StatisticalAnomalyDetector.AddValue | analytics/detectors.py:9-11 | the streaming verdict is the batch test on the latest readings of the whole stream; silent for windows or streams of at most ten; an alarm at a spike after ten equal readings or more |
| Detector.ShortWindowsNeverFlag | analytics/detectors.py:4-11 | neither a window of at most ten nor the first ten readings are ever flagged |
| Detector.SpikesAlarm | analytics/detectors.py:4-11 | from eleven readings in the window on, a single reading off a constant signal raises an alarm |
| Detector.VerdictsIgnoreUnits | analytics/detectors.py:4-11 | converting every reading of the stream to another unit or zero point changes no verdict |
| Ewma.ComputeEwma | analytics/ewma.py:1-9 | the loop computes the recursive average, which is the weighted sum, and 0 for no values |
| Ewma.ClosedForm | analytics/ewma.py:1-9 | it is the weighted sum with weights (1-alpha)^(n-1) and alpha * (1-alpha)^(n-1-i) |
| Ewma.WeightsSumToOne | analytics/ewma.py:1-9 | the weights add up to one |
| Ewma.StaysInRange | analytics/ewma.py:1-9 | for alpha in [0, 1] the average lies between any bounds of the values |
| Ewma.Resumes | analytics/ewma.py:1-9 | the average of a list equals the average resumed from that of any non-empty prefix |
| Ewma.FirstValueFades | analytics/ewma.py:1-9 | a change of the first value is damped by exactly (1-alpha)^(n-1) |
| JsonPath.ExtractValue | src/data/ingestors/http_api.py:18-44 | the loop with its early returns is the walk along the keys |
| JsonPath.LookupComposes | src/data/ingestors/http_api.py:26-44 | looking up p + "." + q is looking up q in the lookup of p, for non-empty p and q |
| JsonPath.SplitAppend | src/data/ingestors/http_api.py:26 | splitting at dots distributes over joining by a dot |
| JsonPath.AddressesAreFound | src/data/ingestors/http_api.py:18-44 | every node is found under its address of dot-free keys and decimal indices, except where the path would be empty |
| JsonPath.MissesAreNull | src/data/ingestors/http_api.py:29-44 | after any address that is found: an absent field, an index out of range, text that is no integer under a list, and any key under a scalar yield None, and so does every path that goes on from there |
| JsonPath.NegativeIndicesCountFromTheEnd | src/data/ingestors/http_api.py:35-36 | after any address of a list, a negative index finds the item counted from the end, and None beyond it |
| JsonPath.NumeralsAreInts | src/data/ingestors/http_api.py:35 | a decimal numeral with or without sign and surrounding white space is read as its number |
| JsonPath.OtherTextIsNoInt | src/data/ingestors/http_api.py:35-38 | text with any character but digits, signs, underscores and white space is no integer |
| JsonPath.UnderscoresJoinDigits | src/data/ingestors/http_api.py:35 | a single underscore may join digits, but neither begin nor end a numeral |
| JsonPath.DottedKeysAreMissed | src/data/ingestors/http_api.py:26-32 | for a key with a dot, every path finds the same in an object with that field as in the object without it |
| JsonPath.DecimalIsInt | src/data/ingestors/http_api.py:35 | reading a decimal numeral yields the number |

## Left out

* HTTP sessions, content types, the Slack payload, the SQLite store, the FastAPI app, the admin
  server, the registry, readiness, startup, shutdown, signals and `main`: plumbing. Fetches,
  posts and handlers are part of the events.
* Prometheus and OpenTelemetry: the check counters and the in-flight gauge are modelled as
  exact numbers; alert counters, histograms, last-success times and spans are not, and their
  calls are taken not to raise.
* Configuration parsing, the defaults of `for_check`, of the policy section and of a missing metric id, log messages and exception texts. "Circuit
  is OPEN" in the text of an exception is the constructor `CircuitOpen`. The positivity bounds of
  src/config/parser.py:44-58 appear only as hypotheses of `NeverStuck`.
* Threshold and freshness evaluators: an evaluator yields nothing, an alert or an exception.
* The internals of `asyncio` and tenacity. Semaphores are modelled by their contract, without
  fairness; which task goes on next is arbitrary. A task that is cancelled or times out ends at
  that suspension point: a handler or fetch that swallows the cancellation is not modelled, and
  a batch that is cancelled is one where its tasks are, one by one.
* When a timeout strikes: it may at any suspension point past the global semaphore, so the
  value of `timeout_seconds` does not appear. The delays of the retry policy appear as bounds on
  the pauses between attempts.
* The batch may switch tasks between two decisions of the policy for one check, which the program
  does not; the theorems hold for these additional runs as well.
* The alerts to the Slack handler and the batch are not put together: in a batch, what the
  handlers do is one suspended step without a result, as it is for the program, which only logs it.
* `int()` on Unicode digits and spaces, and its limit on the number of digits. Lookups in values
  that are not JSON.
* IEEE rounding, in the statistics and the clock. The z-score is compared by squares;
  `SquareFormIsFaithful` relates this to the quotient.
* The lock of each object: a section without a suspension point is one step.
