# Chaosmania client: scheduler, time budget, statistics and locks

Chaosmania drives services with a *plan*: phases that run for a while, are repeated, and are ordered by a
*pattern* (sequence, cycle or random). This project models the parts of the client and of its actions in which
state, order and arithmetic matter, and proves what holds of them for all inputs, runs or interleavings.

| part | files | what is proved |
|---|---|---|
| Phase scheduler | `Schedule`, `Traces`, `Runs`, `RandomTraces`, `Executors` | exact traces and iteration counts of the three patterns, completion, which traces Random can produce, what a failing phase does |
| Time budget | `Plans`, `Budget`, `Durations`, `Headers`, `Client`, `Timeline` | the announced total against the timeouts a run spends, clamps, cache, int64 limits and where they are tight, which worker groups get to run |
| Worker statistics | `Attempts`, `PhaseRun`, `PhaseLedger`, `PhaseStatistics`, `PhaseLabels`, `PhaseGroups`, `PhaseTermination`, `PhaseLimits`, `Workers` | conservation against the steps of the run, which groups are started and when they stop, exclusion, joins, absence of deadlock and termination over every interleaving of a phase's goroutines, and a run whose difference wraps |
| Named locks | `Locks`, `LockSafety`, `LockLimits` | mutual exclusion, deadlock freedom and termination over every interleaving, and where they stop |
| Leak limiter, `Convert` | `Leak`, `Convert` | the closed form of what is kept; a tree rewrite that edits slices in place, and is idempotent all the same |

`Options`, `Arithmetic`, `Sequences` and `MachineInts` hold shared definitions. Pure functions are the specification; the
loops, classes and in-place updates of the source are methods proved to refine them (`Executors`, `Durations`,
`Client`, `Timeline`, `Workers`, `LockLimits.Process`, `Leak.AllocateMemory`, `Convert`).

A run of the scheduler depends on two free choices, `verdict` (what the k-th execution of a phase returns) and
`pick` (the random numbers); a run of the phase machine on a sequence of labels; a run of the lock machine on a
schedule and one script per client. Theorems quantify over all of them. Integers are unbounded; where the source
uses int64 or uint64 and the width matters, `Wrap64` and `WrapU64` state the wrap-around.

## What turned out different from what the code says of itself

- `--runtime-duration` is described as being multiplied by the repeats (cmd/chaosmania/main.go:56); the code
  divides one runtime over all executions. The lower bound of 60 s per execution is a wrapping product: it is
  respected exactly when the product fits in an int64 (`Budget.AdjustedIsMaximum`, `Budget.MinimumRuntimeLimitIsTight`),
  and so is the claim that a run falls short of the announced total by the division's remainder only
  (`Client.OverrideGap`).
- Repeats are said to be capped at 500, but the plan's unsigned value is first converted to a signed one: from
  2^63 on it becomes 1 (`Client.PlanRepeatIsCappedExactlyBelowSignBit`). "0 = unlimited" means 500.
- The messages of `Plan.Verify` speak of adjusting durations at runtime; such plans are rejected (`Plans.Verify`).
- Without an override a phase lasts as long as its longest worker group, while its groups run one after another. All
  get their time exactly if each fits into that duration after the groups with instances before it; if every group has
  instances, exactly if there is at most one (`Timeline.WithoutOverrideOnlyOneGroupFits`). Groups without instances pass
  verification and are not waited for (`Timeline.IdleGroupLeavesTime`).
- A plan without phases is accepted and then panics in the loop (`Client.CommandClient`, exit `NoPhasesPanic`).
- The successful requests of a phase are computed as requests minus errors. But a request that fails in transport is
  an error and was never counted as a request, so the result is the number of replies with a status of at most 400
  exactly when no request failed in transport, as long as both numbers are below 2^64
  (`PhaseStatistics.SuccessfulRequestsAreCounted`). One reply and one such failure make it 0; one failure and no reply
  make it 2^64 - 1 (`PhaseStatistics.SuccessfulRequestsWrap`, `PhaseLimits.SuccessfulRequestsCanWrap`).
- Exclusion of the named locks lasts exactly as long as no client unlocks a registered id that it does not hold, for
  any scripts (`LockSafety.GuardedExactlyWithOwnUnlocks`). Such an unlock lets others into the section
  (`LockLimits.ForeignUnlockBreaksExclusion`) or, if the mutex is free, is fatal (`LockLimits.CrashesExactlyOnFreeMutex`).
- A header without a colon, or a plan with a key that is not a string, panics (`Client.CommandClient`).
- `Convert` edits its argument's slices; converting the same settings again still gives an equal result
  (`Convert.ConvertTwice`).

## Model

| member | source | states |
|---|---|---|
| Schedule.UnfinishedMembers | pkg/actions/pattern.go:161-183 | Random's candidates are exactly the phases with executions left; there are none exactly when all are complete |
| Schedule.UnfinishedAscends | pkg/actions/pattern.go:163-170 | The candidates are listed in strictly ascending order, so none is named twice |
| Schedule.UnfinishedCount | pkg/actions/pattern.go:163-174 | There are as many candidates as phases with executions left |
| Schedule.RandomIsFair | pkg/actions/pattern.go:161-183 | With n phases unfinished, Random chooses each for exactly one remainder of the draw modulo n, the number of unfinished phases below it |
| Schedule.CountersAreTraceCounts | cmd/chaosmania/client.go:486-534 | In every reachable state of every pattern, aborted runs included, each counter is the number of times its phase was executed and none exceeds its repeat |
| Schedule.CompleteWhenLongEnough | pkg/actions/pattern.go:100-107 | Completion is reached exactly when every counter equals its repeat, that is after the sum of the repeats many executions |
| Traces.SequenceInvariant | pkg/actions/pattern.go:86-98 | Sequence's trace after t iterations is the first t entries of the phase-major list |
| Traces.SequenceAscends | pkg/actions/pattern.go:86-98 | Sequence's trace is ascending: it never returns to an earlier phase |
| Traces.CycleInvariant | pkg/actions/pattern.go:123-132 | Cycle's trace is the round-major list: at position p of round k every counter is min(repeat, k+1) before p and min(repeat, k) from p on |
| Traces.CycleTakesTurns | pkg/actions/pattern.go:123-146 | In Cycle's trace first executions come before second ones and so on, those of one turn in the order of the phases, and each phase has as many as it repeats |
| Traces.Busiest | cmd/chaosmania/client.go:490-534 | The phase whose last turn ends a cycle: no phase repeats more often, and every later one repeats less often |
| Traces.CycleFinishes | pkg/actions/pattern.go:123-146 | When the executor reports completion, the whole cycle trace has been executed and the iteration is the last of (R-1) n + m + 1, R being the largest repeat and m the last phase having it |
| Runs.IdealRun | cmd/chaosmania/client.go:490-534 | Without errors the loop is running before and completed from its exact number of iterations on, with the pattern's whole trace executed |
| Runs.ErrorsOnlyTruncate | cmd/chaosmania/client.go:518-523 | A run with failing phases is an error-free run cut off right after its first error; deadlines change nothing |
| Runs.RunOutcome | cmd/chaosmania/client.go:486-534 | At any time, for any results of the phases: a prefix of the pattern's trace is executed, it contains no error except a last one, and completion means all of it |
| Runs.TraceGrows | cmd/chaosmania/client.go:486-534 | Iterations only append to what was executed |
| Runs.RunningMeansEarlier | cmd/chaosmania/client.go:490-534 | A loop that still runs has not used up its number of iterations, skips included |
| Runs.CompletesExactly | cmd/chaosmania/client.go:490-534 | If no phase returns an error other than the deadline, the loop stops after exactly its number of iterations with every counter at its repeat |
| Runs.OnlyCycleSkips | cmd/chaosmania/client.go:491-500 | Sequence and Random never take the skip branch: every iteration executes a phase |
| Runs.CycleStaysLevel | pkg/actions/pattern.go:123-146 | Under Cycle two unfinished phases never differ by more than one execution, in any run |
| Runs.NextIsMinusOneExactlyWhenComplete | pkg/actions/pattern.go:86-189 | At both call sites of the loop, for every pattern and reachable state, NextPhase answers -1 exactly when IsComplete holds |
| RandomTraces.TraceIsBalanced | pkg/actions/pattern.go:86-189 | Every pattern's trace starts with phase 0 and contains each phase exactly as often as it repeats |
| RandomTraces.SteeringReaches | pkg/actions/pattern.go:161-183 | For every such sequence of phases there are random numbers that make Random execute it |
| RandomTraces.RandomTracesAreTheBalancedOnes | pkg/actions/pattern.go:161-189 | A sequence of phases is a trace of Random if and only if it is balanced in this sense |
| RandomTraces.OtherPatternsAreRandomTraces | pkg/actions/pattern.go:86-189 | Random can behave like Sequence and like Cycle |
| Executors.PhaseRepeats.GetTotalRepeats | pkg/actions/pattern.go:48-60 | The sum of GetRepeat over the phases, whether or not the shortcut for an empty map is taken |
| Executors.PhaseRepeats.SetRepeat | pkg/actions/pattern.go:63-65 | One entry of the table changes and the default stays |
| Executors.Executor.IsComplete | pkg/actions/pattern.go:100-107 | True exactly when no phase has executions left |
| Executors.Executor.NextPhase | pkg/actions/pattern.go:86-189 | The imperative executors choose the phase the scheduler specification chooses; Random draws one number unless it answers -1 |
| Executors.Executor.Available | pkg/actions/pattern.go:161-183 | The loop collects the unfinished phases in ascending order |
| Executors.Executor.ShouldAdvancePhase | pkg/actions/pattern.go:86-189 | Each executor's decision to leave a phase is the specification's: Sequence only from a finished phase, the others always |
| Executors.NewPatternExecutor | pkg/actions/pattern.go:192-203 | An unknown pattern name gives a sequence executor |
| Plans.Verify | pkg/actions/plan.go:56-80 | Accepts exactly the plans whose worker durations lie within 60 s and 28 days and whose actions of setup, workload and teardown are all known; otherwise reports the first fault in document order |
| Plans.VerifyPhase | pkg/actions/plan.go:98-115 | Names the first bad action of setup, workload and teardown, in this order, if there is one |
| Plans.VerifyWorkload | pkg/actions/plan.go:82-96 | Names the first bad action if there is one |
| Budget.LongestIsMaximum | pkg/actions/durations.go:69-82 | On verified workers the running maximum is an upper bound that is attained, hence independent of worker order |
| Budget.VerifiedPhaseDuration | pkg/actions/durations.go:57-93 | Without override a verified phase lasts as long as its longest worker group, or 60 s if it has none, and always between the bounds |
| Budget.LongestSinceReset | pkg/actions/durations.go:69-82 | On any workers the running maximum is that of the durations after the last missing one, which resets it to 60 s |
| Budget.ClampIsNearest | pkg/actions/durations.go:84-90 | A duration out of bounds becomes the nearest bound, one within stays |
| Budget.TruncDivTruncates | pkg/actions/durations.go:64-67 | The quotient is cut off towards zero, also of a wrapped negative runtime |
| Budget.AdjustedIsMaximum | pkg/actions/durations.go:33-51 | For an accepted runtime the adjusted runtime is max(runtime, 60 s times executions) if and only if that product fits in an int64 |
| Budget.AdjustedIsRaised | pkg/actions/durations.go:33-51 | An accepted runtime is raised to the int64 product of 60 s and the executions; no override gives zero |
| Budget.OverrideSplit | pkg/actions/durations.go:64-88 | While the product fits, each execution gets the quotient, it lies between 60 s and 28 days without any clamping, and the shares miss the runtime by the remainder |
| Budget.PhaseDurationMeans | pkg/actions/durations.go:57-93 | A phase lasts as long as its longest verified worker, or under an override that fits max(runtime, 60 s times executions) divided by the executions |
| Budget.MinimumRuntimeFits | pkg/actions/durations.go:33-51 | With normalised repeats the minimum-runtime product fits in an int64 for up to 307445 phases |
| Budget.MinimumRuntimeLimitIsTight | pkg/actions/durations.go:33-51 | With 307446 phases of 500 repeats it does not, and the adjusted runtime is not the promised minimum |
| Budget.TotalsFit | pkg/actions/durations.go:96-111 | A phase's total never overflows; the plan's total does not for up to seven phases |
| Budget.SevenIsTight | pkg/actions/durations.go:96-111 | Eight phases of 28 days and 500 repeats overflow to a negative total |
| Budget.SpentByCounts | pkg/actions/durations.go:96-111 | Any order of executions with the right counts spends the sum of the phase totals |
| Durations.PhaseDurations.constructor | pkg/actions/durations.go:25-54 | Starts with an empty cache and the adjusted runtime the specification demands |
| Durations.PhaseDurations.GetPhaseDuration | pkg/actions/durations.go:57-93 | Whatever was asked before, the answer is the one computed without a cache: the longest verified worker of this phase, or its share of the runtime |
| Durations.PhaseDurations.GetTotalDuration | pkg/actions/durations.go:96-106 | The adjusted runtime under an override, else the int64 sum of duration times repeat over the phases, cached or not |
| Durations.PhaseDurations.GetPhaseTotalDuration | pkg/actions/durations.go:109-111 | The uncached duration times the repeat, as an int64 |
| Client.NormalizedRepeatsAreBounded | cmd/chaosmania/client.go:415-437 | Accepted flags give every phase between 1 and 500 executions, whatever the plan says |
| Client.NormalizedRepeatCases | cmd/chaosmania/client.go:415-437 | A positive flag is every phase's repeat, flag 0 is 500; under flag -1 a plan's repeat of 1 to 500 stays, a larger signed one becomes 500, a missing one and one from 2^63 on become 1 |
| Client.PlanRepeatIsCappedExactlyBelowSignBit | cmd/chaosmania/client.go:428-436 | A plan's repeat is clamped into [1, 500] if and only if it fits a signed int |
| Client.LoadPlan | cmd/chaosmania/client.go:56-68 | Fails exactly on plans that verification rejects, naming the first fault; panics exactly if an accepted plan has a key that is not a string; otherwise only missing repeats change, to 1, and the raw settings are converted |
| Client.BuildRepeats | cmd/chaosmania/client.go:415-437 | The repeat table answers for every phase a positive flag itself, 500 for flag 0, and for flag -1 the plan's repeat clamped into [1, 500] if it fits a signed int |
| Client.LogPlanSummary | pkg/actions/reporter.go:54-75 | One line a phase announces its repeat, its uncached duration and their int64 product, and the cache it fills stays transparent for the loop |
| Client.MoveOn | cmd/chaosmania/client.go:526-533 | Asking the executor stops the loop on -1 and moves it to the chosen phase otherwise, as the specification does |
| Client.LoopBody | cmd/chaosmania/client.go:490-534 | One pass of the imperative loop is one iteration of the specification and issues the uncached duration of the phase it executes |
| Client.RunPhases | cmd/chaosmania/client.go:486-534 | The loop terminates for all results and random numbers, having executed the pattern's trace or its prefix up to the first error, each execution with its phase's duration as timeout |
| Client.CompleteRunSpends | cmd/chaosmania/client.go:502-516 | In a complete run of any pattern the issued timeouts sum to the sum of the phase totals |
| Client.OverrideGap | pkg/actions/durations.go:33-66 | Under an override the spent time misses the adjusted runtime by its remainder modulo the executions if and only if the minimum-runtime product fits in an int64 |
| Client.BudgetOfCompleteRun | cmd/chaosmania/client.go:464-516 | Without override the announced total is the time a complete run spends if and only if that fits in an int64, always for up to seven phases; with one the run falls short by the remainder, always for up to 307445 phases |
| Client.SettlePattern | cmd/chaosmania/client.go:439-452 | Accepts the empty and the three known flag values; the settled pattern is the flag if given, else the plan's, else "sequence" |
| Client.CheckFlags | cmd/chaosmania/client.go:385-407 | Accepts exactly repeats from -1 to 500 and runtimes from 60 s to 28 days, in nanoseconds, and rejects repeats first |
| Headers.SplitHeaders | cmd/chaosmania/client.go:454-459 | Panics exactly if some header has no colon; otherwise maps names to the text up to a second colon |
| Headers.HeaderIsSplit | cmd/chaosmania/client.go:457-458 | A header is its name, its first colon and the rest, and its value is the rest up to the next colon |
| Headers.LastHeaderCounts | cmd/chaosmania/client.go:454-459 | Of several headers with one name the last one counts |
| Headers.OnlyGivenNames | cmd/chaosmania/client.go:454-459 | Every name in the map is that of a given header |
| Client.CommandClient | cmd/chaosmania/client.go:375-535 | From flags, plan and raw settings to exit: each rejection and each panic before the loop happens exactly under its condition and in order (a rejected plan with its first fault), no phase runs before all checks pass. The run follows the flag's pattern or else the plan's; when it completes, every phase was executed as often as flag or plan say; each timeout is the phase's longest worker or its share of the runtime; and the announced total is exact for up to seven phases |
| Timeline.ExecuteGroups | cmd/chaosmania/client.go:253-339 | Under an ideal clock group j starts exactly when the earlier groups leave time, and ends at its own or the phase's deadline |
| Timeline.GroupsFollowEachOther | cmd/chaosmania/client.go:253-336 | Group by group: the first starts with the phase, each next one where the one before ends or, if that has no instances, starts; only a group with instances that lasts to the timeout keeps others from starting |
| Timeline.IdleGroupsDoNotMatter | cmd/chaosmania/client.go:253-336 | Removing a group without instances changes no other group's span |
| Timeline.GroupsNeverOverlap | cmd/chaosmania/client.go:253-336 | A later group starts only after an earlier one with workers has ended |
| Timeline.PhaseTakes | cmd/chaosmania/client.go:253-339 | For any instance counts the phase takes the smaller of its timeout and the end of its latest group |
| Timeline.AllInFullExactlyIfTheyFit | cmd/chaosmania/client.go:253-339 | For any instance counts, every group runs for its whole duration if and only if each fits into the timeout after the groups with workers before it |
| Timeline.HorizonIsLatest | cmd/chaosmania/client.go:253-339 | The end of the latest group is an upper bound on where the groups would end without a timeout, and one of them ends there |
| Timeline.StaffedPhase | cmd/chaosmania/client.go:253-339 | If every group has instances, the phase takes the smaller of its timeout and the sum of the durations, and all run in full if and only if the sum fits |
| Timeline.WithoutOverrideOnlyOneGroupFits | pkg/actions/durations.go:68-82 | With the duration the budget gives a verified phase without override, all groups run in full if and only if each fits into the longest after those before it; if every group has instances, if and only if there is at most one |
| Timeline.IdleGroupLeavesTime | cmd/chaosmania/client.go:253-339 | A verified phase of three groups, the longest without instances, in which all run in full |
| Timeline.LongestFirstStarvesTheRest | cmd/chaosmania/client.go:331-335 | If the longest group comes first and has instances, no other group ever starts |
| Attempts.HistogramSums | cmd/chaosmania/client.go:202-227 | A histogram of a history sums to its replies; transport errors plus the entries above 400 are its failures |
| Attempts.RepliesArePlaces | cmd/chaosmania/client.go:202-217 | Replies are counted for each answer except a 400 whose body could not be read |
| Attempts.FailuresArePlaces | cmd/chaosmania/client.go:185-212 | Failures are counted for each failed request that was not cancelled and each status above 400 |
| Attempts.CodesArePlaces | cmd/chaosmania/client.go:202-217 | The same for each status |
| PhaseLedger.StepBalances | cmd/chaosmania/client.go:182-218 | What a worker step adds to the counters is what its new history demands, minus what it still owes |
| PhaseLedger.StepBalancesCode | cmd/chaosmania/client.go:217-227 | For every status code, a step moves counts between the local map, a pending addition and the shared map without loss or duplication |
| PhaseLedger.StepKeepsLedger | cmd/chaosmania/client.go:138-228 | Every step of every goroutine keeps counters, debts and history in balance |
| PhaseStatistics.Reachable | cmd/chaosmania/client.go:243-345 | Every reachable state of a phase, for any groups and interleaving, keeps the balance and the wait groups' meaning |
| PhaseStatistics.WaitGroupsNeverNegative | cmd/chaosmania/client.go:257-326 | No interleaving drives a wait group below zero, where Go would panic |
| PhaseStatistics.WorkerGroupsNeverOverlap | cmd/chaosmania/client.go:253-336 | While a group is started or waited for, every worker of the other groups has returned |
| PhaseStatistics.MergesAreExclusive | cmd/chaosmania/client.go:222-227 | At most one worker merges at a time, and what it has read of the shared map is still current when it writes |
| PhaseStatistics.StatisticsAreConserved | cmd/chaosmania/client.go:316-355 | After the final wait the counters equal the replies, failures and microseconds of the history and the shared map is its histogram, modulo 2^64 for the counters |
| PhaseLabels.RunIsAccountedFor | cmd/chaosmania/client.go:182-227 | In every reachable state, in terms of the answers, read bodies and failures that the environment gave: the counters and the shared map are these less what workers have received and not yet reported |
| PhaseLabels.FinishedRunIsAccountedFor | cmd/chaosmania/client.go:339-355 | In every finished run each status is reported as often as it was answered, a 400 as often as its body could be read; requests and microseconds are the sums of these, errors the answers above 400 and the failures that found their context alive, modulo 2^64 |
| PhaseLabels.HistoryIsRecounted | cmd/chaosmania/client.go:182-218 | The history of a run is what its steps say, up to the answers just received |
| PhaseGroups.GroupsHaveTheirWorkers | cmd/chaosmania/client.go:253-326 | In every reachable state each group launched has exactly its instances as workers, the one being started as many as were spawned, the others none |
| PhaseGroups.AllGroupsAreStarted | cmd/chaosmania/client.go:253-336 | A phase that ends without its context having expired has started every group, with all its workers |
| PhaseGroups.NoGroupAfterExpiry | cmd/chaosmania/client.go:331-335 | Once the main goroutine waits in an expired phase, no group and no worker is added any more |
| PhaseGroups.OnlyExpiryStops | cmd/chaosmania/client.go:147-160 | With a usable URL no worker leaves its request loop and no reporter ends before its group's context has expired |
| PhaseGroups.ContextsExpireAsLabelled | cmd/chaosmania/client.go:261 | A group's context expires by its own expiry, or is expired from the start in an expired phase |
| PhaseGroups.AnyAnswerMayCome | cmd/chaosmania/client.go:148-219 | A worker with a live context may get any answer, then counts it with its time and status, above 400 as an error, and is ready for the next request |
| PhaseGroups.FailureMayCome | cmd/chaosmania/client.go:185-200 | It may also fail, which adds one error and nothing else |
| PhaseGroups.BodyMayBeLost | cmd/chaosmania/client.go:202-207 | A 400 whose body cannot be read changes nothing reported |
| PhaseGroups.EnvironmentIsFree | cmd/chaosmania/client.go:148-185 | Stopping is possible exactly under an expired context, an answer exactly under a live one, failing always |
| PhaseStatistics.CountersAgreeWithStatusCodes | cmd/chaosmania/client.go:348-355 | Requests equal the sum of all status codes, errors the transport errors plus the codes above 400 |
| PhaseStatistics.SuccessfulRequestsAreCounted | cmd/chaosmania/client.go:341-345 | In every finished run with both numbers below 2^64, the difference of requests and errors is the number of replies with status at most 400 if and only if no request failed in transport; beyond 2^64, if and only if the replies fit and the failures are a multiple of 2^64 |
| PhaseStatistics.SuccessfulRequestsWrap | cmd/chaosmania/client.go:342 | That difference is free of wrap-around, that is those replies less the transport errors, if and only if this is a uint64 |
| PhaseStatistics.PhaseNeverDeadlocks | cmd/chaosmania/client.go:250-339 | Once the contexts of the groups have expired, some goroutine of an unfinished phase can always go on |
| PhaseTermination.StepUsesWork | cmd/chaosmania/client.go:138-339 | Under expired contexts each step of the main goroutine, a worker or a reporter uses up some of a measure of the work left, and expiry is kept |
| PhaseTermination.ExpiredPhaseIsBounded | cmd/chaosmania/client.go:138-339 | However a run goes on after its contexts have expired, the program takes no more steps than work was left |
| PhaseTermination.MaximalPhasesFinish | cmd/chaosmania/client.go:250-345 | A run that the program cannot continue after the expiry has passed the final wait, with its statistics conserved |
| PhaseTermination.EveryPhaseCanFinish | cmd/chaosmania/client.go:250-345 | Every run, from any reachable state, can be continued to the end of the phase |
| PhaseLimits.SuccessfulRequestsCanWrap | cmd/chaosmania/client.go:342 | A phase with one worker has a run to its end with one transport error and no reply, in which the difference is 2^64 - 1 |
| Workers.Record | cmd/chaosmania/client.go:182-218 | A finished request changes counters and local map as its kind demands; a 400 with an unreadable body and a cancelled request change nothing |
| Workers.MakeRequests | cmd/chaosmania/client.go:147-220 | After the request loop the counters have grown by the worker's replies, failures and time, and the local map is the histogram of its replies |
| Workers.CancelledIsLast | cmd/chaosmania/client.go:187-199 | The requests made are a beginning of those to come, up to the first that the context cancels, or all |
| Workers.RunWorker | cmd/chaosmania/client.go:138-228 | A worker adds exactly its own history to the shared statistics; an unusable host or port adds nothing, and loses nothing |
| Workers.Merge | cmd/chaosmania/client.go:222-227 | Entry by entry the shared map grows by the local one, in any order of the keys |
| Workers.Report | cmd/chaosmania/client.go:284-307 | Between two snapshots that did not decrease, no difference wraps and the line tells them exactly, with the rate over ten seconds; with more errors than requests it reports no ok ones; the latency is the exact average if and only if that fits in an int64 of nanoseconds |
| Workers.AverageLatency | cmd/chaosmania/client.go:297-298 | The conversion of the average to a time.Duration is exact if and only if the product fits in an int64 |
| Workers.IntervalReporter | cmd/chaosmania/client.go:272-313 | Over growing snapshots the reported request counts telescope to the last snapshot minus the first one that is not zero |
| Workers.CountersNeverDecrease | cmd/chaosmania/client.go:198-215 | In every interleaving with fewer than 2^64 events each shared counter only grows |
| Workers.SnapshotsNeverDecrease | cmd/chaosmania/client.go:284-293 | Snapshots whose three fields are read at different times of a run never decrease either |
| Locks.StepKeepsRegistry | pkg/actions/global_mutex_lock_action.go:28-39 | Every step keeps the registry consistent: one holder of the registry mutex, distinct mutexes for distinct ids, and no id changes its mutex |
| Locks.RegistryAlways | pkg/actions/global_mutex_lock_action.go:28-39 | This holds in every reachable state, whatever the clients do |
| Locks.IdsKeepTheirMutex | pkg/actions/global_mutex_lock_action.go:31-36 | Once registered, an id maps to the same mutex for the rest of the run |
| Locks.RegistryHolderCanStep | pkg/actions/global_mutex_lock_action.go:30-39 | The holder of the registry mutex always has an enabled step: it never waits for a named lock |
| LockSafety.StepKeepsGuardedExactly | pkg/actions/global_mutex_unlock_action.go:25-33 | A step keeps one holder per id, with exactly the held ids' mutexes locked, if and only if it does not unlock a registered id its client does not hold |
| LockSafety.GuardedExactlyWithOwnUnlocks | pkg/actions/global_mutex_unlock_action.go:25-33 | A run of arbitrary scripts keeps this throughout, without a crash, if and only if it has no such unlock |
| LockSafety.OwningScriptsOwnTheirUnlocks | pkg/actions/global_mutex_unlock_action.go:25-33 | Scripts that unlock only what they have locked never have such an unlock, even if they stop inside a section |
| LockSafety.ExclusionAlways | pkg/actions/global_mutex_unlock_action.go:25-33 | In particular, with bracketed scripts a mutex is locked exactly while one client holds its id, in every reachable state |
| LockSafety.MutualExclusion | pkg/actions/global_mutex_lock_action.go:28-41 | In every run without an unlock of an id its client does not hold, at most one client is inside the section of an id, its mutex is then locked, and no unlock ever meets an unlocked mutex |
| LockSafety.NeverDeadlocks | pkg/actions/global_mutex_unlock_action.go:25-33 | If every client takes its ids in ascending order of some ranking, some client can always step until all have finished |
| LockSafety.OneAtATimeIsOrdered | pkg/actions/global_mutex_lock_action.go:28-41 | Clients that hold at most one id at a time meet that condition for every ranking |
| LockSafety.RunsAreBounded | pkg/actions/global_mutex_lock_action.go:28-41 | Every interleaving of any scripts ends after at most five steps per action, crashes included |
| LockSafety.StepsAddUp | pkg/actions/global_mutex_lock_action.go:28-41 | No action is skipped or repeated: a run's length and what is left of its scripts add up to five steps a lock, three an unlock and one for anything else |
| LockSafety.BlockedOnlyByMutexes | pkg/actions/global_mutex_lock_action.go:28-39 | A client waits only for the registry mutex or for the mutex of the id it locks |
| LockSafety.MaximalRunsFinish | pkg/actions/global_mutex_unlock_action.go:25-33 | A run that cannot go on has finished every script and left every mutex unlocked |
| LockLimits.OppositeOrdersDeadlock | pkg/actions/global_mutex_lock_action.go:28-41 | Two clients that take two ids in opposite orders can block each other for ever |
| LockLimits.AbandonedLockBlocks | pkg/actions/global_mutex_lock_action.go:28-41 | A workload that stops between its lock and its unlock leaves the next client of the id waiting for ever |
| LockLimits.ForeignUnlockBreaksExclusion | pkg/actions/global_mutex_unlock_action.go:25-33 | A client that unlocks an id another client holds can then enter that client's section |
| LockLimits.CrashesExactlyOnFreeMutex | pkg/actions/global_mutex_unlock_action.go:28-31 | A step of any run is fatal if and only if it unlocks a registered id whose mutex is free; unlocking an unknown id is not |
| LockLimits.SecondUnlockCrashes | pkg/actions/global_mutex_unlock_action.go:28-31 | Unlocking an id twice is fatal |
| LockLimits.Process.LockStep | pkg/actions/global_mutex_lock_action.go:28-41 | The imperative lock action, step by step, changes mutex, map and mutexes as the lock machine does |
| LockLimits.Process.UnlockStep | pkg/actions/global_mutex_unlock_action.go:25-33 | The same for the unlock action, which releases the named lock while it holds the registry mutex |
| LockLimits.LookUpCommutes | pkg/actions/global_mutex_lock_action.go:30-37 | Between taking and releasing the registry mutex a locking client's steps commute with those of all others, so its look-up may be taken as one |
| LockLimits.Process.LookUp | pkg/actions/global_mutex_lock_action.go:28-37 | The straight-line look-up finds or creates the id's mutex and releases the registry mutex, and has the effect of the machine's four steps |
| LockLimits.Process.ExecuteLock | pkg/actions/global_mutex_lock_action.go:28-41 | With a free mutex the whole body ends holding the id |
| LockLimits.Process.ExecuteUnlock | pkg/actions/global_mutex_unlock_action.go:25-33 | The whole body unlocks a registered id, whoever holds it, crashes on a free mutex and ignores an unknown id |
| LockLimits.TakeLock | pkg/actions/global_mutex_lock_action.go:28-41 | Five machine steps without interruption have the effect of the lock body |
| LockLimits.ReleaseLock | pkg/actions/global_mutex_unlock_action.go:25-33 | Three machine steps without interruption have the effect of the unlock body |
| Leak.AllocateMemory.Leak | pkg/actions/allocate_memory_action.go:23-39 | The recorded size stays the summed length of what is kept, a call keeps exactly the blocks before the first that finds the limit exceeded, and it ends at no more than the larger of its start and the limit plus the longest block |
| Leak.AllocateMemory.Execute | pkg/actions/allocate_memory_action.go:41-66 | Older blocks stay, the new ones are fresh, filled and as many as the limit allows, at most one block over it; a negative size panics without effect on what is kept |
| Leak.UniformKept | pkg/actions/allocate_memory_action.go:31-38 | Of equal blocks the loop keeps a number given in closed form |
| Leak.KeptIsFirstExceeding | pkg/actions/allocate_memory_action.go:31-38 | Of blocks of any sizes those before the first that finds the limit exceeded are kept, or all |
| Leak.OvershootIsOneBlock | pkg/actions/allocate_memory_action.go:31-38 | With a limit L a call ends at no more than the larger of its start and L plus one block |
| Leak.ExecuteRepeatedly | pkg/actions/allocate_memory_action.go:23-66 | From empty, after k executions of n blocks of S bytes with limit L exactly min(k n, L div S + 1) blocks of S bytes are kept, at most one block over the limit |
| Leak.KeptAfterCalls | pkg/actions/allocate_memory_action.go:31-38 | The recurrence of what call after call keeps has this closed form |
| Convert.Convert | pkg/utils.go:70-90 | On every value that stands for a finite tree, slices shared or not: panics exactly if some interface-keyed map has a key that is not a string; otherwise exactly the slices of the tree are edited, the result stands for the converted tree, and the argument for what the edits leave of it |
| Convert.ConvertValue | pkg/utils.go:70-90 | The recursion itself: the result is the converted value, every slice it reaches is converted once or, if shared, again without effect, and it terminates by the order of the slices |
| Convert.ConvertStringMap | pkg/utils.go:72-77 | A map is rebuilt with converted values while the slices below it are edited where they are |
| Convert.ConvertAnyMap | pkg/utils.go:78-83 | The same for an interface-keyed map, whose keys become strings or cause the panic |
| Convert.ConvertSlice | pkg/utils.go:84-87 | Afterwards the same cells hold the converted elements, also when elements share slices |
| Convert.ConvertTwice | pkg/utils.go:24-37 | Converting the same settings again, after the edits of the first time, changes no slice further and gives an equal tree without interface-keyed maps |
| Convert.ConvertedIsPlain | pkg/utils.go:70-90 | No interface-keyed map is left anywhere |
| Convert.PathsArePreserved | pkg/utils.go:70-90 | The same paths exist before and after, and what is at a path is the conversion of what was there; scalars stay as they are |
| Convert.StringKeysAlongPaths | pkg/utils.go:80-82 | Without a panic every interface-keyed map at any path has string keys only |
| Convert.OtherKeyHasPath | pkg/utils.go:80-82 | With one, some path leads to a map with another key |
| Convert.PlainIsFixed | pkg/utils.go:70-90 | A tree without interface-keyed maps is not changed |
| Convert.ConversionIsIdempotent | pkg/utils.go:70-90 | Converting a result changes nothing |
| Convert.LeftoverConvertsAlike | pkg/utils.go:84-87 | What a first conversion leaves of its argument converts to the same tree as the argument did |
| Convert.TreeIsUnique | pkg/utils.go:70-90 | A value stands for one tree at most, so shared slices stand for equal subtrees |
| Convert.StandsAfter | pkg/utils.go:84-87 | Once all slices of a tree are converted, its value stands for what is left of it and the converted value for the converted tree |

## Left out

- HTTP, tracing, metrics export, pprof, the server side, and all database, queue, storage, search, script and file
  actions: foreign libraries and effects; a request is only its outcome.
- YAML and JSON parsing, flag parsing, `Duration` marshalling and log formatting: parsed values are inputs. Whether an
  action is known and its configuration parses, fails or panics is the parameter `parse`.
- Service registries, Fibonacci, sleeping and printing: easy members only.
- Real clocks: `Timeline` uses an ideal clock in which workers stop when their context expires; `PhaseRun` treats
  expiry as a step that may come at any time. A group that is running need not expire at once with its phase there,
  which allows more runs than the program has. A reply is received in one step before the expiry.
- Timeline.ExecuteGroups: assumes positive timeouts and durations, which plan verification and the budget establish,
  and a usable host and port.
- Requests sent for the setup and teardown sections: a failing setup is one of the errors a phase may return.
- Client.CommandClient: the casts of the raw settings inside the loop (cmd/chaosmania/client.go:510, 234 and 363) are
  not modelled; a phase or section written as null passes verification and panics there.
- Client.RunLoaded: the part of `Client.CommandClient` from the headers on is a method of its own, as are the checks of
  the flags and the part after the pattern is settled.
- Client.LoopBody: the body of the loop is a method of its own, with `continue` and `return` as a status.
- Client.MoveOn: stands for the two places at which the loop calls NextPhase.
- Durations.PhaseDurations.GetPhaseDuration: requires an index within the plan and, under an override, at least one
  execution in all; otherwise the source fails with an index error or a division by zero, which cannot happen in
  `Client.CommandClient`.
- Durations.PhaseDurations.GetTotalDuration: assumes that repeats are not changed after construction, as the client
  does not.
- Executors.PhaseRepeats.GetTotalRepeats: counts are unbounded here; normalised repeats are at most 500 a phase.
- Workers.RunWorker: runs one worker alone; interleavings are the business of `PhaseRun`, whose steps are the same
  updates one at a time.
- Workers.Report: the rate per second is a real number, without the rounding of a float.
- The average duration in the phase statistics, and the conversion of instance counts to int.
- PhaseStatistics.PhaseNeverDeadlocks: is stated for expired contexts; before that a phase may have to wait for time to
  pass. How long it then takes is bounded by `PhaseTermination.ExpiredPhaseIsBounded`.
- Leak.AllocateMemory.Execute: int overflow of the recorded size and memory exhaustion are not modelled; concurrent
  calls are serialised by the action's own mutex.
- Convert.Convert: slices whose backing arrays overlap only in part, and cyclic values, on which the source does not
  return, are not modelled. Scalars are strings, keys that are not strings are integers, and iteration over a map is
  in any order.
- LockSafety.MutualExclusion: the work between lock and unlock is one step without effect on the locks.
- Fairness: `LockSafety.NeverDeadlocks` says that someone can step, not that everyone does in time; since runs are
  bounded, every maximal run finishes all clients.
