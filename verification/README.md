# Nighthawk in Dafny

Nighthawk is a layer 7 load generator: per worker an event loop (the sequencer) asks a stack of rate
limiters for permits, turns each permit into a request, and stops when a chain of predicates says so.
Around that loop it keeps statistics that are merged over workers, searches for the highest load a
system copes with, streams requests from and results to remote services, and ships a script that
moves its Envoy dependency forward. This project models those seven parts and proves what they are
for, over every input, every run and every interleaving of the model.

| file | what it holds |
|---|---|
| `Wrappers.dfy` | Option and Result |
| `Quotas.dfy` | how many permits are due after a time: linear pace and ramp, rounding included |
| `LimiterSpec.dfy` | what one call of one limiter in a stack does, as functions on values |
| `Pacing.dfy` | invariants of every stack, the memoryless rule behind it, whole runs, the factory's stacks |
| `RateLimiters.dfy` | the limiter classes, each method equal to its function in `LimiterSpec` |
| `TerminationPredicates.dfy` | the linked chain of predicates and the factory that builds it |
| `SequencerSpec.dfy`, `Sequencers.dfy` | the event loop: functions with their invariants, and the class that follows them |
| `FactoryPacing.dfy` | the factory's stacks in any state: when their clock starts, what the options and the time allow |
| `LoopReplies.dfy` | what one run() does, told by the target's replies alone |
| `EndToEnd.dfy` | from the options to the target calls, of one worker and of all of them |
| `WorkerSchedule.dfy` | staggered worker starts and Hermite's identity |
| `StepController.dfy`, `AdaptiveLoad.dfy` | the exponential search, when and where it stops, and the session around it |
| `Statistics.dfy`, `StatisticInstances.dfy` | Welford's form, the two-sum form, stored samples, combining and merging; the objects |
| `RequestAccounting.dfy`, `StreamDecoders.dfy` | the life of every request and every counter; the client and its decoders |
| `RequestStream.dfy`, `RequestSources.dfy` | the windowed request stream as a step system; its client, source and service loop |
| `ExecutionStream.dfy` | the locks, the condition variable and the future between the service's threads |
| `StepTracker.dfy`, `Bisection.dfy` | the updater's step handler and its search for a commit |

Conventions. Times are integer nanoseconds. Where the source computes in doubles the model computes
in integers scaled to a common denominator (quotas) or in exact reals with an explicit NaN
(statistics); rounding of `std::round` and casts to integers is kept. Clocks, random samples, replies
of the target, verdicts, outcomes of pool, codec, step bodies, agent and commits are parameters, so
every theorem holds for all of them. State that the source updates in place is a class whose methods
are proved equal to a function of the old state; the theorems are about those functions and about
sequences of events. Integer wrap-around is modelled where it can be reached: the in-flight count and
the received count of the request stream, and the yield count of the static request source.

## Where the code does not do what it promises

Each of these is a lemma with a concrete witness, next to the exact condition under which the promise holds.

- A permit granted by jitter over a burst can come from the waiting list while the burst refuses; the
  release then trips the burst's assertion, exactly when the burst has already handed out its quota
  (`Pacing.JitterOverBurstRelease`, `Pacing.JitterOverBurstCanReject`). That assertion is a debug one.
  Where it is compiled out the release goes on and may turn a partial accumulation into a burst
  (`Pacing.UncheckedReleaseKeepsBurstsIff`).
- The adjusting stage of an adaptive session is sure to end without its deadline only if the initial
  load is out of range, or positive with a factor above one or unset (`StepController.StopsExactlyWhen`);
  the code accepts any factor and replaces only those not above zero.
- Merging workers of which the first has no samples makes the variance NaN for good, and the variance
  alone (`Statistics.MergedVarianceIsRightIff`, `Statistics.MergedMeanIsRight`).
- Every pool failure keeps its slot of the closed-loop limit; as many failures as the limit stop the
  client (`RequestAccounting.IdleClientStartsIff`, `RequestAccounting.PoolFailuresStopTheClient`).
- An exhausted static request source is documented to stay silent, but yields again on the next call
  (`RequestSources.SilentIff`, `RequestSources.ExhaustedSourceYieldsAgain`).
- A follow-up request on the execution stream can be declined after a response written on an error
  path (`ExecutionStream.FollowUpDeclinedIff`, `ExecutionStream.FollowUpCanBeDeclined`).
- The updater is documented to find the latest commit that passes; it does so exactly when the
  commits on the way there pass (`Bisection.FindsLatestIff`, `Bisection.LatestCanBeMissed`).

## Model

| member | source | states |
|---|---|---|
| Quotas.RoundDivIsNearest | source/common/rate_limiter_impl.cc:150-162 | the rounding used for quotas is the only integer within half of the fraction, halves up |
| Quotas.LinearReleaseTimes | source/common/rate_limiter_impl.cc:104-120 | the k-th permit of the linear pace is due exactly half an interval after k-1 intervals |
| Quotas.RampReleaseTimes | source/common/rate_limiter_impl.cc:142-166 | during the ramp the k-th permit is due exactly when the area under the rate reaches k - 1/2 |
| Quotas.PlateauReleaseTimes | source/common/rate_limiter_impl.cc:142-166 | after the ramp its own permits and those since are counted apart, each to the nearest whole one |
| Quotas.LinearQuotaIsMonotone | source/common/rate_limiter_impl.cc:112-119 | the linear quota never falls as time passes |
| Quotas.RampQuotaIsMonotone | source/common/rate_limiter_impl.cc:142-166 | the ramp's rounded quota never falls, also across the end of the ramp |
| Quotas.RampQuotaTracksIntegral | source/common/rate_limiter_impl.cc:142-166 | the rounded quota stays within one of the exact area under the rate |
| Quotas.RampIntegralIsArea | source/common/rate_limiter_impl.cc:142-166 | between two instants on one side of the ramp's end that area grows by the trapezoid under the rate |
| LimiterSpec.TryConserves | source/common/rate_limiter_impl.cc:28-125 | in any stack a grant adds one permit to those out, a refusal none |
| LimiterSpec.FillConserves | source/common/rate_limiter_impl.cc:36-49 | what a burst accumulates is exactly what it took from below |
| LimiterSpec.FillAsksForOneBurst | source/common/rate_limiter_impl.cc:43-50 | the greedy loop asks for exactly what is missing from a burst, or once more than it was granted |
| LimiterSpec.ReleaseConserves | source/common/rate_limiter_impl.cc:57-65 | an accepted release takes one permit back, a rejected one none |
| Pacing.InitialIsInv | source/common/rate_limiter_impl.cc:23-26 | a freshly built stack of any shape satisfies the invariant and has nothing out |
| Pacing.InvOutlastsTime | source/common/rate_limiter_impl.h:31-39 | time alone breaks no invariant |
| Pacing.TryKeepsInv | source/common/rate_limiter_impl.cc:28-125 | every attempt keeps the invariant of every layer and leaves the quota alone |
| Pacing.FillKeepsInv | source/common/rate_limiter_impl.cc:36-49 | the greedy loop keeps the count below the burst size, or ends with exactly a full burst of inner permits |
| Pacing.ReleaseKeepsInv | source/common/rate_limiter_impl.cc:57-65 | giving back a held permit keeps the invariant, accepted or not |
| Pacing.UncheckedReleaseKeepsBurstsIff | source/common/rate_limiter_impl.cc:57-65 | with assertions compiled out a release keeps bursts whole exactly while releasing and not full, or with nothing accumulated |
| Pacing.NetWithinQuota | source/common/rate_limiter_impl.cc:104-171 | permits out are never negative and never above the quota of the time |
| Pacing.GrantsIffBelowQuota | source/common/rate_limiter_impl.cc:28-171 | without jitter, cached counts and burst modes amount to one rule: granted exactly when the permits out are below the quota |
| Pacing.FillsIffRoom | source/common/rate_limiter_impl.cc:36-49 | a burst begins exactly when the inner quota has room for all that is missing from it |
| Pacing.GrantCanBeReleased | source/common/rate_limiter_impl.cc:57-65 | a permit just granted can be given back, which restores permits out and quota |
| Pacing.ReleaseNeedsAGrant | source/common/rate_limiter_impl.cc:57-65 | bursts and jitter never take back a permit before a grant, nor a second one after it; a scheduled start none before its time |
| Pacing.JitterOverBurstRelease | source/common/rate_limiter_impl.cc:206-231 | with jitter over a burst the release is accepted exactly when, before the attempt, the burst had handed out less than its quota |
| Pacing.JitterOverBurstCanReject | source/common/rate_limiter_impl.cc:57-65 | a run in which a granted permit cannot be given back |
| Pacing.RunConserves | source/common/rate_limiter_impl.cc:28-231 | over any run, permits out change by grants minus accepted releases |
| Pacing.RunStaysWithinQuota | source/common/rate_limiter_impl.cc:28-231 | in every run of a fresh stack what the caller holds is never negative and never above the quota |
| Pacing.ServingTakesTheLeast | source/common/rate_limiter_impl.cc:206-224 | a served permit is the least one waiting, and its time has come |
| Pacing.JitterGrantsIffDue | source/common/rate_limiter_impl.cc:206-224 | with jitter on top an attempt is granted exactly when some waiting or just joining offset has come due; after a refusal all that waits is in the future |
| Pacing.JitterServesWhatItQueued | source/common/rate_limiter_impl.cc:206-224 | over any run each inner grant is put off by its own draw, served and waiting offsets are together exactly those queued, sorted, none served early |
| Pacing.JitterRunIsFair | source/common/rate_limiter_impl.cc:206-224 | from a fresh stack: one served offset per grant, queued = served + waiting, waiting sorted, none early, the i-th inner grant put off by the i-th draw |
| Pacing.FactoryStackBuildsIff | source/client/factories_impl.cc:85-116 | exactly which frequency, ramp time and duration build a stack, and the error of the others |
| Pacing.FactoryStackShape | source/client/factories_impl.cc:85-116 | which configurations decide by quota alone, and in which grants can be given back |
| FactoryPacing.TryKeepsClock | source/common/rate_limiter_impl.cc:76-88 | attempts start the clock of a stack no sooner than its scheduled start |
| FactoryPacing.FirstOpenAttemptStartsClock | source/common/rate_limiter_impl.h:31-39 | the clock is the time of the first attempt at or after every scheduled start; no other attempt touches it |
| FactoryPacing.FactoryQuotaIsQuota | source/client/factories_impl.cc:85-116 | the quota of a built stack in any state, by its options, its clock and the time |
| FactoryPacing.LaterClockAllowsLess | source/common/rate_limiter_impl.h:31-39 | the later the clock started, the less is allowed, whole bursts included |
| FactoryPacing.FactoryStackPaces | source/client/factories_impl.cc:85-116 | every built stack: nothing before the start, at most the options' quota, and without jitter a refusal exactly at that bound |
| FactoryPacing.FactoryStackIsOnSchedule | source/client/factories_impl.cc:85-116 | with a clock not started early, at most the quota since the scheduled start |
| RateLimiters.LinearRateLimiter.TryAcquireOne | source/common/rate_limiter_impl.cc:104-120 | the recursive attempt equals the specification of one attempt |
| RateLimiters.LinearRampingRateLimiter.TryAcquireOne | source/common/rate_limiter_impl.cc:142-166 | the recursive attempt equals the specification of one attempt |
| RateLimiters.ScheduledStartingRateLimiter.TryAcquireOne | source/common/rate_limiter_impl.cc:76-88 | refused before the scheduled time, forwarded after |
| RateLimiters.BurstingRateLimiter.TryAcquireOne | source/common/rate_limiter_impl.cc:28-55 | loop and recursion equal the specification, with exactly the inner calls counted there |
| RateLimiters.BurstingRateLimiter.ReleaseOne | source/common/rate_limiter_impl.cc:57-65 | with its assertions: accepted only right after a grant, with the resulting state |
| RateLimiters.BurstingRateLimiter.ReleaseOneUnchecked | source/common/rate_limiter_impl.cc:57-65 | without debug assertions: the permit joins the accumulated ones and the burst is released, whatever state it was in |
| RateLimiters.DelegatingRateLimiter.TryAcquireOne | source/common/rate_limiter_impl.cc:206-224 | insert an inner grant at its drawn offset, serve the front once due; a refusal leaves nothing waiting that is due |
| RateLimiters.CreateRateLimiter | source/client/factories_impl.cc:85-116 | the stack built is the one the options describe, errors included |
| TerminationPredicates.TerminationPredicate.EvaluateChain | source/common/termination_predicate_impl.cc:7-16 | child first, then the predicate itself |
| TerminationPredicates.TerminationPredicate.Link | source/common/termination_predicate_impl.h:16-20 | links one child and hands it back |
| TerminationPredicates.TerminationPredicate.AppendToChain | source/common/termination_predicate_impl.h:21-27 | list append of a whole chain, wherever its tail is |
| TerminationPredicates.LinkConfiguredPredicates | source/client/factories_impl.cc:281-297 | one counter predicate per threshold, in order, at the end of the chain |
| TerminationPredicates.CreateChain | source/client/factories_impl.cc:258-279 | the chain holds exactly the factory's rules in order |
| TerminationPredicates.AppendedRulesDecideFirst | source/common/termination_predicate_impl.cc:7-16 | what is appended is asked first and overrides |
| TerminationPredicates.FactoryChainIsFlatRule | source/client/factories_impl.cc:258-297 | the chain decides as: termination thresholds, else failure thresholds, else duration or stop request, else proceed |
| SequencerSpec.DriveKeeps | source/common/sequencer_impl.cc:106-136 | each permit taken is a counted call or given back, giving back is rejected by jitter over a burst at most; without jitter a loop ended by the limiter has started all the quota allows, one ended by the target less |
| SequencerSpec.RunOnceKeeps | source/common/sequencer_impl.cc:80-158 | one run() keeps every invariant, whether it stops, starts targets or re-arms, unless a release is rejected |
| SequencerSpec.NextKeepsInv | source/common/sequencer_impl.cc:34-158 | every timer event, start and completion keeps every invariant |
| SequencerSpec.EveryLifeIsSafe | source/common/sequencer_impl.cc:34-158 | through every life with any stack, up to a rejected release: timers, counts, latched status, failure count and blocked intervals are consistent |
| SequencerSpec.SafeStacksStayIntact | source/common/sequencer_impl.cc:124-135 | no life of a stack without jitter on a burst has a release rejected |
| SequencerSpec.InitiatedWithinQuota | source/common/sequencer_impl.cc:106-136 | targets initiated are exactly the permits out and within the quota |
| SequencerSpec.RunUsesTheQuota | source/common/sequencer_impl.cc:80-158 | at every return of a proceeding run(): without jitter the limiter ended the loop exactly when all the quota allows is initiated; no release rejected unless jitter sits on a burst |
| SequencerSpec.NeverDozes | source/common/sequencer_impl.cc:115-157 | through every life, when idling by sleeping, or by spinning with nothing outstanding, the next run is due at once |
| SequencerSpec.StoppedStaysStopped | source/common/sequencer_impl.cc:45-64 | after a stop only late callbacks happen; they start nothing, touch no timer and cause no second stop |
| SequencerSpec.BlockedTimeIsBounded | source/common/sequencer_impl.cc:66-78 | blocked samples are non-negative, disjoint, and add up to no more than the time passed |
| LoopReplies.LoopFollowsReplies | source/common/sequencer_impl.cc:106-136 | the loop starts the leading targets in order, all up to the refusal unless the limiter ends it; each latency is a report's time minus the run's time sample, each call not reported stays outstanding with that sample |
| LoopReplies.LoopBlocks | source/common/sequencer_impl.cc:66-78 | blocked after the loop exactly when a target refused, or nothing started while blocked; a first start closes the open interval, once |
| LoopReplies.RunFollowsReplies | source/common/sequencer_impl.cc:80-158 | all of one proceeding run() from the replies: calls, latencies, clock, blocking, and exactly which timers are armed |
| LoopReplies.StoppingRunEnds | source/common/sequencer_impl.cc:45-104 | a run() told to stop starts and completes nothing, closes an open blocked interval at its own time and leaves no timer |
| LoopReplies.ReportTakesItsCall | source/common/sequencer_impl.cc:109-123 | a late report records the time since its own call, takes exactly that call off, and wakes a running sequencer |
| Sequencers.SequencerImpl.constructor | source/common/sequencer_impl.cc:12-32 | the state a sequencer starts its life in |
| Sequencers.SequencerImpl.Start | source/common/sequencer_impl.cc:34-41 | equals the start event |
| Sequencers.SequencerImpl.Run | source/common/sequencer_impl.cc:80-158 | equals one run of the specification |
| Sequencers.SequencerImpl.AcquireAndStart | source/common/sequencer_impl.cc:106-136 | the acquisition loop equals its recursive specification, and starts exactly the leading targets unless the limiter ends it sooner |
| Sequencers.SequencerImpl.OnTargetComplete | source/common/sequencer_impl.cc:109-123 | equals the completion callback of the specification |
| Sequencers.SequencerImpl.Stop | source/common/sequencer_impl.cc:45-64 | equals the stop of the specification |
| Sequencers.SequencerImpl.UnblockAndUpdateStatisticIfNeeded | source/common/sequencer_impl.cc:66-71 | closes an open blocked interval and records it |
| Sequencers.SequencerImpl.UpdateStartBlockingTimeIfNeeded | source/common/sequencer_impl.cc:73-78 | opens a blocked interval unless one is open |
| EndToEnd.FactoryRunIsPaced | source/client/factories_impl.cc:85-116 | every option set and life, by options and time alone: at most what the pace allows, in whole bursts, since the scheduled start, and nothing before it |
| EndToEnd.FactoryLivesAreIntact | source/client/factories_impl.cc:101-115 | unless both jitter and bursts are configured no release is ever rejected |
| EndToEnd.FactoryRunCatchesUp | source/common/sequencer_impl.cc:106-136 | without jitter a run() returns with exactly what the options allow since the clock started if and only if the limiter ended its loop, otherwise with less; the clock did not start before the scheduled start |
| EndToEnd.FactoryClockStarts | source/common/rate_limiter_impl.cc:76-88 | for every option set the clock is the time of the first run() at or after the scheduled start, and unset before |
| EndToEnd.RunStopsIff | source/common/sequencer_impl.cc:96-104 | with the factory's chain a run() stops the sequencer exactly when the flat rule says so, and counts a failure exactly when it says fail |
| WorkerSchedule.CreateWorkers | source/client/process_impl.cc:730-754 | worker i starts i delays after the first |
| WorkerSchedule.HermiteIdentity | source/client/process_impl.cc:724-728 | the shifted quotients of a number add up to it |
| WorkerSchedule.ExactQuotaIsLinear | source/common/rate_limiter_impl.cc:112-119 | the exact quota is the linear formula floor(r*elapsed + 1/2) of a worker started i/(r*c) seconds late |
| WorkerSchedule.ExactWorkersInterleave | source/client/process_impl.cc:724-747 | exactly staggered workers add up to one pacer at the combined rate |
| WorkerSchedule.CombinedReleaseTimes | source/client/process_impl.cc:724-747 | whose releases form one evenly spaced lattice |
| WorkerSchedule.WorkersInterleave | source/client/process_impl.cc:724-754 | workers as started are never behind that pacer, at most concurrency-1 ns ahead, and exactly on it when the delay is whole |
| EndToEnd.WorkersStayWithinCombinedPace | source/client/process_impl.cc:730-754 | over any lives of all workers, any bursts and jitter, the targets initiated together are within the combined pacer's, at most concurrency-1 ns ahead |
| EndToEnd.WorkersKeepCombinedPace | source/client/process_impl.cc:730-754 | workers on schedule, without bursts and jitter, have together initiated what the combined pacer would, exactly when the delay is whole |
| StepController.BoundsExist | source/adaptive_load/step_controller_impl.cc:131-169 | for every positive load and factor above one both step bounds exist |
| StepController.EnoughCutsConverge | source/adaptive_load/step_controller_impl.cc:104-108 | the last move is half the bracket, so enough halvings converge |
| StepController.HaltsWithinBounds | source/adaptive_load/step_controller_impl.cc:104-169 | for any scores the stage has converged, is doomed or left the range within the bounds |
| StepController.NeverHaltsOnPasses | source/adaptive_load/step_controller_impl.cc:73-92 | with a factor not above one, or from zero, passing scores never end it |
| StepController.StopsExactlyWhen | source/adaptive_load/step_controller_impl.cc:73-169 | the stage ends for all scores exactly when the initial load does not fit 32 unsigned bits, or is positive with a factor above one or unset |
| StepController.PassesRaiseTheLoad | source/adaptive_load/step_controller_impl.cc:73-154 | n passes multiply the load by the n-th power of the factor, of two when none is set |
| StepController.SearchFindsThreshold | source/adaptive_load/step_controller_impl.cc:131-169 | the bracket always holds the threshold between a passing bottom and a failing top; converged, the load is within one percent of the previous load from it |
| StepController.WholeRpsThreshold | source/adaptive_load/input_variable_setter_impl.cc:12-21 | the threshold seen through the cast to whole requests per second |
| AdaptiveLoad.TotalScore | source/adaptive_load/step_controller_impl.cc:31-38 | 1 when every weighted metric is within its threshold, -1 otherwise |
| AdaptiveLoad.ExponentialSearchStepController.UpdateAndRecompute | source/adaptive_load/step_controller_impl.cc:118-125 | equals one update of the specification |
| AdaptiveLoad.ExponentialSearchStepController.IterateRangeFindingPhase | source/adaptive_load/step_controller_impl.cc:131-154 | raise the load, give up on the first failure at once, or open the bracket |
| AdaptiveLoad.ExponentialSearchStepController.IterateBinarySearchPhase | source/adaptive_load/step_controller_impl.cc:159-169 | halve the bracket towards the score |
| AdaptiveLoad.AdjustLoad | source/adaptive_load/adaptive_load_controller_impl.cc:175-226 | the do-while loop runs the controller on each benchmark and names what ended it, the deadline exactly when the last benchmark ended after it |
| AdaptiveLoad.PerformAdaptiveLoadSession | source/adaptive_load/adaptive_load_controller_impl.cc:175-244 | every outcome of a session and its exact cause: completed and aborted only in time, deadline exceeded exactly when the last adjusting benchmark ended late; never more benchmarks than the bounds |
| AdaptiveLoad.StageIsFinite | source/adaptive_load/adaptive_load_controller_impl.cc:198-226 | scores or the clock end the stage: some number of benchmarks is never exceeded |
| AdaptiveLoad.AdjustingIsBounded | source/adaptive_load/adaptive_load_controller_impl.cc:198-226 | the number of adjusting benchmarks is within the bounds |
| AdaptiveLoad.SessionFindsThreshold | source/adaptive_load/adaptive_load_controller_impl.cc:198-242 | the load of the testing stage is within one percent of the previous load from the threshold of the system under test |
| AdaptiveLoad.SessionFindsMostRps | source/adaptive_load/input_variable_setter_impl.cc:12-21 | the same in whole requests per second, against the most the system copes with |
| Statistics.SummarizeIgnoresOrder | source/common/statistic_impl.cc:64-68 | count, sums, least and greatest are functions of the multiset of samples |
| Statistics.ExtremesAreSamples | source/common/statistic_impl.cc:64-68 | least and greatest are samples and bound all of them; without samples 2^64-1 and 0 |
| Statistics.AddSampleRepresents | source/common/statistic_impl.cc:142-149 | one streaming update keeps count, extremes, true mean and sum of squared deviations exact |
| Statistics.StreamingIsExact | source/common/statistic_impl.cc:142-149 | after any samples the streaming form has their count, their least and greatest, their mean and sum of squared deviations |
| Statistics.ReportedMoments | source/common/statistic_impl.cc:151-159 | the accessors report NaN when empty, else the true mean and population variance |
| Statistics.CombineRepresents | source/common/statistic_impl.cc:161-178 | combining gives the statistic of all samples, if there are any |
| Statistics.CloneIsIdentityIff | source/client/process_impl.cc:764-775 | cloning by combining with a fresh instance is the identity exactly on statistics with samples, and never changes what is reported |
| Statistics.MergeRepresents | source/client/process_impl.cc:777-805 | merging workers of which the first has samples gives the statistic of everybody's samples |
| Statistics.EmptyFirstWorkerPoisons | source/client/process_impl.cc:777-805 | with an empty first worker the accumulated variance is NaN for good |
| Statistics.MergedVarianceIsRightIff | source/client/process_impl.cc:777-805 | the merged variance is right exactly when the first worker has samples |
| Statistics.MergedMeanIsRight | source/common/statistic_impl.cc:161-178 | count, extremes and mean of a merge are right for every split, empty workers included |
| Statistics.MergeIsOneStatistic | source/client/process_impl.cc:777-805 | merge independence: any split, any order equals one statistic fed everything |
| Statistics.SimpleTracksSamples | source/common/statistic_impl.cc:84-108 | the two-sum form keeps exact sums when adding and combining |
| Statistics.MergeSimpleIsExact | source/common/statistic_impl.cc:98-108 | merging the two-sum form is right for every split, empty workers included |
| Statistics.SimpleAgreesWithStreaming | source/common/statistic_impl.cc:84-159 | both forms report the same mean and variance |
| Statistics.InMemoryDescribesItself | source/common/statistic_impl.cc:212-235 | stored samples and reported numbers stay in step when adding and combining |
| StatisticInstances.StreamingStatistic.AddValue | source/common/statistic_impl.cc:142-149 | the in-place update equals the specification |
| StatisticInstances.StreamingStatistic.Report | source/common/statistic_impl.cc:151-159 | mean and variance of the samples seen |
| StatisticInstances.StreamingStatistic.CombineWith | source/common/statistic_impl.cc:161-178 | a new statistic, the operands unchanged |
| StatisticInstances.SimpleStatistic.AddValue | source/common/statistic_impl.cc:84-88 | the in-place update equals the specification |
| StatisticInstances.SimpleStatistic.CombineWith | source/common/statistic_impl.cc:98-108 | a new statistic, the operands unchanged |
| StatisticInstances.InMemoryStatistic.AddValue | source/common/statistic_impl.cc:214-218 | stores the sample and feeds the streaming part |
| StatisticInstances.InMemoryStatistic.CombineWith | source/common/statistic_impl.cc:224-235 | concatenated samples and combined moments |
| StatisticInstances.VectorizeStatistics | source/client/process_impl.cc:764-775 | clones that report what the originals report, equal to those with samples |
| StatisticInstances.MergeWorkerStatistics | source/client/process_impl.cc:777-805 | each merged statistic is the merge of the workers' at its position; no worker's changes |
| RequestAccounting.EndingsPartition | source/client/benchmark_client_impl.cc:217-271 | every stream is outstanding, answered in one status class, reset, or failed for one reason |
| RequestAccounting.NextKeeps | source/client/stream_decoder.cc:23-117 | every event keeps every counter equal to the number of streams it counts, and each caller told once |
| RequestAccounting.EveryRunBalances | source/client/benchmark_client_impl.cc:167-271 | in every run: callbacks exactly once per ended request; initiated = completed + outstanding + pool failures; completed = resets + six classes; sequencer completions = completions + pool failures - warmup |
| RequestAccounting.StartsIff | source/client/benchmark_client_impl.cc:167-215 | started exactly with a pool, a request and, under back-pressure, outstanding requests plus all pool failures below the pending limit plus connections (HTTP/1) or active requests (HTTP/2 and 3) |
| RequestAccounting.ClosedLoopIsBounded | source/client/benchmark_client_impl.cc:172-187 | in closed loop outstanding requests plus pool failures never exceed the pending limit plus connections or active requests, by protocol |
| RequestAccounting.FinalEventsEndStreams | source/client/stream_decoder.cc:23-117 | a stream ends with the last event about it and not before, in the way that event says; no other stream is touched |
| RequestAccounting.ResponsesKeepTheirStatus | source/client/stream_decoder.cc:23-100 | over any run a response counts with the status of its own first headers |
| RequestAccounting.EveryEndIsCounted | source/client/benchmark_client_impl.cc:217-246 | over any run completions are exactly the events that end a response or reset a stream, resets exactly the resets |
| RequestAccounting.FailuresKeepTheirSlots | source/client/benchmark_client_impl.cc:257-271 | a slot taken by a pool failure is never given back |
| RequestAccounting.IdleClientStartsIff | source/client/benchmark_client_impl.cc:167-187 | an idle client can start again exactly while fewer pool failures than the limit occurred |
| RequestAccounting.PoolFailuresStopTheClient | source/client/stream_decoder.cc:109-117 | as many pool failures as the limit are possible and stop the client for good |
| StreamDecoders.BenchmarkClient.TryStartRequest | source/client/benchmark_client_impl.cc:167-215 | equals the start event, a synchronous pool failure included |
| StreamDecoders.BenchmarkClient.OnComplete | source/client/benchmark_client_impl.cc:217-246 | one completion, counted once under its ending |
| StreamDecoders.BenchmarkClient.OnPoolFailure | source/client/benchmark_client_impl.cc:257-271 | counted by reason, time-outs not at all |
| StreamDecoders.StreamDecoder.DecodeHeaders | source/client/stream_decoder.cc:23-50 | equals the headers event |
| StreamDecoders.StreamDecoder.DecodeData | source/client/stream_decoder.cc:52-62 | equals the data event |
| StreamDecoders.StreamDecoder.DecodeTrailers | source/client/stream_decoder.cc:64-72 | equals the trailers event |
| StreamDecoders.StreamDecoder.OnComplete | source/client/stream_decoder.cc:74-100 | the client counts the ending with the headers seen and the caller is told complete and success |
| StreamDecoders.StreamDecoder.OnResetStream | source/client/stream_decoder.cc:102-107 | equals the reset event |
| StreamDecoders.StreamDecoder.OnPoolFailure | source/client/stream_decoder.cc:109-117 | equals the pool failure event: the caller is told, the completion is not counted |
| RequestStream.NextKeeps | source/common/request_stream_grpc_client_impl.cc:40-75 | every step of client, service and network keeps window, buffer bound and order |
| RequestStream.EveryRunIsWindowed | source/common/request_stream_grpc_client_impl.cc:34-143 | in every run: in-flight = asked + owed + under way, no underflow, buffer plus in-flight at most two windows less one, first in first out, and something under way whenever the open stream's buffer is empty |
| RequestStream.DequeueAsksAgainIff | source/common/request_stream_grpc_client_impl.cc:131-143 | a new window is asked for exactly when nothing is awaited and less than one is left; after a dequeue something is awaited or a whole window is held |
| RequestStream.EmptyBufferRefills | source/common/request_stream_grpc_client_impl.cc:131-143 | an empty buffer on an open stream is refilled by at most three steps of the other side |
| RequestStream.YieldsIff | source/common/request_stream_grpc_client_impl.cc:131-143 | a connected client can ever yield a request exactly when its buffer length is not zero |
| RequestStream.CloseReportsLossIff | source/common/request_stream_grpc_client_impl.cc:63-75 | what is reported as a loss at close, exactly |
| RequestSources.RequestStreamGrpcClient.Start | source/common/request_stream_grpc_client_impl.cc:34-38 | the first state of the system |
| RequestSources.RequestStreamGrpcClient.TrySendRequest | source/common/request_stream_grpc_client_impl.cc:40-48 | asks for one window when the stream is there |
| RequestSources.RequestStreamGrpcClient.OnReceiveMessage | source/common/request_stream_grpc_client_impl.cc:54-59 | equals the receive step |
| RequestSources.RequestStreamGrpcClient.OnRemoteClose | source/common/request_stream_grpc_client_impl.cc:63-75 | the report, and the stream gone |
| RequestSources.RequestStreamGrpcClient.MaybeDequeueRequest | source/common/request_stream_grpc_client_impl.cc:131-143 | the oldest message, and a new request exactly when the window ran dry |
| RequestSources.StaticRequestSource.Generate | source/common/request_source_impl.cc:25-32 | yields unless the count is zero; the count wraps |
| RequestSources.CountdownWraps | source/common/request_source_impl.cc:25-32 | the count runs modulo 2^64 |
| RequestSources.SilentIff | source/common/request_source_impl.h:23-25 | a call is silent exactly when its distance past the limit is a multiple of 2^64 |
| RequestSources.ExhaustedSourceYieldsAgain | source/common/request_source_impl.h:23-25 | the call after the first silent one yields |
| RequestSources.RequestStreamService | source/client/service_impl.cc:151-191 | a request for q messages is answered with exactly q, up to the first failing write, which alone makes the status an error |
| ExecutionStream.NextKeeps | source/client/service_impl.cc:17-134 | every step of either thread keeps handshake, lock ownership, future and order |
| ExecutionStream.EveryRunIsSafe | source/client/service_impl.cc:17-134 | in every interleaving: no notification lost, one response per accepted request and in order, no two writes at once, all written before the stream is finished |
| ExecutionStream.EveryReadIsAccountedFor | source/client/service_impl.cc:89-134 | in every interleaving each request read has its own thread, but for one in hand or one that ended the stream; an unsupported request or the end of requests always ends it |
| ExecutionStream.DeclinedIff | source/client/service_impl.cc:113-127 | a start request is declined exactly while the last one holds the busy lock |
| ExecutionStream.FollowUpDeclinedIff | source/client/service_impl.cc:73-79 | after all responses, declined exactly when the last was written on an error path by a thread yet to return |
| ExecutionStream.FollowUpCanBeDeclined | source/client/service_impl.cc:30-38 | a reachable state in which that happens |
| ExecutionStream.NeverStuck | source/client/service_impl.cc:89-134 | no deadlock: unless idle or finished with everything answered, some thread can move |
| ExecutionStream.StepsAreBounded | source/client/service_impl.cc:17-134 | between two requests at most thirty-six steps, in any interleaving |
| StepTracker.WalkIsWellRun | tools/nighthawk_envoy_updater.py:283-319 | from any point of a run: order of bodies, agent limit, shape of the statuses |
| StepTracker.EveryRunIsSound | tools/nighthawk_envoy_updater.py:283-319 | from any tracker of pending and unplanned steps: each body at most once and in order, agent at most three times, nothing left pending, one failure at most with only cancelled or unplanned steps after it, clean exactly when none failed |
| StepTracker.AgentIsUsedUp | tools/nighthawk_envoy_updater.py:283-319 | the agent is called for each caught failure until its three attempts are used; the next failure stands, none does otherwise; an exception escapes exactly from an uncaught one or a failing agent |
| StepTracker.OnlyPlannedStepsRun | tools/nighthawk_envoy_updater.py:249-255 | a step ends not planned exactly when it was so or a body that ran said so, and then its body does not run |
| StepTracker.StepHandler.RunSteps | tools/nighthawk_envoy_updater.py:283-319 | the recursive loop equals one pass without recursion |
| StepTracker.StepHandler.SetStepSuccess | tools/nighthawk_envoy_updater.py:210-226 | success, and every cancelled step pending again |
| StepTracker.StepHandler.SetStepFailure | tools/nighthawk_envoy_updater.py:228-247 | failure, and every pending step cancelled |
| StepTracker.StepHandler.SetStepNotPlanned | tools/nighthawk_envoy_updater.py:249-255 | the step not planned, which leaves a tracker that a run can start from |
| Bisection.BisectionIsSound | tools/nighthawk_envoy_updater.py:730-791 | for any outcomes: no commit tried twice, logarithmically many tried, the best passed and its successor was tried and failed, or an end is reached |
| Bisection.FindsLatestIff | tools/nighthawk_envoy_updater.py:4-10 | the latest passing commit is found exactly when the earlier commits on the way to it pass |
| Bisection.MonotoneFindsLatest | tools/nighthawk_envoy_updater.py:4-10 | with monotone outcomes the commits up to the best are exactly those that pass |
| Bisection.LatestCanBeMissed | tools/nighthawk_envoy_updater.py:730-770 | four commits of which the latest passing one is missed |
| Bisection.FindLatestTrivialMerge | tools/nighthawk_envoy_updater.py:730-791 | the loop tries exactly those commits and reports the best and its successor, by the final case split |

## Left out

- Floating-point rounding and the standard deviation: doubles are exact reals or scaled integers, and the variance is stated instead of its root.
- Histogram statistics (Hdr and Circllhist), sinks and serialization of statistics: the work is done by external libraries.
- Statistic identifiers and the map from identifiers to statistics: merging is modelled by position, which the source relies on.
- Envoy itself (pool, dispatcher, cluster manager, codecs): only what it promises is used, a monotone clock, at most one ending per stream, headers before data, pool failure only before the stream is ready.
- Latency export, tracing spans, user-defined output plugins and request body handling of the stream decoder.
- Spurious wake-ups of the condition variable and more than one execution stream at a time: the service's fields are not made for either.
- Exceptions other than the one for malformed options that escape a benchmark thread of the execution stream.
- SequencerSpec.EveryLifeIsSafe: speaks of a life up to a rejected release, where the process ends. Only jitter over bursts can reject one, exactly as `Pacing.JitterOverBurstRelease` says. What such a stack does after it in a build without debug assertions is modelled for the one release only (`Pacing.UncheckedReleaseKeepsBurstsIff`).
- SequencerSpec.InitiatedWithinQuota: same; the bound on permits out holds for every run of calls (`Pacing.RunStaysWithinQuota`).
- RateLimiters.BurstingRateLimiter.ReleaseOne: models the build with debug assertions; without them see `RateLimiters.BurstingRateLimiter.ReleaseOneUnchecked`.
- A run() whose target starts calls and completes them inline forever: the replies of one run are a finite sequence, after which the target refuses.
- AdaptiveLoad.AdjustLoad: takes it that every benchmark takes some time, unless the scores alone are sure to end the stage; cool-down sleeps only pass time.
- AdaptiveLoad.PerformAdaptiveLoadSession: same; validation of the session and plugins other than the exponential search and custom input variable setters are not part of this model.
- WorkerSchedule.CreateWorkers: the start time of the first worker is a parameter; deriving it from options is left out.
- StreamDecoders.BenchmarkClient.TryStartRequest: content-length parsing and the construction of the decoder's statistics are left out.
- Merging of request specifiers into base headers, and the gradual and Zipf-distributed random filters of the limiters.
- Command-line and protocol-buffer validation, output formatters, gRPC clients, the distributor and sink services, signal handling and sub-processes.
- The commands the updater runs: each step body, each agent invocation and each commit's integration is an arbitrary outcome.
