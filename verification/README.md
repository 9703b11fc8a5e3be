# A verified model of the JCoz profiling agent

JCoz is a causal profiler for Java. Its agent thread repeatedly selects a source line and runs an
experiment in which threads found on that line are *credited* a delay that all other threads have
to make up for by sleeping. The delay inserted in total is then subtracted from the measured
duration of the experiment. Everything rests on the accounting between per-thread local delays
and one shared global delay, kept by signal handlers that interrupt each other's threads and
synchronise only every tenth signal.

This project models that accounting, the data structures around it, and the text handling at its
edges, and proves what they are for. To verify it:

    dafny verify --resource-limit 2000000 --verification-time-limit 0 dfyconfig.toml

## The files

- `InterleavedDelay.dfy`: the delay protocol, one access to shared state per step. Main result:
  between two resets the global delay never exceeds an opening *potential*, plus the credits
  granted, plus the time handlers overslept, under every interleaving and from every state.
- `DelayExactness.dfy`: exactly when that bound is attained; a run is accounted for by its own credits
  exactly when it starts clean; with speedup zero nothing is disturbed exactly when it starts clean.
- `DelayRuns.dfy`: one thread followed through any run, and where exactness ends: the runs that show
  it and the conditions that rule them out.
- `RoundDelay.dfy`, `RoundRefinement.dfy`: the protocol in rounds (each thread runs a whole handler
  between two signals), where the skew between threads is bounded, sleep requests are legal, and
  the effective duration is not negative; every round is a run of the interleaved protocol that
  grants the same credits, so conservation holds of the rounds.
- `TimedDelay.dfy`: the interleaved protocol with the agent's signals as its clock: what single steps can
  add to the bound that holds in rounds.
- `Experiment.dfy`: the profiler object with its threads, one experiment, and the agent's loop of
  sampling and experiments as the imperative program they are, proved against the round model.
- `Sleeping.dfy`: the retry loop around `nanosleep`.
- `LockNesting.dfy`: the three spin locks with nested signal handlers.
- `SampleBuffer.dfy`, `FrameDedup.dfy`, `LineRanges.dfy`: from samples to the selected line and the
  range index that handlers test.
- `ProgressHits.dfy`, `HitAttribution.dfy`: progress hits over whole runs, as totals and hit by hit.
- `ExperimentLength.dfy`, `BciHits.dfy`, `AgentShutdown.dfy`: the length of experiments, the records of
  them, and the shutdown of the agent.
- `ScopeMatching.dfy`, `Signatures.dfy`, `Options.dfy`: class scopes, signatures and the command line.
- `Sums.dfy`, `Wrappers.dfy`: sums of sequences, optional values.

Some properties one might expect turn out not to hold of the code as it is. Each is stated with the
condition that is necessary and sufficient for it, and most with a run that breaks it:

- The recorded delay of an experiment is covered by its own credits exactly if the experiment starts
  clean (`CleanStartIsExact`, `ZeroSpeedupBaseline`). A thread that misses the signals between
  experiments breaks it, as the documentation says (`MissedGapSignals`). So does a handler that runs
  before the new delay is set, because the delay field still holds the previous total: that cannot
  happen if and only if the previous experiment inserted no delay (`StaleCredit`). So does a thread that
  joins just before the reset and exits before it is signalled (`LateExit`). Every interleaving from a
  reset state to the next experiment's delay leaves that experiment clean if and only if the state is
  clean and the delay field zero (`StaleCreditIsExact`). In rounds, the sampling loop cleans up all
  that is left, unless such a thread has pushed its delay meanwhile (`Sample`).
- Duration minus delay is not negative in rounds. Under free interleaving the delay can exceed the
  rounds' worth of credits, by the pushes that overlap and by a credit for each synchronisation that
  comes after the next signal; both happen (`OverlapBeatsRounds`, `LateBeatsRounds`), and, oversleep
  aside, no more than that (`InterleavedRoundBound`), and pushes overlap exactly if one finds the global delay changed.
- A synchronisation or an exit leaves the global delay at the local one exactly if nobody pushed
  between its read and its add (`SyncReachesWhatWasRead`, `SettlementReachesWhatWasRead`,
  `TwoThreadsOvercount`).
- `jcoz_sleep` sleeps at least as long as asked exactly for requests below one second
  (`SleepsLongEnough`). In rounds no request reaches that unless handlers oversleep by most of a second
  themselves (`BoundedSkew`). Under free interleaving requests are bounded by the credits of the
  experiment only (`RequestsWithinCredits`), and one of a second is reachable, on exit and in a handler
  (`RejectedRequest`, `SyncWithoutSleep`); a synchronising thread is sure to catch up exactly if it is less
  than a second behind (`SyncSurelyReaches`).
- A handler that interrupts the exit of its own thread between the adding and the zeroing counts the
  hits a second time, even in two rows (`HitShownTwice`, `HitInTwoRows`); no hit is counted twice if and
  only if no such handler finds hits left (`DuplicatesAreExact`). Second counts included, the rows show
  everything counted exactly if nothing is under way and every flush was in time (`HitsAreConserved`);
  which flush loses its hits is stated exactly (`LossesAreExact`), and every count of every hit is
  attributed to its row by the moment of its flush (`EveryHitIsAttributed`).
- Halving the experiment length keeps it above its minimum exactly for compatible limits
  (`MinimumHolds`); the built-in limits are compatible.

## Model

| member | source | states |
|---|---|---|
| InterleavedDelay.ReachableOk | src/profiler.cc:911-937 | in every reachable state no local delay, request or pending amount is negative, and a thread is synchronising exactly when it has counted ten signals |
| InterleavedDelay.PotentialStep | src/profiler.cc:911-937 | no single step but the reset raises the potential by more than the credit it grants and the time it oversleeps |
| InterleavedDelay.Conservation | src/profiler.cc:666-719 | from any state, over any interleaving of joins, exits, handlers (whose sleeps may be cut short when nanosleep rejects the request) and the agent up to the next reset, the global delay is at most opening potential plus credits plus oversleeps |
| InterleavedDelay.GlobalMonotone | src/profiler.cc:924-934 | between resets the global delay grows by exactly what is pushed into it, so never decreases, and stands still exactly as long as nobody pushes |
| DelayExactness.PotentialIsAttained | src/profiler.cc:924-934 | the conservation bound is tight, some run without credits or oversleeps ending with the global delay equal to the opening potential, if and only if the last reset caught at most one thread between its read and its add with something to add and more to its lead |
| DelayExactness.CleanIffNoPotential | src/profiler.cc:874-877 | the potential is zero exactly when no delay is left over: none global, none local except where the gap handler is about to clear it, none in flight |
| DelayExactness.CleanStartIsExact | src/profiler.cc:373-417 | all runs of an experiment are covered by their own credits and oversleeps if and only if the experiment starts clean |
| DelayExactness.ZeroSpeedupBaseline | jcoz-viewer/app.R:76-92 | with zero speedup no run inserts or records delay or puts a thread to sleep, if and only if the experiment starts clean |
| DelayRuns.GapHandlerClears | src/profiler.cc:874-877 | a handler that starts while the agent samples, drains, has recorded or has stopped takes one more step, whatever happens meanwhile, and leaves its thread with local delay zero and everything else as it was |
| DelayRuns.ExperimentHandlerCounts | src/profiler.cc:911-924 | a handler that starts during an experiment counts one signal, credits the delay in force or nothing, and goes on to synchronise exactly at the tenth |
| DelayRuns.GapSignalsClean | src/profiler.cc:398-417 | if every registered thread starts a handler between the lowering of the flag and the reset, and nobody joins or exits, the state after the reset is clean |
| DelayRuns.MissedIsUnclean | README.md:157-159 | a thread with a local delay that takes no step leaves it unclean |
| DelayRuns.AgentOrder | src/profiler.cc:373-417 | the agent starts, sets the delay, finishes, records or abandons, and resets, in this order under every interleaving |
| DelayRuns.DelayIsTotal | src/profiler.cc:413 | from the recording until the next experiment sets its delay, the delay field is what the global delay was |
| DelayRuns.CreditAlwaysFits | src/profiler.cc:379-381 | while an experiment runs a credit is at most the signal period |
| DelayRuns.ErasedHasSettled | src/profiler.cc:699-713 | no thread is taken off the list before it has settled |
| DelayRuns.LocalDelayLaw | src/profiler.cc:911-937 | the local delay of a thread is what it started from plus its own credits plus the time it slept, over every run |
| DelayRuns.SyncReachesWhatWasRead | src/profiler.cc:924-937 | a synchronisation, however interleaved, differs from the global delay it read by what it slept more or less than asked if it was behind, and ends at or above it if it was less than a second behind; if it was ahead the global delay has grown by its whole lead, and equals the local delay if and only if nobody pushed since the read |
| DelayRuns.SyncSurelyReaches | src/profiler.cc:924-930 | however it is interleaved and however long it sleeps, a synchronisation is sure to end at or above what it read if and only if it was less than a second behind |
| DelayRuns.SettlementReachesWhatWasRead | src/profiler.cc:699-707 | the same for the settlement on exit, which keeps the local delay and pushes the whole lead or nothing |
| DelayRuns.PausesAreTheDifference | README.md:153-155 | up to and including any synchronisation, interleaved and overslept as it may be, what a thread was paused is the global delay minus what it started with minus its own credits minus what others pushed during that synchronisation plus what it overslept in it |
| DelayRuns.MissedGapSignals | README.md:157-159 | a thread that misses the signals between experiments can make a zero-speedup experiment insert delay |
| DelayRuns.StaleCredit | src/profiler.cc:376-413 | a handler that runs before the new delay is set credits the previous experiment's total, although everything was clean |
| DelayRuns.StaleCreditIsExact | src/profiler.cc:376-413 | from any state after a reset, every interleaving up to the setting of the delay leaves a clean state, and an experiment covered by its own credits, if and only if the state is clean and the delay field was left at zero |
| DelayRuns.LateExit | src/profiler.cc:413-417 | a thread that joins before the reset and exits before its next signal makes a zero-speedup experiment start with delay inserted |
| DelayRuns.RequestsWithinCredits | src/profiler.cc:924-930 | from a clean start all requests to sleep are covered by the credits granted plus the time overslept so far, in every run, if and only if no settlement is still asleep from before the reset |
| DelayRuns.LongRequest | src/profiler.cc:699-703 | and that is attained: a thread that takes no step through any number of synchronisations of another asks to sleep for all they were worth |
| DelayRuns.RejectedRequest | src/profiler.cc:254-281 | a request that nanosleep rejects is reachable from the start of the program, and the thread may return from it without having slept enough |
| DelayRuns.SyncWithoutSleep | src/profiler.cc:924-930 | the same in a handler: a thread a full second behind synchronises without sleeping at all |
| DelayRuns.TwoThreadsOvercount | src/profiler.cc:699-707 | two threads that read before either adds push the global delay to twice what either was credited |
| RoundDelay.RunInv | src/profiler.cc:387-393 | every event of a round (signal, whole handler, arrival, exit) keeps the bounds on the lead and the lag of every thread and between every two threads |
| RoundDelay.DrawsAreFair | src/profiler.cc:332-348 | of the 25 draws the lowest five give no speedup, and each multiple of 5% up to 100% of the signal period is given by exactly one |
| RoundDelay.BoundedSkew | src/profiler.cc:924-930 | in every reachable state a thread leads by at most its unsynchronised signals and asks to sleep for at most twenty credits, so below the tv_nsec limit |
| RoundDelay.EffectiveDurationIsNotNegative | src/profiler.cc:439 | from a clean start duration minus delay is not negative, and the delay is at most speedup times duration, both up to oversleep |
| RoundDelay.AtomicSyncIsExact | src/profiler.cc:924-937 | an atomic synchronisation leaves thread and global delay equal, at the larger of the two |
| RoundRefinement.RoundsRefineInterleaving | src/profiler.cc:387-393 | every run of rounds is a run of single steps of the interleaved protocol with the same credits and oversleeps |
| RoundRefinement.RoundsConserve | src/profiler.cc:387-417 | in rounds, from a clean start, the global delay is at most the credits granted plus the time overslept |
| TimedDelay.TimedIsInterleaved | src/profiler.cc:387-393 | every run against the clock is a run of the interleaved protocol |
| TimedDelay.InterleavedRoundBound | src/profiler.cc:387-417 | under every interleaving in which a handler starts only when signalled, from a clean start with no signal under way, the global delay is at most one credit per round and per late synchronisation plus oversleeps plus overlaps, and there are no overlaps if and only if no push of the run overlaps |
| TimedDelay.OverlapIsPush | src/profiler.cc:931-934 | a push overlaps if and only if it adds something and the global delay is above what it was computed from |
| TimedDelay.InterleavedEffectiveDuration | src/profiler.cc:439 | under every such interleaving duration minus delay is negative by no more than late credits, oversleeps and overlaps, and the rest of the delay is at most speedup times duration |
| TimedDelay.OverlapBeatsRounds | src/profiler.cc:699-707 | two threads credited in one round that settle together insert two credits |
| TimedDelay.LateBeatsRounds | src/profiler.cc:924-930 | a thread that catches up after the next signal has come and is then credited makes it three credits in two rounds |
| Sleeping.RetriesAccount | src/profiler.cc:270-275 | over any interruptions an accepted request is slept in full; the excess is what each call took too long |
| Sleeping.SleepsLongEnough | src/profiler.cc:262-275 | every complete sleep lasts at least as long as asked if and only if the request fits tv_nsec |
| Sleeping.JcozSleep | src/profiler.cc:254-281 | the loop makes exactly such a sequence of calls and returns the time they took; zero returns at once |
| Experiment.UserThread.constructor | src/profiler.cc:671-675 | a new thread inherits the global delay and has counted no signal |
| Experiment.Profiler.Handle | src/profiler.cc:911-937 | the handler does to the whole state what the round model says whenever it asks for less than a second of sleep, and in an experiment that started clean it always does |
| Experiment.Profiler.HandleInGap | src/profiler.cc:874-877 | between experiments the handler clears the local delay and nothing else |
| Experiment.Profiler.SignalUserThreads | src/profiler.cc:311-326 | every registered thread is signalled once |
| Experiment.Profiler.AddUserThread | src/profiler.cc:666-684 | registration at the current global delay |
| Experiment.Profiler.RemoveUserThread | src/profiler.cc:699-713 | settlement on exit: the global delay becomes the larger of the two, and the thread is gone |
| Experiment.Profiler.OtherThreads | src/profiler.cc:666-719 | any number of arrivals and exits keep the round invariant, keep a state without delay without delay, and push delay after a reset only if a thread with a leftover exits |
| Experiment.Profiler.DeliverSignals | src/profiler.cc:387-393 | handlers run in any order, with threads coming and going before, between and after them, keep the invariant and leave no signal unhandled |
| Experiment.Profiler.RunRounds | src/profiler.cc:383-393 | the experiment loop, with threads coming and going throughout, keeps the invariant if the experiment started clean, the clock advances by at least the signal period per round, and unless the profiler is stopped the loop lasts the experiment time and, in end-to-end mode, until a hit |
| Experiment.Profiler.EndSignals | src/profiler.cc:395-401 | two waits of at least the signal period, and after them every thread is without local delay unless one arrived since the signals |
| Experiment.Profiler.Record | src/profiler.cc:411-444 | the inserted delay is taken and reset, with threads coming and going in between, and a row with it is written if and only if the class can be named; without arrivals before the reset the next start is clean |
| Experiment.Profiler.RunExperiment | src/profiler.cc:373-449 | whatever threads, clock and scheduler do, the recorded duration is the time that passed, at least the experiment time and the two waits; a row recorded from a clean start has no negative effective duration and no more delay than speedup times duration (up to the oversleep bound); and from any start the next one is clean unless a thread arrived between the last signal and the reset |
| Experiment.Profiler.Sample | src/profiler.cc:489-507 | 15 to 30 signals over at least 30 signal periods make the next start clean if and only if no delay was pushed since the reset, and otherwise a thread with a leftover from before the reset has exited |
| Experiment.Profiler.RunAgent | src/profiler.cc:487-625 | over the whole loop of the agent, unclean starts included, every row is credible whose experiment started with no global delay |
| LockNesting.RunInv | src/profiler.cc:874-909 | each lock flag is up exactly when one activity holds the lock, and the scope lock names its holder, in every reachable state with handlers nested anywhere |
| LockNesting.MutualExclusion | src/profiler.cc:311-326 | a lock is taken exactly when somebody holds it, and then by one actor only |
| LockNesting.ReleasesAreOwn | src/profiler.cc:878-908 | a nested handler leaves a lock it did not take, and whoever frees a lock held it |
| LockNesting.WaitsGoUpward | src/profiler.cc:881-895 | whoever spins holds only locks of lower rank: users, scope, frame |
| LockNesting.NoDeadlock | src/profiler.cc:743-766 | whenever somebody is blocked, some lock holder is not |
| LockNesting.HoldersMakeProgress | src/profiler.cc:878-909 | every step of a holder brings it closer to holding nothing |
| LockNesting.AllLocksCanBeFreed | src/profiler.cc:515-523 | from every consistent state the holders alone free all locks in boundedly many steps |
| LockNesting.HandlerInsideCriticalSection | src/profiler.cc:878-908 | a handler runs inside its own thread's critical section, publishes, and leaves the scope lock to the code it interrupted |
| LockNesting.AllThreeHeld | src/profiler.cc:878-908 | a handler that interrupts its thread while that holds the thread list takes and releases the other two locks |
| LockNesting.HandlerMaySkip | src/profiler.cc:909-911 | a handler during an experiment leaves all locks alone |
| LockNesting.AgentTakesItsTurn | src/profiler.cc:311-326 | the agent is blocked by a thread that holds the list, and takes both its locks in turn afterwards |
| SampleBuffer.RunInv | src/profiler.cc:886-904 | the buffer invariant holds under every interleaving, unlocked resets included |
| SampleBuffer.DrainIsExact | src/profiler.cc:515-528 | over every run a drain delivers, up to 200, one frame for each index drawn by the steps since the last of the two resets, in order: the in-scope frame of the handler that drew it, or zero if it was drawn before the last wipe |
| SampleBuffer.CarriesFromStart | src/profiler.cc:886-899 | the frame a handler draws for is the one it saw when it last looked |
| SampleBuffer.DrainFindsSomething | src/profiler.cc:526-528 | the agent goes on if and only if an index was drawn since the last reset |
| SampleBuffer.AgentOrder | src/profiler.cc:510-616 | drain, reset, choice, reset, clearing and wipe come in the order of the program under every interleaving |
| SampleBuffer.ResetsDoNotWait | src/profiler.cc:528-604 | a handler that drew its index and holds the lock does not keep the agent from either reset, and writes into a slot no longer in use |
| SampleBuffer.WipedSampleIsDelivered | src/profiler.cc:604-616 | a sample taken before the wipe keeps its index and is drained as a zero frame |
| SampleBuffer.StaticCallFrames.Publish | src/profiler.cc:895-899 | the frame is stored at the drawn index if there is such a slot, and the index advances either way |
| SampleBuffer.StaticCallFrames.Drain | src/profiler.cc:518-521 | the slots in use are appended in order |
| SampleBuffer.StaticCallFrames.Wipe | src/profiler.cc:614 | every slot is zero |
| FrameDedup.StrictTotalOrder | src/profiler.cc:452-467 | the order is strict and total, and its equivalence is the equality operator |
| FrameDedup.Unique | src/profiler.cc:531-532 | in place, adjacent duplicates are dropped |
| FrameDedup.DedupKeepsTheSet | src/profiler.cc:530-534 | for any sort and any shuffle the frames tried are those drained, each once |
| LineRanges.SelectLine | src/profiler.cc:569-576 | the line selected is the plain lookup of the sampled index |
| LineRanges.CompileRanges | src/profiler.cc:578-595 | the ranges are those of the table entries with that line |
| LineRanges.LastRange | src/profiler.cc:588-593 | the last range goes on to the largest bytecode index and no further |
| LineRanges.InExperiment | src/profiler.cc:721-736 | true exactly for a frame of the selected method inside one of the ranges |
| LineRanges.RangesRefineLookup | src/profiler.cc:562-602 | for every sorted table, line and index, being inside the ranges is the same as looking up that line |
| LineRanges.OwnExperiment | src/profiler.cc:563-576 | the sampled frame is inside its own experiment exactly when its table covers it |
| ProgressHits.RunInv | src/profiler.cc:939-940 | every step, of handlers that interrupt the exit of their thread too, keeps the account of hits and second counts balanced |
| ProgressHits.BreakpointsAreHitsMade | src/profiler.cc:1074 | over every run the hits counted are the breakpoints passed from the raising of the experiment flag to its lowering |
| ProgressHits.BreakpointCounts | src/profiler.cc:1074 | a breakpoint can be passed at any time, adds one to its own thread during an experiment, and otherwise changes nothing |
| ProgressHits.HandlerStarts | src/profiler.cc:874-911 | a handler can take the experiment branch if and only if an experiment is on, whatever its thread is doing |
| ProgressHits.HandlersStartInExperiments | src/profiler.cc:874-940 | a handler that flushes has started during an experiment |
| ProgressHits.AgentOrder | src/profiler.cc:373-444 | clearing, reading, zeroing and recording come in the order of the program under every interleaving |
| ProgressHits.HitsAreConserved | src/profiler.cc:376-415 | over every run each hit counted inside an experiment, and each second count, is accounted for, and the rows show everything counted if and only if nothing is under way, every flush of the run was in time, and no discarded experiment had read a hit |
| ProgressHits.DuplicatesAreExact | src/profiler.cc:696-697 | no hit is counted twice if and only if no handler adds the hits of its thread between the two steps of that thread's exit |
| ProgressHits.LossesAreExact | src/profiler.cc:376-423 | over every run hits are lost at a zeroing, at a start, or with a discarded experiment, if and only if some thread flushed between read and zeroing, some thread flushed between zeroing and next clearing, or a discarded experiment had read some |
| ProgressHits.FatesAreWindows | src/profiler.cc:376-415 | the hits shown or read, lost late and lost early are the totals of what was flushed in the three windows of the agent |
| ProgressHits.RowBalance | src/profiler.cc:376-415 | the row of an experiment is the hits made meanwhile and those counted a second time, plus what was held before it minus what is held after it minus what was lost |
| HitAttribution.EveryHitIsAttributed | src/profiler.cc:376-415 | over every run each counter is the number of the counts of hits in its place, a count is in a row if and only if it was flushed while the experiment of that row was counting, never in the row of an experiment before its own, no two rows share an experiment, and no hit has a second count if and only if no handler doubles an exit |
| ProgressHits.HitCarriesOver | src/profiler.cc:413-415 | a hit not flushed in time is shown by the next row |
| ProgressHits.HitLostBetweenReadAndZero | src/profiler.cc:414-415 | a flush between the read and the zeroing is lost |
| ProgressHits.HitLostBetweenExperiments | src/profiler.cc:696-697 | the hits of a thread that exits between two experiments are lost at the next start |
| ProgressHits.HitLostWithItsRow | src/profiler.cc:419-423 | the hits of an experiment whose class cannot be named are lost |
| ProgressHits.HitShownTwice | src/profiler.cc:696-697 | a handler between the two steps of an exit makes one hit two in its row |
| ProgressHits.HitInTwoRows | src/profiler.cc:696-697 | or shows it in two rows |
| ExperimentLength.Length.Update | src/profiler.cc:350-371 | at most 5 hits double the length up to the maximum, at least 20 halve it unless it is at the minimum, between them or when fixed it stays; and whatever the history it stays at or above the minimum if the limits are compatible, and is the minimum doubled at most n times if the maximum is the minimum doubled n times |
| ExperimentLength.MinimumHolds | README.md:134 | no history goes below the minimum if and only if some power of two divides the maximum down to exactly the minimum |
| ExperimentLength.TimesArePowers | README.md:130-134 | when the maximum is the minimum doubled n times, every time reached is the minimum doubled at most n times |
| ExperimentLength.LowHitsReachMax | src/profiler.cc:356-366 | n experiments with few hits reach the maximum |
| ExperimentLength.HighHitsReachMin | src/profiler.cc:367-370 | k experiments with many hits lead from the minimum doubled k times back to the minimum, and more of them stay there |
| ExperimentLength.NothingChanges | src/profiler.cc:353-366 | any history between the thresholds, or with a fixed length, changes nothing |
| ExperimentLength.DefaultLimits | README.md:130-131 | the built-in limits are compatible, and 5 and 12 are not |
| BciHits.Records.AddHit | src/bci_hits.cc:6-10 | the one count is bumped and the class noted, everything else unchanged |
| BciHits.Records.RecordExperiment | src/profiler.cc:419-444 | count and data row go together, or neither happens |
| BciHits.FreqIsOccurrences | src/bci_hits.cc:8 | each count is the number of recorded experiments with that key |
| BciHits.TotalIsRows | src/profiler.cc:428-444 | the counts sum to the number of data rows |
| BciHits.ListMethods | src/bci_hits.cc:16-32 | the nested iteration lists every entry once in ascending order |
| BciHits.DumpIsExact | src/bci_hits.cc:12-34 | the dump lists a key with a count if and only if that many experiments, at least one, had it |
| BciHits.ListedOnce | src/bci_hits.cc:12-34 | a key stands at one place of the dump only |
| AgentShutdown.StepsDescend | src/profiler.cc:489-628 | once the flag is down every step of the agent lowers the rank |
| AgentShutdown.ShutdownTerminates | src/profiler.cc:1029-1049 | stopped after any run from its start, the agent is done after boundedly many steps, stuck nowhere else, and writes at most the row it was already past its last test for |
| AgentShutdown.RunningAgentRecords | src/profiler.cc:405-411 | an experiment is recorded if and only if the flag is still up at its last test |
| AgentShutdown.OnlyTablesStart | src/profiler.cc:526-560 | an experiment starts if and only if a frame with a line table was found, and the agent returns to its first test when it drained nothing or no frame had one |
| AgentShutdown.RowsAreWritten | src/profiler.cc:419-444 | the rows are the experiments that found the class of their method |
| AgentShutdown.OneCycle | src/profiler.cc:487-625 | a whole cycle of the agent, from its first test back to it, with one more row |
| AgentShutdown.SamplingLoop | src/profiler.cc:495-507 | 15 to 30 iterations for any random draws |
| ScopeMatching.Strstr | src/entry.cc:149 | the position of the first occurrence, or none |
| ScopeMatching.FirstOccurrenceIsPrefix | src/entry.cc:143-150 | on a signature that starts with L, the test holds exactly for non-empty prefixes of the name that are not made of L only |
| ScopeMatching.ContainsClassFqnPrefix | src/entry.cc:152-160 | true exactly when some element passes the test |
| ScopeMatching.IsInAllowedScope | src/entry.cc:163-166 | some search scope and no ignored scope |
| ScopeMatching.PrepareScope | src/profiler.cc:813-816 | in place, a slash stands exactly where a dot was, and every other character stays |
| ScopeMatching.AllowedDecidesByName | src/entry.cc:143-166 | for dotted scopes and names, and the signature that has slashes where the name has dots, a class is allowed exactly when a search scope matches its name and no ignored scope does |
| ScopeMatching.IsProgressClass | src/entry.cc:205-222 | the two-stage check accepts exactly the signature that is the progress class plus one character |
| Signatures.CleanSignature | src/profiler.cc:990-1017 | shift, terminator and early-exit rewrite in place compute the displayed class name |
| Signatures.CleanIsOuterName | src/profiler.cc:990-1017 | cleaning the signature of a class gives its dotted name up to the first dollar sign |
| Signatures.CleanInvertsSignature | src/profiler.cc:990-1017 | so it gives the name exactly when that is non-empty without slash and dollar sign |
| Options.GetlineSplit | src/profiler.cc:131-134 | the loop yields the items of repeated getline |
| Options.SplitInvertsJoin | src/profiler.cc:131-134 | splitting recovers joined items exactly when the last is not empty |
| Options.ParseInvertsDecimal | src/profiler.cc:177 | a number written in decimal is read back exactly when it fits its type, and refused otherwise |
| Options.NumberReads | src/profiler.cc:177 | after any blanks a number is read with or without sign up to the first character that is no digit |
| Options.ScopeOptions | src/profiler.cc:148-166 | pkg and search add the prepared items to the search scopes, ignore to the ignored ones |
| Options.FlagOptions | src/profiler.cc:191-204 | end-to-end and fix-exp set their flag, with or without a value |
| Options.PointOption | src/profiler.cc:168-179 | progress-point sets class and line |
| Options.WarmupOption | src/profiler.cc:197-200 | warmup sets a thousand times its value |
| Options.LevelOption | src/args.h:70-112 | logging-level takes seven levels and nothing else |
| Options.OutputOption | src/args.h:114-129 | output-file is used up to its first dot |
| Options.UnknownOption | src/profiler.cc:144-146 | any other name is refused |
| Options.ParseOptions | src/profiler.cc:136-248 | the items are interpreted in order, stopping at the first error, and incomplete settings are refused |
| Options.ParseInvertsRender | src/profiler.cc:131-248 | a rendered list of well-formed options parses to what it means, and is refused if and only if that has no search scope, or neither end-to-end nor both a class and a line |
| Options.UnsetStays | src/profiler.cc:120-126 | scopes, point and warmup that are not given keep their defaults |
| Options.FlagsAreGiven | src/profiler.cc:191-204 | a flag is set if and only if it is given |

## Left out

- The calls into the JVM (stack traces, line number tables, thread groups, class signatures): they are
  arbitrary inputs of the model; a line table is assumed to be non-empty and sorted.
- Logging, formatting of rows, file names and the clock itself: a row is appended to a sequence, time is
  an integer that does not run backwards.
- Floating point: the speedup is a number of twentieths, the delay the corresponding integer; the quality
  of the random numbers plays no part, every draw is considered.
- Memory ordering: steps are sequentially consistent.
- Integer widths: delays, counters and frequencies are unbounded integers.
- Experiment.Profiler.RunAgent: a row whose experiment started with a global delay is not promised to be
  credible; what can then happen is stated in DelayExactness.
- RoundDelay.RunInv: a request of a second or more, which rounds reach only after handlers overslept for 0.98
  seconds, is slept in full.
- Experiment.Profiler.Handle: runs as one piece between two signals and does not carry progress hits;
  single steps are in InterleavedDelay, hits in ProgressHits.
- Experiment.Profiler.RunExperiment: promises a credible row for a clean start only, and for handlers whose
  sleeps exceed their requests by less than 0.98 seconds in total per experiment; what happens otherwise is
  stated in DelayExactness.
- SampleBuffer: handlers may publish at any time, not only outside experiments; this only adds runs.
- LockNesting: the class preparation lock is not part of this model; its owner is stored in a type too small
  for it and one error path never releases it.
- ProgressHits: a breakpoint is one step and does not interrupt the handler of its own thread.
- BciHits: the dump is a structure, not lines of text; releasing class names is not modelled.
- Options.ParseOptions: a missing options string, the time stamp in the name of the results file and the
  column headings written to it are not modelled; all errors and exceptions are one outcome.
- ScopeMatching.IsProgressClass: the search for the breakpoint location that follows is not modelled.
- AgentShutdown: waiting for the first hit in end-to-end mode is not modelled; spinning on a free lock counts as
  one step.
- Handlers that return early, without a JVM environment or with an unknown trace error, are not modelled in the
  rounds, where every signal is handled; in InterleavedDelay such a signal is no step at all.
- A thread that settles its delay on exit is not interrupted by its own handler meanwhile; other threads are free
  to run.
- Signals that arrive after a thread's record was deleted are not modelled.
