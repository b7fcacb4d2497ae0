# Thrille: serialization, fair scheduling, race detection and its bundled algorithms

Thrille runs a pthread program one thread at a time and decides at every synchronisation point which
thread runs next. This project models that machinery and the algorithms shipped with it, and proves what
they guarantee over all runs and all inputs. `dafny verify dfyconfig.toml` checks everything.

- **The serializer.** `Posix` gives the synchronisation calls their meaning (section 2.9 of the System
  Interfaces volume of POSIX.1-2008). `Tracker` and `Serializer` put the tracker's maps beside it as one
  state machine; `SerializerFrames`, `SerializerInvariant` and `SerializerSteps` prove map by map that every
  step keeps them consistent, `SerializerTheorems` and `SerializerGuarantees` draw the conclusions.
  `CallHistories` tells locations, counts and the results of timed waits from the steps of a run alone.
  `ExecutionTracker`, `BarrierTracker` and `Logger` are the imperative code, proved to take these steps.
- **Broadcasts, replay, active testing.** `Broadcast`, `Replay`, `ActiveTesting`, `RandomTesters`,
  `RandomChoice` and `RelaxedTracker`.
- **The fair scheduler.** `FairScheduling` and `Fairness` (theory over whole histories), `FairScheduler`
  and `ChessTracker` (code).
- **Race detection.** `VectorClocks`, `HappensBefore`, `HybridRaces`.
- **The schedule file.** `Numerals`, `ScheduleText`.
- **bzip2.** `Rotations`, `QuickSort`, `PrefixDoubling`, `ByteCounts`, `FallbackSort` (fallback rotation
  sort); `Ranks`, `MainGtU`, `ShellSort`, `MainQSort` (comparison and quicksort of the main one); `RunLength`, `RunLengthDecoder`, `RunLengthEncoder` (run-length code).
- **The random generator.** `MersenneTwister`.

Four properties one might expect do not hold of the code. The model follows the code and says exactly when
they hold:

- A lock tester can report a deadlock that is none: a try-lock at a target address is queued like a lock
  when it is released (`ActiveTesting.FalseDeadlock`; exactly when is `ActiveTesting.TesterDeadlockExactly`).
- The limit on retained reads also limits writes; the limit for writes is never used. What is retained is
  what the limits ask for exactly under `HybridRaces.KeptAsIntendedIff`, and for all events exactly if the
  limits are equal (`HybridRaces.KeptAsIntendedAlwaysIff`, with a list that fails otherwise).
- A block of the relaxed schedule that names thread -1 hands over to the fair scheduler before the schedule
  has run out (`RelaxedTracker.EarlyHandover`; exactly when is `RelaxedTracker.HandsOverIff`). A schedule
  file yields such a block when a block's first line starts with `-1`, since the thread is read with `atoi`.
- The two decoding loops part on damaged blocks (`RunLengthDecoder.DamagedBlock`): they agree for all buffer
  sizes exactly on intact ones (`RunLengthDecoder.SameCallsAlwaysIff`).

## Model

| member | source | states |
|---|---|---|
| `SerializerTheorems.EnabledExactly` | src/serializer/executiontracker.cpp:1016-1022 | in every reachable state a thread is enabled in the incrementally maintained map if and only if its pending operation can proceed given the real mutex owners, semaphore values, finished threads, condition waits and barrier rounds |
| `SerializerTheorems.DeadlockExactly` | src/serializer/executiontracker.cpp:1073-1084 | at a scheduling point of any run a deadlock is reported if and only if no thread can take a step |
| `SerializerTheorems.StepKeeps` | src/serializer/executiontracker.cpp:388-1349 | every step of the protocol (all hooks, launch, wake-up, signal hand-off, tester pauses) keeps the invariant that ties all tracker maps to the program state |
| `SerializerTheorems.RunKeeps` | src/serializer/executiontracker.cpp:388-1349 | the invariant holds after every run |
| `SerializerTheorems.StartInvariant` | src/serializer/executiontracker.cpp:1041-1071 | the state of a freshly initialised main thread satisfies the invariant |
| `SerializerTheorems.ReachableInvariant` | src/serializer/executiontracker.cpp:388-1349 | every state that a run without testers reaches satisfies the invariant and holds nobody back |
| `SerializerGuarantees.ResumedOperationSucceeds` | src/serializer/executiontracker.cpp:557-569 | in every run a resumed thread finds its mutex free and itself ready on it, its semaphore positive and itself ready on it, or its join target finished |
| `SerializerGuarantees.JoinIsUnregistered` | src/serializer/executiontracker.cpp:974-977 | in every run the assertion that nobody else joins the target holds |
| `SerializerGuarantees.LastArrivalAssertions` | src/serializer/executiontracker.cpp:1321-1349 | in every run the last arrival at a barrier finds exactly count - 1 waiting threads, all disabled |
| `SerializerGuarantees.BarrierConservation` | src/serializer/barriertracker.cpp:38-73 | arrivals = count * releases + waiting, fewer than count wait, and the count of waiters is the number of threads standing at the current round |
| `SerializerGuarantees.OneBaton` | src/serializer/executiontracker.cpp:984-1001 | in every state of every run only the thread whose turn it is runs or has a posted semaphore, no semaphore exceeds one, and a posted semaphore is the one its thread sleeps on |
| `SerializerGuarantees.SignallerSleeps` | src/serializer/executiontracker.cpp:774-797 | in every run, during a hand-off the only possible step is that of the woken thread, after which it has reported ready; until then the signaller holds no token |
| `SerializerGuarantees.NeverStuck` | src/serializer/executiontracker.cpp:1150-1177 | outside program code a step of the protocol is possible until a deadlock has been reported |
| `CallHistories.LocationIsHistory` | src/serializer/executiontracker.cpp:388-1349 | in every run, where each thread stands follows from the steps alone: its last call, whether a signal selected it or a launch let its wait expire, and whether it has returned |
| `CallHistories.CountsAreHistory` | src/serializer/executiontracker.cpp:1236-1279 | in every run a semaphore is worth its initial value plus the posts minus the waits that returned, and a mutex belongs to the thread that took it last and has not given it back |
| `CallHistories.TimedWaitResult` | src/serializer/executiontracker.cpp:725-763 | in every run a timed wait ends with a timeout if and only if its thread left the condition by being launched and not by a signal, told over the steps since the call; it queues for the same mutex either way |
| `Broadcast.MapsDetermined` | src/serializer/executiontracker.cpp:1041-1071 | two trackers that satisfy the invariant over the same program state and the same past joins and barrier counts are equal |
| `Broadcast.BroadcastRuns` | src/serializer/executiontracker.cpp:820-833 | the broadcast loop may select exactly the lists of distinct waiters, in any order, and is complete exactly after as many selections as there were waiters |
| `Broadcast.BroadcastOrderLeavesNoTrace` | src/serializer/executiontracker.cpp:820-833 | two complete broadcasts from one state end in the same tracker and program state whatever their orders |
| `Replay.ReplayReproduces` | src/serializer/logger.cpp:387-400 | for a deterministic program, a second scheduler that follows the recorded log goes through the same states, records the same log and leaves none of it unread, even where the two schedulers wake broadcast waiters in different orders |
| `Replay.RecordThenReplay` | src/serializer/logger.cpp:458-470 | from the start of the program, every replay of the recorded length is such a reproduction |
| `Replay.CompleteExists` | src/randomschedule/randomtracker.cpp:40-57 | every choice function is part of a scheduler whose broadcasts select every waiter |
| `Replay.ProducedOnce` | src/serializer/executiontracker.cpp:1150-1177 | a program, a scheduler and a log determine the run |
| `Logger.Logger.GetNextChoice` | src/serializer/logger.cpp:387-400 | the next recorded decision is taken off the front of the log; an empty log yields no thread |
| `Logger.Logger.Scheduling` | src/serializer/logger.cpp:504-536 | the decision is appended with its caller and exactly the enabled threads |
| `Logger.Logger.SignalScheduling` | src/serializer/logger.cpp:665-709 | a signal is appended with exactly the threads on the condition; a broadcast appends nothing |
| `ActiveTesting.EnabledSubset` | src/randact/randomlock.cpp:22-52 | a thread the tester has enabled is enabled for the plain tracker at the same program state |
| `ActiveTesting.StepTransfers` | src/randact/randomactive.cpp:80-124 | every recorded step of a tester is legal for the plain tracker and leads to the same program state |
| `ActiveTesting.RecordedScheduleIsFeasible` | src/randact/randomactive.cpp:80-124 | whatever a tester pauses and releases, the schedule without these steps is a run of the plain tracker with the same program states |
| `ActiveTesting.ReplayOfTesterNeverTrips` | src/serializer/executiontracker.cpp:1096-1105 | from the start of the program, replaying what a tester recorded only launches enabled threads |
| `ActiveTesting.TesterDeadlockExactly` | src/randact/randomlock.cpp:66-78 | with nobody paused, a tester reports a deadlock if and only if every thread that could proceed is a try-lock that the tester queued on an owned mutex |
| `ActiveTesting.FalseDeadlock` | src/randact/randomlock.cpp:66-78 | such a false report exists: a thread that locks a mutex and try-locks it at a target address |
| `RandomTesters.RandomActiveTester.ReenableThreadIfLegal` | src/randact/randomlock.cpp:66-78 | releasing a paused thread is exactly the protocol's release step, and the result says whether the thread is enabled |
| `RandomTesters.RandomActiveTester.IsRacing` | src/randact/randomactive.cpp:26-43 | exactly the paused threads are returned, each once, that stand at the same address while one of the two accesses is a write; the assertion that accesses of one thread are never compared holds |
| `RandomTesters.RandomActiveTester.EnableSpecific` | src/randact/randomactive.cpp:45-53 | exactly the given threads are released and the program state does not change |
| `RandomTesters.RandomActiveTester.HandleTarget` | src/randact/randomlock.cpp:22-39 | the arriving access is compared with the paused ones: either exactly the racing threads are released and a race is noted, or the arriving thread alone is paused with its access on record |
| `RandomTesters.RandomActiveTester.HandleBeforeMutexLock` | src/randact/randomlock.cpp:22-39 | taking a lock is compared, as a write to it, exactly at the two target addresses; elsewhere nothing changes |
| `RandomTesters.RandomActiveTester.HandleMyMemoryAccess` | src/randact/randomdata.cpp:36-72 | a read or write is compared exactly at the two target instructions; elsewhere nothing changes |
| `RandomTesters.RandomActiveTester.HandleAfterMutexUnlock` | src/randact/randomlock.cpp:42-52 | after an unlock exactly the paused threads are disabled again |
| `RandomTesters.RandomActiveTester.LivelockPrevention` | src/randact/randomactive.cpp:66-78 | one time in 200, by the C remainder, exactly the paused thread the second random number selects is released; otherwise nothing changes |
| `RandomTesters.RandomActiveTester.ReleaseUntilEnabled` | src/randact/randomactive.cpp:107-120 | releasing paused threads terminates, with an enabled one or with nobody paused and nobody enabled |
| `RandomTesters.RandomActiveTester.PickNextSchedulingChoice` | src/randact/randomactive.cpp:80-124 | the enabled thread that the random number selects among the preferred ones, after releases if nobody was enabled; it is not paused; -1 only if nobody is enabled and nobody is paused any more; the program state does not change |
| `RandomChoice.ChooseRandomThread` | src/randomschedule/randomtracker.cpp:59-91 | the true entry with as many true entries below it as the C remainder of the random number by their count says (none for a negative remainder); -1 exactly if there is none |
| `RandomChoice.Remainder` | src/addrserial/addrtracker.cpp:102-105 | the C remainder for operands of any sign: a is n times a quotient plus it, it is smaller than n and has the sign of a |
| `RandomChoice.RemainderUnique` | src/addrserial/addrtracker.cpp:102-105 | no other number obeys that law |
| `RandomChoice.ChoiceRepeats` | src/addrserial/addrtracker.cpp:102-115 | adding the number of candidates to a nonnegative random number does not change the choice |
| `RandomChoice.EveryChoicePossible` | src/addrserial/addrtracker.cpp:85-118 | every candidate is chosen by some random number |
| `ExecutionTracker.Requeue` | src/serializer/executiontracker.cpp:455-466 | the loops that move everybody queued on an object from one map to the other, for every iteration order |
| `ExecutionTracker.ExecutionTracker.constructor` | src/serializer/executiontracker.cpp:1041-1071 | the tracker of a program whose main thread has started |
| `ExecutionTracker.ExecutionTracker.DetermineLockStatus` | src/serializer/executiontracker.cpp:468-487 | ready and enabled if the mutex is free, waiting and disabled if not |
| `ExecutionTracker.ExecutionTracker.BeforeMutexLock` | src/serializer/executiontracker.cpp:489-513 | the hook takes the lock step of the protocol and keeps the invariant |
| `ExecutionTracker.ExecutionTracker.ThreadHasAcquiredLock` | src/serializer/executiontracker.cpp:455-466 | everybody else ready on the mutex waits again, disabled |
| `ExecutionTracker.ExecutionTracker.SimulateMutexLock` | src/serializer/executiontracker.cpp:557-569 | the trylock finds the mutex free and the thread owns it; the wake step of the protocol |
| `ExecutionTracker.ExecutionTracker.BeforeMutexTrylock` | src/serializer/executiontracker.cpp:114-126 | the try-lock step of the protocol |
| `ExecutionTracker.ExecutionTracker.SimulateMutexTrylock` | src/serializer/executiontracker.cpp:128-138 | succeeds exactly if the mutex is free, and then owns it |
| `ExecutionTracker.ExecutionTracker.ThreadHasReleasedLock` | src/serializer/executiontracker.cpp:571-581 | everybody waiting on the mutex becomes ready and enabled |
| `ExecutionTracker.ExecutionTracker.AfterMutexUnlock` | src/serializer/executiontracker.cpp:589-615 | the unlock step of the protocol |
| `ExecutionTracker.ExecutionTracker.ReturnFromPause` | src/serializer/executiontracker.cpp:990-1001 | any other thread returns from its pause semaphore; the wake step of the protocol |
| `ExecutionTracker.ExecutionTracker.DetermineSemaphoreStatus` | src/serializer/executiontracker.cpp:1187-1196 | ready and enabled if the value is positive, waiting and disabled if not |
| `ExecutionTracker.ExecutionTracker.BeforeSemWait` | src/serializer/executiontracker.cpp:1198-1211 | the semaphore-wait step of the protocol |
| `ExecutionTracker.ExecutionTracker.ThreadHasPassedSemaphore` | src/serializer/executiontracker.cpp:1220-1234 | when the value has dropped to zero everybody else ready on the semaphore waits again, disabled |
| `ExecutionTracker.ExecutionTracker.SimulateSemWait` | src/serializer/executiontracker.cpp:1236-1246 | both assertions hold; the wake step of the protocol |
| `ExecutionTracker.ExecutionTracker.SemaphoreIsPosted` | src/serializer/executiontracker.cpp:1254-1264 | everybody waiting on the semaphore becomes ready and enabled |
| `ExecutionTracker.ExecutionTracker.SimulateSemPost` | src/serializer/executiontracker.cpp:1266-1279 | the post step of the protocol |
| `ExecutionTracker.ExecutionTracker.InitializeThreadData` | src/serializer/executiontracker.cpp:1041-1071 | every map gets its entry for the new thread |
| `ExecutionTracker.ExecutionTracker.AfterCreate` | src/serializer/executiontracker.cpp:388-418 | the creation step of the protocol |
| `ExecutionTracker.ExecutionTracker.BeforeJoin` | src/serializer/executiontracker.cpp:420-443 | the join step of the protocol; the assertion on the join map holds |
| `ExecutionTracker.ExecutionTracker.FinalizeThread` | src/serializer/executiontracker.cpp:1031-1039 | the finish step of the protocol: whoever joins this thread is enabled |
| `ExecutionTracker.ExecutionTracker.BeforeBarrierInit` | src/serializer/executiontracker.cpp:1309-1319 | the barrier initialisation step of the protocol |
| `ExecutionTracker.ExecutionTracker.BeforeBarrierWait` | src/serializer/executiontracker.cpp:1321-1349 | the barrier step of the protocol: the last arrival releases everybody, both assertions hold |
| `ExecutionTracker.ExecutionTracker.SimulateCondWait` | src/serializer/executiontracker.cpp:658-675 | condition waits, timed or not, up to their scheduling point: the mutex is released and the thread stands on the condition |
| `ExecutionTracker.ExecutionTracker.TimedwaitTimesOut` | src/serializer/executiontracker.cpp:731-735 | a timed wait that is scheduled directly leaves the condition |
| `ExecutionTracker.ExecutionTracker.RelockAfterTimeout` | src/serializer/executiontracker.cpp:738-748 | it then queues for its mutex, and finds itself not signalled |
| `ExecutionTracker.ExecutionTracker.EndTimedwait` | src/serializer/executiontracker.cpp:752-763 | the wait takes its mutex and returns a timeout exactly if the thread had not been signalled when it queued for it |
| `ExecutionTracker.ExecutionTracker.SelectThreadWaitingOnCond` | src/serializer/executiontracker.cpp:810-818 | the smallest thread on the condition, or -1 exactly if there is none |
| `ExecutionTracker.ExecutionTracker.ScheduleThreadWaitingOnCond` | src/serializer/executiontracker.cpp:788-797 | the selection step of the protocol |
| `ExecutionTracker.ExecutionTracker.WaitThreadReady` | src/serializer/executiontracker.cpp:774-785 | the hand-off step of the protocol: the woken thread queues for its mutex as a signalled one; the next waiter of a broadcast, or -1 exactly when the signal is complete |
| `ExecutionTracker.ExecutionTracker.StartSignal` | src/serializer/executiontracker.cpp:799-808 | a signal is missed exactly if nobody waits on the condition |
| `ExecutionTracker.ExecutionTracker.SignalOne` | src/serializer/executiontracker.cpp:834-843 | exactly one waiter, the logged one or the smallest, is woken and logged |
| `ExecutionTracker.ExecutionTracker.BroadcastAll` | src/serializer/executiontracker.cpp:825-833 | the broadcast loop terminates with every waiter queued for its mutex |
| `ExecutionTracker.ExecutionTracker.PickNextSchedulingChoice` | src/serializer/executiontracker.cpp:1086-1094 | the smallest enabled thread, or -1 exactly if none is enabled |
| `ExecutionTracker.ExecutionTracker.LaunchThread` | src/serializer/executiontracker.cpp:1096-1105 | posts the one semaphore the target sleeps on |
| `ExecutionTracker.ExecutionTracker.Schedule` | src/serializer/executiontracker.cpp:1150-1177 | follows the log or picks, logs the decision with the enabled threads, and reports a deadlock exactly if no thread can proceed |
| `BarrierTracker.BarrierTracker.InitBarrier` | src/serializer/barriertracker.cpp:11-23 | the count of this barrier is set, added if it was missing |
| `BarrierTracker.BarrierTracker.GetBarrierCount` | src/serializer/barriertracker.cpp:25-36 | the count of a known barrier |
| `BarrierTracker.BarrierTracker.GetNumberThreadsWaitingOnBarrier` | src/serializer/barriertracker.cpp:43-52 | how many threads wait on it |
| `BarrierTracker.BarrierTracker.GetThreadsWaitingOnBarrier` | src/serializer/barriertracker.cpp:54-64 | each of them once |
| `BarrierTracker.BarrierTracker.ClearThreadsWaitingOnBarrier` | src/serializer/barriertracker.cpp:66-73 | exactly they stop waiting |
| `FairScheduling.EdgesFollowYields` | src/addrserial/fairscheduler.cpp:74-147 | in every run, a thread that has priority over another has yielded less recently |
| `FairScheduling.PriorityIsAcyclic` | src/addrserial/fairscheduler.cpp:74-147 | the priority relation has no cycle after any run |
| `FairScheduling.SomeThreadFairEnabled` | src/addrserial/fairscheduler.cpp:33-49 | some thread is fair-enabled whenever some thread is enabled |
| `Fairness.WindowSetsAreHistory` | src/addrserial/fairscheduler.cpp:74-147 | the three window sets equal their definitions over the history since the thread's last yield |
| `Fairness.PriorityIsHistory` | src/addrserial/fairscheduler.cpp:118-140 | in every run a thread is below another if and only if some yield of it put it there, since its previous yield the other had not run and was enabled all the time or was disabled by one of its steps, and the other has not run since |
| `Fairness.NeglectedComesFirst` | src/addrserial/fairscheduler.cpp:118-140 | so in every chess run, after two yields of t between which u stayed enabled or was disabled by t itself, t is not launched again at a point where u is enabled until u runs, however often u is disabled in between |
| `ChessTracker.ChessTracker.Schedule` | src/chessserial/chesstracker.cpp:12-31 | every history the chess tracker makes, on fresh and on replayed steps, is a fair run; -1 if and only if no thread is enabled |
| `ChessTracker.ChessHistoriesAreFair` | src/chessserial/chesstracker.cpp:12-31 | so in what the tracker produces no thread runs again after yielding twice while another stays enabled without running |
| `Fairness.AtMostTwoYields` | src/chessserial/chesstracker.cpp:12-31 | in every chess run, while a thread stays enabled without running, no other thread runs again after yielding twice |
| `FairScheduler.FairScheduler.UpdateDataStructures` | src/addrserial/fairscheduler.cpp:74-147 | the loops compute the specified update of all four set maps, in any iteration order |
| `FairScheduler.FairScheduler.IsFairEnabled` | src/addrserial/fairscheduler.cpp:33-49 | enabled, and no enabled thread has priority over it |
| `FairScheduler.FairScheduler.GetFairEnabledMap` | src/addrserial/fairscheduler.cpp:51-72 | the fair-enabled threads; the enabled set is remembered for the next point |
| `FairScheduler.FairScheduler.AdvanceWith` | src/chessserial/chesstracker.cpp:12-19 | the scheduler's state is that of its whole history, and some thread is fair-enabled exactly if some thread is enabled |
| `FairScheduler.FairScheduler.NonpreemptiveFairSchedule` | src/addrserial/fairscheduler.cpp:11-30 | the caller if fair-enabled, else the smallest fair-enabled thread; -1 if and only if no thread is enabled |
| `RelaxedTracker.AddrTracker.NoScheduleToFollow` | src/addrserial/addrtracker.cpp:28-42 | the fair scheduler supplies the caller if it is fair-enabled, else the fair-enabled thread that the random number selects; the point joins the fair history |
| `RelaxedTracker.AddrTracker.RegenerateRelaxedSchedule` | src/relaxedserial/relaxedtracker.cpp:97-105 | the next block becomes current; an exhausted schedule names no thread |
| `RelaxedTracker.AddrTracker.RegenerateUntilEnabled` | src/relaxedserial/relaxedtracker.cpp:74-83 | the regenerate loop terminates with the thread and the rest of the schedule of the first usable block, or with a fair choice if that block names no thread or none is left |
| `RelaxedTracker.FoundIs` | src/relaxedserial/relaxedtracker.cpp:74-83 | which block that is: every earlier one names a thread that is not enabled |
| `RelaxedTracker.HandsOverIff` | src/relaxedserial/relaxedtracker.cpp:74-83 | the fair scheduler takes over if and only if a block that names no thread precedes every usable one |
| `RelaxedTracker.EarlyHandover` | src/relaxedserial/relaxedlogger.cpp:32-36 | a schedule file with thread -1 in front of a usable block does so |
| `RelaxedTracker.AddrTracker.Schedule` | src/relaxedserial/relaxedtracker.cpp:62-94 | the current thread again, with schedule and fair history unchanged, exactly if its address has not been passed too often, it is not overdue and it is enabled; otherwise the thread of the first usable block, or a fair choice; the launched thread is enabled |
| `RelaxedTracker.LastsIff` | src/relaxedserial/relaxedtracker.cpp:54-94 | over a sequence of calls a block goes on if and only if its thread stays enabled, its address is passed at most the stated number of times and the thread is scheduled at most twice its share |
| `RelaxedTracker.AddrTracker.CheckAddressOfContextSwitch` | src/addrserial/addrtracker.cpp:44-53 | a switch is due exactly when the address has been passed too often |
| `RelaxedTracker.AddrTracker.GetNextSignalChoice` | src/relaxedserial/relaxedlogger.cpp:13-21 | the signals of the current block in order, then none |
| `RelaxedTracker.AddrTracker.ChooseThreadOnCond` | src/addrserial/addrtracker.cpp:60-79 | the requested thread if it waits on the condition, else the first signal of the block that names a waiter, else the waiter the random number selects; -1 exactly if nobody waits |
| `HappensBefore.HistoryIsReachability` | src/racer/vctrack.cpp:12-72 | the causal histories passed along with the clocks are exactly the events that happen before |
| `HappensBefore.ClocksCharacteriseHappensBefore` | src/racer/vctrack.cpp:41-51 | for any run and any two events of different threads, the clock of one is at most that of the other if and only if it happens before it |
| `VectorClocks.VectorClockTracker.ReceiveMessage` | src/racer/vctrack.cpp:20-34 | the loop computes the pointwise maximum |
| `VectorClocks.VectorClockTracker.IsHappensBefore` | src/racer/vctrack.cpp:41-51 | decides the pointwise order |
| `VectorClocks.VectorClockTracker.AfterJoin` | src/racer/vctrack.cpp:53-55 | the join step of the clocks |
| `VectorClocks.VectorClockTracker.BeforeSignal` | src/racer/vctrack.cpp:57-61 | the signal step of the clocks |
| `VectorClocks.VectorClockTracker.AfterWait` | src/racer/vctrack.cpp:63-65 | the wait step of the clocks |
| `VectorClocks.VectorClockTracker.BeforeCreate` | src/racer/vctrack.cpp:67-72 | the creation step of the clocks |
| `HybridRaces.RacingIffConcurrent` | src/racer/hybridtrack.cpp:58-79 | two observed accesses race if and only if they conflict, share no lock and neither happens before the other |
| `HybridRaces.RacingSymmetric` | src/racer/hybridtypes.h:127-135 | the order of the two events does not matter for the race nor for its record |
| `HybridRaces.HybridRaceTracker.AddEvent` | src/racer/hybridtrack.cpp:44-56 | what is retained per address is always the longest allowed prefix of what was observed, reads and writes sharing one limit |
| `HybridRaces.KeptAsIntendedIff` | src/racer/hybridtrack.cpp:44-56 | the code retains what its two limits ask for if and only if no write comes at a place where the limits differ |
| `HybridRaces.KeptAsIntendedAlwaysIff` | src/racer/libracer.cpp:10-12 | it does so for every list of events if and only if the limits are equal, as the handler sets them; otherwise a list of one write more than the smaller limit is retained wrongly |
| `HybridRaces.HybridRaceTracker.IsRacing` | src/racer/hybridtrack.cpp:58-79 | decides the race condition |
| `HybridRaces.IsIntersectionEmpty` | src/racer/locktrack.cpp:26-34 | decides disjointness of lock sets |
| `HybridRaces.HybridRaceTracker.LockBefore` | src/racer/locktrack.cpp:8-12 | the lock joins this thread's set only |
| `HybridRaces.HybridRaceTracker.UnlockAfter` | src/racer/locktrack.cpp:15-24 | the lock leaves this thread's set only |
| `HybridRaces.HybridRaceTracker.CheckRace` | src/racer/hybridtrack.cpp:24-42 | exactly the races of this event are added, no unordered pair twice |
| `HybridRaces.HybridRaceTracker.OutputRaces` | src/racer/hybridtrack.cpp:149-157 | each unordered pair of statements is listed once, if and only if two retained events of one address race |
| `ScheduleText.ChangeSpacesToUnderscores` | src/serializer/serializertypes.cpp:29-37 | blanks become underscores, nothing else changes |
| `ScheduleText.SetWhitespaceToColon` | src/serializer/logger.cpp:426-436 | everything up to the first colon becomes blank |
| `ScheduleText.Readfile.ReconstituteSchedule` | src/serializer/logger.cpp:160-193 | reading a printed schedule returns its decisions in order, whichever marker ends the log |
| `ScheduleText.Readfile.SetSchedulableAddresses` | src/serializer/logger.cpp:134-158 | reading a printed address list returns the same set, null pointers included |
| `ScheduleText.MarkerEnds` | src/serializer/logger.cpp:349-363 | each of the five markers ends the log, whatever follows it |
| `ScheduleText.ListReads` | src/serializer/serializertypes.cpp:46-51 | the printed threads are read back in order, each number closed by a comma, all on one line |
| `ScheduleText.WrittenSchedule` | src/serializer/serializertypes.cpp:39-53 | the text of a scheduling record, key by key |
| `ScheduleText.WrittenSignal` | src/serializer/serializertypes.cpp:65-79 | the text of a signal record, key by key |
| `ScheduleText.PrintSchedule` | src/serializer/logger.cpp:715-722 | what is written for addresses and decisions |
| `ScheduleText.PrintThenParse` | src/serializer/logger.cpp:278-290 | printing and reading back returns the addresses and the decisions |
| `Numerals.AtoiReads` | src/serializer/logger.cpp:370-375 | a printed number is read back after any blanks and before any end that is no digit |
| `Numerals.WrittenNumerals` | src/serializer/serializertypes.cpp:41-44 | the digits and whole numerals as the two formats write them, the null pointer included |
| `Numerals.StrtoulReads` | src/serializer/logger.cpp:129-132 | a printed pointer is read back, also the null pointer |
| `QuickSort.FallbackSimpleSort` | benchmarks/simpl/bzip2/src/blocksort.c:79-108 | sorts a short range by class, permutes it and touches nothing outside |
| `QuickSort.ThreeWayPartition` | benchmarks/simpl/bzip2/src/blocksort.c:179-217 | permutes the range into smaller, equal and greater keys |
| `QuickSort.FallbackQSort3` | benchmarks/simpl/bzip2/src/blocksort.c:140-227 | sorts the range by class, permutes it, touches nothing outside, terminates, and asserts that the explicit stack is not full |
| `QuickSort.StackFits` | benchmarks/simpl/bzip2/src/blocksort.c:158 | the explicit stack never holds more than 32 of its 100 entries |
| `PrefixDoubling.ClassesDecide` | benchmarks/simpl/bzip2/src/blocksort.c:313-318 | after the first loop of a pass the classes order the rotations h bytes further on by their next h bytes |
| `PrefixDoubling.RefineBucket` | benchmarks/simpl/bzip2/src/blocksort.c:341-352 | sorting a bucket by class and marking the changes refines it from h to 2h bytes, header bits exact |
| `PrefixDoubling.SkipSingletons` | benchmarks/simpl/bzip2/src/blocksort.c:324-332 | buckets with one member are already refined |
| `PrefixDoubling.FinalOrder` | benchmarks/simpl/bzip2/src/blocksort.c:358-359 | when the depth exceeds the block or every bucket is a singleton, the rotations are in lexicographic order |
| `FallbackSort.Distribute` | benchmarks/simpl/bzip2/src/blocksort.c:283-288 | the radix loop lists every position once, grouped by first byte |
| `FallbackSort.SkipBits` | benchmarks/simpl/bzip2/src/blocksort.c:325-338 | finds the next bit of the other value, skipping whole words, stopped by the sentinels |
| `FallbackSort.NextBucket` | benchmarks/simpl/bzip2/src/blocksort.c:322-339 | the next bucket with more than one member, or none |
| `FallbackSort.AssignClasses` | benchmarks/simpl/bzip2/src/blocksort.c:313-318 | each position gets the header of the bucket h bytes further on |
| `FallbackSort.ScanBucket` | benchmarks/simpl/bzip2/src/blocksort.c:346-351 | header bits exactly where the class changes |
| `FallbackSort.RefinePass` | benchmarks/simpl/bzip2/src/blocksort.c:306-354 | one pass doubles the depth of the order and of the header bits; no position unresolved means every bucket is a singleton |
| `FallbackSort.Reconstruct` | benchmarks/simpl/bzip2/src/blocksort.c:362-375 | the block is rebuilt from the sorted list and the byte counts |
| `FallbackSort.FallbackSort` | benchmarks/simpl/bzip2/src/blocksort.c:259-376 | the list is a permutation in non-decreasing lexicographic order of all cyclic rotations, and the block is unchanged |
| `Rotations.AtMostSplits` | benchmarks/simpl/bzip2/src/blocksort.c:294-298 | comparing g + h bytes is comparing g bytes and then the next h |
| `MainGtU.IsGreater` | benchmarks/simpl/bzip2/src/blocksort.c:394-516 | true exactly when the first rotation is lexicographically greater; all reads stay inside the extended arrays; the budget drops by exactly the number of rounds of eight behind the first twelve bytes in which the rotations agree |
| `Ranks.RankOrder` | benchmarks/simpl/bzip2/src/blocksort.c:394-516 | the number of smaller rotations orders the rotations lexicographically |
| `ShellSort.MainSimpleSort` | benchmarks/simpl/bzip2/src/blocksort.c:532-602 | permutes the range and, unless the budget ran out, sorts it in the order of the rotations; the budget is overdrawn by at most three insertions in each of thirteen passes; every index handed to the comparison is readable |
| `MainQSort.SplitsLow` | benchmarks/simpl/bzip2/src/blocksort.c:691-701 | a range that is split lies so low on the stack that at most 22 of its 100 entries are ever used |
| `MainQSort.SplitTop` | benchmarks/simpl/bzip2/src/blocksort.c:743-763 | partitioning by the byte at depth d keeps: order across ranges, agreement on d bytes inside each, depth at most one more than the threshold, sizes that shrink up the stack |
| `MainQSort.Split` | benchmarks/simpl/bzip2/src/blocksort.c:703-763 | the popped range is replaced by itself one byte deeper or by its three parts, largest first |
| `MainQSort.MainQSort3` | benchmarks/simpl/bzip2/src/blocksort.c:668-764 | permutes the range and, unless the budget ran out, leaves it in lexicographic order of the rotations, and overdraws the budget by no more than one simple sort; terminates, assertion 1001 holds, and every comparison stays inside the extended arrays |
| `MainGtU.CacheDecides` | benchmarks/simpl/bzip2/src/blocksort.c:1011-1032 | the documented quadrant invariant gives the order of the rotations also behind the end of the block |
| `RunLength.DecodedCode` | benchmarks/simpl/bzip2/src/bzlib.c:788-841 | decoding the code of separated runs returns the runs, whatever lies behind the block |
| `RunLengthDecoder.Decoder.Small` | benchmarks/simpl/bzip2/src/bzlib.c:941-981 | delivers exactly as much of the remaining output as fits, keeps the rest, and reports a corruption if and only if the block is damaged and there is room behind its last byte |
| `RunLengthDecoder.Decoder.Fast` | benchmarks/simpl/bzip2/src/bzlib.c:767-859 | the same for the loop with local copies, which reports also when the last byte just fills the buffer, and then delivers nothing and changes nothing |
| `RunLengthDecoder.DecodeTwice` | benchmarks/simpl/bzip2/src/bzlib.c:767-981 | for every block, intact or damaged, and any list of buffer sizes the two loops make exactly the specified calls |
| `RunLengthDecoder.SameUntilReport` | benchmarks/simpl/bzip2/src/bzlib.c:767-981 | up to the first report, which the fast loop makes first, the calls agree in bytes and flag |
| `RunLengthDecoder.SameCallsIff` | benchmarks/simpl/bzip2/src/bzlib.c:767-981 | for a given list of sizes all calls agree if and only if the block is intact or the buffers do not exhaust its output |
| `RunLengthDecoder.SameCallsAlwaysIff` | benchmarks/simpl/bzip2/src/bzlib.c:767-981 | the two loops agree for all lists of buffer sizes if and only if the block is intact |
| `RunLengthDecoder.DamagedBlock` | benchmarks/simpl/bzip2/src/bzlib.c:812-814 | four equal bytes without a count and a buffer of exactly the output's length: one loop reports and delivers nothing, the other delivers everything and reports nothing |
| `RunLengthDecoder.DeliveredBytes` | benchmarks/simpl/bzip2/src/bzlib.c:767-859 | for an intact block the calls together deliver as much of the output as the buffers hold |
| `RunLengthEncoder.Encoder.AddPairToBlock` | benchmarks/simpl/bzip2/src/bzlib.c:273-304 | appends the code of the open run |
| `RunLengthEncoder.Encoder.AddCharToBlock` | benchmarks/simpl/bzip2/src/bzlib.c:317-341 | one more byte is represented; at most five bytes are appended |
| `RunLengthEncoder.Encoder.FlushRL` | benchmarks/simpl/bzip2/src/bzlib.c:309-313 | the open run is written and closed |
| `RunLengthEncoder.Encoder.CopyInputUntilStop` | benchmarks/simpl/bzip2/src/bzlib.c:345-386 | consumes input exactly until the block is full, the input is used up or the flush is complete |
| `RunLengthEncoder.Stream.CopyOutputUntilStop` | benchmarks/simpl/bzip2/src/bzlib.c:391-414 | delivers as much of the compressed block as there is room for |
| `RunLengthEncoder.Stream.HandleCompress` | benchmarks/simpl/bzip2/src/bzlib.c:431-486 | in any mode and with any output space: blocks and open run stand for the input taken, delivered and waiting output are the compressed blocks; the call ends exactly when the output is full or the request is complete, and resumes from there |
| `RunLengthEncoder.Compress` | benchmarks/simpl/bzip2/src/bzlib.c:251 | for every input, every division into calls with or without flushes, every sequence of output sizes and every block split, the output is that of blocks which together decode to the input, none longer than 100000 * blockSize100k - 10 bytes |
| `MersenneTwister.TwistIsRecurrence` | src/Mersenne-1.1/MersenneTwister.h:128-136 | the bit expression is the step of the plain recurrence |
| `MersenneTwister.TermsSmall` | src/Mersenne-1.1/MersenneTwister.h:128-136 | all terms stay below 2^32 although words are 64 bits wide |
| `MersenneTwister.TermShifts` | src/Mersenne-1.1/MersenneTwister.h:364-381 | a later window starts the rest of the same sequence |
| `MersenneTwister.MTRand.constructor` | src/Mersenne-1.1/MersenneTwister.h:200-205 | after seeding the next number is term N of the recurrence |
| `MersenneTwister.MTRand.Initialize` | src/Mersenne-1.1/MersenneTwister.h:167-182 | the first N terms come from the seed, all below 2^32 |
| `MersenneTwister.MTRand.Reload` | src/Mersenne-1.1/MersenneTwister.h:184-198 | rewriting the array in place yields the next N terms |
| `MersenneTwister.MTRand.RandInt` | src/Mersenne-1.1/MersenneTwister.h:284-298 | each call returns the next term, tempered and below 2^32 |
| `MersenneTwister.TemperInverse` | src/Mersenne-1.1/MersenneTwister.h:294-297 | the published inverse undoes the tempering of every word below 2^32 |
| `MersenneTwister.TemperLinear` | src/Mersenne-1.1/MersenneTwister.h:294-297 | the tempering of a sum over xor is the sum of the temperings |
| `MersenneTwister.TemperOfBits0To7` | src/Mersenne-1.1/MersenneTwister.h:294-297 | the images of the eight lowest single bits |
| `MersenneTwister.TemperOfBits8To15` | src/Mersenne-1.1/MersenneTwister.h:294-297 | of the next eight |
| `MersenneTwister.TemperOfBits16To23` | src/Mersenne-1.1/MersenneTwister.h:294-297 | of the next eight |
| `MersenneTwister.TemperOfBits24To31` | src/Mersenne-1.1/MersenneTwister.h:294-297 | and of the eight highest, so that the tempering of every word is determined |
| `MersenneTwister.SeedImages` | src/Mersenne-1.1/MersenneTwister.h:179 | values of the seeding step |
| `MersenneTwister.RecurrenceImages` | src/Mersenne-1.1/MersenneTwister.h:128-136 | values of the recurrence step |
| `MersenneTwister.MTRand.Save` | src/Mersenne-1.1/MersenneTwister.h:364-371 | the words of the state, and in the last word the number of words left |
| `MersenneTwister.MTRand.Load` | src/Mersenne-1.1/MersenneTwister.h:373-381 | the generator continues the stream of the one that was saved |

## Left out

- real OS threads, signals, files, clocks and `_Exit`: mutexes, semaphores and barriers are explicit state, files are character sequences, random numbers are parameters, and a failed `safe_assert` is a proof obligation.
- invalid or destroyed objects, attribute setters, sigwait, thread-specific data, the exit map and unlocks by a thread that has already finished: the tracker only forwards or ignores them.
- misuse of pthread objects: as POSIX demands, threads unlock only what they own, a thread has one joiner, barrier counts are at least one, and a semaphore or barrier is not initialised while somebody waits on it.
- scheduling points for memory accesses, sleeps and checkpoints: all are the one `Pass` operation, which only yields.
- call addresses (`ret_addr`) in the replay model and the comparison of addresses in the strict tracker: a replayed run goes through the same states, so the addresses of a deterministic program agree.
- the fair scheduler is modelled for thread maps that only grow, since no hook of the tracker removes a thread.
- RandomTesters.RandomActiveTester.ReenableThreadIfLegal: does not model the branch for invalid mutexes.
- ScheduleText.PrintThenParse: needs every line to fit the read buffer, because a longer enabled list would be split by `fgets`; widths of `int` and of pointers are not modelled.
- QuickSort.FallbackQSort3: the two stack arrays are one sequence of ranges, and `eclass`, which the sort only reads, is passed as a value.
- FallbackSort.FallbackSort: the words of `bhtab` are groups of 32 booleans; `block` and `eclass`, which share memory, are two arrays, and the bytes are cleared where the words would overwrite them.
- MainGtU.IsGreater: the unrolled comparisons are loops of twelve and of eight.
- MainQSort.MainQSort3: the stack arrays are one sequence, the bytes at the depth of a range are passed to the partition as a value, and `mainSort`, which calls it and maintains the quadrants, is not modelled.
- RunLengthDecoder.Decoder.Fast: block bytes come from a function instead of the inverse block sort; randomised blocks, checksums and the bytes a failed call leaves in the caller's buffer are not modelled.
- RunLengthEncoder.Stream.HandleCompress: what `BZ2_compressBlock` makes of a block is an arbitrary function of the block; `nblock` is reset when the block is compressed instead of after its output, and the sequence errors of the calling interface are not modelled.
- seeding from an array or from the clock, and the floating-point results of the random generator.
- parsing of relaxed schedules, the log hash and the sparsifying of addresses.
- instrumentation, code generation, the pthread wrappers and the other benchmark programs.
