/**
 * The maps of `ExecutionTracker` and `BarrierTracker` as a value, and what each hook does to them
 * (src/serializer/executiontracker.cpp, src/serializer/barriertracker.cpp). That the
 * assertions of the source never fail is proved in `SerializerGuarantees` and, where they stand, in
 * `ExecutionTracker`.
 */
module Tracker {
  import opened SerializerTypes

  datatype Maps = Maps(
    enabled: map<ThrID, bool>,
    finished: map<ThrID, bool>,
    joiner: map<ThrID, ThrID>,
    lockReady: map<ThrID, Option<Mutex>>,
    lockWait: map<ThrID, Option<Mutex>>,
    semReady: map<ThrID, Option<Sem>>,
    semWait: map<ThrID, Option<Sem>>,
    onCond: map<ThrID, Option<Cond>>,
    waitReady: map<ThrID, bool>,
    wasSignalled: map<ThrID, bool>,
    pauseSem: map<ThrID, nat>,
    waitSem: map<ThrID, nat>,
    barrierCount: map<Barrier, nat>,
    onBarrier: map<ThrID, Option<Barrier>>)

  /** `m[t]` of a C++ map, where a missing entry reads as the default value. */
  function Get<V>(m: map<ThrID, V>, t: ThrID, default: V): V {
    if t in m then m[t] else default
  }

  function Enable(tr: Maps, t: ThrID): Maps { tr.(enabled := tr.enabled[t := true]) }
  function Disable(tr: Maps, t: ThrID): Maps { tr.(enabled := tr.enabled[t := false]) }

  function Initialize(tr: Maps, t: ThrID): Maps {
    Maps(tr.enabled[t := true], tr.finished[t := false], tr.joiner[t := UNJOINED],
         tr.lockReady[t := None], tr.lockWait[t := None], tr.semReady[t := None], tr.semWait[t := None],
         tr.onCond[t := None], tr.waitReady[t := true], tr.wasSignalled[t := true],
         tr.pauseSem[t := 0], tr.waitSem[t := 0], tr.barrierCount, tr.onBarrier[t := None])
  }

  /** `map[k] == v` for the map of a thread: the threads that queue on `x`. */
  function Queued<T(==)>(m: map<ThrID, Option<T>>, x: T): set<ThrID> {
    set t | t in m && m[t] == Some(x)
  }

  function SetAll<V>(m: map<ThrID, V>, ts: set<ThrID>, v: V): map<ThrID, V> {
    map t | t in m :: if t in ts then v else m[t]
  }

  // ---------------------------------------------------------------- mutexes

  /** `determineLockStatus`: probe the mutex, queue as ready or as waiting. */
  function DetermineLock(tr: Maps, free: bool, t: ThrID, m: Mutex): Maps {
    tr.(enabled := tr.enabled[t := free],
        lockReady := if free then tr.lockReady[t := Some(m)] else tr.lockReady,
        lockWait := if free then tr.lockWait else tr.lockWait[t := Some(m)])
  }

  /** `threadHasAcquiredLock`: everybody else ready on the mutex goes back to waiting. */
  function Acquired(tr: Maps, t: ThrID, m: Mutex): Maps {
    var ready := tr.lockReady[t := None];
    var losers := Queued(ready, m);
    tr.(lockReady := SetAll(ready, losers, None), lockWait := SetAll(tr.lockWait, losers, Some(m)),
        enabled := SetAll(tr.enabled, losers, false))
  }

  /** `AfterMutexUnlock`: everybody waiting on the mutex becomes ready, but the active testers keep their
      paused threads disabled. */
  function AfterUnlock(tr: Maps, m: Mutex, paused: set<ThrID>): Maps {
    var waiters := Queued(tr.lockWait, m);
    tr.(lockWait := SetAll(tr.lockWait, waiters, None), lockReady := SetAll(tr.lockReady, waiters, Some(m)),
        enabled := SetAll(SetAll(tr.enabled, waiters, true), paused, false))
  }

  // ---------------------------------------------------------------- semaphores

  function DetermineSem(tr: Maps, value: nat, t: ThrID, s: Sem): Maps {
    tr.(enabled := tr.enabled[t := value > 0],
        semReady := if value > 0 then tr.semReady[t := Some(s)] else tr.semReady,
        semWait := if value > 0 then tr.semWait else tr.semWait[t := Some(s)])
  }

  /** `threadHasPassedSemaphore`, with the value after the decrement. */
  function Passed(tr: Maps, value: int, t: ThrID, s: Sem): Maps {
    var ready := tr.semReady[t := None];
    var losers := if value > 0 then {} else Queued(ready, s);
    tr.(semReady := SetAll(ready, losers, None), semWait := SetAll(tr.semWait, losers, Some(s)),
        enabled := SetAll(tr.enabled, losers, false))
  }

  function SemPosted(tr: Maps, s: Sem): Maps {
    var waiters := Queued(tr.semWait, s);
    tr.(semWait := SetAll(tr.semWait, waiters, None), semReady := SetAll(tr.semReady, waiters, Some(s)),
        enabled := SetAll(tr.enabled, waiters, true))
  }

  // ---------------------------------------------------------------- join and finish

  function BeforeJoin(tr: Maps, t: ThrID, u: ThrID): Maps {
    var finished := Get(tr.finished, u, false);
    tr.(enabled := tr.enabled[t := finished],
        joiner := if finished then tr.joiner else tr.joiner[u := t])
  }

  function FinishEnables(enabled: map<ThrID, bool>, t: ThrID, joiner: ThrID): map<ThrID, bool> {
    if joiner != UNJOINED then enabled[t := false][joiner := true] else enabled[t := false]
  }

  /** `finalizeThread` up to its scheduling point: whoever joins this thread is enabled. */
  function Finalize(tr: Maps, t: ThrID): Maps {
    tr.(finished := tr.finished[t := true],
        enabled := FinishEnables(tr.enabled, t, Get(tr.joiner, t, UNJOINED)))
  }

  // ---------------------------------------------------------------- barriers

  /** This arrival completes the barrier. */
  predicate LastArrival(onBarrier: map<ThrID, Option<Barrier>>, count: nat, b: Barrier) {
    |Queued(onBarrier, b)| + 1 >= count
  }

  function ArrivalEnables(enabled: map<ThrID, bool>, onBarrier: map<ThrID, Option<Barrier>>, last: bool,
                          t: ThrID, b: Barrier): map<ThrID, bool>
  {
    if last then SetAll(enabled, Queued(onBarrier, b), true)[t := true] else enabled[t := false]
  }

  function ArrivalWaits(onBarrier: map<ThrID, Option<Barrier>>, last: bool, t: ThrID, b: Barrier)
    : map<ThrID, Option<Barrier>>
  {
    if last then SetAll(onBarrier, Queued(onBarrier, b), None) else onBarrier[t := Some(b)]
  }

  /** `BeforeBarrierWait`: the last arrival releases everybody, the others wait disabled. */
  function BeforeBarrier(tr: Maps, t: ThrID, b: Barrier): Maps {
    var last := LastArrival(tr.onBarrier, if b in tr.barrierCount then tr.barrierCount[b] else 0, b);
    tr.(enabled := ArrivalEnables(tr.enabled, tr.onBarrier, last, t, b),
        onBarrier := ArrivalWaits(tr.onBarrier, last, t, b))
  }

  // ---------------------------------------------------------------- scheduling

  /** `launchThread`: post the semaphore the target sleeps on; a thread on a condition times out. */
  function Launch(tr: Maps, t: ThrID): Maps {
    var onCond := Get(tr.onCond, t, None) != None;
    tr.(wasSignalled := if onCond then tr.wasSignalled[t := false] else tr.wasSignalled,
        waitSem := if onCond then Post(tr.waitSem, t) else tr.waitSem,
        pauseSem := if onCond then tr.pauseSem else Post(tr.pauseSem, t))
  }

  /** `scheduleThreadWaitingOnCond` up to the signaller's wait for its target. */
  function SelectWaiter(tr: Maps, w: ThrID): Maps {
    tr.(waitReady := tr.waitReady[w := false], waitSem := Post(tr.waitSem, w))
  }

  function Post(sem: map<ThrID, nat>, t: ThrID): map<ThrID, nat> {
    sem[t := Get(sem, t, 0) + 1]
  }

  /** `sem_wait` on a semaphore that was posted. */
  function Take(sem: map<ThrID, nat>, t: ThrID): map<ThrID, nat> {
    sem[t := if Get(sem, t, 0) > 0 then Get(sem, t, 0) - 1 else 0]
  }

  /** The selected thread returns from its wait semaphore and is off the condition. */
  function LeaveCond(tr: Maps, w: ThrID): Maps {
    tr.(waitSem := Take(tr.waitSem, w), onCond := tr.onCond[w := None])
  }

  /** The thread returns from its pause semaphore. */
  function Unpause(tr: Maps, t: ThrID): Maps {
    tr.(pauseSem := Take(tr.pauseSem, t))
  }

  function EnabledThreads(enabled: map<ThrID, bool>): set<ThrID> {
    set t | t in enabled && enabled[t]
  }

  /** Some thread is enabled: what `deadlockCheck` looks for. */
  predicate SomeEnabled(tr: Maps) {
    exists t :: t in tr.enabled && tr.enabled[t]
  }
}
