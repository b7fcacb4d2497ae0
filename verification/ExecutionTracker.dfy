/**
 * The tracker as the program runs it (src/serializer/executiontracker.cpp): hooks that update maps in
 * place, proved to take exactly the steps of the protocol. Every assertion of the source is proved
 * where it stands.
 */
module ExecutionTracker {
  import opened SerializerTypes
  import opened Posix
  import opened Tracker
  import opened Serializer
  import opened SerializerFrames
  import opened SerializerSteps
  import opened SerializerTheorems
  import opened SerializerGuarantees
  import opened Broadcast
  import BT = BarrierTracker
  import FS = FairScheduler
  import opened Replay
  import L = Logger

  // ---------------------------------------------------------------- loops over the maps

  /** Everybody queued on `x` moves from one queue to the other and is enabled or disabled. */
  method Requeue(from: map<ThrID, Option<int>>, to: map<ThrID, Option<int>>, enabled: map<ThrID, bool>,
                 x: int, on: bool)
    returns (from': map<ThrID, Option<int>>, to': map<ThrID, Option<int>>, enabled': map<ThrID, bool>)
    requires from.Keys == to.Keys == enabled.Keys
    ensures from' == SetAll(from, Queued(from, x), None)
    ensures to' == SetAll(to, Queued(from, x), Some(x))
    ensures enabled' == SetAll(enabled, Queued(from, x), on)
  {
    from', to', enabled' := from, to, enabled;
    SetNobody(from, None);
    SetNobody(to, Some(x));
    SetNobody(enabled, on);
    var todo := from.Keys;
    ghost var moved: set<ThrID> := {};
    while todo != {}
      invariant todo <= from.Keys
      invariant moved == Queued(from, x) - todo
      invariant from' == SetAll(from, moved, None)
      invariant to' == SetAll(to, moved, Some(x))
      invariant enabled' == SetAll(enabled, moved, on)
      decreases todo
    {
      HasElement(todo);
      var t :| t in todo;
      todo := todo - {t};
      if from'[t] == Some(x) {
        SetOneMore(from, moved, t, None);
        SetOneMore(to, moved, t, Some(x));
        SetOneMore(enabled, moved, t, on);
        moved := moved + {t};
        from', to', enabled' := from'[t := None], to'[t := Some(x)], enabled'[t := on];
      }
    }
    assert moved == Queued(from, x);
  }

  lemma SetNobody<V>(m: map<ThrID, V>, v: V)
    ensures SetAll(m, {}, v) == m
  {
  }

  lemma SetOneMore<V>(m: map<ThrID, V>, ts: set<ThrID>, t: ThrID, v: V)
    requires t in m
    ensures SetAll(m, ts + {t}, v) == SetAll(m, ts, v)[t := v]
  {
  }

  method EnableAll(enabled: map<ThrID, bool>, thr: seq<ThrID>, ghost waiting: set<ThrID>) returns (enabled': map<ThrID, bool>)
    requires forall t :: t in thr <==> t in waiting
    requires forall i :: 0 <= i < |thr| ==> thr[i] in enabled && !enabled[thr[i]]
    requires forall i, j :: 0 <= i < j < |thr| ==> thr[i] != thr[j]
    ensures enabled' == SetAll(enabled, waiting, true)
  {
    enabled' := enabled;
    ghost var done: set<ThrID> := {};
    SetNobody(enabled, true);
    for i := 0 to |thr|
      invariant done == set j | 0 <= j < i :: thr[j]
      invariant enabled' == SetAll(enabled, done, true)
    {
      assert !enabled'[thr[i]];
      SetOneMore(enabled, done, thr[i], true);
      enabled' := enabled'[thr[i] := true];
      done := done + {thr[i]};
    }
    forall t
      ensures t in done <==> t in waiting
    {
      assert t in waiting ==> t in thr;
      if t in thr {
        var j :| 0 <= j < |thr| && thr[j] == t;
        assert t in waiting;
      }
    }
    assert done == waiting;
  }

  /** A map's first key that satisfies the loop's test, or -1. */
  method FirstQueued(m: map<ThrID, Option<int>>, x: int) returns (r: ThrID)
    requires forall t :: t in m ==> t >= 0
    ensures r == INVALID_THREAD <==> Queued(m, x) == {}
    ensures r != INVALID_THREAD ==> r in Queued(m, x) && forall t :: t in Queued(m, x) ==> r <= t
  {
    var todo := m.Keys;
    while todo != {}
      invariant todo <= m.Keys
      invariant forall t :: t in m && t !in todo ==> m[t] != Some(x)
      decreases todo
    {
      var t := FS.Smallest(todo);
      if m[t] == Some(x) {
        assert t in Queued(m, x);
        return t;
      }
      todo := todo - {t};
    }
    assert forall t :: t !in Queued(m, x);
    return INVALID_THREAD;
  }

  class ExecutionTracker {
    var enabled: map<ThrID, bool>
    var finished: map<ThrID, bool>
    var joiner: map<ThrID, ThrID>
    var lockReady: map<ThrID, Option<Mutex>>
    var lockWait: map<ThrID, Option<Mutex>>
    var semReady: map<ThrID, Option<Sem>>
    var semWait: map<ThrID, Option<Sem>>
    var onCond: map<ThrID, Option<Cond>>
    var waitReady: map<ThrID, bool>
    var wasSignalled: map<ThrID, bool>
    var pauseSem: map<ThrID, nat>
    var waitSem: map<ThrID, nat>
    const bt: BT.BarrierTracker

    /** The mutexes, semaphores and barriers themselves, and where the threads of the program stand. */
    var os: Os
    var mode: Mode

    ghost function View(): Maps
      reads this, bt
      requires bt.Valid()
    {
      Maps(enabled, finished, joiner, lockReady, lockWait, semReady, semWait, onCond, waitReady, wasSignalled,
           pauseSem, waitSem, BT.Counts(bt.barInfo), bt.threadMap)
    }

    ghost function State(): Sys
      reads this, bt
      requires bt.Valid()
    {
      Sys(View(), os, mode, {}, {})
    }

    ghost predicate Valid()
      reads this, bt
    {
      bt.Valid() && Invariant(State())
    }

    /** `thread` is executing program code and may perform the operation. */
    ghost predicate MayPerform(thread: ThrID, op: Op)
      reads this, bt
    {
      Valid() && mode == Run(thread) && Legal(os, thread, op)
    }

    /** The hook has taken the step of this operation. */
    twostate predicate Performed(op: Op)
      requires bt.Valid() && old(bt.Valid()) && old(mode.Run?) && Legal(old(os), old(mode).thread, op)
      reads this, bt
    {
      Invariant(State()) && State() == PerformStep(old(State()), op)
    }

    constructor (main: ThrID)
      requires main >= 0
      ensures Valid() && State() == Start(main) && fresh(bt)
    {
      bt := new BT.BarrierTracker();
      enabled, finished, joiner := map[main := true], map[main := false], map[main := UNJOINED];
      lockReady, lockWait, semReady, semWait := map[main := None], map[main := None], map[main := None], map[main := None];
      onCond, waitReady, wasSignalled := map[main := None], map[main := true], map[main := true];
      pauseSem, waitSem := map[main := 0], map[main := 0];
      os, mode := Os(map[main := Running], map[], map[], map[]), Run(main);
      new;
      bt.threadMap := map[main := None];
      StartInvariant(main);
    }

    /** The operation has been started: the thread now stands at it. */
    method Settle(myself: ThrID, op: Op)
      requires bt.Valid() && mode == Run(myself) && Legal(os, myself, op)
      modifies this`os, this`mode
      ensures View() == old(View())
      ensures os == Begin(old(os), myself, op) && mode == ModeAfter(old(os), myself, op)
    {
      os, mode := Begin(os, myself, op), ModeAfter(os, myself, op);
    }

    /** The thread's pending operation completes and it returns to the program. */
    method Proceed(myself: ThrID)
      requires bt.Valid() && myself in os.loc && CanProceed(os, myself)
      modifies this`os, this`mode
      ensures View() == old(View())
      ensures os == Resume(old(os), myself) && mode == Run(myself)
    {
      os, mode := Resume(os, myself), Run(myself);
    }

    // -------------------------------------------------------------- mutexes

    /** Probes the mutex with a trylock. */
    method DetermineLockStatus(myself: ThrID, lock: Mutex)
      requires bt.Valid()
      modifies this`enabled, this`lockReady, this`lockWait
      ensures View() == DetermineLock(old(View()), Free(os, lock), myself, lock)
    {
      if !Free(os, lock) {
        enabled := enabled[myself := false];
        lockWait := lockWait[myself := Some(lock)];
      } else {
        enabled := enabled[myself := true];
        lockReady := lockReady[myself := Some(lock)];
      }
    }

    method BeforeMutexLock(myself: ThrID, lock: Mutex)
      requires MayPerform(myself, Lock(lock))
      modifies this
      ensures bt.Valid() && Performed(Lock(lock))
    {
      hide Invariant, View, DetermineLock;
      StepKeeps(State(), Perform(Lock(lock)));
      DetermineLockStatus(myself, lock);
      Settle(myself, Lock(lock));
    }

    method ThreadHasAcquiredLock(target: ThrID, lock: Mutex)
      requires bt.Valid() && QueuesAgree(View()) && target in View().lockReady
      modifies this`enabled, this`lockReady, this`lockWait
      ensures View() == Acquired(old(View()), target, lock)
    {
      lockReady := lockReady[target := None];
      lockReady, lockWait, enabled := Requeue(lockReady, lockWait, enabled, lock, false);
    }

    method ThreadHasReleasedLock(lock: Mutex)
      requires bt.Valid() && QueuesAgree(View())
      modifies this`enabled, this`lockReady, this`lockWait
      ensures View() == AfterUnlock(old(View()), lock, {}) && View().onCond == old(View()).onCond
    {
      lockWait, lockReady, enabled := Requeue(lockWait, lockReady, enabled, lock, true);
      SetNobody(enabled, false);
    }

    method AfterMutexUnlock(myself: ThrID, lock: Mutex)
      requires MayPerform(myself, Unlock(lock))
      modifies this
      ensures bt.Valid() && Performed(Unlock(lock))
    {
      hide Invariant, View, AfterUnlock;
      StepKeeps(State(), Perform(Unlock(lock)));
      QueueKeys(State());
      ThreadHasReleasedLock(lock);
      Settle(myself, Unlock(lock));
    }

    /** After the pause: the trylock of the source finds the mutex free. */
    method SimulateMutexLock(myself: ThrID, lock: Mutex)
      requires Valid() && mode == Posted(myself)
      requires os.loc[myself].Locking? || os.loc[myself].Relocking?
      requires os.loc[myself].mutex == lock
      modifies this
      ensures bt.Valid() && Woke()
    {
      hide Invariant, WakeStep, Acquired, Shape, View;
      PostedThread(State());
      WakeInvariant(State());
      PauseThread(myself);
      ThreadHasAcquiredLock(myself, lock);
      assert Free(os, lock);
      Proceed(myself);
    }

    method SimulateMutexTrylock(myself: ThrID, lock: Mutex) returns (success: bool)
      requires Valid() && mode == Posted(myself) && os.loc[myself] == TryLocking(lock)
      modifies this
      ensures bt.Valid() && Woke()
      ensures success <==> Free(old(os), lock)
      ensures success ==> lock in os.owner && os.owner[lock] == myself
    {
      hide Invariant, WakeStep, Acquired, Shape, View;
      WakeInvariant(State());
      PauseThread(myself);
      success := Free(os, lock);
      if success {
        ThreadHasAcquiredLock(myself, lock);
      }
      Proceed(myself);
    }

    method BeforeMutexTrylock(myself: ThrID, lock: Mutex)
      requires MayPerform(myself, TryLock(lock))
      modifies this
      ensures bt.Valid() && Performed(TryLock(lock))
    {
      hide Invariant, View;
      StepKeeps(State(), Perform(TryLock(lock)));
      QueueKeys(State());
      SetEnabled(myself, true);
      Settle(myself, TryLock(lock));
    }

    /** The woken thread has taken its step. */
    twostate predicate Woke()
      requires bt.Valid() && old(bt.Valid()) && Shape(old(State())) && old(mode.Posted?)
      reads this, bt
    {
      Invariant(State()) && State() == WakeStep(old(State()))
    }

    /** `sem_wait` on the pause semaphore, which has been posted. */
    method PauseThread(myself: ThrID)
      requires bt.Valid() && myself in View().pauseSem && View().pauseSem[myself] > 0
      modifies this`pauseSem
      ensures View() == Unpause(old(View()), myself)
    {
      pauseSem := pauseSem[myself := pauseSem[myself] - 1];
    }

    /** Any other thread just returns to the program. */
    method ReturnFromPause(myself: ThrID)
      requires Valid() && mode == Posted(myself)
      requires var l := os.loc[myself]; l.Ready? || l.Joining? || l.AtBarrier?
      modifies this
      ensures bt.Valid() && Woke()
    {
      hide Invariant, WakeStep, Shape, View, Unpause;
      WakeInvariant(State());
      PauseThread(myself);
      Proceed(myself);
    }

    // -------------------------------------------------------------- semaphores

    method DetermineSemaphoreStatus(myself: ThrID, sem: Sem, val: nat)
      requires bt.Valid()
      modifies this`enabled, this`semReady, this`semWait
      ensures View() == DetermineSem(old(View()), val, myself, sem)
    {
      if val > 0 {
        enabled := enabled[myself := true];
        semReady := semReady[myself := Some(sem)];
      } else {
        enabled := enabled[myself := false];
        semWait := semWait[myself := Some(sem)];
      }
    }

    method BeforeSemWait(myself: ThrID, sem: Sem)
      requires MayPerform(myself, SemWait(sem))
      modifies this
      ensures bt.Valid() && Performed(SemWait(sem))
    {
      hide Invariant, View, DetermineSem;
      StepKeeps(State(), Perform(SemWait(sem)));
      DetermineSemaphoreStatus(myself, sem, os.sems[sem]);
      Settle(myself, SemWait(sem));
    }

    method ThreadHasPassedSemaphore(myself: ThrID, sem: Sem, val: int)
      requires bt.Valid() && QueuesAgree(View())
      requires myself in View().semReady && View().semReady[myself] == Some(sem)
      modifies this`enabled, this`semReady, this`semWait
      ensures View() == Passed(old(View()), val, myself, sem)
    {
      hide Passed;
      PassedCases(View(), val, myself, sem);
      semReady := semReady[myself := None];
      if val <= 0 {
        SemaphoreIsExhausted(sem);
      }
    }

    method SemaphoreIsExhausted(sem: Sem)
      requires bt.Valid() && QueuesAgree(View())
      modifies this`enabled, this`semReady, this`semWait
      ensures View() == Exhausted(old(View()), sem)
    {
      semReady, semWait, enabled := Requeue(semReady, semWait, enabled, sem, false);
    }

    /** Both assertions of the source hold: the value is positive and the thread is ready on it. */
    method SimulateSemWait(myself: ThrID, sem: Sem)
      requires Valid() && mode == Posted(myself) && os.loc[myself] == SemWaiting(sem)
      modifies this
      ensures bt.Valid() && Woke()
    {
      hide Invariant, WakeStep, Passed, Shape, View;
      PostedThread(State());
      WakeInvariant(State());
      PauseThread(myself);
      assert os.sems[sem] > 0;
      assert View().semReady[myself] == Some(sem);
      var val := os.sems[sem] - 1;
      Proceed(myself);
      ThreadHasPassedSemaphore(myself, sem, val);
    }

    method SemaphoreIsPosted(sem: Sem)
      requires bt.Valid() && QueuesAgree(View())
      modifies this`enabled, this`semReady, this`semWait
      ensures View() == SemPosted(old(View()), sem)
    {
      semWait, semReady, enabled := Requeue(semWait, semReady, enabled, sem, true);
    }

    method SimulateSemPost(myself: ThrID, sem: Sem)
      requires MayPerform(myself, SemPost(sem))
      modifies this
      ensures bt.Valid() && Performed(SemPost(sem))
    {
      hide Invariant, View, SemPosted;
      StepKeeps(State(), Perform(SemPost(sem)));
      QueueKeys(State());
      SemaphoreIsPosted(sem);
      Settle(myself, SemPost(sem));
    }

    // -------------------------------------------------------------- threads

    method InitializeQueues(target: ThrID)
      requires bt.Valid()
      modifies this`lockReady, this`lockWait, this`semReady, this`semWait
      ensures View() == NewQueues(old(View()), target)
    {
      lockWait := lockWait[target := None];
      lockReady := lockReady[target := None];
      semWait := semWait[target := None];
      semReady := semReady[target := None];
    }

    method InitializeTokens(target: ThrID)
      requires bt.Valid()
      modifies this`pauseSem, this`waitSem, this`waitReady, this`wasSignalled
      ensures View() == NewTokens(old(View()), target)
    {
      pauseSem := pauseSem[target := 0];
      waitSem := waitSem[target := 0];
      waitReady := waitReady[target := true];
      wasSignalled := wasSignalled[target := true];
    }

    method InitializeStatus(target: ThrID)
      requires bt.Valid()
      modifies this`enabled, this`finished, this`joiner, this`onCond, bt`threadMap
      ensures bt.Valid() && View() == NewStatus(old(View()), target)
    {
      enabled := enabled[target := true];
      finished := finished[target := false];
      joiner := joiner[target := UNJOINED];
      onCond := onCond[target := None];
      bt.threadMap := bt.threadMap[target := None];
    }

    method InitializeThreadData(target: ThrID)
      requires bt.Valid()
      modifies this, bt
      ensures bt.Valid() && View() == Initialize(old(View()), target) && os == old(os) && mode == old(mode)
    {
      hide View;
      InitializeTokens(target);
      InitializeStatus(target);
      InitializeQueues(target);
    }

    method AfterCreate(myself: ThrID, child: ThrID)
      requires MayPerform(myself, Create(child))
      modifies this, bt
      ensures bt.Valid() && Performed(Create(child))
    {
      hide Invariant, Initialize;
      StepKeeps(State(), Perform(Create(child)));
      InitializeThreadData(child);
      Settle(myself, Create(child));
    }

    method BeforeJoin(myself: ThrID, target: ThrID)
      requires MayPerform(myself, Join(target))
      modifies this
      ensures bt.Valid() && Performed(Join(target))
    {
      hide Invariant;
      StepKeeps(State(), Perform(Join(target)));
      FinishedTarget(State(), target);
      if finished[target] {
        enabled := enabled[myself := true];
      } else {
        JoinTarget(State(), target);
        assert joiner[target] == UNJOINED;
        enabled := enabled[myself := false];
        joiner := joiner[target := myself];
      }
      Settle(myself, Join(target));
    }

    method FinalizeThread(myself: ThrID)
      requires MayPerform(myself, Finish)
      modifies this
      ensures bt.Valid() && Performed(Finish)
    {
      hide Invariant;
      StepKeeps(State(), Perform(Finish));
      FinishedTarget(State(), myself);
      enabled := enabled[myself := false];
      finished := finished[myself := true];
      if joiner[myself] != UNJOINED {
        enabled := enabled[joiner[myself] := true];
      }
      Settle(myself, Finish);
    }

    // -------------------------------------------------------------- barriers

    method BeforeBarrierInit(myself: ThrID, barrier: Barrier, count: nat)
      requires MayPerform(myself, InitBarrier(barrier, count))
      modifies this, bt
      ensures bt.Valid() && Performed(InitBarrier(barrier, count))
    {
      hide Invariant;
      StepKeeps(State(), Perform(InitBarrier(barrier, count)));
      bt.InitBarrier(barrier, count);
      Settle(myself, InitBarrier(barrier, count));
    }

    /** The last arrival finds `count - 1` disabled threads and releases them. */
    method BeforeBarrierWait(myself: ThrID, barrier: Barrier)
      requires MayPerform(myself, BarrierWait(barrier))
      modifies this, bt
      ensures bt.Valid() && Performed(BarrierWait(barrier))
    {
      hide Invariant, Arrive, BeforeBarrier, LastArrival;
      StepKeeps(State(), Perform(BarrierWait(barrier)));
      BarrierIsCounted(State(), barrier);
      if LastArrival(bt.threadMap, BT.Counts(bt.barInfo)[barrier], barrier) {
        LastArrivalNow(State(), barrier);
      }
      ArriveAtBarrier(myself, barrier);
      Settle(myself, BarrierWait(barrier));
    }

    method ArriveAtBarrier(myself: ThrID, barrier: Barrier)
      requires bt.Valid() && barrier in BT.Counts(bt.barInfo)
      requires var waiting := Queued(bt.threadMap, barrier);
               LastArrival(bt.threadMap, BT.Counts(bt.barInfo)[barrier], barrier) ==>
                 && |waiting| + 1 == BT.Counts(bt.barInfo)[barrier]
                 && forall w :: w in waiting ==> w in enabled && !enabled[w]
      modifies this`enabled, bt`threadMap
      ensures bt.Valid() && View() == BeforeBarrier(old(View()), myself, barrier)
    {
      hide SetAll, Queued;
      var targetCount := bt.GetBarrierCount(barrier);
      var threadsOnBarrier := bt.GetNumberThreadsWaitingOnBarrier(barrier);
      if threadsOnBarrier + 1 >= targetCount {
        var thr := bt.GetThreadsWaitingOnBarrier(barrier);
        assert |thr| + 1 == targetCount;
        assert forall i :: 0 <= i < |thr| ==> thr[i] in thr;
        enabled := EnableAll(enabled, thr, Queued(bt.threadMap, barrier));
        enabled := enabled[myself := true];
        bt.ClearThreadsWaitingOnBarrier(barrier);
      } else {
        bt.ThreadWaitingOnBarrier(myself, barrier);
        enabled := enabled[myself := false];
      }
    }

    // -------------------------------------------------------------- conditions

    /** The part of a condition wait before its scheduling point: release the mutex, stand on the condition. */
    method SimulateCondWait(myself: ThrID, cond: Cond, lock: Mutex, timed: bool)
      requires MayPerform(myself, if timed then CondTimedwait(cond, lock) else CondWait(cond, lock))
      modifies this
      ensures bt.Valid() && Performed(if timed then CondTimedwait(cond, lock) else CondWait(cond, lock))
    {
      hide Invariant, AfterUnlock, View;
      ghost var op := if timed then CondTimedwait(cond, lock) else CondWait(cond, lock);
      StepKeeps(State(), Perform(op));
      QueueKeys(State());
      SetEnabled(myself, timed);
      ThreadHasReleasedLock(lock);
      SetOnCond(myself, Some(cond));
      Settle(myself, if timed then CondTimedwait(cond, lock) else CondWait(cond, lock));
    }

    method SetEnabled(target: ThrID, on: bool)
      requires bt.Valid() && target in View().enabled
      modifies this`enabled
      ensures View() == old(View()).(enabled := old(View()).enabled[target := on])
      ensures QueuesAgree(old(View())) ==> QueuesAgree(View())
    {
      enabled := enabled[target := on];
    }

    method SetOnCond(target: ThrID, cond: Option<Cond>)
      requires bt.Valid()
      modifies this`onCond
      ensures View() == old(View()).(onCond := old(View()).onCond[target := cond])
    {
      onCond := onCond[target := cond];
    }

    /** The thread returns from its wait semaphore and is off the condition. */
    method WaitPauseThread(myself: ThrID)
      requires bt.Valid() && myself in View().waitSem && View().waitSem[myself] > 0
      modifies this`waitSem, this`onCond
      ensures View() == LeaveCond(old(View()), myself)
    {
      waitSem := waitSem[myself := waitSem[myself] - 1];
      onCond := onCond[myself := None];
    }

    /** Nobody signalled: the thread was scheduled straight from its timed wait. */
    method TimedwaitTimesOut(myself: ThrID)
      requires Valid() && mode == Posted(myself) && os.loc[myself].TimedWaiting?
      modifies this
      ensures bt.Valid() && Woke()
    {
      hide Invariant, WakeStep, Shape, View;
      WakeInvariant(State());
      WaitPauseThread(myself);
      Proceed(myself);
    }

    /** It then queues for the mutex and schedules again; its local variable remembers that nobody signalled. */
    method RelockAfterTimeout(myself: ThrID) returns (signalled: bool)
      requires MayPerform(myself, Relock)
      modifies this
      ensures bt.Valid() && Performed(Relock)
      ensures !signalled && myself in os.loc && os.loc[myself].Relocking? && os.loc[myself].timedOut
    {
      hide Invariant, View;
      StepKeeps(State(), Perform(Relock));
      assert myself in wasSignalled && !wasSignalled[myself] by { NobodySignalled(State()); ViewSignalled(); }
      DetermineLockStatus(myself, os.loc[myself].mutex);
      signalled := wasSignalled[myself];
      MarkSignalled(myself);
      Settle(myself, Relock);
    }

    lemma ViewSignalled()
      requires bt.Valid()
      ensures View().wasSignalled == wasSignalled
    {
    }

    /**
     * The end of a timed wait: the mutex is taken back, and the local variable decides between success and
     * ETIMEDOUT.
     */
    method EndTimedwait(myself: ThrID, lock: Mutex, signalled: bool) returns (timedOut: bool)
      requires Valid() && mode == Posted(myself) && myself in os.loc && os.loc[myself] == Relocking(lock, !signalled)
      modifies this
      ensures bt.Valid() && Woke()
      ensures timedOut == old(os.loc[myself]).timedOut && lock in os.owner && os.owner[lock] == myself
    {
      hide Invariant, WakeStep, Shape, View;
      WakeInvariant(State());
      SimulateMutexLock(myself, lock);
      timedOut := !signalled;
    }

    method MarkSignalled(myself: ThrID)
      requires bt.Valid()
      modifies this`wasSignalled
      ensures View() == old(View()).(wasSignalled := old(View()).wasSignalled[myself := true])
    {
      wasSignalled := wasSignalled[myself := true];
    }

    // -------------------------------------------------------------- signals

    /** The smallest thread on the condition, or -1. */
    method SelectThreadWaitingOnCond(cond: Cond) returns (w: ThrID)
      requires bt.Valid() && forall t :: t in View().onCond ==> t >= 0
      ensures w == INVALID_THREAD <==> Queued(View().onCond, cond) == {}
      ensures w != INVALID_THREAD ==>
              w in Queued(View().onCond, cond) && forall t :: t in Queued(View().onCond, cond) ==> w <= t
    {
      w := FirstQueued(onCond, cond);
    }

    /** The signaller posts the target's wait semaphore and sleeps. */
    method ScheduleThreadWaitingOnCond(target: ThrID, signaller: ThrID)
      requires Valid() && mode == Selecting(signaller)
      requires signaller in os.loc && os.loc[signaller].Signalling?
      requires target in onCond && onCond[target] == Some(os.loc[signaller].cond)
      requires target in waitSem
      modifies this`waitReady, this`waitSem, this`mode
      ensures Valid() && mode == Handoff(signaller, target) && os == old(os)
      ensures State() == old(State()).(tr := SelectWaiter(old(View()), target), mode := Handoff(signaller, target))
    {
      hide Invariant;
      SelectKeeps(State(), signaller, target,
                  State().(tr := SelectWaiter(View(), target), mode := Handoff(signaller, target)));
      waitReady := waitReady[target := false];
      waitSem := waitSem[target := waitSem[target] + 1];
      mode := Handoff(signaller, target);
    }

    /** The woken thread leaves the condition, queues for its mutex and reports ready. */
    method QueueForMutex(myself: ThrID, lock: Mutex)
      requires bt.Valid() && myself in View().waitSem && View().waitSem[myself] > 0
      modifies this`waitSem, this`onCond, this`enabled, this`lockReady, this`lockWait, this`waitReady
      ensures View() == DetermineLock(LeaveCond(old(View()), myself), Free(os, lock), myself, lock)
                          .(waitReady := old(View()).waitReady[myself := true])
      ensures View().onCond == old(View()).onCond[myself := None]
    {
      hide View;
      WaitPauseThread(myself);
      DetermineLockStatus(myself, lock);
      ReportReady(myself);
    }

    method ReportReady(myself: ThrID)
      requires bt.Valid()
      modifies this`waitReady
      ensures View() == old(View()).(waitReady := old(View()).waitReady[myself := true])
    {
      waitReady := waitReady[myself := true];
    }

    /** The target has queued and the signaller goes on. */
    twostate predicate Rejoined()
      requires bt.Valid() && old(bt.Valid()) && Shape(old(State())) && old(mode.Handoff?)
      reads this, bt
    {
      Invariant(State()) && State() == RejoinStep(old(State()))
    }

    /**
     * The signaller continues once its target has queued. It looks for the next waiter of a broadcast;
     * -1 means that the signal is complete.
     */
    method WaitThreadReady(signaller: ThrID, target: ThrID, cond: Cond, isBroadcast: bool)
      returns (next: ThrID, signalled: bool)
      requires Valid() && mode == Handoff(signaller, target)
      requires signaller in os.loc && os.loc[signaller] == Signalling(cond, isBroadcast)
      modifies this
      ensures bt.Valid() && Rejoined()
      ensures signalled && target in os.loc && os.loc[target].Relocking? && !os.loc[target].timedOut
      ensures mode == if next == INVALID_THREAD then Choosing(signaller) else Selecting(signaller)
      ensures next != INVALID_THREAD ==> next in Queued(View().onCond, cond)
    {
      hide Invariant, View, DetermineLock, Queued;
      HandoffFacts(State());
      StepKeeps(State(), Rejoin);
      ghost var s := State();
      assert target in wasSignalled && wasSignalled[target] by { ViewSignalled(); }
      signalled := wasSignalled[target];
      QueueForMutex(target, os.loc[target].mutex);
      OnConditionAfter(s, View().onCond);
      if isBroadcast {
        next := SelectThreadWaitingOnCond(cond);
      } else {
        next := INVALID_THREAD;
      }
      ResumeSignaller(signaller, target, next == INVALID_THREAD);
    }

    method ResumeSignaller(signaller: ThrID, target: ThrID, done: bool)
      requires bt.Valid() && target in os.loc && OnCondition(os.loc[target])
      modifies this`enabled, this`os, this`mode
      ensures View() == if done then Enable(old(View()), signaller) else old(View())
      ensures View().onCond == old(View()).onCond
      ensures os == if done then At(Woken(old(os), target), signaller, Ready) else Woken(old(os), target)
      ensures mode == if done then Choosing(signaller) else Selecting(signaller)
    {
      os := Woken(os, target);
      if done {
        enabled := enabled[signaller := true];
        os, mode := os.(loc := os.loc[signaller := Ready]), Choosing(signaller);
      } else {
        mode := Selecting(signaller);
      }
    }

    /** Nobody hears a missed signal; otherwise the signaller goes on to select a waiter. */
    method StartSignal(myself: ThrID, cond: Cond, isBroadcast: bool) returns (missed: bool)
      requires MayPerform(myself, Signal(cond, isBroadcast))
      modifies this
      ensures bt.Valid() && Performed(Signal(cond, isBroadcast))
      ensures missed <==> !HasWaiter(old(os), cond)
      ensures mode == if missed then Choosing(myself) else Selecting(myself)
    {
      hide Invariant, View, HasWaiter;
      StepKeeps(State(), Perform(Signal(cond, isBroadcast)));
      ListensIffQueued(State(), cond);
      var first := SelectThreadWaitingOnCond(cond);
      missed := first == INVALID_THREAD;
      if missed {
        SetEnabled(myself, true);
      }
      Settle(myself, Signal(cond, isBroadcast));
    }

    /** One waiter, from the log or the smallest, is woken and logged. */
    method SignalOne(log: L.Logger, myself: ThrID, cond: Cond) returns (w: ThrID)
      requires Valid() && mode == Selecting(myself) && myself in os.loc && os.loc[myself] == Signalling(cond, false)
      requires var choice := NextChoice(log.readSchedule);
               choice != INVALID_THREAD ==> choice in Queued(onCond, cond)
      modifies this, log`schedule, log`readSchedule
      ensures Valid() && mode == Choosing(myself)
      ensures w in Waiters(old(os), cond) && os == At(Woken(old(os), w), myself, Ready)
      ensures SameRest(old(State()), State())
      ensures NextChoice(old(log.readSchedule)) != INVALID_THREAD ==> w == NextChoice(old(log.readSchedule))
      ensures NextChoice(old(log.readSchedule)) == INVALID_THREAD ==> forall t :: t in Waiters(old(os), cond) ==> w <= t
      ensures log.readSchedule == Drop(old(log.readSchedule))
      ensures log.schedule == old(log.schedule) + [Signalled(w, myself, cond, Waiters(old(os), cond))]
      ensures Logged(old(State()), Small(Select(w)), old(log.schedule), log.schedule)
    {
      hide Logged, Invariant, View, HasWaiter, Queued, Waiters, Post, RejoinMaps, Shape;
      ListensIffQueued(State(), cond);
      SelectingHasWaiter(State());
      assert View().onCond == onCond && View().waitSem == waitSem by { ViewFields(); }
      w := log.GetNextChoice();
      if w == INVALID_THREAD {
        w := SelectThreadWaitingOnCond(cond);
      }
      QueuedElement(onCond, cond, w);
      SelectLogged(State(), w, cond, log.schedule);
      log.SignalScheduling(w, myself, cond, onCond, false);
      ScheduleThreadWaitingOnCond(w, myself);
      HandoffFacts(State());
      RejoinEffectOfSignal(State(), myself, cond, w);
      var next, signalled := WaitThreadReady(myself, w, cond, false);
    }

    lemma ViewFields()
      requires bt.Valid()
      ensures View().onCond == onCond && View().waitSem == waitSem
    {
    }

    /** Every waiter is woken; the log is neither read nor written. */
    method BroadcastAll(myself: ThrID, cond: Cond)
      requires bt.Valid() && Broadcasting(State(), myself, cond)
      requires myself in os.loc && os.loc[myself] == Signalling(cond, true)
      modifies this
      ensures Valid() && mode == Choosing(myself) && os == AllWoken(old(os), myself, cond)
      ensures SameRest(old(State()), State())
    {
      hide Invariant, View, HasWaiter, Queued, Waiters, AllWoken, Woken, Apply, Shape;
      ghost var start := State();
      ListensIffQueued(State(), cond);
      SelectingHasWaiter(State());
      var next := SelectThreadWaitingOnCond(cond);
      while next != INVALID_THREAD
        invariant bt.Valid() && Invariant(State()) && SameRest(start, State())
        invariant next != INVALID_THREAD ==>
            && Broadcasting(State(), myself, cond) && next in Queued(View().onCond, cond)
            && AllWoken(os, myself, cond) == AllWoken(old(os), myself, cond)
        invariant next == INVALID_THREAD ==>
            mode == Choosing(myself) && os == AllWoken(old(os), myself, cond)
        decreases if next == INVALID_THREAD then 0 else 1 + |Waiters(os, cond)|
      {
        next := WakeNext(myself, cond, next);
      }
    }

    method WakeNext(myself: ThrID, cond: Cond, w: ThrID) returns (next: ThrID)
      requires bt.Valid() && Broadcasting(State(), myself, cond) && w in Queued(View().onCond, cond)
      modifies this
      ensures bt.Valid() && Invariant(State()) && SameRest(old(State()), State())
      ensures next != INVALID_THREAD ==>
              && Broadcasting(State(), myself, cond) && next in Queued(View().onCond, cond)
              && AllWoken(os, myself, cond) == AllWoken(old(os), myself, cond)
              && |Waiters(os, cond)| < |Waiters(old(os), cond)|
      ensures next == INVALID_THREAD ==> mode == Choosing(myself) && os == AllWoken(old(os), myself, cond)
    {
      hide Invariant, View, HasWaiter, Queued, Waiters, AllWoken, Woken, SelectWaiter, RejoinMaps, Shape;
      ListensIffQueued(State(), cond);
      assert View().onCond == onCond && View().waitSem == waitSem by { ViewFields(); }
      QueuedElement(onCond, cond, w);
      SelectableIffWaiting(State(), myself, cond, w);
      ghost var s' := WakeOne(State(), myself, cond, w);
      WokenKeepsAllWoken(os, myself, cond, w);
      ScheduleThreadWaitingOnCond(w, myself);
      var signalled;
      next, signalled := WaitThreadReady(myself, w, cond, true);
    }

    // -------------------------------------------------------------- scheduling

    /** The smallest enabled thread, or -1. */
    method PickNextSchedulingChoice() returns (next: ThrID)
      requires forall t :: t in enabled ==> t >= 0
      ensures next == INVALID_THREAD <==> forall t :: t in enabled ==> !enabled[t]
      ensures next != INVALID_THREAD ==>
              next in enabled && enabled[next] && forall t :: t in enabled && enabled[t] ==> next <= t
    {
      next := FS.FirstTrue(enabled);
    }

    method LaunchThread(target: ThrID)
      requires bt.Valid() && target in enabled && enabled[target]
      requires target in onCond && target in waitSem && target in pauseSem
      modifies this`wasSignalled, this`waitSem, this`pauseSem
      ensures View() == Launch(old(View()), target)
    {
      if onCond[target] != None {
        wasSignalled := wasSignalled[target := false];
        waitSem := waitSem[target := waitSem[target] + 1];
      } else {
        pauseSem := pauseSem[target := pauseSem[target] + 1];
      }
    }

    /**
     * A choice from the log is followed, else the tracker picks; -1 means that the deadlock was
     * reported, which happens only when no thread can proceed.
     */
    method Schedule(log: L.Logger, myself: ThrID) returns (next: ThrID)
      requires Valid() && mode == Choosing(myself)
      requires var choice := NextChoice(log.readSchedule);
               choice != INVALID_THREAD ==> choice in enabled && enabled[choice]
      modifies this, log`schedule, log`readSchedule
      ensures bt.Valid() && Invariant(State())
      ensures log.readSchedule == Drop(old(log.readSchedule))
      ensures next == INVALID_THREAD <==> forall t :: t in old(os).loc ==> !CanProceed(old(os), t)
      ensures next == INVALID_THREAD ==>
              State() == old(State()).(mode := Deadlock) && log.schedule == old(log.schedule)
      ensures next != INVALID_THREAD ==>
              && State() == old(State()).(tr := Launch(old(View()), next), mode := Posted(next))
              && log.schedule == old(log.schedule) + [Scheduled(next, myself, EnabledThreads(old(enabled)))]
      ensures next != INVALID_THREAD && NextChoice(old(log.readSchedule)) == INVALID_THREAD ==>
              forall t :: t in old(enabled) && old(enabled)[t] ==> next <= t
      ensures NextChoice(old(log.readSchedule)) != INVALID_THREAD ==> next == NextChoice(old(log.readSchedule))
      ensures Logged(old(State()), Small(if next == INVALID_THREAD then Report else Dispatch(next)),
                     old(log.schedule), log.schedule)
    {
      hide Invariant, Launch, CanProceed, Logged;
      EnabledNow(State());
      next := log.GetNextChoice();
      if next == INVALID_THREAD {
        next := PickNextSchedulingChoice();
        if next == INVALID_THREAD {
          ReportLogged(State(), log.schedule);
          ReportKeeps(State(), State().(mode := Deadlock));
          mode := Deadlock;
          return;
        }
      }
      DispatchLogged(State(), next, log.schedule);
      log.Scheduling(next, myself, enabled);
      DispatchKeeps(State(), next, State().(tr := Launch(View(), next), mode := Posted(next)));
      LaunchThread(next);
      mode := Posted(next);
    }
  }

  function NewQueues(tr: Maps, t: ThrID): Maps {
    tr.(lockReady := tr.lockReady[t := None], lockWait := tr.lockWait[t := None],
        semReady := tr.semReady[t := None], semWait := tr.semWait[t := None])
  }

  function NewTokens(tr: Maps, t: ThrID): Maps {
    tr.(pauseSem := tr.pauseSem[t := 0], waitSem := tr.waitSem[t := 0],
        waitReady := tr.waitReady[t := true], wasSignalled := tr.wasSignalled[t := true])
  }

  function NewStatus(tr: Maps, t: ThrID): Maps {
    tr.(enabled := tr.enabled[t := true], finished := tr.finished[t := false],
        joiner := tr.joiner[t := UNJOINED], onCond := tr.onCond[t := None], onBarrier := tr.onBarrier[t := None])
  }

  function Exhausted(tr: Maps, s: Sem): Maps {
    var losers := Queued(tr.semReady, s);
    tr.(semReady := SetAll(tr.semReady, losers, None), semWait := SetAll(tr.semWait, losers, Some(s)),
        enabled := SetAll(tr.enabled, losers, false))
  }

  lemma PassedCases(tr: Maps, val: int, t: ThrID, s: Sem)
    ensures var passed := tr.(semReady := tr.semReady[t := None]);
            Passed(tr, val, t, s) == if val <= 0 then Exhausted(passed, s) else passed
  {
    if val > 0 {
      SetNobody(tr.semReady[t := None], None);
      SetNobody(tr.semWait, Some(s));
      SetNobody(tr.enabled, false);
    }
  }

  ghost predicate QueuesAgree(tr: Maps) {
    && tr.lockReady.Keys == tr.lockWait.Keys == tr.enabled.Keys
    && tr.semReady.Keys == tr.semWait.Keys == tr.enabled.Keys
  }

  lemma QueueKeys(s: Sys)
    requires Invariant(s)
    ensures QueuesAgree(s.tr) && s.tr.enabled.Keys == s.os.loc.Keys
  {
  }

  /** A posted thread that is not on a condition sleeps on its pause semaphore. */
  lemma WakeInvariant(s: Sys)
    requires Invariant(s) && s.mode.Posted?
    ensures Shape(s) && Invariant(WakeStep(s))
    ensures !OnCondition(s.os.loc[s.mode.thread]) ==>
            s.mode.thread in s.tr.pauseSem && s.tr.pauseSem[s.mode.thread] > 0
    ensures OnCondition(s.os.loc[s.mode.thread]) ==>
            s.mode.thread in s.tr.waitSem && s.tr.waitSem[s.mode.thread] > 0
    ensures QueuesAgree(s.tr)
    ensures s.mode.thread in s.tr.lockReady && s.mode.thread in s.os.loc && CanProceed(s.os, s.mode.thread)
    ensures s.demoted == {} ==>
            WakeStep(s) == Sys(WakeMaps(s), Resume(s.os, s.mode.thread), Run(s.mode.thread), s.paused, {})
  {
    hide LocksOk, SemsOk, CondsOk, JoinsOk, BarriersOk, EnabledOk, FinishedOk, TestersOk, Resume, WakeMaps;
    StepKeeps(s, Wake);
    QueueKeys(s);
    assert {} - {s.mode.thread} == {};
  }

  lemma FinishedTarget(s: Sys, u: ThrID)
    requires Invariant(s) && u in s.os.loc
    ensures u in s.tr.finished && u in s.tr.joiner && (s.tr.finished[u] <==> s.os.loc[u].Done?)
  {
    hide EnabledOk, LocksOk, SemsOk, CondsOk, BarriersOk, TokensOk, TestersOk;
  }

  lemma BarrierIsCounted(s: Sys, b: Barrier)
    requires Invariant(s) && b in s.os.barriers
    ensures b in s.tr.barrierCount
  {
    hide EnabledOk, LocksOk, SemsOk, CondsOk, JoinsOk, TokensOk, FinishedOk, TestersOk;
  }

  /** The move is one of the recorded run, and the log grows by its entry. */
  ghost predicate Logged(s: Sys, m: Move, log: seq<Decision>, log': seq<Decision>) {
    MoveLegal(s, m) && log' == log + Entry(s, m)
  }

  lemma DispatchLogged(s: Sys, next: ThrID, log: seq<Decision>)
    requires Invariant(s) && s.mode.Choosing? && next in s.tr.enabled && s.tr.enabled[next]
    ensures Logged(s, Small(Dispatch(next)), log, log + [Scheduled(next, s.mode.caller, EnabledThreads(s.tr.enabled))])
  {
    hide EnabledOk, LocksOk, SemsOk, CondsOk, JoinsOk, BarriersOk, TokensOk, FinishedOk;
  }

  lemma ReportLogged(s: Sys, log: seq<Decision>)
    requires Invariant(s) && s.mode.Choosing? && forall t :: t in s.tr.enabled ==> !s.tr.enabled[t]
    ensures Logged(s, Small(Report), log, log)
  {
    hide EnabledOk, LocksOk, SemsOk, CondsOk, JoinsOk, BarriersOk, TokensOk, FinishedOk;
    assert log + [] == log;
  }

  lemma SelectLogged(s: Sys, w: ThrID, cond: Cond, log: seq<Decision>)
    requires Invariant(s) && s.mode.Selecting? && s.mode.signaller in s.os.loc
    requires s.os.loc[s.mode.signaller] == Signalling(cond, false) && w in s.tr.onCond && s.tr.onCond[w] == Some(cond)
    ensures Logged(s, Small(Select(w)), log, log + [Signalled(w, s.mode.signaller, cond, Queued(s.tr.onCond, cond))])
  {
    hide EnabledOk, LocksOk, SemsOk, CondsOk, JoinsOk, BarriersOk, TokensOk, FinishedOk;
  }

  /** At a scheduling point of the plain tracker. */
  lemma EnabledNow(s: Sys)
    requires Invariant(s) && s.paused == {} && s.demoted == {}
    ensures forall t :: t in s.tr.enabled ==> t >= 0 && (s.tr.enabled[t] <==> CanProceed(s.os, t))
    ensures s.tr.enabled.Keys == s.os.loc.Keys == s.tr.onCond.Keys == s.tr.waitSem.Keys == s.tr.pauseSem.Keys
  {
    hide LocksOk, SemsOk, JoinsOk, BarriersOk, FinishedOk, TestersOk, ModeOk;
  }

  lemma NobodySignalled(s: Sys)
    requires Invariant(s) && s.mode.Run? && s.os.loc[s.mode.thread].TimedOut?
    ensures s.mode.thread in s.tr.wasSignalled && !s.tr.wasSignalled[s.mode.thread]
  {
    hide EnabledOk, LocksOk, SemsOk, CondsOk, JoinsOk, BarriersOk, FinishedOk, TestersOk;
  }

  lemma HandoffFacts(s: Sys)
    requires Invariant(s) && s.mode.Handoff?
    ensures Shape(s) && s.mode.signaller in s.tr.enabled
    ensures s.mode.target in s.tr.waitSem && s.tr.waitSem[s.mode.target] > 0
    ensures s.mode.target in s.tr.wasSignalled && s.tr.wasSignalled[s.mode.target] && s.mode.target != s.mode.signaller
  {
    hide LocksOk, SemsOk, CondsOk, JoinsOk, BarriersOk, FinishedOk, TestersOk;
  }

  /** Off the condition: the tracker and the program agree on who still waits. */
  lemma OnConditionAfter(s: Sys, onCond: map<ThrID, Option<Cond>>)
    requires Invariant(s) && s.mode.Handoff? && onCond == s.tr.onCond[s.mode.target := None]
    ensures forall t :: t in onCond ==> t >= 0
    ensures var c := s.os.loc[s.mode.signaller].cond;
            Queued(onCond, c) != {} <==> HasWaiter(Woken(s.os, s.mode.target), c)
  {
    hide EnabledOk, LocksOk, SemsOk, JoinsOk, BarriersOk, TokensOk, FinishedOk, TestersOk, OnlyBusy;
    var c, os := s.os.loc[s.mode.signaller].cond, Woken(s.os, s.mode.target);
    if t :| t in os.loc && WaitsOn(os.loc[t], c) {
      assert t in Queued(onCond, c);
    } else {
      forall t
        ensures t !in Queued(onCond, c)
      {
        assert t in onCond && onCond[t] == Some(c) ==> t in os.loc && WaitsOn(os.loc[t], c);
      }
    }
  }

  /** The tracker's condition map lists exactly the program's waiters. */
  lemma ListensIffQueued(s: Sys, c: Cond)
    requires Invariant(s)
    ensures Queued(s.tr.onCond, c) == Waiters(s.os, c)
    ensures HasWaiter(s.os, c) <==> Queued(s.tr.onCond, c) != {}
    ensures forall t :: t in s.tr.onCond ==> t >= 0
    ensures s.tr.onCond.Keys == s.tr.waitSem.Keys == s.tr.enabled.Keys == s.os.loc.Keys
  {
    hide LocksOk, SemsOk, JoinsOk, BarriersOk, FinishedOk, TestersOk, ModeOk;
    forall t
      ensures t in Queued(s.tr.onCond, c) <==> t in Waiters(s.os, c)
    {
      assert t in s.os.loc ==> (s.tr.onCond[t] == Some(c) <==> WaitsOn(s.os.loc[t], c));
    }
    assert Queued(s.tr.onCond, c) == Waiters(s.os, c);
    if t :| t in s.os.loc && WaitsOn(s.os.loc[t], c) {
      assert t in Waiters(s.os, c);
    } else {
      assert forall t :: t !in Waiters(s.os, c);
    }
  }

  lemma SelectingHasWaiter(s: Sys)
    requires Invariant(s) && s.mode.Selecting?
    ensures s.mode.signaller in s.os.loc && s.os.loc[s.mode.signaller].Signalling?
    ensures HasWaiter(s.os, s.os.loc[s.mode.signaller].cond)
  {
    hide EnabledOk, LocksOk, SemsOk, CondsOk, JoinsOk, BarriersOk, TokensOk, FinishedOk, TestersOk, HasWaiter;
  }

  lemma QueuedElement(m: map<ThrID, Option<int>>, x: int, t: ThrID)
    requires t in Queued(m, x)
    ensures t in m && m[t] == Some(x)
  {
  }

  lemma RejoinEffectOfSignal(s: Sys, g: ThrID, c: Cond, w: ThrID)
    requires Shape(s) && s.mode == Handoff(g, w) && s.os.loc[g] == Signalling(c, false)
    ensures var s' := RejoinStep(s);
            && s'.os == At(Woken(s.os, w), g, Ready) && s'.mode == Choosing(g) && SameRest(s, s')
  {
  }
}
