/** What every run of the serializer guarantees. */
module SerializerTheorems {
  import opened SerializerTypes
  import opened Posix
  import opened Tracker
  import opened Serializer
  import opened SerializerFrames
  import opened SerializerInvariant
  import opened SerializerSteps

  // ---------------------------------------------------------------- one step

  lemma PerformSimple(s: Sys, op: Op)
    requires Invariant(s) && s.mode.Run? && Legal(s.os, s.mode.thread, op)
    requires op.Pass? || op.TryLock? || op.Signal? || op.Lock? || op.Relock?
    ensures Invariant(PerformStep(s, op))
  {
    hide Invariant, HasWaiter;
    var t, s' := s.mode.thread, PerformStep(s, op);
    assert s.tr.enabled[t := true] == s.tr.enabled by { RunnerIsEnabled(s); }
    match op {
      case Pass => PassKeeps(s, t, Ready, s');
      case TryLock(m) => PassKeeps(s, t, TryLocking(m), s');
      case Signal(c, broadcast) =>
        if HasWaiter(s.os, c) {
          SignalKeeps(s, t, c, broadcast, s');
        } else {
          PassKeeps(s, t, Ready, s');
        }
      case Lock(m) =>
        assert s.tr.wasSignalled[t := true] == s.tr.wasSignalled by { RunnerWasSignalled(s); }
        LockKeeps(s, t, Locking(m), m, s');
      case Relock => LockKeeps(s, t, Relocking(s.os.loc[t].mutex, true), s.os.loc[t].mutex, s');
    }
  }

  lemma RunnerWasSignalled(s: Sys)
    requires Invariant(s) && s.mode.Run? && s.os.loc[s.mode.thread].Running?
    ensures s.tr.wasSignalled[s.mode.thread := true] == s.tr.wasSignalled
  {
    hide EnabledOk, LocksOk, SemsOk, CondsOk, JoinsOk, BarriersOk, FinishedOk, TestersOk;
  }

  lemma PerformBlocking(s: Sys, op: Op)
    requires Invariant(s) && s.mode.Run? && Legal(s.os, s.mode.thread, op)
    requires op.Unlock? || op.CondWait? || op.CondTimedwait? || op.SemWait? || op.SemPost?
    ensures Invariant(PerformStep(s, op))
  {
    hide Invariant, HasWaiter;
    var t, s' := s.mode.thread, PerformStep(s, op);
    assert s.tr.enabled[t := true] == s.tr.enabled by { RunnerIsEnabled(s); }
    match op {
      case Unlock(m) =>
        assert s.tr.onCond[t := None] == s.tr.onCond by { RunnerOffCondition(s); }
        UnlockKeeps(s, t, Ready, m, s');
      case CondWait(c, m) => UnlockKeeps(s, t, CondWaiting(c, m), m, s');
      case CondTimedwait(c, m) => UnlockKeeps(s, t, TimedWaiting(c, m), m, s');
      case SemWait(x) => SemWaitKeeps(s, t, x, s');
      case SemPost(x) => SemPostKeeps(s, t, x, s');
    }
  }

  lemma RunnerOffCondition(s: Sys)
    requires Invariant(s) && s.mode.Run? && s.os.loc[s.mode.thread].Running?
    ensures s.tr.onCond[s.mode.thread := None] == s.tr.onCond
  {
    hide EnabledOk, LocksOk, SemsOk, JoinsOk, BarriersOk, FinishedOk, TestersOk, TokensOk;
  }

  lemma PerformThreads(s: Sys, op: Op)
    requires Invariant(s) && s.mode.Run? && Legal(s.os, s.mode.thread, op)
    requires op.Create? || op.Join? || op.Finish? || op.BarrierWait? || op.InitBarrier? || op.InitSem?
    ensures Invariant(PerformStep(s, op))
  {
    hide Invariant, HasWaiter, EnabledOk, BarriersOk;
    var t, s' := s.mode.thread, PerformStep(s, op);
    match op {
      case Create(child) =>
        var s1 := s.(tr := Initialize(s.tr, child), os := At(s.os, child, Ready));
        RegisterKeeps(s, t, child, s1);
        PassKeeps(s1, t, Ready, s');
      case Join(u) => JoinKeeps(s, t, u, s');
      case Finish =>
        FinalizeEnabled(s, t);
        FinishKeeps(s, t, s'.tr.enabled, s');
      case BarrierWait(b) =>
        BarrierArrives(s, b);
      case InitBarrier(_, _) => InitKeeps(s, t, op, s');
      case InitSem(_, _) => InitKeeps(s, t, op, s');
    }
  }

  lemma BarrierArrives(s: Sys, b: Barrier)
    requires Invariant(s) && s.mode.Run? && Legal(s.os, s.mode.thread, BarrierWait(b))
    ensures Invariant(PerformStep(s, BarrierWait(b)))
  {
    hide EnabledOk, LocksOk, SemsOk, CondsOk, JoinsOk, BarriersOk, TokensOk, FinishedOk, TestersOk, OnlyBusy,
         Queued, SetAll, Arrive, Able;
    var t, s' := s.mode.thread, PerformStep(s, BarrierWait(b));
    BarrierNumbers(s.tr.onBarrier, s.tr.barrierCount, s.os.loc, s.os.barriers, b);
    var last := LastArrival(s.tr.onBarrier, s.tr.barrierCount[b], b);
    ArrivalEnabled(s, t, b, last);
    ArrivalBarriers(s.tr.onBarrier, s.tr.barrierCount, s.os.loc, s.os.barriers, t, b, last);
    BarrierKeeps(s, t, AtBarrier(b, s.os.barriers[b].round), s'.tr.enabled, s'.tr.onBarrier, s'.os.barriers, s');
  }

  lemma WakeKeeps(s: Sys)
    requires Invariant(s) && s.mode.Posted?
    ensures Invariant(WakeStep(s))
  {
    hide Invariant, EnabledOk, LocksOk, SemsOk, CondsOk, JoinsOk, BarriersOk, TokensOk, FinishedOk, TestersOk;
    assert Shape(s) by { InvariantShape(s); }
    var t, s' := s.mode.thread, WakeStep(s);
    var l := s.os.loc[t];
    if l.TimedWaiting? {
      WakeTimedKeeps(s, t, s');
    } else if l.Locking? || l.Relocking? || (l.TryLocking? && Free(s.os, l.mutex)) {
      WakeLockKeeps(s, t, l.mutex, s');
    } else if l.SemWaiting? {
      WakeSemKeeps(s, t, l.sem, s');
    } else {
      WakePlainKeeps(s, t, s');
    }
  }

  lemma InvariantShape(s: Sys)
    requires Invariant(s)
    ensures Shape(s)
  {
  }

  lemma RejoinKeeps(s: Sys)
    requires Invariant(s) && s.mode.Handoff?
    ensures Invariant(RejoinStep(s))
  {
    hide Invariant, HasWaiter;
    assert Shape(s) by { InvariantShape(s); }
    var g, w := s.mode.signaller, s.mode.target;
    var m := s.os.loc[w].mutex;
    if SignalDone(Woken(s.os, w), g) {
      RejoinLastKeeps(s, g, w, m, RejoinStep(s));
    } else {
      RejoinMoreKeeps(s, g, w, m, RejoinStep(s));
    }
  }

  /** Every legal step keeps the invariant. */
  lemma StepKeeps(s: Sys, step: Step)
    requires Invariant(s) && StepLegal(s, step)
    ensures Invariant(Apply(s, step))
  {
    hide Invariant, PerformStep, WakeStep, RejoinStep, HasWaiter, ModeOk;
    assert Shape(s) by { InvariantShape(s); }
    match step {
      case Perform(op) =>
        if op.Pass? || op.TryLock? || op.Signal? || op.Lock? || op.Relock? {
          PerformSimple(s, op);
        } else if op.Unlock? || op.CondWait? || op.CondTimedwait? || op.SemWait? || op.SemPost? {
          PerformBlocking(s, op);
        } else {
          PerformThreads(s, op);
        }
      case Dispatch(next) => DispatchKeeps(s, next, Apply(s, step));
      case Report => ReportKeeps(s, Apply(s, step));
      case Wake => WakeKeeps(s);
      case Select(w) => SelectKeeps(s, s.mode.signaller, w, Apply(s, step));
      case Rejoin => RejoinKeeps(s);
      case Pause(t) => PauseKeeps(s, t, Apply(s, step));
      case Reenable(t) => ReenableKeeps(s, t, Apply(s, step));
    }
  }

  // ---------------------------------------------------------------- whole runs

  ghost predicate LegalRun(s: Sys, steps: seq<Step>)
    decreases |steps|
  {
    steps == [] || (Shape(s) && StepLegal(s, steps[0]) && LegalRun(Apply(s, steps[0]), steps[1..]))
  }

  ghost function Execute(s: Sys, steps: seq<Step>): Sys
    requires LegalRun(s, steps)
    decreases |steps|
  {
    if steps == [] then s else Execute(Apply(s, steps[0]), steps[1..])
  }

  /** The tracker of a program whose main thread has just started. */
  ghost function Start(main: ThrID): Sys {
    var none := Maps(map[], map[], map[], map[], map[], map[], map[], map[], map[], map[], map[], map[],
                     map[], map[]);
    Sys(Initialize(none, main), Os(map[main := Running], map[], map[], map[]), Run(main), {}, {})
  }

  lemma StartInvariant(main: ThrID)
    requires main >= 0
    ensures Invariant(Start(main))
  {
  }

  lemma {:induction false} RunKeeps(s: Sys, steps: seq<Step>)
    requires Invariant(s) && LegalRun(s, steps)
    ensures Invariant(Execute(s, steps))
    decreases |steps|
  {
    hide Invariant, Apply, StepLegal, Shape;
    if steps != [] {
      StepKeeps(s, steps[0]);
      RunKeeps(Apply(s, steps[0]), steps[1..]);
    }
  }

  /** No active tester is at work. */
  ghost predicate Plain(steps: seq<Step>) {
    forall i :: 0 <= i < |steps| ==> !steps[i].Pause? && !steps[i].Reenable?
  }

  lemma {:induction false} PlainRunHoldsNobody(s: Sys, steps: seq<Step>)
    requires LegalRun(s, steps) && Plain(steps) && s.paused == {} && s.demoted == {}
    ensures Execute(s, steps).paused == {} && Execute(s, steps).demoted == {}
    decreases |steps|
  {
    if steps != [] {
      assert Plain(steps[1..]);
      PlainRunHoldsNobody(Apply(s, steps[0]), steps[1..]);
    }
  }

  /** A state that occurs in some run, with or without a tester at work. */
  ghost predicate Occurs(s: Sys) {
    exists main: nat, steps :: LegalRun(Start(main), steps) && s == Execute(Start(main), steps)
  }

  lemma OccursInvariant(s: Sys)
    requires Occurs(s)
    ensures Invariant(s)
  {
    hide Invariant, Execute, LegalRun, Start;
    var main: nat, steps :| LegalRun(Start(main), steps) && s == Execute(Start(main), steps);
    StartInvariant(main);
    RunKeeps(Start(main), steps);
  }

  /** A state the plain tracker can reach. */
  ghost predicate Reachable(s: Sys) {
    exists main: nat, steps :: LegalRun(Start(main), steps) && Plain(steps) && s == Execute(Start(main), steps)
  }

  lemma ReachableInvariant(s: Sys)
    requires Reachable(s)
    ensures Invariant(s) && s.paused == {} && s.demoted == {}
  {
    hide Invariant, Execute, LegalRun, Start;
    var main: nat, steps :| LegalRun(Start(main), steps) && Plain(steps) && s == Execute(Start(main), steps);
    StartInvariant(main);
    RunKeeps(Start(main), steps);
    assert Start(main).paused == {} && Start(main).demoted == {} by { StartHoldsNobody(main); }
    PlainRunHoldsNobody(Start(main), steps);
  }

  lemma StartHoldsNobody(main: ThrID)
    ensures Start(main).paused == {} && Start(main).demoted == {}
  {
  }

  /** The incremental enabled map says exactly which pending operations can proceed. */
  lemma EnabledExactly(s: Sys, t: ThrID)
    requires Reachable(s) && t in s.os.loc
    ensures t in s.tr.enabled && (s.tr.enabled[t] <==> CanProceed(s.os, t))
  {
    hide Reachable, LocksOk, SemsOk, CondsOk, JoinsOk, BarriersOk, TokensOk, FinishedOk, TestersOk;
    ReachableInvariant(s);
  }

  /** `deadlockCheck` reports a deadlock if and only if no thread can take a step. */
  lemma DeadlockExactly(s: Sys)
    requires Reachable(s) && s.mode.Choosing?
    ensures StepLegal(s, Report) <==> forall t :: t in s.os.loc ==> !CanProceed(s.os, t)
  {
    hide Reachable, CanProceed;
    forall t | t in s.os.loc
      ensures t in s.tr.enabled && (s.tr.enabled[t] <==> CanProceed(s.os, t))
    {
      EnabledExactly(s, t);
    }
    assert s.tr.enabled.Keys == s.os.loc.Keys by { EnabledDomain(s); }
  }

  lemma EnabledDomain(s: Sys)
    requires Reachable(s)
    ensures s.tr.enabled.Keys == s.os.loc.Keys
  {
    hide Reachable;
    ReachableInvariant(s);
  }
}
