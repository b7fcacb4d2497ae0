/**
 * The active testers hold threads back at target locks, trylocks and memory accesses
 * (src/randact/randomactive.cpp, randomlock.cpp, randomdata.cpp). Whatever they pause and re-enable,
 * the schedule they record is one the plain tracker could have followed.
 */
module ActiveTesting {
  import opened SerializerTypes
  import opened Posix
  import opened Tracker
  import opened Serializer
  import opened SerializerFrames
  import opened SerializerTheorems

  predicate IsTesterStep(step: Step) {
    step.Pause? || step.Reenable?
  }

  /** The schedule without the tester's own pausing and re-enabling. */
  function Recorded(steps: seq<Step>): seq<Step> {
    if steps == [] then []
    else if IsTesterStep(steps[0]) then Recorded(steps[1..])
    else [steps[0]] + Recorded(steps[1..])
  }

  /** Two trackers over the same program state, at the same point. */
  ghost predicate SameProgram(s: Sys, p: Sys) {
    s.os == p.os && s.mode == p.mode
  }

  /** A tester only ever narrows the choice. */
  lemma EnabledSubset(s: Sys, p: Sys, t: ThrID)
    requires Invariant(s) && Invariant(p) && SameProgram(s, p) && p.paused == {} && p.demoted == {}
    requires t in s.tr.enabled && s.tr.enabled[t]
    ensures t in p.tr.enabled && p.tr.enabled[t]
  {
    hide LocksOk, SemsOk, CondsOk, JoinsOk, BarriersOk, TokensOk, FinishedOk, TestersOk;
  }

  lemma SameCondition(s: Sys, p: Sys)
    requires Invariant(s) && Invariant(p) && SameProgram(s, p)
    ensures s.tr.onCond == p.tr.onCond
  {
    hide EnabledOk, LocksOk, SemsOk, JoinsOk, BarriersOk, TokensOk, FinishedOk, TestersOk;
    assert forall t :: t in s.os.loc ==> s.tr.onCond[t] == p.tr.onCond[t];
  }

  /** A recorded step of the tester is legal for the plain tracker. */
  lemma StepTransfers(s: Sys, p: Sys, step: Step)
    requires Invariant(s) && Invariant(p) && SameProgram(s, p) && p.paused == {} && p.demoted == {}
    requires StepLegal(s, step) && !IsTesterStep(step) && !step.Report?
    ensures Shape(p) && StepLegal(p, step) && SameProgram(Apply(s, step), Apply(p, step))
    ensures Apply(p, step).paused == {} && Apply(p, step).demoted == {}
  {
    hide Invariant, HasWaiter, Begin, Resume, Woken;
    assert Shape(s) && Shape(p) by {
      InvariantShape(s);
      InvariantShape(p);
    }
    if step.Dispatch? {
      EnabledSubset(s, p, step.next);
    }
    if step.Select? {
      SameCondition(s, p);
    }
  }

  lemma TesterStepKeepsProgram(s: Sys, step: Step)
    requires Shape(s) && StepLegal(s, step) && IsTesterStep(step)
    ensures SameProgram(Apply(s, step), s)
  {
  }

  /** Every schedule recorded under active testing is feasible under plain semantics. */
  lemma {:induction false} RecordedScheduleIsFeasible(s: Sys, p: Sys, steps: seq<Step>)
    requires Invariant(s) && Invariant(p) && SameProgram(s, p) && p.paused == {} && p.demoted == {}
    requires LegalRun(s, steps)
    requires forall i :: 0 <= i < |steps| ==> !steps[i].Report?
    ensures LegalRun(p, Recorded(steps))
    ensures SameProgram(Execute(s, steps), Execute(p, Recorded(steps)))
    decreases |steps|
  {
    hide Invariant, Apply, StepLegal, Shape, IsTesterStep;
    if steps != [] {
      var step, rest := steps[0], steps[1..];
      StepKeeps(s, step);
      if IsTesterStep(step) {
        TesterStepKeepsProgram(s, step);
        RecordedScheduleIsFeasible(Apply(s, step), p, rest);
      } else {
        StepTransfers(s, p, step);
        StepKeeps(p, step);
        RecordedScheduleIsFeasible(Apply(s, step), Apply(p, step), rest);
        assert Recorded(steps)[1..] == Recorded(rest);
      }
    }
  }

  /** The same from the start of the program: strict replay never trips the assertion in `launchThread`. */
  lemma ReplayOfTesterNeverTrips(main: ThrID, steps: seq<Step>)
    requires main >= 0 && LegalRun(Start(main), steps)
    requires forall i :: 0 <= i < |steps| ==> !steps[i].Report?
    ensures LegalRun(Start(main), Recorded(steps))
    ensures SameProgram(Execute(Start(main), steps), Execute(Start(main), Recorded(steps)))
  {
    hide Invariant, LegalRun, Execute;
    StartInvariant(main);
    assert Start(main).paused == {} && Start(main).demoted == {};
    RecordedScheduleIsFeasible(Start(main), Start(main), steps);
  }

  // ---------------------------------------------------------------- deadlocks under the lock tester

  /** A try-lock the tester re-queued on a mutex that is owned: it could proceed, but the tester holds it. */
  ghost predicate HeldTryLock(s: Sys, t: ThrID)
    requires t in s.os.loc
  {
    t in s.demoted && s.os.loc[t].TryLocking? && !Free(s.os, s.os.loc[t].mutex)
  }

  /**
   * With nobody paused any more, the tester reports a deadlock exactly when every thread that could
   * proceed is such a try-lock. Without one the report is a real deadlock.
   */
  lemma TesterDeadlockExactly(s: Sys)
    requires Invariant(s) && s.mode.Choosing? && s.paused == {}
    ensures StepLegal(s, Report) <==>
            forall t :: t in s.os.loc && CanProceed(s.os, t) ==> HeldTryLock(s, t)
  {
    hide LocksOk, SemsOk, CondsOk, JoinsOk, BarriersOk, TokensOk, FinishedOk, CanProceed;
    assert forall t :: t in s.tr.enabled ==> (s.tr.enabled[t] <==> Able(s.os, s.paused, s.demoted, t));
  }

  /** One thread locks a mutex and then try-locks it at a target address. */
  function SelfTryLock(t: ThrID, m: Mutex): seq<Step> {
    [Perform(Lock(m)), Dispatch(t), Wake, Perform(TryLock(m)), Pause(t), Reenable(t)]
  }

  /** A single-threaded state of the tester. */
  ghost predicate Alone(s: Sys, t: ThrID, l: Loc, owner: map<Mutex, ThrID>, mode: Mode,
                        paused: set<ThrID>, demoted: set<ThrID>)
  {
    && Invariant(s) && s.mode == mode && s.paused == paused && s.demoted == demoted
    && s.os == Os(map[t := l], owner, map[], map[])
  }

  lemma AloneEnabled(s: Sys, t: ThrID, l: Loc, owner: map<Mutex, ThrID>, mode: Mode)
    requires Alone(s, t, l, owner, mode, {}, {})
    ensures t in s.tr.enabled && (s.tr.enabled[t] <==> CanProceed(s.os, t))
  {
    hide LocksOk, SemsOk, CondsOk, JoinsOk, BarriersOk, TokensOk, FinishedOk, TestersOk;
  }

  lemma AloneLocks(s: Sys, t: ThrID, m: Mutex) returns (s': Sys)
    requires Alone(s, t, Running, map[], Run(t), {}, {})
    ensures LegalRun(s, [Perform(Lock(m)), Dispatch(t), Wake])
    ensures s' == Execute(s, [Perform(Lock(m)), Dispatch(t), Wake])
    ensures Alone(s', t, Running, map[m := t], Run(t), {}, {})
  {
    hide Invariant, PerformMaps, WakeMaps, Launch;
    InvariantShape(s);
    StepKeeps(s, Perform(Lock(m)));
    var s1 := Apply(s, Perform(Lock(m)));
    assert s1.os.loc == map[t := Locking(m)];
    InvariantShape(s1);
    AloneEnabled(s1, t, Locking(m), map[], Choosing(t));
    StepKeeps(s1, Dispatch(t));
    var s2 := Apply(s1, Dispatch(t));
    InvariantShape(s2);
    StepKeeps(s2, Wake);
    s' := Apply(s2, Wake);
    assert s'.os.loc == map[t := Running];
    RunThree(s, Perform(Lock(m)), Dispatch(t), Wake);
  }

  lemma RunThree(s: Sys, a: Step, b: Step, c: Step)
    requires Shape(s) && StepLegal(s, a)
    requires Shape(Apply(s, a)) && StepLegal(Apply(s, a), b)
    requires Shape(Apply(Apply(s, a), b)) && StepLegal(Apply(Apply(s, a), b), c)
    ensures LegalRun(s, [a, b, c]) && Execute(s, [a, b, c]) == Apply(Apply(Apply(s, a), b), c)
  {
    hide Apply, StepLegal, Shape;
    var s1, s2 := Apply(s, a), Apply(Apply(s, a), b);
    assert LegalRun(Apply(s2, c), []) && Execute(Apply(s2, c), []) == Apply(s2, c);
    assert [c][1..] == [] && LegalRun(s2, [c]) && Execute(s2, [c]) == Apply(s2, c);
    assert [b, c][1..] == [c] && LegalRun(s1, [b, c]) && Execute(s1, [b, c]) == Apply(s2, c);
    assert [a, b, c][1..] == [b, c];
  }

  lemma AloneTryLocks(s: Sys, t: ThrID, m: Mutex) returns (s': Sys)
    requires Alone(s, t, Running, map[m := t], Run(t), {}, {})
    ensures LegalRun(s, [Perform(TryLock(m)), Pause(t), Reenable(t)])
    ensures s' == Execute(s, [Perform(TryLock(m)), Pause(t), Reenable(t)])
    ensures Alone(s', t, TryLocking(m), map[m := t], Choosing(t), {}, {t})
  {
    hide Invariant, PerformMaps, DetermineLock;
    InvariantShape(s);
    StepKeeps(s, Perform(TryLock(m)));
    var s1 := Apply(s, Perform(TryLock(m)));
    assert s1.os.loc == map[t := TryLocking(m)];
    InvariantShape(s1);
    StepKeeps(s1, Pause(t));
    var s2 := Apply(s1, Pause(t));
    InvariantShape(s2);
    StepKeeps(s2, Reenable(t));
    s' := Apply(s2, Reenable(t));
    RunThree(s, Perform(TryLock(m)), Pause(t), Reenable(t));
  }

  lemma {:induction false} RunAppend(s: Sys, xs: seq<Step>, ys: seq<Step>)
    requires LegalRun(s, xs) && LegalRun(Execute(s, xs), ys)
    ensures LegalRun(s, xs + ys) && Execute(s, xs + ys) == Execute(Execute(s, xs), ys)
    decreases |xs|
  {
    hide Apply, StepLegal, Shape;
    if xs == [] {
      assert xs + ys == ys;
    } else {
      assert (xs + ys)[1..] == xs[1..] + ys;
      RunAppend(Apply(s, xs[0]), xs[1..], ys);
    }
  }

  /** The report can be false: the try-lock would have returned busy and the program gone on. */
  lemma FalseDeadlock(t: ThrID, m: Mutex)
    requires t >= 0
    ensures LegalRun(Start(t), SelfTryLock(t, m))
    ensures var s := Execute(Start(t), SelfTryLock(t, m));
            s.paused == {} && StepLegal(s, Report) && t in s.os.loc && CanProceed(s.os, t)
  {
    hide Invariant, LegalRun, Execute, SomeEnabled;
    StartInvariant(t);
    assert Alone(Start(t), t, Running, map[], Run(t), {}, {});
    var s1 := AloneLocks(Start(t), t, m);
    var s2 := AloneTryLocks(s1, t, m);
    var locks, tryLocks := [Perform(Lock(m)), Dispatch(t), Wake], [Perform(TryLock(m)), Pause(t), Reenable(t)];
    RunAppend(Start(t), locks, tryLocks);
    assert locks + tryLocks == SelfTryLock(t, m);
    TesterDeadlockExactly(s2);
  }
}
