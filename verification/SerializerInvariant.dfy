/** Every step of the protocol keeps the invariant, operation by operation. */
module SerializerInvariant {
  import opened SerializerTypes
  import opened Posix
  import opened Tracker
  import opened Serializer
  import opened SerializerFrames

  /** The running thread is enabled, not paused, not demoted. */
  lemma RunnerIsEnabled(s: Sys)
    requires Invariant(s) && s.mode.Run?
    ensures s.mode.thread !in s.paused && s.mode.thread !in s.demoted
    ensures s.tr.enabled[s.mode.thread]
    ensures s.tr.enabled[s.mode.thread := true] == s.tr.enabled
  {
    hide LocksOk, SemsOk, CondsOk, JoinsOk, BarriersOk, TokensOk, FinishedOk;
    var t := s.mode.thread;
    assert Able(s.os, s.paused, s.demoted, t);
  }

  /** The parts of the invariant that do not concern where the caller goes. */
  lemma CallerMoves(s: Sys, t: ThrID, l: Loc)
    requires Invariant(s) && s.mode == Run(t)
    requires !l.Done? && !l.Joining? && !l.SemWaiting? && !l.AtBarrier?
    ensures FinishedOk(s.tr.finished, s.os.loc[t := l])
    ensures SemsOk(s.tr.semReady, s.tr.semWait, s.os.loc[t := l], s.os.sems)
    ensures JoinsOk(s.tr.joiner, s.os.loc[t := l])
    ensures BarriersOk(s.tr.onBarrier, s.tr.barrierCount, s.os.loc[t := l], s.os.barriers)
  {
    hide EnabledOk, LocksOk, SemsOk, CondsOk, JoinsOk, BarriersOk, TokensOk, FinishedOk, TestersOk;
    FinishedFrame(s.tr.finished, s.os.loc, t, l);
    SemsFrame(s.tr.semReady, s.tr.semWait, s.os.loc, s.os.sems, t, l);
    JoinsFrame(s.tr.joiner, s.os.loc, t, l);
    BarriersFrame(s.tr.onBarrier, s.tr.barrierCount, s.os.loc, s.os.barriers, t, l);
  }

  lemma CallerTokens(s: Sys, t: ThrID, l: Loc, mode: Mode)
    requires Invariant(s) && s.mode == Run(t) && s.os.loc[t].Running? && !l.TimedOut? && Quiet(mode)
    ensures TokensOk(s.tr.pauseSem, s.tr.waitSem, s.tr.waitReady, s.tr.wasSignalled,
                     s.os.loc[t := l], mode)
  {
    hide EnabledOk, LocksOk, SemsOk, CondsOk, JoinsOk, BarriersOk, FinishedOk, TestersOk;
    TokensFrame(s.tr.pauseSem, s.tr.waitSem, s.tr.waitReady, s.tr.wasSignalled,
                s.os.loc, s.mode, mode, t, l);
    assert s.tr.wasSignalled[t := true] == s.tr.wasSignalled;
  }

  /** Who may move, after the caller has gone to `l` and handed over to the scheduler. */
  lemma CallerShape(s: Sys, t: ThrID, l: Loc, s': Sys)
    requires Invariant(s) && s.mode == Run(t) && !Busy(l)
    requires s'.os.loc == s.os.loc[t := l] && s'.mode == Choosing(t)
    requires s'.paused == s.paused && s'.demoted == s.demoted
    ensures Shape(s')
  {
    hide EnabledOk, LocksOk, SemsOk, CondsOk, JoinsOk, BarriersOk, TokensOk, FinishedOk;
  }

  lemma StillOffCondition(s: Sys, t: ThrID, l: Loc)
    requires Invariant(s) && s.mode == Run(t) && !OnCondition(l)
    ensures CondsOk(s.tr.onCond, s.os.loc[t := l])
  {
    hide EnabledOk, LocksOk, SemsOk, JoinsOk, BarriersOk, TokensOk, FinishedOk, TestersOk;
    CondsFrame(s.tr.onCond, s.os.loc, t, l);
    assert s.tr.onCond[t := None] == s.tr.onCond;
  }

  lemma StillUnqueued(s: Sys, t: ThrID, l: Loc)
    requires Invariant(s) && s.mode == Run(t) && QueuedOn(l, false).None?
    ensures LocksOk(s.tr.lockReady, s.tr.lockWait, s.os.loc[t := l], s.os.owner, s.demoted)
  {
    hide EnabledOk, LocksOk, SemsOk, CondsOk, JoinsOk, BarriersOk, TokensOk, FinishedOk;
    LocksFrame(s.tr.lockReady, s.tr.lockWait, s.os.loc, s.os.owner, s.demoted, t, l);
  }

  /** The caller goes somewhere it can always proceed from. */
  lemma PassKeeps(s: Sys, t: ThrID, l: Loc, s': Sys)
    requires Invariant(s) && s.mode == Run(t) && s.os.loc[t].Running?
    requires l.Ready? || l.TryLocking?
    requires s' == s.(os := At(s.os, t, l), mode := Choosing(t))
    ensures Invariant(s')
  {
    hide EnabledOk, LocksOk, SemsOk, CondsOk, JoinsOk, BarriersOk, TokensOk, FinishedOk, TestersOk;
    CallerShape(s, t, l, s');
    CallerMoves(s, t, l);
    CallerTokens(s, t, l, s'.mode);
    RunnerIsEnabled(s);
    EnabledFrame(s.tr.enabled, s.os, s.paused, s.demoted, t, l);
    StillUnqueued(s, t, l);
    StillOffCondition(s, t, l);
  }

  /** The caller queues for a mutex: `BeforeMutexLock`, and the end of a timed-out wait. */
  lemma LockKeeps(s: Sys, t: ThrID, l: Loc, m: Mutex, s': Sys)
    requires Invariant(s) && s.mode == Run(t)
    requires (l.Locking? || l.Relocking?) && l.mutex == m
    requires s' == s.(tr := DetermineLock(s.tr, Free(s.os, m), t, m)
                              .(wasSignalled := s.tr.wasSignalled[t := true]),
                      os := At(s.os, t, l), mode := Choosing(t))
    ensures Invariant(s')
  {
    hide EnabledOk, LocksOk, SemsOk, CondsOk, JoinsOk, BarriersOk, TokensOk, FinishedOk, TestersOk;
    CallerShape(s, t, l, s');
    CallerMoves(s, t, l);
    TokensFrame(s.tr.pauseSem, s.tr.waitSem, s.tr.waitReady, s.tr.wasSignalled,
                s.os.loc, s.mode, s'.mode, t, l);
    RunnerIsEnabled(s);
    EnabledFrame(s.tr.enabled, s.os, s.paused, s.demoted, t, l);
    LocksQueue(s.tr.lockReady, s.tr.lockWait, s.os.loc, s.os.owner, s.demoted, t, l, m);
    StillOffCondition(s, t, l);
  }

  /** The caller releases a mutex it owns, and perhaps goes to wait on a condition. */
  lemma UnlockKeeps(s: Sys, t: ThrID, l: Loc, m: Mutex, s': Sys)
    requires Invariant(s) && s.mode == Run(t) && s.os.loc[t].Running? && m in s.os.owner
    requires l.Ready? || OnCondition(l)
    requires var moved := s.tr.(enabled := s.tr.enabled[t := !l.CondWaiting?]);
             s' == s.(tr := AfterUnlock(moved, m, s.paused)
                              .(onCond := s.tr.onCond[t := if OnCondition(l) then Some(l.cond) else None]),
                      os := At(s.os, t, l).(owner := s.os.owner - {m}), mode := Choosing(t))
    ensures Invariant(s')
  {
    hide EnabledOk, LocksOk, SemsOk, CondsOk, JoinsOk, BarriersOk, TokensOk, FinishedOk, TestersOk;
    RunnerIsEnabled(s);
    CallerShape(s, t, l, s');
    CallerMoves(s, t, l);
    CallerTokens(s, t, l, s'.mode);
    CondsFrame(s.tr.onCond, s.os.loc, t, l);
    StillUnqueued(s, t, l);
    LocksRelease(s.tr.lockReady, s.tr.lockWait, s.os.loc[t := l], s.os.owner, s.demoted, m);
    EnabledFrame(s.tr.enabled, s.os, s.paused, s.demoted, t, l);
    EnabledRelease(s.tr.enabled[t := !l.CondWaiting?], s.tr.lockWait, s.tr.lockReady, At(s.os, t, l),
                   s.paused, s.demoted, m);
  }

  lemma SemWaitKeeps(s: Sys, t: ThrID, x: Sem, s': Sys)
    requires Invariant(s) && s.mode == Run(t) && s.os.loc[t].Running? && x in s.os.sems
    requires s' == s.(tr := DetermineSem(s.tr, s.os.sems[x], t, x), os := At(s.os, t, SemWaiting(x)),
                      mode := Choosing(t))
    ensures Invariant(s')
  {
    hide EnabledOk, LocksOk, SemsOk, CondsOk, JoinsOk, BarriersOk, TokensOk, FinishedOk, TestersOk;
    var l := SemWaiting(x);
    RunnerIsEnabled(s);
    CallerShape(s, t, l, s');
    CallerTokens(s, t, l, s'.mode);
    FinishedFrame(s.tr.finished, s.os.loc, t, l);
    JoinsFrame(s.tr.joiner, s.os.loc, t, l);
    BarriersFrame(s.tr.onBarrier, s.tr.barrierCount, s.os.loc, s.os.barriers, t, l);
    StillOffCondition(s, t, l);
    StillUnqueued(s, t, l);
    EnabledFrame(s.tr.enabled, s.os, s.paused, s.demoted, t, l);
    SemsQueue(s.tr.semReady, s.tr.semWait, s.os.loc, s.os.sems, t, x);
  }

  lemma SemPostKeeps(s: Sys, t: ThrID, x: Sem, s': Sys)
    requires Invariant(s) && s.mode == Run(t) && s.os.loc[t].Running? && x in s.os.sems
    requires s' == s.(tr := SemPosted(s.tr, x),
                      os := At(s.os, t, Ready).(sems := s.os.sems[x := s.os.sems[x] + 1]),
                      mode := Choosing(t))
    ensures Invariant(s')
  {
    hide EnabledOk, LocksOk, SemsOk, CondsOk, JoinsOk, BarriersOk, TokensOk, FinishedOk, TestersOk;
    RunnerIsEnabled(s);
    CallerShape(s, t, Ready, s');
    CallerMoves(s, t, Ready);
    CallerTokens(s, t, Ready, s'.mode);
    StillOffCondition(s, t, Ready);
    StillUnqueued(s, t, Ready);
    EnabledFrame(s.tr.enabled, s.os, s.paused, s.demoted, t, Ready);
    EnabledPost(s.tr.enabled, s.tr.semReady, s.tr.semWait, At(s.os, t, Ready), s.paused, s.demoted, x);
    SemsPost(s.tr.semReady, s.tr.semWait, s.os.loc[t := Ready], s.os.sems, x);
  }

  lemma JoinKeeps(s: Sys, t: ThrID, u: ThrID, s': Sys)
    requires Invariant(s) && s.mode == Run(t) && s.os.loc[t].Running? && u in s.os.loc
    requires forall v :: v in s.os.loc ==> s.os.loc[v] != Joining(u)
    requires s' == s.(tr := BeforeJoin(s.tr, t, u), os := At(s.os, t, Joining(u)), mode := Choosing(t))
    ensures Invariant(s')
  {
    hide EnabledOk, LocksOk, SemsOk, CondsOk, JoinsOk, BarriersOk, TokensOk, TestersOk;
    var l := Joining(u);
    RunnerIsEnabled(s);
    CallerShape(s, t, l, s');
    CallerTokens(s, t, l, s'.mode);
    FinishedFrame(s.tr.finished, s.os.loc, t, l);
    SemsFrame(s.tr.semReady, s.tr.semWait, s.os.loc, s.os.sems, t, l);
    BarriersFrame(s.tr.onBarrier, s.tr.barrierCount, s.os.loc, s.os.barriers, t, l);
    StillOffCondition(s, t, l);
    StillUnqueued(s, t, l);
    EnabledFrame(s.tr.enabled, s.os, s.paused, s.demoted, t, l);
    JoinsRegister(s.tr.joiner, s.os.loc, t, u);
    assert Get(s.tr.finished, u, false) <==> s.os.loc[u].Done?;
  }

  lemma FinishKeeps(s: Sys, t: ThrID, enabled': map<ThrID, bool>, s': Sys)
    requires Invariant(s) && s.mode == Run(t) && s.os.loc[t].Running?
    requires EnabledOk(enabled', At(s.os, t, Done), s.paused, s.demoted)
    requires s' == s.(tr := s.tr.(enabled := enabled', finished := s.tr.finished[t := true]),
                      os := At(s.os, t, Done), mode := Choosing(t))
    ensures Invariant(s')
  {
    hide EnabledOk, LocksOk, SemsOk, CondsOk, JoinsOk, BarriersOk, TokensOk, FinishedOk, TestersOk;
    RunnerIsEnabled(s);
    CallerShape(s, t, Done, s');
    CallerTokens(s, t, Done, s'.mode);
    SemsFrame(s.tr.semReady, s.tr.semWait, s.os.loc, s.os.sems, t, Done);
    BarriersFrame(s.tr.onBarrier, s.tr.barrierCount, s.os.loc, s.os.barriers, t, Done);
    StillOffCondition(s, t, Done);
    StillUnqueued(s, t, Done);
    JoinsFinish(s.tr.joiner, s.os.loc, t);
    FinishedFinish(s.tr.finished, s.os.loc, t);
  }

  lemma FinalizeEnabled(s: Sys, t: ThrID)
    requires Invariant(s) && s.mode == Run(t) && s.os.loc[t].Running?
    ensures EnabledOk(Finalize(s.tr, t).enabled, At(s.os, t, Done), s.paused, s.demoted)
  {
    hide LocksOk, SemsOk, CondsOk, BarriersOk, TokensOk, FinishedOk;
    EnabledFinish(s.tr.enabled, s.tr.joiner, s.os, s.paused, s.demoted, t);
  }

  lemma BarrierKeeps(s: Sys, t: ThrID, l: Loc, enabled': map<ThrID, bool>,
                     onBarrier': map<ThrID, Option<Barrier>>, barriers': map<Barrier, BarrierState>, s': Sys)
    requires Invariant(s) && s.mode == Run(t) && s.os.loc[t].Running? && l.AtBarrier?
    requires s' == s.(tr := s.tr.(enabled := enabled', onBarrier := onBarrier'),
                      os := At(s.os, t, l).(barriers := barriers'), mode := Choosing(t))
    requires EnabledOk(enabled', s'.os, s.paused, s.demoted)
    requires BarriersOk(onBarrier', s.tr.barrierCount, s.os.loc[t := l], barriers')
    ensures Invariant(s')
  {
    hide EnabledOk, LocksOk, SemsOk, CondsOk, JoinsOk, BarriersOk, TokensOk, FinishedOk, TestersOk;
    RunnerIsEnabled(s);
    CallerShape(s, t, l, s');
    CallerTokens(s, t, l, s'.mode);
    FinishedFrame(s.tr.finished, s.os.loc, t, l);
    SemsFrame(s.tr.semReady, s.tr.semWait, s.os.loc, s.os.sems, t, l);
    JoinsFrame(s.tr.joiner, s.os.loc, t, l);
    StillOffCondition(s, t, l);
    StillUnqueued(s, t, l);
  }

  lemma ArrivalEnabled(s: Sys, t: ThrID, b: Barrier, last: bool)
    requires Invariant(s) && s.mode == Run(t) && b in s.os.barriers && b in s.tr.barrierCount
    requires last == LastArrival(s.tr.onBarrier, s.tr.barrierCount[b], b)
    ensures EnabledOk(ArrivalEnables(s.tr.enabled, s.tr.onBarrier, last, t, b),
                      At(s.os, t, AtBarrier(b, s.os.barriers[b].round))
                        .(barriers := s.os.barriers[b := Arrive(s.os.barriers[b])]),
                      s.paused, s.demoted)
  {
    hide EnabledOk, LocksOk, SemsOk, CondsOk, JoinsOk, BarriersOk, TokensOk, FinishedOk, TestersOk, OnlyBusy,
         Queued, SetAll, Arrive, Able;
    BarrierNumbers(s.tr.onBarrier, s.tr.barrierCount, s.os.loc, s.os.barriers, b);
    EnabledArrive(s.tr.enabled, s.tr.onBarrier, s.tr.barrierCount, s.os, s.paused, s.demoted, t, b);
  }

  lemma ArrivalBarriers(onBarrier: map<ThrID, Option<Barrier>>, count: map<Barrier, nat>, loc: Locs,
                        barriers: map<Barrier, BarrierState>, t: ThrID, b: Barrier, last: bool)
    requires BarriersOk(onBarrier, count, loc, barriers)
    requires t in loc && !loc[t].AtBarrier? && b in barriers && b in count
    requires last == LastArrival(onBarrier, count[b], b)
    ensures BarriersOk(ArrivalWaits(onBarrier, last, t, b), count,
                       loc[t := AtBarrier(b, barriers[b].round)], barriers[b := Arrive(barriers[b])])
  {
    hide BarriersOk, Arrive, SetAll, Queued;
    BarrierNumbers(onBarrier, count, loc, barriers, b);
    if last {
      BarriersRelease(onBarrier, count, loc, barriers, t, b);
    } else {
      BarriersArrive(onBarrier, count, loc, barriers, t, b);
    }
  }

  lemma BarrierNumbers(onBarrier: map<ThrID, Option<Barrier>>, count: map<Barrier, nat>,
                       loc: Locs, barriers: map<Barrier, BarrierState>, b: Barrier)
    requires BarriersOk(onBarrier, count, loc, barriers) && b in barriers
    ensures b in count && barriers[b].count == count[b]
    ensures barriers[b].arrived == |Queued(onBarrier, b)| < barriers[b].count
  {
    assert BarrierOk(onBarrier, count, b, barriers[b]);
  }

  lemma InitKeeps(s: Sys, t: ThrID, op: Op, s': Sys)
    requires Invariant(s) && s.mode == Run(t) && Legal(s.os, t, op)
    requires op.InitBarrier? || op.InitSem?
    requires s' == if op.InitBarrier? then
                     s.(tr := s.tr.(barrierCount := s.tr.barrierCount[op.barrier := op.count]),
                        os := s.os.(barriers := s.os.barriers[op.barrier := NewBarrier(s.os, op.barrier, op.count)]))
                   else s.(os := s.os.(sems := s.os.sems[op.sem := op.value]))
    ensures Invariant(s')
  {
    hide LocksOk, CondsOk, JoinsOk, BarriersOk, TokensOk, FinishedOk, TestersOk;
    if op.InitBarrier? {
      BarriersInit(s.tr.onBarrier, s.tr.barrierCount, s.os, op.barrier, op.count);
    }
  }

  /** `initializeThreadData`: the new thread joins the maps while its creator runs on. */
  lemma RegisterKeeps(s: Sys, t: ThrID, child: ThrID, s1: Sys)
    requires Invariant(s) && s.mode == Run(t) && child !in s.os.loc && child >= 0
    requires s1 == s.(tr := Initialize(s.tr, child), os := At(s.os, child, Ready))
    ensures Invariant(s1)
  {
    hide EnabledOk, LocksOk, SemsOk, CondsOk, BarriersOk, TokensOk, FinishedOk;
    EnabledCreate(s.tr.enabled, s.os, s.paused, s.demoted, child);
    QueuesCreate(s.tr, s.os, s.demoted, child);
    JoinsCreate(s.tr.joiner, s.os.loc, child);
    BarriersCreate(s.tr.onBarrier, s.tr.barrierCount, s.os.loc, s.os.barriers, child);
    TokensCreate(s.tr.pauseSem, s.tr.waitSem, s.tr.waitReady, s.tr.wasSignalled, s.os.loc, s.mode, child);
  }

  /** The signal call finds somebody to wake. */
  lemma SignalKeeps(s: Sys, t: ThrID, c: Cond, broadcast: bool, s': Sys)
    requires Invariant(s) && s.mode == Run(t) && s.os.loc[t].Running? && HasWaiter(s.os, c)
    requires s' == s.(os := At(s.os, t, Signalling(c, broadcast)), mode := Selecting(t))
    ensures Invariant(s')
  {
    hide EnabledOk, LocksOk, SemsOk, CondsOk, JoinsOk, BarriersOk, TokensOk, FinishedOk, TestersOk;
    var l := Signalling(c, broadcast);
    assert Shape(s') by {
      SignalShape(s, t, c, broadcast, s');
    }
    CallerMoves(s, t, l);
    CallerTokens(s, t, l, s'.mode);
    RunnerIsEnabled(s);
    EnabledFrame(s.tr.enabled, s.os, s.paused, s.demoted, t, l);
    StillUnqueued(s, t, l);
    StillOffCondition(s, t, l);
  }

  lemma SignalShape(s: Sys, t: ThrID, c: Cond, broadcast: bool, s': Sys)
    requires Invariant(s) && s.mode == Run(t) && s.os.loc[t].Running? && HasWaiter(s.os, c)
    requires s' == s.(os := At(s.os, t, Signalling(c, broadcast)), mode := Selecting(t))
    ensures Shape(s')
  {
    hide EnabledOk, LocksOk, SemsOk, CondsOk, JoinsOk, BarriersOk, TokensOk, FinishedOk;
    var u :| u in s.os.loc && WaitsOn(s.os.loc[u], c);
    assert u in s'.os.loc && WaitsOn(s'.os.loc[u], c);
  }
}
