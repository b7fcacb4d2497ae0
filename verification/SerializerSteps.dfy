/** The scheduler's own steps keep the invariant: launching, waking, handing over, pausing. */
module SerializerSteps {
  import opened SerializerTypes
  import opened Posix
  import opened Tracker
  import opened Serializer
  import opened SerializerFrames

  lemma DispatchKeeps(s: Sys, t: ThrID, s': Sys)
    requires Invariant(s) && s.mode.Choosing? && t in s.tr.enabled && s.tr.enabled[t]
    requires s' == s.(tr := Launch(s.tr, t), mode := Posted(t))
    ensures Invariant(s')
  {
    hide LocksOk, SemsOk, CondsOk, JoinsOk, BarriersOk, TokensOk, FinishedOk, TestersOk;
    assert Able(s.os, s.paused, s.demoted, t);
    assert !Active(s.os.loc[t]) && !s.os.loc[t].CondWaiting?;
    TokensLaunch(s.tr, s.os.loc, s.mode, t);
  }

  lemma ReportKeeps(s: Sys, s': Sys)
    requires Invariant(s) && s.mode.Choosing? && s' == s.(mode := Deadlock)
    ensures Invariant(s')
  {
    hide EnabledOk, LocksOk, SemsOk, CondsOk, JoinsOk, BarriersOk, FinishedOk, TestersOk;
  }

  // ---------------------------------------------------------------- waking the launched thread

  /** The parts of the invariant a waking thread leaves alone. */
  lemma WakerMoves(s: Sys, t: ThrID, l: Loc)
    requires Invariant(s) && s.mode == Posted(t) && Active(l)
    ensures FinishedOk(s.tr.finished, s.os.loc[t := l])
    ensures JoinsOk(s.tr.joiner, s.os.loc[t := l])
    ensures BarriersOk(s.tr.onBarrier, s.tr.barrierCount, s.os.loc[t := l], s.os.barriers)
  {
    hide EnabledOk, LocksOk, SemsOk, CondsOk, JoinsOk, BarriersOk, TokensOk, FinishedOk, TestersOk;
    FinishedFrame(s.tr.finished, s.os.loc, t, l);
    JoinsLeave(s.tr.joiner, s.os.loc, t, l);
    BarriersFrame(s.tr.onBarrier, s.tr.barrierCount, s.os.loc, s.os.barriers, t, l);
  }

  lemma WakerShape(s: Sys, t: ThrID, l: Loc, s': Sys)
    requires Invariant(s) && s.mode == Posted(t) && Active(l)
    requires s'.os.loc == s.os.loc[t := l] && s'.mode == Run(t)
    requires s'.paused == s.paused && s'.demoted == s.demoted - {t}
    ensures Shape(s')
  {
    hide EnabledOk, LocksOk, SemsOk, CondsOk, JoinsOk, BarriersOk, TokensOk, FinishedOk;
  }

  lemma WakerEnabled(s: Sys, t: ThrID)
    requires Invariant(s) && s.mode == Posted(t)
    ensures t in s.tr.enabled && s.tr.enabled[t] && s.tr.enabled[t := true] == s.tr.enabled
    ensures t !in s.paused
  {
    hide LocksOk, SemsOk, CondsOk, JoinsOk, BarriersOk, TokensOk, FinishedOk;
  }

  /** A thread with nothing left to acquire simply runs on. */
  lemma WakePlainKeeps(s: Sys, t: ThrID, s': Sys)
    requires Invariant(s) && s.mode == Posted(t)
    requires var l := s.os.loc[t];
             l.Ready? || l.Joining? || l.AtBarrier? || (l.TryLocking? && !Free(s.os, l.mutex))
    requires s' == s.(tr := Unpause(s.tr, t), os := At(s.os, t, Running), mode := Run(t),
                      demoted := s.demoted - {t})
    ensures Invariant(s')
  {
    hide EnabledOk, LocksOk, SemsOk, CondsOk, JoinsOk, BarriersOk, TokensOk, FinishedOk;
    assert t !in s.demoted;
    assert s.demoted - {t} == s.demoted;
    WakerShape(s, t, Running, s');
    WakerMoves(s, t, Running);
    WakerEnabled(s, t);
    TokensWake(s.tr, s.os.loc, t, Running);
    EnabledFrame(s.tr.enabled, s.os, s.paused, s.demoted, t, Running);
    LocksFrame(s.tr.lockReady, s.tr.lockWait, s.os.loc, s.os.owner, s.demoted, t, Running);
    SemsFrame(s.tr.semReady, s.tr.semWait, s.os.loc, s.os.sems, t, Running);
    OffCondition(s, t, Running);
  }

  lemma OffCondition(s: Sys, t: ThrID, l: Loc)
    requires Invariant(s) && t in s.os.loc && !OnCondition(s.os.loc[t]) && !OnCondition(l)
    ensures CondsOk(s.tr.onCond, s.os.loc[t := l])
  {
    hide EnabledOk, LocksOk, SemsOk, JoinsOk, BarriersOk, TokensOk, FinishedOk, TestersOk;
  }

  /** `SimulateMutexLock` and a successful `SimulateMutexTrylock`. */
  lemma WakeLockKeeps(s: Sys, t: ThrID, m: Mutex, s': Sys)
    requires Invariant(s) && s.mode == Posted(t)
    requires QueuedOn(s.os.loc[t], true) == Some(m) && Free(s.os, m)
    requires s' == s.(tr := Acquired(Unpause(s.tr, t), t, m),
                      os := At(s.os, t, Running).(owner := s.os.owner[m := t]), mode := Run(t),
                      demoted := s.demoted - {t})
    ensures Invariant(s')
  {
    hide EnabledOk, LocksOk, SemsOk, CondsOk, JoinsOk, BarriersOk, TokensOk, FinishedOk, TestersOk;
    WakerShape(s, t, Running, s');
    WakerMoves(s, t, Running);
    WakerEnabled(s, t);
    TokensWake(s.tr, s.os.loc, t, Running);
    SemsFrame(s.tr.semReady, s.tr.semWait, s.os.loc, s.os.sems, t, Running);
    OffCondition(s, t, Running);
    LocksAcquire(s.tr.lockReady, s.tr.lockWait, s.os.loc, s.os.owner, s.demoted, t, m);
    EnabledAcquire(s.tr.enabled, s.tr.lockReady, s.tr.lockWait, s.os, s.paused, s.demoted, t, m);
  }

  /** `SimulateSemWait`. */
  lemma WakeSemKeeps(s: Sys, t: ThrID, x: Sem, s': Sys)
    requires Invariant(s) && s.mode == Posted(t)
    requires s.os.loc[t] == SemWaiting(x) && x in s.os.sems && s.os.sems[x] > 0
    requires s' == s.(tr := Passed(Unpause(s.tr, t), s.os.sems[x] - 1, t, x),
                      os := At(s.os, t, Running).(sems := s.os.sems[x := s.os.sems[x] - 1]), mode := Run(t),
                      demoted := s.demoted - {t})
    ensures Invariant(s')
  {
    hide EnabledOk, LocksOk, SemsOk, CondsOk, JoinsOk, BarriersOk, TokensOk, FinishedOk;
    assert s.demoted - {t} == s.demoted;
    WakerShape(s, t, Running, s');
    WakerMoves(s, t, Running);
    WakerEnabled(s, t);
    TokensWake(s.tr, s.os.loc, t, Running);
    OffCondition(s, t, Running);
    LocksFrame(s.tr.lockReady, s.tr.lockWait, s.os.loc, s.os.owner, s.demoted, t, Running);
    SemsPass(s.tr.semReady, s.tr.semWait, s.os.loc, s.os.sems, t, x);
    EnabledPass(s.tr.enabled, s.tr.semReady, s.tr.semWait, s.os, s.paused, s.demoted, t, x);
    SetNone(s.tr.semReady[t := None], None);
    SetNone(s.tr.semWait, Some(x));
    SetNone(s.tr.enabled, false);
  }

  lemma SetNone<V>(m: map<ThrID, V>, v: V)
    ensures SetAll(m, {}, v) == m
  {
  }

  /** A timed wait that nobody signalled: the thread leaves the condition. */
  lemma WakeTimedKeeps(s: Sys, t: ThrID, s': Sys)
    requires Invariant(s) && s.mode == Posted(t) && s.os.loc[t].TimedWaiting?
    requires s' == s.(tr := LeaveCond(s.tr, t), os := At(s.os, t, TimedOut(s.os.loc[t].mutex)),
                      mode := Run(t), demoted := s.demoted - {t})
    ensures Invariant(s')
  {
    hide EnabledOk, LocksOk, SemsOk, CondsOk, JoinsOk, BarriersOk, TokensOk, FinishedOk;
    var l := TimedOut(s.os.loc[t].mutex);
    assert s.demoted - {t} == s.demoted;
    WakerShape(s, t, l, s');
    WakerMoves(s, t, l);
    WakerEnabled(s, t);
    TokensWake(s.tr, s.os.loc, t, l);
    EnabledFrame(s.tr.enabled, s.os, s.paused, s.demoted, t, l);
    LocksFrame(s.tr.lockReady, s.tr.lockWait, s.os.loc, s.os.owner, s.demoted, t, l);
    SemsFrame(s.tr.semReady, s.tr.semWait, s.os.loc, s.os.sems, t, l);
    CondsLeave(s.tr.onCond, s.os.loc, t, l);
  }

  // ---------------------------------------------------------------- signals

  lemma SelectKeeps(s: Sys, g: ThrID, w: ThrID, s': Sys)
    requires Invariant(s) && s.mode == Selecting(g)
    requires w in s.tr.onCond && s.tr.onCond[w] == Some(s.os.loc[g].cond)
    requires s' == s.(tr := SelectWaiter(s.tr, w), mode := Handoff(g, w))
    ensures Invariant(s')
  {
    hide EnabledOk, LocksOk, SemsOk, JoinsOk, BarriersOk, TokensOk, FinishedOk, TestersOk;
    assert w in s.os.loc && WaitsOn(s.os.loc[w], s.os.loc[g].cond);
    TokensSelect(s.tr, s.os.loc, g, w);
  }

  /** The maps after the woken waiter has queued for its mutex. */
  lemma WaiterQueues(s: Sys, g: ThrID, w: ThrID, m: Mutex, l: Loc)
    requires Invariant(s) && s.mode == Handoff(g, w) && l == Relocking(m, false)
    ensures FinishedOk(s.tr.finished, s.os.loc[w := l])
    ensures JoinsOk(s.tr.joiner, s.os.loc[w := l])
    ensures BarriersOk(s.tr.onBarrier, s.tr.barrierCount, s.os.loc[w := l], s.os.barriers)
    ensures SemsOk(s.tr.semReady, s.tr.semWait, s.os.loc[w := l], s.os.sems)
    ensures CondsOk(s.tr.onCond[w := None], s.os.loc[w := l])
    ensures EnabledOk(s.tr.enabled[w := Free(s.os, m)], At(s.os, w, l), s.paused, s.demoted)
    ensures if Free(s.os, m)
            then LocksOk(s.tr.lockReady[w := Some(m)], s.tr.lockWait, s.os.loc[w := l], s.os.owner, s.demoted)
            else LocksOk(s.tr.lockReady, s.tr.lockWait[w := Some(m)], s.os.loc[w := l], s.os.owner, s.demoted)
  {
    hide EnabledOk, LocksOk, SemsOk, CondsOk, JoinsOk, BarriersOk, TokensOk, FinishedOk;
    FinishedFrame(s.tr.finished, s.os.loc, w, l);
    JoinsFrame(s.tr.joiner, s.os.loc, w, l);
    BarriersFrame(s.tr.onBarrier, s.tr.barrierCount, s.os.loc, s.os.barriers, w, l);
    SemsFrame(s.tr.semReady, s.tr.semWait, s.os.loc, s.os.sems, w, l);
    CondsLeave(s.tr.onCond, s.os.loc, w, l);
    EnabledFrame(s.tr.enabled, s.os, s.paused, s.demoted, w, l);
    LocksQueue(s.tr.lockReady, s.tr.lockWait, s.os.loc, s.os.owner, s.demoted, w, l, m);
  }

  /** A broadcast with waiters left. */
  lemma RejoinMoreKeeps(s: Sys, g: ThrID, w: ThrID, m: Mutex, s': Sys)
    requires s.mode == Handoff(g, w) && w in s.os.loc && OnCondition(s.os.loc[w]) && m == s.os.loc[w].mutex
    requires g in s.os.loc && s.os.loc[g].Signalling? && g != w && Invariant(s)
    requires !SignalDone(Woken(s.os, w), g)
    requires s' == s.(tr := DetermineLock(LeaveCond(s.tr, w), Free(s.os, m), w, m)
                              .(waitReady := s.tr.waitReady[w := true]),
                      os := Woken(s.os, w), mode := Selecting(g))
    ensures Invariant(s')
  {
    hide EnabledOk, LocksOk, SemsOk, CondsOk, JoinsOk, BarriersOk, TokensOk, FinishedOk;
    var l := Relocking(m, false);
    WaiterQueues(s, g, w, m, l);
    TokensRejoin(s.tr, s.os.loc, g, w, l, s'.mode);
  }

  /** The signal is delivered: the signaller reaches its scheduling point. */
  lemma RejoinLastKeeps(s: Sys, g: ThrID, w: ThrID, m: Mutex, s': Sys)
    requires s.mode == Handoff(g, w) && w in s.os.loc && OnCondition(s.os.loc[w]) && m == s.os.loc[w].mutex
    requires Invariant(s)
    requires s' == s.(tr := Enable(DetermineLock(LeaveCond(s.tr, w), Free(s.os, m), w, m)
                                     .(waitReady := s.tr.waitReady[w := true]), g),
                      os := At(Woken(s.os, w), g, Ready), mode := Choosing(g))
    ensures Invariant(s')
  {
    hide EnabledOk, LocksOk, SemsOk, CondsOk, JoinsOk, BarriersOk, TokensOk, FinishedOk, HasWaiter;
    var l := Relocking(m, false);
    var loc := s.os.loc[w := l];
    WaiterQueues(s, g, w, m, l);
    TokensRejoin(s.tr, s.os.loc, g, w, l, s'.mode);
    FinishedFrame(s.tr.finished, loc, g, Ready);
    JoinsFrame(s.tr.joiner, loc, g, Ready);
    BarriersFrame(s.tr.onBarrier, s.tr.barrierCount, loc, s.os.barriers, g, Ready);
    SemsFrame(s.tr.semReady, s.tr.semWait, loc, s.os.sems, g, Ready);
    EnabledFrame(s.tr.enabled[w := Free(s.os, m)], At(s.os, w, l), s.paused, s.demoted, g, Ready);
    LocksFrame(s'.tr.lockReady, s'.tr.lockWait, loc, s.os.owner, s.demoted, g, Ready);
    SignallerSettles(s, s', g, w, l);
  }

  lemma SignallerSettles(s: Sys, s': Sys, g: ThrID, w: ThrID, l: Loc)
    requires w in s.os.loc && g in s.os.loc && s.os.loc[g].Signalling? && w != g && l.Relocking?
    requires CondsOk(s.tr.onCond[w := None], s.os.loc[w := l])
    requires TokensOk(s'.tr.pauseSem, s'.tr.waitSem, s'.tr.waitReady, s'.tr.wasSignalled, s.os.loc[w := l],
                      Choosing(g))
    ensures CondsOk(s.tr.onCond[w := None], s.os.loc[w := l][g := Ready])
    ensures TokensOk(s'.tr.pauseSem, s'.tr.waitSem, s'.tr.waitReady, s'.tr.wasSignalled,
                     s.os.loc[w := l][g := Ready], Choosing(g))
  {
  }

  // ---------------------------------------------------------------- active testers

  lemma PauseKeeps(s: Sys, t: ThrID, s': Sys)
    requires Invariant(s) && (s.mode.Choosing? || s.mode.Selecting?)
    requires t in s.os.loc && Pausable(s.os.loc[t]) && t !in s.paused && t !in s.demoted
    requires s' == s.(tr := Disable(s.tr, t), paused := s.paused + {t})
    ensures Invariant(s')
  {
    hide LocksOk, SemsOk, CondsOk, JoinsOk, BarriersOk, TokensOk, FinishedOk;
    forall u | u in s.os.loc
      ensures Able(s.os, s.paused + {t}, s.demoted, u) == (u != t && s.tr.enabled[u])
    {
    }
  }

  /** The lock maps do not depend on who is paused: a paused thread stays queued. */
  lemma ReenableLocks(s: Sys, t: ThrID, m: Mutex, demoted': set<ThrID>)
    requires Invariant(s) && t in s.paused
    requires QueuedOn(s.os.loc[t], true) == Some(m)
    requires demoted' == if s.os.loc[t].TryLocking? then s.demoted + {t} else s.demoted
    ensures if Free(s.os, m)
            then LocksOk(s.tr.lockReady[t := Some(m)], s.tr.lockWait, s.os.loc, s.os.owner, demoted')
            else LocksOk(s.tr.lockReady, s.tr.lockWait[t := Some(m)], s.os.loc, s.os.owner, demoted')
  {
    hide EnabledOk, SemsOk, CondsOk, JoinsOk, BarriersOk, TokensOk, FinishedOk;
  }

  lemma ReenableKeeps(s: Sys, t: ThrID, s': Sys)
    requires Invariant(s) && (s.mode.Choosing? || s.mode.Selecting?) && t in s.paused
    requires var l := s.os.loc[t];
             s' == if l.Ready? then s.(tr := Enable(s.tr, t), paused := s.paused - {t})
                   else s.(tr := DetermineLock(s.tr, Free(s.os, l.mutex), t, l.mutex),
                           paused := s.paused - {t},
                           demoted := if l.TryLocking? then s.demoted + {t} else s.demoted)
    ensures Invariant(s')
  {
    hide LocksOk, SemsOk, CondsOk, JoinsOk, BarriersOk, TokensOk, FinishedOk;
    var l := s.os.loc[t];
    if !l.Ready? {
      ReenableLocks(s, t, l.mutex, s'.demoted);
    }
    forall u | u in s.os.loc
      ensures Able(s.os, s'.paused, s'.demoted, u) ==
              if u == t then l.Ready? || Free(s.os, l.mutex) else s.tr.enabled[u]
    {
    }
  }
}
