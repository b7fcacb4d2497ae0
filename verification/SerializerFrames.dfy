/** How each part of the serializer's invariant reacts when one thread moves to another place. */
module SerializerFrames {
  import opened SerializerTypes
  import opened Posix
  import opened Tracker
  import opened Serializer

  function At(os: Os, t: ThrID, l: Loc): Os {
    os.(loc := os.loc[t := l])
  }

  lemma EnabledFrame(enabled: map<ThrID, bool>, os: Os, paused: set<ThrID>, demoted: set<ThrID>,
                     t: ThrID, l: Loc)
    requires EnabledOk(enabled, os, paused, demoted) && t in os.loc
    requires !os.loc[t].Done? && !l.Done?
    ensures EnabledOk(enabled[t := Able(At(os, t, l), paused, demoted, t)], At(os, t, l), paused, demoted)
  {
    forall u | u in os.loc && u != t
      ensures Able(At(os, t, l), paused, demoted, u) == Able(os, paused, demoted, u)
    {
    }
  }

  lemma FinishedFrame(finished: map<ThrID, bool>, loc: Locs, t: ThrID, l: Loc)
    requires FinishedOk(finished, loc) && t in loc && !loc[t].Done? && !l.Done?
    ensures FinishedOk(finished, loc[t := l])
  {
  }

  lemma LocksFrame(ready: map<ThrID, Option<Mutex>>, wait: map<ThrID, Option<Mutex>>,
                   loc: Locs, owner: map<Mutex, ThrID>, demoted: set<ThrID>, t: ThrID, l: Loc)
    requires LocksOk(ready, wait, loc, owner, demoted) && t in loc
    requires QueuedOn(loc[t], t in demoted).None? && QueuedOn(l, t in demoted).None?
    ensures LocksOk(ready, wait, loc[t := l], owner, demoted)
  {
  }

  lemma SemsFrame(ready: map<ThrID, Option<Sem>>, wait: map<ThrID, Option<Sem>>,
                  loc: Locs, sems: map<Sem, nat>, t: ThrID, l: Loc)
    requires SemsOk(ready, wait, loc, sems) && t in loc && !loc[t].SemWaiting? && !l.SemWaiting?
    ensures SemsOk(ready, wait, loc[t := l], sems)
  {
  }

  lemma CondsFrame(onCond: map<ThrID, Option<Cond>>, loc: Locs, t: ThrID, l: Loc)
    requires CondsOk(onCond, loc) && t in loc && !OnCondition(loc[t])
    ensures CondsOk(onCond[t := if OnCondition(l) then Some(l.cond) else None], loc[t := l])
  {
  }

  lemma JoinsFrame(joiner: map<ThrID, ThrID>, loc: Locs, t: ThrID, l: Loc)
    requires JoinsOk(joiner, loc) && t in loc
    requires !loc[t].Joining? && !loc[t].Done? && !l.Joining? && !l.Done?
    ensures JoinsOk(joiner, loc[t := l])
  {
  }

  lemma BarriersFrame(onBarrier: map<ThrID, Option<Barrier>>, count: map<Barrier, nat>,
                      loc: Locs, barriers: map<Barrier, BarrierState>, t: ThrID, l: Loc)
    requires BarriersOk(onBarrier, count, loc, barriers) && t in loc
    requires !WaitsInRound(loc[t], barriers) && !l.AtBarrier?
    ensures BarriersOk(onBarrier, count, loc[t := l], barriers)
  {
  }

  /** No semaphore is posted in this mode. */
  predicate Quiet(mode: Mode) {
    !mode.Posted? && !mode.Handoff?
  }

  lemma TokensFrame(pauseSem: map<ThrID, nat>, waitSem: map<ThrID, nat>, waitReady: map<ThrID, bool>,
                    wasSignalled: map<ThrID, bool>, loc: Locs, mode: Mode, mode': Mode, t: ThrID, l: Loc)
    requires TokensOk(pauseSem, waitSem, waitReady, wasSignalled, loc, mode) && t in loc
    requires Quiet(mode) && Quiet(mode')
    ensures TokensOk(pauseSem, waitSem, waitReady, wasSignalled[t := !l.TimedOut?], loc[t := l], mode')
  {
  }

  // ---------------------------------------------------------------- mutex queues

  lemma LocksQueue(ready: map<ThrID, Option<Mutex>>, wait: map<ThrID, Option<Mutex>>,
                   loc: Locs, owner: map<Mutex, ThrID>, demoted: set<ThrID>, t: ThrID, l: Loc, m: Mutex)
    requires LocksOk(ready, wait, loc, owner, demoted) && t in loc
    requires QueuedOn(loc[t], t in demoted).None? && QueuedOn(l, t in demoted) == Some(m)
    ensures if m !in owner then LocksOk(ready[t := Some(m)], wait, loc[t := l], owner, demoted)
            else LocksOk(ready, wait[t := Some(m)], loc[t := l], owner, demoted)
  {
  }

  /** Releasing a mutex makes its waiters ready. */
  lemma LocksRelease(ready: map<ThrID, Option<Mutex>>, wait: map<ThrID, Option<Mutex>>,
                     loc: Locs, owner: map<Mutex, ThrID>, demoted: set<ThrID>, m: Mutex)
    requires LocksOk(ready, wait, loc, owner, demoted) && m in owner
    ensures var waiters := Queued(wait, m);
            LocksOk(SetAll(ready, waiters, Some(m)), SetAll(wait, waiters, None), loc, owner - {m}, demoted)
  {
    forall t | t in loc
      ensures t in Queued(wait, m) <==> QueuedOn(loc[t], t in demoted) == Some(m)
    {
    }
  }

  /** ... and enables exactly those that no tester holds. */
  lemma EnabledRelease(enabled: map<ThrID, bool>, wait: map<ThrID, Option<Mutex>>,
                       ready: map<ThrID, Option<Mutex>>, os: Os,
                       paused: set<ThrID>, demoted: set<ThrID>, m: Mutex)
    requires EnabledOk(enabled, os, paused, demoted) && m in os.owner
    requires LocksOk(ready, wait, os.loc, os.owner, demoted)
    ensures var waiters := Queued(wait, m);
            EnabledOk(SetAll(SetAll(enabled, waiters, true), paused, false), os.(owner := os.owner - {m}),
                      paused, demoted)
  {
    var os' := os.(owner := os.owner - {m});
    forall t | t in os.loc
      ensures Able(os', paused, demoted, t) ==
              (t !in paused && (t in Queued(wait, m) || enabled[t]))
    {
      assert t in Queued(wait, m) <==> QueuedOn(os.loc[t], t in demoted) == Some(m);
    }
  }

  /** Acquiring a mutex sends everybody else who was ready on it back to waiting. */
  lemma LocksAcquire(ready: map<ThrID, Option<Mutex>>, wait: map<ThrID, Option<Mutex>>,
                     loc: Locs, owner: map<Mutex, ThrID>, demoted: set<ThrID>, t: ThrID, m: Mutex)
    requires LocksOk(ready, wait, loc, owner, demoted) && m !in owner && t in loc
    requires QueuedOn(loc[t], true) == Some(m)
    ensures var ready' := ready[t := None];
            var losers := Queued(ready', m);
            LocksOk(SetAll(ready', losers, None), SetAll(wait, losers, Some(m)),
                    loc[t := Running], owner[m := t], demoted - {t})
  {
    var losers := Queued(ready[t := None], m);
    forall u | u in loc && u != t
      ensures u in losers <==> QueuedOn(loc[u], u in demoted) == Some(m)
    {
    }
  }

  lemma EnabledAcquire(enabled: map<ThrID, bool>, ready: map<ThrID, Option<Mutex>>,
                       wait: map<ThrID, Option<Mutex>>, os: Os,
                       paused: set<ThrID>, demoted: set<ThrID>, t: ThrID, m: Mutex)
    requires EnabledOk(enabled, os, paused, demoted) && m !in os.owner
    requires LocksOk(ready, wait, os.loc, os.owner, demoted)
    requires t in os.loc && enabled[t] && QueuedOn(os.loc[t], true) == Some(m)
    ensures var losers := Queued(ready[t := None], m);
            EnabledOk(SetAll(enabled, losers, false), At(os, t, Running).(owner := os.owner[m := t]),
                      paused, demoted - {t})
  {
    hide LocksOk, Queued;
    var losers := Queued(ready[t := None], m);
    var os' := At(os, t, Running).(owner := os.owner[m := t]);
    LosersQueue(ready, wait, os.loc, os.owner, demoted, t, m);
    forall u | u in os.loc && u != t
      ensures Able(os', paused, demoted - {t}, u) == (u !in losers && enabled[u])
    {
      assert u in losers <==> QueuedOn(os.loc[u], u in demoted) == Some(m);
    }
  }

  /** The losers of a lock are the others that queue for it. */
  lemma LosersQueue(ready: map<ThrID, Option<Mutex>>, wait: map<ThrID, Option<Mutex>>,
                    loc: Locs, owner: map<Mutex, ThrID>, demoted: set<ThrID>, t: ThrID, m: Mutex)
    requires LocksOk(ready, wait, loc, owner, demoted) && m !in owner && t in loc
    ensures t !in Queued(ready[t := None], m)
    ensures forall u :: u in loc && u != t ==>
              (u in Queued(ready[t := None], m) <==> QueuedOn(loc[u], u in demoted) == Some(m))
  {
  }

  // ---------------------------------------------------------------- semaphore queues

  lemma SemsQueue(ready: map<ThrID, Option<Sem>>, wait: map<ThrID, Option<Sem>>,
                  loc: Locs, sems: map<Sem, nat>, t: ThrID, x: Sem)
    requires SemsOk(ready, wait, loc, sems) && t in loc && !loc[t].SemWaiting? && x in sems
    ensures if sems[x] > 0 then SemsOk(ready[t := Some(x)], wait, loc[t := SemWaiting(x)], sems)
            else SemsOk(ready, wait[t := Some(x)], loc[t := SemWaiting(x)], sems)
  {
  }

  lemma SemsPost(ready: map<ThrID, Option<Sem>>, wait: map<ThrID, Option<Sem>>,
                 loc: Locs, sems: map<Sem, nat>, x: Sem)
    requires SemsOk(ready, wait, loc, sems) && x in sems
    ensures var waiters := Queued(wait, x);
            SemsOk(SetAll(ready, waiters, Some(x)), SetAll(wait, waiters, None), loc, sems[x := sems[x] + 1])
  {
  }

  lemma EnabledPost(enabled: map<ThrID, bool>, ready: map<ThrID, Option<Sem>>, wait: map<ThrID, Option<Sem>>,
                    os: Os, paused: set<ThrID>, demoted: set<ThrID>, x: Sem)
    requires EnabledOk(enabled, os, paused, demoted) && SemsOk(ready, wait, os.loc, os.sems) && x in os.sems
    requires TestersOk(paused, demoted, os.loc)
    ensures var waiters := Queued(wait, x);
            EnabledOk(SetAll(enabled, waiters, true), os.(sems := os.sems[x := os.sems[x] + 1]),
                      paused, demoted)
  {
    var os' := os.(sems := os.sems[x := os.sems[x] + 1]);
    forall t | t in os.loc
      ensures Able(os', paused, demoted, t) == (t in Queued(wait, x) || enabled[t])
    {
    }
  }

  lemma SemsPass(ready: map<ThrID, Option<Sem>>, wait: map<ThrID, Option<Sem>>,
                 loc: Locs, sems: map<Sem, nat>, t: ThrID, x: Sem)
    requires SemsOk(ready, wait, loc, sems) && t in loc && loc[t] == SemWaiting(x) && sems[x] > 0
    ensures var ready' := ready[t := None];
            var losers := Queued(ready', x);
            if sems[x] > 1 then SemsOk(ready', wait, loc[t := Running], sems[x := sems[x] - 1])
            else SemsOk(SetAll(ready', losers, None), SetAll(wait, losers, Some(x)),
                        loc[t := Running], sems[x := sems[x] - 1])
  {
  }

  lemma EnabledPass(enabled: map<ThrID, bool>, ready: map<ThrID, Option<Sem>>, wait: map<ThrID, Option<Sem>>,
                    os: Os, paused: set<ThrID>, demoted: set<ThrID>, t: ThrID, x: Sem)
    requires EnabledOk(enabled, os, paused, demoted) && SemsOk(ready, wait, os.loc, os.sems)
    requires t in os.loc && enabled[t] && os.loc[t] == SemWaiting(x) && os.sems[x] > 0
    ensures var os' := At(os, t, Running).(sems := os.sems[x := os.sems[x] - 1]);
            if os.sems[x] > 1 then EnabledOk(enabled, os', paused, demoted)
            else EnabledOk(SetAll(enabled, Queued(ready[t := None], x), false), os', paused, demoted)
  {
    var losers := Queued(ready[t := None], x);
    var os' := At(os, t, Running).(sems := os.sems[x := os.sems[x] - 1]);
    forall u | u in os.loc && u != t
      ensures Able(os', paused, demoted, u) == ((os.sems[x] > 1 || u !in losers) && enabled[u])
    {
    }
  }

  // ---------------------------------------------------------------- joins

  lemma JoinsRegister(joiner: map<ThrID, ThrID>, loc: Locs, t: ThrID, u: ThrID)
    requires JoinsOk(joiner, loc) && t in loc && u in loc && t != UNJOINED
    requires !loc[t].Joining? && !loc[t].Done?
    requires forall v :: v in loc ==> loc[v] != Joining(u)
    ensures if loc[u].Done? then JoinsOk(joiner, loc[t := Joining(u)])
            else joiner[u] == UNJOINED && JoinsOk(joiner[u := t], loc[t := Joining(u)])
  {
  }

  lemma JoinsFinish(joiner: map<ThrID, ThrID>, loc: Locs, t: ThrID)
    requires JoinsOk(joiner, loc) && t in loc && !loc[t].Joining? && !loc[t].Done?
    ensures JoinsOk(joiner, loc[t := Done])
  {
  }

  /** Finishing enables exactly the thread that waits for it. */
  lemma EnabledFinish(enabled: map<ThrID, bool>, joiner: map<ThrID, ThrID>, os: Os,
                      paused: set<ThrID>, demoted: set<ThrID>, t: ThrID)
    requires EnabledOk(enabled, os, paused, demoted) && JoinsOk(joiner, os.loc)
    requires TestersOk(paused, demoted, os.loc) && UNJOINED !in os.loc
    requires t in os.loc && !os.loc[t].Done? && !os.loc[t].Joining?
    ensures EnabledOk(FinishEnables(enabled, t, Get(joiner, t, UNJOINED)), At(os, t, Done), paused, demoted)
  {
    forall u | u in os.loc && u != t
      ensures Able(At(os, t, Done), paused, demoted, u) ==
              (enabled[u] || (joiner[t] != UNJOINED && u == joiner[t]))
    {
    }
  }

  lemma FinishedFinish(finished: map<ThrID, bool>, loc: Locs, t: ThrID)
    requires FinishedOk(finished, loc) && t in loc
    ensures FinishedOk(finished[t := true], loc[t := Done])
  {
  }

  // ---------------------------------------------------------------- a new thread

  lemma EnabledCreate(enabled: map<ThrID, bool>, os: Os, paused: set<ThrID>, demoted: set<ThrID>, child: ThrID)
    requires EnabledOk(enabled, os, paused, demoted) && child !in os.loc
    requires TestersOk(paused, demoted, os.loc)
    requires forall t :: t in os.loc && os.loc[t].Joining? ==> os.loc[t].target in os.loc
    ensures EnabledOk(enabled[child := true], At(os, child, Ready), paused, demoted)
  {
    forall u | u in os.loc
      ensures Able(At(os, child, Ready), paused, demoted, u) == enabled[u]
    {
    }
  }

  lemma QueuesCreate(tr: Maps, os: Os, demoted: set<ThrID>, child: ThrID)
    requires child !in os.loc && child !in demoted
    requires FinishedOk(tr.finished, os.loc)
    requires LocksOk(tr.lockReady, tr.lockWait, os.loc, os.owner, demoted)
    requires SemsOk(tr.semReady, tr.semWait, os.loc, os.sems)
    requires CondsOk(tr.onCond, os.loc)
    ensures FinishedOk(tr.finished[child := false], os.loc[child := Ready])
    ensures LocksOk(tr.lockReady[child := None], tr.lockWait[child := None], os.loc[child := Ready],
                    os.owner, demoted)
    ensures SemsOk(tr.semReady[child := None], tr.semWait[child := None], os.loc[child := Ready], os.sems)
    ensures CondsOk(tr.onCond[child := None], os.loc[child := Ready])
  {
    FinishedCreate(tr.finished, os.loc, child);
    LocksCreate(tr.lockReady, tr.lockWait, os, demoted, child);
    SemsCreate(tr.semReady, tr.semWait, os, child);
    CondsCreate(tr.onCond, os.loc, child);
    hide FinishedOk, LocksOk, SemsOk, CondsOk;
  }

  lemma FinishedCreate(finished: map<ThrID, bool>, loc: Locs, child: ThrID)
    requires child !in loc && FinishedOk(finished, loc)
    ensures FinishedOk(finished[child := false], loc[child := Ready])
  {
  }

  lemma LocksCreate(ready: map<ThrID, Option<Mutex>>, wait: map<ThrID, Option<Mutex>>, os: Os, demoted: set<ThrID>,
                    child: ThrID)
    requires child !in os.loc && child !in demoted && LocksOk(ready, wait, os.loc, os.owner, demoted)
    ensures LocksOk(ready[child := None], wait[child := None], os.loc[child := Ready], os.owner, demoted)
  {
  }

  lemma SemsCreate(ready: map<ThrID, Option<Sem>>, wait: map<ThrID, Option<Sem>>, os: Os, child: ThrID)
    requires child !in os.loc && SemsOk(ready, wait, os.loc, os.sems)
    ensures SemsOk(ready[child := None], wait[child := None], os.loc[child := Ready], os.sems)
  {
  }

  lemma CondsCreate(onCond: map<ThrID, Option<Cond>>, loc: Locs, child: ThrID)
    requires child !in loc && CondsOk(onCond, loc)
    ensures CondsOk(onCond[child := None], loc[child := Ready])
  {
  }

  lemma JoinsCreate(joiner: map<ThrID, ThrID>, loc: Locs, child: ThrID)
    requires JoinsOk(joiner, loc) && child !in loc
    ensures JoinsOk(joiner[child := UNJOINED], loc[child := Ready])
  {
  }

  lemma BarriersCreate(onBarrier: map<ThrID, Option<Barrier>>, count: map<Barrier, nat>,
                       loc: Locs, barriers: map<Barrier, BarrierState>, child: ThrID)
    requires BarriersOk(onBarrier, count, loc, barriers) && child !in loc
    ensures BarriersOk(onBarrier[child := None], count, loc[child := Ready], barriers)
  {
    forall b | b in barriers
      ensures BarrierOk(onBarrier[child := None], count, b, barriers[b])
    {
      assert BarrierOk(onBarrier, count, b, barriers[b]);
      assert Queued(onBarrier[child := None], b) == Queued(onBarrier, b);
    }
  }

  lemma TokensCreate(pauseSem: map<ThrID, nat>, waitSem: map<ThrID, nat>, waitReady: map<ThrID, bool>,
                     wasSignalled: map<ThrID, bool>, loc: Locs, mode: Mode, child: ThrID)
    requires TokensOk(pauseSem, waitSem, waitReady, wasSignalled, loc, mode) && child !in loc && Quiet(mode)
    ensures TokensOk(pauseSem[child := 0], waitSem[child := 0], waitReady[child := true],
                     wasSignalled[child := true], loc[child := Ready], mode)
  {
  }

  // ---------------------------------------------------------------- barriers

  /** One more thread waits in the current round. */
  lemma BarriersArrive(onBarrier: map<ThrID, Option<Barrier>>, count: map<Barrier, nat>,
                       loc: Locs, barriers: map<Barrier, BarrierState>, t: ThrID, b: Barrier)
    requires BarriersOk(onBarrier, count, loc, barriers) && t in loc && b in barriers
    requires !loc[t].AtBarrier? && barriers[b].arrived + 1 < barriers[b].count
    ensures BarriersOk(onBarrier[t := Some(b)], count, loc[t := AtBarrier(b, barriers[b].round)],
                       barriers[b := Arrive(barriers[b])])
  {
    var onBarrier' := onBarrier[t := Some(b)];
    var barriers' := barriers[b := Arrive(barriers[b])];
    assert Queued(onBarrier', b) == Queued(onBarrier, b) + {t};
    forall c | c in barriers'
      ensures BarrierOk(onBarrier', count, c, barriers'[c])
    {
      assert BarrierOk(onBarrier, count, c, barriers[c]);
      if c != b {
        assert Queued(onBarrier', c) == Queued(onBarrier, c);
      }
    }
  }

  /** The last arrival starts the next round with nobody waiting. */
  lemma BarriersRelease(onBarrier: map<ThrID, Option<Barrier>>, count: map<Barrier, nat>,
                        loc: Locs, barriers: map<Barrier, BarrierState>, t: ThrID, b: Barrier)
    requires BarriersOk(onBarrier, count, loc, barriers) && t in loc && b in barriers
    requires !loc[t].AtBarrier? && barriers[b].arrived + 1 == barriers[b].count
    ensures BarriersOk(SetAll(onBarrier, Queued(onBarrier, b), None), count,
                       loc[t := AtBarrier(b, barriers[b].round)], barriers[b := Arrive(barriers[b])])
  {
    var onBarrier' := SetAll(onBarrier, Queued(onBarrier, b), None);
    var barriers' := barriers[b := Arrive(barriers[b])];
    assert Queued(onBarrier', b) == {};
    forall c | c in barriers'
      ensures BarrierOk(onBarrier', count, c, barriers'[c])
    {
      assert BarrierOk(onBarrier, count, c, barriers[c]);
      if c != b {
        assert Queued(onBarrier', c) == Queued(onBarrier, c);
      }
    }
  }

  lemma EnabledArrive(enabled: map<ThrID, bool>, onBarrier: map<ThrID, Option<Barrier>>,
                      count: map<Barrier, nat>, os: Os, paused: set<ThrID>, demoted: set<ThrID>,
                      t: ThrID, b: Barrier)
    requires EnabledOk(enabled, os, paused, demoted) && BarriersOk(onBarrier, count, os.loc, os.barriers)
    requires TestersOk(paused, demoted, os.loc)
    requires t in os.loc && b in os.barriers && Active(os.loc[t])
    ensures var bar := os.barriers[b];
            var os' := At(os, t, AtBarrier(b, bar.round)).(barriers := os.barriers[b := Arrive(bar)]);
            if bar.arrived + 1 < bar.count then EnabledOk(enabled[t := false], os', paused, demoted)
            else EnabledOk(SetAll(enabled, Queued(onBarrier, b), true)[t := true], os', paused, demoted)
  {
    var bar := os.barriers[b];
    var os' := At(os, t, AtBarrier(b, bar.round)).(barriers := os.barriers[b := Arrive(bar)]);
    forall u | u in os.loc && u != t
      ensures Able(os', paused, demoted, u) ==
              (enabled[u] || (bar.arrived + 1 >= bar.count && u in Queued(onBarrier, b)))
    {
      assert u in Queued(onBarrier, b) <==> os.loc[u] == AtBarrier(b, bar.round);
    }
  }

  lemma BarriersInit(onBarrier: map<ThrID, Option<Barrier>>, count: map<Barrier, nat>, os: Os,
                     b: Barrier, n: nat)
    requires BarriersOk(onBarrier, count, os.loc, os.barriers) && n >= 1
    requires b in os.barriers ==> os.barriers[b].arrived == 0
    ensures BarriersOk(onBarrier, count[b := n], os.loc, os.barriers[b := NewBarrier(os, b, n)])
  {
    var barriers' := os.barriers[b := NewBarrier(os, b, n)];
    forall c | c in barriers'
      ensures BarrierOk(onBarrier, count[b := n], c, barriers'[c])
    {
      if c != b {
        assert BarrierOk(onBarrier, count, c, os.barriers[c]);
      } else if b in os.barriers {
        assert BarrierOk(onBarrier, count, b, os.barriers[b]);
      } else {
        assert forall t :: t in os.loc ==> onBarrier[t] != Some(b);
        assert Queued(onBarrier, b) == {};
      }
    }
  }

  // ---------------------------------------------------------------- launching and handing over

  /** `launchThread` posts the semaphore its target sleeps on. */
  lemma TokensLaunch(tr: Maps, loc: Locs, mode: Mode, t: ThrID)
    requires TokensOk(tr.pauseSem, tr.waitSem, tr.waitReady, tr.wasSignalled, loc, mode)
    requires CondsOk(tr.onCond, loc) && t in loc && Quiet(mode) && !Active(loc[t]) && !loc[t].CondWaiting?
    ensures TokensOk(Launch(tr, t).pauseSem, Launch(tr, t).waitSem, tr.waitReady,
                     Launch(tr, t).wasSignalled, loc, Posted(t))
  {
  }

  /** The launched thread takes its token. */
  lemma TokensWake(tr: Maps, loc: Locs, t: ThrID, l: Loc)
    requires TokensOk(tr.pauseSem, tr.waitSem, tr.waitReady, tr.wasSignalled, loc, Posted(t)) && t in loc
    requires if loc[t].TimedWaiting? then l.TimedOut? else !l.TimedOut? && !OnCondition(loc[t]) && !Active(loc[t])
    ensures if loc[t].TimedWaiting?
            then TokensOk(tr.pauseSem, Take(tr.waitSem, t), tr.waitReady, tr.wasSignalled,
                          loc[t := l], Run(t))
            else TokensOk(Take(tr.pauseSem, t), tr.waitSem, tr.waitReady,
                          tr.wasSignalled, loc[t := l], Run(t))
  {
  }

  lemma TokensSelect(tr: Maps, loc: Locs, g: ThrID, w: ThrID)
    requires TokensOk(tr.pauseSem, tr.waitSem, tr.waitReady, tr.wasSignalled, loc, Selecting(g)) && w in loc
    ensures TokensOk(tr.pauseSem, Post(tr.waitSem, w), tr.waitReady[w := false], tr.wasSignalled,
                     loc, Handoff(g, w))
  {
  }

  /** The selected waiter takes its token and gives the signaller its turn back. */
  lemma TokensRejoin(tr: Maps, loc: Locs, g: ThrID, w: ThrID, l: Loc, mode: Mode)
    requires TokensOk(tr.pauseSem, tr.waitSem, tr.waitReady, tr.wasSignalled, loc, Handoff(g, w)) && w in loc
    requires OnCondition(loc[w]) && l.Relocking? && Quiet(mode)
    ensures TokensOk(tr.pauseSem, Take(tr.waitSem, w), tr.waitReady[w := true],
                     tr.wasSignalled, loc[w := l], mode)
  {
  }

  lemma CondsLeave(onCond: map<ThrID, Option<Cond>>, loc: Locs, t: ThrID, l: Loc)
    requires CondsOk(onCond, loc) && t in loc && !OnCondition(l)
    ensures CondsOk(onCond[t := None], loc[t := l])
  {
  }

  /** A completed join leaves nothing behind that matters. */
  lemma JoinsLeave(joiner: map<ThrID, ThrID>, loc: Locs, t: ThrID, l: Loc)
    requires JoinsOk(joiner, loc) && t in loc && !loc[t].Done? && !l.Joining? && !l.Done?
    requires loc[t].Joining? ==> loc[t].target in loc && loc[loc[t].target].Done?
    ensures JoinsOk(joiner, loc[t := l])
  {
  }
}
