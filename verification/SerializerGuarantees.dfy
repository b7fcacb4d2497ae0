/** Consequences of the invariant: assertions that cannot fail, one baton, no stuck protocol. */
module SerializerGuarantees {
  import opened SerializerTypes
  import opened Posix
  import opened Tracker
  import opened Serializer
  import opened SerializerFrames
  import opened SerializerTheorems

  // ---------------------------------------------------------------- assertions

  /** The posted thread finds what it queued for: the mutex free, the semaphore positive, the join target
      finished, its barrier round complete. */
  ghost predicate FindsWhatItQueuedFor(s: Sys, t: ThrID) {
    && t in s.os.loc && CanProceed(s.os, t)
    && t in s.tr.lockReady && t in s.tr.semReady
    && (s.os.loc[t].Locking? || s.os.loc[t].Relocking? ==>
          Free(s.os, s.os.loc[t].mutex) && s.tr.lockReady[t] == Some(s.os.loc[t].mutex))
    && (s.os.loc[t].SemWaiting? ==>
          s.os.sems[s.os.loc[t].sem] > 0 && s.tr.semReady[t] == Some(s.os.loc[t].sem))
    && (s.os.loc[t].Joining? ==> s.os.loc[t].target in s.tr.finished && s.tr.finished[s.os.loc[t].target])
  }

  lemma PostedThread(s: Sys)
    requires Invariant(s) && s.mode.Posted?
    ensures FindsWhatItQueuedFor(s, s.mode.thread)
  {
    hide EnabledOk, CondsOk, BarriersOk, TokensOk;
  }

  /** In every run a resumed operation succeeds. */
  lemma ResumedOperationSucceeds(s: Sys)
    requires Occurs(s) && s.mode.Posted?
    ensures FindsWhatItQueuedFor(s, s.mode.thread)
  {
    hide Invariant, Occurs;
    OccursInvariant(s);
    PostedThread(s);
  }

  lemma JoinTarget(s: Sys, u: ThrID)
    requires Invariant(s) && s.mode.Run? && Legal(s.os, s.mode.thread, Join(u)) && !s.os.loc[u].Done?
    ensures u in s.tr.joiner && s.tr.joiner[u] == UNJOINED
  {
    hide EnabledOk, LocksOk, SemsOk, CondsOk, BarriersOk, TokensOk, FinishedOk, TestersOk;
  }

  /** In no run does `registerThreadJoin` find another joiner. */
  lemma JoinIsUnregistered(s: Sys, u: ThrID)
    requires Occurs(s) && s.mode.Run? && Legal(s.os, s.mode.thread, Join(u)) && !s.os.loc[u].Done?
    ensures u in s.tr.joiner && s.tr.joiner[u] == UNJOINED
  {
    hide Invariant, Occurs;
    OccursInvariant(s);
    JoinTarget(s, u);
  }

  /** The arrival that completes a barrier finds exactly `count - 1` threads waiting, all of them disabled. */
  ghost predicate CompletesBarrier(tr: Maps, b: Barrier) {
    && b in tr.barrierCount && |Queued(tr.onBarrier, b)| + 1 == tr.barrierCount[b]
    && forall w :: w in Queued(tr.onBarrier, b) ==> w in tr.enabled && !tr.enabled[w]
  }

  lemma LastArrivalNow(s: Sys, b: Barrier)
    requires Invariant(s) && b in s.os.barriers && b in s.tr.barrierCount
    requires LastArrival(s.tr.onBarrier, s.tr.barrierCount[b], b)
    ensures CompletesBarrier(s.tr, b)
  {
    hide LocksOk, SemsOk, CondsOk, JoinsOk, TokensOk, FinishedOk, TestersOk;
    assert BarrierOk(s.tr.onBarrier, s.tr.barrierCount, b, s.os.barriers[b]);
    forall w | w in Queued(s.tr.onBarrier, b)
      ensures w in s.tr.enabled && !s.tr.enabled[w]
    {
      assert WaitsInRound(s.os.loc[w], s.os.barriers);
      assert !Able(s.os, s.paused, s.demoted, w);
    }
  }

  /** Both assertions of the last arrival hold in every run. */
  lemma LastArrivalAssertions(s: Sys, b: Barrier)
    requires Occurs(s) && b in s.os.barriers && b in s.tr.barrierCount
    requires LastArrival(s.tr.onBarrier, s.tr.barrierCount[b], b)
    ensures CompletesBarrier(s.tr, b)
  {
    hide Invariant, Occurs, LastArrival, CompletesBarrier;
    OccursInvariant(s);
    LastArrivalNow(s, b);
  }

  /** Barriers release `count` threads at a time. */
  lemma BarrierConservation(s: Sys, b: Barrier)
    requires Reachable(s) && b in s.os.barriers
    ensures var bar := s.os.barriers[b];
            && bar.total == bar.count * bar.releases + bar.arrived
            && bar.arrived < bar.count
            && bar.arrived == |set t | t in s.os.loc && s.os.loc[t] == AtBarrier(b, bar.round)|
  {
    hide Reachable, EnabledOk, LocksOk, SemsOk, CondsOk, JoinsOk, TokensOk, FinishedOk, TestersOk;
    ReachableInvariant(s);
    var bar := s.os.barriers[b];
    assert BarrierOk(s.tr.onBarrier, s.tr.barrierCount, b, bar);
    var waiting := set t | t in s.os.loc && s.os.loc[t] == AtBarrier(b, bar.round);
    forall t
      ensures t in Queued(s.tr.onBarrier, b) <==> t in waiting
    {
      if t in s.os.loc {
        assert s.tr.onBarrier[t] == Some(b) <==> s.os.loc[t] == AtBarrier(b, bar.round);
      }
    }
    assert Queued(s.tr.onBarrier, b) == waiting;
  }

  // ---------------------------------------------------------------- serialization

  /** The thread whose turn it is. */
  function Baton(mode: Mode): ThrID {
    match mode
    case Run(t) => t
    case Choosing(c) => c
    case Posted(t) => t
    case Selecting(g) => g
    case Handoff(_, w) => w
    case Deadlock => INVALID_THREAD
  }

  ghost predicate HoldsToken(s: Sys, t: ThrID)
    requires t in s.os.loc && t in s.tr.pauseSem && t in s.tr.waitSem
  {
    Active(s.os.loc[t]) || s.tr.pauseSem[t] > 0 || s.tr.waitSem[t] > 0
  }

  /** Nobody but the baton holder executes program code or has a posted semaphore, no semaphore exceeds one,
      and a posted semaphore is the one its thread sleeps on. */
  ghost predicate Serialized(s: Sys, t: ThrID) {
    && t in s.os.loc && t in s.tr.pauseSem && t in s.tr.waitSem
    && (HoldsToken(s, t) ==> t == Baton(s.mode))
    && (s.mode.Run? || s.mode.Posted? || s.mode.Handoff? ==> (HoldsToken(s, t) <==> t == Baton(s.mode)))
    && s.tr.pauseSem[t] + s.tr.waitSem[t] <= 1
    && (s.tr.pauseSem[t] == 1 ==> !OnCondition(s.os.loc[t]) && !Active(s.os.loc[t]))
    && (s.tr.waitSem[t] == 1 ==> OnCondition(s.os.loc[t]))
  }

  lemma TokensSerialize(s: Sys, t: ThrID)
    requires Invariant(s) && t in s.os.loc
    ensures Serialized(s, t)
  {
    hide EnabledOk, LocksOk, SemsOk, CondsOk, JoinsOk, BarriersOk, FinishedOk, TestersOk;
  }

  /** In every state of every run exactly the baton holder may move. */
  lemma OneBaton(s: Sys)
    requires Occurs(s)
    ensures forall t :: t in s.os.loc ==> Serialized(s, t)
  {
    hide Invariant, Occurs, Serialized;
    OccursInvariant(s);
    forall t | t in s.os.loc
      ensures Serialized(s, t)
    {
      TokensSerialize(s, t);
    }
  }

  ghost predicate Asleep(s: Sys, t: ThrID) {
    t in s.os.loc && t in s.tr.pauseSem && t in s.tr.waitSem && !HoldsToken(s, t)
  }

  lemma HandoffNow(s: Sys, step: Step)
    requires Invariant(s) && s.mode.Handoff? && StepLegal(s, step)
    ensures step == Rejoin && Asleep(s, s.mode.signaller)
    ensures s.mode.target in s.tr.waitReady && !s.tr.waitReady[s.mode.target]
    ensures Shape(s) && (Apply(s, step).mode.Choosing? || Apply(s, step).mode.Selecting?)
    ensures s.mode.target in Apply(s, step).tr.waitReady && Apply(s, step).tr.waitReady[s.mode.target]
  {
    hide EnabledOk, LocksOk, SemsOk, CondsOk, JoinsOk, BarriersOk, FinishedOk, TestersOk, HasWaiter;
  }

  /** In every run, from the moment a signaller has chosen its target until the target has queued and
      reported ready, the signaller sleeps and no other step is possible. */
  lemma SignallerSleeps(s: Sys, step: Step)
    requires Occurs(s) && s.mode.Handoff? && StepLegal(s, step)
    ensures step == Rejoin && Asleep(s, s.mode.signaller)
    ensures s.mode.target in s.tr.waitReady && !s.tr.waitReady[s.mode.target]
    ensures Shape(s) && (Apply(s, step).mode.Choosing? || Apply(s, step).mode.Selecting?)
    ensures s.mode.target in Apply(s, step).tr.waitReady && Apply(s, step).tr.waitReady[s.mode.target]
  {
    hide Invariant, Occurs, Apply, Asleep;
    OccursInvariant(s);
    HandoffNow(s, step);
  }

  // ---------------------------------------------------------------- progress

  /** In every run, outside program code, some step of the protocol is possible until a deadlock is reported. */
  lemma NeverStuck(s: Sys)
    requires Occurs(s) && !s.mode.Run? && !s.mode.Deadlock?
    ensures exists step :: StepLegal(s, step) && !step.Perform? && !step.Pause? && !step.Reenable?
  {
    hide Occurs, EnabledOk, LocksOk, SemsOk, JoinsOk, BarriersOk, TokensOk, FinishedOk, TestersOk;
    OccursInvariant(s);
    match s.mode {
      case Choosing(_) =>
        if SomeEnabled(s.tr) {
          var t :| t in s.tr.enabled && s.tr.enabled[t];
          assert StepLegal(s, Dispatch(t));
        } else {
          assert StepLegal(s, Report);
        }
      case Posted(_) => assert StepLegal(s, Wake);
      case Selecting(g) =>
        var w :| w in s.os.loc && WaitsOn(s.os.loc[w], s.os.loc[g].cond);
        assert StepLegal(s, Select(w));
      case Handoff(_, _) => assert StepLegal(s, Rejoin);
    }
  }
}
