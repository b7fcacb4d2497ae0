/**
 * A broadcast wakes its waiters one at a time; the order leaves no trace
 * (src/serializer/executiontracker.cpp, `wakeThreadWaitingOnCond`). That is why broadcasts need no
 * entry in the schedule log.
 */
module Broadcast {
  import opened SerializerTypes
  import opened Posix
  import opened Tracker
  import opened Serializer
  import opened SerializerFrames
  import opened SerializerTheorems

  // ---------------------------------------------------------------- the maps are a function of the program state

  lemma QueuesDetermined(s: Sys, r: Sys)
    requires Invariant(s) && Invariant(r) && s.os == r.os && s.demoted == r.demoted
    ensures s.tr.lockReady == r.tr.lockReady && s.tr.lockWait == r.tr.lockWait
    ensures s.tr.semReady == r.tr.semReady && s.tr.semWait == r.tr.semWait
  {
    hide EnabledOk, CondsOk, JoinsOk, BarriersOk, TokensOk, FinishedOk, TestersOk, ModeOk;
    assert forall t :: t in s.os.loc ==>
        s.tr.lockReady[t] == r.tr.lockReady[t] && s.tr.lockWait[t] == r.tr.lockWait[t];
    assert forall t :: t in s.os.loc ==>
        s.tr.semReady[t] == r.tr.semReady[t] && s.tr.semWait[t] == r.tr.semWait[t];
  }

  lemma StatusDetermined(s: Sys, r: Sys)
    requires Invariant(s) && Invariant(r) && s.os == r.os
    requires s.paused == r.paused && s.demoted == r.demoted
    ensures s.tr.enabled == r.tr.enabled && s.tr.finished == r.tr.finished && s.tr.onCond == r.tr.onCond
  {
    hide LocksOk, SemsOk, JoinsOk, BarriersOk, TokensOk, TestersOk, ModeOk, Able;
    assert forall t :: t in s.os.loc ==> s.tr.enabled[t] == r.tr.enabled[t];
    assert forall t :: t in s.os.loc ==> s.tr.finished[t] == r.tr.finished[t];
    assert forall t :: t in s.os.loc ==> s.tr.onCond[t] == r.tr.onCond[t];
  }

  lemma TokensDetermined(s: Sys, r: Sys)
    requires Invariant(s) && Invariant(r) && s.os == r.os && s.mode == r.mode
    ensures s.tr.pauseSem == r.tr.pauseSem && s.tr.waitSem == r.tr.waitSem
    ensures s.tr.waitReady == r.tr.waitReady && s.tr.wasSignalled == r.tr.wasSignalled
    ensures s.tr.onBarrier == r.tr.onBarrier
  {
    hide EnabledOk, LocksOk, SemsOk, CondsOk, JoinsOk, FinishedOk, TestersOk, ModeOk, BarrierOk;
    assert forall t :: t in s.os.loc ==>
        s.tr.pauseSem[t] == r.tr.pauseSem[t] && s.tr.waitSem[t] == r.tr.waitSem[t];
    assert forall t :: t in s.os.loc ==>
        s.tr.waitReady[t] == r.tr.waitReady[t] && s.tr.wasSignalled[t] == r.tr.wasSignalled[t];
    assert forall t :: t in s.os.loc ==> s.tr.onBarrier[t] == r.tr.onBarrier[t];
  }

  /** Except for past joiners and barrier counts, the tracker holds no information of its own. */
  lemma MapsDetermined(s: Sys, r: Sys)
    requires Invariant(s) && Invariant(r) && s.os == r.os && s.mode == r.mode
    requires s.paused == r.paused && s.demoted == r.demoted
    requires s.tr.joiner == r.tr.joiner && s.tr.barrierCount == r.tr.barrierCount
    ensures s == r
  {
    hide Invariant;
    QueuesDetermined(s, r);
    StatusDetermined(s, r);
    TokensDetermined(s, r);
  }

  // ---------------------------------------------------------------- broadcasts

  /** The steps that wake the waiters in this order. */
  function WakeAll(order: seq<ThrID>): seq<Step> {
    if order == [] then [] else [Select(order[0]), Rejoin] + WakeAll(order[1..])
  }

  function Waiters(os: Os, c: Cond): set<ThrID> {
    set t | t in os.loc && WaitsOn(os.loc[t], c)
  }

  /** Everybody who waited on `c` queues for his mutex; the broadcaster is back at a scheduling point. */
  function AllWoken(os: Os, g: ThrID, c: Cond): Os {
    os.(loc := map t | t in os.loc ::
          if t == g then Ready
          else if WaitsOn(os.loc[t], c) then Relocking(os.loc[t].mutex, false)
          else os.loc[t])
  }

  ghost predicate Broadcasting(s: Sys, g: ThrID, c: Cond) {
    Invariant(s) && s.mode == Selecting(g) && s.os.loc[g] == Signalling(c, true)
  }

  /** One waiter is woken. */
  lemma WakeOne(s: Sys, g: ThrID, c: Cond, w: ThrID) returns (s': Sys)
    requires Broadcasting(s, g, c) && Shape(s) && StepLegal(s, Select(w))
    ensures Shape(Apply(s, Select(w))) && StepLegal(Apply(s, Select(w)), Rejoin)
    ensures s' == Apply(Apply(s, Select(w)), Rejoin) && Invariant(s')
    ensures w in Waiters(s.os, c) && Waiters(Woken(s.os, w), c) == Waiters(s.os, c) - {w}
    ensures s'.tr.joiner == s.tr.joiner && s'.tr.barrierCount == s.tr.barrierCount
    ensures s'.paused == s.paused && s'.demoted == s.demoted
    ensures if Waiters(s.os, c) == {w}
            then s'.mode == Choosing(g) && s'.os == AllWoken(s.os, g, c)
            else Broadcasting(s', g, c) && s'.os == Woken(s.os, w)
  {
    hide Invariant, RejoinStep, HasWaiter, Waiters, Post, TestersOk, OnlyBusy, CanProceed, Able;
    StepKeeps(s, Select(w));
    var s1 := Apply(s, Select(w));
    WaiterKnown(s, c, w);
    InvariantShape(s1);
    StepKeeps(s1, Rejoin);
    s' := Apply(s1, Rejoin);
    WokenWaiters(s, g, c, w);
    RejoinEffect(s1, g, c, w);
  }

  lemma WaiterKnown(s: Sys, c: Cond, w: ThrID)
    requires Invariant(s) && w in s.tr.onCond && s.tr.onCond[w] == Some(c)
    ensures w in Waiters(s.os, c)
  {
    hide EnabledOk, LocksOk, SemsOk, JoinsOk, BarriersOk, TokensOk, FinishedOk, TestersOk, ModeOk;
  }

  lemma WokenWaiters(s: Sys, g: ThrID, c: Cond, w: ThrID)
    requires g in s.os.loc && s.os.loc[g] == Signalling(c, true) && w in Waiters(s.os, c)
    ensures Waiters(Woken(s.os, w), c) == Waiters(s.os, c) - {w}
    ensures SignalDone(Woken(s.os, w), g) <==> Waiters(s.os, c) == {w}
    ensures Waiters(s.os, c) == {w} ==> At(Woken(s.os, w), g, Ready) == AllWoken(s.os, g, c)
  {
    var os' := Woken(s.os, w);
    assert Waiters(os', c) == Waiters(s.os, c) - {w};
    if HasWaiter(os', c) {
      var t :| t in os'.loc && WaitsOn(os'.loc[t], c);
      assert t in Waiters(os', c);
    } else {
      assert forall t :: t !in Waiters(os', c);
      assert Waiters(s.os, c) == {w} by {
        assert forall t :: t in Waiters(s.os, c) && t != w ==> t in Waiters(os', c);
      }
    }
    if Waiters(s.os, c) == {w} {
      var a, b := At(os', g, Ready).loc, AllWoken(s.os, g, c).loc;
      forall t | t in s.os.loc
        ensures a[t] == b[t]
      {
        assert WaitsOn(s.os.loc[t], c) <==> t in Waiters(s.os, c);
      }
      assert a == b;
    }
  }

  lemma RejoinEffect(s: Sys, g: ThrID, c: Cond, w: ThrID)
    requires Shape(s) && s.mode == Handoff(g, w) && s.os.loc[g] == Signalling(c, true)
    ensures var s' := Apply(s, Rejoin);
            var done := SignalDone(Woken(s.os, w), g);
            && s'.os == (if done then At(Woken(s.os, w), g, Ready) else Woken(s.os, w))
            && s'.mode == (if done then Choosing(g) else Selecting(g))
            && s'.tr.joiner == s.tr.joiner && s'.tr.barrierCount == s.tr.barrierCount
            && s'.paused == s.paused && s'.demoted == s.demoted
  {
    hide SignalDone, TestersOk;
  }

  // ---------------------------------------------------------------- whole broadcasts

  /** A list of waiters, nobody twice. */
  ghost predicate Lists(order: seq<ThrID>, waiters: set<ThrID>) {
    && (forall i :: 0 <= i < |order| ==> order[i] in waiters)
    && (forall i, j :: 0 <= i < j < |order| ==> order[i] != order[j])
  }

  lemma ListsRest(order: seq<ThrID>, waiters: set<ThrID>)
    requires order != []
    ensures Lists(order, waiters) <==> order[0] in waiters && Lists(order[1..], waiters - {order[0]})
  {
    var rest := order[1..];
    if order[0] in waiters && Lists(rest, waiters - {order[0]}) {
      forall i | 0 <= i < |order|
        ensures order[i] in waiters && (i > 0 ==> order[i] != order[0])
      {
        assert i > 0 ==> order[i] == rest[i - 1];
      }
      forall i, j | 0 <= i < j < |order|
        ensures order[i] != order[j]
      {
        assert order[j] == rest[j - 1];
        assert i > 0 ==> order[i] == rest[i - 1];
      }
    }
  }

  lemma SelectableIffWaiting(s: Sys, g: ThrID, c: Cond, w: ThrID)
    requires Broadcasting(s, g, c)
    ensures Shape(s) && (StepLegal(s, Select(w)) <==> w in Waiters(s.os, c))
  {
    hide EnabledOk, LocksOk, SemsOk, JoinsOk, BarriersOk, TokensOk, FinishedOk, TestersOk;
  }

  lemma TwoSteps(s: Sys, a: Step, b: Step, rest: seq<Step>)
    requires Shape(s)
    ensures LegalRun(s, [a, b] + rest) <==>
            && StepLegal(s, a)
            && Shape(Apply(s, a)) && StepLegal(Apply(s, a), b)
            && LegalRun(Apply(Apply(s, a), b), rest)
    ensures LegalRun(s, [a, b] + rest) ==>
            Execute(s, [a, b] + rest) == Execute(Apply(Apply(s, a), b), rest)
  {
    hide Apply, StepLegal, Shape;
    var steps := [a, b] + rest;
    assert steps[1..] == [b] + rest && ([b] + rest)[1..] == rest;
    assert steps[0] == a && ([b] + rest)[0] == b;
  }

  /** Everything but the maps that follow from the program state. */
  ghost predicate SameRest(s: Sys, r: Sys) {
    && s.tr.joiner == r.tr.joiner && s.tr.barrierCount == r.tr.barrierCount
    && s.paused == r.paused && s.demoted == r.demoted
  }

  /**
   * The broadcast loop selects any waiters in any order but nobody twice, stops exactly when as many
   * have been woken as were waiting, and ends with all of them queued for their mutexes.
   */
  lemma {:induction false} BroadcastRuns(s: Sys, g: ThrID, c: Cond, order: seq<ThrID>)
    requires Broadcasting(s, g, c)
    ensures LegalRun(s, WakeAll(order)) <==> Lists(order, Waiters(s.os, c))
    ensures LegalRun(s, WakeAll(order)) ==>
            var r := Execute(s, WakeAll(order));
            && Invariant(r) && SameRest(s, r)
            && |order| <= |Waiters(s.os, c)|
            && (|order| == |Waiters(s.os, c)| ==> r.mode == Choosing(g) && r.os == AllWoken(s.os, g, c))
            && (|order| < |Waiters(s.os, c)| ==> r.mode == Selecting(g))
    decreases |order|
  {
    hide Invariant, Apply, StepLegal, Shape, Lists, Woken, AllWoken;
    var waiters := Waiters(s.os, c);
    if order == [] {
      assert Lists(order, waiters) by { EmptyLists(waiters); }
      BroadcastHasWaiter(s, g, c);
    } else {
      var w, rest := order[0], order[1..];
      ListsRest(order, waiters);
      SelectableIffWaiting(s, g, c, w);
      TwoSteps(s, Select(w), Rejoin, WakeAll(rest));
      if w in waiters {
        var s' := WakeOne(s, g, c, w);
        assert |waiters - {w}| == |waiters| - 1;
        if waiters == {w} {
          NobodyLeft(s', g, rest, waiters - {w});
        } else {
          WokenKeepsAllWoken(s.os, g, c, w);
          BroadcastRuns(s', g, c, rest);
        }
      }
    }
  }

  lemma EmptyLists(waiters: set<ThrID>)
    ensures Lists([], waiters)
  {
  }

  lemma BroadcastHasWaiter(s: Sys, g: ThrID, c: Cond)
    requires Broadcasting(s, g, c)
    ensures |Waiters(s.os, c)| > 0
  {
    hide EnabledOk, LocksOk, SemsOk, CondsOk, JoinsOk, BarriersOk, TokensOk, FinishedOk, TestersOk, OnlyBusy;
    var t :| t in s.os.loc && WaitsOn(s.os.loc[t], c);
    assert t in Waiters(s.os, c);
  }

  lemma NobodyLeft(s: Sys, g: ThrID, rest: seq<ThrID>, waiters: set<ThrID>)
    requires s.mode == Choosing(g) && waiters == {}
    ensures LegalRun(s, WakeAll(rest)) <==> rest == []
    ensures Lists(rest, waiters) <==> rest == []
    ensures rest == [] ==> WakeAll(rest) == []
  {
    hide Apply, Shape;
    if rest != [] {
      assert WakeAll(rest)[0] == Select(rest[0]);
      assert rest[0] !in waiters;
    }
  }

  lemma WokenKeepsAllWoken(os: Os, g: ThrID, c: Cond, w: ThrID)
    requires w in Waiters(os, c)
    ensures AllWoken(Woken(os, w), g, c) == AllWoken(os, g, c)
  {
    assert AllWoken(Woken(os, w), g, c).loc == AllWoken(os, g, c).loc;
  }

  /** Two complete broadcasts from the same state end in the same state, whatever their orders. */
  lemma BroadcastOrderLeavesNoTrace(s: Sys, g: ThrID, c: Cond, order: seq<ThrID>, other: seq<ThrID>)
    requires Broadcasting(s, g, c)
    requires LegalRun(s, WakeAll(order)) && Execute(s, WakeAll(order)).mode == Choosing(g)
    requires LegalRun(s, WakeAll(other)) && Execute(s, WakeAll(other)).mode == Choosing(g)
    ensures |order| == |other| == |Waiters(s.os, c)|
    ensures Execute(s, WakeAll(order)) == Execute(s, WakeAll(other))
  {
    hide Invariant, LegalRun, Execute, WakeAll, AllWoken;
    BroadcastRuns(s, g, c, order);
    BroadcastRuns(s, g, c, other);
    MapsDetermined(Execute(s, WakeAll(order)), Execute(s, WakeAll(other)));
  }
}
