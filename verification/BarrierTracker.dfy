/** Barriers as the tracker keeps them: a list of counts and a map of waiting threads
    (src/serializer/barriertracker.cpp). */
module BarrierTracker {
  import opened SerializerTypes
  import opened Tracker

  datatype BarrierInfo = BarrierInfo(barrier: Barrier, count: nat)

  ghost predicate Distinct(info: seq<BarrierInfo>) {
    forall i, j :: 0 <= i < j < |info| ==> info[i].barrier != info[j].barrier
  }

  function Barriers(info: seq<BarrierInfo>): set<Barrier> {
    set i | 0 <= i < |info| :: info[i].barrier
  }

  lemma BarriersOfLast(info: seq<BarrierInfo>)
    requires info != []
    ensures Barriers(info) == Barriers(info[..|info| - 1]) + {info[|info| - 1].barrier}
  {
    var front := info[..|info| - 1];
    forall b | b in Barriers(info)
      ensures b in Barriers(front) || b == info[|info| - 1].barrier
    {
      var i :| 0 <= i < |info| && info[i].barrier == b;
      assert i < |front| ==> front[i].barrier == b;
    }
    forall b | b in Barriers(front)
      ensures b in Barriers(info)
    {
      var i :| 0 <= i < |front| && front[i].barrier == b;
      assert info[i].barrier == b;
    }
  }

  /** The list as a map from barriers to counts. */
  ghost function Counts(info: seq<BarrierInfo>): (m: map<Barrier, nat>)
    requires Distinct(info)
    ensures m.Keys == Barriers(info)
    ensures forall i :: 0 <= i < |info| ==> m[info[i].barrier] == info[i].count
  {
    if info == [] then map[]
    else
      var front, last := info[..|info| - 1], info[|info| - 1];
      assert Barriers(info) == Barriers(front) + {last.barrier} by { BarriersOfLast(info); }
      Counts(front)[last.barrier := last.count]
  }

  lemma CountsAre(info: seq<BarrierInfo>, m: map<Barrier, nat>)
    requires Distinct(info) && m.Keys == Barriers(info)
    requires forall i :: 0 <= i < |info| ==> m[info[i].barrier] == info[i].count
    ensures m == Counts(info)
  {
    forall b | b in m
      ensures m[b] == Counts(info)[b]
    {
      var i :| 0 <= i < |info| && info[i].barrier == b;
    }
  }

  class BarrierTracker {
    var barInfo: seq<BarrierInfo>
    var threadMap: map<ThrID, Option<Barrier>>

    ghost predicate Valid()
      reads this
    {
      Distinct(barInfo)
    }

    constructor ()
      ensures Valid() && barInfo == [] && threadMap == map[]
    {
      barInfo, threadMap := [], map[];
    }

    method InitBarrier(bar: Barrier, count: nat)
      requires Valid()
      modifies this`barInfo
      ensures Valid() && Counts(barInfo) == old(Counts(barInfo))[bar := count]
    {
      var i := 0;
      while i < |barInfo|
        invariant i <= |barInfo| && barInfo == old(barInfo)
        invariant forall j :: 0 <= j < i ==> barInfo[j].barrier != bar
      {
        if barInfo[i].barrier == bar {
          barInfo := barInfo[i := BarrierInfo(bar, count)];
          assert forall j :: 0 <= j < |barInfo| ==> barInfo[j].barrier == old(barInfo)[j].barrier;
          assert bar == barInfo[i].barrier;
          CountsAre(barInfo, old(Counts(barInfo))[bar := count]);
          return;
        }
        i := i + 1;
      }
      barInfo := barInfo + [BarrierInfo(bar, count)];
      assert barInfo[..|barInfo| - 1] == old(barInfo);
    }

    method GetBarrierCount(bar: Barrier) returns (count: nat)
      requires Valid() && bar in Counts(barInfo)
      ensures count == Counts(barInfo)[bar]
    {
      count := 0;
      assert exists j :: 0 <= j < |barInfo| && barInfo[j].barrier == bar;
      var i := 0;
      while i < |barInfo|
        invariant i <= |barInfo|
        invariant forall j :: 0 <= j < i ==> barInfo[j].barrier != bar
      {
        if barInfo[i].barrier == bar {
          return barInfo[i].count;
        }
        i := i + 1;
      }
      assert false;
    }

    method ThreadWaitingOnBarrier(myself: ThrID, bar: Barrier)
      modifies this`threadMap
      ensures threadMap == old(threadMap)[myself := Some(bar)]
    {
      threadMap := threadMap[myself := Some(bar)];
    }

    method GetNumberThreadsWaitingOnBarrier(bar: Barrier) returns (number: nat)
      ensures number == |Queued(threadMap, bar)|
    {
      number := 0;
      var todo := threadMap.Keys;
      ghost var seen: set<ThrID> := {};
      while todo != {}
        invariant todo <= threadMap.Keys
        invariant seen == set t | t in threadMap && t !in todo && threadMap[t] == Some(bar)
        invariant number == |seen|
        decreases todo
      {
        HasElement(todo);
        var t :| t in todo;
        todo := todo - {t};
        if threadMap[t] == Some(bar) {
          seen := seen + {t};
          number := number + 1;
        }
      }
      assert seen == Queued(threadMap, bar);
    }

    /** Each waiting thread once. */
    method GetThreadsWaitingOnBarrier(bar: Barrier) returns (thr: seq<ThrID>)
      ensures |thr| == |Queued(threadMap, bar)| && forall t :: t in thr <==> t in Queued(threadMap, bar)
      ensures forall i, j :: 0 <= i < j < |thr| ==> thr[i] != thr[j]
    {
      thr := [];
      var todo := threadMap.Keys;
      ghost var seen: set<ThrID> := {};
      while todo != {}
        invariant todo <= threadMap.Keys
        invariant seen == set t | t in threadMap && t !in todo && threadMap[t] == Some(bar)
        invariant |thr| == |seen| && forall t :: t in thr <==> t in seen
        invariant forall i, j :: 0 <= i < j < |thr| ==> thr[i] != thr[j]
        decreases todo
      {
        HasElement(todo);
        var t :| t in todo;
        todo := todo - {t};
        if threadMap[t] == Some(bar) {
          assert t !in seen && t !in thr;
          seen := seen + {t};
          thr := thr + [t];
        }
      }
      assert seen == Queued(threadMap, bar);
    }

    method ClearThreadsWaitingOnBarrier(bar: Barrier)
      modifies this`threadMap
      ensures threadMap == SetAll(old(threadMap), Queued(old(threadMap), bar), None)
    {
      var todo := threadMap.Keys;
      while todo != {}
        invariant todo <= threadMap.Keys == old(threadMap).Keys
        invariant forall t :: t in threadMap ==>
            threadMap[t] == if t !in todo && old(threadMap)[t] == Some(bar) then None else old(threadMap)[t]
        decreases todo
      {
        HasElement(todo);
        var t :| t in todo;
        todo := todo - {t};
        if threadMap[t] == Some(bar) {
          threadMap := threadMap[t := None];
        }
      }
      ghost var cleared := SetAll(old(threadMap), Queued(old(threadMap), bar), None);
      assert forall t :: t in threadMap ==> threadMap[t] == cleared[t];
    }
  }
}
