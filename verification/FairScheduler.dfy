/**
 * The fair scheduler as the program runs it (src/addrserial/fairscheduler.cpp): maps of sets updated
 * in place by loops, proved against the functions of `FairScheduling`.
 */
module FairScheduler {
  import opened SerializerTypes
  import opened FairScheduling

  class FairScheduler {
    var fairPriority: Sets
    var fairEnabled: Sets
    var fairDisabled: Sets
    var fairScheduled: Sets
    var prevES: set<ThrID>
    /** Every point handled so far. */
    ghost var history: seq<Point>

    ghost function View(): Fair
      reads this
    {
      Fair(fairPriority, fairEnabled, fairDisabled, fairScheduled, prevES)
    }

    ghost predicate Valid()
      reads this
    {
      WellFormed(history) && View() == After(history, |history|)
    }

    constructor ()
      ensures Valid() && history == []
    {
      fairPriority, fairEnabled, fairDisabled, fairScheduled, prevES := map[], map[], map[], map[], {};
      history := [];
    }

    /** Line 15: drop the threads that are disabled now. */
    static method KeepEnabled(en: set<ThrID>, enabled: map<ThrID, bool>) returns (kept: set<ThrID>)
      ensures kept == set x | x in en && On(enabled, x)
    {
      kept := en;
      var todo := en;
      while todo != {}
        invariant todo <= kept <= en
        invariant forall x :: x in en && x !in todo ==> (x in kept <==> On(enabled, x))
        decreases todo
      {
        HasElement(todo);
        var x :| x in todo;
        if !On(enabled, x) {
          kept := kept - {x};
        }
        todo := todo - {x};
      }
    }

    /** Line 16: the threads that were enabled before this step and are not any more. */
    static method ObserveDisabled(dis: Sets, t: ThrID, prev: set<ThrID>, enabled: map<ThrID, bool>)
      returns (r: Sets)
      ensures r == AddAll(dis, t, NewlyDisabled(prev, enabled))
    {
      r := dis;
      var todo := prev;
      while todo != {}
        invariant todo <= prev
        invariant r == AddAll(dis, t, NewlyDisabled(prev - todo, enabled))
        decreases todo
      {
        HasElement(todo);
        var x :| x in todo;
        ghost var before := NewlyDisabled(prev - todo, enabled);
        todo := todo - {x};
        if !On(enabled, x) {
          r := r[t := Get(r, t) + {x}];
          assert NewlyDisabled(prev - todo, enabled) == before + {x};
          AddOne(dis, t, before, x);
        } else {
          assert NewlyDisabled(prev - todo, enabled) == before;
        }
      }
      assert prev - {} == prev;
    }

    static method KeepWindows(en: Sets, p: Point) returns (r: Sets)
      ensures r == ObserveEnabled(en, p)
    {
      r := en;
      var todo := p.enabled.Keys;
      while todo != {}
        invariant todo <= p.enabled.Keys
        invariant r.Keys == en.Keys + (p.enabled.Keys - todo)
        invariant forall t :: t in r && t !in todo ==> r[t] == ObserveEnabled(en, p)[t]
        invariant forall t :: t in r && t in todo ==> t in en && r[t] == en[t]
        decreases todo
      {
        HasElement(todo);
        var t :| t in todo;
        var kept := KeepEnabled(Get(r, t), p.enabled);
        r := r[t := kept];
        todo := todo - {t};
      }
      assert r.Keys == ObserveEnabled(en, p).Keys;
      assert forall t :: t in r ==> r[t] == ObserveEnabled(en, p)[t];
    }

    static method MarkScheduled(sch: Sets, p: Point) returns (r: Sets)
      ensures r == ObserveScheduled(sch, p)
    {
      r := sch;
      var todo := p.enabled.Keys;
      while todo != {}
        invariant todo <= p.enabled.Keys
        invariant r.Keys == sch.Keys + (p.enabled.Keys - todo)
        invariant forall t :: t in r && t !in todo ==> r[t] == ObserveScheduled(sch, p)[t]
        invariant forall t :: t in r && t in todo ==> t in sch && r[t] == sch[t]
        decreases todo
      {
        HasElement(todo);
        var t :| t in todo;
        r := r[t := Get(r, t) + {p.thread}];
        todo := todo - {t};
      }
      assert r.Keys == ObserveScheduled(sch, p).Keys;
      assert forall t :: t in r ==> r[t] == ObserveScheduled(sch, p)[t];
    }

    /** Line 24: the members of a window set that did not run in the window. */
    static method NotScheduled(candidates: set<ThrID>, sch: set<ThrID>) returns (hs: set<ThrID>)
      ensures hs == candidates - sch
    {
      hs := {};
      var todo := candidates;
      while todo != {}
        invariant todo <= candidates
        invariant hs == (candidates - todo) - sch
        decreases todo
      {
        HasElement(todo);
        var x :| x in todo;
        if x !in sch {
          hs := hs + {x};
        }
        todo := todo - {x};
      }
    }

    static method Lower(priority: Sets, hs: set<ThrID>, t: ThrID) returns (r: Sets)
      ensures r == LowerPriority(priority, hs, t)
    {
      r := priority;
      var todo := hs;
      while todo != {}
        invariant todo <= hs
        invariant r == LowerPriority(priority, hs - todo, t)
        decreases todo
      {
        HasElement(todo);
        var x :| x in todo;
        r := r[x := Get(r, x) + {t}];
        todo := todo - {x};
        assert r == LowerPriority(priority, hs - todo, t);
      }
      assert hs - {} == hs;
    }

    method UpdateDataStructures(p: Point)
      requires p.thread in p.enabled
      modifies this`fairPriority, this`fairEnabled, this`fairDisabled, this`fairScheduled
      ensures View() == Update(old(View()), p)
    {
      var lastScheduled := p.thread;
      fairPriority := fairPriority - {lastScheduled};
      fairEnabled := KeepWindows(fairEnabled, p);
      fairDisabled := ObserveDisabled(fairDisabled, lastScheduled, prevES, p.enabled);
      fairScheduled := MarkScheduled(fairScheduled, p);
      assert View() == ObservePoint(old(View()), p);
      if p.isYield {
        var sch := Get(fairScheduled, lastScheduled);
        var fromEnabled := NotScheduled(Get(fairEnabled, lastScheduled), sch);
        var fromDisabled := NotScheduled(Get(fairDisabled, lastScheduled), sch);
        assert fromEnabled + fromDisabled == Starved(View(), lastScheduled);
        fairPriority := Lower(fairPriority, fromEnabled + fromDisabled, lastScheduled);
        fairEnabled := fairEnabled[lastScheduled := EnabledSet(p.enabled)];
        fairDisabled := fairDisabled[lastScheduled := {}];
        fairScheduled := fairScheduled[lastScheduled := {}];
      }
    }

    method IsFairEnabled(target: ThrID, enabled: map<ThrID, bool>) returns (b: bool)
      ensures b <==> FairEnabled(fairPriority, enabled, target)
    {
      if !On(enabled, target) {
        return false;
      }
      var todo := fairPriority.Keys;
      while todo != {}
        invariant todo <= fairPriority.Keys
        invariant forall u :: u in fairPriority && u !in todo && On(enabled, u) ==> target !in fairPriority[u]
        decreases todo
      {
        HasElement(todo);
        var u :| u in todo;
        if On(enabled, u) && target in fairPriority[u] {
          return false;
        }
        todo := todo - {u};
      }
      return true;
    }

    method GetFairEnabledMap(p: Point) returns (fenmap: map<ThrID, bool>)
      modifies this`prevES
      ensures fenmap == FairEnabledMap(fairPriority, p.enabled)
      ensures View() == old(View()).(previouslyEnabled := EnabledSet(p.enabled))
    {
      fenmap := map[];
      var todo := p.enabled.Keys;
      while todo != {}
        invariant todo <= p.enabled.Keys
        invariant fenmap.Keys == p.enabled.Keys - todo
        invariant forall t :: t in fenmap ==> fenmap[t] == FairEnabled(fairPriority, p.enabled, t)
        invariant View() == old(View())
        decreases todo
      {
        HasElement(todo);
        var t :| t in todo;
        var b := IsFairEnabled(t, p.enabled);
        fenmap := fenmap[t := b];
        todo := todo - {t};
      }
      prevES := EnabledSet(p.enabled);
    }

    /** The bookkeeping shared by the chess tracker (live or replayed) and the address tracker. */
    method AdvanceWith(p: Point) returns (fenmap: map<ThrID, bool>)
      requires Valid() && p.thread in p.enabled && WellFormed(history + [p])
      modifies this
      ensures Valid() && history == old(history) + [p]
      ensures fenmap == FairEnabledMap(fairPriority, p.enabled)
      ensures (forall t :: t in fenmap ==> !fenmap[t]) <==> (forall t :: !On(p.enabled, t))
    {
      UpdateDataStructures(p);
      fenmap := GetFairEnabledMap(p);
      ExtendHistory(history, p, View());
      history := history + [p];
    }

    /**
     * The caller itself if it is fair-enabled, else the smallest fair-enabled thread; -1 only when no
     * thread is enabled at all.
     */
    method NonpreemptiveFairSchedule(p: Point) returns (next: ThrID, fenmap: map<ThrID, bool>)
      requires Valid() && p.thread in p.enabled && WellFormed(history + [p])
      requires forall t :: t in p.enabled ==> t >= 0
      modifies this
      ensures Valid() && history == old(history) + [p]
      ensures fenmap == FairEnabledMap(fairPriority, p.enabled)
      ensures next == INVALID_THREAD <==> forall t :: !On(p.enabled, t)
      ensures next != INVALID_THREAD ==> next in fenmap && fenmap[next]
      ensures fenmap[p.thread] ==> next == p.thread
      ensures next != p.thread ==> forall t :: t in fenmap && fenmap[t] ==> next <= t
    {
      fenmap := AdvanceWith(p);
      if fenmap[p.thread] {
        next := p.thread;
      } else {
        next := FirstTrue(fenmap);
      }
    }
  }

  /** The loop of the source over a map in ascending key order: first key that is true, or -1. */
  method FirstTrue(m: map<ThrID, bool>) returns (r: ThrID)
    requires forall t :: t in m ==> t >= 0
    ensures r == INVALID_THREAD <==> forall t :: t in m ==> !m[t]
    ensures r != INVALID_THREAD ==> r in m && m[r] && forall t :: t in m && m[t] ==> r <= t
  {
    var todo := m.Keys;
    while todo != {}
      invariant todo <= m.Keys
      invariant forall t :: t in m && t !in todo ==> !m[t]
      decreases todo
    {
      var t := Smallest(todo);
      if m[t] {
        return t;
      }
      todo := todo - {t};
    }
    return INVALID_THREAD;
  }

  method Smallest(s: set<ThrID>) returns (t: ThrID)
    requires s != {}
    ensures t in s && forall u :: u in s ==> t <= u
  {
    HasElement(s);
    t :| t in s;
    var todo := s - {t};
    while todo != {}
      invariant t in s && todo <= s
      invariant forall u :: u in s && u !in todo ==> t <= u
      decreases todo
    {
      HasElement(todo);
      var u :| u in todo;
      if u < t {
        t := u;
      }
      todo := todo - {u};
    }
  }

  lemma AddOne(m: Sets, t: ThrID, xs: set<ThrID>, x: ThrID)
    ensures AddAll(m, t, xs)[t := Get(AddAll(m, t, xs), t) + {x}] == AddAll(m, t, xs + {x})
  {
    assert Get(m, t) + xs + {x} == Get(m, t) + (xs + {x});
    if xs == {} {
      assert xs + {x} == {x};
    }
  }

  /** The fair-enabled map offers a choice exactly when some thread is enabled. */
  lemma FairMapNonempty(h: seq<Point>)
    requires WellFormed(h) && h != []
    ensures var enabled := h[|h| - 1].enabled;
            var fenmap := FairEnabledMap(After(h, |h|).priority, enabled);
            (forall t :: t in fenmap ==> !fenmap[t]) <==> (forall t :: !On(enabled, t))
  {
    var enabled := h[|h| - 1].enabled;
    SomeThreadFairEnabled(h);
    if t :| FairEnabled(After(h, |h|).priority, enabled, t) {
      assert t in FairEnabledMap(After(h, |h|).priority, enabled);
      assert On(enabled, t);
    }
  }

  lemma {:induction false} AfterPrefix(h: seq<Point>, p: Point, n: nat)
    requires n <= |h|
    ensures After(h + [p], n) == After(h, n)
    decreases n
  {
    if n > 0 {
      AfterPrefix(h, p, n - 1);
    }
  }

  /** One more point: the scheduler's state is again that of its history, and offers a choice. */
  lemma ExtendHistory(h: seq<Point>, p: Point, f: Fair)
    requires WellFormed(h + [p]) && f == Advance(After(h, |h|), p)
    ensures f == After(h + [p], |h + [p]|)
    ensures var fenmap := FairEnabledMap(f.priority, p.enabled);
            (forall t :: t in fenmap ==> !fenmap[t]) <==> (forall t :: !On(p.enabled, t))
  {
    AfterPrefix(h, p, |h|);
    FairMapNonempty(h + [p]);
  }
}
