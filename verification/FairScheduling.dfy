/**
 * The fair scheduler as a function of its history (src/addrserial/fairscheduler.cpp): one `Point`
 * is one scheduling point handed to `nonpreemptiveFairSchedule`.
 */
module FairScheduling {
  import opened SerializerTypes

  datatype Point = Point(thread: ThrID, enabled: map<ThrID, bool>, isYield: bool)

  type Sets = map<ThrID, set<ThrID>>

  /** `m[t]` of a C++ map of sets. */
  function Get(m: Sets, t: ThrID): set<ThrID> {
    if t in m then m[t] else {}
  }

  /** `enabled[t]` of a C++ map of booleans. */
  predicate On(enabled: map<ThrID, bool>, t: ThrID) {
    t in enabled && enabled[t]
  }

  function EnabledSet(enabled: map<ThrID, bool>): set<ThrID> {
    set t | t in enabled && enabled[t]
  }

  /** `priority[u]` holds the threads that may run only while `u` is disabled. */
  datatype Fair = Fair(priority: Sets, windowEnabled: Sets, windowDisabled: Sets, windowScheduled: Sets,
                       previouslyEnabled: set<ThrID>)

  const Initial := Fair(map[], map[], map[], map[], {})

  /** Line 15: every window keeps the threads that are still enabled. */
  function ObserveEnabled(en: Sets, p: Point): Sets {
    map t | t in en.Keys + p.enabled.Keys ::
      if t in p.enabled then set x | x in Get(en, t) && On(p.enabled, x) else en[t]
  }

  function AddAll(m: Sets, t: ThrID, xs: set<ThrID>): Sets {
    if xs == {} then m else m[t := Get(m, t) + xs]
  }

  function NewlyDisabled(prev: set<ThrID>, enabled: map<ThrID, bool>): set<ThrID> {
    set x | x in prev && !On(enabled, x)
  }

  /** Line 21: the caller has run in every window. */
  function ObserveScheduled(sch: Sets, p: Point): Sets {
    map t | t in sch.Keys + p.enabled.Keys ::
      if t in p.enabled then Get(sch, t) + {p.thread} else sch[t]
  }

  /** The data structures after the loop over all threads (lines 13, 15, 16 and 21 of the algorithm). */
  function ObservePoint(f: Fair, p: Point): Fair {
    Fair(f.priority - {p.thread},
         ObserveEnabled(f.windowEnabled, p),
         AddAll(f.windowDisabled, p.thread, NewlyDisabled(f.previouslyEnabled, p.enabled)),
         ObserveScheduled(f.windowScheduled, p),
         f.previouslyEnabled)
  }

  /** The threads a yielding thread has starved in its window (line 24). */
  function Starved(f: Fair, t: ThrID): set<ThrID> {
    (Get(f.windowEnabled, t) + Get(f.windowDisabled, t)) - Get(f.windowScheduled, t)
  }

  function LowerPriority(priority: Sets, hs: set<ThrID>, t: ThrID): Sets {
    map u | u in priority.Keys + hs :: if u in hs then Get(priority, u) + {t} else priority[u]
  }

  function Yield(f: Fair, p: Point): Fair {
    var t := p.thread;
    Fair(LowerPriority(f.priority, Starved(f, t), t),
         f.windowEnabled[t := EnabledSet(p.enabled)],
         f.windowDisabled[t := {}],
         f.windowScheduled[t := {}],
         f.previouslyEnabled)
  }

  /** `updateDataStructures`. */
  function Update(f: Fair, p: Point): Fair {
    var g := ObservePoint(f, p);
    if p.isYield then Yield(g, p) else g
  }

  /** `updateDataStructures` followed by `getFairEnabledMap`. */
  function Advance(f: Fair, p: Point): Fair {
    Update(f, p).(previouslyEnabled := EnabledSet(p.enabled))
  }

  /** The window sets after one point, member by member. */
  lemma AdvanceWindows(f: Fair, p: Point, t: ThrID, x: ThrID)
    requires p.thread in p.enabled
    ensures x in Get(Advance(f, p).windowEnabled, t) <==>
            if p.isYield && p.thread == t then On(p.enabled, x)
            else x in Get(f.windowEnabled, t) && (t in p.enabled ==> On(p.enabled, x))
    ensures x in Get(Advance(f, p).windowDisabled, t) <==>
            && !(p.isYield && p.thread == t)
            && (|| x in Get(f.windowDisabled, t)
                || (p.thread == t && x in f.previouslyEnabled && !On(p.enabled, x)))
    ensures x in Get(Advance(f, p).windowScheduled, t) <==>
            && !(p.isYield && p.thread == t)
            && (x in Get(f.windowScheduled, t) || (t in p.enabled && x == p.thread))
  {
  }

  /** `isFairEnabled`. */
  predicate FairEnabled(priority: Sets, enabled: map<ThrID, bool>, t: ThrID) {
    && On(enabled, t)
    && forall u :: u in priority && On(enabled, u) ==> t !in priority[u]
  }

  function FairEnabledMap(priority: Sets, enabled: map<ThrID, bool>): map<ThrID, bool> {
    map t | t in enabled :: FairEnabled(priority, enabled, t)
  }

  // ---------------------------------------------------------------- histories

  ghost function After(h: seq<Point>, n: nat): Fair
    requires n <= |h|
  {
    if n == 0 then Initial else Advance(After(h, n - 1), h[n - 1])
  }

  /** Every point names a registered thread, and threads are never unregistered. */
  ghost predicate WellFormed(h: seq<Point>) {
    && (forall k :: 0 <= k < |h| ==> h[k].thread in h[k].enabled)
    && (forall j, k :: 0 <= j < k < |h| ==> h[j].enabled.Keys <= h[k].enabled.Keys)
  }

  /** How many yields happened since `t` last yielded (since the start if it never did). */
  ghost function YieldsSince(h: seq<Point>, n: nat, t: ThrID): nat
    requires n <= |h|
  {
    if n == 0 then 0
    else if !h[n - 1].isYield then YieldsSince(h, n - 1, t)
    else if h[n - 1].thread == t then 0
    else YieldsSince(h, n - 1, t) + 1
  }

  /** `x` may run only while `u` is disabled. */
  ghost predicate Below(f: Fair, x: ThrID, u: ThrID) {
    u in f.priority && x in f.priority[u]
  }

  /** A priority edge always goes from the thread that yielded more recently. */
  lemma {:induction false} EdgesFollowYields(h: seq<Point>, n: nat, x: ThrID, u: ThrID)
    requires WellFormed(h) && n <= |h|
    requires Below(After(h, n), x, u)
    ensures YieldsSince(h, n, x) < YieldsSince(h, n, u)
    decreases n
  {
    if n > 0 {
      var p, f := h[n - 1], After(h, n - 1);
      EdgeOrigin(f, p, x, u);
      hide Advance, Below;
      if u != p.thread && Below(f, x, u) {
        EdgesFollowYields(h, n - 1, x, u);
      }
    }
  }

  /** An edge is an old one whose owner did not run, or is due to this thread's yield. */
  lemma EdgeOrigin(f: Fair, p: Point, x: ThrID, u: ThrID)
    requires p.thread in p.enabled
    ensures Below(Advance(f, p), x, u) <==>
            || (u != p.thread && Below(f, x, u))
            || (p.isYield && x == p.thread && u in Starved(ObservePoint(f, p), x))
    ensures u in Starved(ObservePoint(f, p), p.thread) ==> u != p.thread
  {
    var g := ObservePoint(f, p);
    assert Below(g, x, u) <==> u != p.thread && Below(f, x, u);
    assert p.thread in Get(g.windowScheduled, p.thread);
  }

  ghost predicate Chain(f: Fair, path: seq<ThrID>) {
    forall i :: 0 <= i < |path| - 1 ==> Below(f, path[i], path[i + 1])
  }

  ghost predicate Acyclic(f: Fair) {
    forall path :: |path| >= 2 && Chain(f, path) ==> path[0] != path[|path| - 1]
  }

  lemma {:induction false} ChainIncreases(h: seq<Point>, n: nat, path: seq<ThrID>)
    requires WellFormed(h) && n <= |h|
    requires |path| >= 2 && Chain(After(h, n), path)
    ensures YieldsSince(h, n, path[0]) < YieldsSince(h, n, path[|path| - 1])
    decreases |path|
  {
    assert Below(After(h, n), path[0], path[1]);
    EdgesFollowYields(h, n, path[0], path[1]);
    if |path| > 2 {
      ChainIncreases(h, n, path[1..]);
    }
  }

  /** The priority relation has no cycle after any run. */
  lemma PriorityIsAcyclic(h: seq<Point>, n: nat)
    requires WellFormed(h) && n <= |h|
    ensures Acyclic(After(h, n))
  {
    forall path | |path| >= 2 && Chain(After(h, n), path)
      ensures path[0] != path[|path| - 1]
    {
      ChainIncreases(h, n, path);
    }
  }

  lemma {:induction false} LongestWaiting(h: seq<Point>, n: nat, s: set<ThrID>) returns (t: ThrID)
    requires n <= |h| && s != {}
    ensures t in s
    ensures forall u :: u in s ==> YieldsSince(h, n, u) <= YieldsSince(h, n, t)
    decreases s
  {
    t := Element(s);
    if s - {t} != {} {
      var other := LongestWaiting(h, n, s - {t});
      if YieldsSince(h, n, other) > YieldsSince(h, n, t) {
        t := other;
      }
    }
  }

  /** The scheduler never reports a false deadlock: some thread is fair-enabled iff some is enabled. */
  lemma SomeThreadFairEnabled(h: seq<Point>)
    requires WellFormed(h) && h != []
    ensures var enabled := h[|h| - 1].enabled;
            (exists t :: FairEnabled(After(h, |h|).priority, enabled, t)) <==> (exists t :: On(enabled, t))
  {
    var enabled := h[|h| - 1].enabled;
    if t :| On(enabled, t) {
      assert t in EnabledSet(enabled);
      var best := LongestWaiting(h, |h|, EnabledSet(enabled));
      forall u | u in After(h, |h|).priority && On(enabled, u)
        ensures best !in After(h, |h|).priority[u]
      {
        assert u in EnabledSet(enabled);
        if Below(After(h, |h|), best, u) {
          EdgesFollowYields(h, |h|, best, u);
        }
      }
      assert FairEnabled(After(h, |h|).priority, enabled, best);
    }
  }
}
