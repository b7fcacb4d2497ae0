/** Window sets as history, and the starvation bound of the fair scheduler over whole chess runs. */
module Fairness {
  import opened SerializerTypes
  import opened FairScheduling

  // ---------------------------------------------------------------- window sets are history

  /** The window of `t` starts after its last yield among the first `n` points (at 0 if it never yielded). */
  ghost function WindowStart(h: seq<Point>, n: nat, t: ThrID): (w: nat)
    requires n <= |h|
    ensures w <= n
    ensures w > 0 ==> h[w - 1].thread == t && h[w - 1].isYield
    ensures forall k :: w <= k < n ==> !(h[k].thread == t && h[k].isYield)
  {
    if n == 0 then 0
    else if h[n - 1].thread == t && h[n - 1].isYield then n
    else WindowStart(h, n - 1, t)
  }

  /** Enabled at every point since `t`'s last yield, that point included. */
  ghost predicate AlwaysEnabled(h: seq<Point>, n: nat, t: ThrID, x: ThrID)
    requires n <= |h|
  {
    var w := WindowStart(h, n, t);
    w > 0 && forall k :: w - 1 <= k < n ==> On(h[k].enabled, x)
  }

  /** Enabled before and disabled after some step of `t` since its last yield. */
  ghost predicate DisabledBy(h: seq<Point>, n: nat, t: ThrID, x: ThrID)
    requires n <= |h|
  {
    exists k :: WindowStart(h, n, t) <= k < n && 0 < k && h[k].thread == t
                && On(h[k - 1].enabled, x) && !On(h[k].enabled, x)
  }

  /** Ran since `t`'s last yield, while `t` existed. */
  ghost predicate Ran(h: seq<Point>, n: nat, t: ThrID, x: ThrID)
    requires n <= |h|
  {
    exists k :: WindowStart(h, n, t) <= k < n && h[k].thread == x && t in h[k].enabled
  }

  lemma AlwaysEnabledStep(h: seq<Point>, n: nat, t: ThrID, x: ThrID)
    requires n < |h|
    ensures AlwaysEnabled(h, n + 1, t, x) <==>
            ((h[n].thread == t && h[n].isYield) || AlwaysEnabled(h, n, t, x)) && On(h[n].enabled, x)
  {
  }

  lemma DisabledByStep(h: seq<Point>, n: nat, t: ThrID, x: ThrID)
    requires n < |h|
    ensures DisabledBy(h, n + 1, t, x) <==>
            !(h[n].thread == t && h[n].isYield) &&
            (DisabledBy(h, n, t, x) ||
             (0 < n && h[n].thread == t && On(h[n - 1].enabled, x) && !On(h[n].enabled, x)))
  {
  }

  lemma RanStep(h: seq<Point>, n: nat, t: ThrID, x: ThrID)
    requires n < |h|
    ensures Ran(h, n + 1, t, x) <==>
            !(h[n].thread == t && h[n].isYield) &&
            (Ran(h, n, t, x) || (h[n].thread == x && t in h[n].enabled))
  {
  }

  /** A thread that is not registered yet has never run. */
  lemma UnregisteredHasNoWindow(h: seq<Point>, m: nat, t: ThrID)
    requires WellFormed(h) && m < |h| && t !in h[m].enabled
    ensures WindowStart(h, m, t) == 0
  {
  }

  lemma {:induction false} WindowEnabledIsHistory(h: seq<Point>, n: nat, t: ThrID, x: ThrID)
    requires WellFormed(h) && n <= |h|
    ensures x in Get(After(h, n).windowEnabled, t) <==> AlwaysEnabled(h, n, t, x)
    decreases n
  {
    if n > 0 {
      WindowEnabledIsHistory(h, n - 1, t, x);
      AlwaysEnabledStep(h, n - 1, t, x);
      AdvanceWindows(After(h, n - 1), h[n - 1], t, x);
      if t !in h[n - 1].enabled {
        UnregisteredHasNoWindow(h, n - 1, t);
      }
    }
  }

  lemma PreviouslyEnabled(h: seq<Point>, n: nat)
    requires 0 < n <= |h|
    ensures After(h, n).previouslyEnabled == EnabledSet(h[n - 1].enabled)
  {
  }

  lemma NoWindowYet(h: seq<Point>, t: ThrID, x: ThrID)
    ensures !DisabledBy(h, 0, t, x) && !Ran(h, 0, t, x)
  {
  }

  lemma {:induction false} WindowDisabledIsHistory(h: seq<Point>, n: nat, t: ThrID, x: ThrID)
    requires WellFormed(h) && n <= |h|
    ensures x in Get(After(h, n).windowDisabled, t) <==> DisabledBy(h, n, t, x)
    decreases n
  {
    hide DisabledBy, Advance;
    if n > 0 {
      WindowDisabledIsHistory(h, n - 1, t, x);
      DisabledByStep(h, n - 1, t, x);
      AdvanceWindows(After(h, n - 1), h[n - 1], t, x);
      if n > 1 {
        PreviouslyEnabled(h, n - 1);
      }
    } else {
      NoWindowYet(h, t, x);
    }
  }

  lemma {:induction false} WindowScheduledIsHistory(h: seq<Point>, n: nat, t: ThrID, x: ThrID)
    requires WellFormed(h) && n <= |h|
    ensures x in Get(After(h, n).windowScheduled, t) <==> Ran(h, n, t, x)
    decreases n
  {
    hide Ran, Advance;
    if n > 0 {
      WindowScheduledIsHistory(h, n - 1, t, x);
      RanStep(h, n - 1, t, x);
      AdvanceWindows(After(h, n - 1), h[n - 1], t, x);
    } else {
      NoWindowYet(h, t, x);
    }
  }

  /** The three window sets the scheduler maintains incrementally are exactly these history predicates. */
  lemma WindowSetsAreHistory(h: seq<Point>, n: nat, t: ThrID, x: ThrID)
    requires WellFormed(h) && n <= |h|
    ensures x in Get(After(h, n).windowEnabled, t) <==> AlwaysEnabled(h, n, t, x)
    ensures x in Get(After(h, n).windowDisabled, t) <==> DisabledBy(h, n, t, x)
    ensures x in Get(After(h, n).windowScheduled, t) <==> Ran(h, n, t, x)
  {
    WindowEnabledIsHistory(h, n, t, x);
    WindowDisabledIsHistory(h, n, t, x);
    WindowScheduledIsHistory(h, n, t, x);
  }

  // ---------------------------------------------------------------- the priority relation is history

  /** By its yield at point `k`, thread `t` puts itself below `u`: since its last yield `u` has not run, and
      was enabled all the time or was disabled by a step of `t`. */
  ghost predicate Neglects(h: seq<Point>, k: nat, t: ThrID, u: ThrID)
    requires k < |h|
  {
    && h[k].thread == t && h[k].isYield && u != t && !Ran(h, k, t, u)
    && (|| (AlwaysEnabled(h, k, t, u) && On(h[k].enabled, u))
        || DisabledBy(h, k, t, u)
        || (0 < k && On(h[k - 1].enabled, u) && !On(h[k].enabled, u)))
  }

  /** The yield at `k` still counts after `n` points: `u` has not run since. */
  ghost predicate PutBelow(h: seq<Point>, n: nat, t: ThrID, u: ThrID, k: nat)
    requires n <= |h|
  {
    k < n && Neglects(h, k, t, u) && forall j :: k < j < n ==> h[j].thread != u
  }

  lemma StarvedIsHistory(h: seq<Point>, k: nat, u: ThrID)
    requires WellFormed(h) && k < |h| && h[k].isYield
    ensures u in Starved(ObservePoint(After(h, k), h[k]), h[k].thread) <==> Neglects(h, k, h[k].thread, u)
  {
    hide AlwaysEnabled, DisabledBy, Ran, After;
    var t, f := h[k].thread, After(h, k);
    WindowSetsAreHistory(h, k, t, u);
    if k > 0 {
      PreviouslyEnabled(h, k);
    } else {
      assert f.previouslyEnabled == {} by { NothingBefore(h); }
    }
    var g := ObservePoint(f, h[k]);
    assert u in Get(g.windowEnabled, t) <==> u in Get(f.windowEnabled, t) && On(h[k].enabled, u);
    assert u in Get(g.windowDisabled, t) <==>
        u in Get(f.windowDisabled, t) || (u in f.previouslyEnabled && !On(h[k].enabled, u));
    assert u in Get(g.windowScheduled, t) <==> u in Get(f.windowScheduled, t) || u == t;
  }

  lemma NothingBefore(h: seq<Point>)
    ensures After(h, 0).previouslyEnabled == {}
  {
  }

  /** `x` is below `u` exactly when some yield of `x` put it there and `u` has not run since. */
  lemma {:induction false} PriorityIsHistory(h: seq<Point>, n: nat, x: ThrID, u: ThrID)
    requires WellFormed(h) && n <= |h|
    ensures Below(After(h, n), x, u) <==> exists k :: PutBelow(h, n, x, u, k)
    decreases n
  {
    if n > 0 {
      var m := n - 1;
      PriorityIsHistory(h, m, x, u);
      EdgeOrigin(After(h, m), h[m], x, u);
      if h[m].isYield {
        StarvedIsHistory(h, m, u);
      }
      hide Advance, ObservePoint, Starved, Neglects, Below;
      PutBelowStep(h, m, x, u);
    } else {
      NobodyBelow(h, x, u);
    }
  }

  lemma NobodyBelow(h: seq<Point>, x: ThrID, u: ThrID)
    ensures !Below(After(h, 0), x, u)
  {
  }

  lemma PutBelowStep(h: seq<Point>, m: nat, x: ThrID, u: ThrID)
    requires m < |h|
    ensures var n := m + 1;
            (exists k :: PutBelow(h, n, x, u, k)) <==>
            || (u != h[m].thread && exists k :: PutBelow(h, m, x, u, k))
            || Neglects(h, m, x, u)
    ensures Neglects(h, m, x, u) ==> h[m].isYield && x == h[m].thread
  {
    var n := m + 1;
    if k: nat :| PutBelow(h, n, x, u, k) {
      if k < m {
        assert PutBelow(h, m, x, u, k);
      }
    }
    if u != h[m].thread && exists k :: PutBelow(h, m, x, u, k) {
      var k :| PutBelow(h, m, x, u, k);
      assert PutBelow(h, n, x, u, k);
    }
    if Neglects(h, m, x, u) {
      assert PutBelow(h, n, x, u, m);
    }
  }

  // ---------------------------------------------------------------- fairness

  /** The thread that reports point `k` was fair-enabled when it was launched at the point before. */
  ghost predicate LaunchedFairly(h: seq<Point>, k: nat)
    requires 0 < k < |h|
  {
    FairEnabled(After(h, k).priority, h[k - 1].enabled, h[k].thread)
  }

  ghost predicate ChessRun(h: seq<Point>) {
    && WellFormed(h)
    && forall k: nat :: 0 < k < |h| ==> LaunchedFairly(h, k)
  }

  /** `u` is enabled at every point of `[from, to)` and does not run there. */
  ghost predicate Starves(h: seq<Point>, u: ThrID, from: nat, to: nat)
    requires to <= |h|
  {
    forall k :: from <= k < to ==> On(h[k].enabled, u) && h[k].thread != u
  }

  /** Two yields of `t` while `u` starves put `t` below `u`. */
  lemma SecondYieldLowers(h: seq<Point>, t: ThrID, u: ThrID, i: nat, j: nat)
    requires WellFormed(h) && i < j < |h| && Starves(h, u, i, j + 1)
    requires h[i].thread == h[j].thread == t && h[i].isYield && h[j].isYield
    ensures Below(After(h, j + 1), t, u)
  {
    var f := After(h, j);
    assert WindowStart(h, j, t) > i;
    WindowSetsAreHistory(h, j, t, u);
    assert AlwaysEnabled(h, j, t, u);
    assert !Ran(h, j, t, u);
    var g := ObservePoint(f, h[j]);
    assert u in Get(g.windowEnabled, t) && u !in Get(g.windowScheduled, t);
    assert u in Starved(g, t);
  }

  /** Priority over `t` lasts as long as `u` does not run. */
  lemma {:induction false} PriorityLasts(h: seq<Point>, t: ThrID, u: ThrID, i: nat, j: nat)
    requires WellFormed(h) && i <= j <= |h| && Starves(h, u, i, j)
    requires Below(After(h, i), t, u)
    ensures Below(After(h, j), t, u)
    decreases j
  {
    if i < j {
      PriorityLasts(h, t, u, i, j - 1);
      assert h[j - 1].thread != u;
    }
  }

  lemma StarvesWithin(h: seq<Point>, u: ThrID, from: nat, to: nat, i: nat, j: nat, k: nat)
    requires to <= |h| && Starves(h, u, from, to) && from <= i < j < k < to
    ensures Starves(h, u, i, j + 1) && Starves(h, u, j + 1, k) && On(h[k - 1].enabled, u)
  {
  }

  /** While `u` stays enabled without running, a thread that yielded twice does not run again. */
  lemma AtMostTwoYields(h: seq<Point>, t: ThrID, u: ThrID, from: nat, to: nat, i: nat, j: nat, k: nat)
    requires ChessRun(h) && to <= |h| && Starves(h, u, from, to)
    requires from <= i < j < k < to
    requires h[i].thread == t && h[i].isYield && h[j].thread == t && h[j].isYield
    ensures h[k].thread != t
  {
    hide After, Starves, WellFormed;
    assert Starves(h, u, i, j + 1) && Starves(h, u, j + 1, k) && On(h[k - 1].enabled, u) by {
      StarvesWithin(h, u, from, to, i, j, k);
    }
    SecondYieldLowers(h, t, u, i, j);
    PriorityLasts(h, t, u, j + 1, k);
    assert LaunchedFairly(h, k);
  }

  // ---------------------------------------------------------------- threads that are disabled in between

  /** `u` does not run at any point of `(from, to]`. */
  ghost predicate Idle(h: seq<Point>, u: ThrID, from: nat, to: nat)
    requires to < |h|
  {
    forall m :: from < m <= to ==> h[m].thread != u
  }

  /** A step of `t` in `(from, to]` disables `u`. */
  ghost predicate Disables(h: seq<Point>, t: ThrID, u: ThrID, from: nat, to: nat, m: nat)
    requires to < |h|
  {
    from < m <= to && h[m].thread == t && On(h[m - 1].enabled, u) && !On(h[m].enabled, u)
  }

  /** The first yield of `t` at or after `m`. */
  lemma {:induction false} FirstYield(h: seq<Point>, t: ThrID, m: nat, j: nat) returns (k: nat)
    requires m <= j < |h| && h[j].thread == t && h[j].isYield
    ensures m <= k <= j && h[k].thread == t && h[k].isYield
    ensures forall i :: m <= i < k ==> !(h[i].thread == t && h[i].isYield)
    decreases j - m
  {
    if h[m].thread == t && h[m].isYield {
      k := m;
    } else {
      k := FirstYield(h, t, m + 1, j);
    }
  }

  lemma WindowFrom(h: seq<Point>, t: ThrID, i: nat, m: nat, k: nat)
    requires i < m <= k < |h| && h[i].thread == t && h[i].isYield
    requires forall l :: m <= l < k ==> !(h[l].thread == t && h[l].isYield)
    ensures i < WindowStart(h, k, t) <= m
  {
    var w := WindowStart(h, k, t);
  }

  /** A thread that `t` disabled between two yields is neglected by the first yield after that. */
  lemma DisabledIsNeglected(h: seq<Point>, t: ThrID, u: ThrID, i: nat, j: nat, m: nat) returns (k: nat)
    requires i < j < |h| && u != t && Idle(h, u, i, j) && Disables(h, t, u, i, j, m)
    requires h[i].thread == t && h[i].isYield && h[j].thread == t && h[j].isYield
    ensures i < k <= j && Neglects(h, k, t, u)
  {
    k := FirstYield(h, t, m, j);
    WindowFrom(h, t, i, m, k);
    assert !Ran(h, k, t, u);
    if m < k {
      assert DisabledBy(h, k, t, u);
    }
  }

  lemma EnabledIsNeglected(h: seq<Point>, t: ThrID, u: ThrID, i: nat, j: nat)
    requires i < j < |h| && u != t && Idle(h, u, i, j) && forall m :: i <= m <= j ==> On(h[m].enabled, u)
    requires h[i].thread == t && h[i].isYield && h[j].thread == t && h[j].isYield
    ensures Neglects(h, j, t, u)
  {
    WindowFrom(h, t, i, j, j);
    assert !Ran(h, j, t, u) && AlwaysEnabled(h, j, t, u);
  }

  /**
   * Between two yields of `t`, `u` was enabled all the time, or `t` itself disabled it. Then, until `u` runs,
   * `t` is not launched again at any point where `u` is enabled, however often `u` is disabled in between.
   */
  lemma NeglectedComesFirst(h: seq<Point>, t: ThrID, u: ThrID, i: nat, j: nat, k: nat)
    requires ChessRun(h) && i < j < k < |h| && u != t && Idle(h, u, i, k - 1)
    requires h[i].thread == t && h[i].isYield && h[j].thread == t && h[j].isYield
    requires (forall m :: i <= m <= j ==> On(h[m].enabled, u)) || exists m :: Disables(h, t, u, i, j, m)
    requires On(h[k - 1].enabled, u)
    ensures h[k].thread != t
  {
    hide Neglects, WellFormed, After;
    var y := j;
    if m :| Disables(h, t, u, i, j, m) {
      y := DisabledIsNeglected(h, t, u, i, j, m);
    } else {
      EnabledIsNeglected(h, t, u, i, j);
    }
    assert PutBelow(h, k, t, u, y);
    PriorityIsHistory(h, k, t, u);
    assert LaunchedFairly(h, k);
  }
}
