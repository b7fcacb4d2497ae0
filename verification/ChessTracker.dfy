/**
 * The chess tracker (src/chessserial/chesstracker.cpp): the fair scheduler chooses on fresh steps, and keeps
 * its books on replayed ones. The thread it launches is the one that reaches the next scheduling point, so
 * the histories it makes are the fair runs of `Fairness`.
 */
module ChessTracker {
  import opened SerializerTypes
  import opened FairScheduling
  import opened Fairness
  import FS = FairScheduler

  /** One more point, reached by a thread that was fair-enabled at the point before. */
  lemma ChessRunExtends(h: seq<Point>, p: Point)
    requires ChessRun(h) && WellFormed(h + [p])
    requires h != [] ==> FairEnabled(After(h, |h|).priority, h[|h| - 1].enabled, p.thread)
    ensures ChessRun(h + [p])
  {
    hide WellFormed, FairEnabled;
    var h' := h + [p];
    forall k: nat | 0 < k < |h'|
      ensures LaunchedFairly(h', k)
    {
      FS.AfterPrefix(h, p, k);
      assert h'[k - 1] == h[k - 1];
      if k < |h| {
        assert h'[k] == h[k] && LaunchedFairly(h, k);
      }
    }
  }

  class ChessTracker {
    const fair: FS.FairScheduler
    /** The thread launched last. */
    var launched: ThrID

    ghost predicate Valid()
      reads this, fair
    {
      && fair.Valid() && ChessRun(fair.history)
      && (fair.history != [] ==>
            FairEnabled(fair.fairPriority, fair.history[|fair.history| - 1].enabled, launched))
    }

    constructor (main: ThrID)
      ensures Valid() && fair.history == [] && launched == main && fresh(fair)
    {
      fair := new FS.FairScheduler();
      launched := main;
    }

    /**
     * The launched thread reaches point `p`. A recorded choice is followed; the assertion that it is
     * fair-enabled is the obligation of whoever recorded it. A deadlock is -1.
     */
    method Schedule(p: Point, recorded: ThrID) returns (next: ThrID)
      requires Valid() && p.thread == launched && p.thread in p.enabled && WellFormed(fair.history + [p])
      requires forall t :: t in p.enabled ==> t >= 0
      requires recorded != INVALID_THREAD ==>
                 FairEnabled(After(fair.history + [p], |fair.history| + 1).priority, p.enabled, recorded)
      modifies this, fair
      ensures fair.Valid() && fair.history == old(fair.history) + [p] && ChessRun(fair.history)
      ensures next == INVALID_THREAD <==> forall t :: !On(p.enabled, t)
      ensures next != INVALID_THREAD ==> Valid() && launched == next
      ensures recorded != INVALID_THREAD ==> next == recorded
    {
      hide WellFormed, FairEnabled;
      ChessRunExtends(fair.history, p);
      var fenmap;
      next, fenmap := fair.NonpreemptiveFairSchedule(p);
      FairEnabledOnly(fair.fairPriority, p.enabled, recorded);
      if recorded != INVALID_THREAD {
        next := recorded;
      }
      if next != INVALID_THREAD {
        assert FairEnabled(fair.fairPriority, p.enabled, next);
        launched := next;
      }
    }
  }

  lemma FairEnabledOnly(priority: Sets, enabled: map<ThrID, bool>, t: ThrID)
    ensures FairEnabled(priority, enabled, t) ==> On(enabled, t)
  {
  }

  /** What the tracker's histories guarantee: while `u` stays enabled without running, no other thread runs
      again after yielding twice. */
  lemma ChessHistoriesAreFair(tracker: ChessTracker, t: ThrID, u: ThrID, from: nat, to: nat, i: nat, j: nat, k: nat)
    requires tracker.Valid() && to <= |tracker.fair.history| && Starves(tracker.fair.history, u, from, to)
    requires from <= i < j < k < to
    requires tracker.fair.history[i].thread == t && tracker.fair.history[i].isYield
    requires tracker.fair.history[j].thread == t && tracker.fair.history[j].isYield
    ensures tracker.fair.history[k].thread != t
  {
    AtMostTwoYields(tracker.fair.history, t, u, from, to, i, j, k);
  }
}
