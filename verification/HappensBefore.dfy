/**
 * Vector clocks characterise happens-before.
 *
 * A run is a sequence of events. Happens-before is generated by program order, thread creation,
 * joins, and the edge from the last signal on a condition to a wait on it. It is related to the
 * clocks in two stages: first to causal histories (sets of event indices passed along the same
 * channels as the clocks), then from histories to clocks.
 */
module HappensBefore {
  import opened SerializerTypes
  import opened VectorClocks

  // ---------------------------------------------------------------- runs

  /** `t` exists once the first `n` events have happened. */
  ghost predicate Alive(main: ThrID, run: seq<Event>, n: nat, t: ThrID)
    requires n <= |run|
  {
    t == main || exists i :: 0 <= i < n && run[i].Create? && run[i].child == t
  }

  ghost predicate Joined(run: seq<Event>, n: nat, t: ThrID)
    requires n <= |run|
  {
    exists i :: 0 <= i < n && run[i].Join? && run[i].joined == t
  }

  /** What POSIX demands of event `n`: its thread exists and was not joined, a created thread is new,
      a joined thread exists and is another one. */
  ghost predicate Allowed(main: ThrID, run: seq<Event>, n: nat)
    requires n < |run|
  {
    var e := run[n];
    && Alive(main, run, n, e.thread)
    && !Joined(run, n, e.thread)
    && (e.Create? ==> !Alive(main, run, n, e.child))
    && (e.Join? ==> Alive(main, run, n, e.joined) && e.joined != e.thread)
  }

  ghost predicate WellFormed(main: ThrID, run: seq<Event>) {
    main == MAIN_THREAD && forall n: nat :: n < |run| ==> Allowed(main, run, n)
  }

  /** The tracker's maps after the first `n` events. */
  ghost function After(run: seq<Event>, n: nat): Clocks
    requires n <= |run|
  {
    if n == 0 then Initial else Step(After(run, n - 1), run[n - 1])
  }

  /** The clock an event carries: a send carries the clock it sends, a receive the clock it ends with. */
  ghost function EventClock(run: seq<Event>, i: nat): Clock
    requires i < |run|
  {
    var e := run[i];
    After(run, if e.Join? || e.Wait? then i + 1 else i).Of(e.thread)
  }

  // ---------------------------------------------------------------- happens-before

  /** Event `i` is the last signal on `c` among the first `n` events. */
  ghost predicate LastSignal(run: seq<Event>, i: nat, n: nat, c: Cond)
    requires n <= |run|
  {
    && i < n && run[i].Signal? && run[i].cond == c
    && forall k :: i < k < n ==> !(run[k].Signal? && run[k].cond == c)
  }

  /** Event `k` belongs to thread `t` or creates it. */
  ghost predicate Feeds(run: seq<Event>, k: nat, t: ThrID)
    requires k < |run|
  {
    run[k].thread == t || (run[k].Create? && run[k].child == t)
  }

  /** Program order, creation, join and last-signal-to-wait. */
  ghost predicate Edge(run: seq<Event>, i: nat, j: nat)
    requires j < |run|
  {
    && i < j
    && (|| Feeds(run, i, run[j].thread)
        || (run[j].Join? && Feeds(run, i, run[j].joined))
        || (run[j].Wait? && LastSignal(run, i, j, run[j].cond)))
  }

  /** Transitive closure of the edges. */
  ghost predicate HappensBefore(run: seq<Event>, i: nat, j: nat)
    requires j < |run|
    decreases j, 0
  {
    exists k: nat :: k < j && Edge(run, k, j) && UpTo(run, i, k)
  }

  ghost predicate UpTo(run: seq<Event>, i: nat, k: nat)
    requires k < |run|
    decreases k, 1
  {
    i == k || HappensBefore(run, i, k)
  }

  // ---------------------------------------------------------------- causal histories

  datatype Histories = Histories(threads: map<ThrID, set<nat>>, messages: map<Cond, set<nat>>) {
    function Of(t: ThrID): set<nat> {
      if t in threads then threads[t] else {}
    }
    function Message(c: Cond): set<nat> {
      if c in messages then messages[c] else {}
    }
  }

  ghost function StepHistory(h: Histories, e: Event, n: nat): Histories {
    var mine := h.Of(e.thread) + {n};
    match e
    case Access(t) => h.(threads := h.threads[t := mine])
    case Create(t, child) => h.(threads := h.threads[t := mine][child := mine])
    case Join(t, u) => h.(threads := h.threads[t := mine + h.Of(u)])
    case Signal(t, c) => Histories(h.threads[t := mine], h.messages[c := mine])
    case Wait(t, c) => h.(threads := h.threads[t := mine + h.Message(c)])
  }

  ghost function History(run: seq<Event>, n: nat): Histories
    requires n <= |run|
  {
    if n == 0 then Histories(map[], map[]) else StepHistory(History(run, n - 1), run[n - 1], n - 1)
  }

  /** Some event that feeds `t` is `i` or comes after it. */
  ghost predicate Reaches(run: seq<Event>, n: nat, i: nat, t: ThrID)
    requires n <= |run|
  {
    exists k: nat :: k < n && Feeds(run, k, t) && UpTo(run, i, k)
  }

  ghost predicate ReachesSignal(run: seq<Event>, n: nat, i: nat, c: Cond)
    requires n <= |run|
  {
    exists k: nat :: k < n && LastSignal(run, k, n, c) && UpTo(run, i, k)
  }

  /** The incoming edges of event `n`, read off what reaches its thread and its channel. */
  lemma IncomingEdges(run: seq<Event>, n: nat, i: nat)
    requires n < |run|
    ensures HappensBefore(run, i, n) <==>
            || Reaches(run, n, i, run[n].thread)
            || (run[n].Join? && Reaches(run, n, i, run[n].joined))
            || (run[n].Wait? && ReachesSignal(run, n, i, run[n].cond))
  {
    if Reaches(run, n, i, run[n].thread) {
      var k: nat :| k < n && Feeds(run, k, run[n].thread) && UpTo(run, i, k);
      assert Edge(run, k, n);
    }
    if run[n].Join? && Reaches(run, n, i, run[n].joined) {
      var k: nat :| k < n && Feeds(run, k, run[n].joined) && UpTo(run, i, k);
      assert Edge(run, k, n);
    }
    if run[n].Wait? && ReachesSignal(run, n, i, run[n].cond) {
      var k: nat :| k < n && LastSignal(run, k, n, run[n].cond) && UpTo(run, i, k);
      assert Edge(run, k, n);
    }
    if HappensBefore(run, i, n) {
      var k: nat :| k < n && Edge(run, k, n) && UpTo(run, i, k);
      assert Feeds(run, k, run[n].thread) ==> Reaches(run, n, i, run[n].thread);
    }
  }

  lemma ReachesStep(run: seq<Event>, n: nat, i: nat, t: ThrID)
    requires n < |run|
    ensures Reaches(run, n + 1, i, t) <==>
            Reaches(run, n, i, t) || (Feeds(run, n, t) && UpTo(run, i, n))
  {
  }

  lemma ReachesSignalStep(run: seq<Event>, n: nat, i: nat, c: Cond)
    requires n < |run|
    ensures ReachesSignal(run, n + 1, i, c) <==>
            if run[n].Signal? && run[n].cond == c then UpTo(run, i, n)
            else ReachesSignal(run, n, i, c)
  {
    if run[n].Signal? && run[n].cond == c {
      assert LastSignal(run, n, n + 1, c);
    } else {
      assert forall k: nat :: k < n ==> LastSignal(run, k, n + 1, c) == LastSignal(run, k, n, c);
      if ReachesSignal(run, n, i, c) {
        var k: nat :| k < n && LastSignal(run, k, n, c) && UpTo(run, i, k);
        assert LastSignal(run, k, n + 1, c);
      }
    }
  }

  lemma NotAliveUnreached(main: ThrID, run: seq<Event>, n: nat, i: nat, t: ThrID)
    requires WellFormed(main, run) && n <= |run| && !Alive(main, run, n, t)
    ensures !Reaches(run, n, i, t)
  {
    forall k: nat | k < n
      ensures !Feeds(run, k, t)
    {
      assert Allowed(main, run, k);
    }
  }

  lemma HistoryStep(h: Histories, e: Event, n: nat, i: nat, t: ThrID)
    requires e.Create? && e.child == t ==> i !in h.Of(t)
    ensures i in StepHistory(h, e, n).Of(t) <==>
            || i in h.Of(t)
            || ((e.thread == t || (e.Create? && e.child == t)) &&
                (|| i == n || i in h.Of(e.thread)
                 || (e.Join? && i in h.Of(e.joined)) || (e.Wait? && i in h.Message(e.cond))))
  {
  }

  /** Causal histories are exactly the events that happen before. */
  lemma {:induction false} HistoryIsReachability(
      main: ThrID, run: seq<Event>, n: nat, i: nat, t: ThrID, c: Cond)
    requires WellFormed(main, run) && n <= |run|
    ensures i in History(run, n).Of(t) <==> Reaches(run, n, i, t)
    ensures i in History(run, n).Message(c) <==> ReachesSignal(run, n, i, c)
    decreases n
  {
    hide HappensBefore, Edge, Alive, Joined;
    if n > 0 {
      var e := run[n - 1];
      HistoryIsReachability(main, run, n - 1, i, t, c);
      HistoryIsReachability(main, run, n - 1, i, e.thread, if e.Wait? then e.cond else c);
      if e.Join? {
        HistoryIsReachability(main, run, n - 1, i, e.joined, c);
      }
      if e.Create? && e.child == t {
        assert Allowed(main, run, n - 1);
        NotAliveUnreached(main, run, n - 1, i, t);
      }
      IncomingEdges(run, n - 1, i);
      HistoryStep(History(run, n - 1), e, n - 1, i, t);
      ReachesStep(run, n - 1, i, t);
      ReachesSignalStep(run, n - 1, i, c);
    }
  }

  // ---------------------------------------------------------------- clocks follow histories

  ghost predicate NonNegative(v: Clock) {
    forall t :: t in v ==> v[t] >= 0
  }

  /** What a clock may know of thread `a`: never more than `a`'s own count, and less until `a` is joined. */
  ghost predicate Bounded(main: ThrID, run: seq<Event>, n: nat, v: Clock, a: ThrID)
    requires n <= |run|
  {
    if Alive(main, run, n, a) then
      At(v, a) <= At(After(run, n).Of(a), a) &&
      (!Joined(run, n, a) ==> At(v, a) < At(After(run, n).Of(a), a))
    else At(v, a) == 0
  }

  ghost predicate ThreadKnowledge(main: ThrID, run: seq<Event>, n: nat, b: ThrID)
    requires n <= |run|
  {
    && NonNegative(After(run, n).Of(b))
    && forall a :: a != b ==> Bounded(main, run, n, After(run, n).Of(b), a)
  }

  ghost predicate MessageKnowledge(main: ThrID, run: seq<Event>, n: nat, c: Cond)
    requires n <= |run|
  {
    && NonNegative(After(run, n).Message(c))
    && (c in After(run, n).messages ==> forall a :: Bounded(main, run, n, After(run, n).Message(c), a))
  }

  ghost predicate Knowledge(main: ThrID, run: seq<Event>, n: nat)
    requires n <= |run|
  {
    && (forall b :: Alive(main, run, n, b) ==> ThreadKnowledge(main, run, n, b))
    && (forall c :: MessageKnowledge(main, run, n, c))
  }

  lemma AliveStep(main: ThrID, run: seq<Event>, n: nat, t: ThrID)
    requires n < |run|
    ensures Alive(main, run, n + 1, t) <==>
            Alive(main, run, n, t) || (run[n].Create? && run[n].child == t)
    ensures Joined(run, n + 1, t) <==> Joined(run, n, t) || (run[n].Join? && run[n].joined == t)
  {
  }

  /** A bound survives a step of another thread, and a step of `a` only raises it. */
  lemma BoundedStep(main: ThrID, run: seq<Event>, n: nat, v: Clock, a: ThrID)
    requires WellFormed(main, run) && n < |run| && Knowledge(main, run, n)
    requires Bounded(main, run, n, v, a)
    ensures Bounded(main, run, n + 1, v, a)
  {
    assert Allowed(main, run, n);
    AliveStep(main, run, n, a);
    var e := run[n];
    assert ThreadKnowledge(main, run, n, e.thread);
    if e.Create? && e.child == a {
      assert Bounded(main, run, n, After(run, n).Of(e.thread), a);
    }
    if e.Wait? {
      assert MessageKnowledge(main, run, n, e.cond);
    }
    if e.Join? {
      assert ThreadKnowledge(main, run, n, e.joined);
    }
  }

  lemma MergeBounded(main: ThrID, run: seq<Event>, n: nat, v: Clock, w: Clock, a: ThrID)
    requires n <= |run| && Bounded(main, run, n, v, a) && Bounded(main, run, n, w, a)
    ensures Bounded(main, run, n, Merge(v, w), a)
  {
  }

  /** The receiving thread of a join or a wait. */
  lemma ReceiverBounded(main: ThrID, run: seq<Event>, n: nat, a: ThrID)
    requires WellFormed(main, run) && n < |run| && Knowledge(main, run, n)
    requires (run[n].Join? || run[n].Wait?) && a != run[n].thread
    ensures Bounded(main, run, n + 1, After(run, n + 1).Of(run[n].thread), a)
  {
    var e, s := run[n], After(run, n);
    var t := e.thread;
    assert Allowed(main, run, n);
    assert ThreadKnowledge(main, run, n, t);
    assert Bounded(main, run, n, s.Of(t), a);
    if e.Join? {
      AliveStep(main, run, n, a);
      assert ThreadKnowledge(main, run, n, e.joined);
      if a != e.joined {
        MergeBounded(main, run, n, s.Of(t), s.Of(e.joined), a);
        BoundedStep(main, run, n, Merge(s.Of(t), s.Of(e.joined)), a);
      }
    } else {
      assert MessageKnowledge(main, run, n, e.cond);
      if e.cond in s.messages {
        MergeBounded(main, run, n, s.Of(t), s.Message(e.cond), a);
        BoundedStep(main, run, n, Merge(s.Of(t), s.Message(e.cond)), a);
      } else {
        assert Merge(s.Of(t), s.Message(e.cond)) == s.Of(t);
        BoundedStep(main, run, n, s.Of(t), a);
      }
    }
  }

  lemma ThreadKnowledgeStep(main: ThrID, run: seq<Event>, n: nat, b: ThrID)
    requires WellFormed(main, run) && n < |run| && Knowledge(main, run, n)
    requires Alive(main, run, n + 1, b)
    ensures ThreadKnowledge(main, run, n + 1, b)
  {
    var e, s, m := run[n], After(run, n), n + 1;
    var t := e.thread;
    assert Allowed(main, run, n);
    AliveStep(main, run, n, b);
    assert ThreadKnowledge(main, run, n, t);
    assert e.Join? ==> ThreadKnowledge(main, run, n, e.joined);
    assert e.Wait? ==> MessageKnowledge(main, run, n, e.cond);
    forall a | a != b
      ensures Bounded(main, run, m, After(run, m).Of(b), a)
    {
      if b == t && (e.Join? || e.Wait?) {
        ReceiverBounded(main, run, n, a);
      } else if e.Create? && e.child == b {
        AliveStep(main, run, n, a);
        if a != t {
          BoundedStep(main, run, n, s.Of(t), a);
        }
      } else {
        BoundedStep(main, run, n, s.Of(b), a);
      }
    }
  }

  lemma MessageKnowledgeStep(main: ThrID, run: seq<Event>, n: nat, c: Cond)
    requires WellFormed(main, run) && n < |run| && Knowledge(main, run, n)
    ensures MessageKnowledge(main, run, n + 1, c)
  {
    var e, s := run[n], After(run, n);
    assert Allowed(main, run, n);
    assert ThreadKnowledge(main, run, n, e.thread);
    assert MessageKnowledge(main, run, n, c);
    if c in After(run, n + 1).messages {
      var m := n + 1;
      forall a
        ensures Bounded(main, run, m, After(run, m).Message(c), a)
      {
        AliveStep(main, run, n, a);
        if e.Signal? && e.cond == c {
          if a != e.thread {
            BoundedStep(main, run, n, s.Of(e.thread), a);
          }
        } else {
          BoundedStep(main, run, n, s.Message(c), a);
        }
      }
    }
  }

  lemma {:induction false} KnowledgeHolds(main: ThrID, run: seq<Event>, n: nat)
    requires WellFormed(main, run) && n <= |run|
    ensures Knowledge(main, run, n)
    decreases n
  {
    if n > 0 {
      KnowledgeHolds(main, run, n - 1);
      forall b | Alive(main, run, n, b)
        ensures ThreadKnowledge(main, run, n, b)
      {
        ThreadKnowledgeStep(main, run, n - 1, b);
      }
      forall c
        ensures MessageKnowledge(main, run, n, c)
      {
        MessageKnowledgeStep(main, run, n - 1, c);
      }
    }
  }

  /** Clock `v` stands for a history that contains (`known`) or lacks an event of `a` with clock `ev`. */
  ghost predicate Tracks(ev: Clock, a: ThrID, known: bool, v: Clock) {
    if known then Leq(ev, v) else At(ev, a) > At(v, a)
  }

  lemma TracksMerge(ev: Clock, a: ThrID, k1: bool, v1: Clock, k2: bool, v2: Clock)
    requires NonNegative(v1) && NonNegative(v2)
    requires Tracks(ev, a, k1, v1) && Tracks(ev, a, k2, v2)
    ensures Tracks(ev, a, k1 || k2, Merge(v1, v2))
  {
  }

  lemma TracksIncrement(ev: Clock, a: ThrID, known: bool, v: Clock, t: ThrID)
    requires Tracks(ev, a, known, v) && (a == t ==> known)
    ensures Tracks(ev, a, known, Increment(v, t))
  {
  }

  /** Event `i` as every thread and every message sees it after `n` events. */
  ghost predicate Seen(main: ThrID, run: seq<Event>, n: nat, i: nat)
    requires i < n <= |run|
  {
    var ev, a := EventClock(run, i), run[i].thread;
    && (forall b :: Alive(main, run, n, b) ==>
          Tracks(ev, a, i in History(run, n).Of(b), After(run, n).Of(b)))
    && (forall c :: c in After(run, n).messages ==>
          Tracks(ev, a, i in History(run, n).Message(c), After(run, n).Message(c)))
  }

  lemma OwnHistory(main: ThrID, run: seq<Event>, n: nat, i: nat)
    requires WellFormed(main, run) && i < n <= |run|
    ensures i in History(run, n).Of(run[i].thread)
  {
    HistoryIsReachability(main, run, n, i, run[i].thread, 0);
    assert Feeds(run, i, run[i].thread) && UpTo(run, i, i);
  }

  lemma {:induction false} SameChannels(run: seq<Event>, n: nat)
    requires n <= |run|
    ensures After(run, n).messages.Keys == History(run, n).messages.Keys
    decreases n
  {
    if n > 0 {
      SameChannels(run, n - 1);
    }
  }

  /** Events already seen stay tracked by a thread that receives. */
  lemma SeenByReceiverStep(main: ThrID, run: seq<Event>, n: nat, i: nat)
    requires WellFormed(main, run) && i < n < |run| && Knowledge(main, run, n) && Seen(main, run, n, i)
    requires run[n].Join? || run[n].Wait?
    ensures Tracks(EventClock(run, i), run[i].thread,
                   i in History(run, n + 1).Of(run[n].thread), After(run, n + 1).Of(run[n].thread))
  {
    var e, s, h := run[n], After(run, n), History(run, n);
    var t, ev, a := e.thread, EventClock(run, i), run[i].thread;
    assert Allowed(main, run, n);
    assert ThreadKnowledge(main, run, n, t);
    if e.Join? {
      assert ThreadKnowledge(main, run, n, e.joined);
      TracksMerge(ev, a, i in h.Of(t), s.Of(t), i in h.Of(e.joined), s.Of(e.joined));
    } else if e.cond in s.messages {
      assert MessageKnowledge(main, run, n, e.cond);
      TracksMerge(ev, a, i in h.Of(t), s.Of(t), i in h.Message(e.cond), s.Message(e.cond));
    } else {
      SameChannels(run, n);
      assert Merge(s.Of(t), s.Message(e.cond)) == s.Of(t);
    }
  }

  /** Events already seen stay tracked by every thread. */
  lemma SeenByThreadStep(main: ThrID, run: seq<Event>, n: nat, i: nat, b: ThrID)
    requires WellFormed(main, run) && i < n < |run| && Knowledge(main, run, n) && Seen(main, run, n, i)
    requires Alive(main, run, n + 1, b)
    ensures Tracks(EventClock(run, i), run[i].thread,
                   i in History(run, n + 1).Of(b), After(run, n + 1).Of(b))
  {
    var e := run[n];
    AliveStep(main, run, n, b);
    if b == e.thread && (e.Join? || e.Wait?) {
      SeenByReceiverStep(main, run, n, i);
    } else if b == e.thread || (e.Create? && e.child == b) {
      assert Allowed(main, run, n) && Allowed(main, run, i);
      OwnHistory(main, run, n, i);
      TracksIncrement(EventClock(run, i), run[i].thread, i in History(run, n).Of(e.thread),
                      After(run, n).Of(e.thread), b);
    }
  }

  /** The newest event is known to its own thread (and to the thread it creates) and to nobody else. */
  lemma NewEventSeen(main: ThrID, run: seq<Event>, n: nat, b: ThrID)
    requires WellFormed(main, run) && n < |run| && Knowledge(main, run, n)
    requires Alive(main, run, n + 1, b)
    ensures Tracks(EventClock(run, n), run[n].thread,
                   n in History(run, n + 1).Of(b), After(run, n + 1).Of(b))
  {
    var e := run[n];
    AliveStep(main, run, n, b);
    if b == e.thread || (e.Create? && e.child == b) {
      assert n in History(run, n + 1).Of(b);
      assert Allowed(main, run, n);
    } else {
      NewEventUnseen(main, run, n, b);
    }
  }

  lemma Untouched(run: seq<Event>, n: nat, b: ThrID)
    requires n < |run| && b != run[n].thread && !(run[n].Create? && run[n].child == b)
    ensures History(run, n + 1).Of(b) == History(run, n).Of(b)
    ensures After(run, n + 1).Of(b) == After(run, n).Of(b)
  {
  }

  lemma NewEventUnseen(main: ThrID, run: seq<Event>, n: nat, b: ThrID)
    requires WellFormed(main, run) && n < |run| && Knowledge(main, run, n) && Alive(main, run, n, b)
    requires b != run[n].thread && !(run[n].Create? && run[n].child == b)
    ensures Tracks(EventClock(run, n), run[n].thread,
                   n in History(run, n + 1).Of(b), After(run, n + 1).Of(b))
  {
    hide Alive, Joined, History;
    HistoryWithin(run, n, b, 0);
    Untouched(run, n, b);
    assert Allowed(main, run, n) && ThreadKnowledge(main, run, n, b);
    assert Bounded(main, run, n, After(run, n).Of(b), run[n].thread);
  }

  lemma {:induction false} HistoryWithin(run: seq<Event>, n: nat, t: ThrID, c: Cond)
    requires n <= |run|
    ensures n !in History(run, n).Of(t) && n !in History(run, n).Message(c)
  {
    HistoryBelow(run, n, n, t, c);
  }

  lemma {:induction false} HistoryBelow(run: seq<Event>, n: nat, i: nat, t: ThrID, c: Cond)
    requires n <= |run| && n <= i
    ensures i !in History(run, n).Of(t) && i !in History(run, n).Message(c)
    decreases n
  {
    if n > 0 {
      var e := run[n - 1];
      HistoryBelow(run, n - 1, i, t, c);
      HistoryBelow(run, n - 1, i, e.thread, if e.Wait? then e.cond else c);
      if e.Join? {
        HistoryBelow(run, n - 1, i, e.joined, c);
      }
    }
  }

  lemma MessageSeenStep(main: ThrID, run: seq<Event>, n: nat, i: nat, c: Cond)
    requires WellFormed(main, run) && i <= n < |run| && Knowledge(main, run, n)
    requires i < n ==> Seen(main, run, n, i)
    requires c in After(run, n + 1).messages
    ensures Tracks(EventClock(run, i), run[i].thread,
                   i in History(run, n + 1).Message(c), After(run, n + 1).Message(c))
  {
    var e := run[n];
    assert Allowed(main, run, n);
    HistoryWithin(run, n, e.thread, c);
    assert MessageKnowledge(main, run, n, c);
    if i == n && !(e.Signal? && e.cond == c) {
      assert Bounded(main, run, n, After(run, n).Message(c), e.thread);
      assert ThreadKnowledge(main, run, n, e.thread);
    }
  }

  lemma {:induction false} AllSeen(main: ThrID, run: seq<Event>, n: nat, i: nat)
    requires WellFormed(main, run) && i < n <= |run|
    ensures Seen(main, run, n, i)
    decreases n
  {
    KnowledgeHolds(main, run, n - 1);
    if i < n - 1 {
      AllSeen(main, run, n - 1, i);
    }
    forall b | Alive(main, run, n, b)
      ensures Tracks(EventClock(run, i), run[i].thread, i in History(run, n).Of(b), After(run, n).Of(b))
    {
      if i < n - 1 {
        SeenByThreadStep(main, run, n - 1, i, b);
      } else {
        NewEventSeen(main, run, n - 1, b);
      }
    }
    forall c | c in After(run, n).messages
      ensures Tracks(EventClock(run, i), run[i].thread, i in History(run, n).Message(c), After(run, n).Message(c))
    {
      MessageSeenStep(main, run, n - 1, i, c);
    }
  }

  lemma {:induction false} HappensBeforeIsForward(run: seq<Event>, i: nat, j: nat)
    requires j < |run| && HappensBefore(run, i, j)
    ensures i < j
    decreases j
  {
    var k: nat :| k < j && Edge(run, k, j) && UpTo(run, i, k);
    if i != k {
      HappensBeforeIsForward(run, i, k);
    }
  }

  /** An event is never ordered, by its clock, before an earlier event of another thread. */
  lemma ClockOfLaterEvent(main: ThrID, run: seq<Event>, i: nat, j: nat)
    requires WellFormed(main, run) && j < i < |run| && run[i].thread != run[j].thread
    ensures !Leq(EventClock(run, i), EventClock(run, j))
  {
    var a, b := run[i].thread, run[j].thread;
    KnowledgeHolds(main, run, i);
    AllSeen(main, run, i, j);
    OwnHistory(main, run, i, j);
    assert Allowed(main, run, i) && Allowed(main, run, j);
    assert ThreadKnowledge(main, run, i, b);
    assert Bounded(main, run, i, After(run, i).Of(b), a);
    assert Leq(EventClock(run, j), After(run, i).Of(b));
    assert At(EventClock(run, j), a) < At(After(run, i).Of(a), a);
    assert At(After(run, i).Of(a), a) <= At(EventClock(run, i), a);
  }

  /**
   * `isHappensBefore` on the clocks of two events of different threads decides happens-before.
   */
  lemma ClocksCharacteriseHappensBefore(main: ThrID, run: seq<Event>, i: nat, j: nat)
    requires WellFormed(main, run) && i < |run| && j < |run|
    requires run[i].thread != run[j].thread
    ensures Leq(EventClock(run, i), EventClock(run, j)) <==> HappensBefore(run, i, j)
  {
    if j < i {
      ClockOfLaterEvent(main, run, i, j);
      if HappensBefore(run, i, j) {
        HappensBeforeIsForward(run, i, j);
      }
    } else {
      var t := run[j].thread;
      assert Allowed(main, run, j);
      AliveStep(main, run, j, t);
      IncomingEdges(run, j, i);
      var n := if run[j].Join? || run[j].Wait? then j + 1 else j;
      HistoryIsReachability(main, run, n, i, t, 0);
      ReachesStep(run, j, i, t);
      AllSeen(main, run, n, i);
      KnowledgeHolds(main, run, n);
      assert ThreadKnowledge(main, run, n, t);
      assert Tracks(EventClock(run, i), run[i].thread, i in History(run, n).Of(t), After(run, n).Of(t));
    }
  }
}
