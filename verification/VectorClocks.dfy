/** The vector-clock tracker of the hybrid race detector (src/racer/vctrack.cpp). */
module VectorClocks {
  import opened SerializerTypes

  type Clock = map<ThrID, int>

  /** `clock[t]` of a C++ map: a missing entry reads as zero. */
  function At(v: Clock, t: ThrID): int {
    if t in v then v[t] else 0
  }

  function Max(a: int, b: int): int {
    if a > b then a else b
  }

  function Increment(v: Clock, t: ThrID): Clock {
    v[t := At(v, t) + 1]
  }

  /** Pointwise maximum on the common entries, union of the others. */
  function Merge(v: Clock, msg: Clock): Clock {
    map t | t in v.Keys + msg.Keys ::
      if t in v && t in msg then Max(v[t], msg[t])
      else if t in v then v[t] else msg[t]
  }

  ghost predicate Leq(before: Clock, after: Clock) {
    forall t :: t in before ==> before[t] <= At(after, t)
  }

  /** The tracker's two maps; a thread or condition that was never stored reads as the empty clock. */
  datatype Clocks = Clocks(vcs: map<ThrID, Clock>, messages: map<Cond, Clock>) {
    function Of(t: ThrID): Clock {
      if t in vcs then vcs[t] else map[]
    }
    function Message(c: Cond): Clock {
      if c in messages then messages[c] else map[]
    }
  }

  /** The main thread's number; its own clock starts at one. */
  const MAIN_THREAD: ThrID := 0

  const Initial := Clocks(map[MAIN_THREAD := map[MAIN_THREAD := 1]], map[])

  datatype Event =
    | Access(thread: ThrID)
    | Create(thread: ThrID, child: ThrID)
    | Join(thread: ThrID, joined: ThrID)
    | Signal(thread: ThrID, cond: Cond)
    | Wait(thread: ThrID, cond: Cond)

  function Step(s: Clocks, e: Event): Clocks {
    match e
    case Access(t) => s
    case Create(t, child) =>
      var vcs := s.vcs[child := s.Of(t)];
      var s1 := s.(vcs := vcs);
      var s2 := s1.(vcs := s1.vcs[t := Increment(s1.Of(t), t)]);
      s2.(vcs := s2.vcs[child := Increment(s2.Of(child), child)])
    case Join(t, u) => s.(vcs := s.vcs[t := Merge(s.Of(t), s.Of(u))])
    case Signal(t, c) =>
      Clocks(s.vcs[t := Increment(s.Of(t), t)], s.messages[c := s.Of(t)])
    case Wait(t, c) => s.(vcs := s.vcs[t := Merge(s.Of(t), s.Message(c))])
  }

  class VectorClockTracker {
    var vcs: map<ThrID, Clock>
    var messagemap: map<Cond, Clock>

    function View(): Clocks
      reads this
    {
      Clocks(vcs, messagemap)
    }

    constructor ()
      ensures View() == Initial
    {
      vcs, messagemap := map[MAIN_THREAD := map[MAIN_THREAD := 1]], map[];
    }

    method IncrementMyClock(id: ThrID)
      modifies this
      ensures View() == old(View()).(vcs := old(vcs)[id := Increment(old(View()).Of(id), id)])
    {
      var myclock := View().Of(id);
      var currentClock := At(myclock, id);
      currentClock := currentClock + 1;
      myclock := myclock[id := currentClock];
      vcs := vcs[id := myclock];
    }

    method ReceiveMessage(thr: ThrID, msg: Clock)
      modifies this
      ensures View() == old(View()).(vcs := old(vcs)[thr := Merge(old(View()).Of(thr), msg)])
    {
      var newvc := MergeInto(View().Of(thr), msg);
      vcs := vcs[thr := newvc];
    }

    /** The loop of `receiveMessage` over the entries of the message. */
    static method MergeInto(mine: Clock, msg: Clock) returns (newvc: Clock)
      ensures newvc == Merge(mine, msg)
    {
      newvc := mine;
      var todo := msg.Keys;
      while todo != {}
        invariant todo <= msg.Keys
        invariant newvc.Keys == mine.Keys + (msg.Keys - todo)
        invariant forall t :: t in newvc && t !in todo ==> newvc[t] == Merge(mine, msg)[t]
        invariant forall t :: t in newvc && t in todo ==> t in mine && newvc[t] == mine[t]
        decreases todo
      {
        HasElement(todo);
        var t :| t in todo;
        newvc := newvc[t := if t in newvc then Max(newvc[t], msg[t]) else msg[t]];
        todo := todo - {t};
      }
      assert forall t :: t in newvc ==> newvc[t] == Merge(mine, msg)[t];
      assert newvc.Keys == Merge(mine, msg).Keys;
    }

    method GetVectorClock(thr: ThrID) returns (v: Clock)
      ensures v == View().Of(thr)
    {
      v := View().Of(thr);
    }

    method IsHappensBefore(before: Clock, after: Clock) returns (b: bool)
      ensures b <==> Leq(before, after)
    {
      var todo := before.Keys;
      while todo != {}
        invariant todo <= before.Keys
        invariant forall t :: t in before.Keys - todo ==> before[t] <= At(after, t)
        decreases todo
      {
        HasElement(todo);
        var t :| t in todo;
        if before[t] > At(after, t) {
          return false;
        }
        todo := todo - {t};
      }
      return true;
    }

    method AfterJoin(me: ThrID, joined: ThrID)
      modifies this
      ensures View() == Step(old(View()), Join(me, joined))
    {
      ReceiveMessage(me, View().Of(joined));
    }

    method BeforeSignal(me: ThrID, cond: Cond)
      modifies this
      ensures View() == Step(old(View()), Signal(me, cond))
    {
      var newvc := View().Of(me);
      messagemap := messagemap[cond := newvc];
      IncrementMyClock(me);
    }

    method AfterWait(me: ThrID, cond: Cond)
      modifies this
      ensures View() == Step(old(View()), Wait(me, cond))
    {
      ReceiveMessage(me, View().Message(cond));
    }

    method BeforeCreate(me: ThrID, child: ThrID)
      modifies this
      ensures View() == Step(old(View()), Create(me, child))
    {
      var mine := View().Of(me);
      vcs := vcs[child := mine];
      IncrementMyClock(me);
      IncrementMyClock(child);
    }
  }
}
