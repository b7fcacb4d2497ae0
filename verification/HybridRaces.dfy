/**
 * The hybrid race detector (src/racer/hybridtrack.cpp, hybridtypes.h, locktrack.cpp): memory accesses are
 * kept with their vector clock and lock set, and compared pairwise at the end.
 */
module HybridRaces {
  import opened SerializerTypes
  import opened VectorClocks
  import HB = HappensBefore

  datatype RaceEvent = RaceEvent(iid: int, thread: ThrID, addr: int, isRead: bool, vc: Clock, ls: set<Mutex>)

  /** An unordered pair of statements, the smaller one on the left. */
  datatype Record = Record(left: int, right: int)

  function MakeRecord(a: int, b: int): (r: Record)
    ensures r == Record(a, b) || r == Record(b, a)
    ensures r.left <= r.right
  {
    if a < b then Record(a, b) else Record(b, a)
  }

  /** `operator==`: either way round. */
  predicate SameRecord(r: Record, s: Record) {
    (r.left == s.left && r.right == s.right) || (r.left == s.right && r.right == s.left)
  }

  /** Two conflicting accesses that nothing orders and no common lock protects. */
  ghost predicate Racing(e: RaceEvent, f: RaceEvent) {
    && e.thread != f.thread && e.addr == f.addr && !(e.isRead && f.isRead)
    && !Leq(e.vc, f.vc) && !Leq(f.vc, e.vc)
    && e.ls !! f.ls
  }

  /** The event was observed as access `i` of the run. */
  ghost predicate ObservedAt(run: seq<Event>, i: nat, e: RaceEvent) {
    i < |run| && run[i] == Access(e.thread) && e.vc == HB.EventClock(run, i)
  }

  /** Racing accesses are exactly the conflicting, unprotected ones that happen concurrently. */
  lemma RacingIffConcurrent(main: ThrID, run: seq<Event>, i: nat, j: nat, e: RaceEvent, f: RaceEvent)
    requires HB.WellFormed(main, run) && ObservedAt(run, i, e) && ObservedAt(run, j, f)
    ensures Racing(e, f) <==>
            && e.thread != f.thread && e.addr == f.addr && !(e.isRead && f.isRead) && e.ls !! f.ls
            && !HB.HappensBefore(run, i, j) && !HB.HappensBefore(run, j, i)
  {
    if e.thread != f.thread {
      HB.ClocksCharacteriseHappensBefore(main, run, i, j);
      HB.ClocksCharacteriseHappensBefore(main, run, j, i);
    }
  }

  // ---------------------------------------------------------------- what is to be reported

  /** The races of one event with the events of its address. */
  ghost function RacesOf(e: RaceEvent, events: seq<RaceEvent>): set<Record> {
    set j | 0 <= j < |events| && Racing(e, events[j]) :: MakeRecord(e.iid, events[j].iid)
  }

  ghost function RacesAmong(some: seq<RaceEvent>, events: seq<RaceEvent>): set<Record> {
    set i, j | 0 <= i < |some| && 0 <= j < |events| && Racing(some[i], events[j]) ::
      MakeRecord(some[i].iid, events[j].iid)
  }

  type Events = map<int, seq<RaceEvent>>

  ghost function AllRaces(m: Events, addrs: set<int>): set<Record> {
    set a, r | a in addrs && a in m && r in RacesAmong(m[a], m[a]) :: r
  }

  ghost predicate Once(found: seq<Record>) {
    forall i, j :: 0 <= i < j < |found| ==> !SameRecord(found[i], found[j])
  }

  ghost predicate Normal(found: seq<Record>) {
    forall i :: 0 <= i < |found| ==> found[i].left <= found[i].right
  }

  /** The list reports exactly this set, each unordered pair once. */
  ghost predicate Reports(found: seq<Record>, races: set<Record>) {
    Once(found) && Normal(found) && (forall r :: r in found <==> r in races)
  }

  /** `checkRace`'s inner loop: a record that equals none in the list is appended. */
  method AddRecord(found: seq<Record>, r: Record) returns (found': seq<Record>)
    requires Once(found) && Normal(found) && r.left <= r.right
    ensures found' == found || found' == found + [r]
    ensures Once(found') && Normal(found') && forall x :: x in found' <==> x in found || x == r
  {
    var addRace := true;
    for k := 0 to |found|
      invariant addRace <==> forall i :: 0 <= i < k ==> !SameRecord(found[i], r)
    {
      if SameRecord(found[k], r) {
        addRace := false;
      }
    }
    if addRace {
      found' := found + [r];
    } else {
      found' := found;
      var i :| 0 <= i < |found| && SameRecord(found[i], r);
      assert found[i] == r;
    }
  }

  method IsIntersectionEmpty(a: set<Mutex>, b: set<Mutex>) returns (empty: bool)
    ensures empty <==> a !! b
  {
    var todo := a;
    while todo != {}
      invariant todo <= a && (a - todo) !! b
      decreases todo
    {
      HasElement(todo);
      var l :| l in todo;
      if l in b {
        assert l in a;
        return false;
      }
      todo := todo - {l};
    }
    assert a - {} == a;
    return true;
  }

  class HybridRaceTracker {
    const vsTracker: VectorClockTracker
    const wrProfileSize: nat
    const rdProfileSize: nat
    var eventset: Events
    var foundraces: seq<Record>
    var lockmap: map<ThrID, set<Mutex>>
    /** Every event added so far, by address. */
    ghost var observed: Events

    constructor (wrProfileSize: nat, rdProfileSize: nat)
      ensures Valid() && foundraces == [] && eventset == map[] && observed == map[] && fresh(vsTracker)
      ensures this.rdProfileSize == rdProfileSize && this.wrProfileSize == wrProfileSize
    {
      vsTracker := new VectorClockTracker();
      this.wrProfileSize, this.rdProfileSize := wrProfileSize, rdProfileSize;
      eventset, foundraces, lockmap, observed := map[], [], map[], map[];
    }

    static function Of(m: Events, addr: int): seq<RaceEvent> {
      if addr in m then m[addr] else []
    }

    /** What is kept of an address is the first `rdProfileSize` of its events, reads and writes alike. */
    ghost predicate Valid()
      reads this
    {
      && (forall a :: a in eventset ==> forall i :: 0 <= i < |eventset[a]| ==> eventset[a][i].addr == a)
      && (forall a :: Retained(Of(observed, a), Of(eventset, a), rdProfileSize))
      && Once(foundraces) && Normal(foundraces)
    }

    method AddEvent(e: RaceEvent)
      requires Valid()
      modifies this`eventset, this`observed
      ensures Valid() && observed == old(observed)[e.addr := Of(old(observed), e.addr) + [e]]
    {
      hide Once, Normal, Retained;
      var eset := Of(eventset, e.addr);
      if e.isRead {
        if |eset| < rdProfileSize {
          eset := eset + [e];
        }
      } else {
        if |eset| < rdProfileSize {
          eset := eset + [e];
        }
      }
      RetainedNext(Of(observed, e.addr), Of(eventset, e.addr), rdProfileSize, e);
      eventset := eventset[e.addr := eset];
      observed := observed[e.addr := Of(observed, e.addr) + [e]];
      assert forall a :: a != e.addr ==> Of(eventset, a) == old(Of(eventset, a)) && Of(observed, a) == old(Of(observed, a));
    }

    static function Held(m: map<ThrID, set<Mutex>>, t: ThrID): set<Mutex> {
      if t in m then m[t] else {}
    }

    method LockBefore(thread: ThrID, lock: Mutex)
      modifies this`lockmap
      ensures forall t :: Held(lockmap, t) == Held(old(lockmap), t) + if t == thread then {lock} else {}
    {
      lockmap := lockmap[thread := Held(lockmap, thread) + {lock}];
    }

    /** Releasing a lock that is not held changes nothing. */
    method UnlockAfter(thread: ThrID, lock: Mutex)
      modifies this`lockmap
      ensures forall t :: Held(lockmap, t) == Held(old(lockmap), t) - if t == thread then {lock} else {}
    {
      if lock in Held(lockmap, thread) {
        lockmap := lockmap[thread := Held(lockmap, thread) - {lock}];
      }
    }

    method IsRacing(e: RaceEvent, f: RaceEvent) returns (b: bool)
      ensures b <==> Racing(e, f)
    {
      if e.thread == f.thread || e.addr != f.addr || (e.isRead && f.isRead) {
        return false;
      }
      var before := vsTracker.IsHappensBefore(e.vc, f.vc);
      if before {
        return false;
      }
      before := vsTracker.IsHappensBefore(f.vc, e.vc);
      if before {
        return false;
      }
      b := IsIntersectionEmpty(e.ls, f.ls);
    }

    method CheckRace(e: RaceEvent)
      requires Once(foundraces) && Normal(foundraces)
      modifies this`foundraces
      ensures Once(foundraces) && Normal(foundraces)
      ensures forall r :: r in foundraces <==> r in old(foundraces) || r in RacesOf(e, Of(eventset, e.addr))
    {
      hide Racing;
      var events := Of(eventset, e.addr);
      var found := foundraces;
      for k := 0 to |events|
        invariant Once(found) && Normal(found)
        invariant forall r :: r in found <==> r in old(foundraces) || r in RacesOf(e, events[..k])
        invariant foundraces == old(foundraces)
      {
        var racing := IsRacing(e, events[k]);
        RacesOfNext(e, events, k);
        if racing {
          found := AddRecord(found, MakeRecord(e.iid, events[k].iid));
        }
      }
      assert events[..|events|] == events;
      foundraces := found;
    }

    /** The races of the events of one address. */
    method CheckAddress(addr: int)
      requires Valid() && addr in eventset
      modifies this`foundraces
      ensures Valid()
      ensures forall r :: r in foundraces <==>
                r in old(foundraces) || r in RacesAmong(eventset[addr], eventset[addr])
    {
      hide Racing, Retained;
      var events := eventset[addr];
      RacesAmongNone(events);
      for k := 0 to |events|
        invariant Valid()
        invariant forall r :: r in foundraces <==> r in old(foundraces) || r in RacesAmong(events[..k], events)
      {
        RacesAmongNext(events, events, k);
        CheckRace(events[k]);
      }
      assert events[..|events|] == events;
    }

    /**
     * `outputRaces`: each unordered pair of statements is listed once, and it is listed exactly when two
     * retained events of one address race.
     */
    method OutputRaces()
      requires Valid() && foundraces == []
      modifies this`foundraces
      ensures Valid() && Reports(foundraces, AllRaces(eventset, eventset.Keys))
    {
      hide Racing, Retained, RacesAmong;
      var todo := eventset.Keys;
      while todo != {}
        invariant todo <= eventset.Keys && Valid()
        invariant forall r :: r in foundraces <==> r in AllRaces(eventset, eventset.Keys - todo)
        decreases todo
      {
        HasElement(todo);
        var a :| a in todo;
        AllRacesNext(eventset, eventset.Keys - todo, a);
        assert eventset.Keys - (todo - {a}) == eventset.Keys - todo + {a};
        CheckAddress(a);
        todo := todo - {a};
      }
      assert eventset.Keys - {} == eventset.Keys;
    }
  }

  /** `kept` is the longest prefix of `all` with at most `limit` events. */
  ghost predicate Retained(all: seq<RaceEvent>, kept: seq<RaceEvent>, limit: nat) {
    kept == Kept(all, limit)
  }

  lemma RetainedNext(all: seq<RaceEvent>, kept: seq<RaceEvent>, limit: nat, e: RaceEvent)
    requires Retained(all, kept, limit)
    ensures Retained(all + [e], if |kept| < limit then kept + [e] else kept, limit)
  {
  }

  // ---------------------------------------------------------------- the limit for writes

  /** What the two limits ask for: each kind of event is kept while fewer than its own limit are. */
  function Intended(events: seq<RaceEvent>, rd: nat, wr: nat): (kept: seq<RaceEvent>)
    ensures |kept| <= |events|
  {
    if events == [] then []
    else
      var last := events[|events| - 1];
      var kept := Intended(events[..|events| - 1], rd, wr);
      if |kept| < (if last.isRead then rd else wr) then kept + [last] else kept
  }

  /** What the code keeps: both kinds are tested against the limit for reads. */
  function Kept(events: seq<RaceEvent>, rd: nat): seq<RaceEvent> {
    events[..if |events| < rd then |events| else rd]
  }

  /** No write comes at a place where the two limits differ: from the limit for writes up to that for
      reads, or anywhere behind the limit for reads if that is the smaller one. */
  ghost predicate WritesComeEarly(events: seq<RaceEvent>, rd: nat, wr: nat) {
    rd != wr ==>
      forall i :: 0 <= i < |events| && (if wr < rd then wr <= i < rd else rd <= i) ==> events[i].isRead
  }

  /** The code keeps what its limits ask for if and only if no write comes too late. */
  lemma {:induction false} KeptAsIntendedIff(events: seq<RaceEvent>, rd: nat, wr: nat)
    ensures Kept(events, rd) == Intended(events, rd, wr) <==> WritesComeEarly(events, rd, wr)
    ensures !WritesComeEarly(events, rd, wr) ==> Diverged(events, rd, wr)
    decreases |events|
  {
    if events != [] {
      var n := |events| - 1;
      var front, last := events[..n], events[n];
      KeptAsIntendedIff(front, rd, wr);
      KeptNext(front, last, rd);
      assert events == front + [last];
      assert WritesComeEarly(events, rd, wr) <==> WritesComeEarly(front, rd, wr) && WritesComeEarlyAt(n, last, rd, wr)
        by { WritesNext(front, last, rd, wr); }
      if !WritesComeEarly(front, rd, wr) {
        DivergedNext(front, last, rd, wr);
      } else if !WritesComeEarlyAt(n, last, rd, wr) {
        assert wr < rd ==> TooLate(Kept(events, rd), Intended(events, rd, wr), wr, n);
      }
      if Diverged(events, rd, wr) {
        DivergedDiffer(events, rd, wr);
      }
    }
  }

  ghost predicate WritesComeEarlyAt(i: nat, e: RaceEvent, rd: nat, wr: nat) {
    rd != wr && (if wr < rd then wr <= i < rd else rd <= i) ==> e.isRead
  }

  lemma WritesNext(front: seq<RaceEvent>, last: RaceEvent, rd: nat, wr: nat)
    ensures WritesComeEarly(front + [last], rd, wr) <==>
            WritesComeEarly(front, rd, wr) && WritesComeEarlyAt(|front|, last, rd, wr)
  {
    var events := front + [last];
    assert events[|front|] == last;
    assert forall i :: 0 <= i < |front| ==> events[i] == front[i];
  }

  lemma KeptNext(front: seq<RaceEvent>, last: RaceEvent, rd: nat)
    ensures Kept(front + [last], rd) == Kept(front, rd) + if |front| < rd then [last] else []
  {
  }

  /** At place `i` the code has a write that the limit for writes forbids. */
  ghost predicate TooLate(kept: seq<RaceEvent>, intended: seq<RaceEvent>, wr: nat, i: nat) {
    wr <= i < |kept| && !kept[i].isRead && (i < |intended| ==> intended[i].isRead)
  }

  /** The lists differ for good: one is longer, or has a write where the other has none. */
  ghost predicate Diverged(events: seq<RaceEvent>, rd: nat, wr: nat) {
    var kept, intended := Kept(events, rd), Intended(events, rd, wr);
    if wr > rd then |intended| > |kept| else exists i :: TooLate(kept, intended, wr, i)
  }

  lemma DivergedDiffer(events: seq<RaceEvent>, rd: nat, wr: nat)
    requires Diverged(events, rd, wr)
    ensures Kept(events, rd) != Intended(events, rd, wr)
  {
  }

  lemma DivergedNext(front: seq<RaceEvent>, last: RaceEvent, rd: nat, wr: nat)
    requires Diverged(front, rd, wr)
    ensures Diverged(front + [last], rd, wr)
  {
    var events := front + [last];
    assert events[..|front|] == front && events[|front|] == last;
    KeptNext(front, last, rd);
    if wr <= rd {
      var i :| TooLate(Kept(front, rd), Intended(front, rd, wr), wr, i);
      assert TooLate(Kept(events, rd), Intended(events, rd, wr), wr, i);
    }
  }

  /** One write more than the smaller limit. */
  function Writes(n: nat): (es: seq<RaceEvent>)
    ensures |es| == n
  {
    seq(n, i => RaceEvent(i, 0, 0, false, map[], {}))
  }

  /** The limits are kept for every list of events if and only if they are equal. */
  lemma KeptAsIntendedAlwaysIff(rd: nat, wr: nat)
    ensures (forall events :: Kept(events, rd) == Intended(events, rd, wr)) <==> rd == wr
    ensures rd != wr ==> var late := Writes(1 + if rd < wr then rd else wr); Kept(late, rd) != Intended(late, rd, wr)
  {
    if rd == wr {
      forall events
        ensures Kept(events, rd) == Intended(events, rd, wr)
      {
        KeptAsIntendedIff(events, rd, wr);
      }
    } else {
      var least := if rd < wr then rd else wr;
      var late := Writes(1 + least);
      assert !late[least].isRead;
      KeptAsIntendedIff(late, rd, wr);
    }
  }

  lemma RacesOfNext(e: RaceEvent, events: seq<RaceEvent>, k: nat)
    requires k < |events|
    ensures RacesOf(e, events[..k + 1]) ==
            RacesOf(e, events[..k]) + if Racing(e, events[k]) then {MakeRecord(e.iid, events[k].iid)} else {}
  {
    hide Racing;
    var less, more := events[..k], events[..k + 1];
    forall r
      ensures r in RacesOf(e, more) <==> r in RacesOf(e, less) || (Racing(e, events[k]) && r == MakeRecord(e.iid, events[k].iid))
    {
      if r in RacesOf(e, more) {
        var j :| 0 <= j < |more| && Racing(e, more[j]) && r == MakeRecord(e.iid, more[j].iid);
        assert j < k ==> less[j] == more[j];
      }
      if r in RacesOf(e, less) {
        var j :| 0 <= j < |less| && Racing(e, less[j]) && r == MakeRecord(e.iid, less[j].iid);
        assert less[j] == more[j];
      }
      if Racing(e, events[k]) {
        assert more[k] == events[k];
      }
    }
  }

  lemma RacesAmongNone(events: seq<RaceEvent>)
    ensures RacesAmong(events[..0], events) == {}
  {
  }

  lemma RacesAmongNext(some: seq<RaceEvent>, events: seq<RaceEvent>, k: nat)
    requires k < |some|
    ensures RacesAmong(some[..k + 1], events) == RacesAmong(some[..k], events) + RacesOf(some[k], events)
  {
    hide Racing;
    var less, more := some[..k], some[..k + 1];
    forall r
      ensures r in RacesAmong(more, events) <==> r in RacesAmong(less, events) || r in RacesOf(some[k], events)
    {
      if r in RacesAmong(more, events) {
        var i, j :| 0 <= i < |more| && 0 <= j < |events| && Racing(more[i], events[j])
                    && r == MakeRecord(more[i].iid, events[j].iid);
        assert i < k ==> less[i] == more[i];
      }
      if r in RacesAmong(less, events) {
        var i, j :| 0 <= i < |less| && 0 <= j < |events| && Racing(less[i], events[j])
                    && r == MakeRecord(less[i].iid, events[j].iid);
        assert more[i] == less[i];
      }
      assert more[k] == some[k];
    }
  }

  lemma AllRacesNext(m: Events, addrs: set<int>, a: int)
    requires a in m
    ensures AllRaces(m, addrs + {a}) == AllRaces(m, addrs) + RacesAmong(m[a], m[a])
  {
    hide RacesAmong;
  }

  /** Reporting is symmetric: the order of two events does not matter. */
  lemma RacingSymmetric(e: RaceEvent, f: RaceEvent)
    ensures Racing(e, f) <==> Racing(f, e)
    ensures MakeRecord(e.iid, f.iid) == MakeRecord(f.iid, e.iid)
  {
  }
}
