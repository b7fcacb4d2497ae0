/**
 * Following a relaxed schedule (src/relaxedserial/relaxedtracker.cpp, relaxedlogger.cpp) and what the
 * address tracker does when it runs out (src/addrserial/addrtracker.cpp).
 */
module RelaxedTracker {
  import opened SerializerTypes
  import opened Tracker
  import opened RandomChoice
  import opened Numerals
  import opened FairScheduling
  import FS = FairScheduler

  const UNKNOWN_THREAD: ThrID := -2

  /** `RelaxedSchedStruct`: run this thread until it has passed an address too often, and signal these. */
  datatype Block = Block(current: ThrID, max: int, addr: int, pass: int, signals: seq<ThrID>)

  /** The block stops the search: its thread is enabled, or it names no thread at all. */
  predicate Stops(b: Block, enabled: map<ThrID, bool>) {
    On(enabled, b.current) || b.current == INVALID_THREAD
  }

  /** The first block that stops the search, or the number of blocks. */
  function FirstStop(blocks: seq<Block>, enabled: map<ThrID, bool>): (k: nat)
    ensures k <= |blocks|
    ensures k < |blocks| ==> Stops(blocks[k], enabled)
    ensures forall j :: 0 <= j < k ==> !Stops(blocks[j], enabled)
  {
    if blocks == [] || Stops(blocks[0], enabled) then 0 else
      var k := FirstStop(blocks[1..], enabled);
      assert forall j :: 0 < j < k + 1 ==> blocks[j] == blocks[1..][j - 1];
      k + 1
  }

  /** What the tracker remembers of the schedule it follows. */
  datatype Following = Following(blocks: seq<Block>, signals: seq<ThrID>, nextSignal: nat, current: ThrID,
                                 max: int, times: int, addr: int, pass: int)

  /** The next block becomes the current one; an exhausted schedule names no thread. */
  function Regenerated(f: Following): Following {
    if f.blocks == [] then f.(current := INVALID_THREAD, max := 0, times := 0, addr := 0, pass := 0)
    else Started(f.blocks[0], f.blocks[1..])
  }

  /** A block that has just become current. */
  function Started(b: Block, rest: seq<Block>): Following {
    Following(rest, b.signals, 0, b.current, b.max, 0, b.addr, b.pass)
  }

  /** How often the block's thread may still pass its address, after this point. */
  function PassesLeft(f: Following, retAddr: int): int {
    if retAddr == f.addr then f.pass - 1 else f.pass
  }

  /** The current block goes on: its address has not been passed too often, it is not overdue, and its
      thread is enabled. */
  predicate Stays(f: Following, retAddr: int, enabled: map<ThrID, bool>) {
    PassesLeft(f, retAddr) >= 0 && f.times <= 2 * f.max && On(enabled, f.current)
  }

  /** The schedule is searched until a block stops it. */
  function Found(f: Following, enabled: map<ThrID, bool>): Following
    decreases |f.blocks|
  {
    var g := Regenerated(f);
    if f.blocks == [] || Stops(f.blocks[0], enabled) then g else Found(g, enabled)
  }

  /** The search ends on the first block that stops it, and everything before it is dropped; if there is
      none, the schedule is empty and no thread is named. */
  lemma {:induction false} FoundIs(f: Following, enabled: map<ThrID, bool>)
    ensures var k := FirstStop(f.blocks, enabled);
            && (k < |f.blocks| ==> Found(f, enabled) == Started(f.blocks[k], f.blocks[k + 1..]))
            && (k == |f.blocks| ==> Found(f, enabled).blocks == [] && Found(f, enabled).current == INVALID_THREAD)
    decreases |f.blocks|
  {
    if f.blocks != [] && !Stops(f.blocks[0], enabled) {
      FoundIs(Regenerated(f), enabled);
      var k := FirstStop(f.blocks, enabled);
      if k < |f.blocks| {
        assert f.blocks[1..][k..] == f.blocks[k + 1..];
      }
    }
  }

  lemma FoundForgets(f: Following, pass: int, enabled: map<ThrID, bool>)
    ensures Found(f.(pass := pass), enabled) == Found(f, enabled)
  {
  }

  /** The points the fair scheduler is asked about: this one, unless a block supplies the thread. */
  function Asked(found: Following, p: Point): seq<Point> {
    if found.current != INVALID_THREAD then [] else [p]
  }

  class AddrTracker {
    var relaxedSchedule: seq<Block>
    var threadsToSignal: seq<ThrID>
    var nextSignal: nat
    var current: ThrID
    var timesToSchedule: int
    var timesScheduled: int
    var addrPreempt: int
    var passPreempt: int
    const fair: FS.FairScheduler

    ghost predicate Valid()
      reads this, fair
    {
      fair.Valid() && nextSignal <= |threadsToSignal|
    }

    function View(): Following
      reads this
    {
      Following(relaxedSchedule, threadsToSignal, nextSignal, current, timesToSchedule, timesScheduled,
                addrPreempt, passPreempt)
    }

    constructor (blocks: seq<Block>)
      ensures Valid() && fresh(fair) && fair.history == []
      ensures relaxedSchedule == (if blocks == [] then [] else blocks[1..])
      ensures current == (if blocks == [] then INVALID_THREAD else blocks[0].current)
    {
      fair := new FS.FairScheduler();
      relaxedSchedule, threadsToSignal, nextSignal := blocks, [], 0;
      current, timesToSchedule, timesScheduled, addrPreempt, passPreempt := UNKNOWN_THREAD, 0, 0, 0, 0;
      new;
      RegenerateRelaxedSchedule();
    }

    method RegenerateRelaxedSchedule()
      requires nextSignal <= |threadsToSignal|
      modifies this
      ensures View() == Regenerated(old(View())) && nextSignal <= |threadsToSignal|
    {
      var b := Block(INVALID_THREAD, 0, 0, 0, []);
      if |relaxedSchedule| > 0 {
        b := relaxedSchedule[0];
        relaxedSchedule := relaxedSchedule[1..];
        threadsToSignal, nextSignal := b.signals, 0;
      }
      current, timesToSchedule, addrPreempt, passPreempt := b.current, b.max, b.addr, b.pass;
      timesScheduled := 0;
    }

    method CheckAddressOfContextSwitch(retAddr: int) returns (switch: bool)
      modifies this`passPreempt
      ensures passPreempt == old(passPreempt) - (if retAddr == addrPreempt then 1 else 0)
      ensures switch <==> passPreempt < 0
    {
      if retAddr == addrPreempt {
        passPreempt := passPreempt - 1;
      }
      switch := passPreempt < 0;
    }

    /** Fresh points go to the fair scheduler, which always offers an enabled thread. */
    method NoScheduleToFollow(p: Point, random: int)
      requires Valid() && p.thread in p.enabled && WellFormed(fair.history + [p])
      requires forall t :: t in p.enabled ==> t >= 0
      requires exists t :: On(p.enabled, t)
      modifies this`current, this`timesToSchedule, this`timesScheduled, fair
      ensures Valid() && fair.history == old(fair.history) + [p]
      ensures FairEnabled(fair.fairPriority, p.enabled, current)
      ensures FairChoice(fair.fairPriority, p, random, current)
      ensures timesToSchedule == 1 && timesScheduled == 0
    {
      var fenmap := fair.AdvanceWith(p);
      if fenmap[p.thread] {
        current := p.thread;
      } else {
        SomebodyChosen(fenmap);
        current := ChooseRandomThread(fenmap, random);
      }
      timesToSchedule, timesScheduled := 1, 0;
    }

    /** The tracker now follows what the search found, or else a choice of the fair scheduler. */
    ghost predicate Follows(found: Following, p: Point, random: int, times: int)
      reads this, fair
    {
      if found.current != INVALID_THREAD then View() == found.(times := times)
      else View() == found.(current := current, max := 1, times := times) && FairChoice(fair.fairPriority, p, random, current)
    }

    /**
     * The regenerate loop ends on an enabled thread: that of the first usable block or, when the
     * schedule has run out before, a choice of the fair scheduler.
     */
    method RegenerateUntilEnabled(p: Point, random: int)
      requires Valid() && p.thread in p.enabled && WellFormed(fair.history + [p])
      requires forall t :: t in p.enabled ==> t >= 0
      requires exists t :: On(p.enabled, t)
      modifies this, fair
      ensures Valid() && On(p.enabled, current)
      ensures var found := Found(old(View()), p.enabled);
              Follows(found, p, random, 0) && fair.history == old(fair.history) + Asked(found, p)
    {
      hide FairChoice, WellFormed;
      ghost var found := Found(View(), p.enabled);
      var again := true;
      while again
        invariant Valid()
        invariant again ==> Found(View(), p.enabled) == found && fair.history == old(fair.history)
        invariant !again ==> On(p.enabled, current) && Follows(found, p, random, 0)
        invariant !again ==> fair.history == old(fair.history) + Asked(found, p)
        decreases again, |relaxedSchedule|
      {
        RegenerateRelaxedSchedule();
        if current == INVALID_THREAD {
          NoScheduleToFollow(p, random);
          FairChoiceEnabled(fair.fairPriority, p, random, current);
        }
        again := !On(p.enabled, current);
      }
    }

    /** `timesScheduled` too large for the current block: the thread may be in a livelock. */
    method CheckTimesScheduled() returns (late: bool)
      ensures late <==> timesScheduled > 2 * timesToSchedule
    {
      late := timesScheduled > 2 * timesToSchedule;
    }

    /**
     * The current block goes on, or the search for the next one begins: nothing else decides whom to
     * launch. The launched thread is enabled whenever any thread is.
     */
    method Schedule(p: Point, retAddr: int, random: int) returns (next: ThrID)
      requires Valid() && p.thread in p.enabled && WellFormed(fair.history + [p])
      requires forall t :: t in p.enabled ==> t >= 0
      requires exists t :: On(p.enabled, t)
      modifies this, fair
      ensures Valid() && next == current && On(p.enabled, next)
      ensures var f := if old(current) == UNKNOWN_THREAD then Regenerated(old(View())) else old(View());
              if Stays(f, retAddr, p.enabled) then
                && next == f.current && fair.history == old(fair.history)
                && View() == f.(times := f.times + 1, pass := PassesLeft(f, retAddr))
              else
                var found := Found(f, p.enabled);
                Follows(found, p, random, 1) && fair.history == old(fair.history) + Asked(found, p)
    {
      hide FairChoice, WellFormed, Found;
      if current == UNKNOWN_THREAD {
        RegenerateRelaxedSchedule();
      }
      ghost var f := View();
      var switch := CheckAddressOfContextSwitch(retAddr);
      FoundForgets(f, passPreempt, p.enabled);
      var late := CheckTimesScheduled();
      if switch || late || !On(p.enabled, current) {
        RegenerateUntilEnabled(p, random);
      }
      timesScheduled := timesScheduled + 1;
      next := current;
    }

    /** The signal choices of the current block, then none. */
    method GetNextSignalChoice() returns (next: ThrID)
      requires Valid()
      modifies this`nextSignal
      ensures Valid()
      ensures if old(nextSignal) < |threadsToSignal|
              then next == threadsToSignal[old(nextSignal)] && nextSignal == old(nextSignal) + 1
              else next == INVALID_THREAD && nextSignal == old(nextSignal)
    {
      if nextSignal == |threadsToSignal| {
        return INVALID_THREAD;
      }
      next := threadsToSignal[nextSignal];
      nextSignal := nextSignal + 1;
    }

    /**
     * The requested thread if it waits on the condition, else the first of the block's remaining signals
     * that does; when they are used up, or one names no thread, the waiter that the random number selects.
     */
    method ChooseThreadOnCond(target: ThrID, cond: Cond, onCond: map<ThrID, Option<Cond>>, random: int)
      returns (chosen: ThrID)
      requires Valid() && forall t :: t in onCond ==> t >= 0
      modifies this`nextSignal
      ensures Valid()
      ensures chosen == INVALID_THREAD <==> Queued(onCond, cond) == {}
      ensures chosen != INVALID_THREAD ==> chosen in Queued(onCond, cond)
      ensures target in Queued(onCond, cond) ==> chosen == target && nextSignal == old(nextSignal)
      ensures target !in Queued(onCond, cond) ==>
              var j := NextUseful(threadsToSignal, old(nextSignal), Queued(onCond, cond));
              if j < |threadsToSignal| && threadsToSignal[j] != INVALID_THREAD
              then chosen == threadsToSignal[j] && nextSignal == j + 1
              else
                && nextSignal == (if j < |threadsToSignal| then j + 1 else j)
                && (chosen != INVALID_THREAD ==> SelectedBy(Queued(onCond, cond), random, chosen))
    {
      chosen := target;
      ghost var waiting, start := Queued(onCond, cond), nextSignal;
      if chosen in onCond && onCond[chosen] == Some(cond) {
        assert chosen in waiting;
        return;
      }
      while !(chosen in onCond && onCond[chosen] == Some(cond))
        invariant Valid() && start <= nextSignal && target !in waiting
        invariant chosen in waiting ==>
            start < nextSignal && chosen == threadsToSignal[nextSignal - 1] != INVALID_THREAD
        invariant forall i :: start <= i < nextSignal - 1 ==> threadsToSignal[i] !in waiting && threadsToSignal[i] != INVALID_THREAD
        invariant start < nextSignal && chosen !in waiting ==>
            threadsToSignal[nextSignal - 1] !in waiting && threadsToSignal[nextSignal - 1] != INVALID_THREAD
        decreases |threadsToSignal| - nextSignal, !(chosen in onCond && onCond[chosen] == Some(cond))
      {
        ghost var before := nextSignal;
        chosen := GetNextSignalChoice();
        if chosen == INVALID_THREAD {
          UsefulIs(threadsToSignal, start, before, waiting);
          var candidates := map t | t in onCond :: onCond[t] == Some(cond);
          assert EnabledThreads(candidates) == waiting;
          chosen := ChooseRandomThread(candidates, random);
          if chosen != INVALID_THREAD {
            assert RandomChoice.Below(candidates, chosen) == set t | t in waiting && t < chosen;
          }
          return;
        }
      }
      assert chosen in waiting;
      UsefulIs(threadsToSignal, start, nextSignal - 1, waiting);
    }
  }

  /** The waiter with as many waiters below it as the random number skips. */
  ghost predicate SelectedBy(waiting: set<ThrID>, random: int, t: ThrID) {
    |waiting| > 0 && t in waiting && |set u | u in waiting && u < t| == Skipped(random, |waiting|)
  }

  /** The first signal from `i` on that names a waiter or no thread at all. */
  function NextUseful(signals: seq<ThrID>, i: nat, waiting: set<ThrID>): (j: nat)
    requires i <= |signals|
    ensures i <= j <= |signals|
    decreases |signals| - i
  {
    if i == |signals| || signals[i] in waiting || signals[i] == INVALID_THREAD then i
    else NextUseful(signals, i + 1, waiting)
  }

  lemma {:induction false} UsefulIs(signals: seq<ThrID>, i: nat, j: nat, waiting: set<ThrID>)
    requires i <= j <= |signals|
    requires forall k :: i <= k < j ==> signals[k] !in waiting && signals[k] != INVALID_THREAD
    requires j < |signals| ==> signals[j] in waiting || signals[j] == INVALID_THREAD
    ensures NextUseful(signals, i, waiting) == j
    decreases j - i
  {
    if i < j {
      UsefulIs(signals, i + 1, j, waiting);
    }
  }

  // ---------------------------------------------------------------- how long a block lasts

  /** A scheduling point as the block sees it. */
  datatype Visit = Visit(retAddr: int, enabled: map<ThrID, bool>)

  /** The block goes on at every one of these points. */
  predicate Lasts(f: Following, visits: seq<Visit>)
    decreases |visits|
  {
    visits == [] ||
    (Stays(f, visits[0].retAddr, visits[0].enabled) &&
     Lasts(f.(times := f.times + 1, pass := PassesLeft(f, visits[0].retAddr)), visits[1..]))
  }

  /** How often the address is among the points. */
  function Passes(visits: seq<Visit>, addr: int): nat {
    if visits == [] then 0 else (if visits[0].retAddr == addr then 1 else 0) + Passes(visits[1..], addr)
  }

  /**
   * A block lasts exactly as long as its thread stays enabled, its address is passed at most `pass` times
   * and it has been scheduled at most twice its share: the pass after that, and nothing earlier, switches.
   */
  lemma {:induction false} LastsIff(f: Following, visits: seq<Visit>)
    requires visits != []
    ensures Lasts(f, visits) <==>
            && Passes(visits, f.addr) <= f.pass
            && f.times + |visits| - 1 <= 2 * f.max
            && forall i :: 0 <= i < |visits| ==> On(visits[i].enabled, f.current)
    decreases |visits|
  {
    var v, rest := visits[0], visits[1..];
    var g := f.(times := f.times + 1, pass := PassesLeft(f, v.retAddr));
    if rest == [] {
      assert Passes(rest, f.addr) == 0;
    } else {
      LastsIff(g, rest);
      assert forall i :: 0 < i < |visits| ==> visits[i] == rest[i - 1];
      assert forall i :: 0 <= i < |rest| ==> rest[i] == visits[i + 1];
    }
  }

  /** The caller if it is fair-enabled, else the fair-enabled thread that the random number selects. */
  ghost predicate FairChoice(priority: Sets, p: Point, random: int, t: ThrID) {
    && FairEnabled(priority, p.enabled, t)
    && if FairEnabled(priority, p.enabled, p.thread) then t == p.thread
       else
         var fenmap := FairEnabledMap(priority, p.enabled);
         |EnabledThreads(fenmap)| > 0 && |RandomChoice.Below(fenmap, t)| == Skipped(random, |EnabledThreads(fenmap)|)
  }

  lemma FairChoiceEnabled(priority: Sets, p: Point, random: int, t: ThrID)
    requires FairChoice(priority, p, random, t)
    ensures On(p.enabled, t)
  {
  }

  lemma SomebodyChosen(m: map<ThrID, bool>)
    requires exists t :: t in m && m[t]
    ensures EnabledThreads(m) != {}
  {
    var t :| t in m && m[t];
    assert t in EnabledThreads(m);
  }

  // ---------------------------------------------------------------- a block that names no thread

  /** The fair scheduler takes over if and only if a block that names no thread comes before every usable
      one; in particular if none is usable. */
  lemma HandsOverIff(blocks: seq<Block>, enabled: map<ThrID, bool>)
    requires INVALID_THREAD !in enabled
    ensures var k := FirstStop(blocks, enabled);
            (k == |blocks| || blocks[k].current == INVALID_THREAD) <==>
            forall j :: 0 <= j < |blocks| && On(enabled, blocks[j].current) ==>
              exists i :: 0 <= i < j && blocks[i].current == INVALID_THREAD
  {
    var k := FirstStop(blocks, enabled);
    if k == |blocks| {
      assert forall j :: 0 <= j < |blocks| ==> !Stops(blocks[j], enabled);
    } else if blocks[k].current == INVALID_THREAD {
      forall j | 0 <= j < |blocks| && On(enabled, blocks[j].current)
        ensures exists i :: 0 <= i < j && blocks[i].current == INVALID_THREAD
      {
        assert Stops(blocks[j], enabled);
        assert k < j;
      }
    } else {
      assert forall i :: 0 <= i < k ==> !Stops(blocks[i], enabled);
    }
  }

  /** A schedule file with a line `-1:1` in front of a usable block: `atoi` yields the block that names no
      thread, and the fair scheduler is asked although the schedule has not run out. */
  method EarlyHandover(random: int) returns (tracker: AddrTracker)
    ensures var usable := Block(0, 1, 0, 0, []); tracker.relaxedSchedule == [usable] && tracker.current == 0
    ensures tracker.fair.history == [Point(0, map[0 := true], false)]
  {
    var named := Atoi("-1");
    var blocks := [Block(0, 1, 0, 0, []), Block(named, 1, 0, 0, []), Block(0, 1, 0, 0, [])];
    MinusOne();
    tracker := new AddrTracker(blocks);
    var p := Point(0, map[0 := true], false);
    assert On(p.enabled, 0);
    assert FirstStop(tracker.relaxedSchedule, p.enabled) == 0;
    tracker.RegenerateUntilEnabled(p, random);
  }

  lemma MinusOne()
    ensures Atoi("-1") == INVALID_THREAD
  {
    assert SkipSpace("-1") == "-1";
    assert "-1"[1..] == "1" && "1"[1..] == "";
    assert ReadDigits(1, "", 10) == 1 && ReadDigits(0, "1", 10) == 1;
  }
}
