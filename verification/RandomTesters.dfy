/**
 * The random active testers as the program runs them (src/randact/randomactive.cpp, randomlock.cpp,
 * randomdata.cpp): which threads they hold back and release, and whom they schedule. Every method is
 * proved to take steps of the protocol in `Serializer`, so `ActiveTesting` applies to its runs.
 */
module RandomTesters {
  import opened SerializerTypes
  import opened Posix
  import opened Tracker
  import opened Serializer
  import opened SerializerFrames
  import opened SerializerTheorems
  import opened ActiveTesting
  import opened RandomChoice

  datatype RaceInfo = RaceInfo(me: ThrID, addr: int, isWrite: bool)

  /** Accesses of one thread are never compared. */
  predicate RacesWith(a: RaceInfo, b: RaceInfo)
    requires a.me != b.me
  {
    a.addr == b.addr && (a.isWrite || b.isWrite)
  }

  /** The paused threads that are at the same address, where one of the two accesses is a write. */
  function Racers(paused: map<ThrID, bool>, info: map<ThrID, RaceInfo>, access: RaceInfo): set<ThrID> {
    set t | t in paused && paused[t] && t in info && info[t].addr == access.addr && (info[t].isWrite || access.isWrite)
  }

  /** The two testers differ in what a paused thread stands at. */
  datatype Kind = LockTester | DataTester

  predicate StandsAt(kind: Kind, l: Loc, addr: int) {
    if kind.DataTester? then l.Ready? else (l.Locking? || l.TryLocking? || l.Relocking?) && l.mutex == addr
  }

  class RandomActiveTester {
    const kind: Kind
    const target1: int
    const target2: int
    const os: Os
    ghost const base: Sys
    var enabled: map<ThrID, bool>
    var lockReady: map<ThrID, Option<Mutex>>
    var lockWait: map<ThrID, Option<Mutex>>
    var paused: map<ThrID, bool>
    var info: map<ThrID, RaceInfo>
    var raceFound: bool
    ghost var demoted: set<ThrID>

    /** A scheduling point of a tester: the rest of the tracker does not change until a thread is chosen. */
    constructor (kind: Kind, s: Sys, en: map<ThrID, bool>, ready: map<ThrID, Option<Mutex>>,
                 wait: map<ThrID, Option<Mutex>>, os: Os, pausedMap: map<ThrID, bool>,
                 infos: map<ThrID, RaceInfo>, target1: int, target2: int)
      requires Invariant(s) && (s.mode.Choosing? || s.mode.Selecting?)
      requires en == s.tr.enabled && ready == s.tr.lockReady && wait == s.tr.lockWait && os == s.os
      requires EnabledThreads(pausedMap) == s.paused && forall t :: t in pausedMap ==> t >= 0
      requires forall t :: t in s.paused ==>
          t in infos && t in os.loc && infos[t].me == t && StandsAt(kind, os.loc[t], infos[t].addr)
      ensures Valid() && State() == s && this.kind == kind && this.target1 == target1 && this.target2 == target2
    {
      hide Invariant;
      this.kind, this.target1, this.target2, this.os, base := kind, target1, target2, os, s;
      enabled, lockReady, lockWait, paused, info := en, ready, wait, pausedMap, infos;
      raceFound, demoted := false, s.demoted;
      new;
      assert State().tr == s.tr;
    }

    ghost function State(): Sys
      reads this
    {
      base.(tr := base.tr.(enabled := enabled, lockReady := lockReady, lockWait := lockWait),
            paused := EnabledThreads(paused), demoted := demoted)
    }

    ghost predicate Valid()
      reads this
    {
      && Invariant(State()) && os == base.os && (base.mode.Choosing? || base.mode.Selecting?)
      && InfoOk()
    }

    ghost predicate InfoOk()
      reads this
    {
      && (forall t :: t in paused ==> t >= 0)
      && (forall t :: t in EnabledThreads(paused) ==>
            t in info && t in os.loc && info[t].me == t && StandsAt(kind, os.loc[t], info[t].addr))
    }

    /** Exactly the protocol's release step for this thread was taken. */
    twostate predicate Released(thr: ThrID)
      reads this
    {
      Shape(old(State())) && thr in old(State()).paused && State() == Unpaused(old(State()), thr)
    }

    /** `reenableThreadIfLegal`: a thread at a lock is queued on it again, one at a memory access runs on. */
    method ReenableThreadIfLegal(thr: ThrID) returns (ok: bool)
      requires Valid() && thr in EnabledThreads(paused)
      modifies this`enabled, this`lockReady, this`lockWait, this`paused, this`demoted
      ensures Valid() && Released(thr)
      ensures thr in enabled && ok == enabled[thr]
      ensures EnabledThreads(paused) == old(EnabledThreads(paused)) - {thr}
    {
      hide Invariant, DetermineLock;
      InvariantShape(State());
      StepKeeps(State(), Reenable(thr));
      ghost var s := State();
      assert EnabledThreads(paused[thr := false]) == EnabledThreads(paused) - {thr};
      paused := paused[thr := false];
      if kind.DataTester? {
        enabled := enabled[thr := true];
      } else {
        DetermineLockStatus(thr, info[thr].addr);
        if os.loc[thr].TryLocking? {
          demoted := demoted + {thr};
        }
      }
      ok := enabled[thr];
    }

    method DetermineLockStatus(myself: ThrID, lock: Mutex)
      modifies this`enabled, this`lockReady, this`lockWait
      ensures State() == old(State()).(tr := DetermineLock(old(State()).tr, Free(os, lock), myself, lock))
      ensures myself in enabled
    {
      if !Free(os, lock) {
        enabled := enabled[myself := false];
        lockWait := lockWait[myself := Some(lock)];
      } else {
        enabled := enabled[myself := true];
        lockReady := lockReady[myself := Some(lock)];
      }
    }

    /** `handleAfterMutexUnlock`: an unlock must not enable a paused thread. */
    method HandleAfterMutexUnlock()
      requires EnabledThreads(paused) <= enabled.Keys
      modifies this`enabled
      ensures enabled == SetAll(old(enabled), EnabledThreads(paused), false)
    {
      var todo := paused.Keys;
      while todo != {}
        invariant todo <= paused.Keys && enabled.Keys == old(enabled).Keys
        invariant forall t :: t in enabled ==>
            enabled[t] == if t !in todo && t in paused && paused[t] then false else old(enabled)[t]
        decreases todo
      {
        HasElement(todo);
        var t :| t in todo;
        todo := todo - {t};
        if paused[t] {
          assert t in EnabledThreads(paused);
          enabled := enabled[t := false];
        }
      }
      ghost var held := SetAll(old(enabled), EnabledThreads(paused), false);
      assert forall t :: t in enabled ==> enabled[t] == held[t];
    }

    /** The paused threads whose access races with this one, each once. */
    method IsRacing(potential: RaceInfo) returns (racers: seq<ThrID>)
      requires InfoOk() && potential.me !in EnabledThreads(paused)
      ensures forall i :: 0 <= i < |racers| ==> racers[i] in Racers(paused, info, potential)
      ensures forall t :: t in Racers(paused, info, potential) ==> t in racers
      ensures forall i, j :: 0 <= i < j < |racers| ==> racers[i] != racers[j]
    {
      racers := [];
      var todo := paused.Keys;
      while todo != {}
        invariant todo <= paused.Keys
        invariant forall i :: 0 <= i < |racers| ==> racers[i] in Racers(paused, info, potential) && racers[i] !in todo
        invariant forall t :: t in Racers(paused, info, potential) && t !in todo ==> t in racers
        invariant forall i, j :: 0 <= i < j < |racers| ==> racers[i] != racers[j]
        decreases todo
      {
        HasElement(todo);
        var t :| t in todo;
        todo := todo - {t};
        if paused[t] {
          assert t in EnabledThreads(paused);
          if RacesWith(info[t], potential) {
            assert t !in racers;
            racers := racers + [t];
          }
        }
      }
    }

    /** `enableSpecificActiveTestingPaused`: exactly these threads are released. */
    method EnableSpecific(targets: seq<ThrID>)
      requires Valid() && forall i :: 0 <= i < |targets| ==> targets[i] in EnabledThreads(paused)
      requires forall i, j :: 0 <= i < j < |targets| ==> targets[i] != targets[j]
      modifies this`enabled, this`lockReady, this`lockWait, this`paused, this`demoted
      ensures Valid() && SameProgram(old(State()), State())
      ensures EnabledThreads(paused) == old(EnabledThreads(paused)) - set t | t in targets
    {
      hide Invariant, EnabledThreads, Unpaused;
      assert targets[..0] == [];
      for i := 0 to |targets|
        invariant Valid() && SameProgram(old(State()), State())
        invariant EnabledThreads(paused) == old(EnabledThreads(paused)) - set t | t in targets[..i]
      {
        assert targets[i] !in targets[..i];
        SameProgramAfter(State(), targets[i]);
        var ok := ReenableThreadIfLegal(targets[i]);
        assert targets[..i + 1] == targets[..i] + [targets[i]];
      }
      assert targets[..|targets|] == targets;
    }

    /**
     * A thread arrives at a target: either paused threads race with it, and they are released, or it is
     * paused itself.
     */
    method HandleTarget(myself: ThrID, addr: int, isWrite: bool)
      requires Valid() && myself in os.loc && StandsAt(kind, os.loc[myself], addr)
      requires myself !in EnabledThreads(paused) && myself !in demoted
      modifies this
      ensures Valid() && SameProgram(old(State()), State())
      ensures Handled(myself, addr, isWrite)
    {
      hide Invariant;
      var access := RaceInfo(myself, addr, isWrite);
      var racers := IsRacing(access);
      if |racers| > 0 {
        assert racers[0] in Racers(paused, info, access);
        SameElements(racers, Racers(paused, info, access));
        raceFound := true;
        EnableSpecific(racers);
      } else {
        assert forall t :: t !in Racers(paused, info, access);
        PauseAt(access);
      }
    }

    /** Nothing happens away from the targets. */
    twostate predicate Untouched()
      reads this
    {
      State() == old(State()) && raceFound == old(raceFound) && info == old(info)
    }

    /** `handleBeforeMutexLock`: taking a lock counts as a write to it. */
    method HandleBeforeMutexLock(myself: ThrID, retAddr: int, lock: Mutex)
      requires Valid() && kind.LockTester? && myself in os.loc && StandsAt(kind, os.loc[myself], lock)
      requires myself !in EnabledThreads(paused) && myself !in demoted
      modifies this
      ensures Valid() && SameProgram(old(State()), State())
      ensures if retAddr == target1 || retAddr == target2 then Handled(myself, lock, true) else Untouched()
    {
      if retAddr == target1 || retAddr == target2 {
        HandleTarget(myself, lock, true);
      }
    }

    /** `handleMyMemoryRead` and `handleMyMemoryWrite`. */
    method HandleMyMemoryAccess(myself: ThrID, iid: int, addr: int, isWrite: bool)
      requires Valid() && kind.DataTester? && myself in os.loc && StandsAt(kind, os.loc[myself], addr)
      requires myself !in EnabledThreads(paused) && myself !in demoted
      modifies this
      ensures Valid() && SameProgram(old(State()), State())
      ensures if iid == target1 || iid == target2 then Handled(myself, addr, isWrite) else Untouched()
    {
      if iid == target1 || iid == target2 {
        HandleTarget(myself, addr, isWrite);
      }
    }

    /** The access was compared with the paused ones: racers are released and a race is noted, or else the
        thread is paused with its access on record. */
    twostate predicate Handled(myself: ThrID, addr: int, isWrite: bool)
      reads this
    {
      var racers := Racers(old(paused), old(info), RaceInfo(myself, addr, isWrite));
      && raceFound == (old(raceFound) || racers != {})
      && EnabledThreads(paused) ==
           (if racers != {} then old(EnabledThreads(paused)) - racers else old(EnabledThreads(paused)) + {myself})
      && info == if racers != {} then old(info) else old(info)[myself := RaceInfo(myself, addr, isWrite)]
    }

    method PauseAt(access: RaceInfo)
      requires Valid() && access.me in os.loc && StandsAt(kind, os.loc[access.me], access.addr)
      requires access.me !in EnabledThreads(paused) && access.me !in demoted
      modifies this`paused, this`info, this`enabled
      ensures Valid() && SameProgram(old(State()), State())
      ensures EnabledThreads(paused) == old(EnabledThreads(paused)) + {access.me} && info == old(info)[access.me := access]
    {
      hide Invariant;
      var t := access.me;
      InvariantShape(State());
      StepKeeps(State(), Pause(t));
      assert EnabledThreads(paused[t := true]) == EnabledThreads(paused) + {t};
      paused, info, enabled := paused[t := true], info[t := access], enabled[t := false];
    }

    /** `livelockPrevention`: one time in 200 a paused thread chosen at random is released. */
    method LivelockPrevention(first: int, second: int) returns (released: ThrID)
      requires Valid()
      modifies this`enabled, this`lockReady, this`lockWait, this`paused, this`demoted
      ensures Valid() && SameProgram(old(State()), State())
      ensures released == INVALID_THREAD <==> Remainder(first, 200) != 1 || old(EnabledThreads(paused)) == {}
      ensures released == INVALID_THREAD ==> State() == old(State())
      ensures released != INVALID_THREAD ==>
              && released in old(EnabledThreads(paused)) && Released(released)
              && EnabledThreads(paused) == old(EnabledThreads(paused)) - {released}
              && |Below(old(paused), released)| == Skipped(second, |old(EnabledThreads(paused))|)
    {
      hide Invariant, Unpaused;
      InvariantShape(State());
      released := INVALID_THREAD;
      if Remainder(first, 200) == 1 {
        released := ChooseRandomThread(paused, second);
        if released != INVALID_THREAD {
          ChosenIsEnabled(paused, released);
          SameProgramAfter(State(), released);
          var ok := ReenableThreadIfLegal(released);
        }
      }
    }

    /** Release paused threads at random until one of them can run; -1 when nobody is left. */
    method ReleaseUntilEnabled(random: nat -> int) returns (next: ThrID)
      requires Valid() && !SomeEnabled(State().tr)
      modifies this`enabled, this`lockReady, this`lockWait, this`paused, this`demoted
      ensures Valid() && SameProgram(old(State()), State())
      ensures next == INVALID_THREAD ==> EnabledThreads(paused) == {} && !SomeEnabled(State().tr)
      ensures next != INVALID_THREAD ==> next in enabled && enabled[next] && next !in EnabledThreads(paused)
    {
      hide Invariant, EnabledThreads, Unpaused, DetermineLock;
      var k, success := 0, false;
      next := INVALID_THREAD;
      while !success
        invariant Valid() && SameProgram(old(State()), State())
        invariant !success ==> !SomeEnabled(State().tr)
        invariant success ==> next in enabled && enabled[next] && next !in EnabledThreads(paused)
        invariant success ==> next != INVALID_THREAD
        decreases !success, |EnabledThreads(paused)|
      {
        next := ChooseRandomThread(paused, random(k));
        k := k + 1;
        if next == INVALID_THREAD {
          return;
        }
        ChosenIsEnabled(paused, next);
        SameProgramAfter(State(), next);
        OnlyOneMoreEnabled(State(), next);
        success := ReenableThreadIfLegal(next);
      }
    }

    /**
     * The tester's choice: an enabled thread that is not paused, or -1 when nobody is enabled and nobody
     * is paused any more. `en` is the enabled map once livelock prevention has had its turn.
     */
    method PickNextSchedulingChoice(thread: ThrID, chanceOfPreempt: nat, random: nat -> int)
      returns (next: ThrID, ghost en: map<ThrID, bool>)
      requires Valid() && thread in enabled && chanceOfPreempt > 0
      modifies this`enabled, this`lockReady, this`lockWait, this`paused, this`demoted
      ensures Valid() && SameProgram(old(State()), State())
      ensures next == INVALID_THREAD ==> EnabledThreads(paused) == {} && !SomeEnabled(State().tr)
      ensures next != INVALID_THREAD ==> next in enabled && enabled[next] && next !in EnabledThreads(paused)
      ensures EnabledThreads(en) != {} ==> enabled == en && Prefers(en, thread, chanceOfPreempt, random, next)
      ensures Remainder(random(0), 200) != 1 ==> en == old(enabled)
    {
      hide Invariant, Unpaused, DetermineLock;
      var released := LivelockPrevention(random(0), random(1));
      en := enabled;
      PausedAreDisabled(State());
      next := Prefer(enabled, thread, chanceOfPreempt, random);
      if next == INVALID_THREAD {
        NoChoiceMeansNobodyEnabled(enabled);
        next := ReleaseUntilEnabled((n: nat) => random(n + 5));
      }
    }

    /** The choice among the enabled threads; the caller is taken out of the map while another is sought. */
    static method Prefer(en: map<ThrID, bool>, thread: ThrID, chanceOfPreempt: nat, random: nat -> int) returns (next: ThrID)
      requires chanceOfPreempt > 0 && forall t :: t in en ==> t >= 0
      ensures next == INVALID_THREAD <==> EnabledThreads(en) == {}
      ensures next != INVALID_THREAD ==> next in en && en[next] && Prefers(en, thread, chanceOfPreempt, random, next)
    {
      if thread in en && en[thread] {
        assert thread in EnabledThreads(en);
        if Remainder(random(2), chanceOfPreempt) == 1 {
          return thread;
        }
        var enabled := en[thread := false];
        next := ChooseRandomThread(enabled, random(3));
        if next == INVALID_THREAD || Remainder(random(4), 6) == 0 {
          next := thread;
        }
      } else {
        next := ChooseRandomThread(en, random(3));
      }
    }
  }

  /** The true entry that the random number selects. */
  ghost predicate Selected(m: map<ThrID, bool>, random: int, t: ThrID) {
    && t in m && m[t] && |EnabledThreads(m)| > 0
    && |Below(m, t)| == Skipped(random, |EnabledThreads(m)|)
  }

  /** A preemption is preferred: another enabled thread at random, five times in six if there is one and the
      caller is enabled, and always if the caller is not. */
  ghost predicate Prefers(en: map<ThrID, bool>, thread: ThrID, chance: nat, random: nat -> int, next: ThrID)
    requires chance > 0
  {
    if !(thread in en && en[thread]) then Selected(en, random(3), next)
    else if Remainder(random(2), chance) == 1 then next == thread
    else if EnabledThreads(en[thread := false]) == {} || Remainder(random(4), 6) == 0 then next == thread
    else Selected(en[thread := false], random(3), next)
  }

  lemma SameElements(xs: seq<ThrID>, s: set<ThrID>)
    requires forall i :: 0 <= i < |xs| ==> xs[i] in s
    requires forall t :: t in s ==> t in xs
    ensures (set t | t in xs) == s
  {
    forall t
      ensures t in xs <==> t in s
    {
      if t in xs {
        var i :| 0 <= i < |xs| && xs[i] == t;
      }
    }
    assert (set t | t in xs) == s;
  }

  lemma SameProgramAfter(s: Sys, t: ThrID)
    requires Invariant(s) && t in s.paused
    ensures Shape(s) && SameProgram(Unpaused(s, t), s)
  {
    hide EnabledOk, LocksOk, SemsOk, CondsOk, JoinsOk, BarriersOk, TokensOk, FinishedOk;
  }

  lemma ChosenIsEnabled(m: map<ThrID, bool>, t: ThrID)
    requires t in m && m[t]
    ensures t in EnabledThreads(m)
  {
  }

  /** Releasing a thread enables nobody else. */
  lemma OnlyOneMoreEnabled(s: Sys, t: ThrID)
    requires Invariant(s) && t in s.paused && !SomeEnabled(s.tr)
    ensures Shape(s) && t in Unpaused(s, t).tr.enabled
    ensures !Unpaused(s, t).tr.enabled[t] ==> !SomeEnabled(Unpaused(s, t).tr)
  {
    hide EnabledOk, LocksOk, SemsOk, CondsOk, JoinsOk, BarriersOk, TokensOk, FinishedOk;
  }

  lemma NoChoiceMeansNobodyEnabled(enabled: map<ThrID, bool>)
    requires EnabledThreads(enabled) == {}
    ensures forall t :: t in enabled ==> !enabled[t]
  {
    forall t | t in enabled
      ensures !enabled[t]
    {
      assert t !in EnabledThreads(enabled);
    }
  }

  lemma PausedAreDisabled(s: Sys)
    requires Invariant(s)
    ensures forall t :: t in s.tr.enabled ==> t >= 0
    ensures forall t :: t in s.tr.enabled && s.tr.enabled[t] ==> t !in s.paused
  {
    hide LocksOk, SemsOk, CondsOk, JoinsOk, BarriersOk, TokensOk, FinishedOk, TestersOk;
  }
}
