/** The uniform choice of the random trackers (`chooseRandomThread` in
    src/randomschedule/randomtracker.cpp and src/addrserial/addrtracker.cpp). */
module RandomChoice {
  import opened SerializerTypes
  import opened Tracker
  import FS = FairScheduler

  /** The quotient of C, truncated towards zero. */
  function Quotient(a: int, n: int): int
    requires n > 0
  {
    if a >= 0 then a / n else -((-a) / n)
  }

  /** The remainder of C, whose sign is that of the dividend: a random number may be negative. */
  function Remainder(a: int, n: int): (r: int)
    requires n > 0
    ensures a == n * Quotient(a, n) + r
    ensures -n < r < n && (r == 0 || (r > 0 <==> a > 0))
  {
    if a >= 0 then NonnegativeDivision(a, n); a % n else NonnegativeDivision(-a, n); -((-a) % n)
  }

  lemma NonnegativeDivision(a: nat, n: nat)
    requires n > 0
    ensures a == n * (a / n) + a % n && n * -(a / n) == -(n * (a / n))
    ensures a == 0 ==> a % n == 0
  {
  }

  /** Its defining law admits no other value. */
  lemma RemainderUnique(a: int, n: int, q: int, r: int)
    requires n > 0 && a == n * q + r && -n < r < n && (r == 0 || (r > 0 <==> a > 0))
    ensures r == Remainder(a, n) && q == Quotient(a, n)
  {
    var q', r' := Quotient(a, n), Remainder(a, n);
    assert n * (q - q') == r' - r;
    Multiples(n, q - q', r' - r);
  }

  lemma Multiples(n: int, k: int, d: int)
    requires n > 0 && n * k == d && -n < d < n
    ensures k == 0 && d == 0
  {
    assert k >= 1 ==> n * k >= n;
    assert k <= -1 ==> n * k <= -n;
  }

  /** How many choices are passed over: none if the remainder is negative. */
  function Skipped(random: int, choices: nat): (k: nat)
    requires choices > 0
    ensures k < choices
    ensures random >= 0 ==> random == choices * Quotient(random, choices) + k
    ensures random <= 0 ==> k == 0
  {
    OneChoice(random);
    if choices > 1 && Remainder(random, choices) > 0 then Remainder(random, choices) else 0
  }

  lemma OneChoice(random: int)
    ensures Remainder(random, 1) == 0
  {
  }

  /** Numbers that differ by the number of choices make the same choice. */
  lemma ChoiceRepeats(random: nat, choices: nat)
    requires choices > 0
    ensures Skipped(random + choices, choices) == Skipped(random, choices)
  {
    hide Quotient, Skipped;
    var q, k := Quotient(random, choices), Skipped(random, choices);
    var q', k' := Quotient(random + choices, choices), Skipped(random + choices, choices);
    Differences(choices, q', q);
    Multiples(choices, q' - q - 1, k - k');
  }

  lemma Differences(n: int, x: int, y: int)
    ensures n * (x - y - 1) == n * x - n * y - n
  {
  }

  lemma SmallChoice(random: nat, choices: nat)
    requires random < choices
    ensures Skipped(random, choices) == random
  {
    hide Quotient, Skipped;
    var q, k := Quotient(random, choices), Skipped(random, choices);
    Multiples(choices, q, random - k);
  }

  function Below(m: map<ThrID, bool>, r: ThrID): set<ThrID> {
    set t | t in m && m[t] && t < r
  }

  /** -1 if there is no choice, else the true entry with `Skipped` true entries below it. */
  method ChooseRandomThread(m: map<ThrID, bool>, random: int) returns (r: ThrID)
    requires forall t :: t in m ==> t >= 0
    ensures r == INVALID_THREAD <==> EnabledThreads(m) == {}
    ensures r != INVALID_THREAD ==>
            && r in m && m[r]
            && |EnabledThreads(m)| > 0
            && |Below(m, r)| == Skipped(random, |EnabledThreads(m)|)
  {
    var choices := CountTrue(m);
    if choices == 0 {
      return INVALID_THREAD;
    }
    var chosen := 0;
    if choices > 1 {
      chosen := Remainder(random, choices);
    }
    r := Nth(m, chosen);
  }

  method CountTrue(m: map<ThrID, bool>) returns (n: nat)
    ensures n == |EnabledThreads(m)|
    ensures n == 0 <==> EnabledThreads(m) == {}
  {
    n := 0;
    var todo := m.Keys;
    ghost var seen: set<ThrID> := {};
    while todo != {}
      invariant todo <= m.Keys
      invariant seen == EnabledThreads(m) - todo && n == |seen|
      decreases todo
    {
      HasElement(todo);
      var t :| t in todo;
      todo := todo - {t};
      if m[t] {
        seen := seen + {t};
        n := n + 1;
      }
    }
    assert seen == EnabledThreads(m);
  }

  /** The second loop: count down over the true entries in ascending order. */
  method Nth(m: map<ThrID, bool>, start: int) returns (r: ThrID)
    requires forall t :: t in m ==> t >= 0
    requires start < |EnabledThreads(m)| && EnabledThreads(m) != {}
    ensures r in m && m[r] && |Below(m, r)| == if start > 0 then start else 0
  {
    hide EnabledThreads, Below, Ascending;
    var chosen := start;
    var todo := m.Keys;
    AscendingAtStart(m);
    while todo != {}
      invariant Ascending(m, todo) && todo <= m.Keys
      invariant chosen == start - |EnabledThreads(m) - todo|
      invariant EnabledThreads(m) - todo != {} ==> chosen >= 0
      invariant todo == {} ==> EnabledThreads(m) - todo == EnabledThreads(m)
      decreases todo
    {
      var t := FS.Smallest(todo);
      AscendingNext(m, todo, t);
      todo := todo - {t};
      if m[t] {
        chosen := chosen - 1;
        if chosen < 0 {
          return t;
        }
      }
    }
    assert false;
  }

  /** What is left to visit is greater than what was visited. */
  ghost predicate Ascending(m: map<ThrID, bool>, todo: set<ThrID>) {
    todo <= m.Keys && forall t, u :: t in todo && u in m && u !in todo ==> u < t
  }

  lemma AscendingAtStart(m: map<ThrID, bool>)
    ensures Ascending(m, m.Keys) && EnabledThreads(m) - m.Keys == {}
  {
  }

  lemma AscendingNext(m: map<ThrID, bool>, todo: set<ThrID>, t: ThrID)
    requires Ascending(m, todo) && t in todo && forall u :: u in todo ==> t <= u
    ensures Ascending(m, todo - {t})
    ensures Below(m, t) == EnabledThreads(m) - todo
    ensures |EnabledThreads(m) - (todo - {t})| == |EnabledThreads(m) - todo| + if m[t] then 1 else 0
  {
    var before, after := EnabledThreads(m) - todo, EnabledThreads(m) - (todo - {t});
    assert Below(m, t) == before;
    assert after == if m[t] then before + {t} else before;
  }

  /** The choice is fair to every candidate: each of them is chosen by some random number. */
  lemma EveryChoicePossible(m: map<ThrID, bool>, r: ThrID) returns (random: nat)
    requires r in m && m[r]
    ensures |EnabledThreads(m)| > 0 && random < |EnabledThreads(m)|
    ensures |Below(m, r)| == Skipped(random, |EnabledThreads(m)|)
  {
    random := |Below(m, r)|;
    var all := EnabledThreads(m);
    assert r in all;
    SubsetSize(Below(m, r), all - {r});
    SmallChoice(random, |all|);
  }

  /** The number of true entries below a true entry determines it. */
  lemma BelowDetermines(m: map<ThrID, bool>, r: ThrID, u: ThrID)
    requires r in m && m[r] && u in m && m[u] && |Below(m, r)| == |Below(m, u)|
    ensures r == u
  {
    var low, high := if r < u then r else u, if r < u then u else r;
    if low < high {
      assert low in Below(m, high) && low !in Below(m, low);
      SubsetSize(Below(m, low), Below(m, high) - {low});
    }
  }
}
