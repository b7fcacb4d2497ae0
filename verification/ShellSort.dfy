/**
 * The shell sort of the main block sort (benchmarks/simpl/bzip2/src/blocksort.c, `mainSimpleSort`): rotations
 * that agree on `d` bytes, compared from there on until the budget is used up.
 */
module ShellSort {
  import opened Rotations
  import opened Ranks
  import opened QuickSort
  import opened MainGtU

  /** The largest block. */
  const MAX_BLOCK: nat := 900000

  /** What the comparison needs. */
  ghost predicate Ready(t: seq<int>, block: seq<int>, quadrant: seq<int>, nblock: nat) {
    Extends(block, t) && Caches(quadrant, t) && N_OVERSHOOT < |t| == nblock <= MAX_BLOCK
  }

  lemma ReadyLength(t: seq<int>, block: seq<int>, quadrant: seq<int>, nblock: nat)
    requires Ready(t, block, quadrant, nblock)
    ensures |t| == nblock > N_OVERSHOOT && nblock <= MAX_BLOCK
  {
  }

  /** The listed rotations agree on their first `d` bytes. */
  ghost predicate AgreeOn(t: seq<int>, s: seq<int>, lo: int, hi: int, d: nat) {
    && |t| > 0 && 0 <= lo && hi < |s|
    && (forall p :: lo <= p <= hi ==> 0 <= s[p] < |t|)
    && forall p, q :: lo <= p <= hi && lo <= q <= hi ==> Same(t, s[p], s[q], d)
  }

  /** Comparing behind the common bytes is comparing the rotations. */
  lemma OrderBehind(t: seq<int>, x: nat, y: nat, d: nat)
    requires x < |t| && y < |t| && Same(t, x, y, d)
    ensures Less(t, y + d, x + d, |t|) <==> Rank(t, y) < Rank(t, x)
  {
    hide Same, Less;
    var n := |t|;
    SameSymmetric(t, x, y, d);
    LessSplits(t, y, x, d, n);
    RankOrder(t, y, x);
    if Less(t, y, x, d + n) {
      LessWhole(t, y, x, d + n);
    }
    if Less(t, y, x, n) {
      LessSplits(t, y, x, n, d);
      assert n + d == d + n;
      if Less(t, y, x, d) {
        LessExcludes(t, y, x, d);
      }
    }
  }

  lemma AgreeStays(t: seq<int>, a: seq<int>, b: seq<int>, lo: int, hi: int, d: nat)
    requires AgreeOn(t, a, lo, hi, d) && Permuted(a, b, lo, hi + 1)
    ensures AgreeOn(t, b, lo, hi, d)
  {
    hide Same, Permuted;
    PermutedLength(a, b, lo, hi + 1);
    forall p | lo <= p <= hi
      ensures 0 <= b[p] < |t|
    {
      var p' := FromRange(a, b, lo, hi + 1, p);
    }
    forall p, q | lo <= p <= hi && lo <= q <= hi
      ensures Same(t, b[p], b[q], d)
    {
      var p' := FromRange(a, b, lo, hi + 1, p);
      var q' := FromRange(a, b, lo, hi + 1, q);
    }
  }

  lemma PermutedLength(a: seq<int>, b: seq<int>, lo: int, hi: int)
    requires Permuted(a, b, lo, hi)
    ensures |a| == |b| && 0 <= lo <= hi <= |a|
  {
  }

  // ---------------------------------------------------------------- one insertion

  /** The entries below `i` have moved up as far as position `j`. */
  ghost predicate MovedUp(start: seq<int>, f: seq<int>, lo: int, j: int, i: int, h: int) {
    && |f| == |start| && 0 <= lo <= j <= i < |f|
    && (forall p :: lo <= p < j ==> f[p] == start[p])
    && (forall p :: i < p < |f| ==> f[p] == start[p])
    && (h == 1 ==> forall p :: j < p <= i ==> f[p] == start[p - 1])
  }

  lemma InsertedBelow(start: seq<int>, whole: seq<int>, ec: seq<int>, lo: int, j: int, i: int)
    requires 0 <= lo <= j <= i < |start| == |whole| && Sorted(start, ec, lo, i)
    requires forall p :: lo <= p < j ==> whole[p] == start[p]
    requires forall p :: j < p <= i ==> whole[p] == start[p - 1]
    requires whole[j] == start[i]
    requires j < i ==> Key(ec, start[i]) <= Key(ec, start[j])
    requires lo < j ==> Key(ec, start[j - 1]) <= Key(ec, start[i])
    ensures Sorted(whole, ec, lo, i + 1)
  {
    forall p, q | lo <= p < q < i + 1
      ensures Key(ec, whole[p]) <= Key(ec, whole[q])
    {
      var p', q' := if p <= j then p else p - 1, if q <= j then q else q - 1;
      if p == j {
        assert whole[q] == start[q'] && (q' > j ==> Key(ec, start[j]) <= Key(ec, start[q']));
      } else if q == j {
        assert whole[p] == start[p] && (p < j - 1 ==> Key(ec, start[p]) <= Key(ec, start[j - 1]));
      } else {
        assert whole[p] == start[p'] && whole[q] == start[q'];
      }
    }
  }

  lemma AgreePair(t: seq<int>, s: seq<int>, lo: int, hi: int, d: nat, p: int, q: int)
    requires AgreeOn(t, s, lo, hi, d) && lo <= p <= hi && lo <= q <= hi
    ensures 0 <= s[p] < |t| && 0 <= s[q] < |t| && Same(t, s[p], s[q], d)
  {
  }

  /** One copy of the insertion step: the element at `i` moves down in steps of `h`. */
  method InsertDown(ptr: array<int>, ghost t: seq<int>, block: seq<int>, quadrant: seq<int>, nblock: nat,
                    lo: int, i: int, ghost hi: int, h: int, d: nat, budget: int)
    returns (budget': int)
    requires Ready(t, block, quadrant, nblock) && d <= DEPTH_THRESH + 1
    requires 0 <= lo && 1 <= h && lo + h <= i <= hi < ptr.Length && AgreeOn(t, ptr[..], lo, hi, d)
    modifies ptr
    ensures Permuted(old(ptr[..]), ptr[..], lo, hi + 1) && AgreeOn(t, ptr[..], lo, hi, d)
    ensures h == 1 && Sorted(old(ptr[..]), RankOf(t), lo, i) ==> Sorted(ptr[..], RankOf(t), lo, i + 1)
    ensures budget - Cost(hi - lo, nblock) <= budget' <= budget
  {
    hide Permuted, Sorted, Same, Less, Extends, Caches, RankOf, Rank, AgreeOn, Rounds;
    ReadyLength(t, block, quadrant, nblock);
    ghost var start, ec := ptr[..], RankOf(t);
    var v := ptr[i];
    var j, left := i, budget;
    assert start[i := v] == start;
    PermutedSelf(start, lo, hi + 1);
    while j >= lo + h
      invariant lo <= j <= i && budget - Cost(i - j, nblock) <= left <= budget
      invariant Permuted(start, ptr[..][j := v], lo, hi + 1)
      invariant MovedUp(start, ptr[..], lo, j, i, h)
      invariant h == 1 && j < i ==> Key(ec, v) <= Key(ec, start[j])
      decreases j
    {
      CostGrows(i - j + 1, hi - lo, nblock);
      CostGrows(i - j + 1, i - (j - h), nblock);
      AgreePair(t, start, lo, hi, d, j - h, i);
      KeysDecide(t, ptr[j - h], v, d);
      var gt;
      ghost var agreed;
      gt, left, agreed := IsGreater(t, block, quadrant, nblock, ptr[j - h] + d, v + d, left);
      if !gt {
        break;
      }
      ghost var f := ptr[..];
      ShiftDownPermutes(start, f, lo, hi + 1, j, j - h, v);
      ptr[j] := ptr[j - h];
      assert ptr[..] == f[j := f[j - h]];
      j := j - h;
    }
    CostGrows(i - j, hi - lo, nblock);
    ghost var f := ptr[..];
    ptr[j] := v;
    assert ptr[..] == f[j := v];
    AgreeStays(t, start, ptr[..], lo, hi, d);
    budget' := left;
    if h == 1 && Sorted(start, ec, lo, i) {
      InsertedBelow(start, ptr[..], ec, lo, j, i);
    }
  }

  /** What this many comparisons cost at most. */
  ghost function Cost(comparisons: int, nblock: nat): int {
    comparisons * Rounds(nblock)
  }

  lemma CostGrows(a: int, b: int, nblock: nat)
    requires a <= b
    ensures Cost(a, nblock) <= Cost(b, nblock)
    ensures Cost(a, nblock) == Cost(a - 1, nblock) + Rounds(nblock) && Cost(0, nblock) == 0
  {
    Scaled(a, b, Rounds(nblock));
    assert (a - 1) * Rounds(nblock) == a * Rounds(nblock) - Rounds(nblock);
  }

  function Least(a: int, b: int): int {
    if a < b then a else b
  }

  lemma KeysDecide(t: seq<int>, x: int, y: int, d: nat)
    requires 0 <= x < |t| && 0 <= y < |t| && Same(t, x, y, d)
    ensures Less(t, y + d, x + d, |t|) <==> Key(RankOf(t), y) < Key(RankOf(t), x)
  {
    hide Same, Less, Rank;
    OrderBehind(t, x, y, d);
  }

  lemma ShiftDownPermutes(start: seq<int>, f: seq<int>, lo: int, hi: int, j: int, k: int, v: int)
    requires 0 <= lo <= k < j < hi <= |f| && Permuted(start, f[j := v], lo, hi)
    ensures Permuted(start, f[j := f[k]][k := v], lo, hi)
  {
    hide Permuted;
    assert Swap(f[j := v], k, j) == f[j := f[k]][k := v];
    SwapPermutes(start, f[j := v], lo, hi, k, j);
  }

  // ---------------------------------------------------------------- mainSimpleSort

  /** Knuth's increments. */
  const INCS: seq<int> :=
    [1, 4, 13, 40, 121, 364, 1093, 3280, 9841, 29524, 88573, 265720, 797161, 2391484]

  /** One pass with step `h`; after every third insertion the budget is checked. */
  method ShellPass(ptr: array<int>, ghost t: seq<int>, block: seq<int>, quadrant: seq<int>, nblock: nat,
                   lo: int, hi: int, h: int, d: nat, budget: int)
    returns (budget': int, abandoned: bool)
    requires Ready(t, block, quadrant, nblock) && d <= DEPTH_THRESH + 1
    requires 0 <= lo <= hi < ptr.Length && 1 <= h <= hi - lo && AgreeOn(t, ptr[..], lo, hi, d)
    modifies ptr
    ensures Permuted(old(ptr[..]), ptr[..], lo, hi + 1) && AgreeOn(t, ptr[..], lo, hi, d)
    ensures budget' <= budget && (abandoned ==> budget' < 0)
    ensures budget' >= Least(budget, 0) - 3 * Cost(hi - lo, nblock)
    ensures h == 1 && !abandoned ==> Sorted(ptr[..], RankOf(t), lo, hi + 1)
  {
    hide Ready, Permuted, AgreeOn, RankOf, Cost;
    CostGrows(0, hi - lo, nblock);
    ReadyLength(t, block, quadrant, nblock);
    ghost var start := ptr[..];
    PermutedSelf(start, lo, hi + 1);
    budget', abandoned := budget, false;
    var i, copy := lo + h, 0;
    while i <= hi
      invariant lo + h <= i <= hi + 1 && budget' <= budget && !abandoned && 0 <= copy < 3
      invariant budget' >= Least(budget, 0) - copy * Cost(hi - lo, nblock)
      invariant Permuted(start, ptr[..], lo, hi + 1) && AgreeOn(t, ptr[..], lo, hi, d)
      invariant h == 1 ==> Sorted(ptr[..], RankOf(t), lo, i)
    {
      ghost var before := ptr[..];
      budget' := InsertDown(ptr, t, block, quadrant, nblock, lo, i, hi, h, d, budget');
      PermutedTwice(start, before, ptr[..], lo, hi + 1, lo, hi + 1);
      i, copy := i + 1, copy + 1;
      if copy == 3 {
        copy := 0;
        if budget' < 0 {
          abandoned := true;
          return;
        }
      }
    }
  }

  /** By how much the budget can be overdrawn before it is noticed: three insertions in each pass. */
  ghost function Overdraft(size: int, nblock: nat): int {
    39 * Cost(if size < 0 then 0 else size, nblock)
  }

  lemma OverdraftGrows(size: int, total: int, nblock: nat)
    requires size <= total
    ensures 0 <= Overdraft(size, nblock) <= Overdraft(total, nblock)
  {
    hide Cost;
    var a, b := if size < 0 then 0 else size, if total < 0 then 0 else total;
    CostGrows(0, a, nblock);
    CostGrows(a, b, nblock);
  }

  /** The largest increment below the size of the range. */
  method LastIncrement(bigN: int) returns (hp: int)
    requires 2 <= bigN <= MAX_BLOCK
    ensures 0 <= hp < 13 && INCS[hp] < bigN <= INCS[hp + 1]
  {
    hp := 0;
    while INCS[hp] < bigN
      invariant 0 <= hp < 14 && (hp > 0 ==> INCS[hp - 1] < bigN)
      decreases 14 - hp
    {
      hp := hp + 1;
    }
    hp := hp - 1;
  }

  ghost function Passes(n: nat, cost: int): int {
    n * cost
  }

  lemma PassesGrow(n: nat, cost: int)
    requires n < 13 && cost >= 0
    ensures Passes(n + 1, cost) == Passes(n, cost) + cost && 0 <= Passes(n, cost) <= Passes(n + 1, cost) <= 13 * cost
    ensures Passes(0, cost) == 0
  {
  }

  /** Sorts the range in the order of the rotations, unless the budget ran out. */
  method MainSimpleSort(ptr: array<int>, ghost t: seq<int>, block: seq<int>, quadrant: seq<int>, nblock: nat,
                        lo: int, hi: int, d: nat, budget: int)
    returns (budget': int)
    requires Ready(t, block, quadrant, nblock) && d <= DEPTH_THRESH + 1
    requires 0 <= lo <= hi + 1 <= ptr.Length && hi - lo < nblock && AgreeOn(t, ptr[..], lo, hi, d)
    modifies ptr
    ensures Permuted(old(ptr[..]), ptr[..], lo, hi + 1) && AgreeOn(t, ptr[..], lo, hi, d)
    ensures Least(budget, 0) - Overdraft(hi - lo, nblock) <= budget' <= budget
    ensures budget' >= 0 ==> Sorted(ptr[..], RankOf(t), lo, hi + 1)
  {
    hide Ready, Permuted, AgreeOn, RankOf, Cost, Passes;
    ReadyLength(t, block, quadrant, nblock);
    CostGrows(0, if hi < lo then 0 else hi - lo, nblock);
    ghost var start, three, passes := ptr[..], 3 * Cost(hi - lo, nblock), 0;
    PermutedSelf(start, lo, hi + 1);
    budget' := budget;
    var bigN := hi - lo + 1;
    if bigN < 2 {
      return;
    }
    PassesGrow(passes, three);
    var hp := LastIncrement(bigN);
    var abandoned := false;
    while hp >= 0
      invariant -1 <= hp < 13 && budget' <= budget && !abandoned
      invariant 0 <= passes <= 12 - hp && Passes(passes, three) <= 13 * three
      invariant budget' >= Least(budget, 0) - Passes(passes, three)
      invariant hp >= 0 ==> INCS[hp] < bigN
      invariant Permuted(start, ptr[..], lo, hi + 1) && AgreeOn(t, ptr[..], lo, hi, d)
      invariant hp == -1 ==> Sorted(ptr[..], RankOf(t), lo, hi + 1)
    {
      ghost var before := ptr[..];
      PassesGrow(passes, three);
      budget', abandoned := ShellPass(ptr, t, block, quadrant, nblock, lo, hi, INCS[hp], d, budget');
      passes := passes + 1;
      PermutedTwice(start, before, ptr[..], lo, hi + 1, lo, hi + 1);
      if abandoned {
        return;
      }
      assert hp > 0 ==> INCS[hp - 1] < INCS[hp];
      hp := hp - 1;
    }
  }
}
