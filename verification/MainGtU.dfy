/**
 * The comparison of the main block sort (benchmarks/simpl/bzip2/src/blocksort.c, `mainGtU`): bytes first,
 * then bytes and cached orders (`quadrant`), eight at a time, wrapping around the block.
 */
module MainGtU {
  import opened Rotations

  const N_RADIX: nat := 2
  const N_QSORT: nat := 12
  const N_SHELL: nat := 18
  /** How far the arrays extend past the block (benchmarks/simpl/bzip2/src/bzlib_private.h). */
  const N_OVERSHOOT: nat := N_RADIX + N_QSORT + N_SHELL + 2

  /** The quicksort sorts by insertion as soon as the depth exceeds this. */
  const DEPTH_THRESH: nat := N_RADIX + N_QSORT

  /** The block, extended by its own beginning. */
  ghost predicate Extends(block: seq<int>, t: seq<int>) {
    |t| > 0 && |block| == |t| + N_OVERSHOOT && forall i: nat :: i < |block| ==> block[i] == Sym(t, i)
  }

  /** Where the bytes agree, unequal entries give the order of the rotations; equal ones say nothing. */
  ghost predicate Caches(quadrant: seq<int>, t: seq<int>) {
    && |t| > 0 && |quadrant| == |t| + N_OVERSHOOT
    && (forall i: nat, j: nat :: i < |t| && j < |t| && Sym(t, i) == Sym(t, j) && quadrant[i] < quadrant[j] ==>
          Less(t, i, j, |t|))
    && (forall i: nat :: i < N_OVERSHOOT ==> quadrant[|t| + i] == quadrant[i])
  }

  // ---------------------------------------------------------------- equal for ever

  ghost predicate Forever(t: seq<int>, i: nat, j: nat)
    requires |t| > 0
  {
    forall d: nat :: Agree(t, i, j, d)
  }

  lemma ForeverNext(t: seq<int>, i: nat, j: nat)
    requires |t| > 0 && Forever(t, i, j)
    ensures Forever(t, i + 1, j + 1) && Sym(t, i) == Sym(t, j)
  {
    hide Sym;
    assert Agree(t, i, j, 0);
    var i', j' := i + 1, j + 1;
    forall d: nat
      ensures Agree(t, i', j', d)
    {
      assert Agree(t, i, j, d + 1);
    }
  }

  lemma ForeverBack(t: seq<int>, i: nat, j: nat)
    requires |t| > 0 && Forever(t, i, j) && i >= |t|
    ensures Forever(t, i - |t|, j)
  {
    hide Sym;
    var i' := i - |t|;
    forall d: nat
      ensures Agree(t, i', j, d)
    {
      assert Agree(t, i, j, d);
      SymWraps(t, i' + d);
    }
  }

  lemma ForeverSame(t: seq<int>, i: nat, j: nat, h: nat)
    requires |t| > 0 && Forever(t, i, j)
    ensures Same(t, i, j, h) && Same(t, j, i, h)
  {
    hide Sym;
    SameSymmetric(t, i, j, h);
  }

  /** A strict order on any number of bytes is the order of the whole rotations. */
  lemma LessWhole(t: seq<int>, i: nat, j: nat, h: nat)
    requires |t| > 0 && Less(t, i, j, h)
    ensures Less(t, i, j, |t|) && !Less(t, j, i, |t|)
  {
    hide Same, Less;
    var n := |t|;
    if h <= n {
      LessSplits(t, i, j, h, n - h);
    } else {
      Trichotomy(t, i, j, n);
      LessExcludes(t, i, j, h);
      if Same(t, i, j, n) {
        WholeRotation(t, i, j, h);
      }
      LessSplits(t, j, i, n, h - n);
    }
    LessExcludes(t, i, j, n);
  }

  // ---------------------------------------------------------------- the cursor

  /** `m` bytes agree, and the indices stand behind them. */
  ghost predicate Agreed(t: seq<int>, s1: nat, s2: nat, m: nat, i1: nat, i2: nat) {
    |t| > 0 && Same(t, s1, s2, m) && Forever(t, i1, s1 + m) && Forever(t, i2, s2 + m)
  }

  lemma AgreedNext(t: seq<int>, s1: nat, s2: nat, m: nat, i1: nat, i2: nat)
    requires Agreed(t, s1, s2, m, i1, i2) && Sym(t, i1) == Sym(t, i2)
    ensures Agreed(t, s1, s2, m + 1, i1 + 1, i2 + 1)
  {
    hide Sym;
    ForeverNext(t, i1, s1 + m);
    ForeverNext(t, i2, s2 + m);
    assert Agree(t, s1, s2, m);
  }

  lemma BytesDecide(t: seq<int>, s1: nat, s2: nat, m: nat, i1: nat, i2: nat)
    requires Agreed(t, s1, s2, m, i1, i2) && Sym(t, i1) != Sym(t, i2)
    ensures Sym(t, i1) > Sym(t, i2) <==> Less(t, s2, s1, |t|)
  {
    hide Sym;
    ForeverNext(t, i1, s1 + m);
    ForeverNext(t, i2, s2 + m);
    SameSymmetric(t, s1, s2, m);
    if Sym(t, i1) > Sym(t, i2) {
      assert DiffersAt(t, s2, s1, m);
      LessWhole(t, s2, s1, m + 1);
    } else {
      assert DiffersAt(t, s1, s2, m);
      LessWhole(t, s1, s2, m + 1);
    }
  }

  /** The order of the rotations at the cursor is that of the rotations compared. */
  lemma RestDecides(t: seq<int>, s1: nat, s2: nat, m: nat, i1: nat, i2: nat)
    requires Agreed(t, s1, s2, m, i1, i2) && Less(t, i1, i2, |t|)
    ensures Less(t, s1, s2, |t|) && !Less(t, s2, s1, |t|)
  {
    hide Same, Less;
    var n := |t|;
    ForeverSame(t, i1, s1 + m, n);
    ForeverSame(t, i2, s2 + m, n);
    LessThenSame(t, s1 + m, i1, i2, n);
    LessThenSame(t, s1 + m, i2, s2 + m, n);
    LessSplits(t, s1, s2, m, n);
    LessWhole(t, s1, s2, m + n);
  }

  /** The cached order, also behind the end of the block. */
  lemma CacheDecides(quadrant: seq<int>, t: seq<int>, i1: nat, i2: nat)
    requires Caches(quadrant, t) && i1 < |quadrant| && i2 < |quadrant| && |t| > N_OVERSHOOT
    requires Sym(t, i1) == Sym(t, i2) && quadrant[i1] < quadrant[i2]
    ensures Less(t, i1, i2, |t|)
  {
    hide Sym, Same, Less;
    var n := |t|;
    var j1, j2 := if i1 >= n then i1 - n else i1, if i2 >= n then i2 - n else i2;
    SymWraps(t, j1);
    SymWraps(t, j2);
    assert quadrant[j1] == quadrant[i1] && quadrant[j2] == quadrant[i2];
    assert Less(t, j1, j2, n);
    SameSelf(t, i1, n);
    SameSelf(t, i2, n);
    SameWraps(t, j1, n);
    SameWraps(t, j2, n);
    SameSymmetric(t, j1, j1 + n, n);
    LessThenSame(t, i1, j1, j2, n);
    LessThenSame(t, i1, j2, i2, n);
  }

  lemma SameSelf(t: seq<int>, i: nat, h: nat)
    requires |t| > 0
    ensures Same(t, i, i, h)
  {
  }

  lemma QuadrantsDecide(quadrant: seq<int>, t: seq<int>, s1: nat, s2: nat, m: nat, i1: nat, i2: nat)
    requires Caches(quadrant, t) && i1 < |quadrant| && i2 < |quadrant| && |t| > N_OVERSHOOT
    requires Agreed(t, s1, s2, m, i1, i2) && Sym(t, i1) == Sym(t, i2) && quadrant[i1] != quadrant[i2]
    ensures quadrant[i1] > quadrant[i2] <==> Less(t, s2, s1, |t|)
  {
    hide Same, Less, Sym;
    if quadrant[i1] < quadrant[i2] {
      CacheDecides(quadrant, t, i1, i2);
      RestDecides(t, s1, s2, m, i1, i2);
    } else {
      CacheDecides(quadrant, t, i2, i1);
      SameSymmetric(t, s1, s2, m);
      RestDecides(t, s2, s1, m, i2, i1);
    }
  }

  lemma Exhausted(t: seq<int>, s1: nat, s2: nat, m: nat, i1: nat, i2: nat)
    requires Agreed(t, s1, s2, m, i1, i2) && m >= |t|
    ensures !Less(t, s2, s1, |t|)
  {
    SameShorter(t, s1, s2, m, |t|);
    if Less(t, s2, s1, |t|) {
      LessExcludes(t, s2, s1, |t|);
    }
  }

  // ---------------------------------------------------------------- mainGtU

  datatype Outcome = Undecided | Greater | NotGreater

  /** Step `k` of the comparison finds no difference: equal bytes and, from the twelfth step on, equal
      cached orders. */
  ghost predicate StepAgrees(t: seq<int>, cached: seq<int>, s1: nat, s2: nat, k: nat)
    requires |t| > 0 && |cached| > 0
  {
    Sym(t, s1 + k) == Sym(t, s2 + k) && (k >= 12 ==> Sym(cached, s1 + k) == Sym(cached, s2 + k))
  }

  /** The first `agreed` steps find no difference, the next one does, or there is none. */
  ghost predicate Compared(t: seq<int>, cached: seq<int>, s1: nat, s2: nat, agreed: nat, decided: bool)
    requires |t| > 0 && |cached| > 0
  {
    && (forall k: nat :: k < agreed ==> StepAgrees(t, cached, s1, s2, k))
    && (decided ==> !StepAgrees(t, cached, s1, s2, agreed))
  }

  lemma ComparedNext(t: seq<int>, cached: seq<int>, s1: nat, s2: nat, k: nat)
    requires |t| > 0 && |cached| > 0 && Compared(t, cached, s1, s2, k, false) && StepAgrees(t, cached, s1, s2, k)
    ensures Compared(t, cached, s1, s2, k + 1, false)
  {
  }

  /** The cached order of the extended array is that of the block, repeated. */
  lemma CachedAt(quadrant: seq<int>, t: seq<int>, i: nat)
    requires Caches(quadrant, t) && i < |quadrant| && |t| > N_OVERSHOOT
    ensures quadrant[i] == Sym(quadrant[..|t|], i)
  {
    var q := quadrant[..|t|];
    if i < |t| {
      SmallIndex(q, i);
    } else {
      SmallIndex(q, i - |t|);
      SymWraps(q, i - |t|);
    }
  }

  lemma SmallIndex(q: seq<int>, i: nat)
    requires i < |q|
    ensures Sym(q, i) == q[i]
  {
    assert i == |q| * (i / |q|) + i % |q|;
  }

  /** The first twelve steps compare bytes only. */
  method CompareBytes(ghost t: seq<int>, ghost cached: seq<int>, block: seq<int>, s1: nat, s2: nat)
    returns (r: Outcome, ghost agreed: nat)
    requires Extends(block, t) && |t| > N_OVERSHOOT && |cached| > 0
    requires s1 < |t| + DEPTH_THRESH + 1 && s2 < |t| + DEPTH_THRESH + 1
    ensures r.Undecided? ==> Agreed(t, s1, s2, 12, s1 + 12, s2 + 12) && agreed == 12
    ensures !r.Undecided? ==> (r.Greater? <==> Less(t, s2, s1, |t|)) && agreed < 12
    ensures Compared(t, cached, s1, s2, agreed, !r.Undecided?)
  {
    hide Sym, Same, Less, Agreed;
    var i1, i2, step := s1, s2, 0;
    AgreedAtStart(t, s1, s2);
    while step < 12
      invariant step <= 12 && i1 == s1 + step && i2 == s2 + step && Agreed(t, s1, s2, step, i1, i2)
      invariant Compared(t, cached, s1, s2, step, false)
    {
      agreed := step;
      var c1, c2 := block[i1], block[i2];
      if c1 != c2 {
        BytesDecide(t, s1, s2, step, i1, i2);
        r := if c1 > c2 then Greater else NotGreater;
        return;
      }
      AgreedNext(t, s1, s2, step, i1, i2);
      ComparedNext(t, cached, s1, s2, step);
      i1, i2, step := i1 + 1, i2 + 1, step + 1;
    }
    r, agreed := Undecided, 12;
  }

  lemma AgreedAtStart(t: seq<int>, s1: nat, s2: nat)
    requires |t| > 0
    ensures Agreed(t, s1, s2, 0, s1, s2)
  {
  }

  /** The indices also stand at the right place of the cached orders. */
  ghost predicate Aligned(cached: seq<int>, s1: nat, s2: nat, m: nat, i1: nat, i2: nat) {
    |cached| > 0 && Forever(cached, i1, s1 + m) && Forever(cached, i2, s2 + m)
  }

  lemma AlignedNext(cached: seq<int>, s1: nat, s2: nat, m: nat, i1: nat, i2: nat)
    requires Aligned(cached, s1, s2, m, i1, i2)
    ensures Aligned(cached, s1, s2, m + 1, i1 + 1, i2 + 1)
    ensures Sym(cached, i1) == Sym(cached, s1 + m) && Sym(cached, i2) == Sym(cached, s2 + m)
  {
    hide Sym;
    ForeverNext(cached, i1, s1 + m);
    ForeverNext(cached, i2, s2 + m);
  }

  lemma AlignedWraps(cached: seq<int>, s1: nat, s2: nat, m: nat, i1: nat, i2: nat)
    requires Aligned(cached, s1, s2, m, i1, i2)
    ensures i1 >= |cached| ==> Aligned(cached, s1, s2, m, i1 - |cached|, i2)
    ensures i2 >= |cached| ==> Aligned(cached, s1, s2, m, i1, i2 - |cached|)
  {
    hide Agree;
    if i1 >= |cached| {
      ForeverBack(cached, i1, s1 + m);
    }
    if i2 >= |cached| {
      ForeverBack(cached, i2, s2 + m);
    }
  }

  lemma AlignedAtStart(cached: seq<int>, s1: nat, s2: nat, m: nat)
    requires |cached| > 0
    ensures Aligned(cached, s1, s2, m, s1 + m, s2 + m)
  {
  }

  /** The bytes at the cursor are those of the step. */
  lemma StepBytes(t: seq<int>, s1: nat, s2: nat, m: nat, i1: nat, i2: nat)
    requires Agreed(t, s1, s2, m, i1, i2)
    ensures Sym(t, i1) == Sym(t, s1 + m) && Sym(t, i2) == Sym(t, s2 + m)
  {
    hide Sym, Same;
    ForeverNext(t, i1, s1 + m);
    ForeverNext(t, i2, s2 + m);
  }

  /** Eight steps that compare bytes and quadrants. */
  method CompareEight(ghost t: seq<int>, ghost cached: seq<int>, block: seq<int>, quadrant: seq<int>, i1_0: nat, i2_0: nat,
                      ghost s1: nat, ghost s2: nat, ghost m: nat)
    returns (r: Outcome, ghost agreed: nat)
    requires Extends(block, t) && Caches(quadrant, t) && |t| > N_OVERSHOOT && cached == quadrant[..|t|] && m >= 12
    requires i1_0 + 8 <= |block| && i2_0 + 8 <= |block| && Agreed(t, s1, s2, m, i1_0, i2_0)
    requires Aligned(cached, s1, s2, m, i1_0, i2_0) && Compared(t, cached, s1, s2, m, false)
    ensures r.Undecided? ==> Agreed(t, s1, s2, m + 8, i1_0 + 8, i2_0 + 8) && agreed == m + 8
    ensures r.Undecided? ==> Aligned(cached, s1, s2, m + 8, i1_0 + 8, i2_0 + 8)
    ensures !r.Undecided? ==> (r.Greater? <==> Less(t, s2, s1, |t|)) && m <= agreed < m + 8
    ensures Compared(t, cached, s1, s2, agreed, !r.Undecided?)
  {
    hide Sym, Same, Less, Agreed, Aligned, Compared, Caches;
    CachedLength(quadrant, t);
    var i1, i2, step := i1_0, i2_0, 0;
    while step < 8
      invariant step <= 8 && i1 == i1_0 + step && i2 == i2_0 + step && Agreed(t, s1, s2, m + step, i1, i2)
      invariant Aligned(cached, s1, s2, m + step, i1, i2) && Compared(t, cached, s1, s2, m + step, false)
    {
      agreed := m + step;
      CachedAt(quadrant, t, i1);
      CachedAt(quadrant, t, i2);
      StepBytes(t, s1, s2, m + step, i1, i2);
      AlignedNext(cached, s1, s2, m + step, i1, i2);
      var c1, c2 := block[i1], block[i2];
      if c1 != c2 {
        BytesDecide(t, s1, s2, m + step, i1, i2);
        DecidedAt(t, cached, s1, s2, m + step);
        r := if c1 > c2 then Greater else NotGreater;
        return;
      }
      var q1, q2 := quadrant[i1], quadrant[i2];
      if q1 != q2 {
        QuadrantsDecide(quadrant, t, s1, s2, m + step, i1, i2);
        DecidedAt(t, cached, s1, s2, m + step);
        r := if q1 > q2 then Greater else NotGreater;
        return;
      }
      AgreedNext(t, s1, s2, m + step, i1, i2);
      ComparedNext(t, cached, s1, s2, m + step);
      i1, i2, step := i1 + 1, i2 + 1, step + 1;
    }
    r, agreed := Undecided, m + 8;
  }

  lemma CachedLength(quadrant: seq<int>, t: seq<int>)
    requires Caches(quadrant, t)
    ensures |quadrant| == |t| + N_OVERSHOOT
  {
  }

  lemma DecidedAt(t: seq<int>, cached: seq<int>, s1: nat, s2: nat, k: nat)
    requires |t| > 0 && |cached| > 0 && Compared(t, cached, s1, s2, k, false) && !StepAgrees(t, cached, s1, s2, k)
    ensures Compared(t, cached, s1, s2, k, true)
  {
  }

  lemma AgreedWraps(t: seq<int>, s1: nat, s2: nat, m: nat, i1: nat, i2: nat)
    requires Agreed(t, s1, s2, m, i1, i2)
    ensures i1 >= |t| ==> Agreed(t, s1, s2, m, i1 - |t|, i2)
    ensures i2 >= |t| ==> Agreed(t, s1, s2, m, i1, i2 - |t|)
  {
    hide Same, Agree;
    if i1 >= |t| {
      ForeverBack(t, i1, s1 + m);
    }
    if i2 >= |t| {
      ForeverBack(t, i2, s2 + m);
    }
  }

  /** How many rounds of eight a comparison runs at most. */
  function Rounds(nblock: nat): nat {
    nblock / 8 + 2
  }

  /**
   * The rotation at `s1` is greater than that at `s2`. At every depth the quicksort can reach, no read
   * goes beyond `nblock + BZ_N_OVERSHOOT - 1`, the last entry of the extended arrays. The budget pays for
   * every completed round of eight steps.
   */
  method IsGreater(ghost t: seq<int>, block: seq<int>, quadrant: seq<int>, nblock: nat, s1: nat, s2: nat, budget: int)
    returns (gt: bool, budget': int, ghost agreed: nat)
    requires Extends(block, t) && Caches(quadrant, t) && |t| == nblock > N_OVERSHOOT
    requires s1 < nblock + DEPTH_THRESH + 1 && s2 < nblock + DEPTH_THRESH + 1
    ensures gt <==> Less(t, s2, s1, |t|)
    ensures |quadrant| > nblock && agreed <= 12 + 8 * Rounds(nblock)
    ensures Compared(t, quadrant[..nblock], s1, s2, agreed, agreed < 12 + 8 * Rounds(nblock))
    ensures budget' == budget - if agreed < 12 then 0 else (agreed - 12) / 8
    ensures budget - Rounds(nblock) <= budget' <= budget
  {
    hide Sym, Same, Less, Agreed, Extends, Caches, Aligned, Compared;
    ExtendedLength(block, t);
    CachedLength(quadrant, t);
    ghost var cached := quadrant[..nblock];
    var r;
    r, agreed := CompareBytes(t, cached, block, s1, s2);
    if !r.Undecided? {
      gt, budget' := r.Greater?, budget;
      return;
    }
    var i1, i2, k, left := s1 + 12, s2 + 12, nblock + 8, budget;
    AlignedAtStart(cached, s1, s2, 12);
    ghost var m := 12;
    while k >= 0
      invariant 0 <= i1 && 0 <= i2 && i1 + 8 <= |block| && i2 + 8 <= |block| && Agreed(t, s1, s2, m, i1, i2)
      invariant Aligned(cached, s1, s2, m, i1, i2) && Compared(t, cached, s1, s2, m, false)
      invariant k + m == nblock + 20 && 8 * (budget - left) == nblock + 8 - k && k >= -8
      decreases k
    {
      r, agreed := CompareEight(t, cached, block, quadrant, i1, i2, s1, s2, m);
      if !r.Undecided? {
        gt, budget' := r.Greater?, left;
        return;
      }
      m := m + 8;
      i1, i2 := i1 + 8, i2 + 8;
      AgreedWraps(t, s1, s2, m, i1, i2);
      AlignedWraps(cached, s1, s2, m, i1, i2);
      if i1 >= nblock {
        i1 := i1 - nblock;
      }
      AgreedWraps(t, s1, s2, m, i1, i2);
      AlignedWraps(cached, s1, s2, m, i1, i2);
      if i2 >= nblock {
        i2 := i2 - nblock;
      }
      k := k - 8;
      left := left - 1;
    }
    Exhausted(t, s1, s2, m, i1, i2);
    gt, budget', agreed := false, left, m;
  }

  lemma ExtendedLength(block: seq<int>, t: seq<int>)
    requires Extends(block, t)
    ensures |block| == |t| + N_OVERSHOOT
  {
  }
}
