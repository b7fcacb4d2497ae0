/**
 * The sorter of the fallback block sort (benchmarks/simpl/bzip2/src/blocksort.c): a shell/insertion sort
 * for short ranges and a three-way quicksort with an explicit stack, in place on `fmap`, ordered by the
 * equivalence classes `eclass`.
 */
module QuickSort {

  // ---------------------------------------------------------------- permutations of a range

  /** `b` is `a` with the elements of `[lo, hi)` rearranged. */
  ghost predicate Permuted(a: seq<int>, b: seq<int>, lo: int, hi: int) {
    && 0 <= lo <= hi <= |a| == |b|
    && a[..lo] == b[..lo] && a[hi..] == b[hi..]
    && multiset(a) == multiset(b)
  }

  function Swap(s: seq<int>, i: int, j: int): seq<int>
    requires 0 <= i < |s| && 0 <= j < |s|
  {
    s[i := s[j]][j := s[i]]
  }

  lemma SwapPermutes(a: seq<int>, s: seq<int>, lo: int, hi: int, i: int, j: int)
    requires Permuted(a, s, lo, hi) && lo <= i < hi && lo <= j < hi
    ensures Permuted(a, Swap(s, i, j), lo, hi)
  {
    var t := Swap(s, i, j);
    assert multiset(t) == multiset(s);
    assert t[..lo] == s[..lo] && t[hi..] == s[hi..];
  }

  lemma PermutedTwice(a: seq<int>, b: seq<int>, c: seq<int>, lo: int, hi: int, lo': int, hi': int)
    requires Permuted(a, b, lo, hi) && Permuted(b, c, lo', hi') && lo <= lo' <= hi' <= hi
    ensures Permuted(a, c, lo, hi)
  {
    assert b[..lo] == b[..lo'][..lo] && c[..lo] == c[..lo'][..lo];
    assert b[hi..] == b[hi'..][hi - hi'..] && c[hi..] == c[hi'..][hi - hi'..];
  }

  lemma RangeMultiset(a: seq<int>, b: seq<int>, lo: int, hi: int)
    requires Permuted(a, b, lo, hi)
    ensures multiset(a[lo..hi]) == multiset(b[lo..hi])
  {
    assert a == a[..lo] + a[lo..hi] + a[hi..];
    assert b == b[..lo] + b[lo..hi] + b[hi..];
    calc {
      multiset(a[lo..hi]);
      multiset(a) - multiset(a[..lo]) - multiset(a[hi..]);
      multiset(b) - multiset(b[..lo]) - multiset(b[hi..]);
      multiset(b[lo..hi]);
    }
  }

  /** Every element of the rearranged range was somewhere in the range. */
  lemma FromRange(a: seq<int>, b: seq<int>, lo: int, hi: int, p: int) returns (q: int)
    requires Permuted(a, b, lo, hi) && lo <= p < hi
    ensures lo <= q < hi && b[p] == a[q]
  {
    RangeMultiset(a, b, lo, hi);
    assert b[p] == b[lo..hi][p - lo];
    assert b[p] in multiset(b[lo..hi]);
    assert b[p] in a[lo..hi];
    var k :| 0 <= k < hi - lo && a[lo..hi][k] == b[p];
    q := lo + k;
  }

  lemma OutsideRange(a: seq<int>, b: seq<int>, lo: int, hi: int, p: int)
    requires Permuted(a, b, lo, hi) && 0 <= p < |a| && !(lo <= p < hi)
    ensures a[p] == b[p]
  {
    if p < lo {
      assert a[p] == a[..lo][p];
    } else {
      assert a[p] == a[hi..][p - hi];
    }
  }

  // ---------------------------------------------------------------- keys

  function Key(ec: seq<int>, x: int): int {
    if 0 <= x < |ec| then ec[x] else 0
  }

  /** The entries of `[lo, hi)` index `eclass`. */
  ghost predicate Indices(s: seq<int>, ec: seq<int>, lo: int, hi: int) {
    0 <= lo && hi <= |s| && forall p :: lo <= p < hi ==> 0 <= s[p] < |ec|
  }

  ghost predicate Sorted(s: seq<int>, ec: seq<int>, lo: int, hi: int) {
    0 <= lo && hi <= |s| && forall p, q :: lo <= p < q < hi ==> Key(ec, s[p]) <= Key(ec, s[q])
  }

  lemma IndicesStay(a: seq<int>, b: seq<int>, ec: seq<int>, lo: int, hi: int)
    requires Permuted(a, b, lo, hi) && Indices(a, ec, lo, hi)
    ensures Indices(b, ec, lo, hi)
  {
    forall p | lo <= p < hi
      ensures 0 <= b[p] < |ec|
    {
      var q := FromRange(a, b, lo, hi, p);
    }
  }

  // ---------------------------------------------------------------- fallbackSimpleSort

  /** One insertion: the element at `i` moves up in steps of `step` past everything smaller. */
  method Insert(fmap: array<int>, ec: seq<int>, lo: int, i: int, hi: int, step: int)
    requires 0 <= lo <= i && i + step <= hi < fmap.Length && step >= 1
    requires Indices(fmap[..], ec, lo, hi + 1)
    modifies fmap
    ensures Permuted(old(fmap[..]), fmap[..], lo, hi + 1)
    ensures Indices(fmap[..], ec, lo, hi + 1)
    ensures step == 1 && Sorted(old(fmap[..]), ec, i + 1, hi + 1) ==> Sorted(fmap[..], ec, i, hi + 1)
  {
    hide Permuted, Sorted;
    ghost var start := fmap[..];
    var tmp := fmap[i];
    var ecTmp := ec[tmp];
    var j := i + step;
    assert start[i := tmp] == start;
    PermutedSelf(start, lo, hi + 1);
    while j <= hi && ecTmp > ec[fmap[j]]
      invariant i + step <= j <= hi + step
      invariant Permuted(start, fmap[..][j - step := tmp], lo, hi + 1)
      invariant Shifted(start, fmap[..], i, j, hi, step)
      invariant step == 1 && j > i + 1 ==> Key(ec, start[j - 1]) < ecTmp
      decreases hi - j
    {
      ghost var f := fmap[..];
      ShiftPermutes(start, f, lo, hi + 1, j - step, j, tmp);
      fmap[j - step] := fmap[j];
      assert fmap[..] == f[j - step := f[j]];
      j := j + step;
    }
    ghost var f := fmap[..];
    fmap[j - step] := tmp;
    assert fmap[..] == f[j - step := tmp];
    IndicesStay(start, fmap[..], ec, lo, hi + 1);
    if step == 1 && Sorted(start, ec, i + 1, hi + 1) {
      InsertedSorted(start, fmap[..], ec, i, j, hi);
    }
  }

  /** The entries above `i` have moved down as far as position `j`. */
  ghost predicate Shifted(start: seq<int>, f: seq<int>, i: int, j: int, hi: int, step: int) {
    && |f| == |start| && 0 <= i < j && hi < |f|
    && (forall p :: j <= p <= hi ==> f[p] == start[p])
    && (step == 1 ==> forall p :: i <= p < j - 1 && p < hi ==> f[p] == start[p + 1])
  }

  lemma PermutedSelf(s: seq<int>, lo: int, hi: int)
    requires 0 <= lo <= hi <= |s|
    ensures Permuted(s, s, lo, hi)
  {
  }

  lemma ShiftPermutes(start: seq<int>, f: seq<int>, lo: int, hi: int, i: int, j: int, tmp: int)
    requires 0 <= lo <= i < j < hi <= |f| && Permuted(start, f[i := tmp], lo, hi)
    ensures Permuted(start, f[i := f[j]][j := tmp], lo, hi)
  {
    hide Permuted;
    assert Swap(f[i := tmp], i, j) == f[i := f[j]][j := tmp];
    SwapPermutes(start, f[i := tmp], lo, hi, i, j);
  }

  lemma InsertedSorted(start: seq<int>, whole: seq<int>, ec: seq<int>, i: int, j: int, hi: int)
    requires 0 <= i < j <= hi + 1 <= |start| == |whole|
    requires Sorted(start, ec, i + 1, hi + 1)
    requires forall p :: i <= p < j - 1 ==> whole[p] == start[p + 1]
    requires whole[j - 1] == start[i]
    requires forall p :: j <= p <= hi ==> whole[p] == start[p]
    requires j > i + 1 ==> Key(ec, start[j - 1]) < Key(ec, start[i])
    requires j <= hi ==> Key(ec, start[i]) <= Key(ec, start[j])
    ensures Sorted(whole, ec, i, hi + 1)
  {
    forall p, q | i <= p < q < hi + 1
      ensures Key(ec, whole[p]) <= Key(ec, whole[q])
    {
    }
  }

  method FallbackSimpleSort(fmap: array<int>, ec: seq<int>, lo: int, hi: int)
    requires 0 <= lo <= hi + 1 <= fmap.Length && Indices(fmap[..], ec, lo, hi + 1)
    modifies fmap
    ensures Permuted(old(fmap[..]), fmap[..], lo, hi + 1)
    ensures Sorted(fmap[..], ec, lo, hi + 1)
  {
    if lo == hi {
      return;
    }
    ghost var start := fmap[..];
    if hi - lo > 3 {
      var i := hi - 4;
      while i >= lo
        invariant lo - 1 <= i <= hi - 4
        invariant Permuted(start, fmap[..], lo, hi + 1) && Indices(fmap[..], ec, lo, hi + 1)
      {
        ghost var before := fmap[..];
        Insert(fmap, ec, lo, i, hi, 4);
        PermutedTwice(start, before, fmap[..], lo, hi + 1, lo, hi + 1);
        i := i - 1;
      }
    }
    var i := hi - 1;
    while i >= lo
      invariant i <= hi - 1 && (lo <= hi ==> lo - 1 <= i)
      invariant Permuted(start, fmap[..], lo, hi + 1) && Indices(fmap[..], ec, lo, hi + 1)
      invariant lo <= hi ==> Sorted(fmap[..], ec, i + 1, hi + 1)
    {
      ghost var before := fmap[..];
      Insert(fmap, ec, lo, i, hi, 1);
      PermutedTwice(start, before, fmap[..], lo, hi + 1, lo, hi + 1);
      i := i - 1;
    }
  }

  // ---------------------------------------------------------------- partitioning

  /** Keys equal to, below, above the median at every position of a range. */
  ghost predicate AllEqual(s: seq<int>, ec: seq<int>, lo: int, hi: int, med: int) {
    0 <= lo && hi <= |s| && forall p :: lo <= p < hi ==> Key(ec, s[p]) == med
  }

  ghost predicate AllBelow(s: seq<int>, ec: seq<int>, lo: int, hi: int, med: int) {
    0 <= lo && hi <= |s| && forall p :: lo <= p < hi ==> Key(ec, s[p]) < med
  }

  ghost predicate AllAbove(s: seq<int>, ec: seq<int>, lo: int, hi: int, med: int) {
    0 <= lo && hi <= |s| && forall p :: lo <= p < hi ==> Key(ec, s[p]) > med
  }

  /** Equal keys collect at both ends, smaller and greater ones inside; `[unLo, unHi]` is unknown. */
  ghost predicate Split(s: seq<int>, ec: seq<int>, lo: int, hi: int, med: int,
                        ltLo: int, unLo: int, unHi: int, gtHi: int)
  {
    && 0 <= lo <= ltLo <= unLo <= unHi + 1 <= gtHi + 1 <= hi + 1 <= |s|
    && AllEqual(s, ec, lo, ltLo, med) && AllBelow(s, ec, ltLo, unLo, med)
    && AllAbove(s, ec, unHi + 1, gtHi + 1, med) && AllEqual(s, ec, gtHi + 1, hi + 1, med)
  }

  method SwapEntries(fmap: array<int>, ghost start: seq<int>, ec: seq<int>, ghost lo: int, ghost hi: int, i: int, j: int)
    requires 0 <= i < fmap.Length && 0 <= j < fmap.Length
    requires Permuted(start, fmap[..], lo, hi + 1) && lo <= i <= hi && lo <= j <= hi
    requires Indices(fmap[..], ec, lo, hi + 1)
    modifies fmap
    ensures fmap[..] == Swap(old(fmap[..]), i, j)
    ensures Permuted(start, fmap[..], lo, hi + 1) && Indices(fmap[..], ec, lo, hi + 1)
  {
    hide Permuted;
    SwapPermutes(start, fmap[..], lo, hi + 1, i, j);
    fmap[i], fmap[j] := fmap[j], fmap[i];
    assert fmap[..] == Swap(old(fmap[..]), i, j);
  }

  /** The first inner loop: from the left up to a key above the median. */
  method ScanUp(fmap: array<int>, ghost start: seq<int>, ec: seq<int>, lo: int, hi: int, med: int,
                ltLo0: int, unLo0: int, unHi: int, ghost gtHi: int)
    returns (ltLo: int, unLo: int)
    requires hi < fmap.Length && Permuted(start, fmap[..], lo, hi + 1) && Indices(fmap[..], ec, lo, hi + 1)
    requires Split(fmap[..], ec, lo, hi, med, ltLo0, unLo0, unHi, gtHi)
    modifies fmap
    ensures Permuted(start, fmap[..], lo, hi + 1) && Indices(fmap[..], ec, lo, hi + 1)
    ensures Split(fmap[..], ec, lo, hi, med, ltLo, unLo, unHi, gtHi) && unLo >= unLo0
    ensures unLo <= unHi ==> Key(ec, fmap[unLo]) > med
  {
    hide Permuted;
    ltLo, unLo := ltLo0, unLo0;
    while unLo <= unHi && ec[fmap[unLo]] <= med
      invariant Permuted(start, fmap[..], lo, hi + 1) && Indices(fmap[..], ec, lo, hi + 1)
      invariant Split(fmap[..], ec, lo, hi, med, ltLo, unLo, unHi, gtHi) && unLo >= unLo0
      decreases unHi - unLo
    {
      if ec[fmap[unLo]] == med {
        SplitSwapLow(fmap[..], ec, lo, hi, med, ltLo, unLo, unHi, gtHi);
        SwapEntries(fmap, start, ec, lo, hi, unLo, ltLo);
        ltLo := ltLo + 1;
      }
      unLo := unLo + 1;
    }
  }

  lemma SplitSwapLow(s: seq<int>, ec: seq<int>, lo: int, hi: int, med: int, ltLo: int, unLo: int, unHi: int, gtHi: int)
    requires Split(s, ec, lo, hi, med, ltLo, unLo, unHi, gtHi) && unLo <= unHi && Key(ec, s[unLo]) == med
    ensures Split(Swap(s, unLo, ltLo), ec, lo, hi, med, ltLo + 1, unLo + 1, unHi, gtHi)
  {
  }

  lemma SplitSwapHigh(s: seq<int>, ec: seq<int>, lo: int, hi: int, med: int, ltLo: int, unLo: int, unHi: int, gtHi: int)
    requires Split(s, ec, lo, hi, med, ltLo, unLo, unHi, gtHi) && unLo <= unHi && Key(ec, s[unHi]) == med
    ensures Split(Swap(s, unHi, gtHi), ec, lo, hi, med, ltLo, unLo, unHi - 1, gtHi - 1)
  {
  }

  lemma SplitSwapBoth(s: seq<int>, ec: seq<int>, lo: int, hi: int, med: int, ltLo: int, unLo: int, unHi: int, gtHi: int)
    requires Split(s, ec, lo, hi, med, ltLo, unLo, unHi, gtHi) && unLo <= unHi
    requires Key(ec, s[unLo]) > med && Key(ec, s[unHi]) < med
    ensures Split(Swap(s, unLo, unHi), ec, lo, hi, med, ltLo, unLo + 1, unHi - 1, gtHi)
  {
  }

  /** The second inner loop: from the right down to a key below the median. */
  method ScanDown(fmap: array<int>, ghost start: seq<int>, ec: seq<int>, lo: int, hi: int, med: int,
                  ghost ltLo: int, unLo: int, unHi0: int, gtHi0: int)
    returns (unHi: int, gtHi: int)
    requires hi < fmap.Length && Permuted(start, fmap[..], lo, hi + 1) && Indices(fmap[..], ec, lo, hi + 1)
    requires Split(fmap[..], ec, lo, hi, med, ltLo, unLo, unHi0, gtHi0)
    requires unLo <= unHi0 ==> Key(ec, fmap[unLo]) > med
    modifies fmap
    ensures Permuted(start, fmap[..], lo, hi + 1) && Indices(fmap[..], ec, lo, hi + 1)
    ensures Split(fmap[..], ec, lo, hi, med, ltLo, unLo, unHi, gtHi) && unHi <= unHi0
    ensures unLo <= unHi ==> Key(ec, fmap[unLo]) > med && Key(ec, fmap[unHi]) < med
  {
    hide Permuted;
    unHi, gtHi := unHi0, gtHi0;
    while unLo <= unHi && ec[fmap[unHi]] >= med
      invariant Permuted(start, fmap[..], lo, hi + 1) && Indices(fmap[..], ec, lo, hi + 1)
      invariant Split(fmap[..], ec, lo, hi, med, ltLo, unLo, unHi, gtHi) && unHi <= unHi0
      invariant unLo <= unHi ==> Key(ec, fmap[unLo]) > med
      decreases unHi - unLo
    {
      if ec[fmap[unHi]] == med {
        SplitSwapHigh(fmap[..], ec, lo, hi, med, ltLo, unLo, unHi, gtHi);
        SwapEntries(fmap, start, ec, lo, hi, unHi, gtHi);
        gtHi := gtHi - 1;
      }
      unHi := unHi - 1;
    }
  }

  /** The partition loop: nothing unknown is left. */
  method Partition(fmap: array<int>, ec: seq<int>, lo: int, hi: int, med: int)
    returns (ltLo: int, unLo: int, unHi: int, gtHi: int)
    requires 0 <= lo <= hi < fmap.Length && Indices(fmap[..], ec, lo, hi + 1)
    modifies fmap
    ensures Permuted(old(fmap[..]), fmap[..], lo, hi + 1) && Indices(fmap[..], ec, lo, hi + 1)
    ensures Split(fmap[..], ec, lo, hi, med, ltLo, unLo, unHi, gtHi) && unHi == unLo - 1
  {
    hide Permuted, Indices;
    ghost var start := fmap[..];
    PermutedSelf(start, lo, hi + 1);
    ltLo, unLo, unHi, gtHi := lo, lo, hi, hi;
    while true
      invariant Permuted(start, fmap[..], lo, hi + 1) && Indices(fmap[..], ec, lo, hi + 1)
      invariant Split(fmap[..], ec, lo, hi, med, ltLo, unLo, unHi, gtHi)
      decreases unHi - unLo + 1
    {
      ltLo, unLo := ScanUp(fmap, start, ec, lo, hi, med, ltLo, unLo, unHi, gtHi);
      unHi, gtHi := ScanDown(fmap, start, ec, lo, hi, med, ltLo, unLo, unHi, gtHi);
      if unLo > unHi {
        break;
      }
      SplitSwapBoth(fmap[..], ec, lo, hi, med, ltLo, unLo, unHi, gtHi);
      SwapEntries(fmap, start, ec, lo, hi, unLo, unHi);
      unLo, unHi := unLo + 1, unHi - 1;
    }
  }

  // ---------------------------------------------------------------- gathering the three parts

  /** `t` is `s` with two blocks of `n` entries exchanged. */
  ghost predicate Exchanged(s: seq<int>, t: seq<int>, p1: int, p2: int, n: int) {
    && |t| == |s| && 0 <= p1 && 0 <= n && p1 + n <= p2 && p2 + n <= |s|
    && (forall p :: p1 <= p < p1 + n ==> t[p] == s[p - p1 + p2])
    && (forall p :: p2 <= p < p2 + n ==> t[p] == s[p - p2 + p1])
    && (forall p :: 0 <= p < |s| && !(p1 <= p < p1 + n) && !(p2 <= p < p2 + n) ==> t[p] == s[p])
  }

  method ExchangeBlocks(fmap: array<int>, ghost start: seq<int>, ec: seq<int>, ghost lo: int, ghost hi: int,
                        p1: int, p2: int, n: int)
    requires 0 <= lo <= p1 && 0 <= n && p1 + n <= p2 && p2 + n <= hi + 1 <= fmap.Length
    requires Permuted(start, fmap[..], lo, hi + 1) && Indices(fmap[..], ec, lo, hi + 1)
    modifies fmap
    ensures Permuted(start, fmap[..], lo, hi + 1) && Indices(fmap[..], ec, lo, hi + 1)
    ensures Exchanged(old(fmap[..]), fmap[..], p1, p2, n)
  {
    hide Permuted, Indices;
    ghost var before := fmap[..];
    var k := 0;
    while k < n
      invariant 0 <= k <= n
      invariant Permuted(start, fmap[..], lo, hi + 1) && Indices(fmap[..], ec, lo, hi + 1)
      invariant Exchanged(before, fmap[..], p1, p2, k)
    {
      SwapEntries(fmap, start, ec, lo, hi, p1 + k, p2 + k);
      k := k + 1;
    }
  }

  /** Below, equal, above: the range is in order but for the two outer parts. */
  ghost predicate ThreeWay(s: seq<int>, ec: seq<int>, lo: int, hi: int, med: int, n: int, m: int) {
    && 0 <= lo <= n + 1 <= m <= hi + 1 <= |s|
    && AllBelow(s, ec, lo, n + 1, med) && AllEqual(s, ec, n + 1, m, med) && AllAbove(s, ec, m, hi + 1, med)
  }

  lemma GatherLow(s: seq<int>, t: seq<int>, ec: seq<int>, lo: int, hi: int, med: int,
                  ltLo: int, unLo: int, gtHi: int, n: int)
    requires Split(s, ec, lo, hi, med, ltLo, unLo, unLo - 1, gtHi)
    requires n == (if ltLo - lo < unLo - ltLo then ltLo - lo else unLo - ltLo)
    requires Exchanged(s, t, lo, unLo - n, n)
    ensures AllBelow(t, ec, lo, lo + unLo - ltLo, med) && AllEqual(t, ec, lo + unLo - ltLo, unLo, med)
    ensures AllAbove(t, ec, unLo, gtHi + 1, med) && AllEqual(t, ec, gtHi + 1, hi + 1, med)
  {
  }

  lemma GatherHigh(s: seq<int>, t: seq<int>, ec: seq<int>, lo: int, hi: int, med: int,
                   below: int, unLo: int, gtHi: int, m: int)
    requires 0 <= lo <= below <= unLo <= gtHi + 1 <= hi + 1 <= |s|
    requires AllBelow(s, ec, lo, below, med) && AllEqual(s, ec, below, unLo, med)
    requires AllAbove(s, ec, unLo, gtHi + 1, med) && AllEqual(s, ec, gtHi + 1, hi + 1, med)
    requires m == (if hi - gtHi < gtHi - unLo + 1 then hi - gtHi else gtHi - unLo + 1)
    requires Exchanged(s, t, unLo, hi - m + 1, m)
    ensures ThreeWay(t, ec, lo, hi, med, below - 1, hi - (gtHi - unLo + 1) + 1)
  {
  }

  /** Partition and gather. `n` ends the lower part, `m` starts the upper one. */
  method ThreeWayPartition(fmap: array<int>, ec: seq<int>, lo: int, hi: int, med: int) returns (n: int, m: int)
    requires 0 <= lo <= hi < fmap.Length && Indices(fmap[..], ec, lo, hi + 1)
    modifies fmap
    ensures Permuted(old(fmap[..]), fmap[..], lo, hi + 1) && Indices(fmap[..], ec, lo, hi + 1)
    ensures ThreeWay(fmap[..], ec, lo, hi, med, n, m)
  {
    hide Permuted, Indices, AllEqual, AllBelow, AllAbove;
    ghost var start := fmap[..];
    var ltLo, unLo, unHi, gtHi := Partition(fmap, ec, lo, hi, med);
    if gtHi < ltLo {
      AllEqualToMedian(fmap[..], ec, lo, hi, med, ltLo, unLo, gtHi);
      return lo - 1, hi + 1;
    }
    ghost var split := fmap[..];
    var k := if ltLo - lo < unLo - ltLo then ltLo - lo else unLo - ltLo;
    ExchangeBlocks(fmap, start, ec, lo, hi, lo, unLo - k, k);
    ghost var low := fmap[..];
    GatherLow(split, low, ec, lo, hi, med, ltLo, unLo, gtHi, k);
    k := if hi - gtHi < gtHi - unHi then hi - gtHi else gtHi - unHi;
    ExchangeBlocks(fmap, start, ec, lo, hi, unLo, hi - k + 1, k);
    GatherHigh(low, fmap[..], ec, lo, hi, med, lo + unLo - ltLo, unLo, gtHi, k);
    n := lo + unLo - ltLo - 1;
    m := hi - (gtHi - unHi) + 1;
  }

  lemma AllEqualToMedian(s: seq<int>, ec: seq<int>, lo: int, hi: int, med: int, ltLo: int, unLo: int, gtHi: int)
    requires Split(s, ec, lo, hi, med, ltLo, unLo, unLo - 1, gtHi) && gtHi < ltLo
    ensures ThreeWay(s, ec, lo, hi, med, lo - 1, hi + 1)
  {
  }

  // ---------------------------------------------------------------- the explicit stack

  datatype Range = Range(lo: int, hi: int)

  function Size(r: Range): int {
    r.hi - r.lo + 1
  }

  predicate Within(r: Range, p: int) {
    r.lo <= p <= r.hi
  }

  /** The ranges still to be sorted lie in `[lo, hi]` and do not overlap. */
  ghost predicate Ranges(stack: seq<Range>, lo: int, hi: int) {
    && (forall i :: 0 <= i < |stack| ==> lo <= stack[i].lo <= stack[i].hi + 1 <= hi + 1)
    && (forall i, j, p :: 0 <= i < j < |stack| && Within(stack[i], p) ==> !Within(stack[j], p))
  }

  /** The two positions are in one unsorted range. */
  ghost predicate Together(stack: seq<Range>, p: int, q: int) {
    exists i :: 0 <= i < |stack| && Within(stack[i], p) && Within(stack[i], q)
  }

  /** Everything is in order except inside an unsorted range. */
  ghost predicate Ordered(s: seq<int>, ec: seq<int>, stack: seq<Range>, lo: int, hi: int) {
    && 0 <= lo && hi < |s|
    && forall p, q :: lo <= p < q <= hi ==> Together(stack, p, q) || Key(ec, s[p]) <= Key(ec, s[q])
  }

  /** Rearranging the top range so that only some pieces of it are out of order. */
  lemma OrderedAfterPop(s: seq<int>, t: seq<int>, ec: seq<int>, stack: seq<Range>, r: Range, pieces: seq<Range>,
                        lo: int, hi: int)
    requires Ranges(stack + [r], lo, hi) && Ordered(s, ec, stack + [r], lo, hi)
    requires Permuted(s, t, r.lo, r.hi + 1) && 0 <= lo && hi < |s|
    requires forall p, q :: r.lo <= p < q <= r.hi ==> Together(pieces, p, q) || Key(ec, t[p]) <= Key(ec, t[q])
    ensures Ordered(t, ec, stack + pieces, lo, hi)
  {
    assert (stack + [r])[|stack|] == r;
    forall p, q | lo <= p < q <= hi
      ensures Together(stack + pieces, p, q) || Key(ec, t[p]) <= Key(ec, t[q])
    {
      if Within(r, p) && Within(r, q) {
        TogetherInPieces(stack, pieces, p, q);
      } else {
        var p' := CameFrom(s, t, r, p);
        var q' := CameFrom(s, t, r, q);
        assert p' < q';
        if Together(stack + [r], p', q') {
          TogetherBelow(stack, r, pieces, lo, hi, p, q, p', q');
        }
      }
    }
  }

  lemma TogetherInPieces(stack: seq<Range>, pieces: seq<Range>, p: int, q: int)
    ensures Together(pieces, p, q) ==> Together(stack + pieces, p, q)
  {
    if i :| 0 <= i < |pieces| && Within(pieces[i], p) && Within(pieces[i], q) {
      assert (stack + pieces)[|stack| + i] == pieces[i];
    }
  }

  lemma CameFrom(s: seq<int>, t: seq<int>, r: Range, p: int) returns (p': int)
    requires Permuted(s, t, r.lo, r.hi + 1) && 0 <= p < |s|
    ensures 0 <= p' < |s| && t[p] == s[p']
    ensures if Within(r, p) then Within(r, p') else p' == p
  {
    if Within(r, p) {
      p' := FromRange(s, t, r.lo, r.hi + 1, p);
    } else {
      OutsideRange(s, t, r.lo, r.hi + 1, p);
      p' := p;
    }
  }

  /** Not both in the top range, so in one below it. */
  lemma TogetherBelow(stack: seq<Range>, r: Range, pieces: seq<Range>, lo: int, hi: int, p: int, q: int, p': int, q': int)
    requires Ranges(stack + [r], lo, hi) && Together(stack + [r], p', q')
    requires !(Within(r, p) && Within(r, q))
    requires if Within(r, p) then Within(r, p') else p' == p
    requires if Within(r, q) then Within(r, q') else q' == q
    ensures Together(stack + pieces, p, q)
  {
    var all := stack + [r];
    var i :| 0 <= i < |all| && Within(all[i], p') && Within(all[i], q');
    assert all[|stack|] == r;
    assert i < |stack|;
    assert !Within(r, p') && !Within(r, q');
    assert (stack + pieces)[i] == stack[i];
  }

  lemma RangesAfterPop(stack: seq<Range>, r: Range, a: Range, b: Range, lo: int, hi: int)
    requires Ranges(stack + [r], lo, hi)
    requires r.lo <= a.lo <= a.hi + 1 <= r.hi + 1 && r.lo <= b.lo <= b.hi + 1 <= r.hi + 1
    requires a.hi < b.lo || b.hi < a.lo
    ensures Ranges(stack, lo, hi) && Ranges(stack + [a, b], lo, hi)
  {
    var all, next := stack + [r], stack + [a, b];
    assert all[|stack|] == r;
    forall i | 0 <= i < |stack|
      ensures stack[i] == all[i] == next[i]
    {
    }
    forall i, j, p | 0 <= i < j < |next| && Within(next[i], p)
      ensures !Within(next[j], p)
    {
      if j < |stack| {
        assert next[j] == all[j];
      } else if i < |stack| {
        assert Within(next[j], p) ==> Within(r, p);
      }
    }
  }

  // ---------------------------------------------------------------- the depth of the stack

  function Pow2(k: nat): (p: nat)
    ensures p >= 1
  {
    if k == 0 then 1 else 2 * Pow2(k - 1)
  }

  /** Sizes halve from each stack position to the next, and only the top range may be empty. */
  ghost predicate Halving(stack: seq<Range>, total: int) {
    && (forall i :: 0 <= i < |stack| ==> 0 <= Size(stack[i]) && Size(stack[i]) * Pow2(i) <= total)
    && (forall i :: 0 <= i < |stack| - 1 ==> Size(stack[i]) >= 1)
  }

  lemma HalvingBoundsDepth(stack: seq<Range>, total: int)
    requires Halving(stack, total) && |stack| >= 2
    ensures Pow2(|stack| - 2) <= total
  {
    var i := |stack| - 2;
    assert Size(stack[i]) * Pow2(i) >= 1 * Pow2(i);
  }

  lemma {:induction false} Pow2Grows(j: nat, k: nat)
    requires j <= k
    ensures Pow2(j) <= Pow2(k)
    decreases k
  {
    if j < k {
      Pow2Grows(j, k - 1);
    }
  }

  lemma DepthBelow(depth: nat, total: int, bits: nat)
    requires depth >= 2 ==> Pow2(depth - 2) <= total
    requires total < Pow2(bits)
    ensures depth <= bits + 1 || depth < 2
  {
    if depth >= 2 && depth - 2 >= bits {
      Pow2Grows(bits, depth - 2);
    }
  }

  lemma HalvingAfterPop(stack: seq<Range>, r: Range, large: Range, small: Range, total: int)
    requires Halving(stack + [r], total)
    requires Size(large) >= Size(small) >= 0 && Size(large) >= 1 && Size(large) + Size(small) < Size(r)
    ensures Halving(stack + [large, small], total)
  {
    var all, next, d := stack + [r], stack + [large, small], |stack|;
    assert all[d] == r && next[d] == large && next[d + 1] == small;
    assert Size(r) * Pow2(d) <= total;
    Scaled(Size(large), Size(r), Pow2(d));
    Scaled(2 * Size(small), Size(r), Pow2(d));
    assert Size(small) * Pow2(d + 1) == 2 * Size(small) * Pow2(d);
    forall i | 0 <= i < |stack|
      ensures next[i] == all[i]
    {
    }
  }

  lemma Scaled(a: int, b: int, p: nat)
    requires a <= b
    ensures a * p <= b * p
  {
  }

  lemma HalvingBelow(stack: seq<Range>, r: Range, total: int)
    requires Halving(stack + [r], total)
    ensures Halving(stack, total)
  {
    forall i | 0 <= i < |stack|
      ensures stack[i] == (stack + [r])[i]
    {
    }
  }

  /** Work left: the loop's measure. */
  function Weight(stack: seq<Range>): int {
    if stack == [] then 0 else Weight(stack[..|stack| - 1]) + 2 * Size(stack[|stack| - 1]) + 1
  }

  lemma WeightPush(stack: seq<Range>, r: Range)
    ensures Weight(stack + [r]) == Weight(stack) + 2 * Size(r) + 1
  {
    assert (stack + [r])[..|stack|] == stack;
  }

  lemma {:induction false} WeightNonnegative(stack: seq<Range>)
    requires forall i :: 0 <= i < |stack| ==> Size(stack[i]) >= 0
    ensures Weight(stack) >= 0
    decreases |stack|
  {
    if stack != [] {
      WeightNonnegative(stack[..|stack| - 1]);
    }
  }

  // ---------------------------------------------------------------- fallbackQSort3

  const SMALL_THRESH := 10
  const STACK_SIZE := 100

  /** What holds of the array and the stack between two iterations. */
  ghost predicate Progress(start: seq<int>, s: seq<int>, ec: seq<int>, stack: seq<Range>, lo: int, hi: int) {
    && 0 <= lo && hi < |s|
    && Permuted(start, s, lo, hi + 1) && Indices(s, ec, lo, hi + 1)
    && Ranges(stack, lo, hi) && Ordered(s, ec, stack, lo, hi)
    && Halving(stack, hi - lo + 1)
  }

  lemma ProgressAtStart(s: seq<int>, ec: seq<int>, lo: int, hi: int)
    requires 0 <= lo <= hi + 1 <= |s| && Indices(s, ec, lo, hi + 1)
    ensures Progress(s, s, ec, [Range(lo, hi)], lo, hi)
  {
    var stack := [Range(lo, hi)];
    assert Pow2(0) == 1;
    forall p, q | lo <= p < q <= hi
      ensures Together(stack, p, q)
    {
      assert Within(stack[0], p) && Within(stack[0], q);
    }
  }

  /** The popped range lies in bounds. */
  lemma ProgressTop(start: seq<int>, s: seq<int>, ec: seq<int>, stack: seq<Range>, r: Range, lo: int, hi: int)
    requires Progress(start, s, ec, stack + [r], lo, hi)
    ensures lo <= r.lo <= r.hi + 1 <= hi + 1 && Indices(s, ec, r.lo, r.hi + 1)
    ensures Weight(stack + [r]) == Weight(stack) + 2 * Size(r) + 1 && Weight(stack) >= 0
  {
    assert (stack + [r])[|stack|] == r;
    WeightPush(stack, r);
    forall i | 0 <= i < |stack|
      ensures Size(stack[i]) >= 0
    {
      assert (stack + [r])[i] == stack[i];
    }
    WeightNonnegative(stack);
  }

  lemma ProgressArray(start: seq<int>, s: seq<int>, t: seq<int>, ec: seq<int>, stack: seq<Range>, r: Range, lo: int, hi: int)
    requires Progress(start, s, ec, stack + [r], lo, hi) && Permuted(s, t, r.lo, r.hi + 1)
    ensures Permuted(start, t, lo, hi + 1) && Indices(t, ec, lo, hi + 1)
  {
    hide Permuted, Ordered, Halving;
    ProgressTop(start, s, ec, stack, r, lo, hi);
    PermutedTwice(start, s, t, lo, hi + 1, r.lo, r.hi + 1);
    PermutedSelf(s, lo, hi + 1);
    PermutedTwice(s, s, t, lo, hi + 1, r.lo, r.hi + 1);
    IndicesStay(s, t, ec, lo, hi + 1);
  }

  /** The range has been sorted. */
  lemma ProgressSorted(start: seq<int>, s: seq<int>, t: seq<int>, ec: seq<int>, stack: seq<Range>, r: Range,
                       lo: int, hi: int)
    requires Progress(start, s, ec, stack + [r], lo, hi) && Permuted(s, t, r.lo, r.hi + 1)
    requires Sorted(t, ec, r.lo, r.hi + 1)
    ensures Progress(start, t, ec, stack, lo, hi)
  {
    hide Permuted, Indices;
    ProgressArray(start, s, t, ec, stack, r, lo, hi);
    OrderedAfterPop(s, t, ec, stack, r, [], lo, hi);
    assert stack + [] == stack;
    ProgressTop(start, s, ec, stack, r, lo, hi);
    RangesAfterPop(stack, r, Range(r.lo, r.lo - 1), Range(r.lo, r.lo - 1), lo, hi);
    HalvingBelow(stack, r, hi - lo + 1);
  }

  /** The range has been partitioned; the larger part is pushed first. */
  lemma ProgressSplit(start: seq<int>, s: seq<int>, t: seq<int>, ec: seq<int>, stack: seq<Range>, r: Range,
                      med: int, n: int, m: int, large: Range, small: Range, lo: int, hi: int)
    requires Progress(start, s, ec, stack + [r], lo, hi) && Permuted(s, t, r.lo, r.hi + 1)
    requires ThreeWay(t, ec, r.lo, r.hi, med, n, m) && n + 1 < m && (r.lo <= n || m <= r.hi)
    requires (large == Range(r.lo, n) && small == Range(m, r.hi)) || (large == Range(m, r.hi) && small == Range(r.lo, n))
    requires Size(large) >= Size(small)
    ensures Progress(start, t, ec, stack + [large, small], lo, hi)
    ensures Weight(stack + [large, small]) < Weight(stack + [r])
  {
    hide Permuted, Indices, Halving, Ranges, Weight;
    ProgressArray(start, s, t, ec, stack, r, lo, hi);
    ProgressTop(start, s, ec, stack, r, lo, hi);
    PartsOrdered(t, ec, r, med, n, m, large, small);
    OrderedAfterPop(s, t, ec, stack, r, [large, small], lo, hi);
    RangesAfterPop(stack, r, large, small, lo, hi);
    HalvingAfterPop(stack, r, large, small, hi - lo + 1);
    assert stack + [large, small] == (stack + [large]) + [small];
    WeightPush(stack, large);
    WeightPush(stack + [large], small);
  }

  lemma PartsOrdered(t: seq<int>, ec: seq<int>, r: Range, med: int, n: int, m: int, large: Range, small: Range)
    requires ThreeWay(t, ec, r.lo, r.hi, med, n, m)
    requires (large == Range(r.lo, n) && small == Range(m, r.hi)) || (large == Range(m, r.hi) && small == Range(r.lo, n))
    ensures forall p, q :: r.lo <= p < q <= r.hi ==>
              Together([large, small], p, q) || Key(ec, t[p]) <= Key(ec, t[q])
  {
    forall p, q | r.lo <= p < q <= r.hi
      ensures Together([large, small], p, q) || Key(ec, t[p]) <= Key(ec, t[q])
    {
      var parts := [large, small];
      assert Within(parts[0], p) && Within(parts[0], q) ==> Together(parts, p, q);
      assert Within(parts[1], p) && Within(parts[1], q) ==> Together(parts, p, q);
    }
  }

  /** Everything equals the median. */
  lemma AllEqualSorted(t: seq<int>, ec: seq<int>, lo: int, hi: int, med: int)
    requires ThreeWay(t, ec, lo, hi, med, lo - 1, hi + 1)
    ensures Sorted(t, ec, lo, hi + 1)
  {
  }

  /** The median is a key of the range, so the middle part is not empty. */
  lemma MiddleNonempty(s: seq<int>, t: seq<int>, ec: seq<int>, lo: int, hi: int, p: int, n: int, m: int)
    requires Permuted(s, t, lo, hi + 1) && lo <= p <= hi
    requires ThreeWay(t, ec, lo, hi, Key(ec, s[p]), n, m)
    ensures n + 1 < m
  {
    PermutedBack(s, t, lo, hi + 1);
    var q := FromRange(t, s, lo, hi + 1, p);
  }

  lemma PermutedBack(s: seq<int>, t: seq<int>, lo: int, hi: int)
    requires Permuted(s, t, lo, hi)
    ensures Permuted(t, s, lo, hi)
  {
  }

  lemma NothingLeft(start: seq<int>, s: seq<int>, ec: seq<int>, lo: int, hi: int)
    requires Progress(start, s, ec, [], lo, hi)
    ensures Permuted(start, s, lo, hi + 1) && Sorted(s, ec, lo, hi + 1)
  {
    assert forall p, q :: !Together([], p, q);
  }

  /** The range is popped, sorted or partitioned, and its parts are pushed. */
  method SortOrSplit(fmap: array<int>, ec: seq<int>, ghost start: seq<int>, rest: seq<Range>, top: Range, r3: nat,
                     ghost loSt: int, ghost hiSt: int)
    returns (stack: seq<Range>)
    requires hiSt < fmap.Length && Progress(start, fmap[..], ec, rest + [top], loSt, hiSt)
    modifies fmap
    ensures Progress(start, fmap[..], ec, stack, loSt, hiSt)
    ensures 0 <= Weight(stack) < Weight(rest + [top])
  {
    hide Progress, Permuted, Indices, Sorted, ThreeWay;
    ghost var before := fmap[..];
    ProgressTop(start, before, ec, rest, top, loSt, hiSt);
    ProgressBounds(start, before, ec, rest + [top], loSt, hiSt);
    var lo, hi := top.lo, top.hi;
    if hi - lo < SMALL_THRESH {
      FallbackSimpleSort(fmap, ec, lo, hi);
      ProgressSorted(start, before, fmap[..], ec, rest, top, loSt, hiSt);
      return rest;
    }
    var p := if r3 == 0 then lo else if r3 == 1 then (lo + hi) / 2 else hi;
    assert 0 <= fmap[p] < |ec| by { IndexAt(before, ec, lo, hi + 1, p); }
    var med := ec[fmap[p]];
    var n, m := ThreeWayPartition(fmap, ec, lo, hi, med);
    MiddleNonempty(before, fmap[..], ec, lo, hi, p, n, m);
    ThreeWayBounds(fmap[..], ec, lo, hi, med, n, m);
    if n < lo && m > hi {
      AllEqualSorted(fmap[..], ec, lo, hi, med);
      ProgressSorted(start, before, fmap[..], ec, rest, top, loSt, hiSt);
      return rest;
    }
    var large, small := Range(m, hi), Range(lo, n);
    if n - lo > hi - m {
      large, small := small, large;
    }
    stack := rest + [large, small];
    ProgressSplit(start, before, fmap[..], ec, rest, top, med, n, m, large, small, loSt, hiSt);
    ProgressWeight(start, fmap[..], ec, stack, loSt, hiSt);
  }

  lemma IndexAt(s: seq<int>, ec: seq<int>, lo: int, hi: int, p: int)
    requires Indices(s, ec, lo, hi) && lo <= p < hi
    ensures 0 <= s[p] < |ec|
  {
  }

  lemma ThreeWayBounds(s: seq<int>, ec: seq<int>, lo: int, hi: int, med: int, n: int, m: int)
    requires ThreeWay(s, ec, lo, hi, med, n, m)
    ensures lo <= n + 1 <= m <= hi + 1
  {
  }

  lemma ProgressBounds(start: seq<int>, s: seq<int>, ec: seq<int>, stack: seq<Range>, lo: int, hi: int)
    requires Progress(start, s, ec, stack, lo, hi)
    ensures 0 <= lo <= hi + 1 <= |s|
    ensures |stack| >= 2 ==> Pow2(|stack| - 2) <= hi - lo + 1
  {
    if |stack| >= 2 {
      HalvingBoundsDepth(stack, hi - lo + 1);
    }
  }

  lemma ProgressWeight(start: seq<int>, s: seq<int>, ec: seq<int>, stack: seq<Range>, lo: int, hi: int)
    requires Progress(start, s, ec, stack, lo, hi)
    ensures Weight(stack) >= 0
  {
    WeightNonnegative(stack);
  }

  /** The number of bits of an `Int32` index. */
  const INDEX_BITS: nat := 31

  lemma StackFits(start: seq<int>, s: seq<int>, ec: seq<int>, stack: seq<Range>, lo: int, hi: int)
    requires Progress(start, s, ec, stack, lo, hi) && |s| < Pow2(INDEX_BITS)
    ensures |stack| <= INDEX_BITS + 1 < STACK_SIZE
  {
    hide Progress;
    ProgressBounds(start, s, ec, stack, lo, hi);
    DepthBelow(|stack|, hi - lo + 1, INDEX_BITS);
  }

  /**
   * `[loSt, hiSt]` is sorted by class, nothing outside is touched and the explicit stack never holds
   * more than 32 ranges.
   */
  method FallbackQSort3(fmap: array<int>, ec: seq<int>, loSt: int, hiSt: int)
    requires 0 <= loSt <= hiSt + 1 <= fmap.Length < Pow2(INDEX_BITS) && Indices(fmap[..], ec, loSt, hiSt + 1)
    modifies fmap
    ensures Permuted(old(fmap[..]), fmap[..], loSt, hiSt + 1)
    ensures Sorted(fmap[..], ec, loSt, hiSt + 1)
  {
    hide Progress, Permuted, Sorted;
    ghost var start := fmap[..];
    ProgressAtStart(start, ec, loSt, hiSt);
    var r := 0;
    var stack := [Range(loSt, hiSt)];
    ProgressWeight(start, start, ec, stack, loSt, hiSt);
    while |stack| > 0
      invariant Progress(start, fmap[..], ec, stack, loSt, hiSt) && Weight(stack) >= 0
      decreases Weight(stack)
    {
      StackFits(start, fmap[..], ec, stack, loSt, hiSt);
      assert |stack| < STACK_SIZE;
      var rest, top := stack[..|stack| - 1], stack[|stack| - 1];
      assert rest + [top] == stack;
      if top.hi - top.lo >= SMALL_THRESH {
        r := (r * 7621 + 1) % 32768;
      }
      stack := SortOrSplit(fmap, ec, start, rest, top, r % 3, loSt, hiSt);
    }
    NothingLeft(start, fmap[..], ec, loSt, hiSt);
  }
}
