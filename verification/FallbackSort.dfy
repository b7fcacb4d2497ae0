/**
 * The fallback block sort (benchmarks/simpl/bzip2/src/blocksort.c, `fallbackSort`): a radix pass on the
 * first byte, then passes that each double the sorted prefix, then reconstruction of the block. Header
 * bits are kept in an array of 32-bit words, modelled as booleans in groups of 32.
 */
module FallbackSort {
  import opened SerializerTypes
  import opened Rotations
  import opened QuickSort
  import opened PrefixDoubling
  import opened ByteCounts

  // ---------------------------------------------------------------- the radix pass

  /** The distribution loop. */
  method Distribute(t: seq<int>, fmap: array<int>, ftab: array<int>)
    requires Bytes(t) && |t| > 0 && fmap.Length == |t| && ftab.Length == 257 && fmap != ftab
    requires forall c :: 0 <= c < 257 ==> ftab[c] == Start(t, c) + Count(t, c, 0)
    modifies fmap, ftab
    ensures forall c :: 0 <= c < 256 ==> ftab[c] == Start(t, c)
    ensures Bucketed(t, fmap[..])
  {
    hide Start;
    ghost var pos: seq<int> := [];
    assert Filled(t, fmap[..], ftab[..], pos, 0) by { FilledAtStart(t, fmap[..], ftab[..]); }
    for i := 0 to |t|
      invariant Filled(t, fmap[..], ftab[..], pos, i)
    {
      FilledNext(t, fmap[..], ftab[..], pos, i);
      var j := t[i];
      var k := ftab[j] - 1;
      ghost var f, g := fmap[..], ftab[..];
      ftab[j] := k;
      fmap[k] := i;
      pos := pos + [k];
      assert fmap[..] == f[k := i] && ftab[..] == g[j := k];
    }
    FilledAtEnd(t, fmap[..], ftab[..], pos);
  }

  lemma FilledAtStart(t: seq<int>, f: seq<int>, ftab: seq<int>)
    requires Bytes(t) && |f| == |t| && |ftab| == 257
    requires forall c :: 0 <= c < 257 ==> ftab[c] == Start(t, c) + Count(t, c, 0)
    ensures Filled(t, f, ftab, [], 0)
  {
    forall c | 0 <= c < 256
      ensures ftab[c] == Start(t, c + 1)
    {
      SmallerNext(t, c, 0);
    }
  }

  /** The list is complete and grouped by first byte, bucket `c` starting at `Start(t, c)`. */
  ghost predicate Bucketed(t: seq<int>, f: seq<int>) {
    && Complete(f, |t|)
    && forall a :: 0 <= a < |t| ==> 0 <= t[f[a]] < 256 && Start(t, t[f[a]]) <= a < Start(t, t[f[a]] + 1)
  }

  lemma FilledAtEnd(t: seq<int>, f: seq<int>, ftab: seq<int>, pos: seq<int>)
    requires Bytes(t) && Filled(t, f, ftab, pos, |t|)
    ensures forall c :: 0 <= c < 256 ==> ftab[c] == Start(t, c)
    ensures Bucketed(t, f)
  {
    forall a | 0 <= a < |t|
      ensures 0 <= f[a] < |t| && pos[f[a]] == a && 0 <= t[f[a]] < 256 && Start(t, t[f[a]]) <= a < Start(t, t[f[a]] + 1)
    {
      SmallerEnds(t, 0);
      var c := Locate(t, a, 256);
      assert Placed(t, f, pos, c, a);
    }
  }

  lemma FirstByte(t: seq<int>, i: nat, j: nat)
    requires i < |t| && j < |t|
    ensures Same(t, i, j, 1) <==> t[i] == t[j]
    ensures AtMost(t, i, j, 1) <==> t[i] <= t[j]
  {
    SymSmall(t, i);
    SymSmall(t, j);
    assert Agree(t, i, j, 0) <==> t[i] == t[j];
    assert DiffersAt(t, i, j, 0) <==> t[i] < t[j];
  }

  lemma SymSmall(t: seq<int>, x: nat)
    requires x < |t|
    ensures Sym(t, x) == t[x]
  {
    assert x == |t| * (x / |t|) + x % |t|;
  }

  lemma BucketedSorted(t: seq<int>, f: seq<int>)
    requires |t| > 0 && Bucketed(t, f)
    ensures SortedTo(t, f, |t|, 1)
    ensures forall a, b :: 0 <= a < b < |t| ==> t[f[a]] <= t[f[b]]
  {
    hide AtMost, Start;
    forall a, b | 0 <= a < b < |t|
      ensures AtMost(t, f[a], f[b], 1) && t[f[a]] <= t[f[b]]
    {
      if t[f[b]] < t[f[a]] {
        StartMonotone(t, t[f[b]] + 1, t[f[a]]);
      }
      FirstByte(t, f[a], f[b]);
    }
  }

  /** A bucket starts at `a`. */
  ghost predicate IsStart(t: seq<int>, a: int) {
    exists c :: 0 <= c < 256 && Start(t, c) == a
  }

  lemma BucketedHeader(t: seq<int>, f: seq<int>, a: int)
    requires |t| > 0 && Bytes(t) && Bucketed(t, f) && 0 <= a < |t|
    ensures IsStart(t, a) <==> Changes(t, f, a, 1)
  {
    hide Same, Start;
    if a == 0 {
      SmallerEnds(t, 0);
      assert Start(t, 0) == 0 by { StartIs(t, 0); }
    } else {
      BucketedSorted(t, f);
      FirstByte(t, f[a - 1], f[a]);
      var x, y := t[f[a - 1]], t[f[a]];
      if IsStart(t, a) {
        var c :| 0 <= c < 256 && Start(t, c) == a;
        if c <= x {
          StartMonotone(t, c, x);
        }
        if y < c {
          StartMonotone(t, y + 1, c);
        }
      }
      if x < y {
        StartMonotone(t, x + 1, y);
        assert Start(t, y) == a;
      }
    }
  }

  lemma StartIs(t: seq<int>, c: int)
    ensures Start(t, c) == Smaller(t, c, 0)
  {
  }

  // ---------------------------------------------------------------- header bits

  /** Alternating bits behind the block stop every scan. */
  ghost predicate Sentinels(bh: seq<bool>, n: nat) {
    && |bh| % 32 == 0 && |bh| >= n + 64
    && forall i :: 0 <= i < 32 ==> bh[n + 2 * i] && !bh[n + 2 * i + 1]
  }

  /** Clear the bits, mark the bucket starts and set the sentinels. */
  method InitHeaders(bh: array<bool>, ftab: array<int>, n: nat)
    requires bh.Length % 32 == 0 && bh.Length >= 32 * (3 + n / 32)
    requires ftab.Length == 257 && forall c :: 0 <= c < 256 ==> 0 <= ftab[c] <= n
    modifies bh
    ensures Sentinels(bh[..], n)
    ensures forall a :: 0 <= a < n ==> (bh[a] <==> exists c :: 0 <= c < 256 && ftab[c] == a)
  {
    assert n < 32 * (n / 32) + 32;
    var bits := 32 * (2 + n / 32);
    for i := 0 to bits
      invariant forall a :: 0 <= a < i ==> !bh[a]
    {
      bh[i] := false;
    }
    for i := 0 to 256
      invariant forall a :: 0 <= a < n ==> (bh[a] <==> exists c :: 0 <= c < i && ftab[c] == a)
    {
      bh[ftab[i]] := true;
    }
    for i := 0 to 32
      invariant forall a :: 0 <= a < n ==> (bh[a] <==> exists c :: 0 <= c < 256 && ftab[c] == a)
      invariant forall j :: 0 <= j < i ==> bh[n + 2 * j] && !bh[n + 2 * j + 1]
    {
      bh[n + 2 * i] := true;
      bh[n + 2 * i + 1] := false;
    }
  }

  /** `WORD_BH(k)` is all ones, or all zeros. */
  predicate WordIs(bh: array<bool>, k: nat, b: bool)
    requires k + 32 <= bh.Length
    reads bh
  {
    forall q :: k <= q < k + 32 ==> bh[q] == b
  }

  /**
   * The first bit at or after `start` that differs from `b`, skipping whole words. Some sentinel stops
   * the scan at `last` at the latest.
   */
  method SkipBits(bh: array<bool>, start: nat, b: bool, ghost last: nat) returns (k: nat)
    requires start <= last && last + 32 < bh.Length && bh[last] != b
    ensures start <= k <= last && bh[k] != b
    ensures forall q :: start <= q < k ==> bh[q] == b
  {
    k := start;
    while bh[k] == b && k % 32 != 0
      invariant start <= k <= last && forall q :: start <= q < k ==> bh[q] == b
      decreases last - k
    {
      k := k + 1;
    }
    if bh[k] == b {
      while WordIs(bh, k, b)
        invariant start <= k <= last && forall q :: start <= q < k ==> bh[q] == b
        decreases last - k
      {
        k := k + 32;
      }
      while bh[k] == b
        invariant start <= k <= last && forall q :: start <= q < k ==> bh[q] == b
        decreases last - k
      {
        k := k + 1;
      }
    }
  }

  /** `[l, r]` is the next bucket with more than one member; `l >= n` when there is none. */
  method NextBucket(bh: array<bool>, start: nat, n: nat) returns (l: nat, r: nat)
    requires start <= n && Sentinels(bh[..], n) && bh[start]
    ensures start <= l && forall q :: start <= q <= l && q < n ==> bh[q]
    ensures l < n ==> l < r < n && (forall q :: l < q <= r ==> !bh[q]) && bh[r + 1]
  {
    assert bh[..][n] && !bh[..][n + 1] by { assert bh[..][n + 2 * 0] && !bh[..][n + 2 * 0 + 1]; }
    var k := SkipBits(bh, start, true, n + 1);
    l, r := k - 1, 0;
    if l >= n {
      return;
    }
    k := SkipBits(bh, k, false, n);
    r := k - 1;
  }

  // ---------------------------------------------------------------- one pass

  /** The first loop of a pass: the class of a position is the bucket `h` bytes further on. */
  method AssignClasses(fmap: array<int>, bh: array<bool>, eclass: array<int>, h: nat)
    requires Complete(fmap[..], fmap.Length) && bh.Length >= fmap.Length == eclass.Length > 0
    requires fmap != eclass && h <= fmap.Length && bh[0]
    modifies eclass
    ensures ClassesAssigned(fmap[..], bh[..], eclass[..], fmap.Length, h, fmap.Length)
    ensures forall x :: 0 <= x < eclass.Length ==> eclass[x] >= 0
  {
    var n := fmap.Length;
    var j := 0;
    for i := 0 to n
      invariant i > 0 ==> j == Head(bh[..], i - 1)
      invariant ClassesAssigned(fmap[..], bh[..], eclass[..], n, h, i)
    {
      if bh[i] {
        j := i;
      }
      assert j == Head(bh[..], i);
      var k := fmap[i] - h;
      if k < 0 {
        k := k + n;
      }
      assert k == Before(fmap[i], h, n);
      ghost var before := eclass[..];
      eclass[k] := j;
      AssignedNext(fmap[..], bh[..], before, n, h, i, k, j);
      assert eclass[..] == before[k := j];
    }
    forall x | 0 <= x < n
      ensures eclass[x] >= 0
    {
      AllAssigned(fmap[..], bh[..], eclass[..], n, h, x);
    }
  }

  lemma AssignedNext(f: seq<int>, bh: seq<bool>, ec: seq<int>, n: nat, h: nat, i: nat, k: int, j: int)
    requires Complete(f, n) && |bh| >= n && h <= n && |ec| == n && i < n
    requires ClassesAssigned(f, bh, ec, n, h, i) && k == Before(f[i], h, n) && j == Head(bh, i)
    ensures 0 <= k < n && ClassesAssigned(f, bh, ec[k := j], n, h, i + 1)
  {
    forall a | 0 <= a < i
      ensures Before(f[a], h, n) != k
    {
      assert f[a] != f[i];
    }
  }

  lemma AllAssigned(f: seq<int>, bh: seq<bool>, ec: seq<int>, n: nat, h: nat, x: nat)
    requires Complete(f, n) && |bh| >= n && h <= n && |ec| == n && x < n
    requires ClassesAssigned(f, bh, ec, n, h, n)
    ensures ec[x] >= 0
  {
    var u := if x + h >= n then x + h - n else x + h;
    if u == n {
      u := 0;
    }
    var i := CompleteHits(f, n, u);
    assert Before(f[i], h, n) == x;
  }

  /** Mark where the class changes inside a sorted bucket. */
  method ScanBucket(bh: array<bool>, ec: seq<int>, fmap: array<int>, l: nat, r: nat)
    requires l <= r < fmap.Length <= bh.Length && Indices(fmap[..], ec, l, r + 1)
    requires forall x :: 0 <= x < |ec| ==> ec[x] >= 0
    requires forall a :: l < a <= r ==> !bh[a]
    modifies bh
    ensures Scanned(ec, fmap[..], old(bh[..]), bh[..], l, r)
  {
    var cc := -1;
    for i := l to r + 1
      invariant cc == if i == l then -1 else ec[fmap[i - 1]]
      invariant forall a :: 0 <= a < bh.Length && !(l <= a < i) ==> bh[a] == old(bh[a])
      invariant i > l ==> bh[l]
      invariant forall a :: l < a < i ==> bh[a] == (Key(ec, fmap[..][a - 1]) != Key(ec, fmap[..][a]))
    {
      var cc1 := ec[fmap[i]];
      if cc != cc1 {
        bh[i] := true;
        cc := cc1;
      }
    }
  }

  /** Sort one bucket by class and mark its parts. */
  method RefineOne(ghost t: seq<int>, fmap: array<int>, ec: seq<int>, bh: array<bool>, l: nat, r: nat, ghost h: nat)
    requires fmap.Length == |t| == |ec| < Pow2(INDEX_BITS) && |t| <= bh.Length
    requires Pass(t, fmap[..], bh[..], l, h) && l <= r < |t| && Sentinels(bh[..], |t|)
    requires forall a :: l < a <= r ==> !bh[a]
    requires bh[r + 1]
    requires Classes(t, ec, h) && forall x :: 0 <= x < |ec| ==> ec[x] >= 0
    modifies fmap, bh
    ensures Pass(t, fmap[..], bh[..], r + 1, h) && Sentinels(bh[..], |t|)
  {
    hide Pass, Permuted, Sorted, Classes;
    ghost var f, b := fmap[..], bh[..];
    IndicesOfPass(t, f, b, l, h, ec);
    FallbackQSort3(fmap, ec, l, r);
    ghost var g := fmap[..];
    IndicesStay(f, g, ec, l, r + 1);
    ScanBucket(bh, ec, fmap, l, r);
    SentinelsStay(b, bh[..], |t|);
    RefineBucket(t, f, g, ec, b, bh[..], l, r, h);
  }

  lemma IndicesOfPass(t: seq<int>, f: seq<int>, bh: seq<bool>, k: int, h: nat, ec: seq<int>)
    requires Pass(t, f, bh, k, h) && |ec| == |t|
    ensures |f| == |t| && forall lo, hi :: 0 <= lo && hi <= |t| ==> Indices(f, ec, lo, hi)
  {
    hide SortedTo, Headers;
  }

  lemma SentinelsStay(b: seq<bool>, b': seq<bool>, n: nat)
    requires Sentinels(b, n) && |b'| == |b| && forall a :: n <= a < |b| ==> b'[a] == b[a]
    ensures Sentinels(b', n)
  {
  }

  /** The classes for a pass at depth `h`. */
  method StartPass(ghost t: seq<int>, fmap: array<int>, eclass: array<int>, bh: array<bool>, h: nat)
    requires fmap != eclass && fmap.Length == eclass.Length == |t|
    requires h <= |t| <= bh.Length && Pass(t, fmap[..], bh[..], 0, h)
    modifies eclass
    ensures Classes(t, eclass[..], h) && forall x :: 0 <= x < eclass.Length ==> eclass[x] >= 0
  {
    hide Pass, Classes, Headers, SortedTo;
    PassFacts(t, fmap[..], bh[..], 0, h);
    AssignClasses(fmap, bh, eclass, h);
    ClassesDecide(t, fmap[..], bh[..], eclass[..], h);
  }

  /** One pass over all buckets; `nNotDone` counts the positions that were not yet resolved. */
  method RefinePass(ghost t: seq<int>, fmap: array<int>, eclass: array<int>, bh: array<bool>, n: nat, h: nat)
    returns (nNotDone: nat)
    requires fmap != eclass && fmap.Length == eclass.Length == |t| == n < Pow2(INDEX_BITS)
    requires 1 <= h <= n <= bh.Length && Sentinels(bh[..], n) && Pass(t, fmap[..], bh[..], 0, h)
    modifies fmap, eclass, bh
    ensures Pass(t, fmap[..], bh[..], n, h) && Sentinels(bh[..], n)
    ensures nNotDone == 0 ==> forall a :: 0 <= a < n ==> bh[a]
  {
    hide Pass, Classes, Headers, SortedTo, Sentinels, Complete, Pow2;
    StartPass(t, fmap, eclass, bh, h);
    var ec := eclass[..];
    nNotDone := 0;
    var r := -1;
    while true
      invariant -1 <= r < n && Pass(t, fmap[..], bh[..], r + 1, h) && Sentinels(bh[..], n)
      invariant nNotDone == 0 ==> forall a :: 0 <= a <= r ==> bh[a]
      decreases n - r
    {
      HeaderOrSentinel(t, fmap[..], bh[..], r + 1, h);
      var l, r' := NextBucket(bh, r + 1, n);
      if l >= n {
        SkipSingletons(t, fmap[..], bh[..], r + 1, n, h);
        break;
      }
      SkipSingletons(t, fmap[..], bh[..], r + 1, l, h);
      nNotDone := nNotDone + (r' - l + 1);
      RefineOne(t, fmap, ec, bh, l, r', h);
      r := r';
    }
  }

  lemma HeaderOrSentinel(t: seq<int>, f: seq<int>, bh: seq<bool>, k: int, h: nat)
    requires Pass(t, f, bh, k, h) && Sentinels(bh, |t|)
    ensures k <= |t| < |bh| && bh[k]
  {
    hide Complete, Headers, SortedTo;
    assert bh[|t| + 2 * 0];
  }

  lemma PassFacts(t: seq<int>, f: seq<int>, bh: seq<bool>, k: int, h: nat)
    requires Pass(t, f, bh, k, h)
    ensures |t| > 0 && Complete(f, |t|) && |bh| >= |t| && 0 <= k <= |t| && (k < |t| ==> bh[k])
    ensures SortedTo(t, f, |t|, h) && (k == 0 ==> Headers(t, f, bh, 0, |t|, h))
    ensures k == |t| ==> SortedTo(t, f, |t|, h + h) && Headers(t, f, bh, 0, |t|, h + h)
  {
    hide Same, AtMost;
  }

  lemma PassStarts(t: seq<int>, f: seq<int>, bh: seq<bool>, h: nat)
    requires |t| > 0 && Complete(f, |t|) && |bh| >= |t|
    requires SortedTo(t, f, |t|, h) && Headers(t, f, bh, 0, |t|, h)
    ensures Pass(t, f, bh, 0, h)
  {
    hide Same, AtMost;
    assert bh[0] == Changes(t, f, 0, h);
  }

  // ---------------------------------------------------------------- reconstruction

  /** The bytes in list order. */
  function Listed(t: seq<int>, f: seq<int>): (g: seq<int>)
    requires forall a :: 0 <= a < |f| ==> 0 <= f[a] < |t|
    ensures |g| == |f|
  {
    seq(|f|, a requires 0 <= a < |f| => t[f[a]])
  }

  ghost function Where(s: seq<int>, c: int, i: nat): set<int> {
    set a | i <= a < |s| && s[a] == c
  }

  lemma {:induction false} CountIsSize(s: seq<int>, c: int, i: nat)
    requires i <= |s|
    ensures Count(s, c, i) == |Where(s, c, i)|
    decreases |s| - i
  {
    if i < |s| {
      CountIsSize(s, c, i + 1);
      assert Where(s, c, i) == Where(s, c, i + 1) + if s[i] == c then {i} else {};
    }
  }

  lemma {:induction false} ImageSize(f: seq<int>, n: nat, xs: set<int>)
    requires Complete(f, n) && forall a :: a in xs ==> 0 <= a < n
    ensures |set a | a in xs :: f[a]| == |xs|
    decreases |xs|
  {
    if xs != {} {
      var x := Element(xs);
      var rest := xs - {x};
      ImageSize(f, n, rest);
      assert (set a | a in xs :: f[a]) == (set a | a in rest :: f[a]) + {f[x]};
      assert f[x] !in (set a | a in rest :: f[a]) by {
        forall a | a in rest
          ensures f[a] != f[x]
        {
        }
      }
    }
  }

  /** Listing the bytes in another order does not change how often each occurs. */
  lemma SameCounts(t: seq<int>, f: seq<int>, c: int)
    requires Complete(f, |t|)
    ensures Count(Listed(t, f), c, 0) == Count(t, c, 0)
  {
    var g := Listed(t, f);
    var listed, there := Where(g, c, 0), Where(t, c, 0);
    CountIsSize(g, c, 0);
    CountIsSize(t, c, 0);
    ImageSize(f, |t|, listed);
    forall x | x in there
      ensures x in (set a | a in listed :: f[a])
    {
      var a := CompleteHits(f, |t|, x);
      assert a in listed;
    }
    assert (set a | a in listed :: f[a]) == there;
  }

  lemma {:induction false} NoneSmaller(g: seq<int>, c: int, i: nat)
    requires i < |g| && forall a, b :: 0 <= a < b < |g| ==> g[a] <= g[b]
    ensures c < g[i] ==> Count(g, c, i) == 0
    ensures Count(g, g[i], i) >= 1
    decreases |g| - i
  {
    if i + 1 < |g| {
      NoneSmaller(g, c, i + 1);
    }
  }

  /** Writes byte `j` back as often as it occurred, in list order. */
  method Reconstruct(ghost t: seq<int>, fmap: array<int>, ftabCopy: array<int>, block: array<int>)
    requires Bytes(t) && fmap.Length == block.Length == |t| && Complete(fmap[..], |t|) && ftabCopy.Length == 256
    requires fmap != block && ftabCopy != block && fmap != ftabCopy
    requires forall a, b :: 0 <= a < b < |t| ==> t[fmap[a]] <= t[fmap[b]]
    requires forall c :: 0 <= c < 256 ==> ftabCopy[c] == Count(t, c, 0)
    modifies block, ftabCopy
    ensures block[..] == t
  {
    ghost var f := fmap[..];
    ghost var g := Listed(t, f);
    forall c | 0 <= c < 256
      ensures ftabCopy[c] == Count(g, c, 0)
    {
      SameCounts(t, f, c);
    }
    var j := 0;
    for i := 0 to fmap.Length
      invariant fmap[..] == f
      invariant 0 <= j < 256 && (i < |g| ==> j <= g[i])
      invariant forall c :: 0 <= c < 256 ==> ftabCopy[c] == Count(g, c, i)
      invariant forall a :: 0 <= a < i ==> block[f[a]] == t[f[a]]
    {
      NoneSmaller(g, 0, i);
      while ftabCopy[j] == 0
        invariant 0 <= j <= g[i]
        decreases g[i] - j
      {
        j := j + 1;
      }
      NoneSmaller(g, j, i);
      assert j == g[i];
      ftabCopy[j] := ftabCopy[j] - 1;
      block[fmap[i]] := j;
    }
    forall x | 0 <= x < |t|
      ensures block[x] == t[x]
    {
      var a := CompleteHits(f, |t|, x);
    }
  }

  // ---------------------------------------------------------------- fallbackSort

  /** The sort at depth `h`: in order, headers exact, sentinels in place. */
  ghost predicate AtDepth(t: seq<int>, f: seq<int>, bh: seq<bool>, h: nat) {
    && |t| > 0 && Complete(f, |t|) && |bh| >= |t| && Sentinels(bh, |t|)
    && SortedTo(t, f, |t|, h) && Headers(t, f, bh, 0, |t|, h)
  }

  /** The radix pass leaves the list sorted on one byte. */
  method RadixPass(t: seq<int>, fmap: array<int>, bh: array<bool>) returns (ftabCopy: array<int>)
    requires Bytes(t) && |t| > 0 && fmap.Length == |t|
    requires bh.Length % 32 == 0 && bh.Length >= 32 * (3 + |t| / 32)
    modifies fmap, bh
    ensures AtDepth(t, fmap[..], bh[..], 1)
    ensures fresh(ftabCopy) && ftabCopy.Length == 256 && forall c :: 0 <= c < 256 ==> ftabCopy[c] == Count(t, c, 0)
  {
    hide Start, Count, Complete, Headers, SortedTo;
    var ftab := CountBytes(t);
    ftabCopy := new int[256];
    for i := 0 to 256
      invariant forall c :: 0 <= c < i ==> ftabCopy[c] == Count(t, c, 0)
      modifies ftabCopy
    {
      ftabCopy[i] := ftab[i];
    }
    Accumulate(t, ftab);
    Distribute(t, fmap, ftab);
    forall c | 0 <= c < 256
      ensures 0 <= ftab[c] <= |t|
    {
      StartWithin(t, c);
    }
    InitHeaders(bh, ftab, |t|);
    RadixDepth(t, fmap[..], bh[..], ftab[..]);
  }

  lemma StartWithin(t: seq<int>, c: int)
    requires Bytes(t) && c <= 256
    ensures 0 <= Start(t, c) <= |t|
  {
    StartMonotone(t, c, 256);
    SmallerEnds(t, 0);
  }

  lemma RadixDepth(t: seq<int>, f: seq<int>, bh: seq<bool>, ftab: seq<int>)
    requires |t| > 0 && Bytes(t) && Bucketed(t, f) && |bh| >= |t| && Sentinels(bh, |t|) && |ftab| == 257
    requires forall c :: 0 <= c < 256 ==> ftab[c] == Start(t, c)
    requires forall a :: 0 <= a < |t| ==> (bh[a] <==> exists c :: 0 <= c < 256 && ftab[c] == a)
    ensures AtDepth(t, f, bh, 1)
  {
    hide Start, Changes, SortedTo;
    BucketedSorted(t, f);
    forall a | 0 <= a < |t|
      ensures bh[a] == Changes(t, f, a, 1)
    {
      BucketedHeader(t, f, a);
      if IsStart(t, a) {
        var c :| 0 <= c < 256 && Start(t, c) == a;
        assert ftab[c] == a;
      }
    }
  }

  /** The log(N) loop: every pass doubles the depth, until the rotations are told apart. */
  method DoublingPasses(ghost t: seq<int>, fmap: array<int>, eclass: array<int>, bh: array<bool>, n: nat)
    requires fmap != eclass && fmap.Length == eclass.Length == |t| == n < Pow2(INDEX_BITS)
    requires AtDepth(t, fmap[..], bh[..], 1)
    modifies fmap, eclass, bh
    ensures RotationsSorted(t, fmap[..])
  {
    hide Pass, RotationsSorted, Headers, SortedTo, Complete, Sentinels, Pow2;
    var h := 1;
    while true
      invariant 1 <= h <= n && AtDepth(t, fmap[..], bh[..], h)
      decreases n - h
    {
      PassStarts(t, fmap[..], bh[..], h);
      var nNotDone := RefinePass(t, fmap, eclass, bh, n, h);
      PassFacts(t, fmap[..], bh[..], n, h);
      h := h * 2;
      if h > n || nNotDone == 0 {
        FinalOrder(t, fmap[..], bh[..], h);
        break;
      }
    }
  }

  /**
   * The listed rotations are in lexicographic order and the block, whose memory the classes share, is
   * rebuilt unchanged.
   */
  method FallbackSort(fmap: array<int>, eclass: array<int>, block: array<int>, bh: array<bool>)
    requires Bytes(block[..]) && 0 < block.Length < Pow2(INDEX_BITS)
    requires fmap.Length == eclass.Length == block.Length
    requires bh.Length % 32 == 0 && bh.Length >= 32 * (3 + block.Length / 32)
    requires fmap != eclass && fmap != block && eclass != block
    modifies fmap, eclass, block, bh
    ensures RotationsSorted(old(block[..]), fmap[..])
    ensures block[..] == old(block[..])
  {
    hide Pow2, AtDepth, RotationsSorted, Count;
    ghost var t := block[..];
    var ftabCopy := RadixPass(block[..], fmap, bh);
    ghost var f, b := fmap[..], bh[..];
    // From here on the words of `eclass` overwrite the bytes of the block.
    forall i | 0 <= i < block.Length {
      block[i] := 0;
    }
    assert fmap[..] == f && bh[..] == b;
    DoublingPasses(t, fmap, eclass, bh, block.Length);
    RotationsByFirstByte(t, fmap[..]);
    Reconstruct(t, fmap, ftabCopy, block);
  }

  lemma RotationsByFirstByte(t: seq<int>, f: seq<int>)
    requires RotationsSorted(t, f)
    ensures Complete(f, |t|) && forall a, b :: 0 <= a < b < |t| ==> t[f[a]] <= t[f[b]]
  {
    hide Same, Less;
    forall a, b | 0 <= a < b < |t|
      ensures t[f[a]] <= t[f[b]]
    {
      assert AtMost(t, f[a], f[b], |t|);
      AtMostSplits(t, f[a], f[b], 1, |t| - 1);
      FirstByte(t, f[a], f[b]);
    }
  }
}
