/**
 * Why one pass of the fallback sort doubles the sorted prefix (benchmarks/simpl/bzip2/src/blocksort.c,
 * `fallbackSort`): buckets of equal `h`-byte prefixes are refined by the bucket of the rotation `h`
 * bytes further on.
 */
module PrefixDoubling {
  import opened SerializerTypes
  import opened Rotations
  import opened QuickSort

  /** `f` lists every position of the block once. */
  ghost predicate Complete(f: seq<int>, n: nat) {
    && |f| == n
    && (forall a :: 0 <= a < n ==> 0 <= f[a] < n)
    && (forall a, b :: 0 <= a < b < n ==> f[a] != f[b])
  }

  /** The listed rotations are in order on their first `h` bytes, below position `k`. */
  ghost predicate SortedTo(t: seq<int>, f: seq<int>, k: int, h: nat)
    requires |t| > 0 && Complete(f, |t|) && k <= |t|
  {
    forall a, b :: 0 <= a < b < k ==> AtMost(t, f[a], f[b], h)
  }

  /** Bucket headers in `[from, to)` stand exactly where the first `h` bytes change. */
  ghost predicate Headers(t: seq<int>, f: seq<int>, bh: seq<bool>, from: int, to: int, h: nat)
    requires |t| > 0 && Complete(f, |t|) && 0 <= from && to <= |t| && |bh| >= |t|
  {
    forall a :: from <= a < to ==> bh[a] == Changes(t, f, a, h)
  }

  ghost predicate Changes(t: seq<int>, f: seq<int>, a: int, h: nat)
    requires |t| > 0 && Complete(f, |t|) && 0 <= a < |t|
  {
    a == 0 || !Same(t, f[a - 1], f[a], h)
  }

  // ---------------------------------------------------------------- permutations

  lemma {:induction false} CompleteHits(f: seq<int>, n: nat, x: nat) returns (a: nat)
    requires Complete(f, n) && x < n
    ensures a < n && f[a] == x
  {
    if forall a :: 0 <= a < n ==> f[a] != x {
      var all := set a | 0 <= a < n :: f[a];
      Injective(f, n);
      SubsetSize(all, UpTo(n) - {x});
      assert false;
    }
    a :| 0 <= a < n && f[a] == x;
  }

  ghost function UpTo(n: nat): (s: set<int>)
    ensures |s| == n && forall y :: y in s <==> 0 <= y < n
  {
    if n == 0 then {} else UpTo(n - 1) + {n - 1}
  }

  lemma {:induction false} Injective(f: seq<int>, n: nat)
    requires |f| >= n && forall a, b :: 0 <= a < b < n ==> f[a] != f[b]
    ensures |set a | 0 <= a < n :: f[a]| == n
    decreases n
  {
    if n > 0 {
      Injective(f, n - 1);
      var before := set a | 0 <= a < n - 1 :: f[a];
      assert f[n - 1] !in before;
      assert (set a | 0 <= a < n :: f[a]) == before + {f[n - 1]};
    }
  }

  lemma CompleteStays(f: seq<int>, g: seq<int>, n: nat, lo: int, hi: int)
    requires Complete(f, n) && Permuted(f, g, lo, hi)
    ensures Complete(g, n)
  {
    forall a | 0 <= a < n
      ensures 0 <= g[a] < n
    {
      assert g[a] in multiset(g);
      assert g[a] in f;
    }
    forall a, b | 0 <= a < b < n
      ensures g[a] != g[b]
    {
      if g[a] == g[b] {
        Twice(g, a, b);
        assert multiset(f)[g[a]] >= 2;
        Once(f, n, g[a]);
        assert false;
      }
    }
  }

  lemma Twice(g: seq<int>, a: int, b: int)
    requires 0 <= a < b < |g| && g[a] == g[b]
    ensures multiset(g)[g[a]] >= 2
  {
    assert g == g[..b] + [g[b]] + g[b + 1..];
    assert g[a] == g[..b][a];
    assert g[a] in multiset(g[..b]);
  }

  lemma {:induction false} Once(f: seq<int>, n: nat, x: int)
    requires Complete(f, n)
    ensures multiset(f)[x] <= 1
  {
    if x in f {
      var a :| 0 <= a < n && f[a] == x;
      assert f == f[..a] + [f[a]] + f[a + 1..];
      assert x !in f[..a] && x !in f[a + 1..];
      assert x !in multiset(f[..a]) && x !in multiset(f[a + 1..]);
    }
  }

  // ---------------------------------------------------------------- buckets and classes

  /** The header of the bucket that holds position `i`. */
  function Head(bh: seq<bool>, i: nat): (j: nat)
    requires i < |bh|
    ensures j <= i
  {
    if bh[i] || i == 0 then i else Head(bh, i - 1)
  }

  /** In a sorted list two positions share a header exactly when their prefixes agree. */
  lemma {:induction false} HeadsDecide(t: seq<int>, f: seq<int>, bh: seq<bool>, h: nat, a: nat, b: nat)
    requires |t| > 0 && Complete(f, |t|) && |bh| >= |t|
    requires SortedTo(t, f, |t|, h) && Headers(t, f, bh, 0, |t|, h)
    requires a <= b < |t|
    ensures Head(bh, a) <= Head(bh, b)
    ensures Head(bh, a) == Head(bh, b) <==> Same(t, f[a], f[b], h)
    ensures Head(bh, a) < Head(bh, b) <==> Less(t, f[a], f[b], h)
    decreases b
  {
    hide Same, Less;
    if a == b {
      SameSelf(t, f[a], h);
      NotLess(t, f[a], f[b], h);
    } else {
      HeadsDecide(t, f, bh, h, a, b - 1);
      assert AtMost(t, f[a], f[b], h) && AtMost(t, f[b - 1], f[b], h) && AtMost(t, f[a], f[b - 1], h);
      NotLess(t, f[a], f[b], h);
      NotLess(t, f[b - 1], f[b], h);
      AtMostTransitive(t, f[a], f[b - 1], f[b], h);
      if Same(t, f[a], f[b - 1], h) && Same(t, f[b - 1], f[b], h) {
        SameTransitive(t, f[a], f[b - 1], f[b], h);
      }
      assert bh[b] == !Same(t, f[b - 1], f[b], h);
      assert Head(bh, a) <= a;
    }
  }

  lemma SameSelf(t: seq<int>, i: nat, h: nat)
    requires |t| > 0
    ensures Same(t, i, i, h)
  {
  }

  lemma NotLess(t: seq<int>, i: nat, j: nat, h: nat)
    requires |t| > 0
    ensures !(Same(t, i, j, h) && Less(t, i, j, h))
  {
    if Less(t, i, j, h) {
      LessExcludes(t, i, j, h);
    }
  }

  /** The position `h` bytes before `x`, cyclically. */
  function Before(x: int, h: int, n: int): int {
    if x - h < 0 then x - h + n else x - h
  }

  /** The class of a position orders the rotations on the `h` bytes that follow the next `h`. */
  ghost predicate Classes(t: seq<int>, ec: seq<int>, h: nat)
    requires |t| > 0
  {
    && |ec| == |t|
    && forall x: nat, y: nat :: x < |t| && y < |t| ==>
         && (ec[x] < ec[y] <==> Less(t, x + h, y + h, h))
         && (ec[x] == ec[y] <==> Same(t, x + h, y + h, h))
  }

  /** `x` and `x'` are the same rotation. */
  ghost predicate Wrapped(t: seq<int>, x: nat, x': nat) {
    x' == x || x' == x + |t|
  }

  lemma OrderWraps(t: seq<int>, x: nat, y: nat, x': nat, y': nat, h: nat)
    requires |t| > 0 && Wrapped(t, x, x') && Wrapped(t, y, y')
    ensures Less(t, x, y, h) <==> Less(t, x', y', h)
    ensures Same(t, x, y, h) <==> Same(t, x', y', h)
  {
    hide Same, Less;
    SameAround(t, x, x', h);
    SameAround(t, y, y', h);
    if Less(t, x, y, h) {
      LessThenSame(t, x', x, y, h);
      LessThenSame(t, x', y, y', h);
    }
    if Less(t, x', y', h) {
      LessThenSame(t, x, x', y', h);
      LessThenSame(t, x, y', y, h);
    }
    if Same(t, x, y, h) {
      SameTransitive(t, x', x, y, h);
      SameTransitive(t, x', y, y', h);
    }
    if Same(t, x', y', h) {
      SameTransitive(t, x, x', y', h);
      SameTransitive(t, x, y', y, h);
    }
  }

  lemma SameAround(t: seq<int>, x: nat, x': nat, h: nat)
    requires |t| > 0 && Wrapped(t, x, x')
    ensures Same(t, x, x', h) && Same(t, x', x, h)
  {
    hide Same;
    SameSelf(t, x, h);
    SameWraps(t, x, h);
    SameSymmetric(t, x, x', h);
  }

  /** What the first loop of a pass computes. */
  ghost predicate ClassesAssigned(f: seq<int>, bh: seq<bool>, ec: seq<int>, n: nat, h: nat, k: nat)
    requires Complete(f, n) && |bh| >= n && k <= n && h <= n && |ec| == n
  {
    forall i :: 0 <= i < k ==> ec[Before(f[i], h, n)] == Head(bh, i)
  }

  lemma ClassOf(t: seq<int>, f: seq<int>, bh: seq<bool>, ec: seq<int>, h: nat, x: nat) returns (i: nat)
    requires |t| > 0 && Complete(f, |t|) && |bh| >= |t| && h <= |t| && |ec| == |t| && x < |t|
    requires ClassesAssigned(f, bh, ec, |t|, h, |t|)
    ensures i < |t| && ec[x] == Head(bh, i) && Wrapped(t, f[i], x + h)
  {
    var u := if x + h >= |t| then x + h - |t| else x + h;
    if u == |t| {
      u := 0;
    }
    i := CompleteHits(f, |t|, u);
    assert Before(f[i], h, |t|) == x;
  }

  lemma ClassesDecide(t: seq<int>, f: seq<int>, bh: seq<bool>, ec: seq<int>, h: nat)
    requires |t| > 0 && Complete(f, |t|) && |bh| >= |t| && h <= |t| && |ec| == |t|
    requires SortedTo(t, f, |t|, h) && Headers(t, f, bh, 0, |t|, h)
    requires ClassesAssigned(f, bh, ec, |t|, h, |t|)
    ensures Classes(t, ec, h)
  {
    forall x: nat, y: nat | x < |t| && y < |t|
      ensures ec[x] < ec[y] <==> Less(t, x + h, y + h, h)
      ensures ec[x] == ec[y] <==> Same(t, x + h, y + h, h)
    {
      TwoClasses(t, f, bh, ec, h, x, y);
    }
  }

  lemma TwoClasses(t: seq<int>, f: seq<int>, bh: seq<bool>, ec: seq<int>, h: nat, x: nat, y: nat)
    requires |t| > 0 && Complete(f, |t|) && |bh| >= |t| && h <= |t| && |ec| == |t| && x < |t| && y < |t|
    requires SortedTo(t, f, |t|, h) && Headers(t, f, bh, 0, |t|, h)
    requires ClassesAssigned(f, bh, ec, |t|, h, |t|)
    ensures ec[x] < ec[y] <==> Less(t, x + h, y + h, h)
    ensures ec[x] == ec[y] <==> Same(t, x + h, y + h, h)
  {
    hide Same, Less, SortedTo, Headers;
    var i := ClassOf(t, f, bh, ec, h, x);
    var j := ClassOf(t, f, bh, ec, h, y);
    OrderWraps(t, f[i], f[j], x + h, y + h, h);
    OrderWraps(t, f[j], f[i], y + h, x + h, h);
    if i <= j {
      HeadsDecide(t, f, bh, h, i, j);
    } else {
      HeadsDecide(t, f, bh, h, j, i);
      if Less(t, f[j], f[i], h) {
        LessExcludes(t, f[j], f[i], h);
      } else {
        SameSymmetric(t, f[j], f[i], h);
        NotLess(t, f[i], f[j], h);
      }
    }
  }

  // ---------------------------------------------------------------- one pass

  /** In the middle of a pass: positions below `k` are refined to `2 * h` bytes. */
  ghost predicate Pass(t: seq<int>, f: seq<int>, bh: seq<bool>, k: int, h: nat) {
    && |t| > 0 && Complete(f, |t|) && |bh| >= |t| && 0 <= k <= |t|
    && SortedTo(t, f, |t|, h) && SortedTo(t, f, k, h + h)
    && Headers(t, f, bh, 0, k, h + h) && Headers(t, f, bh, k, |t|, h)
    && (k < |t| ==> bh[k])
  }

  lemma NeighboursDiffer(t: seq<int>, f: seq<int>, h: nat, a: int, b: int)
    requires |t| > 0 && Complete(f, |t|) && SortedTo(t, f, |t|, h)
    requires 0 <= a < b < |t| && !Same(t, f[b - 1], f[b], h)
    ensures Less(t, f[a], f[b], h)
  {
    hide Same, Less;
    assert AtMost(t, f[b - 1], f[b], h);
    if a < b - 1 {
      assert AtMost(t, f[a], f[b - 1], h);
      AtMostTransitive(t, f[a], f[b - 1], f[b], h);
    }
  }

  lemma Longer(t: seq<int>, i: nat, j: nat, h: nat)
    requires |t| > 0
    ensures Less(t, i, j, h) ==> AtMost(t, i, j, h + h)
    ensures !Same(t, i, j, h) ==> !Same(t, i, j, h + h)
  {
    hide Same, Less;
    LessSplits(t, i, j, h, h);
    SameSplits(t, i, j, h, h);
  }

  /** Positions that are buckets of their own are already in their final place. */
  lemma SkipSingletons(t: seq<int>, f: seq<int>, bh: seq<bool>, k: int, l: int, h: nat)
    requires Pass(t, f, bh, k, h) && k <= l <= |t|
    requires forall a :: k <= a < l ==> bh[a]
    requires l < |t| ==> bh[l]
    ensures Pass(t, f, bh, l, h)
  {
    hide Same, Less, AtMost;
    forall a, b | 0 <= a < b < l
      ensures AtMost(t, f[a], f[b], h + h)
    {
      if b >= k {
        assert bh[b];
        NeighboursDiffer(t, f, h, a, b);
        Longer(t, f[a], f[b], h);
      }
    }
    forall a | 0 <= a < l
      ensures bh[a] == Changes(t, f, a, h + h)
    {
      if a >= k && a > 0 {
        Longer(t, f[a - 1], f[a], h);
      }
    }
  }

  /** `[l, r]` is a bucket: equal prefixes inside, smaller ones before, other ones after. */
  ghost predicate Bucket(t: seq<int>, f: seq<int>, l: int, r: int, h: nat) {
    && |t| > 0 && Complete(f, |t|) && 0 <= l <= r < |t|
    && SortedTo(t, f, |t|, h)
    && (forall a, b :: l <= a <= r && l <= b <= r ==> Same(t, f[a], f[b], h))
    && (forall a, b :: 0 <= a < l <= b <= r ==> Less(t, f[a], f[b], h))
    && (forall a :: l <= a <= r && r + 1 < |t| ==> !Same(t, f[a], f[r + 1], h))
  }

  lemma {:induction false} SameRun(t: seq<int>, f: seq<int>, a: int, b: int, h: nat)
    requires |t| > 0 && Complete(f, |t|) && 0 <= a <= b < |t|
    requires forall c :: a < c <= b ==> !Changes(t, f, c, h)
    ensures Same(t, f[a], f[b], h)
    decreases b - a
  {
    hide Same;
    if a == b {
      SameSelf(t, f[a], h);
    } else {
      SameRun(t, f, a, b - 1, h);
      assert !Changes(t, f, b, h);
      SameTransitive(t, f[a], f[b - 1], f[b], h);
    }
  }

  lemma BucketFound(t: seq<int>, f: seq<int>, bh: seq<bool>, l: int, r: int, h: nat)
    requires Pass(t, f, bh, l, h) && l <= r < |t|
    requires forall a :: l < a <= r ==> !bh[a]
    requires r + 1 < |t| ==> bh[r + 1]
    ensures Bucket(t, f, l, r, h)
  {
    hide Same, Less, AtMost;
    assert forall c :: l < c <= r ==> bh[c] == Changes(t, f, c, h);
    forall a, b | l <= a <= r && l <= b <= r
      ensures Same(t, f[a], f[b], h)
    {
      if a <= b {
        SameRun(t, f, a, b, h);
      } else {
        SameRun(t, f, b, a, h);
        SameSymmetric(t, f[b], f[a], h);
      }
    }
    forall a, b | 0 <= a < l <= b <= r
      ensures Less(t, f[a], f[b], h)
    {
      NeighboursDiffer(t, f, h, a, l);
      LessThenSame(t, f[a], f[l], f[b], h);
    }
    forall a | l <= a <= r && r + 1 < |t|
      ensures !Same(t, f[a], f[r + 1], h)
    {
      NeighboursDiffer(t, f, h, a, r + 1);
      NotLess(t, f[a], f[r + 1], h);
    }
  }

  /** Rearranging inside a bucket keeps it one. */
  lemma BucketStays(t: seq<int>, f: seq<int>, g: seq<int>, l: int, r: int, h: nat)
    requires Bucket(t, f, l, r, h) && Permuted(f, g, l, r + 1)
    ensures Bucket(t, g, l, r, h)
  {
    hide Same, Less, Permuted;
    CompleteStays(f, g, |t|, l, r + 1);
    forall a, b | 0 <= a < |t| && 0 <= b < |t|
      ensures l <= a <= r && l <= b <= r ==> Same(t, g[a], g[b], h)
      ensures a < l <= b <= r ==> Less(t, g[a], g[b], h)
      ensures l <= a <= r && b == r + 1 ==> !Same(t, g[a], g[b], h)
      ensures a < b ==> AtMost(t, g[a], g[b], h)
    {
      var a' := Origin(f, g, l, r, a);
      var b' := Origin(f, g, l, r, b);
    }
  }

  lemma Origin(f: seq<int>, g: seq<int>, l: int, r: int, a: int) returns (a': int)
    requires Permuted(f, g, l, r + 1) && 0 <= a < |f| && |g| == |f|
    ensures 0 <= a' < |f| && g[a] == f[a']
    ensures if l <= a <= r then l <= a' <= r else a' == a
  {
    if l <= a <= r {
      a' := FromRange(f, g, l, r + 1, a);
    } else {
      OutsideRange(f, g, l, r + 1, a);
      a' := a;
    }
  }

  /** Inside a bucket the classes decide the next `h` bytes. */
  lemma RefinedPair(t: seq<int>, ec: seq<int>, i: nat, j: nat, h: nat)
    requires |t| > 0 && Classes(t, ec, h) && i < |t| && j < |t| && Same(t, i, j, h)
    ensures ec[i] <= ec[j] ==> AtMost(t, i, j, h + h)
    ensures ec[i] == ec[j] <==> Same(t, i, j, h + h)
  {
    hide Same, Less;
    AtMostSplits(t, i, j, h, h);
    SameSplits(t, i, j, h, h);
  }

  /** What scanning a sorted bucket does to the header bits. */
  ghost predicate Scanned(ec: seq<int>, g: seq<int>, bh: seq<bool>, bh': seq<bool>, l: int, r: int) {
    && |bh'| == |bh| && 0 <= l <= r < |bh| && r < |g|
    && (forall a :: 0 <= a < |bh| && !(l <= a <= r) ==> bh'[a] == bh[a])
    && bh'[l]
    && (forall a :: l < a <= r ==> bh'[a] == (Key(ec, g[a - 1]) != Key(ec, g[a])))
  }

  lemma RefinedSorted(t: seq<int>, f: seq<int>, g: seq<int>, ec: seq<int>, l: int, r: int, h: nat)
    requires Bucket(t, g, l, r, h) && Classes(t, ec, h) && Sorted(g, ec, l, r + 1)
    requires Complete(f, |t|) && SortedTo(t, f, l, h + h) && f[..l] == g[..l]
    ensures SortedTo(t, g, r + 1, h + h)
  {
    hide Same, Less, AtMost;
    forall a, b | 0 <= a < b < r + 1
      ensures AtMost(t, g[a], g[b], h + h)
    {
      if b < l {
        assert g[a] == g[..l][a] == f[a] && g[b] == g[..l][b] == f[b];
      } else if a < l {
        Longer(t, g[a], g[b], h);
      } else {
        RefinedPair(t, ec, g[a], g[b], h);
      }
    }
  }

  lemma RefinedHeaders(t: seq<int>, f: seq<int>, g: seq<int>, ec: seq<int>, bh: seq<bool>, bh': seq<bool>,
                       l: int, r: int, h: nat)
    requires Bucket(t, g, l, r, h) && Classes(t, ec, h) && Scanned(ec, g, bh, bh', l, r)
    requires Pass(t, f, bh, l, h) && f[..l] == g[..l]
    ensures Headers(t, g, bh', 0, r + 1, h + h)
  {
    hide Same, Less, AtMost, SortedTo;
    forall a | 0 <= a < r + 1
      ensures bh'[a] == Changes(t, g, a, h + h)
    {
      if a < l {
        assert g[a] == g[..l][a] == f[a];
        assert a > 0 ==> g[a - 1] == g[..l][a - 1] == f[a - 1];
      } else if a > l {
        assert Same(t, g[a - 1], g[a], h);
        RefinedPair(t, ec, g[a - 1], g[a], h);
        assert bh'[a] == (Key(ec, g[a - 1]) != Key(ec, g[a]));
      } else if a > 0 {
        assert Less(t, g[a - 1], g[a], h);
        NotLess(t, g[a - 1], g[a], h);
        Longer(t, g[a - 1], g[a], h);
      }
    }
  }

  lemma RemainingHeaders(t: seq<int>, f: seq<int>, g: seq<int>, ec: seq<int>, bh: seq<bool>, bh': seq<bool>,
                         l: int, r: int, h: nat)
    requires Bucket(t, g, l, r, h) && Scanned(ec, g, bh, bh', l, r)
    requires Pass(t, f, bh, l, h) && f[r + 1..] == g[r + 1..] && (r + 1 < |t| ==> bh[r + 1])
    ensures Headers(t, g, bh', r + 1, |t|, h)
  {
    hide Same, Less, AtMost, SortedTo;
    forall a | r + 1 <= a < |t|
      ensures bh'[a] == Changes(t, g, a, h)
    {
      assert g[a] == g[r + 1..][a - (r + 1)] == f[a];
      if a > r + 1 {
        assert g[a - 1] == g[r + 1..][a - 1 - (r + 1)] == f[a - 1];
      }
    }
  }

  /** Sorting a bucket by class and marking the changes refines it to twice the depth. */
  lemma RefineBucket(t: seq<int>, f: seq<int>, g: seq<int>, ec: seq<int>, bh: seq<bool>, bh': seq<bool>,
                     l: int, r: int, h: nat)
    requires Pass(t, f, bh, l, h) && l <= r < |t|
    requires forall a :: l < a <= r ==> !bh[a]
    requires r + 1 < |t| ==> bh[r + 1]
    requires Classes(t, ec, h) && Permuted(f, g, l, r + 1) && Sorted(g, ec, l, r + 1)
    requires Scanned(ec, g, bh, bh', l, r)
    ensures Pass(t, g, bh', r + 1, h)
  {
    hide Same, Less, AtMost, SortedTo, Headers, Sorted, Classes;
    BucketFound(t, f, bh, l, r, h);
    BucketStays(t, f, g, l, r, h);
    RefinedSorted(t, f, g, ec, l, r, h);
    RefinedHeaders(t, f, g, ec, bh, bh', l, r, h);
    RemainingHeaders(t, f, g, ec, bh, bh', l, r, h);
  }

  // ---------------------------------------------------------------- the end

  /** All rotations are listed in lexicographic order. */
  ghost predicate RotationsSorted(t: seq<int>, f: seq<int>) {
    |t| > 0 && Complete(f, |t|) && SortedTo(t, f, |t|, |t|)
  }

  /** Enough bytes compared, or every bucket a singleton. */
  lemma FinalOrder(t: seq<int>, f: seq<int>, bh: seq<bool>, h: nat)
    requires |t| > 0 && Complete(f, |t|) && |bh| >= |t|
    requires SortedTo(t, f, |t|, h) && Headers(t, f, bh, 0, |t|, h)
    requires h >= |t| || forall a :: 0 <= a < |t| ==> bh[a]
    ensures RotationsSorted(t, f)
  {
    hide Same, Less;
    forall a, b | 0 <= a < b < |t|
      ensures AtMost(t, f[a], f[b], |t|)
    {
      if h < |t| {
        assert bh[b];
        NeighboursDiffer(t, f, h, a, b);
      }
      WholeOrder(t, f[a], f[b], h);
    }
  }
}
