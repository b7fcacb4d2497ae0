/** Counting the bytes of a block, for the radix pass and the reconstruction in `fallbackSort`
    (benchmarks/simpl/bzip2/src/blocksort.c). */
module ByteCounts {

  ghost predicate Bytes(t: seq<int>) {
    forall x :: 0 <= x < |t| ==> 0 <= t[x] < 256
  }

  /** How many of `t[i..]` are `c`. */
  function Count(t: seq<int>, c: int, i: nat): (k: nat)
    requires i <= |t|
    decreases |t| - i
  {
    if i == |t| then 0 else (if t[i] == c then 1 else 0) + Count(t, c, i + 1)
  }

  /** How many of `t[i..]` are smaller than `c`. */
  function Smaller(t: seq<int>, c: int, i: nat): (k: nat)
    requires i <= |t|
    decreases |t| - i
  {
    if i == |t| then 0 else (if t[i] < c then 1 else 0) + Smaller(t, c, i + 1)
  }

  /** Where the bucket of `c` starts. */
  function Start(t: seq<int>, c: int): nat {
    Smaller(t, c, 0)
  }

  lemma {:induction false} SmallerNext(t: seq<int>, c: int, i: nat)
    requires i <= |t|
    ensures Smaller(t, c + 1, i) == Smaller(t, c, i) + Count(t, c, i)
    decreases |t| - i
  {
    if i < |t| {
      SmallerNext(t, c, i + 1);
    }
  }

  lemma {:induction false} SmallerEnds(t: seq<int>, i: nat)
    requires Bytes(t) && i <= |t|
    ensures Smaller(t, 0, i) == 0 && Smaller(t, 256, i) == |t| - i && Count(t, 256, i) == 0
    decreases |t| - i
  {
    if i < |t| {
      SmallerEnds(t, i + 1);
    }
  }

  lemma {:induction false} StartMonotone(t: seq<int>, c: int, d: int)
    requires c <= d
    ensures Start(t, c) <= Start(t, d)
    decreases d - c
  {
    if c < d {
      StartMonotone(t, c, d - 1);
      SmallerNext(t, d - 1, 0);
    }
  }

  /** The bucket a list position belongs to. */
  lemma {:induction false} Locate(t: seq<int>, k: nat, d: nat) returns (c: nat)
    requires Bytes(t) && k < Start(t, d) && d <= 256
    ensures c < d && Start(t, c) <= k < Start(t, c + 1)
    decreases d
  {
    if d == 0 {
      SmallerEnds(t, 0);
      assert false;
    } else if Start(t, d - 1) <= k {
      c := d - 1;
    } else {
      c := Locate(t, k, d - 1);
    }
  }

  /** The first two loops: how often each byte occurs. */
  method CountBytes(t: seq<int>) returns (ftab: array<int>)
    requires Bytes(t)
    ensures fresh(ftab) && ftab.Length == 257
    ensures forall c :: 0 <= c < 257 ==> ftab[c] == Count(t, c, 0)
  {
    ftab := new int[257](_ => 0);
    for i := 0 to |t|
      invariant forall c :: 0 <= c < 257 ==> ftab[c] == Count(t, c, 0) - Count(t, c, i)
    {
      ftab[t[i]] := ftab[t[i]] + 1;
    }
  }

  /** The fourth loop: running sums give the end of each bucket. */
  method Accumulate(t: seq<int>, ftab: array<int>)
    requires Bytes(t) && ftab.Length == 257 && forall c :: 0 <= c < 257 ==> ftab[c] == Count(t, c, 0)
    modifies ftab
    ensures forall c :: 0 <= c < 257 ==> ftab[c] == Start(t, c) + Count(t, c, 0)
  {
    SmallerEnds(t, 0);
    for i := 1 to 257
      invariant forall c :: 0 <= c < i ==> ftab[c] == Start(t, c) + Count(t, c, 0)
      invariant forall c :: i <= c < 257 ==> ftab[c] == Count(t, c, 0)
    {
      SmallerNext(t, i - 1, 0);
      ftab[i] := ftab[i] + ftab[i - 1];
    }
  }

  /** Position `k` holds a position of the block already read, in the bucket of its byte. */
  ghost predicate Placed(t: seq<int>, f: seq<int>, pos: seq<int>, c: int, k: int) {
    && 0 <= k < |f| && 0 <= f[k] < |pos| <= |t| && t[f[k]] == c && pos[f[k]] == k
  }

  /** After `i` bytes each bucket is filled from its end down. */
  ghost predicate Filled(t: seq<int>, f: seq<int>, ftab: seq<int>, pos: seq<int>, i: nat) {
    && i <= |t| && |pos| == i && |f| == |t| && |ftab| == 257
    && (forall c :: 0 <= c < 256 ==> ftab[c] == Start(t, c) + Count(t, c, i))
    && (forall c, k :: 0 <= c < 256 && ftab[c] <= k < Start(t, c + 1) ==> Placed(t, f, pos, c, k))
  }

  lemma FilledNext(t: seq<int>, f: seq<int>, ftab: seq<int>, pos: seq<int>, i: nat)
    requires Bytes(t) && Filled(t, f, ftab, pos, i) && i < |t|
    ensures var j := t[i];
            var k := ftab[j] - 1;
            && 0 <= k < |t|
            && Filled(t, f[k := i], ftab[j := k], pos + [k], i + 1)
  {
    var j := t[i];
    var k := ftab[j] - 1;
    SmallerNext(t, j, 0);
    CountShrinks(t, j, i);
    StartMonotone(t, j + 1, 256);
    SmallerEnds(t, 0);
    assert 0 <= Start(t, j) <= k < Start(t, j + 1) <= |t|;
    var f', ftab', pos' := f[k := i], ftab[j := k], pos + [k];
    forall c, m | 0 <= c < 256 && ftab'[c] <= m < Start(t, c + 1)
      ensures Placed(t, f', pos', c, m)
    {
      if c != j || m != k {
        OtherBucket(t, c, j, m, k);
        assert Placed(t, f, pos, c, m);
      }
    }
  }

  lemma {:induction false} CountShrinks(t: seq<int>, c: int, i: nat)
    requires i <= |t|
    ensures Count(t, c, i) <= Count(t, c, 0)
    decreases i
  {
    if i > 0 {
      CountShrinks(t, c, i - 1);
    }
  }

  lemma OtherBucket(t: seq<int>, c: int, j: int, m: int, k: int)
    requires Start(t, j) <= k < Start(t, j + 1) && m < Start(t, c + 1) && (c == j ==> m != k)
    requires m >= Start(t, c)
    ensures m != k
  {
    if c < j {
      StartMonotone(t, c + 1, j);
    } else if j < c {
      StartMonotone(t, j + 1, c);
    }
  }
}
