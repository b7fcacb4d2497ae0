/**
 * The string quicksort of the main block sort (benchmarks/simpl/bzip2/src/blocksort.c, `mainQSort3`): ranges
 * of rotations that agree on `d` bytes are partitioned by the next byte, on an explicit stack.
 */
module MainQSort {
  import opened Rotations
  import opened Ranks
  import opened QuickSort
  import opened MainGtU
  import opened ShellSort

  datatype Part = Part(range: Range, d: nat)

  function Plain(stack: seq<Part>): (rs: seq<Range>)
    ensures |rs| == |stack| && forall i :: 0 <= i < |stack| ==> rs[i] == stack[i].range
  {
    seq(|stack|, i requires 0 <= i < |stack| => stack[i].range)
  }

  lemma PlainAppend(a: seq<Part>, b: seq<Part>)
    ensures Plain(a + b) == Plain(a) + Plain(b)
  {
  }

  // ---------------------------------------------------------------- pieces of a range

  /** Pieces of the top range that do not overlap fit into its place. */
  lemma RangesPieces(stack: seq<Range>, r: Range, pieces: seq<Range>, lo: int, hi: int)
    requires Ranges(stack + [r], lo, hi) && Ranges(pieces, r.lo, r.hi)
    ensures Ranges(stack + pieces, lo, hi)
  {
    var all, next := stack + [r], stack + pieces;
    assert all[|stack|] == r;
    forall i | 0 <= i < |next|
      ensures lo <= next[i].lo <= next[i].hi + 1 <= hi + 1
      ensures i < |stack| ==> next[i] == all[i]
      ensures i >= |stack| ==> next[i] == pieces[i - |stack|] && forall p :: Within(next[i], p) ==> Within(r, p)
    {
      if i >= |stack| {
        assert next[i] == pieces[i - |stack|];
      } else {
        assert next[i] == all[i];
      }
    }
    forall i, j, p | 0 <= i < j < |next| && Within(next[i], p)
      ensures !Within(next[j], p)
    {
      if j < |stack| {
        assert !Within(all[j], p);
      } else if i < |stack| {
        assert !Within(all[|stack|], p);
      } else {
        assert !Within(pieces[j - |stack|], p);
      }
    }
  }

  // ---------------------------------------------------------------- the depth of the stack

  function Pow3(k: nat): (p: nat)
    ensures p >= 1
  {
    if k == 0 then 1 else 3 * Pow3(k - 1)
  }

  function Square(x: int): int {
    x * x
  }

  /** Two positions further up a range has at most a third of the size, one further at most half. */
  ghost predicate Shrinking(stack: seq<Range>, total: int) {
    forall i :: 0 <= i < |stack| ==> 0 <= Size(stack[i]) && Square(Size(stack[i])) * Pow3(i) <= Square(total)
  }

  lemma ShrinkingBelow(stack: seq<Range>, r: Range, total: int)
    requires Shrinking(stack + [r], total)
    ensures Shrinking(stack, total) && 0 <= Size(r) && Square(Size(r)) * Pow3(|stack|) <= Square(total)
  {
    var all := stack + [r];
    assert all[|stack|] == r;
    forall i | 0 <= i < |stack|
      ensures 0 <= Size(stack[i]) && Square(Size(stack[i])) * Pow3(i) <= Square(total)
    {
      assert all[i] == stack[i];
    }
  }

  lemma ShrinkingPush(stack: seq<Range>, r: Range, total: int)
    requires Shrinking(stack, total) && 0 <= Size(r) && Square(Size(r)) * Pow3(|stack|) <= Square(total)
    ensures Shrinking(stack + [r], total)
  {
  }

  lemma SquaresShrink(m: int, a: int, b: int, c: int)
    requires a >= b >= c >= 0 && a + b + c <= m
    ensures Square(a) <= Square(m) && 3 * Square(b) <= Square(m) && 9 * Square(c) <= Square(m)
  {
    Squares(a, m);
    Squares(2 * b, m);
    Squares(3 * c, m);
    assert Square(2 * b) == 4 * Square(b) && Square(3 * c) == 9 * Square(c);
  }

  lemma Squares(x: int, y: int)
    requires 0 <= x <= y
    ensures 0 <= Square(x) <= Square(y)
  {
    assert x * x <= x * y <= y * y;
  }

  lemma ShrinkingThree(stack: seq<Range>, r: Range, a: Range, b: Range, c: Range, total: int)
    requires Shrinking(stack + [r], total)
    requires Size(a) >= Size(b) >= Size(c) >= 0 && Size(a) + Size(b) + Size(c) <= Size(r)
    ensures Shrinking(stack + [a, b, c], total)
  {
    hide Square;
    var k := |stack|;
    var p := Pow3(k);
    ShrinkingBelow(stack, r, total);
    SquaresShrink(Size(r), Size(a), Size(b), Size(c));
    Scaled(Square(Size(a)), Square(Size(r)), p);
    Scaled(3 * Square(Size(b)), Square(Size(r)), p);
    Scaled(9 * Square(Size(c)), Square(Size(r)), p);
    assert Pow3(k + 1) == 3 * p && Pow3(k + 2) == 9 * p;
    Moved(Square(Size(b)), 3, p);
    Moved(Square(Size(c)), 9, p);
    ShrinkingPush(stack, a, total);
    ShrinkingPush(stack + [a], b, total);
    ShrinkingPush(stack + [a] + [b], c, total);
    assert stack + [a] + [b] + [c] == stack + [a, b, c];
  }

  lemma Moved(x: int, k: int, p: int)
    ensures x * (k * p) == k * x * p
  {
  }

  const QSORT_SMALL_THRESH := 20

  /** At most this many ranges are ever on the stack. */
  const MAX_DEPTH: nat := 22

  /** A range that is split has more than twenty members, so it lies low on the stack. */
  lemma SplitsLow(stack: seq<Range>, r: Range, total: int)
    requires Shrinking(stack + [r], total) && Size(r) > QSORT_SMALL_THRESH && 0 <= total <= MAX_BLOCK
    ensures |stack| + 3 <= MAX_DEPTH
  {
    hide Square;
    ShrinkingBelow(stack, r, total);
    Squares(21, Size(r));
    Squares(total, MAX_BLOCK);
    assert Square(21) == 441 && Square(MAX_BLOCK) == 810000000000 by { SquareValues(); }
    Scaled(441, Square(Size(r)), Pow3(|stack|));
    if |stack| >= 20 {
      Pow3Grows(20, |stack|);
      PowerOfThree();
    }
  }

  lemma SquareValues()
    ensures Square(21) == 441 && Square(MAX_BLOCK) == 810000000000
  {
  }

  lemma PowerOfThree()
    ensures Pow3(20) == 3486784401
  {
    assert Pow3(4) == 81;
    assert Pow3(8) == 6561;
    assert Pow3(12) == 531441;
    assert Pow3(16) == 43046721;
  }

  lemma {:induction false} Pow3Grows(j: nat, k: nat)
    requires j <= k
    ensures Pow3(j) <= Pow3(k)
    decreases k
  {
    if j < k {
      Pow3Grows(j, k - 1);
    }
  }

  // ---------------------------------------------------------------- work left

  const DEPTHS: nat := DEPTH_THRESH + 2

  function Work(p: Part): int {
    3 * (Size(p.range) * (DEPTHS - p.d)) + 1
  }

  function Weights(stack: seq<Part>): int {
    if stack == [] then 0 else Weights(stack[..|stack| - 1]) + Work(stack[|stack| - 1])
  }

  lemma WeightsPush(stack: seq<Part>, p: Part)
    ensures Weights(stack + [p]) == Weights(stack) + Work(p)
  {
    assert (stack + [p])[..|stack|] == stack;
  }

  ghost predicate Workable(stack: seq<Part>) {
    forall i :: 0 <= i < |stack| ==> Size(stack[i].range) >= 0 && stack[i].d <= DEPTH_THRESH + 1
  }

  lemma {:induction false} WeightsNonnegative(stack: seq<Part>)
    requires Workable(stack)
    ensures Weights(stack) >= 0
    decreases |stack|
  {
    if stack != [] {
      WeightsNonnegative(stack[..|stack| - 1]);
      var p := stack[|stack| - 1];
      Scaled(0, Size(p.range), DEPTHS - p.d);
    }
  }

  lemma DeeperIsLess(r: Range, d: nat)
    requires Size(r) > 0 && d <= DEPTH_THRESH
    ensures Work(Part(r, d + 1)) < Work(Part(r, d))
  {
    assert Size(r) * (DEPTHS - d) == Size(r) * (DEPTHS - (d + 1)) + Size(r);
  }

  /** The equal part gains a byte of depth, the others lose at least one member. */
  lemma ThreeAreLess(r: Range, d: nat, lower: Range, upper: Range, equal: Range)
    requires Size(lower) + Size(upper) + Size(equal) == Size(r) && Size(equal) > 0
    ensures Work(Part(lower, d)) + Work(Part(upper, d)) + Work(Part(equal, d + 1)) < Work(Part(r, d))
  {
    var k := DEPTHS - d;
    assert Size(r) * k == Size(lower) * k + Size(upper) * k + Size(equal) * k;
    assert Size(equal) * (DEPTHS - (d + 1)) == Size(equal) * k - Size(equal);
  }

  // ---------------------------------------------------------------- partitioning by one byte

  /** The bytes at depth `d`, by position. */
  function BytesAt(block: seq<int>, nblock: nat, d: nat): (keys: seq<int>)
    requires d + nblock <= |block|
    ensures |keys| == nblock && forall x :: 0 <= x < nblock ==> keys[x] == block[x + d]
  {
    block[d..d + nblock]
  }

  lemma BytesAre(t: seq<int>, block: seq<int>, d: nat, x: nat)
    requires Extends(block, t) && d <= DEPTH_THRESH && x < |t|
    ensures d + |t| <= |block| && Key(BytesAt(block, |t|, d), x) == Sym(t, x + d)
  {
    hide Sym;
  }

  /** A smaller byte behind common ones makes the smaller rotation. */
  lemma ByteDecides(t: seq<int>, x: nat, y: nat, d: nat)
    requires x < |t| && y < |t| && Same(t, x, y, d)
    ensures Sym(t, x + d) < Sym(t, y + d) ==> Rank(t, x) < Rank(t, y)
    ensures Sym(t, x + d) == Sym(t, y + d) ==> Same(t, x, y, d + 1)
  {
    hide Sym, Rank;
    if Sym(t, x + d) < Sym(t, y + d) {
      assert DiffersAt(t, x, y, d);
      LessWhole(t, x, y, d + 1);
      RankOrder(t, x, y);
    } else if Sym(t, x + d) == Sym(t, y + d) {
      assert Agree(t, x, y, d);
    }
  }

  lemma KeysOrder(t: seq<int>, block: seq<int>, s: seq<int>, lo: int, hi: int, d: nat, p: int, q: int)
    requires Extends(block, t) && d <= DEPTH_THRESH && d + |t| <= |block|
    requires AgreeOn(t, s, lo, hi, d) && lo <= p <= hi && lo <= q <= hi
    ensures var keys := BytesAt(block, |t|, d);
            && (Key(keys, s[p]) < Key(keys, s[q]) ==> Key(RankOf(t), s[p]) < Key(RankOf(t), s[q]))
            && (Key(keys, s[p]) == Key(keys, s[q]) ==> Same(t, s[p], s[q], d + 1))
  {
    hide Sym, Same, Rank, BytesAt;
    AgreePair(t, s, lo, hi, d, p, q);
    BytesAre(t, block, d, s[p]);
    BytesAre(t, block, d, s[q]);
    ByteDecides(t, s[p], s[q], d);
  }

  /** Three parts in some order. */
  ghost predicate Arranged(ps: seq<Part>, a: Part, b: Part, c: Part) {
    || ps == [a, b, c] || ps == [a, c, b] || ps == [b, a, c]
    || ps == [b, c, a] || ps == [c, a, b] || ps == [c, b, a]
  }

  /** The three parts of a partitioned range. */
  ghost predicate ThreeParts(ps: seq<Part>, r: Range, d: nat, n: int, m: int) {
    Arranged(ps, Part(Range(r.lo, n), d), Part(Range(m, r.hi), d), Part(Range(n + 1, m - 1), d + 1))
  }

  ghost predicate IsPart(p: Part, r: Range, d: nat, n: int, m: int) {
    p == Part(Range(r.lo, n), d) || p == Part(Range(m, r.hi), d) || p == Part(Range(n + 1, m - 1), d + 1)
  }

  lemma PartsAre(ps: seq<Part>, r: Range, d: nat, n: int, m: int, k: int)
    requires ThreeParts(ps, r, d, n, m) && 0 <= k < 3
    ensures IsPart(ps[k], r, d, n, m)
  {
  }

  lemma PartIsThere(ps: seq<Part>, r: Range, d: nat, n: int, m: int, p: Part) returns (k: int)
    requires ThreeParts(ps, r, d, n, m) && IsPart(p, r, d, n, m)
    ensures 0 <= k < 3 == |ps| && ps[k] == p
  {
    k := if ps[0] == p then 0 else if ps[1] == p then 1 else 2;
  }

  /** Two rotations of different parts are in order. */
  lemma PartsInOrder(t: seq<int>, block: seq<int>, s: seq<int>, r: Range, d: nat, med: int, n: int, m: int,
                     ps: seq<Part>, p: int, q: int)
    requires Extends(block, t) && d <= DEPTH_THRESH && d + |t| <= |block| && AgreeOn(t, s, r.lo, r.hi, d)
    requires ThreeWay(s, BytesAt(block, |t|, d), r.lo, r.hi, med, n, m) && ThreeParts(ps, r, d, n, m)
    requires r.lo <= p < q <= r.hi
    ensures Together(Plain(ps), p, q) || Key(RankOf(t), s[p]) <= Key(RankOf(t), s[q])
  {
    hide Extends, AgreeOn, BytesAt, RankOf, ThreeParts;
    var part :=
      if q <= n then Part(Range(r.lo, n), d) else if p >= m then Part(Range(m, r.hi), d)
      else Part(Range(n + 1, m - 1), d + 1);
    var k := PartIsThere(ps, r, d, n, m, part);
    assert Plain(ps)[k] == part.range;
    if !(Within(part.range, p) && Within(part.range, q)) {
      KeysOrder(t, block, s, r.lo, r.hi, d, p, q);
    }
  }

  /** Inside each part the rotations agree up to its depth. */
  lemma PartsAgree(t: seq<int>, block: seq<int>, s: seq<int>, r: Range, d: nat, med: int, n: int, m: int, part: Part)
    requires Extends(block, t) && d <= DEPTH_THRESH && d + |t| <= |block| && AgreeOn(t, s, r.lo, r.hi, d)
    requires ThreeWay(s, BytesAt(block, |t|, d), r.lo, r.hi, med, n, m) && IsPart(part, r, d, n, m)
    ensures AgreeOn(t, s, part.range.lo, part.range.hi, part.d) && part.d <= DEPTH_THRESH + 1
  {
    hide Extends, BytesAt, Same;
    if part.d == d + 1 {
      forall p, q | n + 1 <= p <= m - 1 && n + 1 <= q <= m - 1
        ensures Same(t, s[p], s[q], d + 1)
      {
        KeysOrder(t, block, s, r.lo, r.hi, d, p, q);
      }
    }
  }

  // ---------------------------------------------------------------- what holds between two iterations

  ghost predicate Deep(t: seq<int>, s: seq<int>, stack: seq<Part>) {
    forall i :: 0 <= i < |stack| ==>
      stack[i].d <= DEPTH_THRESH + 1 && AgreeOn(t, s, stack[i].range.lo, stack[i].range.hi, stack[i].d)
  }

  ghost predicate Invariant(t: seq<int>, start: seq<int>, s: seq<int>, stack: seq<Part>, lo: int, hi: int) {
    && |t| > 0 && 0 <= lo && hi < |s|
    && Permuted(start, s, lo, hi + 1)
    && Ranges(Plain(stack), lo, hi) && Ordered(s, RankOf(t), Plain(stack), lo, hi)
    && Shrinking(Plain(stack), hi - lo + 1) && |stack| <= MAX_DEPTH
    && Deep(t, s, stack)
  }

  lemma AtStart(t: seq<int>, s: seq<int>, lo: int, hi: int, d: nat)
    requires 0 <= lo <= hi + 1 <= |s| && d <= DEPTH_THRESH + 1 && AgreeOn(t, s, lo, hi, d)
    ensures Invariant(t, s, s, [Part(Range(lo, hi), d)], lo, hi)
  {
    hide RankOf;
    var stack := [Part(Range(lo, hi), d)];
    assert Plain(stack) == [Range(lo, hi)];
    assert Pow3(0) == 1;
    forall p, q | lo <= p < q <= hi
      ensures Together(Plain(stack), p, q)
    {
      assert Within(Plain(stack)[0], p) && Within(Plain(stack)[0], q);
    }
  }

  lemma Top(t: seq<int>, start: seq<int>, s: seq<int>, rest: seq<Part>, top: Part, lo: int, hi: int)
    requires Invariant(t, start, s, rest + [top], lo, hi)
    ensures lo <= top.range.lo <= top.range.hi + 1 <= hi + 1 && top.d <= DEPTH_THRESH + 1
    ensures AgreeOn(t, s, top.range.lo, top.range.hi, top.d)
    ensures Plain(rest + [top]) == Plain(rest) + [top.range]
    ensures Weights(rest + [top]) == Weights(rest) + Work(top) && Weights(rest) >= 0
  {
    hide AgreeOn, RankOf, Ordered, Permuted, Work;
    var all := rest + [top];
    assert all[|rest|] == top && Plain(all)[|rest|] == top.range;
    PlainAppend(rest, [top]);
    assert Plain([top]) == [top.range];
    WeightsPush(rest, top);
    forall i | 0 <= i < |rest|
      ensures Size(rest[i].range) >= 0 && rest[i].d <= DEPTH_THRESH + 1
    {
      assert all[i] == rest[i] && Plain(all)[i] == rest[i].range;
    }
    WeightsNonnegative(rest);
  }

  /** The parts below the top do not notice what happens to it. */
  lemma RestStaysDeep(t: seq<int>, s: seq<int>, s': seq<int>, rest: seq<Part>, top: Part, lo: int, hi: int)
    requires Deep(t, s, rest + [top]) && Ranges(Plain(rest + [top]), lo, hi)
    requires Permuted(s, s', top.range.lo, top.range.hi + 1)
    ensures Deep(t, s', rest)
  {
    hide Permuted, Same;
    PermutedLength(s, s', top.range.lo, top.range.hi + 1);
    var all := rest + [top];
    forall i | 0 <= i < |rest|
      ensures rest[i].d <= DEPTH_THRESH + 1 && AgreeOn(t, s', rest[i].range.lo, rest[i].range.hi, rest[i].d)
    {
      assert all[i] == rest[i] && all[|rest|] == top;
      var r := rest[i].range;
      forall p | r.lo <= p <= r.hi
        ensures s'[p] == s[p]
      {
        assert Plain(all)[i] == r && Plain(all)[|rest|] == top.range && Within(Plain(all)[i], p);
        assert !Within(top.range, p);
        OutsideRange(s, s', top.range.lo, top.range.hi + 1, p);
      }
    }
  }

  /** The top range has been rearranged and replaced by parts of it. */
  lemma Replaced(t: seq<int>, start: seq<int>, s: seq<int>, s': seq<int>, rest: seq<Part>, top: Part, ps: seq<Part>,
                 lo: int, hi: int)
    requires Invariant(t, start, s, rest + [top], lo, hi)
    requires Permuted(s, s', top.range.lo, top.range.hi + 1) && |s'| == |s|
    requires Ranges(Plain(ps), top.range.lo, top.range.hi)
    requires forall p, q :: top.range.lo <= p < q <= top.range.hi ==>
               Together(Plain(ps), p, q) || Key(RankOf(t), s'[p]) <= Key(RankOf(t), s'[q])
    requires Deep(t, s', ps)
    requires Shrinking(Plain(rest) + Plain(ps), hi - lo + 1) && |rest| + |ps| <= MAX_DEPTH
    ensures Invariant(t, start, s', rest + ps, lo, hi)
  {
    hide Permuted, AgreeOn, RankOf, Ordered, Shrinking, Ranges, Work;
    Top(t, start, s, rest, top, lo, hi);
    PlainAppend(rest, ps);
    PermutedTwice(start, s, s', lo, hi + 1, top.range.lo, top.range.hi + 1);
    RangesPieces(Plain(rest), top.range, Plain(ps), lo, hi);
    OrderedAfterPop(s, s', RankOf(t), Plain(rest), top.range, Plain(ps), lo, hi);
    RestStaysDeep(t, s, s', rest, top, lo, hi);
    forall i | 0 <= i < |rest + ps|
      ensures (rest + ps)[i].d <= DEPTH_THRESH + 1
      ensures AgreeOn(t, s', (rest + ps)[i].range.lo, (rest + ps)[i].range.hi, (rest + ps)[i].d)
    {
      assert (rest + ps)[i] == if i < |rest| then rest[i] else ps[i - |rest|];
    }
  }

  // ---------------------------------------------------------------- mainQSort3

  /** `mmed3` returns one of its arguments. */
  method Median(x: int, y: int, z: int) returns (b: int)
    ensures b == x || b == y || b == z
    ensures (x <= b || y <= b) && (y <= b || z <= b) && (x <= b || z <= b)
    ensures (x >= b || y >= b) && (y >= b || z >= b) && (x >= b || z >= b)
  {
    var a, c := x, z;
    b := y;
    if a > b {
      a, b := b, a;
    }
    if b > c {
      b := c;
      if a > b {
        b := a;
      }
    }
  }

  /** The parts ordered by size, the largest first. */
  method BySize(lower: Part, upper: Part, equal: Part) returns (ps: seq<Part>)
    ensures Arranged(ps, lower, upper, equal)
    ensures Size(ps[0].range) >= Size(ps[1].range) >= Size(ps[2].range)
  {
    var a, b, c := lower, upper, equal;
    if Size(a.range) < Size(b.range) {
      a, b := b, a;
    }
    if Size(b.range) < Size(c.range) {
      b, c := c, b;
    }
    if Size(a.range) < Size(b.range) {
      a, b := b, a;
    }
    ps := [a, b, c];
  }

  lemma NoParts(t: seq<int>, s: seq<int>, lo: int, hi: int)
    ensures Ranges(Plain([]), lo, hi) && Deep(t, s, [])
  {
  }

  /** The popped range has been sorted. */
  lemma SortedTop(t: seq<int>, start: seq<int>, s: seq<int>, s': seq<int>, rest: seq<Part>, top: Part, lo: int, hi: int)
    requires Invariant(t, start, s, rest + [top], lo, hi)
    requires Permuted(s, s', top.range.lo, top.range.hi + 1) && |s'| == |s|
    requires Sorted(s', RankOf(t), top.range.lo, top.range.hi + 1)
    ensures Invariant(t, start, s', rest, lo, hi)
  {
    hide Permuted, AgreeOn, RankOf, Ordered, Work, Ranges, Deep, Shrinking;
    Top(t, start, s, rest, top, lo, hi);
    ShrinkingBelow(Plain(rest), top.range, hi - lo + 1);
    assert Plain(rest) + Plain([]) == Plain(rest);
    NoParts(t, s', top.range.lo, top.range.hi);
    Replaced(t, start, s, s', rest, top, [], lo, hi);
    assert rest + [] == rest;
  }

  /** All members have the same byte: the range goes back, one deeper. */
  lemma DeeperTop(t: seq<int>, start: seq<int>, s: seq<int>, s': seq<int>, rest: seq<Part>, top: Part, lo: int, hi: int)
    requires Invariant(t, start, s, rest + [top], lo, hi) && top.d <= DEPTH_THRESH
    requires Permuted(s, s', top.range.lo, top.range.hi + 1) && |s'| == |s|
    requires AgreeOn(t, s', top.range.lo, top.range.hi, top.d + 1)
    ensures Invariant(t, start, s', rest + [Part(top.range, top.d + 1)], lo, hi)
  {
    hide Permuted, AgreeOn, RankOf, Ordered, Work, Shrinking;
    Top(t, start, s, rest, top, lo, hi);
    var ps := [Part(top.range, top.d + 1)];
    assert Plain(ps) == [top.range];
    forall p, q | top.range.lo <= p < q <= top.range.hi
      ensures Together(Plain(ps), p, q)
    {
      assert Within(Plain(ps)[0], p) && Within(Plain(ps)[0], q);
    }
    Replaced(t, start, s, s', rest, top, ps, lo, hi);
  }

  lemma PartsRanges(ps: seq<Part>, r: Range, d: nat, n: int, m: int)
    requires ThreeParts(ps, r, d, n, m) && r.lo <= n + 1 <= m <= r.hi + 1
    ensures Ranges(Plain(ps), r.lo, r.hi)
    ensures Size(ps[0].range) + Size(ps[1].range) + Size(ps[2].range) == Size(r)
    ensures forall k :: 0 <= k < 3 ==> Size(ps[k].range) >= 0
    ensures n + 1 < m ==> Work(ps[0]) + Work(ps[1]) + Work(ps[2]) < Work(Part(r, d))
  {
    hide Work;
    var lower, upper, equal := Part(Range(r.lo, n), d), Part(Range(m, r.hi), d), Part(Range(n + 1, m - 1), d + 1);
    PartsAre(ps, r, d, n, m, 0);
    PartsAre(ps, r, d, n, m, 1);
    PartsAre(ps, r, d, n, m, 2);
    if n + 1 < m {
      ThreeAreLess(r, d, lower.range, upper.range, equal.range);
    }
  }

  /** The range has been partitioned by the byte at its depth. */
  lemma SplitTop(t: seq<int>, start: seq<int>, s: seq<int>, s': seq<int>, block: seq<int>, rest: seq<Part>, top: Part,
                 med: int, n: int, m: int, ps: seq<Part>, lo: int, hi: int)
    requires Extends(block, t) && |t| <= MAX_BLOCK && hi - lo + 1 <= MAX_BLOCK && top.d <= DEPTH_THRESH && top.d + |t| <= |block|
    requires Invariant(t, start, s, rest + [top], lo, hi) && Size(top.range) > QSORT_SMALL_THRESH
    requires Permuted(s, s', top.range.lo, top.range.hi + 1) && |s'| == |s|
    requires ThreeWay(s', BytesAt(block, |t|, top.d), top.range.lo, top.range.hi, med, n, m) && n + 1 < m
    requires ThreeParts(ps, top.range, top.d, n, m)
    requires Size(ps[0].range) >= Size(ps[1].range) >= Size(ps[2].range)
    ensures Invariant(t, start, s', rest + ps, lo, hi)
    ensures Weights(rest + ps) < Weights(rest + [top])
  {
    hide Permuted, AgreeOn, RankOf, Ordered, Work, Shrinking, Extends, BytesAt, Ranges, Size, ThreeParts;
    var r, d := top.range, top.d;
    Top(t, start, s, rest, top, lo, hi);
    AgreeStays(t, s, s', r.lo, r.hi, d);
    PartsRanges(ps, r, d, n, m);
    PartsCount(ps, r, d, n, m);
    ShrinkingThree(Plain(rest), r, ps[0].range, ps[1].range, ps[2].range, hi - lo + 1);
    SplitsLow(Plain(rest), r, hi - lo + 1);
    assert Plain(ps) == [ps[0].range, ps[1].range, ps[2].range];
    forall p, q | r.lo <= p < q <= r.hi
      ensures Together(Plain(ps), p, q) || Key(RankOf(t), s'[p]) <= Key(RankOf(t), s'[q])
    {
      PartsInOrder(t, block, s', r, d, med, n, m, ps, p, q);
    }
    forall k | 0 <= k < |ps|
      ensures ps[k].d <= DEPTH_THRESH + 1 && AgreeOn(t, s', ps[k].range.lo, ps[k].range.hi, ps[k].d)
    {
      PartsAre(ps, r, d, n, m, k);
      PartsAgree(t, block, s', r, d, med, n, m, ps[k]);
    }
    Replaced(t, start, s, s', rest, top, ps, lo, hi);
    WeightsThree(rest, ps);
  }

  lemma PartsCount(ps: seq<Part>, r: Range, d: nat, n: int, m: int)
    requires ThreeParts(ps, r, d, n, m)
    ensures |ps| == 3
  {
  }

  lemma WeightsThree(rest: seq<Part>, ps: seq<Part>)
    requires |ps| == 3
    ensures Weights(rest + ps) == Weights(rest) + Work(ps[0]) + Work(ps[1]) + Work(ps[2])
  {
    hide Work;
    WeightsPush(rest, ps[0]);
    WeightsPush(rest + [ps[0]], ps[1]);
    WeightsPush(rest + [ps[0]] + [ps[1]], ps[2]);
    assert rest + [ps[0]] + [ps[1]] + [ps[2]] == rest + ps;
  }

  /** Partitions the popped range and returns what is pushed in its place. */
  method Split(ptr: array<int>, ghost t: seq<int>, block: seq<int>, nblock: nat,
               ghost start: seq<int>, rest: seq<Part>, top: Part, ghost loSt: int, ghost hiSt: int)
    returns (stack: seq<Part>)
    requires Extends(block, t) && |t| == nblock <= MAX_BLOCK && hiSt < ptr.Length && hiSt - loSt < nblock
    requires Invariant(t, start, ptr[..], rest + [top], loSt, hiSt)
    requires top.range.hi - top.range.lo >= QSORT_SMALL_THRESH && top.d <= DEPTH_THRESH
    modifies ptr
    ensures Invariant(t, start, ptr[..], stack, loSt, hiSt) && 0 <= Weights(stack) < Weights(rest + [top])
  {
    hide Invariant, Permuted, AgreeOn, RankOf, Extends, Work, ThreeWay, BytesAt, Weights, ThreeParts;
    ghost var before := ptr[..];
    Top(t, start, before, rest, top, loSt, hiSt);
    Bounds(t, start, before, rest + [top], loSt, hiSt);
    ExtendedLength(block, t);
    var lo, hi, d := top.range.lo, top.range.hi, top.d;
    var mid := (lo + hi) / 2;
    EntriesInBlock(t, before, lo, hi, d);
    var med := Median(block[ptr[lo] + d], block[ptr[hi] + d], block[ptr[mid] + d]);
    var keys := BytesAt(block, nblock, d);
    ghost var at := if med == block[ptr[lo] + d] then lo else if med == block[ptr[hi] + d] then hi else mid;
    assert med == Key(keys, before[at]);
    var n, m := ThreeWayPartition(ptr, keys, lo, hi, med);
    ghost var after := ptr[..];
    MiddleNonempty(before, after, keys, lo, hi, at, n, m);
    ThreeWayBounds(after, keys, lo, hi, med, n, m);
    if n < lo && m > hi {
      AllDeeper(t, block, before, after, top, med);
      stack := rest + [Part(top.range, d + 1)];
      DeeperTop(t, start, before, after, rest, top, loSt, hiSt);
      DeeperIsLess(top.range, d);
      WeightsPush(rest, Part(top.range, d + 1));
    } else {
      var ps := BySize(Part(Range(lo, n), d), Part(Range(m, hi), d), Part(Range(n + 1, m - 1), d + 1));
      stack := rest + ps;
      assert ThreeParts(ps, top.range, d, n, m) by { ThreePartsAre(ps, top.range, d, n, m); }
      SplitTop(t, start, before, after, block, rest, top, med, n, m, ps, loSt, hiSt);
    }
    WeightsPositive(t, start, after, stack, loSt, hiSt);
  }

  lemma ThreePartsAre(ps: seq<Part>, r: Range, d: nat, n: int, m: int)
    requires Arranged(ps, Part(Range(r.lo, n), d), Part(Range(m, r.hi), d), Part(Range(n + 1, m - 1), d + 1))
    ensures ThreeParts(ps, r, d, n, m)
  {
  }

  lemma EntriesInBlock(t: seq<int>, s: seq<int>, lo: int, hi: int, d: nat)
    requires AgreeOn(t, s, lo, hi, d)
    ensures 0 <= lo && hi < |s| && forall p :: lo <= p <= hi ==> 0 <= s[p] < |t|
  {
  }

  lemma AllDeeper(t: seq<int>, block: seq<int>, s: seq<int>, s': seq<int>, top: Part, med: int)
    requires Extends(block, t) && top.d <= DEPTH_THRESH && top.d + |t| <= |block|
    requires AgreeOn(t, s, top.range.lo, top.range.hi, top.d)
    requires Permuted(s, s', top.range.lo, top.range.hi + 1)
    requires ThreeWay(s', BytesAt(block, |t|, top.d), top.range.lo, top.range.hi, med, top.range.lo - 1, top.range.hi + 1)
    ensures |s'| == |s| && AgreeOn(t, s', top.range.lo, top.range.hi, top.d + 1)
  {
    hide Permuted, Extends, BytesAt, AgreeOn, ThreeWay;
    var r := top.range;
    PermutedLength(s, s', r.lo, r.hi + 1);
    AgreeStays(t, s, s', r.lo, r.hi, top.d);
    PartsAgree(t, block, s', r, top.d, med, r.lo - 1, r.hi + 1, Part(Range(r.lo, r.hi), top.d + 1));
  }

  lemma WeightsPositive(t: seq<int>, start: seq<int>, s: seq<int>, stack: seq<Part>, lo: int, hi: int)
    requires Invariant(t, start, s, stack, lo, hi)
    ensures Weights(stack) >= 0
  {
    hide Permuted, AgreeOn, RankOf, Ordered, Work;
    forall i | 0 <= i < |stack|
      ensures Size(stack[i].range) >= 0 && stack[i].d <= DEPTH_THRESH + 1
    {
      assert Plain(stack)[i] == stack[i].range;
    }
    WeightsNonnegative(stack);
  }

  /** The listed rotations are in lexicographic order. */
  ghost predicate InOrder(t: seq<int>, s: seq<int>, lo: int, hi: int) {
    && |t| > 0 && 0 <= lo && hi < |s|
    && forall a, b :: lo <= a < b <= hi ==> 0 <= s[a] < |t| && 0 <= s[b] < |t| && AtMost(t, s[a], s[b], |t|)
  }

  /**
   * The range, whose rotations agree on `dSt` bytes, is permuted and, unless the budget ran out, sorted in
   * the order of the rotations. The stack never holds more than 22 of its 100 entries, and every index
   * handed to the comparison is one it can read from.
   */
  method MainQSort3(ptr: array<int>, ghost t: seq<int>, block: seq<int>, quadrant: seq<int>, nblock: nat,
                    loSt: int, hiSt: int, dSt: nat, budget: int)
    returns (budget': int)
    requires Ready(t, block, quadrant, nblock) && dSt <= DEPTH_THRESH + 1
    requires 0 <= loSt <= hiSt + 1 <= ptr.Length && hiSt - loSt < nblock && AgreeOn(t, ptr[..], loSt, hiSt, dSt)
    modifies ptr
    ensures Permuted(old(ptr[..]), ptr[..], loSt, hiSt + 1)
    ensures Least(budget, 0) - Overdraft(hiSt - loSt, nblock) <= budget' <= budget
    ensures budget' >= 0 ==> InOrder(t, ptr[..], loSt, hiSt)
  {
    hide Invariant, Permuted, Sorted, AgreeOn, RankOf, Extends, Caches, Work, Weights, InOrder, Overdraft;
    ghost var start := ptr[..];
    budget' := budget;
    OverdraftGrows(-1, hiSt - loSt, nblock);
    var stack := [Part(Range(loSt, hiSt), dSt)];
    AtStart(t, start, loSt, hiSt, dSt);
    WeightsPositive(t, start, start, stack, loSt, hiSt);
    while |stack| > 0
      invariant Invariant(t, start, ptr[..], stack, loSt, hiSt) && Weights(stack) >= 0
      invariant budget' <= budget && (budget' == budget || budget' >= 0)
      decreases Weights(stack)
    {
      ghost var before := ptr[..];
      Bounds(t, start, before, stack, loSt, hiSt);
      assert |stack| < STACK_SIZE;
      var rest, top := stack[..|stack| - 1], stack[|stack| - 1];
      assert rest + [top] == stack;
      Top(t, start, before, rest, top, loSt, hiSt);
      var lo, hi := top.range.lo, top.range.hi;
      if hi - lo < QSORT_SMALL_THRESH || top.d > DEPTH_THRESH {
        OverdraftGrows(hi - lo, hiSt - loSt, nblock);
        budget' := MainSimpleSort(ptr, t, block, quadrant, nblock, lo, hi, top.d, budget');
        if budget' < 0 {
          PermutedTwice(start, before, ptr[..], loSt, hiSt + 1, lo, hi + 1);
          return;
        }
        SortedTop(t, start, before, ptr[..], rest, top, loSt, hiSt);
        WeightsPositive(t, start, ptr[..], rest, loSt, hiSt);
        TopWorks(top);
        stack := rest;
      } else {
        stack := Split(ptr, t, block, nblock, start, rest, top, loSt, hiSt);
      }
    }
    Bounds(t, start, ptr[..], stack, loSt, hiSt);
    NothingOpen(t, start, ptr[..], loSt, hiSt, dSt);
  }

  lemma TopWorks(top: Part)
    requires Size(top.range) >= 0 && top.d <= DEPTH_THRESH + 1
    ensures Work(top) > 0
  {
    Scaled(0, Size(top.range), DEPTHS - top.d);
  }

  lemma NothingOpen(t: seq<int>, start: seq<int>, s: seq<int>, lo: int, hi: int, d: nat)
    requires Invariant(t, start, s, [], lo, hi) && |start| == |s| && AgreeOn(t, start, lo, hi, d)
    ensures InOrder(t, s, lo, hi)
  {
    hide Permuted, AtMost, Rank, AgreeOn;
    AgreeStays(t, start, s, lo, hi, d);
    EntriesInBlock(t, s, lo, hi, d);
    forall a, b | lo <= a < b <= hi
      ensures AtMost(t, s[a], s[b], |t|)
    {
      assert !Together(Plain([]), a, b);
      RankOrder(t, s[a], s[b]);
    }
  }

  lemma Bounds(t: seq<int>, start: seq<int>, s: seq<int>, stack: seq<Part>, lo: int, hi: int)
    requires Invariant(t, start, s, stack, lo, hi)
    ensures 0 <= lo && hi < |s| && Permuted(start, s, lo, hi + 1) && |stack| <= MAX_DEPTH
  {
  }
}
