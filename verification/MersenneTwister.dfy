/**
 * The random generator of the schedulers (src/Mersenne-1.1/MersenneTwister.h). Words are `unsigned long`,
 * 64 bits wide here; the generator keeps them below 2^32 itself.
 */
module MersenneTwister {

  const N: nat := 624
  const M: nat := 397

  type Word = bv64

  predicate Small(w: Word) {
    w <= 0xffff_ffff
  }

  // ---------------------------------------------------------------- the source's expressions

  function HiBit(u: Word): Word { u & 0x8000_0000 }
  function LoBit(u: Word): Word { u & 1 }
  function LoBits(u: Word): Word { u & 0x7fff_ffff }
  function MixBits(u: Word, v: Word): Word { HiBit(u) | LoBits(v) }
  function Magic(u: Word): Word { if LoBit(u) != 0 then 0x9908_b0df else 0 }
  function TwistMixed(m: Word, y: Word, s1: Word): Word { m ^ (y >> 1) ^ Magic(s1) }
  function Twist(m: Word, s0: Word, s1: Word): Word { TwistMixed(m, MixBits(s0, s1), s1) }

  // ---------------------------------------------------------------- the plain recurrence

  /** Multiplication by the twist matrix: shift right, and add the vector `a` if the last bit was set. */
  function Plus(x: Word, y: Word): Word { x ^ y }

  function TimesA(y: Word): Word {
    if y & 1 == 0 then y >> 1 else (y >> 1) ^ 0x9908_b0df
  }

  /** x(k + n) = x(k + m) + (upper bit of x(k), lower bits of x(k + 1)) A. */
  function Recur(xm: Word, x0: Word, x1: Word): Word {
    Plus(xm, TimesA((x0 & 0x8000_0000) | (x1 & 0x7fff_ffff)))
  }

  lemma TwistIsRecurrence(m: Word, s0: Word, s1: Word)
    ensures Twist(m, s0, s1) == Recur(m, s0, s1)
  {
    var y := (s0 & 0x8000_0000) | (s1 & 0x7fff_ffff);
    MixBitsAre(s0, s1, y);
    LastBit(s0, s1);
    hide TwistMixed, Plus, TimesA, MixBits;
    TwistCore(m, y, s1);
  }

  lemma MixBitsAre(u: Word, v: Word, y: Word)
    requires y == (u & 0x8000_0000) | (v & 0x7fff_ffff)
    ensures MixBits(u, v) == y
  {
  }

  lemma TwistCore(m: Word, y: Word, v: Word)
    requires y & 1 == v & 1
    ensures TwistMixed(m, y, v) == Plus(m, TimesA(y))
  {
    hide Magic, TimesA;
    Cases(y, v);
    if y & 1 == 0 {
      XorZero(m ^ (y >> 1));
    } else {
      XorTwice(m, y >> 1, 0x9908_b0df);
    }
  }

  lemma Cases(y: Word, v: Word)
    requires y & 1 == v & 1
    ensures y & 1 == 0 ==> Magic(v) == 0 && TimesA(y) == y >> 1
    ensures y & 1 != 0 ==> Magic(v) == 0x9908_b0df && TimesA(y) == (y >> 1) ^ 0x9908_b0df
  {
  }

  lemma LastBit(u: Word, v: Word)
    ensures ((u & 0x8000_0000) | (v & 0x7fff_ffff)) & 1 == v & 1
  {
  }

  lemma XorTwice(a: Word, b: Word, c: Word)
    ensures a ^ b ^ c == a ^ (b ^ c)
  {
  }

  lemma XorZero(a: Word)
    ensures a ^ 0 == a
  {
  }

  lemma RecurrenceOfZero(m: Word)
    ensures Recur(m, 0, 0) == m
  {
    XorZero(m);
  }

  /** What the published parameters prescribe for single bits. */
  lemma RecurrenceImages()
    ensures Recur(0, 0x8000_0000, 0) == 0x4000_0000 && Recur(0, 0x7fff_ffff, 0) == 0
    ensures Recur(0, 0, 1) == 0x9908_b0df && Recur(0, 0, 0x8000_0000) == 0
    ensures Recur(0, 0, 2) == 1 && Recur(0, 0, 0x4000_0000) == 0x2000_0000
    ensures Recur(0, 0xffff_ffff, 0x7fff_ffff) == 0xe6f74f20
  {
    RecurrenceOfFirst();
    RecurrenceOfSecond();
    RecurrenceOfBoth();
    hide Recur;
  }

  lemma RecurrenceOfFirst()
    ensures Recur(0, 0x8000_0000, 0) == 0x4000_0000 && Recur(0, 0x7fff_ffff, 0) == 0
  {
  }

  lemma RecurrenceOfSecond()
    ensures Recur(0, 0, 1) == 0x9908_b0df && Recur(0, 0, 0x8000_0000) == 0
    ensures Recur(0, 0, 2) == 1 && Recur(0, 0, 0x4000_0000) == 0x2000_0000
  {
  }

  lemma RecurrenceOfBoth()
    ensures Recur(0, 0xffff_ffff, 0x7fff_ffff) == 0xe6f74f20
  {
  }

  lemma RecurSmall(m: Word, s0: Word, s1: Word)
    requires Small(m)
    ensures Small(Recur(m, s0, s1))
  {
  }

  /** The sequence that starts with the window `w`. */
  function Term(w: seq<Word>, k: nat): Word
    requires |w| == N
  {
    if k < N then w[k] else Recur(Term(w, k - N + M), Term(w, k - N), Term(w, k - N + 1))
  }

  ghost predicate AllSmall(w: seq<Word>) {
    forall i :: 0 <= i < |w| ==> Small(w[i])
  }

  lemma {:induction false} TermsSmall(w: seq<Word>, k: nat)
    requires |w| == N && AllSmall(w)
    ensures Small(Term(w, k))
    decreases k
  {
    hide Recur, Small;
    if k >= N {
      TermsSmall(w, k - N + M);
      RecurSmall(Term(w, k - N + M), Term(w, k - N), Term(w, k - N + 1));
    }
  }

  /** A later window of a sequence starts the rest of the same sequence. */
  lemma {:induction false} TermShifts(w: seq<Word>, v: seq<Word>, base: nat, k: nat)
    requires |w| == |v| == N && forall i :: 0 <= i < N ==> v[i] == Term(w, base + i)
    ensures Term(v, k) == Term(w, base + k)
    decreases k
  {
    hide Recur;
    if k >= N {
      TermShifts(w, v, base, k - N + M);
      TermShifts(w, v, base, k - N);
      TermShifts(w, v, base, k - N + 1);
    }
  }

  // ---------------------------------------------------------------- tempering and seeding

  function Right11(x: Word): Word { x ^ (x >> 11) }
  function Left7(x: Word): Word { x ^ ((x << 7) & 0x9d2c_5680) }
  function Left15(x: Word): Word { x ^ ((x << 15) & 0xefc6_0000) }
  function Right18(x: Word): Word { x ^ (x >> 18) }

  /** The four assignments at the end of `randInt`. */
  function Temper(x: Word): Word {
    Right18(Left15(Left7(Right11(x))))
  }

  lemma TemperSmall(x: Word)
    requires Small(x)
    ensures Small(Temper(x))
  {
    hide Right11, Left7, Left15, Right18, Small;
    StepsSmall(x);
    StepsSmall(Right11(x));
    StepsSmall(Left7(Right11(x)));
    StepsSmall(Left15(Left7(Right11(x))));
  }

  lemma StepsSmall(x: Word)
    requires Small(x)
    ensures Small(Right11(x)) && Small(Left7(x)) && Small(Left15(x)) && Small(Right18(x))
  {
  }

  // The published inverse: each step of the tempering is undone by its own closed form.

  function UndoRight18(y: Word): Word { y ^ (y >> 18) }
  function UndoLeft15(y: Word): Word { y ^ ((y << 15) & 0xefc6_0000) }
  function UndoLeft7(y: Word): Word {
    y ^ ((y << 7) & 0x9d2c_5680) ^ ((y << 14) & 0x9428_4000) ^ ((y << 21) & 0x1420_0000) ^ ((y << 28) & 0x1000_0000)
  }
  function UndoRight11(y: Word): Word { y ^ (y >> 11) ^ (y >> 22) }

  function Untemper(y: Word): Word {
    UndoRight11(UndoLeft7(UndoLeft15(UndoRight18(y))))
  }

  lemma Right11Back(x: Word)
    requires Small(x)
    ensures var y := x ^ (x >> 11); y ^ (y >> 11) ^ (y >> 22) == x
  {
  }

  lemma PlusIs(x: Word, y: Word)
    ensures Plus(x, y) == x ^ y
  {
  }

  lemma Right11Is(x: Word)
    ensures Right11(x) == x ^ (x >> 11)
  {
  }

  lemma Right11Backward(x: Word)
    requires Small(x)
    ensures UndoRight11(x ^ (x >> 11)) == x
  {
    Right11Back(x);
  }

  lemma Right11Undone(x: Word)
    requires Small(x)
    ensures UndoRight11(Right11(x)) == x
  {
    hide Right11, UndoRight11;
    Right11Is(x);
    Right11Backward(x);
  }

  lemma Right11Sum(x: Word, y: Word)
    ensures Right11(x ^ y) == Plus(x ^ (x >> 11), y ^ (y >> 11))
  {
  }

  lemma Right11Linear(x: Word, y: Word)
    ensures Right11(Plus(x, y)) == Plus(Right11(x), Right11(y))
  {
    hide Right11, Plus;
    PlusIs(x, y);
    Right11Is(x);
    Right11Is(y);
    Right11Sum(x, y);
  }

  lemma Left7Is(x: Word)
    ensures Left7(x) == x ^ ((x << 7) & 0x9d2c_5680)
  {
  }

  lemma Left7Backward(x: Word)
    ensures UndoLeft7(x ^ ((x << 7) & 0x9d2c_5680)) == x
  {
  }

  lemma Left7Undone(x: Word)
    ensures UndoLeft7(Left7(x)) == x
  {
    hide Left7, UndoLeft7;
    Left7Is(x);
    Left7Backward(x);
  }

  lemma Left7Sum(x: Word, y: Word)
    ensures Left7(x ^ y) == Plus(x ^ ((x << 7) & 0x9d2c_5680), y ^ ((y << 7) & 0x9d2c_5680))
  {
  }

  lemma Left7Linear(x: Word, y: Word)
    ensures Left7(Plus(x, y)) == Plus(Left7(x), Left7(y))
  {
    hide Left7, Plus;
    PlusIs(x, y);
    Left7Is(x);
    Left7Is(y);
    Left7Sum(x, y);
  }

  lemma Left15Is(x: Word)
    ensures Left15(x) == x ^ ((x << 15) & 0xefc6_0000)
  {
  }

  lemma Left15Backward(x: Word)
    ensures UndoLeft15(x ^ ((x << 15) & 0xefc6_0000)) == x
  {
  }

  lemma Left15Undone(x: Word)
    ensures UndoLeft15(Left15(x)) == x
  {
    hide Left15, UndoLeft15;
    Left15Is(x);
    Left15Backward(x);
  }

  lemma Left15Sum(x: Word, y: Word)
    ensures Left15(x ^ y) == Plus(x ^ ((x << 15) & 0xefc6_0000), y ^ ((y << 15) & 0xefc6_0000))
  {
  }

  lemma Left15Linear(x: Word, y: Word)
    ensures Left15(Plus(x, y)) == Plus(Left15(x), Left15(y))
  {
    hide Left15, Plus;
    PlusIs(x, y);
    Left15Is(x);
    Left15Is(y);
    Left15Sum(x, y);
  }

  lemma Right18Is(x: Word)
    ensures Right18(x) == x ^ (x >> 18)
  {
  }

  lemma Right18Backward(x: Word)
    requires Small(x)
    ensures UndoRight18(x ^ (x >> 18)) == x
  {
  }

  lemma Right18Undone(x: Word)
    requires Small(x)
    ensures UndoRight18(Right18(x)) == x
  {
    hide Right18, UndoRight18;
    Right18Is(x);
    Right18Backward(x);
  }

  lemma Right18Sum(x: Word, y: Word)
    ensures Right18(x ^ y) == Plus(x ^ (x >> 18), y ^ (y >> 18))
  {
  }

  lemma Right18Linear(x: Word, y: Word)
    ensures Right18(Plus(x, y)) == Plus(Right18(x), Right18(y))
  {
    hide Right18, Plus;
    PlusIs(x, y);
    Right18Is(x);
    Right18Is(y);
    Right18Sum(x, y);
  }

  /** Tempering loses nothing: the published inverse recovers the state word. */
  lemma TemperInverse(x: Word)
    requires Small(x)
    ensures Untemper(Temper(x)) == x
  {
    hide UndoRight18, UndoLeft15, UndoLeft7, UndoRight11, Right11, Left7, Left15, Right18, Small;
    StepsSmall(x);
    StepsSmall(Right11(x));
    StepsSmall(Left7(Right11(x)));
    Right18Undone(Left15(Left7(Right11(x))));
    Left15Undone(Left7(Right11(x)));
    Left7Undone(Right11(x));
    Right11Undone(x);
  }

  // What tempering makes of the words with a single bit set.

  lemma TemperOfBits0To7()
    ensures Temper(0x0000_0001) == 0x0040_0091 && Temper(0x0000_0002) == 0x0000_0002
    ensures Temper(0x0000_0004) == 0x0102_0244 && Temper(0x0000_0008) == 0x0204_0489
    ensures Temper(0x0000_0010) == 0x0000_0010 && Temper(0x0000_0020) == 0x0800_1220
    ensures Temper(0x0000_0040) == 0x0000_0040 && Temper(0x0000_0080) == 0x2040_4890
  {
  }

  lemma TemperOfBits8To15()
    ensures Temper(0x0000_0100) == 0x0080_0120 && Temper(0x0000_0200) == 0x0100_0240
    ensures Temper(0x0000_0400) == 0x0200_0480 && Temper(0x0000_0800) == 0x0444_0990
    ensures Temper(0x0000_1000) == 0x0808_1200 && Temper(0x0000_2000) == 0x0102_2244
    ensures Temper(0x0000_4000) == 0x2224_4c81 && Temper(0x0000_8000) == 0x4000_9010
  {
  }

  lemma TemperOfBits16To23()
    ensures Temper(0x0001_0000) == 0x8801_3220 && Temper(0x0002_0000) == 0x0102_0000
    ensures Temper(0x0004_0000) == 0x2044_4891 && Temper(0x0008_0000) == 0x0488_0022
    ensures Temper(0x0010_0000) == 0x0910_0044 && Temper(0x0020_0000) == 0x1220_0088
    ensures Temper(0x0040_0000) == 0x0444_0911 && Temper(0x0080_0000) == 0x0888_1222
  {
  }

  lemma TemperOfBits24To31()
    ensures Temper(0x0100_0000) == 0x8100_0040 && Temper(0x0200_0000) == 0x2220_4888
    ensures Temper(0x0400_0000) == 0x4400_9100 && Temper(0x0800_0000) == 0x8801_2200
    ensures Temper(0x1000_0000) == 0x1102_0440 && Temper(0x2000_0000) == 0x2004_0801
    ensures Temper(0x4000_0000) == 0x4408_1102 && Temper(0x8000_0000) == 0x8810_2204
  {
  }

  /** Tempering is linear over exclusive or, so those images determine it. */
  lemma TemperLinear(x: Word, y: Word)
    ensures Temper(Plus(x, y)) == Plus(Temper(x), Temper(y))
  {
    hide Right11, Left7, Left15, Right18, Plus;
    Right11Linear(x, y);
    Left7Linear(Right11(x), Right11(y));
    Left15Linear(Left7(Right11(x)), Left7(Right11(y)));
    Right18Linear(Left15(Left7(Right11(x))), Left15(Left7(Right11(y))));
  }

  function SeedStep(previous: Word, i: nat): (w: Word)
    requires i < N
  {
    (1812433253 * (previous ^ (previous >> 30)) + i as bv64) & 0xffff_ffff
  }

  function SeedTerm(seed: Word, i: nat): Word
    requires i < N
  {
    if i == 0 then seed & 0xffff_ffff else SeedStep(SeedTerm(seed, i - 1), i)
  }

  /** The published multiplier and shift, by what they make of some words; 5489 is the usual seed. */
  lemma SeedImages()
    ensures SeedStep(0, 1) == 1 && SeedStep(1, 0) == 1812433253
    ensures SeedTerm(5489, 0) == 5489 && SeedStep(5489, 1) == 1301868182 && SeedStep(1301868182, 2) == 2938499221
    ensures SeedStep(0x4000_0000, 0) == 2886175077 && SeedStep(0x8000_0000, 0) == 1477382858
    ensures SeedStep(0x3fff_ffff, 623) == 3556276490 && SeedStep(0xffff_ffff, 623) == 1340202203
  {
  }

  lemma MaskSmall(x: Word)
    ensures Small(x & 0xffff_ffff)
  {
  }

  lemma SeedTermSmall(seed: Word, i: nat)
    requires i < N
    ensures Small(SeedTerm(seed, i))
  {
    if i == 0 {
      MaskSmall(seed);
    } else {
      var previous := SeedTerm(seed, i - 1);
      MaskSmall(1812433253 * (previous ^ (previous >> 30)) + i as bv64);
    }
  }

  // ---------------------------------------------------------------- the generator

  class MTRand {
    const state: array<Word>
    var pNext: nat
    var left: nat
    /** The state holds terms `base ..` of the sequence that starts with `window`. */
    ghost var window: seq<Word>
    ghost var base: nat

    ghost predicate Valid()
      reads this, state
    {
      && state.Length == N && |window| == N && AllSmall(window)
      && left <= N && pNext == N - left
      && forall i :: 0 <= i < N ==> state[i] == Term(window, base + i)
    }

    /** The number of the term that the next call returns. */
    ghost function Position(): nat
      reads this
      requires left <= N
    {
      base + (N - left)
    }

    constructor (seed: Word)
      ensures Valid() && fresh(state)
      ensures window == seq(N, i requires 0 <= i < N => SeedTerm(seed, i)) && Position() == N
    {
      state := new Word[N];
      pNext, left, window, base := 0, 0, [], 0;
      new;
      Initialize(seed);
      Reload();
    }

    method Initialize(seed: Word)
      requires state.Length == N
      modifies state, this
      ensures Valid() && base == 0 && left == 0
      ensures window == seq(N, i requires 0 <= i < N => SeedTerm(seed, i))
    {
      hide SeedStep, Small;
      state[0] := seed & 0xffff_ffff;
      var i := 1;
      while i < N
        invariant 1 <= i <= N
        invariant forall k :: 0 <= k < i ==> state[k] == SeedTerm(seed, k)
      {
        state[i] := SeedStep(state[i - 1], i);
        i := i + 1;
      }
      window, base := seq(N, k requires 0 <= k < N => SeedTerm(seed, k)), 0;
      left, pNext := 0, N;
      forall k | 0 <= k < N
        ensures Small(window[k])
      {
        SeedTermSmall(seed, k);
      }
    }

    /** Rewrites the state in place: each word becomes the term `N` further on. */
    method Reload()
      requires Valid() && left == 0
      modifies state, this`left, this`pNext, this`base
      ensures Valid() && left == N && base == old(base) + N && Position() == old(Position())
    {
      hide Term, Small;
      var p := 0;
      while p < N - M
        invariant p <= N - M && Half(p) && base == old(base)
      {
        Replace(p, p + M, p + 1);
        p := p + 1;
      }
      while p < N - 1
        invariant N - M <= p <= N - 1 && Half(p) && base == old(base)
      {
        Replace(p, p + M - N, p + 1);
        p := p + 1;
      }
      Replace(p, p + M - N, 0);
      left, pNext := N, 0;
      base := base + N;
    }

    /** `*p = twist(...)` */
    method Replace(p: nat, im: nat, i1: nat)
      requires Half(p) && p < N && im < N && i1 < N
      requires state[im] == Term(window, base + p + M) && state[i1] == Term(window, base + p + 1)
      modifies state
      ensures Half(p + 1)
    {
      hide Term, Twist, Recur;
      NextTerm(window, base, p);
      TwistIsRecurrence(state[im], state[p], state[i1]);
      assert state[p] == Term(window, base + p);
      state[p] := Twist(state[im], state[p], state[i1]);
    }

    /** The first `p` words have been replaced. */
    ghost predicate Half(p: nat)
      reads this, state
    {
      && state.Length == N && |window| == N && p <= N
      && (forall i :: 0 <= i < p ==> state[i] == Term(window, base + N + i))
      && (forall i :: p <= i < N ==> state[i] == Term(window, base + i))
    }

    /** The next term of the recurrence, tempered. */
    method RandInt() returns (y: Word)
      requires Valid()
      modifies state, this`left, this`pNext, this`base
      ensures Valid() && Position() == old(Position()) + 1
      ensures y == Temper(Term(window, old(Position()))) && Small(y)
    {
      hide Temper, Small;
      if left == 0 {
        Reload();
      }
      left := left - 1;
      TermsSmall(window, base + pNext);
      var s1 := state[pNext];
      pNext := pNext + 1;
      TemperSmall(s1);
      y := Temper(s1);
    }

    /** The `k`-th number still to come. */
    ghost function Upcoming(k: nat): Word
      reads this
      requires left <= N && |window| == N
    {
      Temper(Term(window, Position() + k))
    }

    /** `save`: the words of the state, then how many of them are left. */
    method Save(saveArray: array<Word>)
      requires Valid() && saveArray.Length == N + 1 && saveArray != state
      modifies saveArray
      ensures saveArray[..N] == state[..] && saveArray[N] == CountWord(left)
    {
      hide Term, AllSmall, CountWord;
      var i := 0;
      while i < N
        invariant 0 <= i <= N
        invariant forall k :: 0 <= k < i ==> saveArray[k] == state[k]
        modifies saveArray
      {
        saveArray[i] := state[i];
        i := i + 1;
      }
      saveArray[N] := CountWord(left);
    }

    /** `load` from what another generator saved: this one continues its stream. */
    method Load(loadArray: array<Word>, ghost saved: MTRand)
      requires state.Length == N && saved.Valid() && saved != this && saved.state != state
      requires loadArray.Length == N + 1 && loadArray != state
      requires loadArray[..N] == saved.state[..] && loadArray[N] == CountWord(saved.left)
      modifies state, this
      ensures Valid() && left == saved.left
      ensures forall k: nat :: Upcoming(k) == saved.Upcoming(k)
    {
      hide Term, AllSmall, Temper, CountWord, WordCount;
      ghost var words := loadArray[..N];
      CountReads(saved.left);
      var i := 0;
      while i < N
        invariant 0 <= i <= N
        invariant forall k :: 0 <= k < i ==> state[k] == words[k]
        modifies state
      {
        assert loadArray[i] == words[i];
        state[i] := loadArray[i];
        i := i + 1;
      }
      left := WordCount(loadArray[N]);
      pNext := N - left;
      window, base := words, 0;
      Restarts(saved.window, words, saved.base);
      assert state[..] == words;
    }
  }

  /** A count of at most `N` as a word: ten bits suffice. */
  function CountWord(left: nat): Word
    requires left <= N
  {
    (left as bv10) as bv64
  }

  function WordCount(w: Word): nat
    requires w <= 1023
  {
    (w as bv10) as nat
  }

  lemma CountReads(left: nat)
    requires left <= N
    ensures CountWord(left) <= 1023 && WordCount(CountWord(left)) == left
  {
    TenBits(left);
    Widened(left as bv10);
  }

  lemma TenBits(left: nat)
    requires left <= N
    ensures (left as bv10) as nat == left
  {
  }

  lemma Widened(b: bv10)
    ensures (b as bv64) <= 1023 && (b as bv64) as bv10 == b
  {
  }

  /** A window copied from a sequence starts the rest of it. */
  lemma Restarts(w: seq<Word>, v: seq<Word>, base: nat)
    requires |w| == |v| == N && AllSmall(w) && forall i :: 0 <= i < N ==> v[i] == Term(w, base + i)
    ensures AllSmall(v)
    ensures forall k: nat :: Term(v, k) == Term(w, base + k)
    ensures forall i :: 0 <= i < N ==> v[i] == Term(v, 0 + i)
  {
    forall k: nat
      ensures Term(v, k) == Term(w, base + k)
    {
      TermShifts(w, v, base, k);
    }
    forall i | 0 <= i < N
      ensures Small(v[i])
    {
      TermsSmall(w, base + i);
    }
  }

  lemma NextTerm(w: seq<Word>, base: nat, p: nat)
    requires |w| == N
    ensures Term(w, base + N + p) == Recur(Term(w, base + p + M), Term(w, base + p), Term(w, base + p + 1))
  {
  }
}
