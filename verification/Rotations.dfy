/** Lexicographic order of the cyclic rotations of a block, compared on their first `h` bytes. */
module Rotations {

  /** Byte `x` of the block repeated without end. */
  function Sym(t: seq<int>, x: nat): int
    requires |t| > 0
  {
    t[x % |t|]
  }

  predicate Agree(t: seq<int>, i: nat, j: nat, d: nat)
    requires |t| > 0
  {
    Sym(t, i + d) == Sym(t, j + d)
  }

  /** The rotations at `i` and `j` agree on their first `h` bytes. */
  ghost predicate Same(t: seq<int>, i: nat, j: nat, h: nat)
    requires |t| > 0
  {
    forall d: nat :: d < h ==> Agree(t, i, j, d)
  }

  /** The rotations differ first at byte `d`, where that of `i` is smaller. */
  ghost predicate DiffersAt(t: seq<int>, i: nat, j: nat, d: nat)
    requires |t| > 0
  {
    Same(t, i, j, d) && Sym(t, i + d) < Sym(t, j + d)
  }

  /** The rotation at `i` is smaller on the first `h` bytes. */
  ghost predicate Less(t: seq<int>, i: nat, j: nat, h: nat)
    requires |t| > 0
  {
    exists d: nat :: d < h && DiffersAt(t, i, j, d)
  }

  ghost predicate AtMost(t: seq<int>, i: nat, j: nat, h: nat)
    requires |t| > 0
  {
    Less(t, i, j, h) || Same(t, i, j, h)
  }

  // ---------------------------------------------------------------- order

  lemma {:induction false} Trichotomy(t: seq<int>, i: nat, j: nat, h: nat)
    requires |t| > 0
    ensures Less(t, i, j, h) || Same(t, i, j, h) || Less(t, j, i, h)
    decreases h
  {
    hide Sym;
    if h > 0 {
      Trichotomy(t, i, j, h - 1);
      if Same(t, i, j, h - 1) {
        SameSymmetric(t, i, j, h - 1);
        assert DiffersAt(t, i, j, h - 1) || DiffersAt(t, j, i, h - 1) || Agree(t, i, j, h - 1);
      }
    }
  }

  lemma LessExcludes(t: seq<int>, i: nat, j: nat, h: nat)
    requires |t| > 0 && Less(t, i, j, h)
    ensures !Same(t, i, j, h) && !Less(t, j, i, h) && !Same(t, j, i, h)
  {
    hide Sym;
    var d: nat :| d < h && DiffersAt(t, i, j, d);
    assert !Agree(t, i, j, d) && !Agree(t, j, i, d);
    forall e: nat | e < h
      ensures !DiffersAt(t, j, i, e)
    {
      if e < d {
        assert Agree(t, i, j, e);
      }
    }
  }

  lemma SameTransitive(t: seq<int>, i: nat, j: nat, k: nat, h: nat)
    requires |t| > 0 && Same(t, i, j, h) && Same(t, j, k, h)
    ensures Same(t, i, k, h)
  {
    hide Sym;
    forall d: nat | d < h
      ensures Agree(t, i, k, d)
    {
      assert Agree(t, i, j, d) && Agree(t, j, k, d);
    }
  }

  lemma SameSymmetric(t: seq<int>, i: nat, j: nat, h: nat)
    requires |t| > 0 && Same(t, i, j, h)
    ensures Same(t, j, i, h)
  {
    hide Sym;
    forall d: nat | d < h
      ensures Agree(t, j, i, d)
    {
      assert Agree(t, i, j, d);
    }
  }

  lemma SameShorter(t: seq<int>, i: nat, j: nat, h: nat, g: nat)
    requires |t| > 0 && Same(t, i, j, h) && g <= h
    ensures Same(t, i, j, g)
  {
  }

  lemma LessThenSame(t: seq<int>, i: nat, j: nat, k: nat, h: nat)
    requires |t| > 0
    requires (Less(t, i, j, h) && Same(t, j, k, h)) || (Same(t, i, j, h) && Less(t, j, k, h))
    ensures Less(t, i, k, h)
  {
    hide Sym, Same;
    if Less(t, i, j, h) && Same(t, j, k, h) {
      var d: nat :| d < h && DiffersAt(t, i, j, d);
      SameShorter(t, j, k, h, d);
      SameTransitive(t, i, j, k, d);
      assert Agree(t, j, k, d) by { AgreeWithin(t, j, k, h, d); }
      assert DiffersAt(t, i, k, d);
    } else {
      var d: nat :| d < h && DiffersAt(t, j, k, d);
      SameShorter(t, i, j, h, d);
      SameTransitive(t, i, j, k, d);
      assert Agree(t, i, j, d) by { AgreeWithin(t, i, j, h, d); }
      assert DiffersAt(t, i, k, d);
    }
  }

  lemma AgreeWithin(t: seq<int>, i: nat, j: nat, h: nat, d: nat)
    requires |t| > 0 && Same(t, i, j, h) && d < h
    ensures Agree(t, i, j, d)
  {
  }

  lemma LessTwice(t: seq<int>, i: nat, j: nat, k: nat, h: nat)
    requires |t| > 0 && Less(t, i, j, h) && Less(t, j, k, h)
    ensures Less(t, i, k, h)
  {
    hide Sym, Same;
    var d: nat :| d < h && DiffersAt(t, i, j, d);
    var e: nat :| e < h && DiffersAt(t, j, k, e);
    var m := if d < e then d else e;
    SameShorter(t, i, j, d, m);
    SameShorter(t, j, k, e, m);
    SameTransitive(t, i, j, k, m);
    if d < e {
      AgreeWithin(t, j, k, e, d);
    }
    if e < d {
      AgreeWithin(t, i, j, d, e);
    }
    assert DiffersAt(t, i, k, m);
  }

  lemma AtMostTransitive(t: seq<int>, i: nat, j: nat, k: nat, h: nat)
    requires |t| > 0 && AtMost(t, i, j, h) && AtMost(t, j, k, h)
    ensures AtMost(t, i, k, h)
    ensures Less(t, i, j, h) || Less(t, j, k, h) ==> Less(t, i, k, h)
  {
    hide Same, Less;
    if Less(t, i, j, h) && Less(t, j, k, h) {
      LessTwice(t, i, j, k, h);
    } else if Less(t, i, j, h) || Less(t, j, k, h) {
      LessThenSame(t, i, j, k, h);
    } else {
      SameTransitive(t, i, j, k, h);
    }
  }

  // ---------------------------------------------------------------- prefix doubling

  /** Agreeing on `g + h` bytes is agreeing on `g` bytes and then on `h` more. */
  lemma SameSplits(t: seq<int>, i: nat, j: nat, g: nat, h: nat)
    requires |t| > 0
    ensures Same(t, i, j, g + h) <==> Same(t, i, j, g) && Same(t, i + g, j + g, h)
  {
    hide Sym;
    if Same(t, i, j, g) && Same(t, i + g, j + g, h) {
      forall d: nat | d < g + h
        ensures Agree(t, i, j, d)
      {
        if d >= g {
          assert Agree(t, i + g, j + g, d - g);
        }
      }
    }
    if Same(t, i, j, g + h) {
      var i', j' := i + g, j + g;
      forall e: nat | e < h
        ensures Agree(t, i', j', e)
      {
        assert Agree(t, i, j, g + e);
      }
    }
  }

  lemma DiffersShifted(t: seq<int>, i: nat, j: nat, g: nat, e: nat)
    requires |t| > 0
    ensures DiffersAt(t, i, j, g + e) <==> Same(t, i, j, g) && DiffersAt(t, i + g, j + g, e)
  {
    hide Sym, Same;
    SameSplits(t, i, j, g, e);
  }

  /** The first `g` bytes decide, or else the next `h` bytes do. */
  lemma LessSplits(t: seq<int>, i: nat, j: nat, g: nat, h: nat)
    requires |t| > 0
    ensures Less(t, i, j, g + h) <==> Less(t, i, j, g) || (Same(t, i, j, g) && Less(t, i + g, j + g, h))
  {
    hide DiffersAt, Same;
    if Less(t, i, j, g + h) {
      var d: nat :| d < g + h && DiffersAt(t, i, j, d);
      if d >= g {
        DiffersShifted(t, i, j, g, d - g);
      }
    }
    if Same(t, i, j, g) && Less(t, i + g, j + g, h) {
      var e: nat :| e < h && DiffersAt(t, i + g, j + g, e);
      DiffersShifted(t, i, j, g, e);
    }
  }

  lemma AtMostSplits(t: seq<int>, i: nat, j: nat, g: nat, h: nat)
    requires |t| > 0
    ensures AtMost(t, i, j, g + h) <==> Less(t, i, j, g) || (Same(t, i, j, g) && AtMost(t, i + g, j + g, h))
  {
    hide Same, Less;
    SameSplits(t, i, j, g, h);
    LessSplits(t, i, j, g, h);
  }

  // ---------------------------------------------------------------- wrapping around

  lemma SymWraps(t: seq<int>, x: nat)
    requires |t| > 0
    ensures Sym(t, x + |t|) == Sym(t, x)
  {
    ModWraps(x, |t|);
  }

  lemma ModWraps(x: nat, n: nat)
    requires n > 0
    ensures (x + n) % n == x % n
  {
    var p, q := (x + n) / n, x / n;
    assert x + n == n * p + (x + n) % n && x == n * q + x % n;
    assert n * p - n * q == n * (p - q);
    Quotients(n, p - q - 1, x % n - (x + n) % n);
  }

  lemma Quotients(n: int, k: int, r: int)
    requires n * (k + 1) == n + r && -n < r < n
    ensures k == 0 && r == 0
  {
    assert n * (k + 1) == n * k + n;
    assert k >= 1 ==> n * k >= n;
    assert k <= -1 ==> n * k <= -n;
  }

  lemma SameWraps(t: seq<int>, i: nat, h: nat)
    requires |t| > 0
    ensures Same(t, i, i + |t|, h)
  {
    hide Sym;
    var j := i + |t|;
    forall d: nat | d < h
      ensures Agree(t, i, j, d)
    {
      SymWraps(t, i + d);
    }
  }

  /** Rotations that agree all the way round agree for ever. */
  lemma {:induction false} WholeRotation(t: seq<int>, i: nat, j: nat, h: nat)
    requires |t| > 0 && Same(t, i, j, |t|)
    ensures Same(t, i, j, h)
    decreases h
  {
    hide Sym;
    if h > |t| {
      WholeRotation(t, i, j, h - 1);
      var d: nat := h - 1 - |t|;
      assert Agree(t, i, j, d);
      SymWraps(t, i + d);
      SymWraps(t, j + d);
      assert Agree(t, i, j, h - 1);
    }
  }

  /** Order on `h >= |t|` bytes, or a difference in the first `h`, is the order of the whole rotations. */
  lemma WholeOrder(t: seq<int>, i: nat, j: nat, h: nat)
    requires |t| > 0 && AtMost(t, i, j, h) && (h >= |t| || Less(t, i, j, h))
    ensures AtMost(t, i, j, |t|)
  {
    hide Same, Less;
    if h >= |t| {
      AtMostSplits(t, i, j, |t|, h - |t|);
    } else {
      LessSplits(t, i, j, h, |t| - h);
    }
  }
}
