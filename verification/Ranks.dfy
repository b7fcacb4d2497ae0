/** The place of a rotation among all rotations of a block, as a number. */
module Ranks {
  import opened SerializerTypes
  import opened Rotations

  /** The rotations smaller than that at `x`. */
  ghost function Before(t: seq<int>, x: nat): set<nat>
    requires |t| > 0
  {
    set y: nat | y < |t| && Less(t, y, x, |t|)
  }

  ghost function Rank(t: seq<int>, x: nat): nat
    requires |t| > 0
  {
    |Before(t, x)|
  }

  ghost function RankOf(t: seq<int>): (r: seq<int>)
    requires |t| > 0
    ensures |r| == |t| && forall x: nat :: x < |t| ==> r[x] == Rank(t, x)
  {
    seq(|t|, x requires 0 <= x < |t| => Rank(t, x))
  }

  lemma RankBelow(t: seq<int>, x: nat, y: nat)
    requires |t| > 0 && x < |t| && Less(t, x, y, |t|)
    ensures Rank(t, x) < Rank(t, y)
  {
    hide Less;
    var a, b := Before(t, x), Before(t, y);
    forall z | z in a
      ensures z in b && z != x
    {
      LessTwice(t, z, x, y, |t|);
      if z == x {
        LessExcludes(t, x, x, |t|);
      }
    }
    assert x in b && x !in a;
    SubsetSize(a, b - {x});
  }

  lemma RankSame(t: seq<int>, x: nat, y: nat)
    requires |t| > 0 && Same(t, x, y, |t|)
    ensures Rank(t, x) == Rank(t, y)
  {
    hide Less, Same;
    SameSymmetric(t, x, y, |t|);
    forall z: nat | z < |t|
      ensures z in Before(t, x) <==> z in Before(t, y)
    {
      if Less(t, z, x, |t|) {
        LessThenSame(t, z, x, y, |t|);
      }
      if Less(t, z, y, |t|) {
        LessThenSame(t, z, y, x, |t|);
      }
    }
    assert Before(t, x) == Before(t, y);
  }

  /** Ranks are the lexicographic order of the rotations. */
  lemma RankOrder(t: seq<int>, x: nat, y: nat)
    requires x < |t| && y < |t|
    ensures Rank(t, x) < Rank(t, y) <==> Less(t, x, y, |t|)
    ensures Rank(t, x) <= Rank(t, y) <==> AtMost(t, x, y, |t|)
  {
    hide Less, Same;
    Trichotomy(t, x, y, |t|);
    if Less(t, x, y, |t|) {
      RankBelow(t, x, y);
    } else if Less(t, y, x, |t|) {
      RankBelow(t, y, x);
      LessExcludes(t, y, x, |t|);
    } else {
      RankSame(t, x, y);
    }
  }
}
