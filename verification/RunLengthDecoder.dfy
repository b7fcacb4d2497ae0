/**
 * The two decoding loops (`unRLE_obuf_to_output_FAST` and `_SMALL` of benchmarks/simpl/bzip2/src/bzlib.c,
 * blocks that are not randomised). They are interrupted whenever the output buffer is full.
 */
module RunLengthDecoder {
  import opened RunLength

  function Least(a: nat, b: nat): nat {
    if a < b then a else b
  }

  /** What is still to be written when `len` copies are pending and the next run starts at `i`. */
  function Pending(src: nat -> Byte, n: nat, ch: Byte, len: nat, i: nat): Output {
    Output(Copies(ch, len) + Decoded(src, n, i).bytes, Decoded(src, n, i).ok)
  }

  /** One call: the bytes by which the output has advanced, and whether a corruption was reported. */
  datatype Result = Result(bytes: seq<Byte>, corrupt: bool)

  /** As much of `bytes` as fits. */
  function Fitting(bytes: seq<Byte>, avail: nat): seq<Byte> {
    bytes[..Least(avail, |bytes|)]
  }

  /** What is left once `out` has been delivered. */
  function Left(o: Output, out: seq<Byte>): Output
    requires |out| <= |o.bytes|
  {
    Output(o.bytes[|out|..], o.ok)
  }

  /** The byte-by-byte loop reports a corruption when there is still room behind the last byte. */
  function SmallCall(o: Output, avail: nat): (r: Result)
    ensures |r.bytes| <= |o.bytes|
  {
    Result(Fitting(o.bytes, avail), !o.ok && |o.bytes| < avail)
  }

  /** The other loop also reports when the last byte has just filled the buffer, and then takes back all
      it wrote in this call. */
  function FastCall(o: Output, avail: nat): (r: Result)
    ensures |r.bytes| <= |o.bytes|
  {
    if !o.ok && |o.bytes| <= avail then Result([], true) else Result(Fitting(o.bytes, avail), false)
  }

  /** `out` has been written of `whole` and this is still to come. */
  ghost predicate Writing(src: nat -> Byte, n: nat, ch: Byte, len: nat, i: nat, out: seq<Byte>, whole: Output) {
    out + Pending(src, n, ch, len, i).bytes == whole.bytes && Pending(src, n, ch, len, i).ok == whole.ok
  }

  lemma Begins(src: nat -> Byte, n: nat, ch: Byte, len: nat, i: nat)
    ensures Writing(src, n, ch, len, i, [], Pending(src, n, ch, len, i))
  {
  }

  lemma Emitted(src: nat -> Byte, n: nat, ch: Byte, len: nat, i: nat, out: seq<Byte>, whole: Output, k: nat)
    requires k <= len && Writing(src, n, ch, len, i, out, whole)
    ensures Writing(src, n, ch, len - k, i, out + Copies(ch, k), whole)
  {
    assert Copies(ch, len) == Copies(ch, k) + Copies(ch, len - k);
  }

  lemma RunStarted(src: nat -> Byte, n: nat, ch: Byte, i: nat, out: seq<Byte>, whole: Output)
    requires i < n && Writing(src, n, ch, 0, i, out, whole)
    ensures var (len, next) := RunAt(src, n, i);
            Writing(src, n, src(i), len, next, out, whole)
  {
    assert Pending(src, n, ch, 0, i).bytes == Decoded(src, n, i).bytes;
  }

  lemma Interrupted(src: nat -> Byte, n: nat, ch: Byte, len: nat, i: nat, out: seq<Byte>, whole: Output)
    requires Writing(src, n, ch, len, i, out, whole)
    ensures |out| <= |whole.bytes| && out == whole.bytes[..|out|]
    ensures Pending(src, n, ch, len, i) == Output(whole.bytes[|out|..], whole.ok)
  {
  }

  lemma SomethingPending(src: nat -> Byte, n: nat, ch: Byte, len: nat, i: nat)
    requires len > 0
    ensures Pending(src, n, ch, len, i).bytes != []
  {
  }

  lemma Ended(src: nat -> Byte, n: nat, ch: Byte, i: nat, out: seq<Byte>, whole: Output)
    requires i >= n && Writing(src, n, ch, 0, i, out, whole)
    ensures out == whole.bytes && whole.ok == (i == n)
  {
  }

  /** Writes copies while there is room and more than `keep` of them are left. */
  method FinishRun(ch: Byte, len: nat, keep: nat, room: nat) returns (bytes: seq<Byte>, left: nat)
    requires keep <= len
    ensures |bytes| == Least(len - keep, room) && bytes == Copies(ch, |bytes|) && left == len - |bytes|
  {
    bytes, left := [], len;
    while |bytes| < room && left > keep
      invariant |bytes| <= room && keep <= left == len - |bytes|
      invariant bytes == Copies(ch, |bytes|)
      decreases left
    {
      bytes := bytes + [ch];
      left := left - 1;
    }
  }

  class Decoder {
    /** The bytes of the block in order of reading; from `n` on they do not belong to it. */
    const src: nat -> Byte
    const n: nat
    var used: nat
    var k0: Byte
    var outCh: Byte
    var outLen: nat

    constructor (src: nat -> Byte, n: nat)
      ensures Valid() && State() == Decoded(src, n, 0) && this.src == src && this.n == n
    {
      this.src, this.n := src, n;
      used, k0, outCh, outLen := 1, src(0), 0, 0;
    }

    ghost predicate Valid()
      reads this
    {
      used >= 1 && (used <= n ==> k0 == src(used - 1))
    }

    /** What this decoder has still to write. */
    ghost function State(): Output
      reads this
      requires used >= 1
    {
      Pending(src, n, outCh, outLen, used - 1)
    }

    /** `nblock_used` has passed the whole block and no copies are left. */
    predicate Finished()
      reads this
    {
      used == n + 1 && outLen == 0
    }

    // -------------------------------------------------------------- SMALL

    /** Reads one run: its length, the bytes read so far and the byte that starts the next run. */
    static method NextRunSmall(src: nat -> Byte, n: nat, used0: nat, first: Byte) returns (len: nat, used: nat, k0: Byte)
      requires 1 <= used0 <= n && first == src(used0 - 1)
      ensures used > used0 && RunAt(src, n, used0 - 1) == (len, used - 1)
      ensures used <= n ==> k0 == src(used - 1)
    {
      k0, used, len := first, used0, 1;
      var k1 := src(used);
      used := used + 1;
      if used == n + 1 { return; }
      if k1 != k0 { k0 := k1; return; }
      len := 2;
      k1 := src(used);
      used := used + 1;
      if used == n + 1 { return; }
      if k1 != k0 { k0 := k1; return; }
      len := 3;
      k1 := src(used);
      used := used + 1;
      if used == n + 1 { return; }
      if k1 != k0 { k0 := k1; return; }
      k1 := src(used);
      used := used + 1;
      len := k1 as int + 4;
      k0 := src(used);
      used := used + 1;
    }

    /** Byte by byte: what was written counts as delivered, and a full buffer ends the call before the
        test for corruption. */
    method Small(avail: nat) returns (out: seq<Byte>, corrupt: bool)
      requires Valid()
      modifies this
      ensures Valid()
      ensures SmallCall(old(State()), avail) == Result(out, corrupt)
      ensures State() == Left(old(State()), out)
      ensures !corrupt && |out| < avail ==> Finished()
    {
      hide Pending, Writing, RunAt, Copies;
      ghost var whole := State();
      Begins(src, n, outCh, outLen, used - 1);
      out, corrupt := [], false;
      while true
        invariant Valid() && |out| <= avail && !corrupt && Writing(src, n, outCh, outLen, used - 1, out, whole)
        decreases if used <= n then n + 1 - used else 0
      {
        var bytes, left := FinishRun(outCh, outLen, 0, avail - |out|);
        Emitted(src, n, outCh, outLen, used - 1, out, whole, |bytes|);
        out := out + bytes;
        outLen := left;
        if |out| == avail {
          Interrupted(src, n, outCh, outLen, used - 1, out, whole);
          return;
        }
        if used >= n + 1 {
          Ended(src, n, outCh, used - 1, out, whole);
          Interrupted(src, n, outCh, outLen, used - 1, out, whole);
          corrupt := used > n + 1;
          return;
        }
        RunStarted(src, n, outCh, used - 1, out, whole);
        var len, used', k0' := NextRunSmall(src, n, used, k0);
        outCh := k0;
        outLen, used, k0 := len, used', k0';
      }
    }

    // -------------------------------------------------------------- FAST

    /** Reads one run; a run of length one is left to the caller's short cut. */
    static method NextRunFast(src: nat -> Byte, n: nat, used0: nat, first: Byte)
      returns (single: bool, len: nat, used: nat, k0: Byte)
      requires 1 <= used0 <= n && first == src(used0 - 1)
      ensures used > used0 && RunAt(src, n, used0 - 1) == (if single then 1 else len, used - 1)
      ensures !single ==> len >= 2
      ensures used <= n ==> k0 == src(used - 1)
    {
      k0, used, len, single := first, used0, 0, false;
      var k1 := src(used);
      used := used + 1;
      if k1 != k0 { k0, single := k1, true; return; }
      if used == n + 1 { single := true; return; }
      len := 2;
      k1 := src(used);
      used := used + 1;
      if used == n + 1 { return; }
      if k1 != k0 { k0 := k1; return; }
      len := 3;
      k1 := src(used);
      used := used + 1;
      if used == n + 1 { return; }
      if k1 != k0 { k0 := k1; return; }
      k1 := src(used);
      used := used + 1;
      len := k1 as int + 4;
      k0 := src(used);
      used := used + 1;
    }

    /** The state is kept in local variables, with a short cut for single bytes. A call that finds a
        corruption returns before they are saved: it delivers nothing. */
    method Fast(avail: nat) returns (out: seq<Byte>, corrupt: bool)
      requires Valid()
      modifies this
      ensures Valid()
      ensures FastCall(old(State()), avail) == Result(out, corrupt)
      ensures State() == Left(old(State()), out)
      ensures !corrupt && |out| < avail ==> Finished()
    {
      hide Pending, Writing, RunAt, Copies;
      ghost var whole := State();
      Begins(src, n, outCh, outLen, used - 1);
      var ch, len, u, c := outCh, outLen, used, k0;
      var single := false;
      out, corrupt := [], false;
      while true
        invariant u >= 1 && (u <= n ==> c == src(u - 1)) && |out| <= avail && Valid() && !corrupt
        invariant Writing(src, n, ch, if single then 1 else len, u - 1, out, whole) && State() == whole
        decreases if u <= n then n + 1 - u else 0
      {
        if single || len > 0 {
          if !single {
            var bytes, left := FinishRun(ch, len, 1, avail - |out|);
            Emitted(src, n, ch, len, u - 1, out, whole, |bytes|);
            out := out + bytes;
            len := left;
          }
          if |out| == avail {
            len := if single then 1 else len;
            Interrupted(src, n, ch, len, u - 1, out, whole);
            SomethingPending(src, n, ch, len, u - 1);
            Save(ch, len, u, c);
            return;
          }
          Emitted(src, n, ch, 1, u - 1, out, whole, 1);
          CopiesOne(ch);
          out := out + [ch];
        }
        if u >= n + 1 {
          Ended(src, n, ch, u - 1, out, whole);
          Interrupted(src, n, ch, 0, u - 1, out, whole);
          corrupt := u > n + 1;
          if corrupt {
            out := [];
            assert whole.bytes[0..] == whole.bytes;
          } else {
            Save(ch, 0, u, c);
          }
          return;
        }
        RunStarted(src, n, ch, u - 1, out, whole);
        ch := c;
        single, len, u, c := NextRunFast(src, n, u, c);
      }
    }

    method Save(ch: Byte, len: nat, u: nat, c: Byte)
      requires u >= 1 && (u <= n ==> c == src(u - 1))
      modifies this
      ensures Valid() && used == u && outLen == len && State() == Pending(src, n, ch, len, u - 1)
    {
      outCh, outLen, used, k0 := ch, len, u, c;
    }
  }

  lemma CopiesOne(ch: Byte)
    ensures Copies(ch, 1) == [ch]
  {
  }

  // ---------------------------------------------------------------- both decoders

  /** The calls of one loop with these buffer sizes, up to the first that reports a corruption. */
  function SmallCalls(o: Output, sizes: seq<nat>): (rs: seq<Result>)
    ensures |rs| <= |sizes|
    decreases |sizes|
  {
    if sizes == [] then []
    else
      var r := SmallCall(o, sizes[0]);
      [r] + if r.corrupt then [] else SmallCalls(Left(o, r.bytes), sizes[1..])
  }

  function FastCalls(o: Output, sizes: seq<nat>): (rs: seq<Result>)
    ensures |rs| <= |sizes|
    decreases |sizes|
  {
    if sizes == [] then []
    else
      var r := FastCall(o, sizes[0]);
      [r] + if r.corrupt then [] else FastCalls(Left(o, r.bytes), sizes[1..])
  }

  /** The loops make exactly these calls, for every block and every list of buffer sizes. */
  method DecodeTwice(src: nat -> Byte, n: nat, sizes: seq<nat>) returns (fast: seq<Result>, small: seq<Result>)
    ensures fast == FastCalls(Decoded(src, n, 0), sizes)
    ensures small == SmallCalls(Decoded(src, n, 0), sizes)
  {
    hide Pending, Decoded;
    var d := new Decoder(src, n);
    fast := [];
    assert sizes[0..] == sizes;
    for i := 0 to |sizes|
      invariant d.Valid() && |fast| == i
      invariant fast + FastCalls(d.State(), sizes[i..]) == FastCalls(Decoded(src, n, 0), sizes)
    {
      assert sizes[i..][0] == sizes[i] && sizes[i..][1..] == sizes[i + 1..];
      var out, corrupt := d.Fast(sizes[i]);
      Regrouped(fast, Result(out, corrupt), if corrupt then [] else FastCalls(d.State(), sizes[i + 1..]));
      fast := fast + [Result(out, corrupt)];
      if corrupt {
        break;
      }
    }
    d := new Decoder(src, n);
    small := [];
    for i := 0 to |sizes|
      invariant d.Valid() && |small| == i
      invariant small + SmallCalls(d.State(), sizes[i..]) == SmallCalls(Decoded(src, n, 0), sizes)
    {
      assert sizes[i..][0] == sizes[i] && sizes[i..][1..] == sizes[i + 1..];
      var out, corrupt := d.Small(sizes[i]);
      Regrouped(small, Result(out, corrupt), if corrupt then [] else SmallCalls(d.State(), sizes[i + 1..]));
      small := small + [Result(out, corrupt)];
      if corrupt {
        break;
      }
    }
  }

  lemma Regrouped(a: seq<Result>, r: Result, b: seq<Result>)
    ensures a + ([r] + b) == (a + [r]) + b
  {
  }

  /** Up to the first report, which the fast loop makes first, both loops deliver the same bytes. */
  lemma {:induction false} SameUntilReport(o: Output, sizes: seq<nat>, k: nat)
    requires k < |FastCalls(o, sizes)|
    ensures k < |SmallCalls(o, sizes)|
    ensures !FastCalls(o, sizes)[k].corrupt ==> FastCalls(o, sizes)[k] == SmallCalls(o, sizes)[k]
    decreases k
  {
    var r := FastCall(o, sizes[0]);
    if k > 0 {
      SameUntilReport(Left(o, r.bytes), sizes[1..], k - 1);
    }
  }

  /** On an intact block, or on one whose output the buffers do not exhaust, all calls agree; on any other
      they do not. */
  lemma {:induction false} SameCallsIff(o: Output, sizes: seq<nat>)
    requires o.bytes != []
    ensures FastCalls(o, sizes) == SmallCalls(o, sizes) <==> o.ok || Total(sizes) < |o.bytes|
    decreases |sizes|
  {
    if sizes != [] {
      TotalFirst(sizes);
      var f, s := FastCall(o, sizes[0]), SmallCall(o, sizes[0]);
      var fs, ss := FastCalls(o, sizes), SmallCalls(o, sizes);
      assert fs[0] == f && ss[0] == s;
      if o.ok || sizes[0] < |o.bytes| {
        assert f == s && !f.corrupt;
        var rest := Left(o, f.bytes);
        assert fs[1..] == FastCalls(rest, sizes[1..]) && ss[1..] == SmallCalls(rest, sizes[1..]);
        if rest.bytes != [] {
          SameCallsIff(rest, sizes[1..]);
        } else {
          SameCallsWhenOk(rest, sizes[1..]);
        }
      }
    }
  }

  lemma {:induction false} SameCallsWhenOk(o: Output, sizes: seq<nat>)
    requires o.ok
    ensures FastCalls(o, sizes) == SmallCalls(o, sizes)
    decreases |sizes|
  {
    if sizes != [] {
      SameCallsWhenOk(Left(o, Fitting(o.bytes, sizes[0])), sizes[1..]);
    }
  }

  lemma {:induction false} TotalFirst(sizes: seq<nat>)
    requires sizes != []
    ensures Total(sizes) == sizes[0] + Total(sizes[1..])
    decreases |sizes|
  {
    if |sizes| > 1 {
      var front := sizes[..|sizes| - 1];
      TotalFirst(front);
      assert sizes[1..][..|sizes| - 2] == front[1..];
    }
  }

  /** A damaged block still has some output. */
  lemma DamagedHasOutput(src: nat -> Byte, n: nat)
    requires !Decoded(src, n, 0).ok
    ensures Decoded(src, n, 0).bytes != []
  {
  }

  /** The two loops agree for every list of buffer sizes if and only if the block is intact. */
  lemma SameCallsAlwaysIff(src: nat -> Byte, n: nat)
    ensures (forall sizes :: FastCalls(Decoded(src, n, 0), sizes) == SmallCalls(Decoded(src, n, 0), sizes)) <==>
            Decoded(src, n, 0).ok
  {
    hide Decoded;
    var o := Decoded(src, n, 0);
    if o.ok {
      forall sizes
        ensures FastCalls(o, sizes) == SmallCalls(o, sizes)
      {
        SameCallsWhenOk(o, sizes);
      }
    } else {
      DamagedHasOutput(src, n);
      var sizes := [|o.bytes|];
      assert Total(sizes) == |o.bytes|;
      SameCallsIff(o, sizes);
    }
  }

  /** Four equal bytes without a count, and a buffer of exactly the length of their output: one loop
      reports and delivers nothing, the other delivers everything and reports nothing. */
  lemma DamagedBlock(c: Byte)
    ensures var o, room := Decoded(_ => c, 4, 0), 4 + c;
            && !o.ok && FastCalls(o, [room]) == [Result([], true)]
            && SmallCalls(o, [room]) == [Result(Copies(c, room), false)]
  {
    var src: nat -> Byte := _ => c;
    var o, room := Decoded(src, 4, 0), 4 + c;
    assert RunAt(src, 4, 0) == (room, 5);
    assert o == Output(Copies(c, room) + [], false);
    assert o.bytes == Copies(c, room);
  }

  /** What an intact block's calls deliver together: as much of the whole as the buffers hold. */
  lemma {:induction false} DeliveredBytes(o: Output, sizes: seq<nat>)
    requires o.ok
    ensures |FastCalls(o, sizes)| == |sizes|
    ensures Delivered(FastCalls(o, sizes)) == Fitting(o.bytes, Total(sizes))
    decreases |sizes|
  {
    if sizes != [] {
      TotalFirst(sizes);
      var first := Fitting(o.bytes, sizes[0]);
      DeliveredBytes(Left(o, first), sizes[1..]);
      assert FastCalls(o, sizes)[1..] == FastCalls(Left(o, first), sizes[1..]);
    }
  }

  /** The bytes of all calls, one after the other. */
  function Delivered(rs: seq<Result>): seq<Byte> {
    if rs == [] then [] else rs[0].bytes + Delivered(rs[1..])
  }

  function Joined(parts: seq<seq<Byte>>): seq<Byte> {
    if parts == [] then [] else Joined(parts[..|parts| - 1]) + parts[|parts| - 1]
  }

  function Total(sizes: seq<nat>): nat {
    if sizes == [] then 0 else Total(sizes[..|sizes| - 1]) + sizes[|sizes| - 1]
  }

  lemma JoinedNext(parts: seq<seq<Byte>>, a: seq<Byte>)
    ensures Joined(parts + [a]) == Joined(parts) + a
  {
    assert (parts + [a])[..|parts|] == parts;
  }
}
