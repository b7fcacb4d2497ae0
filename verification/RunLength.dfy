/**
 * The run-length code in front of the block sort (benchmarks/simpl/bzip2/src/bzlib.c): runs of four to
 * 255 equal bytes become four bytes and a count.
 */
module RunLength {

  type Byte = b: int | 0 <= b < 256

  /** A run of `len` equal bytes. */
  datatype Run = Run(ch: Byte, len: nat)

  function Copies(ch: Byte, len: nat): (r: seq<Byte>)
    ensures |r| == len
  {
    seq(len, _ => ch)
  }

  predicate ProperRun(r: Run) {
    1 <= r.len <= 255
  }

  /** What a run is written as. */
  function Coded(r: Run): (code: seq<Byte>)
    requires ProperRun(r)
    ensures 1 <= |code| <= 5
  {
    if r.len < 4 then Copies(r.ch, r.len) else Copies(r.ch, 4) + [r.len - 4]
  }

  ghost predicate Proper(runs: seq<Run>) {
    forall i :: 0 <= i < |runs| ==> ProperRun(runs[i])
  }

  /** A run may be followed by one of the same byte only if it was cut at its full length. */
  predicate MayFollow(first: Run, next: Byte) {
    first.ch != next || first.len == 255
  }

  ghost predicate Separated(runs: seq<Run>) {
    forall i :: 0 <= i < |runs| - 1 ==> MayFollow(runs[i], runs[i + 1].ch)
  }

  function Encoded(runs: seq<Run>): seq<Byte>
    requires Proper(runs)
  {
    if runs == [] then [] else Encoded(runs[..|runs| - 1]) + Coded(runs[|runs| - 1])
  }

  function Expanded(runs: seq<Run>): seq<Byte> {
    if runs == [] then [] else Expanded(runs[..|runs| - 1]) + Copies(runs[|runs| - 1].ch, runs[|runs| - 1].len)
  }

  // ---------------------------------------------------------------- decoding

  /** `bytes` come out; the code was intact unless `ok` is false. */
  datatype Output = Output(bytes: seq<Byte>, ok: bool)

  /** The run that starts at `i` of a block of `n` bytes: how often its byte is written, and where the
      next run starts. Reading past the end yields whatever the source holds there. */
  function RunAt(src: nat -> Byte, n: nat, i: nat): (r: (nat, nat))
    requires i < n
    ensures r.0 >= 1 && r.1 > i
  {
    if i + 1 == n || src(i + 1) != src(i) then (1, i + 1)
    else if i + 2 == n || src(i + 2) != src(i) then (2, i + 2)
    else if i + 3 == n || src(i + 3) != src(i) then (3, i + 3)
    else (4 + src(i + 4), i + 5)
  }

  /** What is written for the block from `i` on; a count that lies behind the end is a corruption. */
  function Decoded(src: nat -> Byte, n: nat, i: nat): Output
    decreases if i < n then n - i else 0
  {
    if i == n then Output([], true)
    else if i > n then Output([], false)
    else
      var (len, next) := RunAt(src, n, i);
      var rest := Decoded(src, n, next);
      Output(Copies(src(i), len) + rest.bytes, rest.ok)
  }

  /** A block in memory, followed by anything. */
  ghost predicate Holds(src: nat -> Byte, block: seq<Byte>, i: nat) {
    forall k :: 0 <= k < |block| ==> src(i + k) == block[k]
  }

  // ---------------------------------------------------------------- the code is faithful

  lemma RunAtCode(src: nat -> Byte, n: nat, i: nat, r: Run)
    requires ProperRun(r) && Holds(src, Coded(r), i) && i + |Coded(r)| <= n
    requires i + |Coded(r)| < n ==> MayFollow(r, src(i + |Coded(r)|))
    ensures i < n && src(i) == r.ch && RunAt(src, n, i) == (r.len, i + |Coded(r)|)
  {
    var code := Coded(r);
    assert src(i + 0) == code[0];
    if r.len >= 2 {
      assert src(i + 1) == code[1];
    }
    if r.len >= 3 {
      assert src(i + 2) == code[2];
    }
    if r.len >= 4 {
      assert src(i + 3) == code[3];
      assert src(i + 4) == code[4];
    }
  }

  /** Decoding a run after whatever was decoded before it. */
  lemma {:induction false} DecodedCode(src: nat -> Byte, n: nat, i: nat, runs: seq<Run>)
    requires Proper(runs) && Separated(runs) && i <= n
    requires Holds(src, Encoded(runs), i) && i + |Encoded(runs)| == n
    ensures Decoded(src, n, i) == Output(Expanded(runs), true)
    decreases |runs|
  {
    hide Copies, RunAt, Coded, Holds, Separated;
    if runs == [] {
      assert Encoded(runs) == [];
    } else {
      hide Encoded, Expanded;
      FirstRun(runs);
      var first, rest := runs[0], runs[1..];
      var next: nat := i + |Coded(first)|;
      HoldsParts(src, Coded(first), Encoded(rest), i);
      SeparatedRest(src, runs, next);
      RunAtCode(src, n, i, first);
      DecodedCode(src, n, next, rest);
    }
  }

  lemma SeparatedRest(src: nat -> Byte, runs: seq<Run>, next: nat)
    requires Proper(runs) && Separated(runs) && runs != [] && Holds(src, Encoded(runs[1..]), next)
    ensures Separated(runs[1..])
    ensures |runs| > 1 ==> MayFollow(runs[0], src(next)) && |Encoded(runs[1..])| > 0
    ensures |runs| == 1 ==> Encoded(runs[1..]) == []
  {
    var rest := runs[1..];
    forall k | 0 <= k < |rest| - 1
      ensures MayFollow(rest[k], rest[k + 1].ch)
    {
      assert MayFollow(runs[k + 1], runs[k + 1 + 1].ch);
    }
    if rest != [] {
      FirstRun(rest);
      assert src(next + 0) == Encoded(rest)[0] == Coded(rest[0])[0] == runs[1].ch;
      assert MayFollow(runs[0], runs[0 + 1].ch);
    }
  }

  lemma HoldsParts(src: nat -> Byte, a: seq<Byte>, b: seq<Byte>, i: nat)
    requires Holds(src, a + b, i)
    ensures Holds(src, a, i) && Holds(src, b, i + |a|)
  {
    forall k | 0 <= k < |a|
      ensures src(i + k) == a[k]
    {
      assert src(i + k) == (a + b)[k];
    }
    forall k | 0 <= k < |b|
      ensures src(i + |a| + k) == b[k]
    {
      assert src(i + (|a| + k)) == (a + b)[|a| + k];
    }
  }

  /** The same code and the same bytes, read from the front. */
  lemma {:induction false} FirstRun(runs: seq<Run>)
    requires Proper(runs) && runs != []
    ensures Encoded(runs) == Coded(runs[0]) + Encoded(runs[1..])
    ensures Expanded(runs) == Copies(runs[0].ch, runs[0].len) + Expanded(runs[1..])
    decreases |runs|
  {
    hide Coded, Copies;
    var front, last, rest := runs[..|runs| - 1], runs[|runs| - 1], runs[1..];
    if front == [] {
      assert rest == [];
    } else {
      FirstRun(front);
      assert rest[..|rest| - 1] == front[1..] && rest[|rest| - 1] == last && front[0] == runs[0];
      assert Encoded(rest) == Encoded(front[1..]) + Coded(last);
      assert Expanded(rest) == Expanded(front[1..]) + Copies(last.ch, last.len);
      Regroup(Coded(runs[0]), Encoded(front[1..]), Coded(last));
      Regroup(Copies(runs[0].ch, runs[0].len), Expanded(front[1..]), Copies(last.ch, last.len));
    }
  }

  lemma Regroup(a: seq<Byte>, b: seq<Byte>, c: seq<Byte>)
    ensures (a + b) + c == a + (b + c)
  {
  }
}
