/**
 * Filling blocks with run-length coded input (`add_pair_to_block`, `ADD_CHAR_TO_BLOCK`, `flush_RL`,
 * `copy_input_until_stop` and `handle_compress` of benchmarks/simpl/bzip2/src/bzlib.c).
 */
module RunLengthEncoder {
  import opened RunLength
  import D = RunLengthDecoder

  /** `init_RL`: no run is open. */
  const NO_CHAR := 256

  /** The block decodes to these bytes, whatever lies behind it in memory. */
  ghost predicate DecodesTo(block: seq<Byte>, bytes: seq<Byte>) {
    forall src: nat -> Byte :: Holds(src, block, 0) ==> Decoded(src, |block|, 0) == Output(bytes, true)
  }

  lemma CodeDecodes(runs: seq<Run>)
    requires Proper(runs) && Separated(runs)
    ensures DecodesTo(Encoded(runs), Expanded(runs))
  {
    forall src: nat -> Byte | Holds(src, Encoded(runs), 0)
      ensures Decoded(src, |Encoded(runs)|, 0) == Output(Expanded(runs), true)
    {
      DecodedCode(src, |Encoded(runs)|, 0, runs);
    }
  }

  /** The open run as bytes. */
  function Open(ch: int, len: nat): seq<Byte>
    requires 0 <= ch <= NO_CHAR
  {
    if ch == NO_CHAR then [] else Copies(ch, len)
  }

  /** The complete runs of this block and the open one. */
  ghost predicate Consistent(runs: seq<Run>, ch: int, len: nat, block: seq<Byte>) {
    && Proper(runs) && Separated(runs) && block == Encoded(runs)
    && 0 <= ch <= NO_CHAR
    && (ch == NO_CHAR ==> len == 0)
    && (ch < NO_CHAR ==> ProperRun(Run(ch, len)) && (runs != [] ==> MayFollow(runs[|runs| - 1], ch)))
  }

  lemma Closed(runs: seq<Run>, ch: int, len: nat, block: seq<Byte>)
    requires Consistent(runs, ch, len, block) && ch < NO_CHAR
    ensures var more := runs + [Run(ch, len)];
            && Proper(more) && Separated(more) && Encoded(more) == block + Coded(Run(ch, len))
            && Expanded(more) == Expanded(runs) + Copies(ch, len)
  {
    var more := runs + [Run(ch, len)];
    assert more[..|more| - 1] == runs;
    forall i | 0 <= i < |more| - 1
      ensures MayFollow(more[i], more[i + 1].ch)
    {
      if i + 1 < |runs| {
        assert MayFollow(runs[i], runs[i + 1].ch);
      }
    }
  }

  class Encoder {
    const block: array<Byte>
    const nblockMAX: nat
    var nblock: nat
    var inCh: int
    var inLen: nat
    /** The runs already written to this block. */
    ghost var runs: seq<Run>

    constructor (blockSize100k: nat)
      requires 1 <= blockSize100k <= 9
      ensures Ready() && Consumed() == [] && nblock == 0 && fresh(block)
      ensures nblockMAX == 100000 * blockSize100k - 19
    {
      block := new Byte[100000 * blockSize100k];
      nblockMAX := 100000 * blockSize100k - 19;
      nblock, inCh, inLen, runs := 0, NO_CHAR, 0, [];
    }

    ghost predicate Valid()
      reads this, block
    {
      && block.Length == nblockMAX + 19 && nblockMAX >= 1 && nblock <= block.Length
      && Consistent(runs, inCh, inLen, block[..nblock])
    }

    /** Fit to take another byte: after a flush only an empty block is. */
    ghost predicate Ready()
      reads this, block
    {
      Valid() && (inCh == NO_CHAR ==> runs == [])
    }

    /** The input this block and the open run stand for. */
    ghost function Consumed(): seq<Byte>
      reads this, block
      requires Valid()
    {
      Expanded(runs) + Open(inCh, inLen)
    }

    method Put(ch: Byte)
      requires nblock < block.Length
      modifies block, this`nblock
      ensures nblock == old(nblock) + 1 && block[..nblock] == old(block[..nblock]) + [ch]
    {
      block[nblock] := ch;
      nblock := nblock + 1;
    }

    method AddPairToBlock()
      requires Valid() && inCh < NO_CHAR && nblock + 5 <= block.Length
      modifies block, this`nblock, this`runs
      ensures nblock <= old(nblock) + 5 <= block.Length
      ensures runs == old(runs) + [Run(inCh, inLen)]
      ensures Proper(runs) && Separated(runs) && block[..nblock] == Encoded(runs)
      ensures Expanded(runs) == old(Consumed())
    {
      hide Proper, Separated, Encoded, Expanded;
      Closed(runs, inCh, inLen, block[..nblock]);
      WritePair(inCh, inLen);
      runs := runs + [Run(inCh, inLen)];
    }

    method WritePair(ch: Byte, len: nat)
      requires ProperRun(Run(ch, len)) && nblock + 5 <= block.Length
      modifies block, this`nblock
      ensures nblock == old(nblock) + |Coded(Run(ch, len))|
      ensures block[..nblock] == old(block[..nblock]) + Coded(Run(ch, len))
    {
      hide Coded;
      CodedCases(Run(ch, len));
      ghost var before := block[..nblock];
      Put(ch);
      if len == 1 { return; }
      Put(ch);
      assert block[..nblock] == before + [ch, ch];
      if len == 2 { return; }
      Put(ch);
      assert block[..nblock] == before + [ch, ch, ch];
      if len == 3 { return; }
      Put(ch);
      assert block[..nblock] == before + [ch, ch, ch, ch];
      Put(len - 4);
      assert block[..nblock] == before + [ch, ch, ch, ch, len - 4];
    }

    /** `ADD_CHAR_TO_BLOCK`: the open run grows, or is written and a new one opened. */
    method AddCharToBlock(c: Byte)
      requires Ready() && nblock + 5 <= block.Length
      modifies block, this
      ensures Ready() && Consumed() == old(Consumed()) + [c]
      ensures nblock <= old(nblock) + 5
    {
      hide Proper, Separated, Encoded, Expanded;
      if c != inCh && inLen == 1 {
        Closed(runs, inCh, inLen, block[..nblock]);
        CodedCases(Run(inCh, inLen));
        Put(inCh);
        runs := runs + [Run(inCh, inLen)];
        inCh := c;
        OpenOne(c);
      } else if c != inCh || inLen == 255 {
        EmptyRuns();
        if inCh < NO_CHAR {
          AddPairToBlock();
        }
        inCh, inLen := c, 1;
        OpenOne(c);
      } else {
        inLen := inLen + 1;
        OneMore(c, inLen);
      }
    }

    method FlushRL()
      requires Ready() && nblock + 5 <= block.Length
      modifies block, this
      ensures Valid() && inCh == NO_CHAR && Consumed() == old(Consumed()) == Expanded(runs)
      ensures nblock <= old(nblock) + 5
    {
      hide Proper, Separated, Encoded, Expanded;
      if inCh < NO_CHAR {
        AddPairToBlock();
      }
      inCh, inLen := NO_CHAR, 0;
    }

    /** `copy_input_until_stop`: until the block is full, the input is used up or the flush is complete. */
    method CopyInputUntilStop(input: seq<Byte>, from: nat, running: bool, stop: nat) returns (used: nat)
      requires Ready() && from <= |input| && nblock <= nblockMAX + 4 && (!running ==> from <= stop)
      modifies block, this
      ensures Ready() && from <= used <= |input| && nblock <= nblockMAX + 4 && (!running ==> used <= stop)
      ensures Consumed() == old(Consumed()) + input[from..used]
      ensures nblock >= nblockMAX || used == |input| || (!running && used == stop)
      ensures used == from ==> nblock == old(nblock) && inCh == old(inCh)
    {
      hide Consistent, Expanded;
      used := from;
      while nblock < nblockMAX && used < |input| && (running || used < stop)
        invariant Ready() && from <= used <= |input| && nblock <= nblockMAX + 4 && (!running ==> used <= stop)
        invariant Consumed() == old(Consumed()) + input[from..used]
        invariant used == from ==> nblock == old(nblock) && inCh == old(inCh)
        decreases |input| - used
      {
        assert input[from..used + 1] == input[from..used] + [input[used]];
        AddCharToBlock(input[used]);
        used := used + 1;
      }
    }

    /** `BZ2_compressBlock` and `prepare_new_block`: the block goes out, the open run stays. */
    method TakeBlock() returns (bytes: seq<Byte>, ghost part: seq<Byte>)
      requires Valid()
      modifies this`nblock, this`runs
      ensures Ready() && nblock == 0 && runs == [] && |bytes| == old(nblock)
      ensures DecodesTo(bytes, part) && part + Consumed() == old(Consumed())
    {
      CodeDecodes(runs);
      bytes, part := block[..nblock], Expanded(runs);
      nblock, runs := 0, [];
    }

    lemma FlushedEmpty()
      requires Ready() && inCh == NO_CHAR
      ensures Consumed() == []
    {
    }
  }

  lemma CodedCases(r: Run)
    requires ProperRun(r)
    ensures Coded(r) == if r.len == 1 then [r.ch] else if r.len == 2 then [r.ch, r.ch]
                        else if r.len == 3 then [r.ch, r.ch, r.ch] else [r.ch, r.ch, r.ch, r.ch, r.len - 4]
  {
  }

  lemma OpenOne(c: Byte)
    ensures Open(c, 1) == [c] && Open(NO_CHAR, 0) == []
  {
  }

  lemma OneMore(c: Byte, len: nat)
    requires len >= 1
    ensures Copies(c, len) == Copies(c, len - 1) + [c]
  {
  }

  lemma EmptyRuns()
    ensures Proper([]) && Separated([]) && Encoded([]) == [] && Expanded([]) == []
  {
  }

  // ---------------------------------------------------------------- blocks

  /** Every block is within the limit and decodes to its part. */
  ghost predicate Sent(blocks: seq<seq<Byte>>, parts: seq<seq<Byte>>, limit: nat) {
    |parts| == |blocks| && forall i :: 0 <= i < |blocks| ==> |blocks[i]| <= limit && DecodesTo(blocks[i], parts[i])
  }

  lemma SentNext(blocks: seq<seq<Byte>>, parts: seq<seq<Byte>>, bytes: seq<Byte>, part: seq<Byte>, limit: nat, rest: seq<Byte>)
    requires Sent(blocks, parts, limit) && |bytes| <= limit && DecodesTo(bytes, part)
    ensures Sent(blocks + [bytes], parts + [part], limit)
    ensures D.Joined(parts + [part]) + rest == D.Joined(parts) + (part + rest)
  {
    hide DecodesTo, D.Joined;
    D.JoinedNext(parts, part);
    Regroup(D.Joined(parts), part, rest);
    var blocks', parts' := blocks + [bytes], parts + [part];
    forall i | 0 <= i < |blocks'|
      ensures |blocks'[i]| <= limit && DecodesTo(blocks'[i], parts'[i])
    {
      if i < |blocks| {
        assert blocks'[i] == blocks[i] && parts'[i] == parts[i];
      }
    }
  }

  /** What a block decodes to. */
  function Contents(block: seq<Byte>): seq<Byte> {
    Decoded((i: nat) => if i < |block| then block[i] else 0, |block|, 0).bytes
  }

  function AllContents(blocks: seq<seq<Byte>>): (parts: seq<seq<Byte>>)
    ensures |parts| == |blocks| && forall i :: 0 <= i < |blocks| ==> parts[i] == Contents(blocks[i])
  {
    seq(|blocks|, i requires 0 <= i < |blocks| => Contents(blocks[i]))
  }

  lemma ContentsAre(block: seq<Byte>, part: seq<Byte>)
    requires DecodesTo(block, part)
    ensures part == Contents(block)
  {
    var src: nat -> Byte := (i: nat) => if i < |block| then block[i] else 0;
    assert Holds(src, block, 0);
  }

  lemma SentContents(blocks: seq<seq<Byte>>, parts: seq<seq<Byte>>, limit: nat)
    requires Sent(blocks, parts, limit)
    ensures parts == AllContents(blocks)
    ensures forall i :: 0 <= i < |blocks| ==> |blocks[i]| <= limit && DecodesTo(blocks[i], Contents(blocks[i]))
  {
    hide DecodesTo;
    forall i | 0 <= i < |blocks|
      ensures parts[i] == Contents(blocks[i])
    {
      ContentsAre(blocks[i], parts[i]);
    }
  }

  // ---------------------------------------------------------------- the stream

  /** What the compressed blocks amount to. */
  function Zipped(zip: seq<Byte> -> seq<Byte>, blocks: seq<seq<Byte>>): seq<Byte> {
    if blocks == [] then [] else Zipped(zip, blocks[..|blocks| - 1]) + zip(blocks[|blocks| - 1])
  }

  lemma ZippedNext(zip: seq<Byte> -> seq<Byte>, blocks: seq<seq<Byte>>, b: seq<Byte>)
    ensures Zipped(zip, blocks + [b]) == Zipped(zip, blocks) + zip(b)
  {
    assert (blocks + [b])[..|blocks|] == blocks;
  }

  /** Nothing is lost on either side: the compressed blocks and what is still held stand for the input
      taken, the output delivered and what still waits are the compressed blocks. */
  ghost predicate Balanced(blocks: seq<seq<Byte>>, parts: seq<seq<Byte>>, held: seq<Byte>, taken: seq<Byte>,
                           waiting: seq<Byte>, delivered: seq<Byte>, zip: seq<Byte> -> seq<Byte>, limit: nat)
  {
    && Sent(blocks, parts, limit) && D.Joined(parts) + held == taken
    && delivered + waiting == Zipped(zip, blocks)
  }

  lemma BalancedTake(blocks: seq<seq<Byte>>, parts: seq<seq<Byte>>, held: seq<Byte>, taken: seq<Byte>,
                     waiting: seq<Byte>, delivered: seq<Byte>, zip: seq<Byte> -> seq<Byte>, limit: nat, more: seq<Byte>)
    requires Balanced(blocks, parts, held, taken, waiting, delivered, zip, limit)
    ensures Balanced(blocks, parts, held + more, taken + more, waiting, delivered, zip, limit)
  {
    hide Sent;
    Regroup(D.Joined(parts), held, more);
  }

  lemma BalancedBlock(blocks: seq<seq<Byte>>, parts: seq<seq<Byte>>, held: seq<Byte>, taken: seq<Byte>,
                      delivered: seq<Byte>, zip: seq<Byte> -> seq<Byte>, limit: nat, bytes: seq<Byte>, part: seq<Byte>)
    requires Balanced(blocks, parts, part + held, taken, [], delivered, zip, limit)
    requires |bytes| <= limit && DecodesTo(bytes, part)
    ensures Balanced(blocks + [bytes], parts + [part], held, taken, zip(bytes), delivered, zip, limit)
  {
    hide DecodesTo, Sent;
    SentNext(blocks, parts, bytes, part, limit, held);
    ZippedNext(zip, blocks, bytes);
    assert delivered + [] == delivered;
  }

  lemma BalancedDeliver(blocks: seq<seq<Byte>>, parts: seq<seq<Byte>>, held: seq<Byte>, taken: seq<Byte>,
                        waiting: seq<Byte>, delivered: seq<Byte>, zip: seq<Byte> -> seq<Byte>, limit: nat, k: nat)
    requires Balanced(blocks, parts, held, taken, waiting, delivered, zip, limit) && k <= |waiting|
    ensures Balanced(blocks, parts, held, taken, waiting[k..], delivered + waiting[..k], zip, limit)
  {
    hide Sent;
    Regroup(delivered, waiting[..k], waiting[k..]);
    assert waiting[..k] + waiting[k..] == waiting;
  }

  datatype Mode = Running | Flushing | Finishing

  class Stream {
    const enc: Encoder
    /** `BZ2_compressBlock`, whatever it does. */
    const zip: seq<Byte> -> seq<Byte>
    var output: bool
    var zbits: seq<Byte>
    var outPos: nat
    ghost var blocks: seq<seq<Byte>>
    ghost var parts: seq<seq<Byte>>
    ghost var taken: seq<Byte>
    ghost var delivered: seq<Byte>

    constructor (blockSize100k: nat, zip: seq<Byte> -> seq<Byte>)
      requires 1 <= blockSize100k <= 9
      ensures Valid() && taken == [] && delivered == [] && !output
      ensures this.zip == zip && fresh(enc) && fresh(enc.block) && enc.nblockMAX == 100000 * blockSize100k - 19
    {
      enc := new Encoder(blockSize100k);
      this.zip := zip;
      output, zbits, outPos := false, [], 0;
      blocks, parts, taken, delivered := [], [], [], [];
    }

    ghost predicate Valid()
      reads this, enc, enc.block
    {
      && enc.Ready() && enc.nblock <= enc.nblockMAX + 4 && outPos <= |zbits|
      && (!output ==> outPos == |zbits|)
      && (output ==> enc.nblock == 0 && enc.runs == [])
      && Balanced(blocks, parts, enc.Consumed(), taken, zbits[outPos..], delivered, zip, enc.nblockMAX + 9)
    }

    /** All that was taken has been compressed and delivered. */
    predicate Empty()
      reads this, enc
    {
      enc.inCh == NO_CHAR && outPos == |zbits|
    }

    /** `copy_output_until_stop` */
    method CopyOutputUntilStop(room: nat) returns (out: seq<Byte>)
      requires Valid()
      modifies this`outPos, this`delivered
      ensures Valid() && |out| == D.Least(room, |zbits| - old(outPos))
      ensures outPos == old(outPos) + |out| && delivered == old(delivered) + out
    {
      hide Balanced;
      ghost var waiting := zbits[outPos..];
      out := [];
      while |out| < room && outPos < |zbits|
        invariant old(outPos) <= outPos <= |zbits| && |out| == outPos - old(outPos) <= room
        invariant out == waiting[..|out|] && delivered == old(delivered)
        invariant enc.Ready() && enc.Consumed() == old(enc.Consumed()) && enc.nblock == old(enc.nblock)
        decreases |zbits| - outPos
      {
        out := out + [zbits[outPos]];
        outPos := outPos + 1;
      }
      BalancedDeliver(blocks, parts, enc.Consumed(), taken, waiting, delivered, zip, enc.nblockMAX + 9, |out|);
      assert waiting[|out|..] == zbits[outPos..];
      delivered := delivered + out;
    }

    /** The input side of one round: copy input, and note it as taken. */
    method TakeInput(input: seq<Byte>, from: nat, running: bool) returns (used: nat)
      requires Valid() && !output && from <= |input|
      modifies enc, enc.block, this`taken
      ensures Valid() && !output && from <= used <= |input| && taken == old(taken) + input[from..used]
      ensures enc.nblock >= enc.nblockMAX || used == |input|
      ensures used == from ==> enc.nblock == old(enc.nblock) && enc.inCh == old(enc.inCh)
    {
      hide Balanced, Consistent, Expanded;
      BalancedWith(input, from);
      used := enc.CopyInputUntilStop(input, from, running, |input|);
      taken := taken + input[from..used];
    }

    lemma BalancedWith(input: seq<Byte>, from: nat)
      requires Valid() && from <= |input|
      ensures forall used :: from <= used <= |input| ==>
                Balanced(blocks, parts, enc.Consumed() + input[from..used], taken + input[from..used], zbits[outPos..],
                         delivered, zip, enc.nblockMAX + 9)
    {
      hide Balanced;
      forall used | from <= used <= |input|
        ensures Balanced(blocks, parts, enc.Consumed() + input[from..used], taken + input[from..used], zbits[outPos..],
                         delivered, zip, enc.nblockMAX + 9)
      {
        BalancedTake(blocks, parts, enc.Consumed(), taken, zbits[outPos..], delivered, zip, enc.nblockMAX + 9,
                     input[from..used]);
      }
    }

    /** Flush the open run if asked to, and compress the block. */
    method CompressBlock(flush: bool)
      requires Valid() && !output
      modifies enc, enc.block, this
      ensures Valid() && output && outPos == 0 && taken == old(taken) && delivered == old(delivered)
      ensures enc.inCh == if flush then NO_CHAR else old(enc.inCh)
    {
      hide Balanced, Consistent, Expanded, DecodesTo;
      assert zbits[outPos..] == [];
      if flush {
        enc.FlushRL();
      }
      var bytes;
      ghost var part;
      bytes, part := enc.TakeBlock();
      BalancedBlock(blocks, parts, enc.Consumed(), taken, delivered, zip, enc.nblockMAX + 9, bytes, part);
      zbits, outPos, output := zip(bytes), 0, true;
      blocks, parts := blocks + [bytes], parts + [part];
      assert zbits[0..] == zbits;
    }

    /**
     * `handle_compress`: the call ends when the output buffer is full, or when all input is used and, if
     * flushing or finishing, everything has been compressed and delivered. A later call resumes in the
     * state this one ended in.
     */
    method HandleCompress(input: seq<Byte>, mode: Mode, room: nat) returns (used: nat, out: seq<Byte>)
      requires Valid()
      modifies enc, enc.block, this
      ensures Valid() && used <= |input| && |out| <= room
      ensures taken == old(taken) + input[..used] && delivered == old(delivered) + out
      ensures (output && outPos < |zbits| && |out| == room) || (used == |input| && (mode.Running? || Empty()))
      ensures used == 0 ==> enc.inCh == old(enc.inCh) || enc.inCh == NO_CHAR
      ensures used == 0 && enc.inCh == old(enc.inCh) && output && outPos < |zbits| ==>
                !old(output) || (zbits == old(zbits) && outPos == old(outPos) + |out|)
    {
      hide Balanced, Consistent, Expanded, Valid;
      used, out := 0, [];
      assert input[..0] == [];
      while true
        invariant Valid() && used <= |input| && |out| <= room
        invariant taken == old(taken) + input[..used] && delivered == old(delivered) + out
        invariant used == 0 ==> enc.inCh == old(enc.inCh) || enc.inCh == NO_CHAR
        invariant used == 0 && enc.inCh == old(enc.inCh) && old(output) ==>
            output && zbits == old(zbits) && outPos == old(outPos) + |out|
        decreases |input| - used, if enc.inCh == NO_CHAR then 0 else 1, if output then 0 else 1
      {
        if output {
          var more := CopyOutputUntilStop(room - |out|);
          Regroup(old(delivered), out, more);
          out := out + more;
          if outPos < |zbits| {
            break;
          }
          if mode.Finishing? && used == |input| && enc.inCh == NO_CHAR {
            break;
          }
          PrepareNewBlock();
          if mode.Flushing? && used == |input| && enc.inCh == NO_CHAR {
            break;
          }
        }
        var next := TakeInput(input, used, mode.Running?);
        Regroup(old(taken), input[..used], input[used..next]);
        assert input[..used] + input[used..next] == input[..next];
        used := next;
        if !mode.Running? && used == |input| {
          CompressBlock(true);
        } else if Full() {
          CompressBlock(false);
        } else {
          break;
        }
      }
    }

    method PrepareNewBlock()
      requires Valid() && output && outPos == |zbits|
      modifies this`output
      ensures Valid() && !output && enc.nblock == 0 < enc.nblockMAX
    {
      hide Balanced;
      output := false;
    }

    lemma Settled()
      requires Valid() && Empty()
      ensures Stands(blocks, taken, delivered, zip, enc.nblockMAX + 9)
    {
      hide Balanced, Stands, Consistent;
      enc.FlushedEmpty();
      assert zbits[outPos..] == [];
      BalancedStands(blocks, parts, taken, delivered, zip, enc.nblockMAX + 9);
    }

    predicate Full()
      reads this, enc
    {
      enc.nblock >= enc.nblockMAX
    }
  }

  // ---------------------------------------------------------------- whole streams

  /** One call: input up to this position is made available, with this much room for output. */
  datatype Request = Request(upTo: nat, flush: bool, room: nat)

  /** The output is that of blocks within the limit which together decode to the input. */
  ghost predicate Stands(blocks: seq<seq<Byte>>, input: seq<Byte>, out: seq<Byte>, zip: seq<Byte> -> seq<Byte>, limit: nat) {
    && out == Zipped(zip, blocks) && D.Joined(AllContents(blocks)) == input
    && forall i :: 0 <= i < |blocks| ==> |blocks[i]| <= limit && DecodesTo(blocks[i], Contents(blocks[i]))
  }

  lemma BalancedStands(blocks: seq<seq<Byte>>, parts: seq<seq<Byte>>, taken: seq<Byte>, delivered: seq<Byte>,
                       zip: seq<Byte> -> seq<Byte>, limit: nat)
    requires Balanced(blocks, parts, [], taken, [], delivered, zip, limit)
    ensures Stands(blocks, taken, delivered, zip, limit)
  {
    hide DecodesTo, Sent;
    SentContents(blocks, parts, limit);
    assert D.Joined(parts) + [] == D.Joined(parts) && delivered + [] == delivered;
  }

  /** The most bytes a block can hold: `nblockMAX` less one, one pair more, and the flushed run. */
  function BlockLimit(blockSize100k: nat): nat
    requires 1 <= blockSize100k
  {
    100000 * blockSize100k - 10
  }

  /**
   * However the input is cut into calls, flushed or not, however small the output buffers are and wherever
   * the blocks end: the output is that of blocks which together decode to the input, and no block exceeds
   * `100000 * blockSize100k - 10` bytes.
   */
  method Compress(input: seq<Byte>, requests: seq<Request>, last: nat, blockSize100k: nat, zip: seq<Byte> -> seq<Byte>)
    returns (out: seq<Byte>)
    requires 1 <= blockSize100k <= 9 && last >= 1
    ensures exists blocks :: Stands(blocks, input, out, zip, BlockLimit(blockSize100k))
  {
    hide Balanced, Stands, Consistent, Expanded, Stream.Valid;
    var s := new Stream(blockSize100k, zip);
    var pos, used, more := 0, 0, [];
    out := [];
    assert input[..0] == [];
    for i := 0 to |requests|
      invariant s.Valid() && fresh(s) && fresh(s.enc) && fresh(s.enc.block)
      invariant s.zip == zip && s.enc.nblockMAX == 100000 * blockSize100k - 19
      invariant 0 <= pos <= |input| && s.taken == input[..pos] && s.delivered == out
    {
      var upTo := if requests[i].upTo < pos then pos else D.Least(requests[i].upTo, |input|);
      used, more := s.HandleCompress(input[pos..upTo], if requests[i].flush then Flushing else Running, requests[i].room);
      Continues(input, pos, upTo, used);
      pos, out := pos + used, out + more;
    }
    var done := false;
    while !done
      invariant s.Valid() && fresh(s) && fresh(s.enc) && fresh(s.enc.block)
      invariant s.zip == zip && s.enc.nblockMAX == 100000 * blockSize100k - 19
      invariant 0 <= pos <= |input| && s.taken == input[..pos] && s.delivered == out
      invariant done ==> pos == |input| && s.Empty()
      decreases !done, |input| - pos, if s.enc.inCh == NO_CHAR then 0 else 1, if s.output then 0 else 1, |s.zbits| - s.outPos
    {
      used, more := s.HandleCompress(input[pos..], Finishing, last);
      Continues(input, pos, |input|, used);
      assert input[pos..|input|] == input[pos..];
      pos, out := pos + used, out + more;
      done := pos == |input| && s.Empty();
    }
    assert input[..pos] == input && s.enc.nblockMAX + 9 == BlockLimit(blockSize100k);
    s.Settled();
    assert Stands(s.blocks, input, out, zip, BlockLimit(blockSize100k));
  }

  lemma Continues(input: seq<Byte>, pos: nat, upTo: nat, used: nat)
    requires pos <= upTo <= |input| && used <= upTo - pos
    ensures input[..pos] + input[pos..upTo][..used] == input[..pos + used]
  {
  }
}
