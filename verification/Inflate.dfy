/** inflate, and what it delivers over a whole run of calls. */
module Inflate {
  import opened Basics
  import opened Bits
  import opened HuftBuild
  import opened Rfc1951
  import opened InflateCodes
  import opened InflateBlocks
  import opened Refusals
  import opened Faults
  import Deflate
  import WrittenBlocks

  /** inflate_mode, in raw mode: the header and check states are never entered. */
  datatype InflateMode = IM_BLOCKS | IM_DONE | IM_BAD

  /** The whole bytes that n bits take. */
  function BytesFor(n: nat): nat
  {
    (n + 7) / 8
  }

  class Inflater {
    const blocks: BlocksState
    ghost const goal: Outcome     // what inflate makes of the whole input
    var mode: InflateMode

    constructor (inp: seq<byte>)
      ensures Valid() && mode == IM_BLOCKS && goal == Goes(Decode(inp)) && Input() == inp
      ensures Out() == [] && InGranted() == 0 && OutGranted() == 0 && !blocks.noMem
      ensures fresh(Repr())
    {
      hide Decode, BlocksState.Valid, BlocksState.Meaning;
      blocks := new BlocksState(inp);
      mode := IM_BLOCKS;
      goal := Goes(Decode(inp));
    }

    ghost function Input(): seq<byte> { blocks.br.inp }

    /** Everything handed to the caller so far. */
    function Out(): seq<byte>
      reads blocks.win
    {
      blocks.win.out
    }

    /** Input bytes granted so far, consumed or not. */
    ghost function InGranted(): nat
      reads blocks.br
    {
      blocks.br.nextIn + blocks.br.availIn
    }

    /** Output space granted so far, used or not. */
    ghost function OutGranted(): nat
      reads blocks.win
    {
      |blocks.win.out| + blocks.win.availOut
    }

    ghost function Repr(): set<object>
      reads blocks
    {
      {this, blocks, blocks.br, blocks.win, blocks.win.buf, blocks.hufts}
          + (if blocks.codes == null then {} else {blocks.codes})
    }

    /** Whatever is left to decode completes the output to that of the whole stream, or to
        what comes before its error. */
    ghost predicate Valid()
      reads this, blocks, blocks.br, blocks.win, blocks.win.buf, blocks.hufts, blocks.codes
    {
      && blocks.Valid()
      && goal == Goes(Decode(Input()))
      && match mode
         case IM_BLOCKS => Keeps(goal, blocks.Meaning())
         case IM_DONE => blocks.mode == DONE && Keeps(goal, Done(Out(), blocks.br.Pos()))
         case IM_BAD => Fails(goal) && goal.out == blocks.win.made
    }

    /** What inflate may return, and what each code tells about the whole stream. */
    ghost predicate Result(r: int)
      reads this, blocks, blocks.br, blocks.win, blocks.win.buf, blocks.hufts, blocks.codes
      requires Valid()
    {
      && blocks.noMem == (r == Z_MEM_ERROR)
      && if r == Z_STREAM_END then
        mode == IM_DONE
        && goal == Done(Out(), blocks.br.Pos()) && blocks.br.nextIn == BytesFor(blocks.br.Pos())
      else if r == Z_DATA_ERROR then Fails(goal)
      else if r == Z_MEM_ERROR then goal.Bad?
      else
        && r in {Z_OK, Z_BUF_ERROR}
        && (OutOfInput() || OutOfSpace())
    }

    /** All granted input is used up, and it is not decided a whole byte before the end of
        what was granted how the stream ends: one byte more always suffices. */
    ghost predicate OutOfInput()
      reads this, blocks.br
    {
      blocks.br.availIn == 0 && (Stops(goal) ==> goal.end + 8 > 8 * InGranted())
    }

    /** All granted output space is used up, and there is more to come. */
    ghost predicate OutOfSpace()
      reads this, blocks.win
    {
      blocks.win.availOut == 0 && |Out()| < |goal.out|
    }

    /** Bytes delivered are always the first bytes of the output. */
    lemma Prefix()
      requires Valid()
      ensures Out() <= goal.out
      ensures mode == IM_BLOCKS ==> blocks.win.made <= goal.out
    {
      hide Decode, BlocksState.Valid, BlocksState.Meaning;
      blocks.Extends();
    }

    /** inflate: returns Z_STREAM_END, Z_DATA_ERROR, Z_MEM_ERROR or, for want of input
        or output space, Z_OK or Z_BUF_ERROR. */
    method Inflate(finish: bool) returns (r: int)
      requires Valid() && !blocks.noMem
      modifies this, blocks, blocks.br, blocks.win, blocks.win.buf, blocks.hufts, blocks.codes
      ensures Valid() && Result(r)
      ensures InGranted() == old(InGranted()) && OutGranted() == old(OutGranted())
      ensures old(Out()) <= Out()
      ensures blocks.codes == old(blocks.codes) || fresh(blocks.codes)
      ensures Out() <= goal.out
    {
      hide Decode, BlocksState.Valid, BlocksState.Meaning;
      if mode == IM_BLOCKS {
        r := RunBlocks(finish);
      } else if mode == IM_DONE {
        r := Z_STREAM_END;
        DonePos();
      } else {
        r := Z_DATA_ERROR;
      }
      Prefix();
    }

    lemma DonePos()
      requires Valid() && mode == IM_DONE
      ensures blocks.br.nextIn == BytesFor(blocks.br.Pos())
    {
      hide Blocks, Decode, BlocksState.Valid, BlocksState.Meaning;
      blocks.Extends();
    }

    method RunBlocks(finish: bool) returns (r: int)
      requires Valid() && mode == IM_BLOCKS && !blocks.noMem
      modifies this, blocks, blocks.br, blocks.win, blocks.win.buf, blocks.hufts, blocks.codes
      ensures Valid() && Result(r)
      ensures InGranted() == old(InGranted()) && OutGranted() == old(OutGranted())
      ensures old(Out()) <= Out()
      ensures blocks.codes == old(blocks.codes) || fresh(blocks.codes)
    {
      hide Decode, BlocksState.Valid, BlocksState.Meaning;
      var f := if finish then Z_BUF_ERROR else Z_OK;
      r := blocks.InflateBlocks(Z_BUF_ERROR);
      blocks.Extends();
      Prefix();
      if r == Z_DATA_ERROR {
        mode := IM_BAD;
        return;
      }
      if r == Z_OK { r := f; }
      if r != Z_STREAM_END { return; }
      mode := IM_DONE;
      DonePos();
    }
  }

  /** The grants cover the input, with a byte more than decoding needs to see, and the
      output. */
  ghost predicate Ample(goal: Outcome, inp: seq<byte>, grants: seq<(nat, nat)>)
  {
    && Stops(goal) && goal.end + 8 <= 8 * |inp|
    && InTotal(grants) >= |inp| && OutTotal(grants) >= |goal.out|
  }

  /** A run on any input at all: each call of inflate is granted some more input bytes and
      some more output space, in any instalments, until one returns something other than
      Z_OK or Z_BUF_ERROR.
      - What was delivered is always a prefix of what inflate makes of the input, and all
        of it once Z_STREAM_END is returned, with all of the stream's bytes consumed and no
        byte more.
      - Z_DATA_ERROR is returned only where that is an error, Z_MEM_ERROR only for
        malformed streams.
      - With ample grants the run comes to the end or to the error. */
  method RunInInstalments(inp: seq<byte>, grants: seq<(nat, nat)>, finish: bool)
    returns (out: seq<byte>, used: nat, r: int)
    requires |grants| > 0
    ensures var goal := Goes(Decode(inp));
            && out <= goal.out
            && (r == Z_STREAM_END ==> goal.Done? && out == goal.out && used == BytesFor(goal.end))
            && (r == Z_DATA_ERROR ==> Fails(goal))
            && (r == Z_MEM_ERROR ==> goal.Bad?)
            && (Ample(goal, inp, grants) ==>
                  match goal
                  case Done(_, _) => r == Z_STREAM_END
                  case Refused(_, _, _) => r == Z_DATA_ERROR
                  case _ => r in {Z_DATA_ERROR, Z_MEM_ERROR})
    ensures r in {Z_OK, Z_BUF_ERROR, Z_STREAM_END, Z_DATA_ERROR, Z_MEM_ERROR}
  {
    hide Blocks, Decode, BlocksState.Valid, BlocksState.Meaning;
    var z := new Inflater(inp);
    var i: nat := 0;
    r := Z_OK;
    while i < |grants| && (r == Z_OK || r == Z_BUF_ERROR)
      invariant i <= |grants| && fresh(z.Repr()) && z.Valid() && z.Input() == inp && z.goal == Goes(Decode(inp))
      invariant z.blocks.noMem ==> r == Z_MEM_ERROR
      invariant if i == 0 then r == Z_OK else z.Result(r)
      invariant z.Out() <= z.goal.out
      invariant r in {Z_OK, Z_BUF_ERROR, Z_STREAM_END, Z_DATA_ERROR, Z_MEM_ERROR}
      invariant r in {Z_OK, Z_BUF_ERROR} ==>
                  && z.InGranted() == (if InTotal(grants[..i]) < |inp| then InTotal(grants[..i]) else |inp|)
                  && z.OutGranted() == OutTotal(grants[..i])
    {
      Grant(z, inp, grants[i]);
      TotalStep(grants, i);
      r := z.Inflate(finish);
      i := i + 1;
    }
    assert grants[..|grants|] == grants;
    out, used := z.Out(), z.blocks.br.nextIn;
  }

  /** Any stream, with ample grants: inflate comes to its end exactly when RFC 1951 does so,
      without refusal, with 32768 zero bytes before the stream. So a malformed stream goes
      unnoticed exactly when these zeros would make it well-formed, that is, when it only
      reaches back too far. */
  method RunToTheEnd(inp: seq<byte>, grants: seq<(nat, nat)>, finish: bool)
    returns (out: seq<byte>, used: nat, r: int)
    requires |grants| > 0 && Ample(Goes(Decode(inp)), inp, grants)
    ensures r in {Z_STREAM_END, Z_DATA_ERROR, Z_MEM_ERROR}
    ensures r == Z_STREAM_END <==> Blocks(BitsOf(inp), 0, Zeros()).Done?
    ensures var rz := Blocks(BitsOf(inp), 0, Zeros());
            r == Z_STREAM_END ==> rz.out == Zeros() + out && used == BytesFor(rz.end)
    ensures r == Z_STREAM_END && !Plain(Decode(inp)).Done? ==> Decode(inp).Unnoticed?
  {
    hide Blocks, Zeros;
    BehindZeros(inp);
    out, used, r := RunInInstalments(inp, grants, finish);
  }

  /** A well-formed stream, as the format defines it, with a byte after it and enough space:
      it is decoded to its end exactly when inflate takes all of its dynamic blocks. */
  method RunWellFormed(inp: seq<byte>, grants: seq<(nat, nat)>, finish: bool)
    returns (out: seq<byte>, used: nat, r: int)
    requires |grants| > 0 && Plain(Decode(inp)).Done?
    requires var rfc := Plain(Decode(inp));
             rfc.end + 8 <= 8 * |inp| && InTotal(grants) >= |inp| && OutTotal(grants) >= |rfc.out|
    ensures var rfc := Plain(Decode(inp));
            && out <= rfc.out
            && (r == Z_STREAM_END <==> AllTaken(BitsOf(inp), 0, []))
            && (r == Z_STREAM_END ==> out == rfc.out && used == BytesFor(rfc.end))
            && (r != Z_STREAM_END ==> r == Z_DATA_ERROR)
  {
    hide Blocks, AllTaken;
    RefusedExactly(BitsOf(inp), 0, []);
    assert Sane(Decode(inp));
    out, used, r := RunInInstalments(inp, grants, finish);
  }

  /** A stream written down block by block, with a byte after it and enough space: it is
      decoded to the bytes written, exactly when inflate takes every block. */
  method RunWritten(ghost bs: seq<Deflate.Block>, inp: seq<byte>, grants: seq<(nat, nat)>, finish: bool)
    returns (out: seq<byte>, used: nat, r: int)
    requires Deflate.StreamOK(bs, 0, []) && WrittenBlocks.StartsWithBits(inp, Deflate.StreamBits(bs, 0, []))
    requires |Deflate.StreamBits(bs, 0, [])| + 8 <= 8 * |inp|
    requires |grants| > 0 && InTotal(grants) >= |inp| && OutTotal(grants) >= |Deflate.StreamExpanded(bs, 0, [])|
    ensures out <= Deflate.StreamExpanded(bs, 0, [])
    ensures r == Z_STREAM_END <==> forall i | 0 <= i < |bs| :: Deflate.Taken(bs[i])
    ensures r == Z_STREAM_END ==>
              out == Deflate.StreamExpanded(bs, 0, []) && used == BytesFor(|Deflate.StreamBits(bs, 0, [])|)
    ensures r in {Z_STREAM_END, Z_DATA_ERROR}
  {
    hide Blocks, AllTaken, Deflate.StreamOK, Deflate.StreamBits, Deflate.StreamExpanded, Deflate.Taken,
         WrittenBlocks.StartsWithBits;
    WrittenBlocks.Inverse(inp, bs);
    RefusedExactly(BitsOf(inp), 0, []);
    out, used, r := RunWellFormed(inp, grants, finish);
  }

  /** Grant what is asked for, but no input beyond its end. */
  method Grant(z: Inflater, ghost inp: seq<byte>, g: (nat, nat))
    requires z.Valid() && z.Input() == inp
    modifies z.blocks.br, z.blocks.win
    ensures z.Valid()
    ensures z.InGranted() == (if old(z.InGranted()) + g.0 < |inp| then old(z.InGranted()) + g.0 else |inp|)
    ensures z.OutGranted() == old(z.OutGranted()) + g.1
    ensures z.Out() == old(z.Out())
  {
    hide Decode, BlocksState.Valid, BlocksState.Meaning;
    z.blocks.Extends();
    var br := z.blocks.br;
    var room := |br.inp| - (br.nextIn + br.availIn);
    z.blocks.Grant(if g.0 < room then g.0 else room, g.1);
  }

  function InTotal(grants: seq<(nat, nat)>): nat
  {
    if grants == [] then 0 else InTotal(grants[..|grants| - 1]) + grants[|grants| - 1].0
  }

  function OutTotal(grants: seq<(nat, nat)>): nat
  {
    if grants == [] then 0 else OutTotal(grants[..|grants| - 1]) + grants[|grants| - 1].1
  }

  lemma TotalStep(grants: seq<(nat, nat)>, i: nat)
    requires i < |grants|
    ensures InTotal(grants[..i + 1]) == InTotal(grants[..i]) + grants[i].0
    ensures OutTotal(grants[..i + 1]) == OutTotal(grants[..i]) + grants[i].1
  {
    assert grants[..i + 1][..i] == grants[..i];
  }
}
