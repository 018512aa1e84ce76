/** Two empty files, compressed as the format allows, that inflate refuses. */
module RefusalExamples {
  import opened Basics
  import opened Bits
  import opened Huffman
  import opened Rfc1951

  // ---------- bits packed in bytes ----------

  lemma {:induction false} PackByte(bits: seq<bit>, n: nat) returns (x: nat)
    requires |bits| == n
    ensures x < Pow2(n) && ByteBits(x, n) == bits
    decreases n
  {
    if n == 0 {
      x := 0;
    } else {
      var y := PackByte(bits[1..], n - 1);
      x := bits[0] + 2 * y;
    }
  }

  /** Every row of whole bytes is the bits of some input. */
  lemma {:induction false} Pack(bits: seq<bit>) returns (inp: seq<byte>)
    requires |bits| % 8 == 0
    ensures BitsOf(inp) == bits
    decreases |bits|
  {
    if bits == [] {
      inp := [];
    } else {
      Pow2Values();
      var x: byte := PackByte(bits[..8], 8);
      var rest := Pack(bits[8..]);
      inp := [x] + rest;
      assert inp[1..] == rest;
      assert BitsOf(inp) == ByteBits(x, 8) + BitsOf(rest);
      assert bits == bits[..8] + bits[8..];
    }
  }

  // ---------- the streams ----------

  /** The last block, dynamic, with 18 code lengths of the code length code: the symbols 1
      and 18 have one bit each. Then the code lengths: 256 zeros, 1, and zeros, and in the
      block nothing but its end. */
  function StreamBit(hlit: seq<bit>, hdist: seq<bit>, run: seq<bit>, i: nat): bit
    requires |hlit| == |hdist| == 5 && |run| == 7
  {
    if i < 3 then (if i == 1 then 0 else 1)
    else if i < 8 then hlit[i - 3]
    else if i < 13 then hdist[i - 8]
    else if i < 17 then (if i == 13 then 0 else 1)
    else if i < 71 then (if i == 23 || i == 68 then 1 else 0)
    else if i < 87 then (if i == 82 || i == 84 then 0 else 1)
    else if i < 89 then (if i == 87 then 0 else 1)
    else if i < 96 then run[i - 89]
    else 0
  }

  function Stream(hlit: seq<bit>, hdist: seq<bit>, run: seq<bit>): (r: seq<bit>)
    requires |hlit| == |hdist| == 5 && |run| == 7
    ensures |r| == 104
  {
    seq(104, i requires i >= 0 => StreamBit(hlit, hdist, run, i))
  }

  /** What the proofs need of it. */
  ghost predicate Looks(bits: seq<bit>, hlit: nat, hdist: nat, run: nat)
  {
    && |bits| == 104 && bits[0] == 1 && Lsb(bits, 1, 2) == 2
    && Lsb(bits, 3, 5) == hlit && Lsb(bits, 8, 5) == hdist && Lsb(bits, 13, 4) == 14
    && (forall i | 0 <= i < 18 :: Lsb(bits, 17 + 3 * i, 3) == if i == 2 || i == 17 then 1 else 0)
    && bits[71] == 1 && Lsb(bits, 72, 7) == 127 && bits[79] == 1 && Lsb(bits, 80, 7) == 107 && bits[87] == 0
    && bits[88] == 1 && Lsb(bits, 89, 7) == run && bits[96] == 0
  }

  lemma StreamNumbers(hlit: seq<bit>, hdist: seq<bit>, run: seq<bit>)
    requires |hlit| == |hdist| == 5 && |run| == 7
    ensures var bits := Stream(hlit, hdist, run);
            && Lsb(bits, 3, 5) == Lsb(hlit, 0, 5) && Lsb(bits, 8, 5) == Lsb(hdist, 0, 5)
                && Lsb(bits, 89, 7) == Lsb(run, 0, 7)
  {
    hide Lsb;
    var bits := Stream(hlit, hdist, run);
    assert bits[3..8] == hlit[0..5] && bits[8..13] == hdist[0..5] && bits[89..96] == run[0..7];
    LsbShift(bits, hlit, 3, 0, 5);
    LsbShift(bits, hdist, 8, 0, 5);
    LsbShift(bits, run, 89, 0, 7);
  }

  /** Seven bits as a number. */
  lemma Number(bits: seq<bit>, pos: nat, b: seq<bit>)
    requires pos + |b| <= |bits| && bits[pos..pos + |b|] == b
    ensures Lsb(bits, pos, |b|) == Lsb(b, 0, |b|)
  {
    LsbShift(bits, b, pos, 0, |b|);
  }

  lemma StreamCl(hlit: seq<bit>, hdist: seq<bit>, run: seq<bit>, i: nat)
    requires |hlit| == |hdist| == 5 && |run| == 7 && i < 18
    ensures Lsb(Stream(hlit, hdist, run), 17 + 3 * i, 3) == if i == 2 || i == 17 then 1 else 0
  {
    var bits, p := Stream(hlit, hdist, run), 17 + 3 * i;
    assert bits[p] == (if i == 2 || i == 17 then 1 else 0) && bits[p + 1] == 0 && bits[p + 2] == 0;
    hide Stream;
    Three(bits, p);
  }

  lemma Three(bits: seq<bit>, pos: nat)
    requires pos + 3 <= |bits| && bits[pos + 1] == 0 && bits[pos + 2] == 0
    ensures Lsb(bits, pos, 3) == bits[pos]
  {
    assert Lsb(bits, pos + 1, 2) == 0;
  }

  lemma StreamFixed(hlit: seq<bit>, hdist: seq<bit>, run: seq<bit>)
    requires |hlit| == |hdist| == 5 && |run| == 7
    ensures var bits := Stream(hlit, hdist, run);
            Lsb(bits, 1, 2) == 2 && Lsb(bits, 13, 4) == 14 && Lsb(bits, 72, 7) == 127 && Lsb(bits, 80, 7) == 107
  {
    hide Lsb;
    var bits := Stream(hlit, hdist, run);
    assert bits[1..3] == [0, 1] && bits[13..17] == [0, 1, 1, 1];
    assert bits[72..79] == [1, 1, 1, 1, 1, 1, 1] && bits[80..87] == [1, 1, 0, 1, 0, 1, 1];
    hide Stream;
    Two();
    Fourteen();
    OneTwentySeven();
    OneOhSeven();
    Number(bits, 1, [0, 1]);
    Number(bits, 13, [0, 1, 1, 1]);
    Number(bits, 72, [1, 1, 1, 1, 1, 1, 1]);
    Number(bits, 80, [1, 1, 0, 1, 0, 1, 1]);
  }

  lemma StreamLooks(hlit: seq<bit>, hdist: seq<bit>, run: seq<bit>)
    requires |hlit| == |hdist| == 5 && |run| == 7
    ensures Looks(Stream(hlit, hdist, run), Lsb(hlit, 0, 5), Lsb(hdist, 0, 5), Lsb(run, 0, 7))
  {
    hide Lsb;
    StreamNumbers(hlit, hdist, run);
    StreamFixed(hlit, hdist, run);
    forall i | 0 <= i < 18
      ensures Lsb(Stream(hlit, hdist, run), 17 + 3 * i, 3) == if i == 2 || i == 17 then 1 else 0
    {
      StreamCl(hlit, hdist, run, i);
    }
  }

  lemma Two()
    ensures Lsb([0, 1], 0, 2) == 2
  {
  }

  lemma Fourteen()
    ensures Lsb([0, 1, 1, 1], 0, 4) == 14
  {
  }

  lemma OneTwentySeven()
    ensures Lsb([1, 1, 1, 1, 1, 1, 1], 0, 7) == 127
  {
  }

  lemma OneOhSeven()
    ensures Lsb([1, 1, 0, 1, 0, 1, 1], 0, 7) == 107
  {
  }

  lemma Twenty()
    ensures Lsb([0, 0, 1, 0, 1, 0, 0], 0, 7) == 20
  {
  }

  lemma Zero7()
    ensures Lsb([0, 0, 0, 0, 0, 0, 0], 0, 7) == 0
  {
  }

  lemma Fives()
    ensures Lsb([0, 0, 0, 0, 0], 0, 5) == 0 && Lsb([1, 0, 0, 0, 0], 0, 5) == 1
    ensures Lsb([0, 1, 1, 1, 1], 0, 5) == 30 && Lsb([1, 0, 0, 1, 0], 0, 5) == 9
  {
  }

  // ---------- the code length code ----------

  /** After i of the 18 lengths. */
  function ClAt(i: nat): (cl: seq<nat>)
    ensures |cl| == 19 && Lengths(cl)
  {
    seq(19, x => if (x == 18 && i > 2) || (x == 1 && i > 17) then 1 else 0)
  }

  lemma {:induction false} ReadsCl(bits: seq<bit>, nl: nat, nd: nat, i: nat, hlit: nat, hdist: nat, run: nat)
    requires Looks(bits, hlit, hdist, run) && 257 <= nl <= 286 && 1 <= nd <= 32 && i <= 18
    ensures CodeLens(bits, true, nl, nd, 18, i, ClAt(i), 17 + 3 * i, [])
            == if Usable(ClAt(18)) then Lens(bits, true, nl, nd, ClAt(18), [], 71, []) else Bad([], 71)
    decreases 18 - i
  {
    hide Lens, Usable, Lsb;
    if i < 18 {
      assert Lsb(bits, 17 + 3 * i, 3) == if i == 2 || i == 17 then 1 else 0;
      ClNext(i);
      ReadsCl(bits, nl, nd, i + 1, hlit, hdist, run);
      assert 17 + 3 * i + 3 == 17 + 3 * (i + 1);
    }
  }

  lemma ClNext(i: nat)
    requires i < 18
    ensures ClAt(i)[BORDER[i] := if i == 2 || i == 17 then 1 else 0] == ClAt(i + 1)
  {
    BorderAt(i);
  }

  lemma BorderAt(i: nat)
    requires i < 18
    ensures BORDER[i] == 18 <==> i == 2
    ensures BORDER[i] == 1 <==> i == 17
  {
  }

  lemma {:induction false} ClCount(n: nat)
    requires n <= 19
    ensures CountBelow(ClAt(18), n, 1) == (if n <= 1 then 0 else if n <= 18 then 1 else 2)
    ensures Kraft(ClAt(18), n) == (if n <= 1 then 0 else if n <= 18 then Pow2(14) else Pow2(15))
  {
    if n > 0 { ClCount(n - 1); }
    Pow2Values();
  }

  lemma ClUsable()
    ensures Usable(ClAt(18))
  {
    ClCount(19);
  }

  /** Symbol 1 is the bit 0, symbol 18 the bit 1. */
  lemma ClSymbol(bits: seq<bit>, pos: nat)
    requires pos < |bits|
    ensures DecodeSym(ClAt(18), bits, pos) == Symbol(if bits[pos] == 0 then 1 else 18, 1)
  {
    var sym := if bits[pos] == 0 then 1 else 18;
    ClCount(sym);
    assert Msb(bits, pos, 1) == bits[pos] by { assert Msb(bits, pos, 0) == 0; }
    DecodeSymIs(ClAt(18), bits, pos, sym);
  }

  // ---------- the code lengths ----------

  lemma RunOfZeros(bits: seq<bit>, nl: nat, nd: nat, acc: seq<nat>, pos: nat, n: nat)
    requires 257 <= nl <= 286 && 1 <= nd <= 32 && Lengths(acc) && n >= 11 && |acc| + n <= nl + nd
    requires pos + 8 <= |bits| && bits[pos] == 1 && Lsb(bits, pos + 1, 7) == n - 11
    ensures Lens(bits, true, nl, nd, ClAt(18), acc, pos, [])
            == Lens(bits, true, nl, nd, ClAt(18), acc + Repeat(0, n), pos + 8, [])
  {
    hide DecodeSym, ClAt, Trees;
    ClSymbol(bits, pos);
  }

  lemma OneLength(bits: seq<bit>, nl: nat, nd: nat, acc: seq<nat>, pos: nat)
    requires 257 <= nl <= 286 && 1 <= nd <= 32 && Lengths(acc) && |acc| < nl + nd
    requires pos < |bits| && bits[pos] == 0
    ensures Lens(bits, true, nl, nd, ClAt(18), acc, pos, [])
            == Lens(bits, true, nl, nd, ClAt(18), acc + [1], pos + 1, [])
  {
    hide DecodeSym, ClAt, Trees;
    ClSymbol(bits, pos);
  }

  /** 256 zeros, a 1, and zeros. */
  function AllLens(n: nat): (lens: seq<nat>)
    requires n >= 257
    ensures |lens| == n && Lengths(lens)
  {
    seq(n, i => if i == 256 then 1 else 0)
  }

  lemma ReadsLens(bits: seq<bit>, nl: nat, nd: nat, hlit: nat, hdist: nat, run: nat)
    requires Looks(bits, hlit, hdist, run) && 257 <= nl <= 286 && 1 <= nd <= 32 && nl + nd == 257 + 11 + run
    ensures var all := AllLens(nl + nd);
            Lens(bits, true, nl, nd, ClAt(18), [], 71, []) == Trees(bits, true, all[..nl], all[nl..], 96, [])
  {
    hide Lens, ClAt, Trees, Lsb;
    RunOfZeros(bits, nl, nd, [], 71, 138);
    var a := [] + Repeat(0, 138);
    RunOfZeros(bits, nl, nd, a, 79, 118);
    var b := a + Repeat(0, 118);
    OneLength(bits, nl, nd, b, 87);
    var c := b + [1];
    RunOfZeros(bits, nl, nd, c, 88, 11 + run);
    var d := c + Repeat(0, 11 + run);
    assert d == AllLens(nl + nd);
    LensDone(bits, nl, nd, d);
  }

  lemma LensDone(bits: seq<bit>, nl: nat, nd: nat, acc: seq<nat>)
    requires |bits| >= 96 && 257 <= nl <= 286 && 1 <= nd <= 32 && Lengths(acc) && |acc| == nl + nd
    ensures Lens(bits, true, nl, nd, ClAt(18), acc, 96, []) == Trees(bits, true, acc[..nl], acc[nl..], 96, [])
  {
    hide Trees, ClAt;
  }

  // ---------- the block ----------

  lemma {:induction false} OneCount(lens: seq<nat>, n: nat)
    requires Lengths(lens) && n <= |lens| && forall i | 0 <= i < |lens| :: lens[i] == if i == 256 then 1 else 0
    ensures CountBelow(lens, n, 1) == (if n <= 256 then 0 else 1)
    ensures Kraft(lens, n) == (if n <= 256 then 0 else Pow2(14))
  {
    hide Shl;
    if n > 0 { OneCount(lens, n - 1); }
  }

  lemma EndSymbol(lens: seq<nat>, bits: seq<bit>)
    requires |lens| >= 257 && Lengths(lens) && forall i | 0 <= i < |lens| :: lens[i] == if i == 256 then 1 else 0
    requires 96 < |bits| && bits[96] == 0
    ensures Usable(lens) && DecodeSym(lens, bits, 96) == Symbol(256, 1)
  {
    OneCount(lens, 256);
    OneCount(lens, |lens|);
    Pow2Values();
    assert lens[256] == 1;
    assert Msb(bits, 96, 1) == bits[96] by { assert Msb(bits, 96, 0) == 0; }
    DecodeSymIs(lens, bits, 96, 256);
  }

  lemma OnlyTheEnd(bits: seq<bit>, ll: seq<nat>, dl: seq<nat>)
    requires |ll| >= 257 && |ll| <= 288 && Lengths(ll) && forall i | 0 <= i < |ll| :: ll[i] == if i == 256 then 1 else 0
    requires |dl| <= 32 && forall i | 0 <= i < |dl| :: dl[i] == 0
    requires 97 <= |bits| && bits[96] == 0
    ensures Trees(bits, true, ll, dl, 96, []) == if |ll| > 257 then Refused([], 96, Done([], 97)) else Done([], 97)
  {
    hide DecodeSym, Usable;
    EndSymbol(ll, bits);
    assert MaxLen(dl) == 0;
    assert Symbols(bits, true, Codes(ll, dl), 96, []) == Next(bits, true, 97, []) == Done([], 97);
  }

  lemma NoCl()
    ensures seq(19, i => 0) == ClAt(0)
  {
  }

  lemma LengthsComeTo(bits: seq<bit>, nl: nat, nd: nat, hlit: nat, hdist: nat, run: nat)
    requires Looks(bits, hlit, hdist, run) && 257 <= nl <= 286 && 1 <= nd <= 32 && nl + nd == 257 + 11 + run
    ensures CodeLens(bits, true, nl, nd, 18, 0, ClAt(0), 17, [])
            == if nl > 257 then Refused([], 96, Done([], 97)) else Done([], 97)
  {
    hide CodeLens, Lens, ClAt, Usable, Trees, Lsb;
    ReadsCl(bits, nl, nd, 0, hlit, hdist, run);
    ClUsable();
    ReadsLens(bits, nl, nd, hlit, hdist, run);
    var all := AllLens(nl + nd);
    OnlyTheEnd(bits, all[..nl], all[nl..]);
  }

  lemma HeaderComesTo(bits: seq<bit>, hlit: nat, hdist: nat, run: nat)
    requires Looks(bits, hlit, hdist, run) && hlit <= 29 && hdist < 32 && hlit + hdist + 1 == 11 + run
    ensures Header(bits, true, 3, []) == if hdist > 29 then Refused([], 17, Done([], 97))
                                         else if hlit > 0 then Refused([], 96, Done([], 97)) else Done([], 97)
  {
    hide CodeLens, Lsb, ClAt;
    NoCl();
    LengthsComeTo(bits, 257 + hlit, 1 + hdist, hlit, hdist, run);
  }

  lemma StreamComesTo(bits: seq<bit>, hlit: nat, hdist: nat, run: nat)
    requires Looks(bits, hlit, hdist, run) && hlit <= 29 && hdist < 32 && hlit + hdist + 1 == 11 + run
    ensures Blocks(bits, 0, []) == if hdist > 29 then Refused([], 17, Done([], 97))
                                   else if hlit > 0 then Refused([], 96, Done([], 97)) else Done([], 97)
  {
    hide Header, Lsb;
    HeaderComesTo(bits, hlit, hdist, run);
  }

  /** A block with 31 distance codes, none of them used: refused after the sizes. */
  lemma ManyDistances() returns (inp: seq<byte>)
    ensures Decode(inp) == Refused([], 17, Done([], 97))
  {
    hide Lsb, Blocks, Looks;
    var hlit, hdist, run := [0, 0, 0, 0, 0], [0, 1, 1, 1, 1], [0, 0, 1, 0, 1, 0, 0];
    Fives();
    Twenty();
    StreamLooks(hlit, hdist, run);
    StreamComesTo(Stream(hlit, hdist, run), 0, 30, 20);
    inp := Pack(Stream(hlit, hdist, run));
  }

  /** A block with a code length for the first match length and no distance code: refused
      after the code lengths. */
  lemma NoDistances() returns (inp: seq<byte>)
    ensures Decode(inp) == Refused([], 96, Done([], 97))
  {
    hide Lsb, Blocks, Looks;
    var hlit, hdist, run := [1, 0, 0, 0, 0], [1, 0, 0, 1, 0], [0, 0, 0, 0, 0, 0, 0];
    Fives();
    Zero7();
    StreamLooks(hlit, hdist, run);
    StreamComesTo(Stream(hlit, hdist, run), 1, 9, 0);
    inp := Pack(Stream(hlit, hdist, run));
  }
}
