/** A malformed stream that inflate decodes to its end, and one whose fault shows late. */
module FaultExamples {
  import opened Basics
  import opened Bits
  import opened Huffman
  import opened Rfc1951
  import opened RefusalExamples
  import opened HuftBuild
  import opened Inflate
  import opened Written

  // ---------- a distance beyond the first byte ----------

  /** The last block, with the fixed codes: a length of 3, the distance 1, the end. */
  function FarStream(): (bits: seq<bit>)
    ensures |bits| == 32
  {
    seq(32, i => if i < 2 || i == 9 then 1 else 0)
  }

  lemma {:induction false} NoOnes(bits: seq<bit>, pos: nat, n: nat)
    requires pos + n <= |bits| && forall i | pos <= i < pos + n :: bits[i] == 0
    ensures Msb(bits, pos, n) == 0
  {
    if n > 0 { NoOnes(bits, pos, n - 1); }
  }

  lemma FixedFirsts()
    ensures First(FixedLit(), 7) == 0 && First(FixedDist(), 5) == 0
  {
    hide First;
    NoneShorter(FixedLit(), 7);
    NoneShorter(FixedDist(), 5);
  }

  lemma FixedLengths()
    ensures FixedLit()[256] == 7 && FixedLit()[257] == 7 && FixedDist()[0] == 5
  {
  }

  /** The fixed codes of symbols 256 and 257 are 0 and 1, of seven bits. */
  lemma FixedCodes()
    ensures FixedLit()[256] == 7 && FixedLit()[257] == 7 && FixedDist()[0] == 5
    ensures Code(FixedLit(), 256) == 0 && Code(FixedLit(), 257) == 1 && Code(FixedDist(), 0) == 0
  {
    hide FixedLit, FixedDist, First, CountBelow;
    FixedLengths();
    FixedFirsts();
    FixedCount(256);
    FixedCount(257);
    FixedDistCount(0);
  }

  lemma FarSymbols(bits: seq<bit>)
    requires bits == FarStream()
    ensures DecodeSym(FixedLit(), bits, 3) == Symbol(257, 7)
    ensures DecodeSym(FixedDist(), bits, 10) == Symbol(0, 5)
    ensures DecodeSym(FixedLit(), bits, 15) == Symbol(256, 7)
  {
    FixedCodes();
    hide FixedLit, FixedDist, DecodeSym;
    NoOnes(bits, 3, 6);
    assert Msb(bits, 3, 7) == 1;
    NoOnes(bits, 10, 5);
    NoOnes(bits, 15, 7);
    DecodeSymIs(FixedLit(), bits, 3, 257);
    DecodeSymIs(FixedDist(), bits, 10, 0);
    DecodeSymIs(FixedLit(), bits, 15, 256);
  }

  lemma FarCopied(bits: seq<bit>, c: Codes)
    requires bits == FarStream() && c == Codes(FixedLit(), FixedDist())
    ensures Copied(bits, true, c, 3, 1, 15, []) == Unnoticed([], 15, Done([0, 0, 0], 22))
  {
    FarSymbols(bits);
    hide FixedLit, FixedDist, DecodeSym, FarStream;
    ThreeZeros();
    hide LzCopy;
    FarEnd(bits, c, [0, 0, 0]);
  }

  lemma ThreeZeros()
    ensures LzCopy([], 1, 3) == [0, 0, 0]
  {
    assert LzCopy([0, 0], 1, 1) == LzCopy([0, 0] + [0], 1, 0) == [0, 0, 0];
    assert LzCopy([0], 1, 2) == LzCopy([0] + [0], 1, 1);
    assert LzCopy([], 1, 3) == LzCopy([] + [0], 1, 2);
  }

  lemma FarEnd(bits: seq<bit>, c: Codes, out: seq<byte>)
    requires bits == FarStream() && c == Codes(FixedLit(), FixedDist())
    ensures Symbols(bits, true, c, 15, out) == Done(out, 22)
  {
    FarSymbols(bits);
    hide FixedLit, FixedDist, DecodeSym, FarStream, LenExtra;
    assert Next(bits, true, 22, out) == Done(out, 22);
  }

  lemma FarComesTo(bits: seq<bit>, c: Codes)
    requires bits == FarStream() && c == Codes(FixedLit(), FixedDist())
    ensures Symbols(bits, true, c, 3, []) == Unnoticed([], 15, Done([0, 0, 0], 22))
  {
    FarSymbols(bits);
    FarCopied(bits, c);
    hide FixedLit, FixedDist, DecodeSym, FarStream, Copied;
    assert DistExtra(bits, true, c, 3, 1, 0, 15, []) == Copied(bits, true, c, 3, 1, 15, []);
    assert Distance(bits, true, c, 3, 10, []) == DistExtra(bits, true, c, 3, 1, 0, 15, []);
    assert LenExtra(bits, true, c, 3, 0, 10, []) == Distance(bits, true, c, 3, 10, []);
  }

  lemma BitsOfBytes()
    ensures ByteBits(3, 8) == [1, 1, 0, 0, 0, 0, 0, 0]
    ensures ByteBits(2, 8) == [0, 1, 0, 0, 0, 0, 0, 0]
    ensures ByteBits(0, 8) == [0, 0, 0, 0, 0, 0, 0, 0]
  {
  }

  lemma FourBytes(a: byte, b: byte, c: byte, d: byte)
    ensures BitsOf([a, b, c, d]) == ByteBits(a, 8) + (ByteBits(b, 8) + (ByteBits(c, 8) + (ByteBits(d, 8) + [])))
  {
    hide ByteBits;
    assert [a, b, c, d][1..] == [b, c, d] && [b, c, d][1..] == [c, d] && [c, d][1..] == [d] && [d][1..] == [];
    assert BitsOf([d]) == ByteBits(d, 8) + [];
    assert BitsOf([c, d]) == ByteBits(c, 8) + BitsOf([d]);
    assert BitsOf([b, c, d]) == ByteBits(b, 8) + BitsOf([c, d]);
  }

  /** The four bytes of it. */
  lemma FarBytes()
    ensures BitsOf([3, 2, 0, 0]) == FarStream()
  {
    hide ByteBits, BitsOf;
    FourBytes(3, 2, 0, 0);
    BitsOfBytes();
    var three: seq<bit>, two: seq<bit>, zero: seq<bit> := ByteBits(3, 8), ByteBits(2, 8), ByteBits(0, 8);
    var all := three + (two + (zero + (zero + [])));
    forall i | 0 <= i < 32
      ensures all[i] == FarStream()[i]
    {
    }
    assert all == FarStream();
  }

  /** An error by RFC 1951 after 15 bits, where inflate goes on with three zero bytes. */
  lemma FarDistance()
    ensures Decode([3, 2, 0, 0]) == Unnoticed([], 15, Done([0, 0, 0], 22))
  {
    var bits := FarStream();
    assert Lsb(bits, 1, 2) == 1;
    FarComesTo(bits, Codes(FixedLit(), FixedDist()));
    hide Symbols, FixedLit, FixedDist;
    FarBytes();
  }

  /** So inflate comes to Z_STREAM_END on a malformed stream. */
  method FarRun(grants: seq<(nat, nat)>, finish: bool) returns (out: seq<byte>, used: nat, r: int)
    requires |grants| > 0 && InTotal(grants) >= 4 && OutTotal(grants) >= 3
    ensures Plain(Decode([3, 2, 0, 0])).Bad?
    ensures r == Z_STREAM_END && out == [0, 0, 0] && used == 3
  {
    hide Decode;
    FarDistance();
    out, used, r := RunInInstalments([3, 2, 0, 0], grants, finish);
  }

  // ---------- an unassigned bit in the code length code ----------

  /** The last block, dynamic, with four code lengths of the code length code: only the
      symbol 18 has a code, the bit 0. Two runs of zeros follow, the first after the bit 1. */
  function LoneStream(): (bits: seq<bit>)
    ensures |bits| == 48
  {
    seq(48, i => if i in {0, 2, 23, 38, 40, 41, 43, 44} || 29 <= i < 37 then 1 else 0)
  }

  ghost predicate LoneLooks(bits: seq<bit>)
  {
    && |bits| == 48 && bits[0] == 1 && Lsb(bits, 1, 2) == 2
    && Lsb(bits, 3, 5) == 0 && Lsb(bits, 8, 5) == 0 && Lsb(bits, 13, 4) == 0
    && Lsb(bits, 17, 3) == 0 && Lsb(bits, 20, 3) == 0 && Lsb(bits, 23, 3) == 1 && Lsb(bits, 26, 3) == 0
    && bits[29] == 1 && Lsb(bits, 30, 7) == 127 && bits[37] == 0 && Lsb(bits, 38, 7) == 109
  }

  lemma OneOhNine()
    ensures Lsb([1, 0, 1, 1, 0, 1, 1], 0, 7) == 109
  {
  }

  lemma {:induction false} NoBits(bits: seq<bit>, pos: nat, n: nat)
    requires pos + n <= |bits| && forall i | pos <= i < pos + n :: bits[i] == 0
    ensures Lsb(bits, pos, n) == 0
    decreases n
  {
    if n > 0 { NoBits(bits, pos + 1, n - 1); }
  }

  lemma LoneIsSo()
    ensures LoneLooks(LoneStream())
  {
    hide Lsb;
    var bits := LoneStream();
    assert bits[1..3] == [0, 1] && bits[30..37] == [1, 1, 1, 1, 1, 1, 1] && bits[38..45] == [1, 0, 1, 1, 0, 1, 1];
    assert bits[23] == 1 && bits[24] == 0 && bits[25] == 0 && bits[37] == 0 && bits[29] == 1 && bits[0] == 1;
    NoBits(bits, 3, 5);
    NoBits(bits, 8, 5);
    NoBits(bits, 13, 4);
    NoBits(bits, 17, 3);
    NoBits(bits, 20, 3);
    NoBits(bits, 26, 3);
    hide LoneStream;
    Two();
    OneTwentySeven();
    OneOhNine();
    Number(bits, 1, [0, 1]);
    Number(bits, 30, [1, 1, 1, 1, 1, 1, 1]);
    Number(bits, 38, [1, 0, 1, 1, 0, 1, 1]);
    Three(bits, 23);
  }

  /** The symbol 18 alone, of one bit. */
  function LoneCl(): (cl: seq<nat>)
    ensures |cl| == 19 && Lengths(cl)
  {
    seq(19, i => if i == 18 then 1 else 0)
  }

  lemma LoneCode()
    ensures var cl := LoneCl();
            && cl[18] == 1 && Usable(cl) && MaxLen(cl) == 1 && OnlySymbol(cl) == 18
            && Code(cl, 18) == 0 && First(cl, 1) + Count(cl, 1) == 1
  {
    var cl := LoneCl();
    assert cl[18] == 1 && MaxLen(cl) == 1;
    LoneCount();
    LoneKraft(18);
    hide LoneCl, MaxLen;
    Pow2Values();
    assert Kraft(cl, 19) == Pow2(14);
  }

  lemma LoneCount()
    ensures CountBelow(LoneCl(), 18, 1) == 0 && Count(LoneCl(), 1) == 1 && OnlySymbol(LoneCl()) == 18
  {
    var cl := LoneCl();
    CountZero(cl, 18, 1);
    assert CountBelow(cl, 19, 1) == CountBelow(cl, 18, 1) + 1;
  }

  lemma {:induction false} LoneKraft(n: nat)
    requires n <= 18
    ensures Kraft(LoneCl(), n) == 0
  {
    if n > 0 { LoneKraft(n - 1); }
  }

  lemma LoneSymbols(bits: seq<bit>)
    requires LoneLooks(bits)
    ensures DecodeSym(LoneCl(), bits, 29) == NoCode && DecodeSym(LoneCl(), bits, 37) == Symbol(18, 1)
  {
    LoneCode();
    hide LoneCl, MaxLen, DecodeSym, First, CountBelow, Lsb;
    assert Msb(bits, 29, 1) == 1 by { assert Msb(bits, 29, 0) == 0; }
    assert Msb(bits, 37, 1) == 0 by { assert Msb(bits, 37, 0) == 0; }
    DecodeSymNone(LoneCl(), bits, 29, 1);
    DecodeSymIs(LoneCl(), bits, 37, 18);
  }

  lemma LoneTrees(bits: seq<bit>, acc: seq<nat>)
    requires |bits| == 48 && |acc| == 258 && forall i | 0 <= i < 258 :: acc[i] == 0
    ensures Lens(bits, true, 257, 1, LoneCl(), acc, 45, []) == Bad([], 45)
  {
    hide LoneCl, Symbols;
    var ll := acc[..257];
    assert MaxLen(ll) == 0;
    assert !Usable(ll) by { NoKraft(ll, 257); Pow2Values(); }
  }

  lemma LoneRun(bits: seq<bit>, acc: seq<nat>, pos: nat, n: nat)
    requires Lengths(acc) && n >= 11 && |acc| + n <= 258
    requires pos + 7 <= |bits| && Lsb(bits, pos, 7) == n - 11
    ensures LensMore(bits, true, 257, 1, LoneCl(), acc, 18, pos, [])
            == Lens(bits, true, 257, 1, LoneCl(), acc + Repeat(0, n), pos + 7, [])
  {
    hide Lens, LoneCl;
  }

  /** The code lengths of the first run, and of both. */
  function Run1(): (a: seq<nat>)
    ensures |a| == 138 && Lengths(a)
  {
    [] + Repeat(0, 138)
  }

  function Run2(): (b: seq<nat>)
    ensures |b| == 258 && Lengths(b)
  {
    Run1() + Repeat(0, 120)
  }

  lemma LoneSecond(bits: seq<bit>)
    requires LoneLooks(bits)
    ensures Lens(bits, true, 257, 1, LoneCl(), Run1(), 37, []) == Bad([], 45)
  {
    LoneTrees(bits, Run2());
    hide LoneCl, MaxLen, DecodeSym, Lsb, Trees, OnlySymbol, Usable, LensMore, Run1;
    LoneSymbols(bits);
    LoneRun(bits, Run1(), 38, 120);
  }

  lemma LoneLens(bits: seq<bit>)
    requires LoneLooks(bits)
    ensures Lens(bits, true, 257, 1, LoneCl(), [], 29, []) == Unnoticed([], 30, Bad([], 45))
  {
    hide LoneCl, MaxLen, DecodeSym, Lsb, Trees, OnlySymbol, Usable, LensMore, Run2;
    LoneCode();
    LoneSymbols(bits);
    LoneSecond(bits);
    LoneRun(bits, [], 30, 138);
  }

  lemma LoneHeader(bits: seq<bit>)
    requires LoneLooks(bits)
    ensures Header(bits, true, 3, []) == CodeLens(bits, true, 257, 1, 4, 0, seq(19, i => 0), 17, [])
  {
    hide Lsb, CodeLens;
  }

  lemma LoneNext(bits: seq<bit>, i: nat, cl: seq<nat>, pos: nat)
    requires i < 4 && |cl| == 19 && Lengths(cl) && pos + 3 <= |bits| && Lsb(bits, pos, 3) <= 1
    ensures CodeLens(bits, true, 257, 1, 4, i, cl, pos, [])
            == CodeLens(bits, true, 257, 1, 4, i + 1, cl[BORDER[i] := Lsb(bits, pos, 3)], pos + 3, [])
  {
    hide Lens, Usable, Lsb;
  }

  lemma LoneDone(bits: seq<bit>, cl: seq<nat>)
    requires |bits| == 48 && |cl| == 19 && Lengths(cl) && Usable(cl)
    ensures CodeLens(bits, true, 257, 1, 4, 4, cl, 29, []) == Lens(bits, true, 257, 1, cl, [], 29, [])
  {
    hide Lens, Usable;
  }

  function NoCl(): (cl: seq<nat>)
    ensures |cl| == 19 && Lengths(cl)
  {
    seq(19, i => 0)
  }

  lemma NoClSteps()
    ensures NoCl() == seq(19, i => 0)
    ensures NoCl()[BORDER[0] := 0] == NoCl() && NoCl()[BORDER[1] := 0] == NoCl()
    ensures NoCl()[BORDER[2] := 1] == LoneCl() && LoneCl()[BORDER[3] := 0] == LoneCl()
  {
    assert BORDER[0] == 16 && BORDER[1] == 17 && BORDER[2] == 18 && BORDER[3] == 0;
  }

  lemma LoneCodeLens(bits: seq<bit>)
    requires LoneLooks(bits)
    ensures CodeLens(bits, true, 257, 1, 4, 0, seq(19, i => 0), 17, [])
            == Lens(bits, true, 257, 1, LoneCl(), [], 29, [])
  {
    hide Lsb, Lens, Usable, CodeLens, LoneCl, NoCl, MaxLen, OnlySymbol, Code, First, CountBelow;
    LoneCode();
    NoClSteps();
    LoneNext(bits, 0, NoCl(), 17);
    LoneNext(bits, 1, NoCl(), 20);
    LoneNext(bits, 2, NoCl(), 23);
    LoneNext(bits, 3, LoneCl(), 26);
    LoneDone(bits, LoneCl());
  }

  lemma LoneComesTo(bits: seq<bit>)
    requires LoneLooks(bits)
    ensures Blocks(bits, 0, []) == Unnoticed([], 30, Bad([], 45))
  {
    LoneHeader(bits);
    LoneCodeLens(bits);
    LoneLens(bits);
    hide Header, Lsb;
  }

  /** The bit does not exist, but the error shows only after the last code length. */
  lemma UnassignedBit() returns (inp: seq<byte>)
    ensures Decode(inp) == Unnoticed([], 30, Bad([], 45))
  {
    hide Blocks, LoneLooks;
    LoneIsSo();
    LoneComesTo(LoneStream());
    inp := Pack(LoneStream());
  }
}
