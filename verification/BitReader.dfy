/** The bit buffer of inflate: the NEEDBITS, DUMPBITS, GRABBITS and UNGRAB macros
    over an input that is granted in instalments. */
module InflateBits {
  import opened Basics
  import opened Bits
  import opened HuftBuild

  /** x | y. */
  function BitOr(x: nat, y: nat): nat
    decreases x + y
  {
    if x == 0 && y == 0 then 0
    else (if x % 2 == 1 || y % 2 == 1 then 1 else 0) + 2 * BitOr(x / 2, y / 2)
  }

  lemma BitOrStep(a: bit, x: nat, y: nat)
    ensures BitOr(a + 2 * x, 2 * y) == a + 2 * BitOr(x, y)
    ensures BitOr(a + 2 * x, a + 2 * y) == a + 2 * BitOr(x, y)
  {
    assert (a + 2 * x) / 2 == x && (2 * y) / 2 == y && (a + 2 * y) / 2 == y;
    assert (a + 2 * x) % 2 == a && (2 * y) % 2 == 0 && (a + 2 * y) % 2 == a;
  }

  /** OR-ing in bits that are there already changes nothing; into an empty buffer
      it puts them there. */
  lemma {:induction false} OrHere(bits: seq<bit>, pos: nat, kk: nat, n: nat)
    requires kk == 0 || n <= kk
    requires pos + kk <= |bits| && pos + n <= |bits|
    ensures BitOr(Lsb(bits, pos, kk), Lsb(bits, pos, n)) == Lsb(bits, pos, if kk == 0 then n else kk)
    decreases n
  {
    hide BitOr;
    if kk == 0 {
      OrZero(Lsb(bits, pos, n));
    } else if n > 0 {
      OrHere(bits, pos + 1, kk - 1, n - 1);
      if kk == 1 { OrZero(0); }
      BitOrStep(bits[pos], Lsb(bits, pos + 1, kk - 1), Lsb(bits, pos + 1, n - 1));
    } else {
      OrZeroRight(Lsb(bits, pos, kk));
    }
  }

  /** OR-ing in the next n bits above the k already counted: they are appended, or
      they were still there from before they were handed back. */
  lemma {:induction false} OrBits(bits: seq<bit>, pos: nat, kk: nat, k: nat, n: nat)
    requires k == kk || k + n <= kk
    requires pos + kk <= |bits| && pos + k + n <= |bits|
    ensures BitOr(Lsb(bits, pos, kk), Shl(Lsb(bits, pos + k, n), k)) == Lsb(bits, pos, if k == kk then k + n else kk)
    decreases k
  {
    hide BitOr;
    if k > 0 {
      OrBits(bits, pos + 1, kk - 1, k - 1, n);
      assert pos + 1 + (k - 1) == pos + k;
      BitOrStep(bits[pos], Lsb(bits, pos + 1, kk - 1), Shl(Lsb(bits, pos + k, n), k - 1));
    } else {
      OrHere(bits, pos, kk, n);
    }
  }

  lemma {:induction false} OrZero(y: nat)
    ensures BitOr(0, y) == y
  {
    if y > 0 { OrZero(y / 2); }
  }

  lemma {:induction false} OrZeroRight(x: nat)
    ensures BitOr(x, 0) == x
  {
    if x > 0 { OrZeroRight(x / 2); }
  }

  lemma ShlBound(v: nat, a: nat, b: nat)
    requires v < Pow2(a)
    ensures Shl(v, b) < Pow2(a + b)
  {
    ShlShl(1, a, b);
    ShlOrder(v, Pow2(a), b);
  }

  const WORD: nat := 0x1_0000_0000

  class BitReader {
    const inp: seq<byte>    // the whole compressed input
    ghost const bits: seq<bit>
    var nextIn: nat         // z->next_in; total_in counts the same bytes
    var availIn: nat        // z->avail_in
    var bitb: nat           // bit buffer, a 32-bit word
    var bitk: nat           // bits in bit buffer
    ghost var kk: nat       // bits of the buffer that still equal the input, handed-back bytes included

    constructor (inp: seq<byte>)
      ensures Valid() && this.inp == inp && nextIn == 0 && Pos() == 0 && availIn == 0 && bitk == 0
    {
      this.inp := inp;
      bits := BitsOf(inp);
      nextIn, availIn, bitb, bitk, kk := 0, 0, 0, 0, 0;
    }

    /** The buffer holds the input bits from the current position on, bits above
        bitk included: they are zero or belong to bytes handed back. */
    ghost predicate Valid()
      reads this
    {
      && bits == BitsOf(inp)
      && nextIn + availIn <= |inp|
      && bitk <= 8 * nextIn
      && bitk <= kk <= 32 && (kk - bitk) % 8 == 0
      && Pos() + kk <= |bits|
      && bitb == Lsb(bits, Pos(), kk)
    }

    /** Number of bits decoded. */
    ghost function Pos(): nat
      reads this
    {
      if bitk <= 8 * nextIn then 8 * nextIn - bitk else 0
    }

    /** Bits granted and not yet decoded. */
    ghost function Left(): nat
      reads this
    {
      8 * availIn + bitk
    }

    lemma Bounds()
      requires Valid()
      ensures Pos() + Left() <= |bits| && bitb < WORD
    {
      hide Shl, Lsb;
      LsbBound(bits, Pos(), kk);
      Pow2Mono(kk, 32);
      assert Pow2(32) == WORD by { Pow2Values(); }
    }

    /** b |= (uLong)NEXTBYTE << k; k += 8. */
    method NextByte()
      requires Valid() && availIn > 0 && bitk <= 24
      modifies this`nextIn, this`availIn, this`bitb, this`bitk, this`kk
      ensures Valid() && Pos() == old(Pos()) && Left() == old(Left())
      ensures bitk == old(bitk) + 8 && availIn == old(availIn) - 1 && nextIn == old(nextIn) + 1
    {
      hide Shl, Lsb, BitOr, BitsOf;
      ghost var p := Pos();
      LsbByte(inp, nextIn);
      OrBits(bits, p, kk, bitk, 8);
      assert p + bitk == 8 * nextIn;
      assert Pow2(8) == 256 && Pow2(32) == WORD by { Pow2Values(); }
      ShlBound(inp[nextIn], 8, bitk);
      Pow2Mono(8 + bitk, 32);
      bitb := BitOr(bitb, Shl(inp[nextIn], bitk) % WORD);
      nextIn, availIn := nextIn + 1, availIn - 1;
      if kk == bitk { kk := kk + 8; }
      bitk := bitk + 8;
    }

    /** NEEDBITS(j); ok is false when it left for want of input. */
    method NeedBits(j: nat, r0: int) returns (ok: bool, r: int)
      requires Valid() && (j <= 25 || (j == 32 && bitk % 8 == 0))
      modifies this`nextIn, this`availIn, this`bitb, this`bitk, this`kk
      ensures Valid() && Pos() == old(Pos()) && Left() == old(Left())
      ensures ok ==> bitk >= j
      ensures !ok ==> bitk < j && availIn == 0
      ensures bitk <= (if old(bitk) >= j + 7 then old(bitk) else j + 7)
      ensures bitk >= old(bitk)
      ensures bitk >= 8 && bitk > old(bitk) ==> nextIn > old(nextIn)
      ensures r == (if nextIn > old(nextIn) then Z_OK else r0)
      ensures nextIn >= old(nextIn)
      ensures bitk % 8 == old(bitk) % 8
    {
      hide Shl, Lsb, BitsOf;
      ok, r := true, r0;
      while bitk < j
        invariant Valid() && Pos() == old(Pos()) && Left() == old(Left())
        invariant bitk <= (if old(bitk) >= j + 7 then old(bitk) else j + 7)
        invariant bitk >= old(bitk) && nextIn >= old(nextIn)
        invariant bitk > old(bitk) ==> nextIn > old(nextIn)
        invariant r == (if nextIn > old(nextIn) then Z_OK else r0)
        invariant bitk % 8 == old(bitk) % 8
        decreases availIn
      {
        if availIn == 0 {
          ok := false;
          return;
        }
        r := Z_OK;
        NextByte();
      }
    }

    /** GRABBITS(j): like NEEDBITS, but the caller made sure of the input. */
    method GrabBits(j: nat)
      requires Valid() && j <= 25 && 8 * availIn + bitk >= j + 7
      modifies this`nextIn, this`availIn, this`bitb, this`bitk, this`kk
      ensures Valid() && Pos() == old(Pos()) && Left() == old(Left())
      ensures j <= bitk <= (if old(bitk) >= j + 7 then old(bitk) else j + 7)
      ensures nextIn >= old(nextIn) && nextIn - old(nextIn) == old(availIn) - availIn
    {
      hide Shl, Lsb, BitsOf;
      while bitk < j
        invariant Valid() && Pos() == old(Pos()) && Left() == old(Left())
        invariant bitk <= (if old(bitk) >= j + 7 then old(bitk) else j + 7)
        invariant nextIn >= old(nextIn) && nextIn - old(nextIn) == old(availIn) - availIn
        decreases availIn
      {
        NextByte();
      }
    }

    /** b & inflate_mask[j]: the next j bits. */
    function Peek(j: nat): (v: nat)
      reads this
      requires Valid() && j <= bitk
      ensures v == Lsb(bits, Pos(), j) < Pow2(j)
    {
      LsbSplit(bits, Pos(), j, kk - j);
      LsbBound(bits, Pos(), j);
      Mask(bitb, j)
    }

    /** DUMPBITS(j). */
    method DumpBits(j: nat)
      requires Valid() && j <= bitk
      modifies this`bitb, this`bitk, this`kk
      ensures Valid() && Pos() == old(Pos()) + j && Left() == old(Left()) - j
      ensures bitk == old(bitk) - j
    {
      hide Shl, Lsb, Mask;
      LsbSplit(bits, Pos(), j, kk - j);
      bitb := Shr(bitb, j);
      bitk := bitk - j;
      kk := kk - j;
    }

    /** Hand back c whole bytes: they stay in the buffer, above bitk. */
    method Unread(c: nat)
      requires Valid() && 8 * c <= bitk && c <= nextIn
      modifies this`nextIn, this`availIn, this`bitk
      ensures Valid() && Pos() == old(Pos()) && Left() == old(Left())
      ensures bitk == old(bitk) - 8 * c && availIn == old(availIn) + c && nextIn == old(nextIn) - c
    {
      hide Shl, Lsb, BitsOf;
      availIn := availIn + c;
      nextIn := nextIn - c;
      bitk := bitk - 8 * c;
    }

    /** UNGRAB: hand back all whole bytes, but no more than were taken since avail_in
        was avail0. */
    method Ungrab(avail0: nat, ghost k0: nat, ghost pos0: nat)
      requires Valid() && availIn <= avail0 && avail0 - availIn <= nextIn
      requires pos0 + 8 * avail0 + k0 == Pos() + Left() && pos0 <= Pos()
      modifies this`nextIn, this`availIn, this`bitk
      ensures Valid() && Pos() == old(Pos()) && Left() == old(Left())
      ensures bitk < 8 || bitk <= k0
      ensures availIn <= avail0 && nextIn + availIn == old(nextIn + availIn)
    {
      hide Shl, Lsb, BitsOf;
      var c := avail0 - availIn;
      if bitk / 8 < c { c := bitk / 8; }
      Unread(c);
    }

    /** b = k = 0 with 32 bits in the buffer. */
    method DumpWord()
      requires Valid() && bitk == 32
      modifies this`bitb, this`bitk, this`kk
      ensures Valid() && Pos() == old(Pos()) + 32 && Left() == old(Left()) - 32
      ensures bitk == 0 && kk == 0
    {
      hide Shl, BitsOf;
      bitb, bitk, kk := 0, 0, 0;
    }

    /** *p++ past an empty bit buffer. */
    method TakeByte() returns (b: byte)
      requires Valid() && kk == 0 && availIn > 0
      modifies this`nextIn, this`availIn
      ensures Valid() && Pos() == old(Pos()) + 8 && Left() == old(Left()) - 8
      ensures nextIn == old(nextIn) + 1 && availIn == old(availIn) - 1
      ensures old(Pos()) + 8 <= |bits| && b == Lsb(bits, old(Pos()), 8)
    {
      hide Shl, BitsOf;
      LsbByte(inp, nextIn);
      b := inp[nextIn];
      nextIn, availIn := nextIn + 1, availIn - 1;
    }

    /** Granting more input. */
    method Grant(n: nat)
      requires Valid() && nextIn + availIn + n <= |inp|
      modifies this`availIn
      ensures Valid() && availIn == old(availIn) + n
    {
      hide Shl, Lsb, BitsOf;
      availIn := availIn + n;
    }
  }
}
