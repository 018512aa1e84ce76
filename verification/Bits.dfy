/** Bit strings packed in bytes, shifts, and reversed codes. Shifts and masks are
    defined one bit at a time, so that no proof needs nonlinear arithmetic. */
module Bits {
  import opened Basics

  type bit = b: int | 0 <= b <= 1

  // ---------- shifts and masks ----------

  /** v << d, without a word size. */
  function Shl(v: nat, d: nat): nat
    decreases d
  {
    if d == 0 then v else 2 * Shl(v, d - 1)
  }

  /** v >> d. */
  function Shr(v: nat, d: nat): nat
    decreases d
  {
    if d == 0 then v else Shr(v / 2, d - 1)
  }

  /** v & ((1 << d) - 1). */
  function Mask(v: nat, d: nat): nat
    decreases d
  {
    if d == 0 then 0 else v % 2 + 2 * Mask(v / 2, d - 1)
  }

  function Pow2(d: nat): nat
  {
    Shl(1, d)
  }

  lemma {:induction false} Pow2Pos(d: nat)
    ensures Pow2(d) >= 1
  {
    if d > 0 { Pow2Pos(d - 1); }
  }

  lemma {:induction false} ShlShl(v: nat, a: nat, b: nat)
    ensures Shl(Shl(v, a), b) == Shl(v, a + b)
    decreases b
  {
    if b > 0 { ShlShl(v, a, b - 1); }
  }

  lemma {:induction false} ShlPlus(u: nat, v: nat, d: nat)
    ensures Shl(u + v, d) == Shl(u, d) + Shl(v, d)
    decreases d
  {
    if d > 0 { ShlPlus(u, v, d - 1); }
  }

  lemma {:induction false} ShlZero(d: nat)
    ensures Shl(0, d) == 0
  {
    if d > 0 { ShlZero(d - 1); }
  }

  lemma {:induction false} ShlOrder(u: nat, v: nat, d: nat)
    ensures u < v <==> Shl(u, d) < Shl(v, d)
    ensures u == v <==> Shl(u, d) == Shl(v, d)
    decreases d
  {
    if d > 0 { ShlOrder(u, v, d - 1); }
  }

  /** A value inside block c of size 2^d lies below every later block boundary. */
  lemma BelowBlock(c: nat, u: nat, d: nat, lo: nat)
    requires c < u && lo < Pow2(d)
    ensures Shl(c, d) + lo < Shl(u, d)
  {
    ShlPlus(c, 1, d);
    ShlOrder(c + 1, u, d);
  }

  lemma Pow2Mono(a: nat, b: nat)
    requires a <= b
    ensures Pow2(a) <= Pow2(b)
    ensures a < b ==> Pow2(a) < Pow2(b)
  {
    ShlShl(1, b - a, a);
    Pow2Pos(b - a);
    ShlOrder(1, Pow2(b - a), a);
    if a < b {
      Pow2Pos(b - a - 1);
      assert Pow2(b - a) > 1;
    }
  }

  lemma {:induction false} Split(v: nat, d: nat)
    ensures v == Shl(Shr(v, d), d) + Mask(v, d)
    ensures Mask(v, d) < Pow2(d)
    decreases d
  {
    if d > 0 { Split(v / 2, d - 1); }
  }

  /** The high and the low part of q << d plus r. */
  lemma {:induction false} SplitUnique(q: nat, d: nat, r: nat)
    requires r < Pow2(d)
    ensures Shr(Shl(q, d) + r, d) == q && Mask(Shl(q, d) + r, d) == r
    decreases d
  {
    if d > 0 {
      var v := Shl(q, d) + r;
      assert v / 2 == Shl(q, d - 1) + r / 2;
      SplitUnique(q, d - 1, r / 2);
    }
  }

  lemma ShrBound(v: nat, a: nat, b: nat)
    requires v < Pow2(a + b)
    ensures Shr(v, b) < Pow2(a)
  {
    Split(v, b);
    ShlShl(1, a, b);
    if Shr(v, b) >= Pow2(a) { ShlOrder(Shr(v, b), Pow2(a), b); }
  }

  lemma {:induction false} ShrShr(v: nat, a: nat, b: nat)
    ensures Shr(v, a + b) == Shr(Shr(v, b), a)
    decreases b
  {
    if b > 0 { ShrShr(v / 2, a, b - 1); }
  }

  lemma {:induction false} MaskSplit(v: nat, a: nat, b: nat)
    ensures Mask(v, a + b) == Shl(Mask(Shr(v, b), a), b) + Mask(v, b)
    decreases b
  {
    if b > 0 { MaskSplit(v / 2, a, b - 1); }
  }

  lemma ZeroTail(v: nat, a: nat, b: nat)
    requires b <= a && Mask(v, a) == 0
    ensures Mask(v, b) == 0
  {
    MaskSplit(v, a - b, b);
  }

  lemma {:induction false} MaskSmall(v: nat, d: nat)
    requires v < Pow2(d)
    ensures Mask(v, d) == v && Shr(v, d) == 0
    decreases d
  {
    if d > 0 { MaskSmall(v / 2, d - 1); }
  }

  lemma Pow2Values()
    ensures Pow2(0) == 1 && Pow2(1) == 2 && Pow2(2) == 4 && Pow2(3) == 8 && Pow2(4) == 16
    ensures Pow2(5) == 32 && Pow2(6) == 64 && Pow2(7) == 128 && Pow2(8) == 256
    ensures Pow2(9) == 512 && Pow2(13) == 8192 && Pow2(14) == 16384 && Pow2(15) == 32768
    ensures Pow2(16) == 65536 && Pow2(24) == 0x100_0000 && Pow2(32) == 0x1_0000_0000
  {
    assert Pow2(8) == 256;
    ShlShl(1, 8, 8);
    assert Shl(256, 8) == 65536;
    ShlShl(1, 16, 8);
    assert Shl(65536, 8) == 0x100_0000;
    ShlShl(1, 24, 8);
    assert Shl(0x100_0000, 8) == 0x1_0000_0000;
    ShlShl(1, 8, 7);
    assert Shl(256, 7) == 32768;
  }

  // ---------- input bits ----------

  /** The low n bits of x, least significant first. */
  function ByteBits(x: nat, n: nat): (r: seq<bit>)
    ensures |r| == n
    decreases n
  {
    if n == 0 then [] else [x % 2] + ByteBits(x / 2, n - 1)
  }

  /** The bit stream packed in the input bytes, starting at the least significant
      bit of each byte (section 3.1.1 of RFC 1951). */
  function BitsOf(inp: seq<byte>): (r: seq<bit>)
    ensures |r| == 8 * |inp|
  {
    if inp == [] then [] else ByteBits(inp[0], 8) + BitsOf(inp[1..])
  }

  /** The n bits from pos on as a number, first bit least significant. */
  function Lsb(bits: seq<bit>, pos: nat, n: nat): nat
    requires pos + n <= |bits|
    decreases n
  {
    if n == 0 then 0 else bits[pos] + 2 * Lsb(bits, pos + 1, n - 1)
  }

  /** The n bits from pos on as a number, first bit most significant (Huffman codes). */
  function Msb(bits: seq<bit>, pos: nat, n: nat): nat
    requires pos + n <= |bits|
    decreases n
  {
    if n == 0 then 0 else 2 * Msb(bits, pos, n - 1) + bits[pos + n - 1]
  }

  lemma {:induction false} LsbBound(bits: seq<bit>, pos: nat, n: nat)
    requires pos + n <= |bits|
    ensures Lsb(bits, pos, n) < Pow2(n)
    decreases n
  {
    if n > 0 { LsbBound(bits, pos + 1, n - 1); }
  }

  lemma {:induction false} MsbBound(bits: seq<bit>, pos: nat, n: nat)
    requires pos + n <= |bits|
    ensures Msb(bits, pos, n) < Pow2(n)
  {
    if n > 0 { MsbBound(bits, pos, n - 1); }
  }

  lemma {:induction false} LsbConcat(bits: seq<bit>, pos: nat, a: nat, b: nat)
    requires pos + a + b <= |bits|
    ensures Lsb(bits, pos, a + b) == Shl(Lsb(bits, pos + a, b), a) + Lsb(bits, pos, a)
    decreases a
  {
    if a > 0 {
      LsbConcat(bits, pos + 1, a - 1, b);
      assert pos + 1 + (a - 1) == pos + a;
    }
  }

  /** Splitting a packed value: the low a bits and the rest. */
  lemma LsbSplit(bits: seq<bit>, pos: nat, a: nat, b: nat)
    requires pos + a + b <= |bits|
    ensures Lsb(bits, pos, a + b) == Shl(Lsb(bits, pos + a, b), a) + Lsb(bits, pos, a)
    ensures Mask(Lsb(bits, pos, a + b), a) == Lsb(bits, pos, a)
    ensures Shr(Lsb(bits, pos, a + b), a) == Lsb(bits, pos + a, b)
  {
    hide Shl, Shr, Mask, Lsb;
    LsbConcat(bits, pos, a, b);
    LsbBound(bits, pos, a);
    SplitUnique(Lsb(bits, pos + a, b), a, Lsb(bits, pos, a));
  }

  lemma {:induction false} MsbSplit(bits: seq<bit>, pos: nat, a: nat, b: nat)
    requires pos + a + b <= |bits|
    ensures Msb(bits, pos, a + b) == Shl(Msb(bits, pos, a), b) + Msb(bits, pos + a, b)
    ensures Shr(Msb(bits, pos, a + b), b) == Msb(bits, pos, a)
    decreases b
  {
    if b > 0 {
      MsbSplit(bits, pos, a, b - 1);
      assert a + b - 1 == a + (b - 1);
      var v := Msb(bits, pos, a + b);
      assert v / 2 == Msb(bits, pos, a + (b - 1));
    }
  }

  lemma {:induction false} LsbByteBits(x: nat, n: nat, rest: seq<bit>)
    requires x < Pow2(n)
    ensures Lsb(ByteBits(x, n) + rest, 0, n) == x
    decreases n
  {
    if n > 0 {
      var r := ByteBits(x, n) + rest;
      LsbByteBits(x / 2, n - 1, rest);
      LsbShift(r, ByteBits(x / 2, n - 1) + rest, 1, 0, n - 1);
    }
  }

  /** The packed value depends only on the bits it covers. */
  lemma {:induction false} LsbShift(s: seq<bit>, t: seq<bit>, i: nat, j: nat, n: nat)
    requires i + n <= |s| && j + n <= |t|
    requires s[i..i + n] == t[j..j + n]
    ensures Lsb(s, i, n) == Lsb(t, j, n)
    decreases n
  {
    if n > 0 {
      assert s[i..i + n][0] == t[j..j + n][0];
      assert s[i + 1..i + n] == s[i..i + n][1..];
      assert t[j + 1..j + n] == t[j..j + n][1..];
      LsbShift(s, t, i + 1, j + 1, n - 1);
    }
  }

  lemma LsbAfter(head: seq<bit>, tail: seq<bit>, pos: nat, n: nat)
    requires pos + n <= |tail|
    ensures Lsb(head + tail, |head| + pos, n) == Lsb(tail, pos, n)
  {
    var r := head + tail;
    assert r[|head| + pos..|head| + pos + n] == tail[pos..pos + n];
    LsbShift(r, tail, |head| + pos, pos, n);
  }

  /** A whole byte read at a byte boundary. */
  lemma {:induction false} LsbByte(inp: seq<byte>, i: nat)
    requires i < |inp|
    ensures Lsb(BitsOf(inp), 8 * i, 8) == inp[i]
    decreases i
  {
    hide Lsb, ByteBits, Shl;
    var head, tail := ByteBits(inp[0], 8), BitsOf(inp[1..]);
    if i == 0 {
      Pow2Values();
      LsbByteBits(inp[0], 8, tail);
    } else {
      LsbByte(inp[1..], i - 1);
      LsbAfter(head, tail, 8 * (i - 1), 8);
    }
  }

  // ---------- reversed codes ----------

  /** The k-bit reversal of c (only the low k bits of c matter). */
  function Rev(c: nat, k: nat): nat
    decreases k
  {
    if k == 0 then 0 else Shl(c % 2, k - 1) + Rev(c / 2, k - 1)
  }

  lemma {:induction false} RevBound(c: nat, k: nat)
    ensures Rev(c, k) < Pow2(k)
    decreases k
  {
    if k > 0 {
      RevBound(c / 2, k - 1);
      ShlZero(k - 1);
      assert c % 2 == 0 || c % 2 == 1;
    }
  }

  lemma {:induction false} RevZero(k: nat)
    ensures Rev(0, k) == 0
  {
    if k > 0 { RevZero(k - 1); ShlZero(k - 1); }
  }

  /** A reversed code is its reversed prefix below its reversed rest. */
  lemma {:induction false} RevPrefix(c: nat, w: nat, d: nat)
    ensures Rev(c, w + d) == Shl(Rev(Mask(c, d), d), w) + Rev(Shr(c, d), w)
    decreases d
  {
    if d == 0 {
      ShlZero(w);
    } else {
      RevPrefix(c / 2, w, d - 1);
      assert w + d - 1 == w + (d - 1);
      var m := Mask(c, d);
      assert m % 2 == c % 2 && m / 2 == Mask(c / 2, d - 1);
      ShlPlus(Shl(c % 2, d - 1), Rev(m / 2, d - 1), w);
      ShlShl(c % 2, d - 1, w);
    }
  }

  lemma RevParts(c: nat, w: nat, d: nat)
    ensures Mask(Rev(c, w + d), w) == Rev(Shr(c, d), w)
    ensures Shr(Rev(c, w + d), w) == Rev(Mask(c, d), d)
  {
    RevPrefix(c, w, d);
    RevBound(Shr(c, d), w);
    SplitUnique(Rev(Mask(c, d), d), w, Rev(Shr(c, d), w));
  }

  /** A code whose last d bits are zero reverses to its reversed prefix. */
  lemma RevTrailingZeros(c: nat, w: nat, d: nat)
    requires Mask(c, d) == 0
    ensures Rev(c, w + d) == Rev(Shr(c, d), w)
  {
    RevPrefix(c, w, d);
    RevZero(d);
    ShlZero(w);
  }

  lemma {:induction false} RevRev(c: nat, k: nat)
    requires c < Pow2(k)
    ensures Rev(Rev(c, k), k) == c
    decreases k
  {
    if k > 0 {
      RevRev(c / 2, k - 1);
      RevBound(c / 2, k - 1);
      var r := Rev(c, k);
      SplitUnique(c % 2, k - 1, Rev(c / 2, k - 1));
      RevPrefix(r, 1, k - 1);
      assert Rev(c % 2, 1) == c % 2 by {
        assert Rev((c % 2) / 2, 0) == 0;
      }
    }
  }

  lemma RevInjective(c: nat, d: nat, k: nat)
    requires c < Pow2(k) && d < Pow2(k) && Rev(c, k) == Rev(d, k)
    ensures c == d
  {
    RevRev(c, k);
    RevRev(d, k);
  }

  /** Packing order and code order are reversals of one another. */
  lemma {:induction false} LsbIsRevMsb(bits: seq<bit>, pos: nat, n: nat)
    requires pos + n <= |bits|
    ensures Lsb(bits, pos, n) == Rev(Msb(bits, pos, n), n)
    decreases n
  {
    hide Mask, Shr;
    if n > 0 {
      LsbIsRevMsb(bits, pos, n - 1);
      LsbSplit(bits, pos, n - 1, 1);
      var b := bits[pos + n - 1];
      assert Lsb(bits, pos + (n - 1), 1) == b by {
        assert Lsb(bits, pos + n, 0) == 0;
      }
      var m := Msb(bits, pos, n - 1);
      assert (2 * m + b) % 2 == b && (2 * m + b) / 2 == m;
    }
  }
}
