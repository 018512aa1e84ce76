/** SHA-3: the sponge of FIPS 202 over bytes, and the incremental hash whose input
    may come in any pieces. */
module Sha3 {
  import opened Lanes
  import opened LaneBits
  import opened Keccak
  import opened KeccakBits
  import F = Fips202

  // ---------- lanes and bytes ----------

  /** Byte t of a lane, least significant first (section B.1 of FIPS 202). */
  function ByteOf(l: Lane, t: nat): Byte
    requires t < 8
  {
    Low(Down(l, t))
  }

  /** The 64-bit word at eight bytes of little-endian memory. */
  function Word(b: seq<Byte>): Lane
    requires |b| == 8
  {
    Lane(b[0] as bv64 | (b[1] as bv64 << 8) | (b[2] as bv64 << 16) | (b[3] as bv64 << 24)
         | (b[4] as bv64 << 32) | (b[5] as bv64 << 40) | (b[6] as bv64 << 48) | (b[7] as bv64 << 56))
  }

  lemma ByteOfXor(l: Lane, k: Lane, t: nat)
    requires t < 8
    ensures ByteOf(Xor(l, k), t) == ByteOf(l, t) ^ ByteOf(k, t)
  {
    hide Low, Down, Xor;
    DownXor(l, k, t);
    LowXor(Down(l, t), Down(k, t));
  }

  lemma LowXor(x: Lane, y: Lane)
    ensures Low(Xor(x, y)) == Low(x) ^ Low(y)
  {
  }

  lemma Down1Xor(x: Lane, y: Lane)
    ensures Down1(Xor(x, y)) == Xor(Down1(x), Down1(y))
  {
  }

  lemma {:induction false} DownXor(x: Lane, y: Lane, t: nat)
    requires t < 8
    ensures Down(Xor(x, y), t) == Xor(Down(x, t), Down(y, t))
  {
    hide Down1, Xor;
    if t > 0 {
      DownXor(x, y, t - 1);
      Down1Xor(Down(x, t - 1), Down(y, t - 1));
    }
  }

  lemma {:induction false} DownFirst(l: Lane, t: nat)
    requires 0 < t < 8
    ensures Down(l, t) == Down(Down1(l), t - 1)
  {
    hide Down1;
    if t > 1 { DownFirst(l, t - 1); }
  }

  lemma Down1Word(b: seq<Byte>)
    requires |b| == 8
    ensures Down1(Word(b)) == Word(b[1..] + [0])
    ensures Low(Word(b)) == b[0]
  {
  }

  lemma {:induction false} ByteOfWord(b: seq<Byte>, t: nat)
    requires |b| == 8 && t < 8
    ensures ByteOf(Word(b), t) == b[t]
    decreases t
  {
    hide Down1, Low, Word;
    Down1Word(b);
    if t > 0 {
      DownFirst(Word(b), t);
      ByteOfWord(b[1..] + [0], t - 1);
    }
  }

  /** A lane is determined by its bytes. */
  lemma WordOfBytes(l: Lane)
    ensures Word(seq(8, t requires 0 <= t < 8 => ByteOf(l, t))) == l
  {
  }

  /** The bytes of a run of lanes. */
  function Unpack(a: seq<Lane>): (b: seq<Byte>)
    ensures |b| == 8 * |a|
  {
    seq(8 * |a|, i requires 0 <= i < 8 * |a| => ByteOf(a[i / 8], i % 8))
  }

  function Pack(b: seq<Byte>): State
    requires |b| == 200
  {
    seq(25, j requires 0 <= j < 25 => Word(b[8 * j..8 * j + 8]))
  }

  /** A byte stored in a lane. */
  function Put(l: Lane, t: nat, b: Byte): Lane
    requires t < 8
  {
    Word(seq(8, u requires 0 <= u < 8 => if u == t then b else ByteOf(l, u)))
  }

  /** Storing a byte is storing it in the lane it lies in. */
  lemma UnpackPut(a: seq<Lane>, i: nat, b: Byte)
    requires i < 8 * |a|
    ensures Unpack(a[i / 8 := Put(a[i / 8], i % 8, b)]) == Unpack(a)[i := b]
  {
    hide ByteOf, Word;
    var l := a[i / 8];
    var bytes := seq(8, u requires 0 <= u < 8 => if u == i % 8 then b else ByteOf(l, u));
    forall u | 0 <= u < 8
      ensures ByteOf(Word(bytes), u) == bytes[u]
    {
      ByteOfWord(bytes, u);
    }
  }

  lemma PackUnpack(a: State)
    ensures Pack(Unpack(a)) == a
  {
    hide ByteOf, Word;
    forall j | 0 <= j < 25
      ensures Pack(Unpack(a))[j] == a[j]
    {
      var b := Unpack(a)[8 * j..8 * j + 8];
      assert b == seq(8, t requires 0 <= t < 8 => ByteOf(a[j], t));
      WordOfBytes(a[j]);
    }
  }

  // ---------- the sponge (sections 4, 5.1 and 6.1 of FIPS 202) ----------

  /** Keccak-f on the state as 200 bytes. */
  function Permute(b: seq<Byte>): (r: seq<Byte>)
    requires |b| == 200
    ensures |r| == 200
  {
    Unpack(Rounds(Pack(b), 24))
  }

  /** XOR p into b from place n on. */
  function XorAt(b: seq<Byte>, n: nat, p: seq<Byte>): (r: seq<Byte>)
    requires n + |p| <= |b|
    ensures |r| == |b|
  {
    seq(|b|, i requires 0 <= i < |b| => if n <= i < n + |p| then b[i] ^ p[i - n] else b[i])
  }

  /** What is left of n bytes after all whole blocks of r. */
  function Rest(n: nat, r: nat): (k: nat)
    requires r > 0
    ensures k < r && k <= n
  {
    if n < r then n else Rest(n - r, r)
  }

  lemma {:induction false} RestStep(n: nat, d: nat, r: nat)
    requires r > 0 && Rest(n, r) + d <= r
    ensures Rest(n + d, r) == if Rest(n, r) + d == r then 0 else Rest(n, r) + d
  {
    if n >= r { RestStep(n - r, d, r); }
  }

  /** Absorb a whole number of r-byte blocks. */
  function Absorb(m: seq<Byte>, r: nat): (b: seq<Byte>)
    requires 0 < r <= 200 && Rest(|m|, r) == 0
    ensures |b| == 200
  {
    if m == [] then seq(200, i => 0)
    else Permute(XorAt(Absorb(m[..|m| - r], r), 0, m[|m| - r..]))
  }

  function Zeros(n: nat): (z: seq<Byte>)
    ensures |z| == n
  {
    seq(n, i => 0)
  }

  /** The message followed by 01 and pad10*1, as whole bytes. */
  function Padded(m: seq<Byte>, r: nat): (p: seq<Byte>)
    requires r > 0
    ensures Rest(|p|, r) == 0
  {
    var k := r - Rest(|m|, r);
    RestStep(|m|, k, r);
    m + (if k == 1 then [0x86] else [0x06] + Zeros(k - 2) + [0x80])
  }

  /** The first r bytes the sponge gives; every SHA-3 digest is a prefix of them. */
  function Sponge(m: seq<Byte>, r: nat): (h: seq<Byte>)
    requires 0 < r <= 200
    ensures |h| == r
  {
    Absorb(Padded(m, r), r)[..r]
  }

  function BitString(b: seq<Byte>): (z: seq<bool>)
    ensures |z| == 8 * |b|
  {
    seq(8 * |b|, i requires 0 <= i < 8 * |b| => Bit(b[i / 8], i % 8))
  }

  function NoBits(n: nat): (z: seq<bool>)
    ensures |z| == n
  {
    seq(n, i => false)
  }

  lemma BitStringPlus(a: seq<Byte>, b: seq<Byte>)
    ensures BitString(a + b) == BitString(a) + BitString(b)
  {
    hide Bit;
  }

  lemma {:induction false} BitOfZero(t: nat)
    ensures !Bit(0, t)
  {
    if t > 0 { BitOfZero(t - 1); }
  }

  lemma BitStringZeros(n: nat)
    ensures BitString(Zeros(n)) == NoBits(8 * n)
  {
    forall i | 0 <= i < 8 * n
      ensures !BitString(Zeros(n))[i]
    {
      BitOfZero(i % 8);
    }
  }

  lemma ByteBits(b: Byte)
    ensures BitString([b]) == [Bit(b, 0), Bit(b, 1), Bit(b, 2), Bit(b, 3), Bit(b, 4), Bit(b, 5), Bit(b, 6), Bit(b, 7)]
  {
    hide Bit;
  }

  lemma DomainBits()
    ensures BitString([0x06]) == [false, true, true] + NoBits(5)
    ensures BitString([0x86]) == [false, true, true] + NoBits(4) + [true]
    ensures BitString([0x80]) == NoBits(7) + [true]
  {
    ByteBits(0x06);
    ByteBits(0x86);
    ByteBits(0x80);
    LowBits(0x06);
    LowBits(0x86);
    LowBits(0x80);
  }

  lemma {:induction false} RestBits(n: nat, r: nat)
    requires r > 0
    ensures Rest(8 * n, 8 * r) == 8 * Rest(n, r)
  {
    if n >= r { RestBits(n - r, r); }
  }

  /** Bit by bit, the padded message is the message, 01, and pad10*1: a 1, the least
      number of 0s that fills the last block, and a 1. */
  lemma PaddingBits(m: seq<Byte>, r: nat)
    requires r > 0
    ensures var j := 8 * (r - Rest(|m|, r)) - 4;
            && 0 <= j < 8 * r && Rest(8 * |m| + 2 + (1 + j + 1), 8 * r) == 0
            && BitString(Padded(m, r)) == BitString(m) + [false, true] + ([true] + NoBits(j) + [true])
  {
    hide Bit, BitString, Padded;
    var k := r - Rest(|m|, r);
    RestBits(|Padded(m, r)|, r);
    if k == 1 { PaddingOne(m, r); } else { PaddingMore(m, r, k); }
  }

  lemma PaddingOne(m: seq<Byte>, r: nat)
    requires r > 0 && r - Rest(|m|, r) == 1
    ensures |Padded(m, r)| == |m| + 1
    ensures BitString(Padded(m, r)) == BitString(m) + [false, true] + ([true] + NoBits(4) + [true])
  {
    hide Bit, BitString, Rest;
    DomainBits();
    BitStringPlus(m, [0x86]);
  }

  lemma PaddingMore(m: seq<Byte>, r: nat, k: nat)
    requires r > 0 && k == r - Rest(|m|, r) && k != 1
    ensures k > 1 && |Padded(m, r)| == |m| + k
    ensures BitString(Padded(m, r)) == BitString(m) + [false, true] + ([true] + NoBits(8 * k - 4) + [true])
  {
    PaddedMore(m, r, k);
    hide Bit, BitString, Rest, Padded;
    DomainBits();
    var a, b: seq<Byte>, c: seq<Byte> := [0x06], Zeros(k - 2), [0x80];
    BitStringPlus(m, a + b + c);
    BitStringPlus(a + b, c);
    BitStringPlus(a, b);
    BitStringZeros(k - 2);
  }

  lemma PaddedMore(m: seq<Byte>, r: nat, k: nat)
    requires r > 0 && k == r - Rest(|m|, r) && k != 1
    ensures k > 1 && Padded(m, r) == m + ([0x06] + Zeros(k - 2) + [0x80])
  {
  }

  // ---------- the same, bit by bit ----------

  lemma {:induction false} XorBits(a: Byte, b: Byte, c: Byte, u: nat)
    requires c == a ^ b
    ensures Bit(c, u) == (Bit(a, u) != Bit(b, u))
    decreases u
  {
    XorHalves(a, b, c);
    if u > 0 { XorBits(a >> 1, b >> 1, c >> 1, u - 1); }
  }

  lemma XorHalves(a: Byte, b: Byte, c: Byte)
    requires c == a ^ b
    ensures c >> 1 == (a >> 1) ^ (b >> 1)
    ensures (c & 1 == 1) == ((a & 1 == 1) != (b & 1 == 1))
  {
  }

  lemma BitStringSlice(b: seq<Byte>, m: nat, n: nat)
    requires m <= n <= |b|
    ensures BitString(b[m..n]) == BitString(b)[8 * m..8 * n]
  {
    hide Bit;
    forall i | 0 <= i < 8 * (n - m)
      ensures BitString(b[m..n])[i] == BitString(b)[8 * m..8 * n][i]
    {
      assert (8 * m + i) / 8 == m + i / 8 && (8 * m + i) % 8 == i % 8;
    }
  }

  /** The bits of the bytes of a state are the bits of the state. */
  lemma UnpackBits(a: State)
    ensures BitString(Unpack(a)) == Bits(a)
  {
    hide Bit, LaneBit, Low, Down, ByteOf;
    forall i | 0 <= i < 1600
      ensures BitString(Unpack(a))[i] == Bits(a)[i]
    {
      Coordinates(i);
      ByteOfBit(a[i / 64], i / 8 % 8, i % 8);
      assert Unpack(a)[i / 8] == ByteOf(a[i / 64], i / 8 % 8);
    }
  }

  lemma Coordinates(i: nat)
    ensures i / 8 / 8 == i / 64 && i % 64 == 8 * (i / 8 % 8) + i % 8
  {
  }

  lemma ByteOfBit(l: Lane, t: nat, u: nat)
    requires t < 8 && u < 8
    ensures LaneBit(l, 8 * t + u) == Bit(ByteOf(l, t), u)
  {
    hide LaneBit, Low, Down, Bit;
    ByteBit(l, t, u);
  }

  lemma UnpackPack(b: seq<Byte>)
    requires |b| == 200
    ensures Unpack(Pack(b)) == b
  {
    hide ByteOf, Word;
    forall i | 0 <= i < 200
      ensures Unpack(Pack(b))[i] == b[i]
    {
      var j := i / 8;
      ByteOfWord(b[8 * j..8 * j + 8], i % 8);
    }
  }

  lemma PermuteBits(b: seq<Byte>)
    requires |b| == 200
    ensures BitString(Permute(b)) == F.KeccakF(BitString(b))
  {
    hide Bit, BitString, Bits, Pack, Unpack, Rounds, F.Rounds;
    RoundsAre(Pack(b), 24);
    UnpackBits(Pack(b));
    UnpackPack(b);
    UnpackBits(Rounds(Pack(b), 24));
  }

  lemma XorAtBits(b: seq<Byte>, p: seq<Byte>)
    requires |b| == 200 && |p| <= 200
    ensures BitString(XorAt(b, 0, p)) == F.Xor(BitString(b), BitString(p))
  {
    hide Bit, BitString, XorAt;
    forall i | 0 <= i < 1600
      ensures BitString(XorAt(b, 0, p))[i] == F.Xor(BitString(b), BitString(p))[i]
    {
      BitsAt(XorAt(b, 0, p), i);
      BitsAt(b, i);
      if i / 8 < |p| { BitsAt(p, i); }
      XorAtByte(b, p, i / 8, i % 8);
    }
  }

  lemma BitsAt(b: seq<Byte>, i: nat)
    requires i < 8 * |b|
    ensures BitString(b)[i] == Bit(b[i / 8], i % 8)
  {
    hide Bit;
  }

  lemma XorAtByte(b: seq<Byte>, p: seq<Byte>, j: nat, u: nat)
    requires |p| <= |b| && j < |b|
    ensures Bit(XorAt(b, 0, p)[j], u) == if j < |p| then Bit(b[j], u) != Bit(p[j], u) else Bit(b[j], u)
  {
    hide Bit;
    if j < |p| { XorBits(b[j], p[j], XorAt(b, 0, p)[j], u); }
  }

  lemma {:induction false} AbsorbBits(m: seq<Byte>, r: nat)
    requires 0 < r <= 200 && Rest(|m|, r) == 0
    ensures BitString(Absorb(m, r)) == F.Absorb(BitString(m), 8 * r)
    decreases |m|
  {
    hide Bit, BitString, Permute, XorAt, F.KeccakF, F.Xor, F.Absorb, Absorb;
    if m == [] {
      NothingAbsorbed(r);
    } else {
      var h, t := m[..|m| - r], m[|m| - r..];
      EnoughLeft(|m|, r);
      AbsorbBlock(m, r);
      AbsorbBits(h, r);
      BitStringSlice(m, 0, |m| - r);
      BitStringSlice(m, |m| - r, |m|);
      assert m[0..|m| - r] == h && m[|m| - r..|m|] == t;
      var p := BitString(m);
      assert p[..|p| - 8 * r] == p[0..8 * (|m| - r)] == BitString(h);
      assert p[|p| - 8 * r..] == p[8 * (|m| - r)..8 * |m|] == BitString(t);
      BlockOfBits(p, 8 * r);
      XorAtBits(Absorb(h, r), t);
      PermuteBits(XorAt(Absorb(h, r), 0, t));
    }
  }

  lemma EnoughLeft(n: nat, r: nat)
    requires r > 0 && Rest(n, r) == 0 && n > 0
    ensures n >= r
  {
  }

  lemma BlockOfBits(p: seq<bool>, r: nat)
    requires 0 < r <= 1600 && |p| >= r
    ensures F.Absorb(p, r) == F.KeccakF(F.Xor(F.Absorb(p[..|p| - r], r), p[|p| - r..]))
  {
    hide F.KeccakF, F.Xor;
  }

  lemma NothingAbsorbed(r: nat)
    requires 0 < r <= 200
    ensures BitString(Absorb([], r)) == F.Absorb(BitString([]), 8 * r)
  {
    BitStringZeros(200);
    hide Bit, BitString;
    assert Absorb([], r) == Zeros(200);
    assert NoBits(1600) == F.Absorb(BitString([]), 8 * r);
  }

  lemma {:induction false} RestsAgree(n: nat, r: nat)
    requires r > 0
    ensures F.Rest(n, r) == Rest(n, r)
  {
    if n >= r { RestsAgree(n - r, r); }
  }

  /** SHA-3 on bytes is SHA-3 on their bits. */
  lemma SpongeBits(m: seq<Byte>, r: nat, d: nat)
    requires 0 < r <= 200 && d <= 8 * r
    ensures BitString(Sponge(m, r))[..d] == F.Sha3(BitString(m), 8 * r, d)
  {
    hide Bit, BitString, Padded, Absorb, F.Absorb;
    PaddingBits(m, r);
    var j := 8 * (r - Rest(|m|, r)) - 4;
    var n := BitString(m) + [false, true];
    RestsAgree(|n| + 2, 8 * r);
    RestBits(|m|, r);
    RestStep(8 * |m|, 4, 8 * r);
    assert F.Zeros(|n|, 8 * r) == j;
    assert F.Padding(|n|, 8 * r) == [true] + NoBits(j) + [true];
    AbsorbBits(Padded(m, r), r);
    BitStringSlice(Absorb(Padded(m, r), r), 0, r);
  }

  // ---------- absorbing in pieces ----------

  /** The state with m absorbed: its whole blocks, and the rest XORed in. */
  function StateAfter(m: seq<Byte>, r: nat): (b: seq<Byte>)
    requires 0 < r <= 200
    ensures |b| == 200
  {
    var w := |m| - Rest(|m|, r);
    WholeIsWhole(|m|, r);
    XorAt(Absorb(m[..w], r), 0, m[w..])
  }

  lemma {:induction false} WholeIsWhole(n: nat, r: nat)
    requires r > 0
    ensures Rest(n - Rest(n, r), r) == 0
  {
    if n >= r { WholeIsWhole(n - r, r); }
  }

  /** More bytes, no more than fill the block up: XOR them in behind the others, and
      permute when the block is full. */
  lemma XorMore(b: seq<Byte>, p: seq<Byte>, d: seq<Byte>)
    requires |p| + |d| <= |b|
    ensures XorAt(XorAt(b, 0, p), |p|, d) == XorAt(b, 0, p + d)
  {
  }

  lemma AbsorbMore(m: seq<Byte>, d: seq<Byte>, r: nat)
    requires 0 < r <= 200 && |d| > 0 && Rest(|m|, r) + |d| <= r
    ensures Rest(|m + d|, r) == if Rest(|m|, r) + |d| == r then 0 else Rest(|m|, r) + |d|
    ensures var b := XorAt(StateAfter(m, r), Rest(|m|, r), d);
            StateAfter(m + d, r) == if Rest(|m|, r) + |d| == r then Permute(b) else b
  {
    hide Permute, Absorb, Rest;
    var k := Rest(|m|, r);
    var w := |m| - k;
    WholeIsWhole(|m|, r);
    RestStep(|m|, |d|, r);
    assert (m + d)[..w] == m[..w] && (m + d)[w..] == m[w..] + d;
    var c := Absorb(m[..w], r);
    XorMore(c, m[w..], d);
    hide XorAt;
    if k + |d| == r {
      assert (m + d)[..|m + d|] == m + d && (m + d)[|m + d|..] == [];
      AbsorbBlock(m + d, r);
      NoXor(Absorb(m + d, r));
    }
  }

  lemma AbsorbBlock(m: seq<Byte>, r: nat)
    requires 0 < r <= 200 && Rest(|m|, r) == 0 && |m| > 0
    ensures Rest(|m| - r, r) == 0
    ensures Absorb(m, r) == Permute(XorAt(Absorb(m[..|m| - r], r), 0, m[|m| - r..]))
  {
  }

  lemma NoXor(b: seq<Byte>)
    ensures XorAt(b, 0, []) == b
  {
  }

  /** Zero bytes change nothing. */
  lemma AbsorbZeros(m: seq<Byte>, n: nat, r: nat)
    requires 0 < r <= 200 && Rest(|m|, r) + n < r
    ensures StateAfter(m + Zeros(n), r) == StateAfter(m, r)
    ensures Rest(|m| + n, r) == Rest(|m|, r) + n
  {
    hide Permute, Absorb;
    RestStep(|m|, n, r);
    if n > 0 {
      AbsorbMore(m, Zeros(n), r);
      XorZeros(StateAfter(m, r), Rest(|m|, r), n);
    } else {
      assert m + Zeros(0) == m;
    }
  }

  lemma XorZeros(b: seq<Byte>, k: nat, n: nat)
    requires k + n <= |b|
    ensures XorAt(b, k, Zeros(n)) == b
  {
    forall i | k <= i < k + n
      ensures XorAt(b, k, Zeros(n))[i] == b[i]
    {
      XorZero(b[i]);
    }
  }

  lemma XorZero(x: Byte)
    ensures x ^ 0 == x
  {
  }

  /** XORing a word in is XORing its bytes in. */
  lemma UnpackXor(a: seq<Lane>, n: nat, p: seq<Byte>)
    requires |p| == 8 && n % 8 == 0 && n + 8 <= 8 * |a|
    ensures Unpack(a[n / 8 := Xor(a[n / 8], Word(p))]) == XorAt(Unpack(a), n, p)
  {
    hide ByteOf, Word, Xor;
    var a' := a[n / 8 := Xor(a[n / 8], Word(p))];
    forall i | 0 <= i < 8 * |a|
      ensures Unpack(a')[i] == XorAt(Unpack(a), n, p)[i]
    {
      if i / 8 == n / 8 {
        ByteOfXor(a[i / 8], Word(p), i % 8);
        ByteOfWord(p, i % 8);
      }
    }
  }

  lemma UnpackTake(a: seq<Lane>, n: nat)
    requires n <= |a|
    ensures Unpack(a[..n]) == Unpack(a)[..8 * n]
  {
    hide ByteOf;
  }

  // ---------- the incremental hash ----------

  /** Bytes accepted per permutation for a hash of iSize bits. */
  function RateFor(iSize: int): (r: nat)
    ensures 0 < r <= 168 && r % 8 == 0
    ensures iSize in {224, 256, 384, 512} ==> 8 * r == 1600 - 2 * iSize
  {
    if 128 <= iSize <= 512 then (1600 - (iSize + 31) / 32 * 32 * 2) / 8 else (1600 - 2 * 256) / 8
  }

  /** SHA3Context, on a little-endian machine. The 1600 bytes of the union are kept
      as the 200 lanes they make; the state is the first 25. */
  class Sha3Context {
    const s: array<Lane>
    const nRate: nat
    var nLoaded: nat
    ghost var msg: seq<Byte>      // everything absorbed

    ghost predicate Valid()
      reads this, s
    {
      && s.Length == 200
      && 0 < nRate <= 168 && nRate % 8 == 0
      && nLoaded == Rest(|msg|, nRate)
      && Unpack(s[..25]) == StateAfter(msg, nRate)
    }

    /** SHA3Init. */
    constructor (iSize: int)
      ensures Valid() && msg == [] && nRate == RateFor(iSize) && fresh(s)
    {
      hide Rounds;
      s := new Lane[200](i => Lane(0));
      nRate := RateFor(iSize);
      nLoaded := 0;
      msg := [];
      new;
      AllZero(s[..25]);
      NoXor(Zeros(200));
    }

    static lemma AllZero(a: seq<Lane>)
      requires |a| == 25 && forall i | 0 <= i < 25 :: a[i] == Lane(0)
      ensures Unpack(a) == seq(200, i => 0)
    {
      hide ByteOf;
      assert Word(Zeros(8)) == Lane(0);
      forall i | 0 <= i < 200
        ensures Unpack(a)[i] == 0
      {
        ByteOfWord(Zeros(8), i % 8);
      }
    }

    /** KeccakF1600Step on the state as bytes. */
    method Mix()
      requires s.Length == 200
      modifies s
      ensures Unpack(s[..25]) == Permute(old(Unpack(s[..25])))
    {
      hide Rounds, Unpack, Pack;
      PackUnpack(s[..25]);
      KeccakF1600Step(s);
    }

    /** u.x[i] = b. */
    method Store(i: nat, b: Byte)
      requires s.Length == 200 && i < 1600
      modifies s
      ensures Unpack(s[..]) == old(Unpack(s[..]))[i := b]
      ensures Unpack(s[..25]) == Unpack(s[..])[..200]
    {
      hide ByteOf, Word, Unpack;
      UnpackPut(s[..], i, b);
      s[i / 8] := Put(s[i / 8], i % 8, b);
      assert s[..] == old(s[..])[i / 8 := Put(old(s[i / 8]), i % 8, b)];
      UnpackTake(s[..], 25);
      assert s[..][..25] == s[..25];
    }

    /** u.x[i]. */
    function Load(i: nat): (b: Byte)
      reads s
      requires s.Length == 200 && i < 1600
      ensures b == Unpack(s[..])[i]
    {
      ByteOf(s[i / 8], i % 8)
    }

    /** Count the bytes d just XORed in, and permute when the block is full. */
    method Advance(d: seq<Byte>, ghost m: seq<Byte>)
      requires s.Length == 200 && 0 < nRate <= 168 && nRate % 8 == 0 && |d| > 0
      requires nLoaded == Rest(|m|, nRate) && nLoaded + |d| <= nRate
      requires Unpack(s[..25]) == XorAt(StateAfter(m, nRate), nLoaded, d)
      modifies this, s
      ensures Valid() && msg == m + d
    {
      hide Rounds, Unpack, Pack, Permute, StateAfter, XorAt, Rest;
      AbsorbMore(m, d, nRate);
      nLoaded := nLoaded + |d|;
      if nLoaded >= nRate {
        Mix();
        nLoaded := 0;
      }
      msg := m + d;
    }

    /** u.s[nLoaded / 8] ^= word. */
    method AddWord(d: seq<Byte>)
      requires Valid() && nLoaded % 8 == 0 && |d| == 8
      modifies this, s
      ensures Valid() && msg == old(msg) + d && nLoaded % 8 == 0
    {
      hide Rounds, Unpack, Pack, Permute, StateAfter, XorAt, Rest, Word, Xor;
      UnpackXor(s[..25], nLoaded, d);
      var j := nLoaded / 8;
      s[j] := Xor(s[j], Word(d));
      assert s[..25] == old(s[..25])[j := Xor(old(s[j]), Word(d))];
      RestStep(|msg|, 8, nRate);
      Advance(d, msg);
    }

    /** u.x[nLoaded] ^= b. */
    method AddByte(b: Byte)
      requires Valid()
      modifies this, s
      ensures Valid() && msg == old(msg) + [b]
    {
      hide Rounds, Unpack, Pack, Permute, StateAfter, Rest, ByteOf, Word;
      UnpackTake(s[..], 25);
      assert s[..][..25] == s[..25];
      Store(nLoaded, Load(nLoaded) ^ b);
      assert Unpack(s[..25]) == XorAt(old(Unpack(s[..25])), nLoaded, [b]);
      Advance([b], msg);
    }

    /** SHA3Update: by words while the place and the data are aligned, then by bytes. */
    method Update(data: seq<Byte>, aligned: bool)
      requires Valid()
      modifies this, s
      ensures Valid() && msg == old(msg) + data
    {
      hide Valid;
      var i: nat := 0;
      if nLoaded % 8 == 0 && aligned {
        while i + 7 < |data|
          invariant i <= |data| && Valid() && msg == old(msg) + data[..i] && nLoaded % 8 == 0
        {
          AddWord(data[i..i + 8]);
          i := i + 8;
          assert data[..i] == data[..i - 8] + data[i - 8..i];
        }
      }
      while i < |data|
        invariant i <= |data| && Valid() && msg == old(msg) + data[..i]
      {
        AddByte(data[i]);
        i := i + 1;
        assert data[..i] == data[..i - 1] + [data[i - 1]];
      }
      assert data[..i] == data;
    }

    /** The padding of SHA3Final. */
    method Finish()
      requires Valid()
      modifies this, s
      ensures Valid() && msg == Padded(old(msg), nRate)
    {
      hide StateAfter, Unpack;
      if nLoaded == nRate - 1 {
        Update([0x86], false);
      } else {
        ghost var k := nRate - nLoaded;
        RestStep(|msg|, 1, nRate);
        Update([0x06], false);
        AbsorbZeros(msg, k - 2, nRate);
        nLoaded := nRate - 1;
        msg := msg + Zeros(k - 2);
        Update([0x80], false);
        assert msg == old(msg) + ([0x06] + Zeros(k - 2) + [0x80]);
      }
    }

    /** Copy the first nRate bytes of the state behind themselves. */
    method CopyOut() returns (h: seq<Byte>)
      requires s.Length == 200 && 0 < nRate <= 168
      modifies s
      ensures h == old(Unpack(s[..]))[..nRate]
    {
      hide Unpack, ByteOf;
      ghost var x := Unpack(s[..]);
      var i: nat := 0;
      while i < nRate
        invariant i <= nRate && s.Length == 200
        invariant Unpack(s[..])[..nRate] == x[..nRate]
        invariant Unpack(s[..])[nRate..nRate + i] == x[..i]
      {
        assert Load(i) == x[..nRate][i];
        ghost var y := Unpack(s[..]);
        Store(i + nRate, Load(i));
        assert Unpack(s[..])[nRate..nRate + i + 1] == y[nRate..nRate + i] + [x[i]];
        i := i + 1;
        assert x[..i] == x[..i - 1] + [x[i - 1]];
      }
      h := seq(nRate, j requires 0 <= j < nRate reads s => Load(nRate + j));
      forall j | 0 <= j < nRate
        ensures h[j] == x[j]
      {
        assert h[j] == Load(nRate + j) == Unpack(s[..])[nRate..nRate + nRate][j] == x[..nRate][j];
      }
    }

    /** SHA3Final: pad, and return the digest. */
    method Final() returns (h: seq<Byte>)
      requires Valid()
      modifies this, s
      ensures h == Sponge(old(msg), nRate)
    {
      hide Absorb, Permute, Unpack, ByteOf, Padded, StateAfter;
      Finish();
      Whole(msg, nRate);
      UnpackTake(s[..], 25);
      assert s[..][..25] == s[..25];
      assert Unpack(s[..])[..200] == Absorb(msg, nRate);
      assert Unpack(s[..])[..nRate] == Unpack(s[..])[..200][..nRate];
      h := CopyOut();
    }

    static lemma Whole(m: seq<Byte>, r: nat)
      requires 0 < r <= 200 && Rest(|m|, r) == 0
      ensures StateAfter(m, r) == Absorb(m, r)
    {
      hide Absorb;
      assert m[..|m|] == m && m[|m|..] == [];
      NoXor(Absorb(m, r));
    }
  }

  function Concat(pieces: seq<seq<Byte>>): seq<Byte>
  {
    if pieces == [] then [] else Concat(pieces[..|pieces| - 1]) + pieces[|pieces| - 1]
  }

  /** Hashing a message in any pieces, aligned in memory or not. */
  method Hash(iSize: int, pieces: seq<seq<Byte>>, aligned: seq<bool>) returns (h: seq<Byte>)
    requires |aligned| == |pieces|
    ensures h == Sponge(Concat(pieces), RateFor(iSize))
    ensures iSize in {224, 256, 384, 512} ==>
              BitString(h)[..iSize] == F.Sha3(BitString(Concat(pieces)), 1600 - 2 * iSize, iSize)
  {
    hide F.Sha3, BitString, Sponge, RateFor, Sha3Context.Valid;
    var p := new Sha3Context(iSize);
    var i: nat := 0;
    while i < |pieces|
      invariant i <= |pieces| && p.Valid() && fresh(p) && fresh(p.s) && p.msg == Concat(pieces[..i])
    {
      p.Update(pieces[i], aligned[i]);
      i := i + 1;
      assert pieces[..i][..i - 1] == pieces[..i - 1];
    }
    assert pieces[..i] == pieces;
    h := p.Final();
    if iSize in {224, 256, 384, 512} { SpongeBits(Concat(pieces), RateFor(iSize), iSize); }
  }
}
