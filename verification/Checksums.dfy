/** The checksums of zlib: adler32 with its reductions put off, and the table-driven
    CRC-32. */
module Checksums {
  import opened Basics

  // ---------- Adler-32 (section 2.2 of RFC 1950) ----------

  newtype U32 = x: int | 0 <= x < 0x1_0000_0000

  const BASE: nat := 65521
  const NMAX: nat := 5552

  /** 65521 is the largest prime below 65536: no prime up to its square root divides it, and
      the numbers in between are not prime. */
  lemma BaseIsPrime()
    ensures BASE == 65521 < 256 * 256
    ensures 65521 % 2 != 0 && 65521 % 3 != 0 && 65521 % 5 != 0 && 65521 % 7 != 0 && 65521 % 11 != 0
    ensures 65521 % 13 != 0 && 65521 % 17 != 0 && 65521 % 19 != 0 && 65521 % 23 != 0 && 65521 % 29 != 0
    ensures 65521 % 31 != 0 && 65521 % 37 != 0 && 65521 % 41 != 0 && 65521 % 43 != 0 && 65521 % 47 != 0
    ensures 65521 % 53 != 0 && 65521 % 59 != 0 && 65521 % 61 != 0 && 65521 % 67 != 0 && 65521 % 71 != 0
    ensures 65521 % 73 != 0 && 65521 % 79 != 0 && 65521 % 83 != 0 && 65521 % 89 != 0 && 65521 % 97 != 0
    ensures 65521 % 101 != 0 && 65521 % 103 != 0 && 65521 % 107 != 0 && 65521 % 109 != 0 && 65521 % 113 != 0
    ensures 65521 % 127 != 0 && 65521 % 131 != 0 && 65521 % 137 != 0 && 65521 % 139 != 0 && 65521 % 149 != 0
    ensures 65521 % 151 != 0 && 65521 % 157 != 0 && 65521 % 163 != 0 && 65521 % 167 != 0 && 65521 % 173 != 0
    ensures 65521 % 179 != 0 && 65521 % 181 != 0 && 65521 % 191 != 0 && 65521 % 193 != 0 && 65521 % 197 != 0
    ensures 65521 % 199 != 0 && 65521 % 211 != 0 && 65521 % 223 != 0 && 65521 % 227 != 0 && 65521 % 229 != 0
    ensures 65521 % 233 != 0 && 65521 % 239 != 0 && 65521 % 241 != 0 && 65521 % 251 != 0
    ensures forall n | BASE < n < 65536 ::
              n % 2 == 0 || n % 3 == 0 || n % 5 == 0 || n % 11 == 0 || n % 13 == 0 || n % 19 == 0
  {
  }

  /** One byte: s1 is the sum of the bytes, s2 the sum of all s1, modulo 65521. */
  datatype Sums = Sums(s1: nat, s2: nat)

  function Add(s: Sums, b: byte): Sums
  {
    var s1 := (s.s1 + b) % BASE;
    Sums(s1, (s.s2 + s1) % BASE)
  }

  function AddAll(s: Sums, data: seq<byte>): Sums
  {
    if data == [] then s else Add(AddAll(s, data[..|data| - 1]), data[|data| - 1])
  }

  function Unpacked(adler: U32): Sums
  {
    Sums(adler as int % 65536, adler as int / 65536)
  }

  function Reduced(s: Sums): (r: Sums)
    ensures r.s1 < BASE && r.s2 < BASE
  {
    Sums(s.s1 % BASE, s.s2 % BASE)
  }

  lemma AddReduced(s: Sums, data: seq<byte>)
    requires s.s1 < BASE && s.s2 < BASE
    ensures AddAll(s, data).s1 < BASE && AddAll(s, data).s2 < BASE
  {
  }

  function Packed(s: Sums): U32
    requires s.s1 < 65536 && s.s2 < 65536
  {
    (s.s2 * 65536 + s.s1) as U32
  }

  /** The checksum of data, continuing from adler. */
  function Adler(adler: U32, data: seq<byte>): U32
  {
    AddReduced(Reduced(Unpacked(adler)), data);
    Packed(AddAll(Reduced(Unpacked(adler)), data))
  }

  /** Bounds of the sums after k bytes without reduction. */
  function Bound1(k: nat): nat { 65535 + 255 * k }

  function Bound2(k: nat): nat
  {
    if k == 0 then 65535 else Bound2(k - 1) + Bound1(k)
  }

  lemma {:induction false} Bound2Closed(k: nat)
    ensures 2 * Bound2(k) == 2 * 65535 * (k + 1) + 255 * (k * (k + 1))
  {
    if k > 0 {
      Bound2Closed(k - 1);
      assert k * (k + 1) == (k - 1) * k + 2 * k;
    }
  }

  lemma {:induction false} Bound2Grows(j: nat, k: nat)
    requires j <= k
    ensures Bound2(j) <= Bound2(k)
  {
    if j < k { Bound2Grows(j, k - 1); }
  }

  /** NMAX bytes never overflow 32 bits, whatever 16-bit sums they start from. */
  lemma BlockFits(k: nat)
    requires k <= NMAX
    ensures Bound2(k) < 0x1_0000_0000 && Bound1(k) < 0x1_0000_0000
  {
    Bound2Closed(NMAX);
    Bound2Grows(k, NMAX);
  }

  /** What is known of the running sums after n bytes of the block. */
  ghost predicate Running(s1: U32, s2: U32, t: Sums, n: nat)
  {
    && s1 as int <= Bound1(n) && s2 as int <= Bound2(n)
    && s1 as int % BASE == t.s1 && s2 as int % BASE == t.s2
  }

  /** AD_DO1. */
  method DoOne(s1: U32, s2: U32, b: byte, ghost t: Sums, ghost n: nat) returns (r1: U32, r2: U32)
    requires Running(s1, s2, t, n) && n < NMAX
    ensures Running(r1, r2, Add(t, b), n + 1)
  {
    BlockFits(n + 1);
    r1 := s1 + b as U32;
    r2 := s2 + r1;
    ModPlus(s1 as int, b);
    ModPlus(s2 as int, r1 as int);
  }

  lemma ModPlus(a: nat, b: nat)
    ensures (a + b) % BASE == (a % BASE + b) % BASE == (a % BASE + b % BASE) % BASE
  {
  }

  /** AD_DO16. */
  method DoSixteen(s1: U32, s2: U32, data: seq<byte>, at: nat, ghost t: Sums, ghost n: nat) returns (r1: U32, r2: U32)
    requires at + 16 <= |data| && n + 16 <= NMAX && Running(s1, s2, AddAll(t, data[..at]), n)
    ensures Running(r1, r2, AddAll(t, data[..at + 16]), n + 16)
  {
    hide Running, Add;
    r1, r2 := s1, s2;
    for i := 0 to 16
      invariant Running(r1, r2, AddAll(t, data[..at + i]), n + i)
    {
      assert data[..at + i + 1][..at + i] == data[..at + i];
      r1, r2 := DoOne(r1, r2, data[at + i], AddAll(t, data[..at + i]), n + i);
    }
  }

  /** One block of k bytes, at most NMAX, then the reductions. */
  method Block(s1: U32, s2: U32, data: seq<byte>, at: nat, k: nat, ghost t: Sums) returns (r1: U32, r2: U32)
    requires at + k <= |data| && k <= NMAX && Running(s1, s2, AddAll(t, data[..at]), 0)
    ensures Sums(r1 as int, r2 as int) == Reduced(AddAll(t, data[..at + k]))
  {
    hide Running, Add;
    r1, r2 := s1, s2;
    var n: nat := 0;
    while k - n >= 16
      invariant n <= k && Running(r1, r2, AddAll(t, data[..at + n]), n)
    {
      r1, r2 := DoSixteen(r1, r2, data, at + n, t, n);
      n := n + 16;
    }
    while n < k
      invariant n <= k && Running(r1, r2, AddAll(t, data[..at + n]), n)
    {
      assert data[..at + n + 1][..at + n] == data[..at + n];
      r1, r2 := DoOne(r1, r2, data[at + n], AddAll(t, data[..at + n]), n);
      n := n + 1;
    }
    RunningReduced(r1, r2, AddAll(t, data[..at + k]), k);
    r1, r2 := r1 % (BASE as U32), r2 % (BASE as U32);
  }

  lemma RunningReduced(s1: U32, s2: U32, t: Sums, n: nat)
    requires Running(s1, s2, t, n)
    ensures Sums(s1 as int % BASE, s2 as int % BASE) == Reduced(t) == t
  {
  }

  /** adler32: equal to the byte-by-byte definition, exactly unless there is no data
      and the sums of the starting value are not reduced. */
  method Adler32(adler: U32, data: seq<byte>) returns (r: U32)
    ensures r == Adler(adler, data) <==> data != [] || Unpacked(adler) == Reduced(Unpacked(adler))
    ensures data == [] ==> r == adler
  {
    hide AddAll;
    var s1, s2 := adler % 65536, adler / 65536;
    ghost var t := Reduced(Unpacked(adler));
    NoBytes(t);
    var at: nat := 0;
    while at < |data|
      invariant at <= |data|
      invariant if at == 0 then Sums(s1 as int, s2 as int) == Unpacked(adler)
                else Sums(s1 as int, s2 as int) == AddAll(t, data[..at])
      invariant s1 < 65536 && s2 < 65536
    {
      var k := if |data| - at < NMAX then |data| - at else NMAX;
      assert data[..0] == [];
      AddReduced(t, data[..at]);
      AddReduced(t, data[..at + k]);
      s1, s2 := Block(s1, s2, data, at, k, t);
      at := at + k;
    }
    assert data[..at] == data;
    r := s2 * 65536 + s1;
    if data == [] { PackUnreduced(adler); }
  }

  lemma NoBytes(s: Sums)
    ensures AddAll(s, []) == s
  {
  }

  lemma PackUnreduced(adler: U32)
    ensures Packed(Unpacked(adler)) == adler
    ensures Packed(Reduced(Unpacked(adler))) == adler <==> Unpacked(adler) == Reduced(Unpacked(adler))
  {
  }

  lemma {:induction false} AddAllPlus(s: Sums, x: seq<byte>, y: seq<byte>)
    ensures AddAll(s, x + y) == AddAll(AddAll(s, x), y)
  {
    hide Add;
    if y == [] {
      assert x + y == x;
    } else {
      assert (x + y)[..|x + y| - 1] == x + y[..|y| - 1];
      AddAllPlus(s, x, y[..|y| - 1]);
    }
  }

  /** Checksums of consecutive pieces compose. */
  lemma AdlerComposes(adler: U32, x: seq<byte>, y: seq<byte>)
    ensures Adler(Adler(adler, x), y) == Adler(adler, x + y)
  {
    hide AddAll, Add, Reduced, Packed, Unpacked;
    var s := Reduced(Unpacked(adler));
    AddReduced(s, x);
    AddReduced(s, x + y);
    AddAllPlus(s, x, y);
    PackBack(AddAll(s, x));
  }

  lemma PackBack(s: Sums)
    requires s.s1 < BASE && s.s2 < BASE
    ensures Reduced(Unpacked(Packed(s))) == s
  {
  }

  // ---------- CRC-32 (section 8 of RFC 1952) ----------

  /** The register, shifted by one bit. */
  function BitStep(c: bv32): bv32
  {
    (c >> 1) ^ (if c & 1 == 1 then 0xedb8_8320 else 0)
  }

  /** The polynomial of the CRC has the terms x^32, x^26, x^23, x^22, x^16, x^12, x^11, x^10,
      x^8, x^7, x^5, x^4, x^2, x and 1; the term x^k is bit 31 - k. */
  lemma Polynomial()
    ensures BitStep(1) == (1 << 5) | (1 << 8) | (1 << 9) | (1 << 15) | (1 << 19) | (1 << 20) | (1 << 21)
                          | (1 << 23) | (1 << 24) | (1 << 26) | (1 << 27) | (1 << 29) | (1 << 30) | (1 << 31)
    ensures BitStep(0) == 0
  {
  }

  function EightSteps(c: bv32): bv32
  {
    BitStep(BitStep(BitStep(BitStep(BitStep(BitStep(BitStep(BitStep(c))))))))
  }

  function Mixed(c: bv32, b: bv8): bv32 { c ^ b as bv32 }

  /** The register after one more byte. */
  function CrcByte(c: bv32, b: bv8): bv32
  {
    EightSteps(Mixed(c, b))
  }

  function CrcBytes(c: bv32, data: seq<bv8>): bv32
  {
    if data == [] then c else CrcByte(CrcBytes(c, data[..|data| - 1]), data[|data| - 1])
  }

  function Inverted(c: bv32): bv32 { c ^ 0xffff_ffff }

  function Crc(crc: bv32, data: seq<bv8>): bv32
  {
    Inverted(CrcBytes(Inverted(crc), data))
  }

  /** crc_table, as the generator in RFC 1952 makes it. */
  function CrcTable(n: bv32): bv32
  {
    EightSteps(n)
  }

  function Low8(c: bv32): bv32 { c & 0xff }
  function Down8(c: bv32): bv32 { c >> 8 }
  function Plus(a: bv32, b: bv32): bv32 { a ^ b }

  /** CRC_DO1: crc_table[(crc ^ b) & 0xff] ^ (crc >> 8). */
  function Lookup(c: bv32, b: bv8): bv32
  {
    Plus(CrcTable(Low8(Mixed(c, b))), Down8(c))
  }

  /** Eight steps only shift the bits above the lowest eight. */
  lemma HighShifts(x: bv32)
    ensures EightSteps(x) == Plus(EightSteps(Low8(x)), Down8(x))
  {
    hide EightSteps;
    HighBits(x);
  }

  lemma HighBits(x: bv32)
    ensures EightSteps(x) == EightSteps(x & 0xff) ^ (x >> 8)
  {
  }

  /** One table lookup does eight bit steps. */
  lemma TableStep(c: bv32, b: bv8)
    ensures Lookup(c, b) == CrcByte(c, b)
  {
    hide EightSteps, Mixed, Low8, Down8, Plus;
    HighShifts(Mixed(c, b));
    SameHigh(c, b);
  }

  lemma SameHigh(c: bv32, b: bv8)
    ensures Down8(Mixed(c, b)) == Down8(c)
  {
  }

  /** CRC_DO8. */
  method CrcDo8(c: bv32, data: seq<bv8>, at: nat, ghost c0: bv32) returns (r: bv32)
    requires at + 8 <= |data| && c == CrcBytes(c0, data[..at])
    ensures r == CrcBytes(c0, data[..at + 8])
  {
    hide CrcByte, Lookup;
    r := c;
    for i := 0 to 8
      invariant r == CrcBytes(c0, data[..at + i])
    {
      assert data[..at + i + 1][..at + i] == data[..at + i];
      TableStep(r, data[at + i]);
      r := Lookup(r, data[at + i]);
    }
  }

  /** ucrc32. */
  method Crc32(crc: bv32, data: seq<bv8>) returns (r: bv32)
    ensures r == Crc(crc, data)
  {
    hide CrcByte, Lookup, Inverted;
    ghost var c0 := Inverted(crc);
    r := Inverted(crc);
    var at: nat := 0;
    while |data| - at >= 8
      invariant at <= |data| && r == CrcBytes(c0, data[..at])
    {
      r := CrcDo8(r, data, at, c0);
      at := at + 8;
    }
    while at < |data|
      invariant at <= |data| && r == CrcBytes(c0, data[..at])
    {
      assert data[..at + 1][..at] == data[..at];
      TableStep(r, data[at]);
      r := Lookup(r, data[at]);
      at := at + 1;
    }
    assert data[..at] == data;
    r := Inverted(r);
  }

  lemma {:induction false} CrcBytesPlus(c: bv32, x: seq<bv8>, y: seq<bv8>)
    ensures CrcBytes(c, x + y) == CrcBytes(CrcBytes(c, x), y)
  {
    hide CrcByte;
    if y == [] {
      assert x + y == x;
    } else {
      assert (x + y)[..|x + y| - 1] == x + y[..|y| - 1];
      CrcBytesPlus(c, x, y[..|y| - 1]);
    }
  }

  /** Checksums of consecutive pieces compose. */
  lemma CrcComposes(crc: bv32, x: seq<bv8>, y: seq<bv8>)
    ensures Crc(Crc(crc, x), y) == Crc(crc, x + y)
  {
    hide CrcBytes, Inverted;
    CrcBytesPlus(Inverted(crc), x, y);
    TwiceInverted(CrcBytes(Inverted(crc), x));
  }

  lemma TwiceInverted(x: bv32)
    ensures Inverted(Inverted(x)) == x
  {
  }
}
