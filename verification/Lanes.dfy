/** The permutation Keccak-f[1600] of FIPS 202 on lanes of 64 bits. */
module Lanes {
  import F = Fips202

  /** A 64-bit lane. */
  datatype Lane = Lane(w: bv64)

  /** ROL64. */
  function Rol(a: Lane, n: bv64): Lane
    requires n < 64
  {
    Lane((a.w << n) | (a.w >> (64 - n)))
  }

  lemma RolZero(a: Lane)
    ensures Rol(a, 0) == a
  {
  }

  function Xor(a: Lane, b: Lane): Lane { Lane(a.w ^ b.w) }

  function Parity(a: Lane, b: Lane, c: Lane, d: Lane, e: Lane): Lane { Xor(Xor(Xor(Xor(a, b), c), d), e) }

  function Effect(c: Lane, c': Lane): Lane { Xor(c, Rol(c', 1)) }

  function Mix(a: Lane, b: Lane, c: Lane): Lane { Lane(a.w ^ (!b.w & c.w)) }

  /** A state: lane (x, y) is element 5 y + x. */
  type State = a: seq<Lane> | |a| == 25 witness seq(25, i => Lane(0))

  // ---------- sections 3.2 and 3.3 of FIPS 202 ----------

  function Column(a: State, x: nat): Lane
    requires x < 5
  {
    Parity(a[x], a[5 + x], a[10 + x], a[15 + x], a[20 + x])
  }

  /** What theta adds to the lanes of column x. */
  function Change(a: State, x: nat): Lane
    requires x < 5
  {
    Effect(Column(a, (x + 4) % 5), Column(a, (x + 1) % 5))
  }

  function Theta(a: State): State
  {
    seq(25, i requires 0 <= i < 25 => Xor(a[i], Change(a, i % 5)))
  }

  /** How far lane i is rotated. */
  function Offset(i: nat): (n: bv64)
    requires i < 25
    ensures n < 64
  {
    match i
    case 0 => 0
    case 1 => 1
    case 2 => 62
    case 3 => 28
    case 4 => 27
    case 5 => 36
    case 6 => 44
    case 7 => 6
    case 8 => 55
    case 9 => 20
    case 10 => 3
    case 11 => 10
    case 12 => 43
    case 13 => 25
    case 14 => 39
    case 15 => 41
    case 16 => 45
    case 17 => 15
    case 18 => 21
    case 19 => 8
    case 20 => 18
    case 21 => 2
    case 22 => 61
    case 23 => 56
    case _ => 14
  }

  function Rho(a: State): State
  {
    seq(25, i requires 0 <= i < 25 => Rol(a[i], Offset(i)))
  }

  /** Lane (x, y) comes from lane (x + 3 y, x). */
  function Pi(a: State): State
  {
    seq(25, i requires 0 <= i < 25 => a[PiFrom(i)])
  }

  function PiFrom(i: nat): (j: nat)
    requires i < 25
    ensures j < 25
  {
    5 * (i % 5) + (i % 5 + 3 * (i / 5)) % 5
  }

  /** The lane n to the right in the same row. */
  function Along(i: nat, n: nat): (j: nat)
    requires i < 25
    ensures j < 25
  {
    5 * (i / 5) + (i % 5 + n) % 5
  }

  function Chi(a: State): State
  {
    seq(25, i requires 0 <= i < 25 => Mix(a[i], a[Along(i, 1)], a[Along(i, 2)]))
  }

  function Iota(a: State, rc: Lane): State
  {
    a[0 := Xor(a[0], rc)]
  }

  function Round(a: State, rc: Lane): State
  {
    Iota(Chi(Pi(Rho(Theta(a)))), rc)
  }

  const RC: seq<bv64> := [
    0x0000000000000001, 0x0000000000008082, 0x800000000000808a, 0x8000000080008000,
    0x000000000000808b, 0x0000000080000001, 0x8000000080008081, 0x8000000000008009,
    0x000000000000008a, 0x0000000000000088, 0x0000000080008009, 0x000000008000000a,
    0x000000008000808b, 0x800000000000008b, 0x8000000000008089, 0x8000000000008003,
    0x8000000000008002, 0x8000000000000080, 0x000000000000800a, 0x800000008000000a,
    0x8000000080008081, 0x8000000000008080, 0x0000000080000001, 0x8000000080008008]

  /** The first n rounds; Keccak-f has 24. */
  function Rounds(a: State, n: nat): State
    requires n <= 24
  {
    if n == 0 then a else Round(Rounds(a, n - 1), Lane(RC[n - 1]))
  }

  // ---------- where the constants come from ----------

  /** Algorithm 5 of section 3.2.5: one step of the register, bit 0 first. */
  function RegisterStep(r: bv8): bv8
  {
    (r << 1) ^ (if r >= 0x80 then 0x71 else 0)
  }

  function Register(t: nat): bv8
  {
    if t == 0 then 1 else RegisterStep(Register(t - 1))
  }

  /** Bit j of seven goes to place 2^j - 1. */
  function Spread(r0: bv8, r1: bv8, r2: bv8, r3: bv8, r4: bv8, r5: bv8, r6: bv8): bv64
  {
    (r0 & 1) as bv64 | ((r1 & 1) as bv64 << 1) | ((r2 & 1) as bv64 << 3) | ((r3 & 1) as bv64 << 7)
    | ((r4 & 1) as bv64 << 15) | ((r5 & 1) as bv64 << 31) | ((r6 & 1) as bv64 << 63)
  }

  /** Round constant i, from bits 7 i to 7 i + 6 of the register's output
      (sections 3.2.5 and 3.3). */
  function RcOf(i: nat): bv64
  {
    Spread(Register(7 * i), Register(7 * i + 1), Register(7 * i + 2), Register(7 * i + 3),
           Register(7 * i + 4), Register(7 * i + 5), Register(7 * i + 6))
  }

  predicate OffsetRight(t: nat)
  {
    Offset(5 * F.WalkY(t) + F.WalkX(t)) as int == (t + 1) * (t + 2) / 2 % 64
  }

  /** The walk of section 3.2.2 over the lanes other than (0, 0). */
  predicate Walked(t: nat, x: nat, y: nat)
  {
    F.WalkX(t) == x && F.WalkY(t) == y
  }

  lemma WalkStep(t: nat, x: nat, y: nat)
    requires Walked(t, x, y)
    ensures Walked(t + 1, y, (2 * x + 3 * y) % 5)
  {
  }

  lemma OffsetCase(t: nat, x: nat, y: nat, n: nat)
    requires Walked(t, x, y) && x < 5 && y < 5
    requires 2 * n == (t + 1) * (t + 2) && Offset(5 * y + x) as int == n % 64
    ensures OffsetRight(t)
  {
    hide Offset;
  }

  lemma Offsets0()
    ensures Offset(0) as int == 0 && Offset(1) as int == 1 && Offset(2) as int == 62 && Offset(3) as int == 28
            && Offset(4) as int == 27
  {
  }

  lemma Offsets1()
    ensures Offset(5) as int == 36 && Offset(6) as int == 44 && Offset(7) as int == 6 && Offset(8) as int == 55
            && Offset(9) as int == 20
  {
  }

  lemma Offsets2()
    ensures Offset(10) as int == 3 && Offset(11) as int == 10 && Offset(12) as int == 43 && Offset(13) as int == 25
            && Offset(14) as int == 39
  {
  }

  lemma Offsets3()
    ensures Offset(15) as int == 41 && Offset(16) as int == 45 && Offset(17) as int == 15 && Offset(18) as int == 21
            && Offset(19) as int == 8
  {
  }

  lemma Offsets4()
    ensures Offset(20) as int == 18 && Offset(21) as int == 2 && Offset(22) as int == 61 && Offset(23) as int == 56
            && Offset(24) as int == 14
  {
  }

  lemma Offsets()
    ensures Offset(0) as int == 0 && Offset(1) as int == 1 && Offset(2) as int == 62 && Offset(3) as int == 28
            && Offset(4) as int == 27
    ensures Offset(5) as int == 36 && Offset(6) as int == 44 && Offset(7) as int == 6 && Offset(8) as int == 55
            && Offset(9) as int == 20
    ensures Offset(10) as int == 3 && Offset(11) as int == 10 && Offset(12) as int == 43 && Offset(13) as int == 25
            && Offset(14) as int == 39
    ensures Offset(15) as int == 41 && Offset(16) as int == 45 && Offset(17) as int == 15 && Offset(18) as int == 21
            && Offset(19) as int == 8
    ensures Offset(20) as int == 18 && Offset(21) as int == 2 && Offset(22) as int == 61 && Offset(23) as int == 56
            && Offset(24) as int == 14
  {
    hide Offset;
    Offsets0();
    Offsets1();
    Offsets2();
    Offsets3();
    Offsets4();
  }

  lemma OffsetsRight0()
    requires Walked(0, 1, 0)
    ensures Walked(1, 0, 2) && Walked(2, 2, 1) && Walked(3, 1, 2)
    ensures Walked(4, 2, 3) && Walked(5, 3, 3) && Walked(6, 3, 0)
    ensures forall t | 0 <= t < 6 :: OffsetRight(t)
  {
    hide Walked, OffsetRight, Offset;
    Offsets();
    WalkStep(0, 1, 0); OffsetCase(0, 1, 0, 1);
    WalkStep(1, 0, 2); OffsetCase(1, 0, 2, 3);
    WalkStep(2, 2, 1); OffsetCase(2, 2, 1, 6);
    WalkStep(3, 1, 2); OffsetCase(3, 1, 2, 10);
    WalkStep(4, 2, 3); OffsetCase(4, 2, 3, 15);
    WalkStep(5, 3, 3); OffsetCase(5, 3, 3, 21);
  }

  lemma OffsetsRight1()
    requires Walked(6, 3, 0)
    ensures Walked(7, 0, 1) && Walked(8, 1, 3) && Walked(9, 3, 1)
    ensures Walked(10, 1, 4) && Walked(11, 4, 4) && Walked(12, 4, 0)
    ensures forall t | 6 <= t < 12 :: OffsetRight(t)
  {
    hide Walked, OffsetRight, Offset;
    Offsets();
    WalkStep(6, 3, 0); OffsetCase(6, 3, 0, 28);
    WalkStep(7, 0, 1); OffsetCase(7, 0, 1, 36);
    WalkStep(8, 1, 3); OffsetCase(8, 1, 3, 45);
    WalkStep(9, 3, 1); OffsetCase(9, 3, 1, 55);
    WalkStep(10, 1, 4); OffsetCase(10, 1, 4, 66);
    WalkStep(11, 4, 4); OffsetCase(11, 4, 4, 78);
  }

  lemma OffsetsRight2()
    requires Walked(12, 4, 0)
    ensures Walked(13, 0, 3) && Walked(14, 3, 4) && Walked(15, 4, 3)
    ensures Walked(16, 3, 2) && Walked(17, 2, 2) && Walked(18, 2, 0)
    ensures forall t | 12 <= t < 18 :: OffsetRight(t)
  {
    hide Walked, OffsetRight, Offset;
    Offsets();
    WalkStep(12, 4, 0); OffsetCase(12, 4, 0, 91);
    WalkStep(13, 0, 3); OffsetCase(13, 0, 3, 105);
    WalkStep(14, 3, 4); OffsetCase(14, 3, 4, 120);
    WalkStep(15, 4, 3); OffsetCase(15, 4, 3, 136);
    WalkStep(16, 3, 2); OffsetCase(16, 3, 2, 153);
    WalkStep(17, 2, 2); OffsetCase(17, 2, 2, 171);
  }

  lemma OffsetsRight3()
    requires Walked(18, 2, 0)
    ensures Walked(19, 0, 4) && Walked(20, 4, 2) && Walked(21, 2, 4)
    ensures Walked(22, 4, 1) && Walked(23, 1, 1) && Walked(24, 1, 0)
    ensures forall t | 18 <= t < 24 :: OffsetRight(t)
  {
    hide Walked, OffsetRight, Offset;
    Offsets();
    WalkStep(18, 2, 0); OffsetCase(18, 2, 0, 190);
    WalkStep(19, 0, 4); OffsetCase(19, 0, 4, 210);
    WalkStep(20, 4, 2); OffsetCase(20, 4, 2, 231);
    WalkStep(21, 2, 4); OffsetCase(21, 2, 4, 253);
    WalkStep(22, 4, 1); OffsetCase(22, 4, 1, 276);
    WalkStep(23, 1, 1); OffsetCase(23, 1, 1, 300);
  }

  /** Table 2 of section 3.2.2. */
  lemma OffsetsRight()
    ensures forall t | 0 <= t < 24 :: OffsetRight(t)
  {
    hide OffsetRight, Walked;
    WalkStarts();
    OffsetsRight0();
    OffsetsRight1();
    OffsetsRight2();
    OffsetsRight3();
  }

  lemma WalkStarts()
    ensures Walked(0, 1, 0)
  {
  }

  /** When the walk comes to a lane. */
  lemma Visited(i: nat) returns (t: nat)
    requires 0 < i < 25
    ensures t < 24 && Walked(t, i % 5, i / 5)
  {
    hide OffsetRight, Walked;
    WalkStarts();
    OffsetsRight0();
    OffsetsRight1();
    OffsetsRight2();
    OffsetsRight3();
    t := VISITS[i];
    assert i / 5 == 0 || i / 5 == 1 || i / 5 == 2 || i / 5 == 3 || i / 5 == 4;
    assert i % 5 == 0 || i % 5 == 1 || i % 5 == 2 || i % 5 == 3 || i % 5 == 4;
  }

  const VISITS: seq<nat> := [24, 0, 18, 6, 12, 7, 23, 2, 9, 22, 1, 3, 17, 16, 20, 13, 8, 4, 5, 15, 19, 10, 21, 14, 11]

  /** The walk never comes to (0, 0). */
  lemma {:induction false} NeverHome(t: nat)
    ensures !Walked(t, 0, 0)
  {
    if t > 0 { NeverHome(t - 1); }
  }

  lemma {:induction false} OffsetFound(i: nat, t: nat, t0: nat)
    requires i < 25 && t0 <= t < 24 && Walked(t, i % 5, i / 5) && forall u | 0 <= u < 24 :: OffsetRight(u)
    ensures F.Offset(i % 5, i / 5, t0) == Offset(i) as int
    decreases t - t0
  {
    hide F.WalkX, F.WalkY, Offset;
    assert OffsetRight(t0);
    if !(F.WalkX(t0) == i % 5 && F.WalkY(t0) == i / 5) { OffsetFound(i, t, t0 + 1); }
  }

  lemma {:induction false} NoOffset(t0: nat)
    requires t0 <= 24
    ensures F.Offset(0, 0, t0) == 0
    decreases 24 - t0
  {
    hide F.WalkX, F.WalkY;
    if t0 < 24 {
      NeverHome(t0);
      NoOffset(t0 + 1);
    }
  }

  /** The table of offsets is what the walk gives. */
  lemma OffsetIs(i: nat)
    requires i < 25
    ensures Offset(i) as int == F.Offset(i % 5, i / 5, 0)
  {
    hide F.Offset, Walked, OffsetRight, Offset;
    if i == 0 {
      NoOffset(0);
      Offsets();
    } else {
      OffsetsRight();
      var t := Visited(i);
      OffsetFound(i, t, 0);
    }
  }

  /** Seven steps of the register give one round constant. */
  lemma SevenSteps(i: nat, r: bv8)
    requires Register(7 * i) == r
    ensures var r1 := RegisterStep(r); var r2 := RegisterStep(r1); var r3 := RegisterStep(r2);
            var r4 := RegisterStep(r3); var r5 := RegisterStep(r4); var r6 := RegisterStep(r5);
            && Register(7 * (i + 1)) == RegisterStep(r6)
            && RcOf(i) == Spread(r, r1, r2, r3, r4, r5, r6)
  {
    hide RegisterStep;
    assert Register(7 * i + 1) == RegisterStep(Register(7 * i));
    assert Register(7 * i + 2) == RegisterStep(Register(7 * i + 1));
    assert Register(7 * i + 3) == RegisterStep(Register(7 * i + 2));
    assert Register(7 * i + 4) == RegisterStep(Register(7 * i + 3));
    assert Register(7 * i + 5) == RegisterStep(Register(7 * i + 4));
    assert Register(7 * i + 6) == RegisterStep(Register(7 * i + 5));
    assert Register(7 * i + 7) == RegisterStep(Register(7 * i + 6));
  }

  lemma ConstantsRight0()
    requires Register(0) == 0x01
    ensures Register(28) == 0xdf
    ensures forall i | 0 <= i < 4 :: RC[i] == RcOf(i)
  {
    hide Register, RcOf;
    SevenSteps(0, 0x01);
    SevenSteps(1, 0x80);
    SevenSteps(2, 0xd8);
    SevenSteps(3, 0x1a);
  }

  lemma ConstantsRight1()
    requires Register(28) == 0xdf
    ensures Register(56) == 0xca
    ensures forall i | 4 <= i < 8 :: RC[i] == RcOf(i)
  {
    hide Register, RcOf;
    SevenSteps(4, 0xdf);
    SevenSteps(5, 0x09);
    SevenSteps(6, 0x35);
    SevenSteps(7, 0x4f);
  }

  lemma ConstantsRight2()
    requires Register(56) == 0xca
    ensures Register(84) == 0xd5
    ensures forall i | 8 <= i < 12 :: RC[i] == RcOf(i)
  {
    hide Register, RcOf;
    SevenSteps(8, 0xca);
    SevenSteps(9, 0x70);
    SevenSteps(10, 0x41);
    SevenSteps(11, 0xec);
  }

  lemma ConstantsRight3()
    requires Register(84) == 0xd5
    ensures Register(112) == 0xaa
    ensures forall i | 12 <= i < 16 :: RC[i] == RcOf(i)
  {
    hide Register, RcOf;
    SevenSteps(12, 0xd5);
    SevenSteps(13, 0xcd);
    SevenSteps(14, 0x63);
    SevenSteps(15, 0xab);
  }

  lemma ConstantsRight4()
    requires Register(112) == 0xaa
    ensures Register(140) == 0x37
    ensures forall i | 16 <= i < 20 :: RC[i] == RcOf(i)
  {
    hide Register, RcOf;
    SevenSteps(16, 0xaa);
    SevenSteps(17, 0x2a);
    SevenSteps(18, 0xf2);
    SevenSteps(19, 0xe8);
  }

  lemma ConstantsRight5()
    requires Register(140) == 0x37
    ensures Register(168) == 0x8e
    ensures forall i | 20 <= i < 24 :: RC[i] == RcOf(i)
  {
    hide Register, RcOf;
    SevenSteps(20, 0x37);
    SevenSteps(21, 0x3e);
    SevenSteps(22, 0x0b);
    SevenSteps(23, 0x44);
  }

  lemma ConstantsRight()
    ensures forall i | 0 <= i < 24 :: RC[i] == RcOf(i)
  {
    hide RcOf;
    ConstantsRight0();
    ConstantsRight1();
    ConstantsRight2();
    ConstantsRight3();
    ConstantsRight4();
    ConstantsRight5();
  }
}
