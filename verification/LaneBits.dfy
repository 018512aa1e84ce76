/** Lanes bit by bit: the permutation on lanes is the one FIPS 202 defines on booleans. */
module LaneBits {
  import opened Lanes
  import F = Fips202

  type Byte = bv8

  /** The lane moved down by t bytes. */
  function Down(l: Lane, t: nat): Lane
    requires t < 8
  {
    if t == 0 then l else Down1(Down(l, t - 1))
  }

  function Down1(l: Lane): Lane { Lane(l.w >> 8) }

  function Low(l: Lane): Byte { (l.w & 0xff) as Byte }

  /** Bit t of a byte, least significant first (section B.1 of FIPS 202). */
  function Bit(b: Byte, t: nat): bool
  {
    if t == 0 then b & 1 == 1 else Bit(b >> 1, t - 1)
  }

  lemma LowBits(b: Byte)
    ensures Bit(b, 0) == (b & 1 == 1) && Bit(b, 1) == (b & 2 == 2) && Bit(b, 2) == (b & 4 == 4)
    ensures Bit(b, 3) == (b & 8 == 8) && Bit(b, 4) == (b & 16 == 16) && Bit(b, 5) == (b & 32 == 32)
    ensures Bit(b, 6) == (b & 64 == 64) && Bit(b, 7) == (b & 128 == 128)
  {
    assert Bit(b, 1) == Bit(b >> 1, 0);
    assert Bit(b, 2) == Bit(b >> 1, 1) == Bit(b >> 2, 0);
    assert Bit(b, 3) == Bit(b >> 1, 2) == Bit(b >> 2, 1) == Bit(b >> 3, 0);
    assert Bit(b >> 4, 3) == Bit(b >> 5, 2) == Bit(b >> 6, 1) == Bit(b >> 7, 0);
    assert Bit(b, 4) == Bit(b >> 1, 3) == Bit(b >> 2, 2) == Bit(b >> 3, 1) == Bit(b >> 4, 0);
    assert Bit(b >> 4, 1) == Bit(b >> 5, 0);
    assert Bit(b >> 4, 2) == Bit(b >> 5, 1) == Bit(b >> 6, 0);
    assert Bit(b, 5) == Bit(b >> 1, 4) == Bit(b >> 2, 3) == Bit(b >> 3, 2) == Bit(b >> 4, 1);
    assert Bit(b, 6) == Bit(b >> 1, 5) == Bit(b >> 2, 4) == Bit(b >> 3, 3) == Bit(b >> 4, 2);
    assert Bit(b, 7) == Bit(b >> 1, 6) == Bit(b >> 2, 5) == Bit(b >> 3, 4) == Bit(b >> 4, 3);
  }

  // ---------- the bits of a lane ----------

  function Half(l: Lane): Lane { Lane(l.w >> 1) }

  /** Bit z of a lane, least significant first. */
  function LaneBit(l: Lane, z: nat): bool
    decreases z
  {
    if z == 0 then l.w & 1 == 1 else LaneBit(Half(l), z - 1)
  }

  lemma Same(a: Lane, b: Lane)
    requires a.w == b.w
    ensures a == b
  {
  }

  lemma EightHalves(l: Lane)
    ensures Half(Half(Half(Half(Half(Half(Half(Half(l)))))))) == Down1(l)
  {
    HalvesWord(l);
    hide Half, Down1;
    Same(Half(Half(Half(Half(Half(Half(Half(Half(l)))))))), Down1(l));
  }

  lemma HalvesWord(l: Lane)
    ensures Half(Half(Half(Half(Half(Half(Half(Half(l)))))))).w == Down1(l).w
  {
  }

  lemma Next(l: Lane, z: nat)
    ensures LaneBit(l, z + 1) == LaneBit(Half(l), z)
  {
    hide Half;
  }

  lemma NextByte(l: Lane, z: nat)
    ensures LaneBit(l, z + 8) == LaneBit(Down1(l), z)
  {
    hide Half, LaneBit, Down1;
    var h := Half(Half(Half(Half(l))));
    Next(l, z + 7);
    Next(Half(l), z + 6);
    Next(Half(Half(l)), z + 5);
    Next(Half(Half(Half(l))), z + 4);
    Next(h, z + 3);
    Next(Half(h), z + 2);
    Next(Half(Half(h)), z + 1);
    Next(Half(Half(Half(h))), z);
    EightHalves(l);
  }

  lemma {:induction false} InByte(l: Lane, t: nat, u: nat)
    requires t < 8
    ensures LaneBit(l, 8 * t + u) == LaneBit(Down(l, t), u)
    decreases t
  {
    hide LaneBit, Down1;
    if t > 0 {
      InByte(l, t - 1, u + 8);
      NextByte(Down(l, t - 1), u);
    }
  }

  lemma HalfLow(l: Lane)
    ensures Low(Half(l)) & 0x7f == Low(l) >> 1
    ensures (Low(l) & 1 == 1) == (l.w & 1 == 1)
  {
  }

  lemma LowSeven(b: Byte, u: nat)
    requires u < 7
    ensures Bit(b & 0x7f, u) == Bit(b, u)
  {
    LowBits(b);
    LowBits(b & 0x7f);
    hide Bit;
    if u == 0 {} else if u == 1 {} else if u == 2 {} else if u == 3 {} else if u == 4 {} else if u == 5 {}
    else { assert u == 6; }
  }

  lemma {:induction false} LowBit(l: Lane, u: nat)
    requires u < 8
    ensures LaneBit(l, u) == Bit(Low(l), u)
    decreases u
  {
    hide Half, Low;
    HalfLow(l);
    if u > 0 {
      LowBit(Half(l), u - 1);
      LowSeven(Low(Half(l)), u - 1);
    }
  }

  /** Bit 8 t + u is bit u of byte t. */
  lemma ByteBit(l: Lane, t: nat, u: nat)
    requires t < 8 && u < 8
    ensures LaneBit(l, 8 * t + u) == Bit(Low(Down(l, t)), u)
  {
    hide LaneBit, Low, Down, Bit;
    InByte(l, t, u);
    LowBit(Down(l, t), u);
  }

  // ---------- the operations ----------

  lemma {:induction false} XorBit(a: Lane, b: Lane, z: nat)
    ensures LaneBit(Xor(a, b), z) == (LaneBit(a, z) != LaneBit(b, z))
    decreases z
  {
    hide Xor, Half;
    XorHalf(a, b);
    if z > 0 { XorBit(Half(a), Half(b), z - 1); }
  }

  lemma XorHalf(a: Lane, b: Lane)
    ensures Half(Xor(a, b)) == Xor(Half(a), Half(b))
    ensures (Xor(a, b).w & 1 == 1) == ((a.w & 1 == 1) != (b.w & 1 == 1))
  {
  }

  lemma {:induction false} MixBit(a: Lane, b: Lane, c: Lane, z: nat)
    ensures LaneBit(Mix(a, b, c), z) == (LaneBit(a, z) != (!LaneBit(b, z) && LaneBit(c, z)))
    decreases z
  {
    hide Mix, Half;
    MixHalf(a, b, c);
    if z > 0 { MixBit(Half(a), Half(b), Half(c), z - 1); }
  }

  lemma MixHalf(a: Lane, b: Lane, c: Lane)
    ensures Half(Mix(a, b, c)) == Mix(Half(a), Half(b), Half(c))
    ensures (Mix(a, b, c).w & 1 == 1) == ((a.w & 1 == 1) != (!(b.w & 1 == 1) && c.w & 1 == 1))
  {
  }

  lemma ParityBit(a: Lane, b: Lane, c: Lane, d: Lane, e: Lane, z: nat)
    ensures LaneBit(Parity(a, b, c, d, e), z)
            == ((((LaneBit(a, z) != LaneBit(b, z)) != LaneBit(c, z)) != LaneBit(d, z)) != LaneBit(e, z))
  {
    hide Xor, LaneBit;
    XorBit(a, b, z);
    XorBit(Xor(a, b), c, z);
    XorBit(Xor(Xor(a, b), c), d, z);
    XorBit(Xor(Xor(Xor(a, b), c), d), e, z);
  }

  // ---------- rotations ----------

  function Cleared(l: Lane): Lane { Lane(l.w & 0x7fff_ffff_ffff_ffff) }

  /** Where Cleared has ones, t bytes down. */
  function Top(t: nat): Lane
  {
    if t == 0 then Lane(0x7fff_ffff_ffff_ffff) else Down1(Top(t - 1))
  }

  lemma TopByte(t: nat)
    requires t < 8
    ensures Low(Top(t)) == if t < 7 then 0xff else 0x7f
  {
    assert Top(1) == Lane(0x7f_ffff_ffff_ffff);
    assert Top(2) == Lane(0x7fff_ffff_ffff);
    assert Top(3) == Lane(0x7f_ffff_ffff);
    assert Top(4) == Lane(0x7fff_ffff);
    assert Top(5) == Lane(0x7f_ffff);
    assert Top(6) == Lane(0x7fff);
    assert Top(7) == Lane(0x7f);
    if t == 0 {} else if t == 1 {} else if t == 2 {} else if t == 3 {} else if t == 4 {} else if t == 5 {}
    else if t == 6 {} else { assert t == 7; }
  }

  /** c has the bits of l where m has ones. */
  predicate Cut(c: Lane, l: Lane, m: Lane) { c.w == l.w & m.w }

  lemma CutStep(c: Lane, l: Lane, m: Lane)
    requires Cut(c, l, m)
    ensures Cut(Down1(c), Down1(l), Down1(m))
  {
  }

  lemma {:induction false} ClearedDown(l: Lane, t: nat)
    requires t < 8
    ensures Cut(Down(Cleared(l), t), Down(l, t), Top(t))
    decreases t
  {
    hide Down1, Down, Top, Cleared, Cut;
    if t > 0 {
      ClearedDown(l, t - 1);
      DownNext(l, t);
      DownNext(Cleared(l), t);
      TopNext(t);
      CutStep(Down(Cleared(l), t - 1), Down(l, t - 1), Top(t - 1));
    } else {
      NoDown(l);
      NoDown(Cleared(l));
      ClearedIs(l);
    }
  }

  lemma ClearedIs(l: Lane)
    ensures Cut(Cleared(l), l, Top(0))
  {
  }

  lemma TopNext(t: nat)
    requires t > 0
    ensures Top(t) == Down1(Top(t - 1))
  {
    hide Down1;
  }

  lemma CutLow(c: Lane, l: Lane, m: Lane)
    requires Cut(c, l, m)
    ensures Low(m) == 0xff ==> Low(c) == Low(l)
    ensures Low(m) == 0x7f ==> Low(c) == Low(l) & 0x7f
  {
  }

  lemma ClearedBit(l: Lane, z: nat)
    requires z < 63
    ensures LaneBit(Cleared(l), z) == LaneBit(l, z)
  {
    hide LaneBit, Cleared, Low, Down, Bit, Top, Cut;
    var t, u := z / 8, z % 8;
    ByteBit(l, t, u);
    ByteBit(Cleared(l), t, u);
    ClearedDown(l, t);
    TopByte(t);
    CutLow(Down(Cleared(l), t), Down(l, t), Top(t));
    if t == 7 { LowSeven(Low(Down(l, 7)), u); }
  }

  lemma DownNext(l: Lane, t: nat)
    requires 0 < t < 8
    ensures Down(l, t) == Down1(Down(l, t - 1))
  {
    hide Down1;
  }

  lemma NoDown(l: Lane)
    ensures Down(l, 0) == l
  {
  }

  lemma DownOnce(l: Lane) ensures Down1(l).w == l.w >> 8 {}

  lemma Down2(l: Lane, d: Lane) requires d.w == l.w >> 8 ensures Down1(d).w == l.w >> 16 {}

  lemma Down3(l: Lane, d: Lane) requires d.w == l.w >> 16 ensures Down1(d).w == l.w >> 24 {}

  lemma Down4(l: Lane, d: Lane) requires d.w == l.w >> 24 ensures Down1(d).w == l.w >> 32 {}

  lemma Down5(l: Lane, d: Lane) requires d.w == l.w >> 32 ensures Down1(d).w == l.w >> 40 {}

  lemma Down6(l: Lane, d: Lane) requires d.w == l.w >> 40 ensures Down1(d).w == l.w >> 48 {}

  lemma Down7(l: Lane, d: Lane) requires d.w == l.w >> 48 ensures Down1(d).w == l.w >> 56 {}

  /** The bytes of a lane by shifts. */
  lemma Downs(l: Lane)
    ensures Down(l, 0) == l && Down(l, 1).w == l.w >> 8 && Down(l, 2).w == l.w >> 16 && Down(l, 3).w == l.w >> 24
    ensures Down(l, 4).w == l.w >> 32 && Down(l, 5).w == l.w >> 40 && Down(l, 6).w == l.w >> 48
    ensures Down(l, 7).w == l.w >> 56
  {
    hide *;
    NoDown(l);
    DownNext(l, 1);
    DownOnce(l);
    DownNext(l, 2);
    Down2(l, Down(l, 1));
    DownNext(l, 3);
    Down3(l, Down(l, 2));
    DownNext(l, 4);
    Down4(l, Down(l, 3));
    DownNext(l, 5);
    Down5(l, Down(l, 4));
    DownNext(l, 6);
    Down6(l, Down(l, 5));
    DownNext(l, 7);
    Down7(l, Down(l, 6));
  }

  lemma RolOnce(l: Lane)
    ensures Half(Rol(l, 1)) == Cleared(l)
    ensures (Rol(l, 1).w & 1 == 1) == (Low(Down(l, 7)) & 128 == 128)
  {
    hide Half, Rol, Cleared, Down, Down1, Low;
    RolHalf(l);
    Same(Half(Rol(l, 1)), Cleared(l));
    Downs(l);
    RolLow(l, Down(l, 7));
  }

  lemma RolHalf(l: Lane)
    ensures Half(Rol(l, 1)).w == Cleared(l).w
  {
  }

  lemma RolLow(l: Lane, d: Lane)
    requires d.w == l.w >> 56
    ensures (Rol(l, 1).w & 1 == 1) == (Low(d) & 128 == 128)
  {
  }

  lemma RolBit1(l: Lane, z: nat)
    requires z < 64
    ensures LaneBit(Rol(l, 1), z) == LaneBit(l, if z == 0 then 63 else z - 1)
  {
    hide Rol, Cleared, Half, Low, Down, Bit;
    RolOnce(l);
    if z == 0 {
      ByteBit(l, 7, 7);
      LowBits(Low(Down(l, 7)));
    } else {
      ClearedBit(l, z - 1);
    }
  }

  /** A lane rotated as lane i is. */
  function Turn(l: Lane, i: nat): Lane
    requires i < 25
  {
    Rol(l, Offset(i))
  }

  /** That moves every bit up by k places. */
  ghost predicate Turns(i: nat, k: nat)
    requires i < 25 && k < 64
  {
    forall l: Lane, z: nat | z < 64 :: LaneBit(Turn(l, i), z) == LaneBit(l, (z + 64 - k) % 64)
  }

  lemma Turned(l: Lane, i: nat, k: nat, z: nat)
    requires i < 25 && k < 64 && z < 64 && Turns(i, k)
    ensures LaneBit(Turn(l, i), z) == LaneBit(l, (z + 64 - k) % 64)
  {
    hide Turn, LaneBit;
  }

  lemma TurnsAre(i: nat, k: nat)
    requires i < 25 && k < 64
    requires forall l: Lane, z: nat | z < 64 :: LaneBit(Turn(l, i), z) == LaneBit(l, (z + 64 - k) % 64)
    ensures Turns(i, k)
  {
    hide Turn, LaneBit;
  }

  lemma NoTurn(l: Lane)
    ensures Turn(l, 0).w == l.w
  {
  }

  lemma OneTurn(l: Lane)
    ensures Turn(l, 1).w == Rol(l, 1).w
  {
  }

  lemma FirstTurns()
    ensures Turns(0, 0) && Turns(1, 1)
  {
    hide LaneBit, Rol, Turn, Turns;
    forall l: Lane, z: nat | z < 64
      ensures LaneBit(Turn(l, 0), z) == LaneBit(l, (z + 64 - 0) % 64)
      ensures LaneBit(Turn(l, 1), z) == LaneBit(l, (z + 64 - 1) % 64)
    {
      NoTurn(l);
      Same(Turn(l, 0), l);
      OneTurn(l);
      Same(Turn(l, 1), Rol(l, 1));
      RolBit1(l, z);
    }
    TurnsAre(0, 0);
    TurnsAre(1, 1);
  }

  /** Lane m is rotated as far as lanes i and j together. */
  predicate Adds(l: Lane, i: nat, j: nat, m: nat)
    requires i < 25 && j < 25 && m < 25
  {
    Turn(Turn(l, i), j).w == Turn(l, m).w
  }

  lemma TurnsMore(i: nat, k: nat, j: nat, d: nat, m: nat)
    requires i < 25 && j < 25 && m < 25 && k + d < 64
    requires Turns(i, k) && Turns(j, d) && forall l: Lane :: Adds(l, i, j, m)
    ensures Turns(m, k + d)
  {
    hide LaneBit, Turn, Turns;
    forall l: Lane, z: nat | z < 64
      ensures LaneBit(Turn(l, m), z) == LaneBit(l, (z + 64 - (k + d)) % 64)
    {
      assert Adds(l, i, j, m);
      Same(Turn(Turn(l, i), j), Turn(l, m));
      Turned(Turn(l, i), j, d, z);
      Turned(l, i, k, (z + 64 - d) % 64);
      assert ((z + 64 - d) % 64 + 64 - k) % 64 == (z + 64 - (k + d)) % 64;
    }
    TurnsAre(m, k + d);
  }

  lemma TurnIs(l: Lane, i: nat, n: bv64)
    requires i < 25 && n < 64 && Offset(i) == n
    ensures Turn(l, i) == Rol(l, n)
  {
    hide Rol, Offset;
  }

  lemma Sum2(l: Lane) ensures Rol(Rol(l, 1), 1).w == Rol(l, 2).w {}

  lemma Adds2(l: Lane)
    ensures Adds(l, 1, 1, 21)
  {
    hide Rol, Turn;
    TurnIs(l, 1, 1);
    TurnIs(Rol(l, 1), 1, 1);
    TurnIs(l, 21, 2);
    Sum2(l);
  }

  lemma Sum3(l: Lane) ensures Rol(Rol(l, 2), 1).w == Rol(l, 3).w {}

  lemma Adds3(l: Lane)
    ensures Adds(l, 21, 1, 10)
  {
    hide Rol, Turn;
    TurnIs(l, 21, 2);
    TurnIs(Rol(l, 2), 1, 1);
    TurnIs(l, 10, 3);
    Sum3(l);
  }

  lemma Sum6(l: Lane) ensures Rol(Rol(l, 3), 3).w == Rol(l, 6).w {}

  lemma Adds6(l: Lane)
    ensures Adds(l, 10, 10, 7)
  {
    hide Rol, Turn;
    TurnIs(l, 10, 3);
    TurnIs(Rol(l, 3), 10, 3);
    TurnIs(l, 7, 6);
    Sum6(l);
  }

  lemma Sum8(l: Lane) ensures Rol(Rol(l, 6), 2).w == Rol(l, 8).w {}

  lemma Adds8(l: Lane)
    ensures Adds(l, 7, 21, 19)
  {
    hide Rol, Turn;
    TurnIs(l, 7, 6);
    TurnIs(Rol(l, 6), 21, 2);
    TurnIs(l, 19, 8);
    Sum8(l);
  }

  lemma Sum10(l: Lane) ensures Rol(Rol(l, 8), 2).w == Rol(l, 10).w {}

  lemma Adds10(l: Lane)
    ensures Adds(l, 19, 21, 11)
  {
    hide Rol, Turn;
    TurnIs(l, 19, 8);
    TurnIs(Rol(l, 8), 21, 2);
    TurnIs(l, 11, 10);
    Sum10(l);
  }

  lemma Sum14(l: Lane) ensures Rol(Rol(l, 8), 6).w == Rol(l, 14).w {}

  lemma Adds14(l: Lane)
    ensures Adds(l, 19, 7, 24)
  {
    hide Rol, Turn;
    TurnIs(l, 19, 8);
    TurnIs(Rol(l, 8), 7, 6);
    TurnIs(l, 24, 14);
    Sum14(l);
  }

  lemma Sum15(l: Lane) ensures Rol(Rol(l, 14), 1).w == Rol(l, 15).w {}

  lemma Adds15(l: Lane)
    ensures Adds(l, 24, 1, 17)
  {
    hide Rol, Turn;
    TurnIs(l, 24, 14);
    TurnIs(Rol(l, 14), 1, 1);
    TurnIs(l, 17, 15);
    Sum15(l);
  }

  lemma Sum18(l: Lane) ensures Rol(Rol(l, 10), 8).w == Rol(l, 18).w {}

  lemma Adds18(l: Lane)
    ensures Adds(l, 11, 19, 20)
  {
    hide Rol, Turn;
    TurnIs(l, 11, 10);
    TurnIs(Rol(l, 10), 19, 8);
    TurnIs(l, 20, 18);
    Sum18(l);
  }

  lemma Sum20(l: Lane) ensures Rol(Rol(l, 10), 10).w == Rol(l, 20).w {}

  lemma Adds20(l: Lane)
    ensures Adds(l, 11, 11, 9)
  {
    hide Rol, Turn;
    TurnIs(l, 11, 10);
    TurnIs(Rol(l, 10), 11, 10);
    TurnIs(l, 9, 20);
    Sum20(l);
  }

  lemma Sum21(l: Lane) ensures Rol(Rol(l, 20), 1).w == Rol(l, 21).w {}

  lemma Adds21(l: Lane)
    ensures Adds(l, 9, 1, 18)
  {
    hide Rol, Turn;
    TurnIs(l, 9, 20);
    TurnIs(Rol(l, 20), 1, 1);
    TurnIs(l, 18, 21);
    Sum21(l);
  }

  lemma Sum25(l: Lane) ensures Rol(Rol(l, 15), 10).w == Rol(l, 25).w {}

  lemma Adds25(l: Lane)
    ensures Adds(l, 17, 11, 13)
  {
    hide Rol, Turn;
    TurnIs(l, 17, 15);
    TurnIs(Rol(l, 15), 11, 10);
    TurnIs(l, 13, 25);
    Sum25(l);
  }

  lemma Sum27(l: Lane) ensures Rol(Rol(l, 25), 2).w == Rol(l, 27).w {}

  lemma Adds27(l: Lane)
    ensures Adds(l, 13, 21, 4)
  {
    hide Rol, Turn;
    TurnIs(l, 13, 25);
    TurnIs(Rol(l, 25), 21, 2);
    TurnIs(l, 4, 27);
    Sum27(l);
  }

  lemma Sum28(l: Lane) ensures Rol(Rol(l, 14), 14).w == Rol(l, 28).w {}

  lemma Adds28(l: Lane)
    ensures Adds(l, 24, 24, 3)
  {
    hide Rol, Turn;
    TurnIs(l, 24, 14);
    TurnIs(Rol(l, 14), 24, 14);
    TurnIs(l, 3, 28);
    Sum28(l);
  }

  lemma Sum36(l: Lane) ensures Rol(Rol(l, 18), 18).w == Rol(l, 36).w {}

  lemma Adds36(l: Lane)
    ensures Adds(l, 20, 20, 5)
  {
    hide Rol, Turn;
    TurnIs(l, 20, 18);
    TurnIs(Rol(l, 18), 20, 18);
    TurnIs(l, 5, 36);
    Sum36(l);
  }

  lemma Sum39(l: Lane) ensures Rol(Rol(l, 36), 3).w == Rol(l, 39).w {}

  lemma Adds39(l: Lane)
    ensures Adds(l, 5, 10, 14)
  {
    hide Rol, Turn;
    TurnIs(l, 5, 36);
    TurnIs(Rol(l, 36), 10, 3);
    TurnIs(l, 14, 39);
    Sum39(l);
  }

  lemma Sum41(l: Lane) ensures Rol(Rol(l, 21), 20).w == Rol(l, 41).w {}

  lemma Adds41(l: Lane)
    ensures Adds(l, 18, 9, 15)
  {
    hide Rol, Turn;
    TurnIs(l, 18, 21);
    TurnIs(Rol(l, 21), 9, 20);
    TurnIs(l, 15, 41);
    Sum41(l);
  }

  lemma Sum43(l: Lane) ensures Rol(Rol(l, 28), 15).w == Rol(l, 43).w {}

  lemma Adds43(l: Lane)
    ensures Adds(l, 3, 17, 12)
  {
    hide Rol, Turn;
    TurnIs(l, 3, 28);
    TurnIs(Rol(l, 28), 17, 15);
    TurnIs(l, 12, 43);
    Sum43(l);
  }

  lemma Sum44(l: Lane) ensures Rol(Rol(l, 43), 1).w == Rol(l, 44).w {}

  lemma Adds44(l: Lane)
    ensures Adds(l, 12, 1, 6)
  {
    hide Rol, Turn;
    TurnIs(l, 12, 43);
    TurnIs(Rol(l, 43), 1, 1);
    TurnIs(l, 6, 44);
    Sum44(l);
  }

  lemma Sum45(l: Lane) ensures Rol(Rol(l, 44), 1).w == Rol(l, 45).w {}

  lemma Adds45(l: Lane)
    ensures Adds(l, 6, 1, 16)
  {
    hide Rol, Turn;
    TurnIs(l, 6, 44);
    TurnIs(Rol(l, 44), 1, 1);
    TurnIs(l, 16, 45);
    Sum45(l);
  }

  lemma Sum55(l: Lane) ensures Rol(Rol(l, 45), 10).w == Rol(l, 55).w {}

  lemma Adds55(l: Lane)
    ensures Adds(l, 16, 11, 8)
  {
    hide Rol, Turn;
    TurnIs(l, 16, 45);
    TurnIs(Rol(l, 45), 11, 10);
    TurnIs(l, 8, 55);
    Sum55(l);
  }

  lemma Sum56(l: Lane) ensures Rol(Rol(l, 28), 28).w == Rol(l, 56).w {}

  lemma Adds56(l: Lane)
    ensures Adds(l, 3, 3, 23)
  {
    hide Rol, Turn;
    TurnIs(l, 3, 28);
    TurnIs(Rol(l, 28), 3, 28);
    TurnIs(l, 23, 56);
    Sum56(l);
  }

  lemma Sum61(l: Lane) ensures Rol(Rol(l, 36), 25).w == Rol(l, 61).w {}

  lemma Adds61(l: Lane)
    ensures Adds(l, 5, 13, 22)
  {
    hide Rol, Turn;
    TurnIs(l, 5, 36);
    TurnIs(Rol(l, 36), 13, 25);
    TurnIs(l, 22, 61);
    Sum61(l);
  }

  lemma Sum62(l: Lane) ensures Rol(Rol(l, 61), 1).w == Rol(l, 62).w {}

  lemma Adds62(l: Lane)
    ensures Adds(l, 22, 1, 2)
  {
    hide Rol, Turn;
    TurnIs(l, 22, 61);
    TurnIs(Rol(l, 61), 1, 1);
    TurnIs(l, 2, 62);
    Sum62(l);
  }

  lemma AllTurns0()
    ensures Turns(21, 2) && Turns(10, 3) && Turns(7, 6) && Turns(19, 8)
    ensures Turns(11, 10) && Turns(24, 14) && Turns(17, 15) && Turns(20, 18)
  {
    hide Turns, Turn, Adds;
    FirstTurns();
    forall l: Lane ensures Adds(l, 1, 1, 21) { Adds2(l); }
    TurnsMore(1, 1, 1, 1, 21);
    forall l: Lane ensures Adds(l, 21, 1, 10) { Adds3(l); }
    TurnsMore(21, 2, 1, 1, 10);
    forall l: Lane ensures Adds(l, 10, 10, 7) { Adds6(l); }
    TurnsMore(10, 3, 10, 3, 7);
    forall l: Lane ensures Adds(l, 7, 21, 19) { Adds8(l); }
    TurnsMore(7, 6, 21, 2, 19);
    forall l: Lane ensures Adds(l, 19, 21, 11) { Adds10(l); }
    TurnsMore(19, 8, 21, 2, 11);
    forall l: Lane ensures Adds(l, 19, 7, 24) { Adds14(l); }
    TurnsMore(19, 8, 7, 6, 24);
    forall l: Lane ensures Adds(l, 24, 1, 17) { Adds15(l); }
    TurnsMore(24, 14, 1, 1, 17);
    forall l: Lane ensures Adds(l, 11, 19, 20) { Adds18(l); }
    TurnsMore(11, 10, 19, 8, 20);
  }

  lemma AllTurns1()
    requires Turns(1, 1) && Turns(21, 2) && Turns(10, 3) && Turns(11, 10) && Turns(24, 14) && Turns(17, 15)
             && Turns(20, 18)
    ensures Turns(9, 20) && Turns(18, 21) && Turns(13, 25) && Turns(4, 27)
    ensures Turns(3, 28) && Turns(5, 36) && Turns(14, 39) && Turns(15, 41)
  {
    hide Turns, Turn, Adds;
    forall l: Lane ensures Adds(l, 11, 11, 9) { Adds20(l); }
    TurnsMore(11, 10, 11, 10, 9);
    forall l: Lane ensures Adds(l, 9, 1, 18) { Adds21(l); }
    TurnsMore(9, 20, 1, 1, 18);
    forall l: Lane ensures Adds(l, 17, 11, 13) { Adds25(l); }
    TurnsMore(17, 15, 11, 10, 13);
    forall l: Lane ensures Adds(l, 13, 21, 4) { Adds27(l); }
    TurnsMore(13, 25, 21, 2, 4);
    forall l: Lane ensures Adds(l, 24, 24, 3) { Adds28(l); }
    TurnsMore(24, 14, 24, 14, 3);
    forall l: Lane ensures Adds(l, 20, 20, 5) { Adds36(l); }
    TurnsMore(20, 18, 20, 18, 5);
    forall l: Lane ensures Adds(l, 5, 10, 14) { Adds39(l); }
    TurnsMore(5, 36, 10, 3, 14);
    forall l: Lane ensures Adds(l, 18, 9, 15) { Adds41(l); }
    TurnsMore(18, 21, 9, 20, 15);
  }

  lemma AllTurns2()
    requires Turns(1, 1) && Turns(11, 10) && Turns(17, 15) && Turns(13, 25) && Turns(3, 28) && Turns(5, 36)
    ensures Turns(12, 43) && Turns(6, 44) && Turns(16, 45) && Turns(8, 55)
    ensures Turns(23, 56) && Turns(22, 61) && Turns(2, 62)
  {
    hide Turns, Turn, Adds;
    forall l: Lane ensures Adds(l, 3, 17, 12) { Adds43(l); }
    TurnsMore(3, 28, 17, 15, 12);
    forall l: Lane ensures Adds(l, 12, 1, 6) { Adds44(l); }
    TurnsMore(12, 43, 1, 1, 6);
    forall l: Lane ensures Adds(l, 6, 1, 16) { Adds45(l); }
    TurnsMore(6, 44, 1, 1, 16);
    forall l: Lane ensures Adds(l, 16, 11, 8) { Adds55(l); }
    TurnsMore(16, 45, 11, 10, 8);
    forall l: Lane ensures Adds(l, 3, 3, 23) { Adds56(l); }
    TurnsMore(3, 28, 3, 28, 23);
    forall l: Lane ensures Adds(l, 5, 13, 22) { Adds61(l); }
    TurnsMore(5, 36, 13, 25, 22);
    forall l: Lane ensures Adds(l, 22, 1, 2) { Adds62(l); }
    TurnsMore(22, 61, 1, 1, 2);
  }

  /** Every lane is rotated as far as FIPS 202 says. */
  lemma AllTurns(i: nat)
    requires i < 25
    ensures Turns(i, F.Offset(i % 5, i / 5, 0))
  {
    hide Turns, F.Offset;
    OffsetIs(i);
    FirstTurns();
    AllTurns0();
    AllTurns1();
    AllTurns2();
  }
}
