/** Keccak-f[1600] on lanes is Keccak-f[1600] on bits. */
module KeccakBits {
  import opened Lanes
  import opened LaneBits
  import F = Fips202

  /** The bit string of a state (section 3.1.3 of FIPS 202). */
  function Bits(a: State): F.State
  {
    seq(1600, i requires 0 <= i < 1600 => LaneBit(a[i / 64], i % 64))
  }

  lemma PlaceIs(x: nat, y: nat, z: nat)
    requires x < 5 && y < 5 && z < 64
    ensures F.Place(x, y, z) / 64 == 5 * y + x && F.Place(x, y, z) % 64 == z
  {
  }

  lemma AIs(a: State, x: nat, y: nat, z: nat)
    requires x < 5 && y < 5 && z < 64
    ensures F.A(Bits(a), x, y, z) == LaneBit(a[5 * y + x], z)
  {
    hide LaneBit, F.Place;
    PlaceIs(x, y, z);
  }

  lemma CoordinatesAre(i: nat)
    requires i < 1600
    ensures F.X(i) == i / 64 % 5 && F.Y(i) == i / 64 / 5 && F.Z(i) == i % 64
    ensures i / 64 == 5 * F.Y(i) + F.X(i) < 25
  {
  }

  /** Two bit strings with the same bits. */
  lemma Equal(s: F.State, t: F.State)
    requires forall i | 0 <= i < 1600 :: s[i] == t[i]
    ensures s == t
  {
  }

  lemma BitAt(a: State, i: nat)
    requires i < 1600
    ensures Bits(a)[i] == LaneBit(a[i / 64], i % 64)
  {
    hide LaneBit;
  }

  // ---------- theta ----------

  lemma CIs(a: State, x: nat, z: nat)
    requires x < 5 && z < 64
    ensures F.C(Bits(a), x, z) == LaneBit(Column(a, x), z)
  {
    hide LaneBit, Bits, Parity, F.A;
    AIs(a, x, 0, z);
    AIs(a, x, 1, z);
    AIs(a, x, 2, z);
    AIs(a, x, 3, z);
    AIs(a, x, 4, z);
    ParityBit(a[x], a[5 + x], a[10 + x], a[15 + x], a[20 + x], z);
  }

  lemma DIs(a: State, x: nat, z: nat)
    requires x < 5 && z < 64
    ensures F.D(Bits(a), x, z) == LaneBit(Change(a, x), z)
  {
    hide LaneBit, Bits, Column, F.C, Xor, Rol;
    var c, c' := Column(a, (x + 4) % 5), Column(a, (x + 1) % 5);
    CIs(a, (x + 4) % 5, z);
    CIs(a, (x + 1) % 5, (z + 63) % 64);
    XorBit(c, Rol(c', 1), z);
    RolBit1(c', z);
  }

  lemma ThetaIs(a: State)
    ensures Bits(Lanes.Theta(a)) == F.Theta(Bits(a))
  {
    hide LaneBit, Bits, Change, Xor, F.A, F.D, F.X, F.Y, F.Z;
    forall i | 0 <= i < 1600
      ensures Bits(Lanes.Theta(a))[i] == F.Theta(Bits(a))[i]
    {
      CoordinatesAre(i);
      BitAt(Lanes.Theta(a), i);
      AIs(a, F.X(i), F.Y(i), F.Z(i));
      DIs(a, F.X(i), F.Z(i));
      XorBit(a[i / 64], Change(a, F.X(i)), i % 64);
    }
    Equal(Bits(Lanes.Theta(a)), F.Theta(Bits(a)));
  }

  // ---------- rho and pi ----------

  lemma RhoIs(a: State)
    ensures Bits(Lanes.Rho(a)) == F.Rho(Bits(a))
  {
    hide LaneBit, Bits, Rol, Turns, F.A, F.X, F.Y, F.Z, F.Offset, Offset;
    forall i | 0 <= i < 1600
      ensures Bits(Lanes.Rho(a))[i] == F.Rho(Bits(a))[i]
    {
      CoordinatesAre(i);
      var k := F.Offset(F.X(i), F.Y(i), 0);
      BitAt(Lanes.Rho(a), i);
      AIs(a, F.X(i), F.Y(i), (F.Z(i) + 64 - k) % 64);
      AllTurns(i / 64);
      Turned(a[i / 64], i / 64, k, i % 64);
      assert Turn(a[i / 64], i / 64) == Lanes.Rho(a)[i / 64];
    }
    Equal(Bits(Lanes.Rho(a)), F.Rho(Bits(a)));
  }

  lemma PiIs(a: State)
    ensures Bits(Lanes.Pi(a)) == F.Pi(Bits(a))
  {
    hide LaneBit, Bits, F.A, F.X, F.Y, F.Z;
    forall i | 0 <= i < 1600
      ensures Bits(Lanes.Pi(a))[i] == F.Pi(Bits(a))[i]
    {
      CoordinatesAre(i);
      BitAt(Lanes.Pi(a), i);
      AIs(a, (F.X(i) + 3 * F.Y(i)) % 5, F.X(i), F.Z(i));
    }
    Equal(Bits(Lanes.Pi(a)), F.Pi(Bits(a)));
  }

  // ---------- chi and iota ----------

  lemma ChiIs(a: State)
    ensures Bits(Lanes.Chi(a)) == F.Chi(Bits(a))
  {
    hide LaneBit, Bits, Mix, F.A, F.X, F.Y, F.Z;
    forall i | 0 <= i < 1600
      ensures Bits(Lanes.Chi(a))[i] == F.Chi(Bits(a))[i]
    {
      CoordinatesAre(i);
      var j, x, y, z := i / 64, F.X(i), F.Y(i), F.Z(i);
      BitAt(Lanes.Chi(a), i);
      AIs(a, x, y, z);
      AIs(a, (x + 1) % 5, y, z);
      AIs(a, (x + 2) % 5, y, z);
      MixBit(a[j], a[Along(j, 1)], a[Along(j, 2)], z);
    }
    Equal(Bits(Lanes.Chi(a)), F.Chi(Bits(a)));
  }

  /** The register as a byte has the bits of the register as a bit string. */
  lemma StepBits(r: Byte, s: seq<bool>)
    requires |s| == 8 && forall u | 0 <= u < 8 :: s[u] == Bit(r, u)
    ensures var n := [false] + s;
            var t := [n[0] != n[8], n[1], n[2], n[3], n[4] != n[8], n[5] != n[8], n[6] != n[8], n[7]];
            forall u | 0 <= u < 8 :: t[u] == Bit(RegisterStep(r), u)
  {
    LowBits(r);
    LowBits(RegisterStep(r));
    StepByte(r);
    hide Bit, RegisterStep;
  }

  lemma StepByte(r: Byte)
    ensures var n := RegisterStep(r);
            && (n & 1 == 1) == (r & 128 == 128)
            && (n & 2 == 2) == (r & 1 == 1)
            && (n & 4 == 4) == (r & 2 == 2)
            && (n & 8 == 8) == (r & 4 == 4)
            && (n & 16 == 16) == ((r & 8 == 8) != (r & 128 == 128))
            && (n & 32 == 32) == ((r & 16 == 16) != (r & 128 == 128))
            && (n & 64 == 64) == ((r & 32 == 32) != (r & 128 == 128))
            && (n & 128 == 128) == (r & 64 == 64)
  {
  }

  lemma {:induction false} RegisterIs(t: nat)
    ensures forall u | 0 <= u < 8 :: F.Register(t)[u] == Bit(Register(t), u)
  {
    hide Bit, RegisterStep;
    if t > 0 {
      RegisterIs(t - 1);
      StepBits(Register(t - 1), F.Register(t - 1));
    } else {
      StartBits();
    }
  }

  lemma StartBits()
    ensures Bit(1, 0) && forall u | 1 <= u < 8 :: !Bit(1, u)
  {
    LowBits(1);
    assert !Bit(1, 1) && !Bit(1, 2) && !Bit(1, 3) && !Bit(1, 4) && !Bit(1, 5) && !Bit(1, 6) && !Bit(1, 7);
  }

  // ---------- the round constants ----------

  /** The bits of a round constant lie in four of its bytes. */
  lemma SpreadLow(r0: Byte, r1: Byte, r2: Byte, r3: Byte, r4: Byte, r5: Byte, r6: Byte, w: bv64)
    requires w == Spread(r0, r1, r2, r3, r4, r5, r6)
    ensures (w & 0xff) as bv8 == (r0 & 1) | ((r1 & 1) << 1) | ((r2 & 1) << 3) | ((r3 & 1) << 7)
    ensures ((w >> 8) & 0xff) as bv8 == (r4 & 1) << 7 && ((w >> 16) & 0xff) as bv8 == 0
    ensures ((w >> 24) & 0xff) as bv8 == (r5 & 1) << 7 && ((w >> 32) & 0xff) as bv8 == 0
    ensures ((w >> 40) & 0xff) as bv8 == 0 && ((w >> 48) & 0xff) as bv8 == 0
    ensures ((w >> 56) & 0xff) as bv8 == (r6 & 1) << 7
  {
  }

  lemma LowIs(d: Lane, w: bv64, b: Byte)
    requires d.w == w && (w & 0xff) as bv8 == b
    ensures Low(d) == b
  {
  }

  /** The first byte of a round constant. */
  function First(r0: Byte, r1: Byte, r2: Byte, r3: Byte): Byte
  {
    (r0 & 1) | ((r1 & 1) << 1) | ((r2 & 1) << 3) | ((r3 & 1) << 7)
  }

  function Last(r: Byte): Byte { (r & 1) << 7 }

  lemma SpreadBytes(l: Lane, r0: Byte, r1: Byte, r2: Byte, r3: Byte, r4: Byte, r5: Byte, r6: Byte)
    requires l.w == Spread(r0, r1, r2, r3, r4, r5, r6)
    ensures Low(Down(l, 0)) == First(r0, r1, r2, r3) && Low(Down(l, 1)) == Last(r4) && Low(Down(l, 2)) == 0
    ensures Low(Down(l, 3)) == Last(r5) && Low(Down(l, 4)) == 0 && Low(Down(l, 5)) == 0 && Low(Down(l, 6)) == 0
    ensures Low(Down(l, 7)) == Last(r6)
  {
    hide Spread, Low, Down;
    var w := l.w;
    Downs(l);
    SpreadLow(r0, r1, r2, r3, r4, r5, r6, w);
    LowIs(Down(l, 0), w, First(r0, r1, r2, r3));
    LowIs(Down(l, 1), w >> 8, Last(r4));
    LowIs(Down(l, 2), w >> 16, 0);
    LowIs(Down(l, 3), w >> 24, Last(r5));
    LowIs(Down(l, 4), w >> 32, 0);
    LowIs(Down(l, 5), w >> 40, 0);
    LowIs(Down(l, 6), w >> 48, 0);
    LowIs(Down(l, 7), w >> 56, Last(r6));
  }

  lemma LastBits(r: Byte, u: nat)
    requires u < 8
    ensures Bit(Last(r), u) == (u == 7 && Bit(r, 0))
    ensures !Bit(0, u)
  {
    LowBits(Last(r));
    LowBits(0);
    LowBits(r);
    LastByte(r);
    hide Bit, Last;
    if u == 0 {} else if u == 1 {} else if u == 2 {} else if u == 3 {}
    else if u == 4 {} else if u == 5 {} else if u == 6 {} else { assert u == 7; }
  }

  lemma LastByte(r: Byte)
    ensures var b := Last(r);
            b & 1 == 0 && b & 2 == 0 && b & 4 == 0 && b & 8 == 0 && b & 16 == 0 && b & 32 == 0 && b & 64 == 0
            && (b & 128 == 128) == (r & 1 == 1)
  {
  }

  lemma FirstByte(r0: Byte, r1: Byte, r2: Byte, r3: Byte)
    ensures var b := First(r0, r1, r2, r3);
            && (b & 1 == 1) == (r0 & 1 == 1) && (b & 2 == 2) == (r1 & 1 == 1) && b & 4 == 0
            && (b & 8 == 8) == (r2 & 1 == 1) && b & 16 == 0 && b & 32 == 0 && b & 64 == 0
            && (b & 128 == 128) == (r3 & 1 == 1)
  {
  }

  lemma LeastBit(r: Byte) ensures Bit(r, 0) == (r & 1 == 1) {}

  lemma FirstBits(r0: Byte, r1: Byte, r2: Byte, r3: Byte, u: nat)
    requires u < 8
    ensures Bit(First(r0, r1, r2, r3), u)
            == if u == 0 then Bit(r0, 0) else if u == 1 then Bit(r1, 0) else if u == 3 then Bit(r2, 0)
               else if u == 7 then Bit(r3, 0) else false
  {
    hide Bit, First;
    LowBits(First(r0, r1, r2, r3));
    FirstByte(r0, r1, r2, r3);
    LeastBit(r0);
    LeastBit(r1);
    LeastBit(r2);
    LeastBit(r3);
    if u == 0 {} else if u == 1 {} else if u == 2 {} else if u == 3 {}
    else if u == 4 {} else if u == 5 {} else if u == 6 {} else { assert u == 7; }
  }

  lemma SpreadBit(l: Lane, r0: Byte, r1: Byte, r2: Byte, r3: Byte, r4: Byte, r5: Byte, r6: Byte, z: nat)
    requires l.w == Spread(r0, r1, r2, r3, r4, r5, r6) && z < 64
    ensures LaneBit(l, z)
            == if z == 0 then Bit(r0, 0) else if z == 1 then Bit(r1, 0) else if z == 3 then Bit(r2, 0)
               else if z == 7 then Bit(r3, 0) else if z == 15 then Bit(r4, 0) else if z == 31 then Bit(r5, 0)
               else if z == 63 then Bit(r6, 0) else false
  {
    hide Bit, First, Last, Spread, Low, Down, LaneBit;
    var t, u := z / 8, z % 8;
    ByteBit(l, t, u);
    SpreadBytes(l, r0, r1, r2, r3, r4, r5, r6);
    FirstBits(r0, r1, r2, r3, u);
    LastBits(r4, u);
    LastBits(r5, u);
    LastBits(r6, u);
    if t == 0 {} else if t == 1 {} else if t == 2 {} else if t == 3 {}
    else if t == 4 {} else if t == 5 {} else if t == 6 {} else { assert t == 7; }
  }

  lemma RcIs(t: nat)
    ensures F.Rc(t) == Bit(Register(t), 0)
  {
    hide Bit, Register, F.Register;
    RegisterIs(t);
  }

  lemma ConstantIs(ir: nat, z: nat)
    requires ir < 24 && z < 64
    ensures LaneBit(Lane(RC[ir]), z) == F.RoundConstant(ir, z)
  {
    hide Bit, Spread, LaneBit, Register, F.Rc, F.RoundConstant, F.Register, RcOf;
    RcSpread(ir);
    var r := 7 * ir;
    SpreadBit(Lane(RC[ir]), Register(r), Register(r + 1), Register(r + 2), Register(r + 3), Register(r + 4),
              Register(r + 5), Register(r + 6), z);
    RcIs(r);
    RcIs(r + 1);
    RcIs(r + 2);
    RcIs(r + 3);
    RcIs(r + 4);
    RcIs(r + 5);
    RcIs(r + 6);
    ConstantBits(ir, z);
  }

  lemma RcSpread(ir: nat)
    requires ir < 24
    ensures var r := 7 * ir;
            Lane(RC[ir]).w == Spread(Register(r), Register(r + 1), Register(r + 2), Register(r + 3), Register(r + 4),
                                     Register(r + 5), Register(r + 6))
  {
    hide Spread, Register;
    ConstantsRight();
  }

  lemma ConstantBits(ir: nat, z: nat)
    ensures var r := 7 * ir;
            F.RoundConstant(ir, z)
            == if z == 0 then F.Rc(r) else if z == 1 then F.Rc(r + 1) else if z == 3 then F.Rc(r + 2)
               else if z == 7 then F.Rc(r + 3) else if z == 15 then F.Rc(r + 4) else if z == 31 then F.Rc(r + 5)
               else if z == 63 then F.Rc(r + 6) else false
  {
    hide F.Rc;
  }

  lemma IotaIs(a: State, ir: nat)
    requires ir < 24
    ensures Bits(Lanes.Iota(a, Lane(RC[ir]))) == F.Iota(Bits(a), ir)
  {
    hide LaneBit, Bits, Xor, F.RoundConstant;
    var rc := Lane(RC[ir]);
    forall i | 0 <= i < 1600
      ensures Bits(Lanes.Iota(a, rc))[i] == F.Iota(Bits(a), ir)[i]
    {
      BitAt(Lanes.Iota(a, rc), i);
      BitAt(a, i);
      if i < 64 {
        XorBit(a[0], rc, i);
        ConstantIs(ir, i);
      }
    }
    Equal(Bits(Lanes.Iota(a, rc)), F.Iota(Bits(a), ir));
  }

  // ---------- Keccak-f ----------

  lemma RoundIs(a: State, ir: nat)
    requires ir < 24
    ensures Bits(Lanes.Round(a, Lane(RC[ir]))) == F.Round(Bits(a), ir)
  {
    hide Bits, Lanes.Theta, Lanes.Rho, Lanes.Pi, Lanes.Chi, Lanes.Iota, F.Theta, F.Rho, F.Pi, F.Chi, F.Iota;
    ThetaIs(a);
    RhoIs(Lanes.Theta(a));
    PiIs(Lanes.Rho(Lanes.Theta(a)));
    ChiIs(Lanes.Pi(Lanes.Rho(Lanes.Theta(a))));
    IotaIs(Lanes.Chi(Lanes.Pi(Lanes.Rho(Lanes.Theta(a)))), ir);
  }

  lemma {:induction false} RoundsAre(a: State, n: nat)
    requires n <= 24
    ensures Bits(Lanes.Rounds(a, n)) == F.Rounds(Bits(a), n)
  {
    hide Bits, Lanes.Round, F.Round;
    if n > 0 {
      RoundsAre(a, n - 1);
      RoundIs(Lanes.Rounds(a, n - 1), n - 1);
    }
  }
}
