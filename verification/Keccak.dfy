/** Keccak-f[1600] in place: unrolled over four rounds, with lanes that wander instead of
    being moved. */
module Keccak {
  import opened Lanes
  import opened KeccakBits
  import F = Fips202

  // ---------- a round, lane by lane ----------

  /** Lane i after theta, rho and pi. */
  function Moved(a: State, i: nat): Lane
    requires i < 25
  {
    var j := PiFrom(i);
    Rol(Xor(a[j], Change(a, j % 5)), Offset(j))
  }

  lemma RoundLane0(a: State, rc: Lane)
    ensures Round(a, rc)[0] == Xor(Mix(Moved(a, 0), Moved(a, 1), Moved(a, 2)), rc)
  {
    hide *;
    RoundLane(a, rc, 0);
    AlongIs(0, 0);
    assert 5 * 0 + 0 == 0 && 5 * 0 + (0 + 1) % 5 == 1 && 5 * 0 + (0 + 2) % 5 == 2;
  }

  lemma AlongIs(y: nat, x: nat)
    requires y < 5 && x < 5
    ensures Along(5 * y + x, 1) == 5 * y + (x + 1) % 5
    ensures Along(5 * y + x, 2) == 5 * y + (x + 2) % 5
  {
    assert (5 * y + x) / 5 == y && (5 * y + x) % 5 == x;
  }

  lemma RoundLane(a: State, rc: Lane, i: nat)
    requires i < 25
    ensures var m := Mix(Moved(a, i), Moved(a, Along(i, 1)), Moved(a, Along(i, 2)));
            Round(a, rc)[i] == if i == 0 then Xor(m, rc) else m
  {
    hide Rol, Xor, Mix, Change, PiFrom, Along, Offset;
  }

  lemma MovedIs(a: State, i: nat, j: nat, n: bv64)
    requires i < 25 && j < 25 && n < 64 && PiFrom(i) == j && Offset(j) == n
    ensures Moved(a, i) == Rol(Xor(a[j], Change(a, j % 5)), n)
  {
    hide Rol, Xor, Change, Offset, PiFrom;
  }

  lemma Routes0()
    ensures PiFrom(0) == 0 && PiFrom(1) == 6 && PiFrom(2) == 12 && PiFrom(3) == 18 && PiFrom(4) == 24
    ensures Offset(0) == 0 && Offset(6) == 44 && Offset(12) == 43 && Offset(18) == 21 && Offset(24) == 14
  {
  }

  lemma MovedRow0(a: State)
    ensures Moved(a, 0) == Xor(a[0], Change(a, 0))
    ensures Moved(a, 1) == Rol(Xor(a[6], Change(a, 1)), 44)
    ensures Moved(a, 2) == Rol(Xor(a[12], Change(a, 2)), 43)
    ensures Moved(a, 3) == Rol(Xor(a[18], Change(a, 3)), 21)
    ensures Moved(a, 4) == Rol(Xor(a[24], Change(a, 4)), 14)
  {
    hide Rol, Xor, Change, Offset, PiFrom, Moved;
    Routes0();
    MovedIs(a, 0, 0, 0);
    MovedIs(a, 1, 6, 44);
    MovedIs(a, 2, 12, 43);
    MovedIs(a, 3, 18, 21);
    MovedIs(a, 4, 24, 14);
    RolZero(Xor(a[0], Change(a, 0)));
  }

  lemma Routes1()
    ensures PiFrom(5) == 3 && PiFrom(6) == 9 && PiFrom(7) == 10 && PiFrom(8) == 16 && PiFrom(9) == 22
    ensures Offset(3) == 28 && Offset(9) == 20 && Offset(10) == 3 && Offset(16) == 45 && Offset(22) == 61
  {
  }

  lemma MovedRow1(a: State)
    ensures Moved(a, 5) == Rol(Xor(a[3], Change(a, 3)), 28)
    ensures Moved(a, 6) == Rol(Xor(a[9], Change(a, 4)), 20)
    ensures Moved(a, 7) == Rol(Xor(a[10], Change(a, 0)), 3)
    ensures Moved(a, 8) == Rol(Xor(a[16], Change(a, 1)), 45)
    ensures Moved(a, 9) == Rol(Xor(a[22], Change(a, 2)), 61)
  {
    hide Rol, Xor, Change, Offset, PiFrom, Moved;
    Routes1();
    MovedIs(a, 5, 3, 28);
    MovedIs(a, 6, 9, 20);
    MovedIs(a, 7, 10, 3);
    MovedIs(a, 8, 16, 45);
    MovedIs(a, 9, 22, 61);
  }

  lemma Routes2()
    ensures PiFrom(10) == 1 && PiFrom(11) == 7 && PiFrom(12) == 13 && PiFrom(13) == 19 && PiFrom(14) == 20
    ensures Offset(1) == 1 && Offset(7) == 6 && Offset(13) == 25 && Offset(19) == 8 && Offset(20) == 18
  {
  }

  lemma MovedRow2(a: State)
    ensures Moved(a, 10) == Rol(Xor(a[1], Change(a, 1)), 1)
    ensures Moved(a, 11) == Rol(Xor(a[7], Change(a, 2)), 6)
    ensures Moved(a, 12) == Rol(Xor(a[13], Change(a, 3)), 25)
    ensures Moved(a, 13) == Rol(Xor(a[19], Change(a, 4)), 8)
    ensures Moved(a, 14) == Rol(Xor(a[20], Change(a, 0)), 18)
  {
    hide Rol, Xor, Change, Offset, PiFrom, Moved;
    Routes2();
    MovedIs(a, 10, 1, 1);
    MovedIs(a, 11, 7, 6);
    MovedIs(a, 12, 13, 25);
    MovedIs(a, 13, 19, 8);
    MovedIs(a, 14, 20, 18);
  }

  lemma Routes3()
    ensures PiFrom(15) == 4 && PiFrom(16) == 5 && PiFrom(17) == 11 && PiFrom(18) == 17 && PiFrom(19) == 23
    ensures Offset(4) == 27 && Offset(5) == 36 && Offset(11) == 10 && Offset(17) == 15 && Offset(23) == 56
  {
  }

  lemma MovedRow3(a: State)
    ensures Moved(a, 15) == Rol(Xor(a[4], Change(a, 4)), 27)
    ensures Moved(a, 16) == Rol(Xor(a[5], Change(a, 0)), 36)
    ensures Moved(a, 17) == Rol(Xor(a[11], Change(a, 1)), 10)
    ensures Moved(a, 18) == Rol(Xor(a[17], Change(a, 2)), 15)
    ensures Moved(a, 19) == Rol(Xor(a[23], Change(a, 3)), 56)
  {
    hide Rol, Xor, Change, Offset, PiFrom, Moved;
    Routes3();
    MovedIs(a, 15, 4, 27);
    MovedIs(a, 16, 5, 36);
    MovedIs(a, 17, 11, 10);
    MovedIs(a, 18, 17, 15);
    MovedIs(a, 19, 23, 56);
  }

  lemma Routes4()
    ensures PiFrom(20) == 2 && PiFrom(21) == 8 && PiFrom(22) == 14 && PiFrom(23) == 15 && PiFrom(24) == 21
    ensures Offset(2) == 62 && Offset(8) == 55 && Offset(14) == 39 && Offset(15) == 41 && Offset(21) == 2
  {
  }

  lemma MovedRow4(a: State)
    ensures Moved(a, 20) == Rol(Xor(a[2], Change(a, 2)), 62)
    ensures Moved(a, 21) == Rol(Xor(a[8], Change(a, 3)), 55)
    ensures Moved(a, 22) == Rol(Xor(a[14], Change(a, 4)), 39)
    ensures Moved(a, 23) == Rol(Xor(a[15], Change(a, 0)), 41)
    ensures Moved(a, 24) == Rol(Xor(a[21], Change(a, 1)), 2)
  {
    hide Rol, Xor, Change, Offset, PiFrom, Moved;
    Routes4();
    MovedIs(a, 20, 2, 62);
    MovedIs(a, 21, 8, 55);
    MovedIs(a, 22, 14, 39);
    MovedIs(a, 23, 15, 41);
    MovedIs(a, 24, 21, 2);
  }

  lemma RoundRow0(a: State, rc: Lane)
    ensures var r := Round(a, rc);
            var b0, b1, b2, b3, b4 :=
              Xor(a[0], Change(a, 0)), Rol(Xor(a[6], Change(a, 1)), 44), Rol(Xor(a[12], Change(a, 2)), 43),
              Rol(Xor(a[18], Change(a, 3)), 21), Rol(Xor(a[24], Change(a, 4)), 14);
            && r[0] == Xor(Mix(b0, b1, b2), rc) && r[1] == Mix(b1, b2, b3)
            && r[2] == Mix(b2, b3, b4) && r[3] == Mix(b3, b4, b0) && r[4] == Mix(b4, b0, b1)
  {
    hide Rol, Xor, Mix, Round, Moved, Column, Parity, Effect, Change, Theta, Rho, Pi, Chi, Iota, PiFrom, Along, Rounds,
         Offset;
    AlongIs(0, 0); AlongIs(0, 1); AlongIs(0, 2); AlongIs(0, 3); AlongIs(0, 4);
    MovedRow0(a);
    RoundLane0(a, rc);
    RoundLane(a, rc, 1);
    RoundLane(a, rc, 2);
    RoundLane(a, rc, 3);
    RoundLane(a, rc, 4);
  }

  lemma RoundRow1(a: State, rc: Lane)
    ensures var r := Round(a, rc);
            var b0, b1, b2, b3, b4 :=
              Rol(Xor(a[3], Change(a, 3)), 28), Rol(Xor(a[9], Change(a, 4)), 20), Rol(Xor(a[10], Change(a, 0)), 3),
              Rol(Xor(a[16], Change(a, 1)), 45), Rol(Xor(a[22], Change(a, 2)), 61);
            && r[5] == Mix(b0, b1, b2) && r[6] == Mix(b1, b2, b3)
            && r[7] == Mix(b2, b3, b4) && r[8] == Mix(b3, b4, b0) && r[9] == Mix(b4, b0, b1)
  {
    hide Rol, Xor, Mix, Round, Moved, Column, Parity, Effect, Change, Theta, Rho, Pi, Chi, Iota, PiFrom, Along, Rounds,
         Offset;
    AlongIs(1, 0); AlongIs(1, 1); AlongIs(1, 2); AlongIs(1, 3); AlongIs(1, 4);
    MovedRow1(a);
    RoundLane(a, rc, 5);
    RoundLane(a, rc, 6);
    RoundLane(a, rc, 7);
    RoundLane(a, rc, 8);
    RoundLane(a, rc, 9);
  }

  lemma RoundRow2(a: State, rc: Lane)
    ensures var r := Round(a, rc);
            var b0, b1, b2, b3, b4 :=
              Rol(Xor(a[1], Change(a, 1)), 1), Rol(Xor(a[7], Change(a, 2)), 6), Rol(Xor(a[13], Change(a, 3)), 25),
              Rol(Xor(a[19], Change(a, 4)), 8), Rol(Xor(a[20], Change(a, 0)), 18);
            && r[10] == Mix(b0, b1, b2) && r[11] == Mix(b1, b2, b3)
            && r[12] == Mix(b2, b3, b4) && r[13] == Mix(b3, b4, b0) && r[14] == Mix(b4, b0, b1)
  {
    hide Rol, Xor, Mix, Round, Moved, Column, Parity, Effect, Change, Theta, Rho, Pi, Chi, Iota, PiFrom, Along, Rounds,
         Offset;
    AlongIs(2, 0); AlongIs(2, 1); AlongIs(2, 2); AlongIs(2, 3); AlongIs(2, 4);
    MovedRow2(a);
    RoundLane(a, rc, 10);
    RoundLane(a, rc, 11);
    RoundLane(a, rc, 12);
    RoundLane(a, rc, 13);
    RoundLane(a, rc, 14);
  }

  lemma RoundRow3(a: State, rc: Lane)
    ensures var r := Round(a, rc);
            var b0, b1, b2, b3, b4 :=
              Rol(Xor(a[4], Change(a, 4)), 27), Rol(Xor(a[5], Change(a, 0)), 36), Rol(Xor(a[11], Change(a, 1)), 10),
              Rol(Xor(a[17], Change(a, 2)), 15), Rol(Xor(a[23], Change(a, 3)), 56);
            && r[15] == Mix(b0, b1, b2) && r[16] == Mix(b1, b2, b3)
            && r[17] == Mix(b2, b3, b4) && r[18] == Mix(b3, b4, b0) && r[19] == Mix(b4, b0, b1)
  {
    hide Rol, Xor, Mix, Round, Moved, Column, Parity, Effect, Change, Theta, Rho, Pi, Chi, Iota, PiFrom, Along, Rounds,
         Offset;
    AlongIs(3, 0); AlongIs(3, 1); AlongIs(3, 2); AlongIs(3, 3); AlongIs(3, 4);
    MovedRow3(a);
    RoundLane(a, rc, 15);
    RoundLane(a, rc, 16);
    RoundLane(a, rc, 17);
    RoundLane(a, rc, 18);
    RoundLane(a, rc, 19);
  }

  lemma RoundRow4(a: State, rc: Lane)
    ensures var r := Round(a, rc);
            var b0, b1, b2, b3, b4 :=
              Rol(Xor(a[2], Change(a, 2)), 62), Rol(Xor(a[8], Change(a, 3)), 55), Rol(Xor(a[14], Change(a, 4)), 39),
              Rol(Xor(a[15], Change(a, 0)), 41), Rol(Xor(a[21], Change(a, 1)), 2);
            && r[20] == Mix(b0, b1, b2) && r[21] == Mix(b1, b2, b3)
            && r[22] == Mix(b2, b3, b4) && r[23] == Mix(b3, b4, b0) && r[24] == Mix(b4, b0, b1)
  {
    hide Rol, Xor, Mix, Round, Moved, Column, Parity, Effect, Change, Theta, Rho, Pi, Chi, Iota, PiFrom, Along, Rounds,
         Offset;
    AlongIs(4, 0); AlongIs(4, 1); AlongIs(4, 2); AlongIs(4, 3); AlongIs(4, 4);
    MovedRow4(a);
    RoundLane(a, rc, 20);
    RoundLane(a, rc, 21);
    RoundLane(a, rc, 22);
    RoundLane(a, rc, 23);
    RoundLane(a, rc, 24);
  }

  lemma Changes(a: State)
    ensures Change(a, 0) == Effect(Parity(a[4], a[9], a[14], a[19], a[24]),
                                 Parity(a[1], a[6], a[11], a[16], a[21]))
    ensures Change(a, 1) == Effect(Parity(a[0], a[5], a[10], a[15], a[20]),
                                 Parity(a[2], a[7], a[12], a[17], a[22]))
    ensures Change(a, 2) == Effect(Parity(a[1], a[6], a[11], a[16], a[21]),
                                 Parity(a[3], a[8], a[13], a[18], a[23]))
    ensures Change(a, 3) == Effect(Parity(a[2], a[7], a[12], a[17], a[22]),
                                 Parity(a[4], a[9], a[14], a[19], a[24]))
    ensures Change(a, 4) == Effect(Parity(a[3], a[8], a[13], a[18], a[23]),
                                 Parity(a[0], a[5], a[10], a[15], a[20]))
  {
    hide Rol, Xor, Mix, Parity, Effect;
  }

  // ---------- the unrolled permutation ----------

  const A00: nat := 0  const A01: nat := 1  const A02: nat := 2  const A03: nat := 3  const A04: nat := 4
  const A10: nat := 5  const A11: nat := 6  const A12: nat := 7  const A13: nat := 8  const A14: nat := 9
  const A20: nat := 10  const A21: nat := 11  const A22: nat := 12  const A23: nat := 13  const A24: nat := 14
  const A30: nat := 15  const A31: nat := 16  const A32: nat := 17  const A33: nat := 18  const A34: nat := 19
  const A40: nat := 20  const A41: nat := 21  const A42: nat := 22  const A43: nat := 23  const A44: nat := 24

  /** Five lines of chi, as the source repeats them twenty times. */
  method MixRow(s: array<Lane>, l0: nat, l1: nat, l2: nat, l3: nat, l4: nat, b0: Lane, b1: Lane, b2: Lane, b3: Lane,
                b4: Lane)
    requires l0 < 25 && l1 < 25 && l2 < 25 && l3 < 25 && l4 < 25 && s.Length >= 25
    requires l0 != l1 && l0 != l2 && l0 != l3 && l0 != l4 && l1 != l2 && l1 != l3 && l1 != l4
    requires l2 != l3 && l2 != l4 && l3 != l4
    modifies s
    ensures s[l0] == Mix(b0, b1, b2) && s[l1] == Mix(b1, b2, b3) && s[l2] == Mix(b2, b3, b4)
    ensures s[l3] == Mix(b3, b4, b0) && s[l4] == Mix(b4, b0, b1)
    ensures forall j | 0 <= j < s.Length && j != l0 && j != l1 && j != l2 && j != l3 && j != l4 :: s[j] == old(s[j])
  {
    hide Mix;
    s[l0] := Mix(b0, b1, b2);
    s[l1] := Mix(b1, b2, b3);
    s[l2] := Mix(b2, b3, b4);
    s[l3] := Mix(b3, b4, b0);
    s[l4] := Mix(b4, b0, b1);
  }

  // Where the lanes are before each of the four rounds.

  predicate Holds0(s: array<Lane>, a: State)
    requires s.Length >= 25
    reads s
  {
    && s[A00] == a[0] && s[A01] == a[1] && s[A02] == a[2] && s[A03] == a[3] && s[A04] == a[4]
    && s[A10] == a[5] && s[A11] == a[6] && s[A12] == a[7] && s[A13] == a[8] && s[A14] == a[9]
    && s[A20] == a[10] && s[A21] == a[11] && s[A22] == a[12] && s[A23] == a[13] && s[A24] == a[14]
    && s[A30] == a[15] && s[A31] == a[16] && s[A32] == a[17] && s[A33] == a[18] && s[A34] == a[19]
    && s[A40] == a[20] && s[A41] == a[21] && s[A42] == a[22] && s[A43] == a[23] && s[A44] == a[24]
  }

  predicate Holds1(s: array<Lane>, a: State)
    requires s.Length >= 25
    reads s
  {
    && s[A00] == a[0] && s[A11] == a[1] && s[A22] == a[2] && s[A33] == a[3] && s[A44] == a[4]
    && s[A20] == a[5] && s[A31] == a[6] && s[A42] == a[7] && s[A03] == a[8] && s[A14] == a[9]
    && s[A40] == a[10] && s[A01] == a[11] && s[A12] == a[12] && s[A23] == a[13] && s[A34] == a[14]
    && s[A10] == a[15] && s[A21] == a[16] && s[A32] == a[17] && s[A43] == a[18] && s[A04] == a[19]
    && s[A30] == a[20] && s[A41] == a[21] && s[A02] == a[22] && s[A13] == a[23] && s[A24] == a[24]
  }

  predicate Holds2(s: array<Lane>, a: State)
    requires s.Length >= 25
    reads s
  {
    && s[A00] == a[0] && s[A31] == a[1] && s[A12] == a[2] && s[A43] == a[3] && s[A24] == a[4]
    && s[A40] == a[5] && s[A21] == a[6] && s[A02] == a[7] && s[A33] == a[8] && s[A14] == a[9]
    && s[A30] == a[10] && s[A11] == a[11] && s[A42] == a[12] && s[A23] == a[13] && s[A04] == a[14]
    && s[A20] == a[15] && s[A01] == a[16] && s[A32] == a[17] && s[A13] == a[18] && s[A44] == a[19]
    && s[A10] == a[20] && s[A41] == a[21] && s[A22] == a[22] && s[A03] == a[23] && s[A34] == a[24]
  }

  predicate Holds3(s: array<Lane>, a: State)
    requires s.Length >= 25
    reads s
  {
    && s[A00] == a[0] && s[A21] == a[1] && s[A42] == a[2] && s[A13] == a[3] && s[A34] == a[4]
    && s[A30] == a[5] && s[A01] == a[6] && s[A22] == a[7] && s[A43] == a[8] && s[A14] == a[9]
    && s[A10] == a[10] && s[A31] == a[11] && s[A02] == a[12] && s[A23] == a[13] && s[A44] == a[14]
    && s[A40] == a[15] && s[A11] == a[16] && s[A32] == a[17] && s[A03] == a[18] && s[A24] == a[19]
    && s[A20] == a[20] && s[A41] == a[21] && s[A12] == a[22] && s[A33] == a[23] && s[A04] == a[24]
  }

  /** After two of the five rows of chi. */
  predicate Mid1(s: array<Lane>, a: State, r: State)
    requires s.Length >= 25
    reads s
  {
    && s[A00] == r[0] && s[A11] == r[1] && s[A22] == r[2] && s[A33] == r[3] && s[A44] == r[4]
    && s[A20] == r[5] && s[A31] == r[6] && s[A42] == r[7] && s[A03] == r[8] && s[A14] == r[9]
    && s[A01] == a[1] && s[A12] == a[7] && s[A23] == a[13] && s[A34] == a[19] && s[A40] == a[20]
    && s[A04] == a[4] && s[A10] == a[5] && s[A21] == a[11] && s[A32] == a[17] && s[A43] == a[23]
    && s[A02] == a[2] && s[A13] == a[8] && s[A24] == a[14] && s[A30] == a[15] && s[A41] == a[21]
  }

  predicate Early1(s: array<Lane>, a: State, r: State)
    requires s.Length >= 25
    reads s
  {
    && s[A00] == r[0] && s[A11] == r[1] && s[A22] == r[2] && s[A33] == r[3] && s[A44] == r[4]
    && s[A20] == a[10] && s[A31] == a[16] && s[A42] == a[22] && s[A03] == a[3] && s[A14] == a[9]
    && s[A01] == a[1] && s[A12] == a[7] && s[A23] == a[13] && s[A34] == a[19] && s[A40] == a[20]
    && s[A04] == a[4] && s[A10] == a[5] && s[A21] == a[11] && s[A32] == a[17] && s[A43] == a[23]
    && s[A02] == a[2] && s[A13] == a[8] && s[A24] == a[14] && s[A30] == a[15] && s[A41] == a[21]
  }

  predicate Late1(s: array<Lane>, a: State, r: State)
    requires s.Length >= 25
    reads s
  {
    && s[A00] == r[0] && s[A11] == r[1] && s[A22] == r[2] && s[A33] == r[3] && s[A44] == r[4]
    && s[A20] == r[5] && s[A31] == r[6] && s[A42] == r[7] && s[A03] == r[8] && s[A14] == r[9]
    && s[A40] == r[10] && s[A01] == r[11] && s[A12] == r[12] && s[A23] == r[13] && s[A34] == r[14]
    && s[A04] == a[4] && s[A10] == a[5] && s[A21] == a[11] && s[A32] == a[17] && s[A43] == a[23]
    && s[A02] == a[2] && s[A13] == a[8] && s[A24] == a[14] && s[A30] == a[15] && s[A41] == a[21]
  }

  method Round1Row1(s: array<Lane>, d0: Lane, d1: Lane, d2: Lane, d3: Lane, d4: Lane, ghost rc: Lane, ghost a: State)
    requires s.Length >= 25 && Early1(s, a, Round(a, rc))
    requires d0 == Change(a, 0) && d1 == Change(a, 1) && d2 == Change(a, 2) && d3 == Change(a, 3) && d4 == Change(a, 4)
    modifies s
    ensures Mid1(s, a, Round(a, rc))
    ensures forall j | 25 <= j < s.Length :: s[j] == old(s[j])
  {
    hide Rol, Xor, Mix, Round, Moved, Along, Column, Change, Parity, Effect, Theta, Rho, Pi, Chi, Iota, PiFrom, Rounds,
         Offset;
    var b2, b3, b4, b0, b1 :=
      Rol(Xor(s[A20], d0), 3), Rol(Xor(s[A31], d1), 45), Rol(Xor(s[A42], d2), 61), Rol(Xor(s[A03], d3), 28),
      Rol(Xor(s[A14], d4), 20);
    MixRow(s, A20, A31, A42, A03, A14, b0, b1, b2, b3, b4);
    RoundRow1(a, rc);
  }

  method Round1Row2(s: array<Lane>, d0: Lane, d1: Lane, d2: Lane, d3: Lane, d4: Lane, ghost rc: Lane, ghost a: State)
    requires s.Length >= 25 && Mid1(s, a, Round(a, rc))
    requires d0 == Change(a, 0) && d1 == Change(a, 1) && d2 == Change(a, 2) && d3 == Change(a, 3) && d4 == Change(a, 4)
    modifies s
    ensures Late1(s, a, Round(a, rc))
    ensures forall j | 25 <= j < s.Length :: s[j] == old(s[j])
  {
    hide Rol, Xor, Mix, Round, Moved, Along, Column, Change, Parity, Effect, Theta, Rho, Pi, Chi, Iota, PiFrom, Rounds,
         Offset;
    var b4, b0, b1, b2, b3 :=
      Rol(Xor(s[A40], d0), 18), Rol(Xor(s[A01], d1), 1), Rol(Xor(s[A12], d2), 6), Rol(Xor(s[A23], d3), 25),
      Rol(Xor(s[A34], d4), 8);
    MixRow(s, A40, A01, A12, A23, A34, b0, b1, b2, b3, b4);
    RoundRow2(a, rc);
  }

  method Round1Rest(s: array<Lane>, d0: Lane, d1: Lane, d2: Lane, d3: Lane, d4: Lane, ghost rc: Lane, ghost a: State)
    requires s.Length >= 25 && Late1(s, a, Round(a, rc))
    requires d0 == Change(a, 0) && d1 == Change(a, 1) && d2 == Change(a, 2) && d3 == Change(a, 3) && d4 == Change(a, 4)
    modifies s
    ensures Holds1(s, Round(a, rc))
    ensures forall j | 25 <= j < s.Length :: s[j] == old(s[j])
  {
    hide Rol, Xor, Mix, Round, Moved, Along, Column, Change, Parity, Effect, Theta, Rho, Pi, Chi, Iota, PiFrom, Rounds,
         Offset;
    var b1, b2, b3, b4, b0 :=
      Rol(Xor(s[A10], d0), 36), Rol(Xor(s[A21], d1), 10), Rol(Xor(s[A32], d2), 15), Rol(Xor(s[A43], d3), 56),
      Rol(Xor(s[A04], d4), 27);
    MixRow(s, A10, A21, A32, A43, A04, b0, b1, b2, b3, b4);
    b3, b4, b0, b1, b2 :=
      Rol(Xor(s[A30], d0), 41), Rol(Xor(s[A41], d1), 2), Rol(Xor(s[A02], d2), 62), Rol(Xor(s[A13], d3), 55),
      Rol(Xor(s[A24], d4), 39);
    MixRow(s, A30, A41, A02, A13, A24, b0, b1, b2, b3, b4);
    RoundRow3(a, rc);
    RoundRow4(a, rc);
  }

  method Round1(s: array<Lane>, rc: Lane, ghost a: State)
    requires s.Length >= 25 && Holds0(s, a)
    modifies s
    ensures Holds1(s, Round(a, rc))
    ensures forall j | 25 <= j < s.Length :: s[j] == old(s[j])
  {
    hide Rol, Xor, Mix, Round, Moved, Along, Column, Change, Parity, Effect, Theta, Rho, Pi, Chi, Iota, PiFrom, Rounds,
         Offset;
    var c0 := Parity(s[A00], s[A10], s[A20], s[A30], s[A40]);
    var c1 := Parity(s[A01], s[A11], s[A21], s[A31], s[A41]);
    var c2 := Parity(s[A02], s[A12], s[A22], s[A32], s[A42]);
    var c3 := Parity(s[A03], s[A13], s[A23], s[A33], s[A43]);
    var c4 := Parity(s[A04], s[A14], s[A24], s[A34], s[A44]);
    var d0, d1, d2, d3, d4 := Effect(c4, c1), Effect(c0, c2), Effect(c1, c3), Effect(c2, c4), Effect(c3, c0);
    var b0, b1, b2, b3, b4 :=
      Xor(s[A00], d0), Rol(Xor(s[A11], d1), 44), Rol(Xor(s[A22], d2), 43), Rol(Xor(s[A33], d3), 21),
      Rol(Xor(s[A44], d4), 14);
    MixRow(s, A00, A11, A22, A33, A44, b0, b1, b2, b3, b4);
    s[A00] := Xor(s[A00], rc);
    Changes(a);
    RoundRow0(a, rc);
    Round1Row1(s, d0, d1, d2, d3, d4, rc, a);
    Round1Row2(s, d0, d1, d2, d3, d4, rc, a);
    Round1Rest(s, d0, d1, d2, d3, d4, rc, a);
  }

  /** After two of the five rows of chi. */
  predicate Mid2(s: array<Lane>, a: State, r: State)
    requires s.Length >= 25
    reads s
  {
    && s[A00] == r[0] && s[A31] == r[1] && s[A12] == r[2] && s[A43] == r[3] && s[A24] == r[4]
    && s[A40] == r[5] && s[A21] == r[6] && s[A02] == r[7] && s[A33] == r[8] && s[A14] == r[9]
    && s[A11] == a[1] && s[A42] == a[7] && s[A23] == a[13] && s[A04] == a[19] && s[A30] == a[20]
    && s[A44] == a[4] && s[A20] == a[5] && s[A01] == a[11] && s[A32] == a[17] && s[A13] == a[23]
    && s[A22] == a[2] && s[A03] == a[8] && s[A34] == a[14] && s[A10] == a[15] && s[A41] == a[21]
  }

  predicate Early2(s: array<Lane>, a: State, r: State)
    requires s.Length >= 25
    reads s
  {
    && s[A00] == r[0] && s[A31] == r[1] && s[A12] == r[2] && s[A43] == r[3] && s[A24] == r[4]
    && s[A40] == a[10] && s[A21] == a[16] && s[A02] == a[22] && s[A33] == a[3] && s[A14] == a[9]
    && s[A11] == a[1] && s[A42] == a[7] && s[A23] == a[13] && s[A04] == a[19] && s[A30] == a[20]
    && s[A44] == a[4] && s[A20] == a[5] && s[A01] == a[11] && s[A32] == a[17] && s[A13] == a[23]
    && s[A22] == a[2] && s[A03] == a[8] && s[A34] == a[14] && s[A10] == a[15] && s[A41] == a[21]
  }

  predicate Late2(s: array<Lane>, a: State, r: State)
    requires s.Length >= 25
    reads s
  {
    && s[A00] == r[0] && s[A31] == r[1] && s[A12] == r[2] && s[A43] == r[3] && s[A24] == r[4]
    && s[A40] == r[5] && s[A21] == r[6] && s[A02] == r[7] && s[A33] == r[8] && s[A14] == r[9]
    && s[A30] == r[10] && s[A11] == r[11] && s[A42] == r[12] && s[A23] == r[13] && s[A04] == r[14]
    && s[A44] == a[4] && s[A20] == a[5] && s[A01] == a[11] && s[A32] == a[17] && s[A13] == a[23]
    && s[A22] == a[2] && s[A03] == a[8] && s[A34] == a[14] && s[A10] == a[15] && s[A41] == a[21]
  }

  method Round2Row1(s: array<Lane>, d0: Lane, d1: Lane, d2: Lane, d3: Lane, d4: Lane, ghost rc: Lane, ghost a: State)
    requires s.Length >= 25 && Early2(s, a, Round(a, rc))
    requires d0 == Change(a, 0) && d1 == Change(a, 1) && d2 == Change(a, 2) && d3 == Change(a, 3) && d4 == Change(a, 4)
    modifies s
    ensures Mid2(s, a, Round(a, rc))
    ensures forall j | 25 <= j < s.Length :: s[j] == old(s[j])
  {
    hide Rol, Xor, Mix, Round, Moved, Along, Column, Change, Parity, Effect, Theta, Rho, Pi, Chi, Iota, PiFrom, Rounds,
         Offset;
    var b2, b3, b4, b0, b1 :=
      Rol(Xor(s[A40], d0), 3), Rol(Xor(s[A21], d1), 45), Rol(Xor(s[A02], d2), 61), Rol(Xor(s[A33], d3), 28),
      Rol(Xor(s[A14], d4), 20);
    MixRow(s, A40, A21, A02, A33, A14, b0, b1, b2, b3, b4);
    RoundRow1(a, rc);
  }

  method Round2Row2(s: array<Lane>, d0: Lane, d1: Lane, d2: Lane, d3: Lane, d4: Lane, ghost rc: Lane, ghost a: State)
    requires s.Length >= 25 && Mid2(s, a, Round(a, rc))
    requires d0 == Change(a, 0) && d1 == Change(a, 1) && d2 == Change(a, 2) && d3 == Change(a, 3) && d4 == Change(a, 4)
    modifies s
    ensures Late2(s, a, Round(a, rc))
    ensures forall j | 25 <= j < s.Length :: s[j] == old(s[j])
  {
    hide Rol, Xor, Mix, Round, Moved, Along, Column, Change, Parity, Effect, Theta, Rho, Pi, Chi, Iota, PiFrom, Rounds,
         Offset;
    var b4, b0, b1, b2, b3 :=
      Rol(Xor(s[A30], d0), 18), Rol(Xor(s[A11], d1), 1), Rol(Xor(s[A42], d2), 6), Rol(Xor(s[A23], d3), 25),
      Rol(Xor(s[A04], d4), 8);
    MixRow(s, A30, A11, A42, A23, A04, b0, b1, b2, b3, b4);
    RoundRow2(a, rc);
  }

  method Round2Rest(s: array<Lane>, d0: Lane, d1: Lane, d2: Lane, d3: Lane, d4: Lane, ghost rc: Lane, ghost a: State)
    requires s.Length >= 25 && Late2(s, a, Round(a, rc))
    requires d0 == Change(a, 0) && d1 == Change(a, 1) && d2 == Change(a, 2) && d3 == Change(a, 3) && d4 == Change(a, 4)
    modifies s
    ensures Holds2(s, Round(a, rc))
    ensures forall j | 25 <= j < s.Length :: s[j] == old(s[j])
  {
    hide Rol, Xor, Mix, Round, Moved, Along, Column, Change, Parity, Effect, Theta, Rho, Pi, Chi, Iota, PiFrom, Rounds,
         Offset;
    var b1, b2, b3, b4, b0 :=
      Rol(Xor(s[A20], d0), 36), Rol(Xor(s[A01], d1), 10), Rol(Xor(s[A32], d2), 15), Rol(Xor(s[A13], d3), 56),
      Rol(Xor(s[A44], d4), 27);
    MixRow(s, A20, A01, A32, A13, A44, b0, b1, b2, b3, b4);
    b3, b4, b0, b1, b2 :=
      Rol(Xor(s[A10], d0), 41), Rol(Xor(s[A41], d1), 2), Rol(Xor(s[A22], d2), 62), Rol(Xor(s[A03], d3), 55),
      Rol(Xor(s[A34], d4), 39);
    MixRow(s, A10, A41, A22, A03, A34, b0, b1, b2, b3, b4);
    RoundRow3(a, rc);
    RoundRow4(a, rc);
  }

  method Round2(s: array<Lane>, rc: Lane, ghost a: State)
    requires s.Length >= 25 && Holds1(s, a)
    modifies s
    ensures Holds2(s, Round(a, rc))
    ensures forall j | 25 <= j < s.Length :: s[j] == old(s[j])
  {
    hide Rol, Xor, Mix, Round, Moved, Along, Column, Change, Parity, Effect, Theta, Rho, Pi, Chi, Iota, PiFrom, Rounds,
         Offset;
    var c0 := Parity(s[A00], s[A20], s[A40], s[A10], s[A30]);
    var c1 := Parity(s[A11], s[A31], s[A01], s[A21], s[A41]);
    var c2 := Parity(s[A22], s[A42], s[A12], s[A32], s[A02]);
    var c3 := Parity(s[A33], s[A03], s[A23], s[A43], s[A13]);
    var c4 := Parity(s[A44], s[A14], s[A34], s[A04], s[A24]);
    var d0, d1, d2, d3, d4 := Effect(c4, c1), Effect(c0, c2), Effect(c1, c3), Effect(c2, c4), Effect(c3, c0);
    var b0, b1, b2, b3, b4 :=
      Xor(s[A00], d0), Rol(Xor(s[A31], d1), 44), Rol(Xor(s[A12], d2), 43), Rol(Xor(s[A43], d3), 21),
      Rol(Xor(s[A24], d4), 14);
    MixRow(s, A00, A31, A12, A43, A24, b0, b1, b2, b3, b4);
    s[A00] := Xor(s[A00], rc);
    Changes(a);
    RoundRow0(a, rc);
    Round2Row1(s, d0, d1, d2, d3, d4, rc, a);
    Round2Row2(s, d0, d1, d2, d3, d4, rc, a);
    Round2Rest(s, d0, d1, d2, d3, d4, rc, a);
  }

  /** After two of the five rows of chi. */
  predicate Mid3(s: array<Lane>, a: State, r: State)
    requires s.Length >= 25
    reads s
  {
    && s[A00] == r[0] && s[A21] == r[1] && s[A42] == r[2] && s[A13] == r[3] && s[A34] == r[4]
    && s[A30] == r[5] && s[A01] == r[6] && s[A22] == r[7] && s[A43] == r[8] && s[A14] == r[9]
    && s[A31] == a[1] && s[A02] == a[7] && s[A23] == a[13] && s[A44] == a[19] && s[A10] == a[20]
    && s[A24] == a[4] && s[A40] == a[5] && s[A11] == a[11] && s[A32] == a[17] && s[A03] == a[23]
    && s[A12] == a[2] && s[A33] == a[8] && s[A04] == a[14] && s[A20] == a[15] && s[A41] == a[21]
  }

  predicate Early3(s: array<Lane>, a: State, r: State)
    requires s.Length >= 25
    reads s
  {
    && s[A00] == r[0] && s[A21] == r[1] && s[A42] == r[2] && s[A13] == r[3] && s[A34] == r[4]
    && s[A30] == a[10] && s[A01] == a[16] && s[A22] == a[22] && s[A43] == a[3] && s[A14] == a[9]
    && s[A31] == a[1] && s[A02] == a[7] && s[A23] == a[13] && s[A44] == a[19] && s[A10] == a[20]
    && s[A24] == a[4] && s[A40] == a[5] && s[A11] == a[11] && s[A32] == a[17] && s[A03] == a[23]
    && s[A12] == a[2] && s[A33] == a[8] && s[A04] == a[14] && s[A20] == a[15] && s[A41] == a[21]
  }

  predicate Late3(s: array<Lane>, a: State, r: State)
    requires s.Length >= 25
    reads s
  {
    && s[A00] == r[0] && s[A21] == r[1] && s[A42] == r[2] && s[A13] == r[3] && s[A34] == r[4]
    && s[A30] == r[5] && s[A01] == r[6] && s[A22] == r[7] && s[A43] == r[8] && s[A14] == r[9]
    && s[A10] == r[10] && s[A31] == r[11] && s[A02] == r[12] && s[A23] == r[13] && s[A44] == r[14]
    && s[A24] == a[4] && s[A40] == a[5] && s[A11] == a[11] && s[A32] == a[17] && s[A03] == a[23]
    && s[A12] == a[2] && s[A33] == a[8] && s[A04] == a[14] && s[A20] == a[15] && s[A41] == a[21]
  }

  method Round3Row1(s: array<Lane>, d0: Lane, d1: Lane, d2: Lane, d3: Lane, d4: Lane, ghost rc: Lane, ghost a: State)
    requires s.Length >= 25 && Early3(s, a, Round(a, rc))
    requires d0 == Change(a, 0) && d1 == Change(a, 1) && d2 == Change(a, 2) && d3 == Change(a, 3) && d4 == Change(a, 4)
    modifies s
    ensures Mid3(s, a, Round(a, rc))
    ensures forall j | 25 <= j < s.Length :: s[j] == old(s[j])
  {
    hide Rol, Xor, Mix, Round, Moved, Along, Column, Change, Parity, Effect, Theta, Rho, Pi, Chi, Iota, PiFrom, Rounds,
         Offset;
    var b2, b3, b4, b0, b1 :=
      Rol(Xor(s[A30], d0), 3), Rol(Xor(s[A01], d1), 45), Rol(Xor(s[A22], d2), 61), Rol(Xor(s[A43], d3), 28),
      Rol(Xor(s[A14], d4), 20);
    MixRow(s, A30, A01, A22, A43, A14, b0, b1, b2, b3, b4);
    RoundRow1(a, rc);
  }

  method Round3Row2(s: array<Lane>, d0: Lane, d1: Lane, d2: Lane, d3: Lane, d4: Lane, ghost rc: Lane, ghost a: State)
    requires s.Length >= 25 && Mid3(s, a, Round(a, rc))
    requires d0 == Change(a, 0) && d1 == Change(a, 1) && d2 == Change(a, 2) && d3 == Change(a, 3) && d4 == Change(a, 4)
    modifies s
    ensures Late3(s, a, Round(a, rc))
    ensures forall j | 25 <= j < s.Length :: s[j] == old(s[j])
  {
    hide Rol, Xor, Mix, Round, Moved, Along, Column, Change, Parity, Effect, Theta, Rho, Pi, Chi, Iota, PiFrom, Rounds,
         Offset;
    var b4, b0, b1, b2, b3 :=
      Rol(Xor(s[A10], d0), 18), Rol(Xor(s[A31], d1), 1), Rol(Xor(s[A02], d2), 6), Rol(Xor(s[A23], d3), 25),
      Rol(Xor(s[A44], d4), 8);
    MixRow(s, A10, A31, A02, A23, A44, b0, b1, b2, b3, b4);
    RoundRow2(a, rc);
  }

  method Round3Rest(s: array<Lane>, d0: Lane, d1: Lane, d2: Lane, d3: Lane, d4: Lane, ghost rc: Lane, ghost a: State)
    requires s.Length >= 25 && Late3(s, a, Round(a, rc))
    requires d0 == Change(a, 0) && d1 == Change(a, 1) && d2 == Change(a, 2) && d3 == Change(a, 3) && d4 == Change(a, 4)
    modifies s
    ensures Holds3(s, Round(a, rc))
    ensures forall j | 25 <= j < s.Length :: s[j] == old(s[j])
  {
    hide Rol, Xor, Mix, Round, Moved, Along, Column, Change, Parity, Effect, Theta, Rho, Pi, Chi, Iota, PiFrom, Rounds,
         Offset;
    var b1, b2, b3, b4, b0 :=
      Rol(Xor(s[A40], d0), 36), Rol(Xor(s[A11], d1), 10), Rol(Xor(s[A32], d2), 15), Rol(Xor(s[A03], d3), 56),
      Rol(Xor(s[A24], d4), 27);
    MixRow(s, A40, A11, A32, A03, A24, b0, b1, b2, b3, b4);
    b3, b4, b0, b1, b2 :=
      Rol(Xor(s[A20], d0), 41), Rol(Xor(s[A41], d1), 2), Rol(Xor(s[A12], d2), 62), Rol(Xor(s[A33], d3), 55),
      Rol(Xor(s[A04], d4), 39);
    MixRow(s, A20, A41, A12, A33, A04, b0, b1, b2, b3, b4);
    RoundRow3(a, rc);
    RoundRow4(a, rc);
  }

  method Round3(s: array<Lane>, rc: Lane, ghost a: State)
    requires s.Length >= 25 && Holds2(s, a)
    modifies s
    ensures Holds3(s, Round(a, rc))
    ensures forall j | 25 <= j < s.Length :: s[j] == old(s[j])
  {
    hide Rol, Xor, Mix, Round, Moved, Along, Column, Change, Parity, Effect, Theta, Rho, Pi, Chi, Iota, PiFrom, Rounds,
         Offset;
    var c0 := Parity(s[A00], s[A40], s[A30], s[A20], s[A10]);
    var c1 := Parity(s[A31], s[A21], s[A11], s[A01], s[A41]);
    var c2 := Parity(s[A12], s[A02], s[A42], s[A32], s[A22]);
    var c3 := Parity(s[A43], s[A33], s[A23], s[A13], s[A03]);
    var c4 := Parity(s[A24], s[A14], s[A04], s[A44], s[A34]);
    var d0, d1, d2, d3, d4 := Effect(c4, c1), Effect(c0, c2), Effect(c1, c3), Effect(c2, c4), Effect(c3, c0);
    var b0, b1, b2, b3, b4 :=
      Xor(s[A00], d0), Rol(Xor(s[A21], d1), 44), Rol(Xor(s[A42], d2), 43), Rol(Xor(s[A13], d3), 21),
      Rol(Xor(s[A34], d4), 14);
    MixRow(s, A00, A21, A42, A13, A34, b0, b1, b2, b3, b4);
    s[A00] := Xor(s[A00], rc);
    Changes(a);
    RoundRow0(a, rc);
    Round3Row1(s, d0, d1, d2, d3, d4, rc, a);
    Round3Row2(s, d0, d1, d2, d3, d4, rc, a);
    Round3Rest(s, d0, d1, d2, d3, d4, rc, a);
  }

  /** After two of the five rows of chi. */
  predicate Mid4(s: array<Lane>, a: State, r: State)
    requires s.Length >= 25
    reads s
  {
    && s[A00] == r[0] && s[A01] == r[1] && s[A02] == r[2] && s[A03] == r[3] && s[A04] == r[4]
    && s[A10] == r[5] && s[A11] == r[6] && s[A12] == r[7] && s[A13] == r[8] && s[A14] == r[9]
    && s[A21] == a[1] && s[A22] == a[7] && s[A23] == a[13] && s[A24] == a[19] && s[A20] == a[20]
    && s[A34] == a[4] && s[A30] == a[5] && s[A31] == a[11] && s[A32] == a[17] && s[A33] == a[23]
    && s[A42] == a[2] && s[A43] == a[8] && s[A44] == a[14] && s[A40] == a[15] && s[A41] == a[21]
  }

  predicate Early4(s: array<Lane>, a: State, r: State)
    requires s.Length >= 25
    reads s
  {
    && s[A00] == r[0] && s[A01] == r[1] && s[A02] == r[2] && s[A03] == r[3] && s[A04] == r[4]
    && s[A10] == a[10] && s[A11] == a[16] && s[A12] == a[22] && s[A13] == a[3] && s[A14] == a[9]
    && s[A21] == a[1] && s[A22] == a[7] && s[A23] == a[13] && s[A24] == a[19] && s[A20] == a[20]
    && s[A34] == a[4] && s[A30] == a[5] && s[A31] == a[11] && s[A32] == a[17] && s[A33] == a[23]
    && s[A42] == a[2] && s[A43] == a[8] && s[A44] == a[14] && s[A40] == a[15] && s[A41] == a[21]
  }

  predicate Late4(s: array<Lane>, a: State, r: State)
    requires s.Length >= 25
    reads s
  {
    && s[A00] == r[0] && s[A01] == r[1] && s[A02] == r[2] && s[A03] == r[3] && s[A04] == r[4]
    && s[A10] == r[5] && s[A11] == r[6] && s[A12] == r[7] && s[A13] == r[8] && s[A14] == r[9]
    && s[A20] == r[10] && s[A21] == r[11] && s[A22] == r[12] && s[A23] == r[13] && s[A24] == r[14]
    && s[A34] == a[4] && s[A30] == a[5] && s[A31] == a[11] && s[A32] == a[17] && s[A33] == a[23]
    && s[A42] == a[2] && s[A43] == a[8] && s[A44] == a[14] && s[A40] == a[15] && s[A41] == a[21]
  }

  method Round4Row1(s: array<Lane>, d0: Lane, d1: Lane, d2: Lane, d3: Lane, d4: Lane, ghost rc: Lane, ghost a: State)
    requires s.Length >= 25 && Early4(s, a, Round(a, rc))
    requires d0 == Change(a, 0) && d1 == Change(a, 1) && d2 == Change(a, 2) && d3 == Change(a, 3) && d4 == Change(a, 4)
    modifies s
    ensures Mid4(s, a, Round(a, rc))
    ensures forall j | 25 <= j < s.Length :: s[j] == old(s[j])
  {
    hide Rol, Xor, Mix, Round, Moved, Along, Column, Change, Parity, Effect, Theta, Rho, Pi, Chi, Iota, PiFrom, Rounds,
         Offset;
    var b2, b3, b4, b0, b1 :=
      Rol(Xor(s[A10], d0), 3), Rol(Xor(s[A11], d1), 45), Rol(Xor(s[A12], d2), 61), Rol(Xor(s[A13], d3), 28),
      Rol(Xor(s[A14], d4), 20);
    MixRow(s, A10, A11, A12, A13, A14, b0, b1, b2, b3, b4);
    RoundRow1(a, rc);
  }

  method Round4Row2(s: array<Lane>, d0: Lane, d1: Lane, d2: Lane, d3: Lane, d4: Lane, ghost rc: Lane, ghost a: State)
    requires s.Length >= 25 && Mid4(s, a, Round(a, rc))
    requires d0 == Change(a, 0) && d1 == Change(a, 1) && d2 == Change(a, 2) && d3 == Change(a, 3) && d4 == Change(a, 4)
    modifies s
    ensures Late4(s, a, Round(a, rc))
    ensures forall j | 25 <= j < s.Length :: s[j] == old(s[j])
  {
    hide Rol, Xor, Mix, Round, Moved, Along, Column, Change, Parity, Effect, Theta, Rho, Pi, Chi, Iota, PiFrom, Rounds,
         Offset;
    var b4, b0, b1, b2, b3 :=
      Rol(Xor(s[A20], d0), 18), Rol(Xor(s[A21], d1), 1), Rol(Xor(s[A22], d2), 6), Rol(Xor(s[A23], d3), 25),
      Rol(Xor(s[A24], d4), 8);
    MixRow(s, A20, A21, A22, A23, A24, b0, b1, b2, b3, b4);
    RoundRow2(a, rc);
  }

  method Round4Rest(s: array<Lane>, d0: Lane, d1: Lane, d2: Lane, d3: Lane, d4: Lane, ghost rc: Lane, ghost a: State)
    requires s.Length >= 25 && Late4(s, a, Round(a, rc))
    requires d0 == Change(a, 0) && d1 == Change(a, 1) && d2 == Change(a, 2) && d3 == Change(a, 3) && d4 == Change(a, 4)
    modifies s
    ensures Holds0(s, Round(a, rc))
    ensures forall j | 25 <= j < s.Length :: s[j] == old(s[j])
  {
    hide Rol, Xor, Mix, Round, Moved, Along, Column, Change, Parity, Effect, Theta, Rho, Pi, Chi, Iota, PiFrom, Rounds,
         Offset;
    var b1, b2, b3, b4, b0 :=
      Rol(Xor(s[A30], d0), 36), Rol(Xor(s[A31], d1), 10), Rol(Xor(s[A32], d2), 15), Rol(Xor(s[A33], d3), 56),
      Rol(Xor(s[A34], d4), 27);
    MixRow(s, A30, A31, A32, A33, A34, b0, b1, b2, b3, b4);
    b3, b4, b0, b1, b2 :=
      Rol(Xor(s[A40], d0), 41), Rol(Xor(s[A41], d1), 2), Rol(Xor(s[A42], d2), 62), Rol(Xor(s[A43], d3), 55),
      Rol(Xor(s[A44], d4), 39);
    MixRow(s, A40, A41, A42, A43, A44, b0, b1, b2, b3, b4);
    RoundRow3(a, rc);
    RoundRow4(a, rc);
  }

  method Round4(s: array<Lane>, rc: Lane, ghost a: State)
    requires s.Length >= 25 && Holds3(s, a)
    modifies s
    ensures Holds0(s, Round(a, rc))
    ensures forall j | 25 <= j < s.Length :: s[j] == old(s[j])
  {
    hide Rol, Xor, Mix, Round, Moved, Along, Column, Change, Parity, Effect, Theta, Rho, Pi, Chi, Iota, PiFrom, Rounds,
         Offset;
    var c0 := Parity(s[A00], s[A30], s[A10], s[A40], s[A20]);
    var c1 := Parity(s[A21], s[A01], s[A31], s[A11], s[A41]);
    var c2 := Parity(s[A42], s[A22], s[A02], s[A32], s[A12]);
    var c3 := Parity(s[A13], s[A43], s[A23], s[A03], s[A33]);
    var c4 := Parity(s[A34], s[A14], s[A44], s[A24], s[A04]);
    var d0, d1, d2, d3, d4 := Effect(c4, c1), Effect(c0, c2), Effect(c1, c3), Effect(c2, c4), Effect(c3, c0);
    var b0, b1, b2, b3, b4 :=
      Xor(s[A00], d0), Rol(Xor(s[A01], d1), 44), Rol(Xor(s[A02], d2), 43), Rol(Xor(s[A03], d3), 21),
      Rol(Xor(s[A04], d4), 14);
    MixRow(s, A00, A01, A02, A03, A04, b0, b1, b2, b3, b4);
    s[A00] := Xor(s[A00], rc);
    Changes(a);
    RoundRow0(a, rc);
    Round4Row1(s, d0, d1, d2, d3, d4, rc, a);
    Round4Row2(s, d0, d1, d2, d3, d4, rc, a);
    Round4Rest(s, d0, d1, d2, d3, d4, rc, a);
  }

  /** KeccakF1600Step: six times four rounds; after four the lanes are back home. */
  method KeccakF1600Step(s: array<Lane>)
    requires s.Length >= 25
    modifies s
    ensures s[..25] == Rounds(old(s[..25]), 24)
    ensures Bits(s[..25]) == F.KeccakF(Bits(old(s[..25])))
    ensures forall j | 25 <= j < s.Length :: s[j] == old(s[j])
  {
    hide Round, Rounds, Holds0, Holds1, Holds2, Holds3, Bits, F.Rounds;
    ghost var a: State := s[..25];
    AtHome(s, a);
    NoRounds(a);
    var i := 0;
    while i < 24
      invariant 0 <= i <= 24 && i % 4 == 0 && Holds0(s, Rounds(a, i))
      invariant forall j | 25 <= j < s.Length :: s[j] == old(s[j])
    {
      ghost var b := Rounds(a, i);
      FourRounds(a, i);
      Round1(s, Lane(RC[i]), b);
      b := Round(b, Lane(RC[i]));
      Round2(s, Lane(RC[i + 1]), b);
      b := Round(b, Lane(RC[i + 1]));
      Round3(s, Lane(RC[i + 2]), b);
      b := Round(b, Lane(RC[i + 2]));
      Round4(s, Lane(RC[i + 3]), b);
      i := i + 4;
    }
    AtHome(s, Rounds(a, 24));
    RoundsAre(a, 24);
  }

  lemma NoRounds(a: State)
    ensures Rounds(a, 0) == a
  {
  }

  lemma FourRounds(a: State, i: nat)
    requires i + 4 <= 24
    ensures Rounds(a, i + 4) ==
            Round(Round(Round(Round(Rounds(a, i), Lane(RC[i])), Lane(RC[i + 1])), Lane(RC[i + 2])), Lane(RC[i + 3]))
  {
    hide Round;
    assert Rounds(a, i + 1) == Round(Rounds(a, i), Lane(RC[i]));
    assert Rounds(a, i + 2) == Round(Rounds(a, i + 1), Lane(RC[i + 1]));
    assert Rounds(a, i + 3) == Round(Rounds(a, i + 2), Lane(RC[i + 2]));
  }

  lemma AtHome(s: array<Lane>, a: State)
    requires s.Length >= 25
    ensures Holds0(s, a) <==> s[..25] == a
  {
  }
}
