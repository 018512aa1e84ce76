/** Keccak-f[1600] and the SHA-3 functions as FIPS 202 defines them, bit by bit over
    booleans. */
module Fips202 {

  // ---------- the state (section 3.1) ----------

  /** Bit (x, y, z) of the state array is bit 64 (5 y + x) + z of the string. */
  type State = s: seq<bool> | |s| == 1600 witness seq(1600, i => false)

  function Place(x: nat, y: nat, z: nat): (i: nat)
    requires x < 5 && y < 5 && z < 64
    ensures i < 1600
  {
    64 * (5 * y + x) + z
  }

  function X(i: nat): (x: nat) ensures x < 5 { i / 64 % 5 }
  function Y(i: nat): (y: nat) requires i < 1600 ensures y < 5 { i / 320 }
  function Z(i: nat): (z: nat) ensures z < 64 { i % 64 }

  function A(s: State, x: nat, y: nat, z: nat): bool
    requires x < 5 && y < 5 && z < 64
  {
    s[Place(x, y, z)]
  }

  // ---------- the step mappings (section 3.2) ----------

  /** Algorithm 1, step 1. */
  function C(s: State, x: nat, z: nat): bool
    requires x < 5 && z < 64
  {
    (((A(s, x, 0, z) != A(s, x, 1, z)) != A(s, x, 2, z)) != A(s, x, 3, z)) != A(s, x, 4, z)
  }

  /** Step 2. */
  function D(s: State, x: nat, z: nat): bool
    requires x < 5 && z < 64
  {
    C(s, (x + 4) % 5, z) != C(s, (x + 1) % 5, (z + 63) % 64)
  }

  function Theta(s: State): State
  {
    seq(1600, i requires 0 <= i < 1600 => A(s, X(i), Y(i), Z(i)) != D(s, X(i), Z(i)))
  }

  /** Algorithm 2: the walk from (1, 0), which has come to (x, y) after t steps. */
  function WalkX(t: nat): (x: nat) ensures x < 5 { if t == 0 then 1 else WalkY(t - 1) }
  function WalkY(t: nat): (y: nat) ensures y < 5 { if t == 0 then 0 else (2 * WalkX(t - 1) + 3 * WalkY(t - 1)) % 5 }

  /** How far a lane is rotated: (t + 1)(t + 2)/2 places if the walk comes to it after t
      steps, and not at all if it never does. */
  function Offset(x: nat, y: nat, t: nat): (n: nat)
    requires t <= 24
    ensures n < 64
    decreases 24 - t
  {
    if t == 24 then 0
    else if WalkX(t) == x && WalkY(t) == y then (t + 1) * (t + 2) / 2 % 64
    else Offset(x, y, t + 1)
  }

  function Rho(s: State): State
  {
    seq(1600, i requires 0 <= i < 1600 => A(s, X(i), Y(i), (Z(i) + 64 - Offset(X(i), Y(i), 0)) % 64))
  }

  /** Algorithm 3. */
  function Pi(s: State): State
  {
    seq(1600, i requires 0 <= i < 1600 => A(s, (X(i) + 3 * Y(i)) % 5, X(i), Z(i)))
  }

  /** Algorithm 4. */
  function Chi(s: State): State
  {
    seq(1600, i requires 0 <= i < 1600 =>
          A(s, X(i), Y(i), Z(i)) != (!A(s, (X(i) + 1) % 5, Y(i), Z(i)) && A(s, (X(i) + 2) % 5, Y(i), Z(i))))
  }

  /** Algorithm 5: the shift register, leftmost bit first. */
  function Register(t: nat): (r: seq<bool>)
    ensures |r| == 8
  {
    if t == 0 then [true, false, false, false, false, false, false, false]
    else
      var r := [false] + Register(t - 1);
      [r[0] != r[8], r[1], r[2], r[3], r[4] != r[8], r[5] != r[8], r[6] != r[8], r[7]]
  }

  /** rc(t). */
  function Rc(t: nat): bool { Register(t)[0] }

  /** Algorithm 6: bit 2^j - 1 of the round constant is rc(j + 7 ir), all others are 0. */
  function RoundConstant(ir: nat, z: nat): bool
  {
    if z == 0 then Rc(7 * ir) else if z == 1 then Rc(7 * ir + 1) else if z == 3 then Rc(7 * ir + 2)
    else if z == 7 then Rc(7 * ir + 3) else if z == 15 then Rc(7 * ir + 4) else if z == 31 then Rc(7 * ir + 5)
    else if z == 63 then Rc(7 * ir + 6) else false
  }

  function Iota(s: State, ir: nat): State
  {
    seq(1600, i requires 0 <= i < 1600 => if i < 64 then s[i] != RoundConstant(ir, i) else s[i])
  }

  // ---------- Keccak-f (section 3.3) ----------

  function Round(s: State, ir: nat): State
  {
    Iota(Chi(Pi(Rho(Theta(s)))), ir)
  }

  function Rounds(s: State, n: nat): State
  {
    if n == 0 then s else Round(Rounds(s, n - 1), n - 1)
  }

  function KeccakF(s: State): State
  {
    Rounds(s, 24)
  }

  // ---------- the sponge (sections 4, 5.1 and 6.1) ----------

  function Xor(s: State, p: seq<bool>): State
    requires |p| <= 1600
  {
    seq(1600, i requires 0 <= i < 1600 => if i < |p| then s[i] != p[i] else s[i])
  }

  /** Absorb blocks of r bits. */
  function Absorb(p: seq<bool>, r: nat): State
    requires 0 < r <= 1600
  {
    if |p| < r then seq(1600, i => false) else KeccakF(Xor(Absorb(p[..|p| - r], r), p[|p| - r..]))
  }

  /** What is left of n bits after all whole blocks of r. */
  function Rest(n: nat, r: nat): (k: nat)
    requires r > 0
    ensures k < r
  {
    if n < r then n else Rest(n - r, r)
  }

  /** The least number of zeros so that n bits and the padding, with a one at either end, are
      whole blocks. */
  function Zeros(n: nat, r: nat): (j: nat)
    requires r > 0
    ensures j < r
  {
    var k := Rest(n + 2, r);
    if k == 0 then 0 else r - k
  }

  function Padding(n: nat, r: nat): seq<bool>
    requires r > 0
  {
    [true] + seq(Zeros(n, r), i => false) + [true]
  }

  /** SHA3-d(m) with r = 1600 - 2 d, for a digest of no more than r bits. */
  function Sha3(m: seq<bool>, r: nat, d: nat): seq<bool>
    requires 0 < r <= 1600 && d <= r
  {
    var n := m + [false, true];
    Absorb(n + Padding(|n|, r), r)[..d]
  }
}
