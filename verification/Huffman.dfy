/** Canonical prefix codes, as section 3.2.2 of RFC 1951 defines them from a
    vector of code lengths. This module is the reference the table builder is
    measured against; it knows nothing about tables. */
module Huffman {
  import opened Bits

  const MAX_BITS := 15

  predicate Lengths(lens: seq<nat>)
  {
    forall i | 0 <= i < |lens| :: lens[i] <= MAX_BITS
  }

  /** How many of the first n symbols have length k. */
  function CountBelow(lens: seq<nat>, n: nat, k: nat): nat
    requires n <= |lens|
  {
    if n == 0 then 0 else CountBelow(lens, n - 1, k) + (if lens[n - 1] == k then 1 else 0)
  }

  function Count(lens: seq<nat>, k: nat): nat
  {
    CountBelow(lens, |lens|, k)
  }

  /** Number of k-bit patterns that start with a code of length at most k,
      counting the first n symbols only. */
  function Used(lens: seq<nat>, n: nat, k: nat): nat
    requires n <= |lens|
    decreases k
  {
    if k == 0 then 0 else 2 * Used(lens, n, k - 1) + CountBelow(lens, n, k)
  }

  /** The smallest code of length k: step 2 of the algorithm in section 3.2.2,
      code = (code + bl_count[bits-1]) << 1. */
  function First(lens: seq<nat>, k: nat): nat
  {
    if k <= 1 then 0 else 2 * (First(lens, k - 1) + Count(lens, k - 1))
  }

  /** The code of a symbol: step 3, consecutive values within one length. */
  function Code(lens: seq<nat>, sym: nat): nat
    requires sym < |lens|
  {
    First(lens, lens[sym]) + CountBelow(lens, sym, lens[sym])
  }

  /** The Kraft sum of the lengths, in units of 2^-15. */
  function Kraft(lens: seq<nat>, n: nat): nat
    requires n <= |lens| && Lengths(lens)
  {
    if n == 0 then 0
    else Kraft(lens, n - 1) + (if lens[n - 1] == 0 then 0 else Pow2(MAX_BITS - lens[n - 1]))
  }

  function MaxLen(lens: seq<nat>): (g: nat)
    ensures forall i | 0 <= i < |lens| :: lens[i] <= g
    ensures g == 0 || exists i | 0 <= i < |lens| :: lens[i] == g
  {
    if lens == [] then 0
    else
      var g := MaxLen(lens[1..]);
      assert forall i | 0 < i < |lens| :: lens[i] == lens[1..][i - 1];
      if lens[0] > g then lens[0] else g
  }

  /** A code set a decoder can use: it is complete, or it is the single one-bit
      code that section 3.2.7 allows. */
  predicate Usable(lens: seq<nat>)
    requires Lengths(lens)
  {
    || Kraft(lens, |lens|) == Pow2(MAX_BITS)
    || (MaxLen(lens) == 1 && Kraft(lens, |lens|) < Pow2(MAX_BITS))
  }

  // ---------- decoding ----------

  /** The bits from pos on start with the code of sym. */
  predicate StartsWith(lens: seq<nat>, bits: seq<bit>, pos: nat, sym: nat)
    requires sym < |lens|
  {
    && lens[sym] > 0
    && pos + lens[sym] <= |bits|
    && Msb(bits, pos, lens[sym]) == Code(lens, sym)
  }

  datatype Decoded = Symbol(sym: nat, len: nat) | NoCode | OutOfBits

  /** The symbol whose code starts at pos. */
  ghost function DecodeSym(lens: seq<nat>, bits: seq<bit>, pos: nat): (r: Decoded)
    ensures r.Symbol? ==> r.sym < |lens| && r.len == lens[r.sym] > 0 && pos + r.len <= |bits|
    ensures r.NoCode? ==> pos + MaxLen(lens) <= |bits|
  {
    if exists sym: nat | sym < |lens| :: StartsWith(lens, bits, pos, sym) then
      var sym: nat :| sym < |lens| && StartsWith(lens, bits, pos, sym);
      Symbol(sym, lens[sym])
    else if pos + MaxLen(lens) <= |bits| then NoCode
    else OutOfBits
  }

  // ---------- counting lemmas ----------

  lemma {:induction false} FirstIsUsed(lens: seq<nat>, k: nat)
    requires k >= 1
    ensures First(lens, k) == 2 * Used(lens, |lens|, k - 1)
    ensures First(lens, k) + Count(lens, k) == Used(lens, |lens|, k)
    decreases k
  {
    if k > 1 { FirstIsUsed(lens, k - 1); }
  }

  lemma {:induction false} UsedStep(lens: seq<nat>, n: nat, k: nat)
    requires n < |lens|
    ensures Used(lens, n + 1, k) ==
            Used(lens, n, k) + (if 1 <= lens[n] <= k then Pow2(k - lens[n]) else 0)
    decreases k
  {
    if k > 0 { UsedStep(lens, n, k - 1); }
  }

  /** The Kraft sum over symbols is the number of 15-bit patterns in use. */
  lemma {:induction false} KraftIsUsed(lens: seq<nat>, n: nat)
    requires n <= |lens| && Lengths(lens)
    ensures Kraft(lens, n) == Used(lens, n, MAX_BITS)
    decreases n
  {
    hide Used, Pow2, CountBelow;
    if n > 0 {
      KraftIsUsed(lens, n - 1);
      UsedStep(lens, n - 1, MAX_BITS);
    } else {
      UsedZero(lens, MAX_BITS);
    }
  }

  lemma {:induction false} UsedZero(lens: seq<nat>, k: nat)
    ensures Used(lens, 0, k) == 0
  {
    if k > 0 { UsedZero(lens, k - 1); }
  }

  lemma {:induction false} CountZero(lens: seq<nat>, n: nat, k: nat)
    requires n <= |lens|
    requires forall i | 0 <= i < n :: lens[i] != k
    ensures CountBelow(lens, n, k) == 0
  {
    if n > 0 { CountZero(lens, n - 1, k); }
  }

  /** Where no code is shorter, the codes start at 0. */
  lemma {:induction false} NoneShorter(lens: seq<nat>, l: nat)
    requires l >= 1
    requires forall i | 0 <= i < |lens| && lens[i] > 0 :: lens[i] >= l
    ensures First(lens, l) == 0
  {
    if l > 1 {
      NoneShorter(lens, l - 1);
      CountZero(lens, |lens|, l - 1);
    }
  }

  lemma {:induction false} NoKraft(lens: seq<nat>, n: nat)
    requires Lengths(lens) && n <= |lens| && forall i | 0 <= i < |lens| :: lens[i] == 0
    ensures Kraft(lens, n) == 0
  {
    if n > 0 { NoKraft(lens, n - 1); }
  }

  /** Beyond the longest code every further bit doubles the patterns in use. */
  lemma {:induction false} UsedBeyond(lens: seq<nat>, g: nat, k: nat)
    requires g <= k && forall i | 0 <= i < |lens| :: lens[i] <= g
    ensures Used(lens, |lens|, k) == Shl(Used(lens, |lens|, g), k - g)
    decreases k
  {
    if k > g {
      UsedBeyond(lens, g, k - 1);
      CountZero(lens, |lens|, k);
    }
  }

  /** Comparing the Kraft sum with 1 is comparing the patterns in use with all patterns. */
  lemma KraftCompare(lens: seq<nat>, g: nat)
    requires Lengths(lens) && 1 <= g <= MAX_BITS
    requires forall i | 0 <= i < |lens| :: lens[i] <= g
    ensures First(lens, g) + Count(lens, g) < Pow2(g) <==> Kraft(lens, |lens|) < Pow2(MAX_BITS)
    ensures First(lens, g) + Count(lens, g) > Pow2(g) <==> Kraft(lens, |lens|) > Pow2(MAX_BITS)
  {
    hide Used, Shl, First, Kraft, MaxLen;
    KraftIsUsed(lens, |lens|);
    FirstIsUsed(lens, g);
    var k := MAX_BITS;
    UsedBeyond(lens, g, k);
    ShlShl(1, g, k - g);
    ShlOrder(Used(lens, |lens|, g), Pow2(g), k - g);
    ShlOrder(Pow2(g), Used(lens, |lens|, g), k - g);
  }

  /** Patterns in use only grow, relative to the space available. */
  lemma {:induction false} UsedGrows(lens: seq<nat>, j: nat, k: nat)
    requires 1 <= j < k
    ensures Shl(Used(lens, |lens|, j), k - j) <= First(lens, k)
    decreases k
  {
    FirstIsUsed(lens, k);
    if j < k - 1 {
      UsedGrows(lens, j, k - 1);
      FirstIsUsed(lens, k - 1);
    } else {
      assert Shl(Used(lens, |lens|, j), 1) == 2 * Shl(Used(lens, |lens|, j), 0);
    }
  }

  lemma {:induction false} CountMono(lens: seq<nat>, m: nat, n: nat, k: nat)
    requires m <= n <= |lens|
    ensures CountBelow(lens, m, k) <= CountBelow(lens, n, k)
    ensures m < n && lens[m] == k ==> CountBelow(lens, m, k) < CountBelow(lens, n, k)
    decreases n - m
  {
    if m < n { CountMono(lens, m + 1, n, k); }
  }

  /** A code lies among the patterns of its length: First <= code < First + Count. */
  lemma CodeRange(lens: seq<nat>, sym: nat)
    requires sym < |lens| && lens[sym] > 0
    ensures First(lens, lens[sym]) <= Code(lens, sym) < First(lens, lens[sym]) + Count(lens, lens[sym])
  {
    CountMono(lens, sym, |lens|, lens[sym]);
  }

  /** No two symbols share a code, and no code is a prefix of another one:
      the bits at a position determine the symbol. */
  lemma PrefixFree(lens: seq<nat>, bits: seq<bit>, pos: nat, s: nat, t: nat)
    requires s < |lens| && t < |lens|
    requires StartsWith(lens, bits, pos, s) && StartsWith(lens, bits, pos, t)
    ensures s == t
  {
    if lens[s] < lens[t] {
      PrefixFreeOrdered(lens, bits, pos, s, Msb(bits, pos, lens[t]), lens[t]);
      CodeRange(lens, t);
    } else if lens[t] < lens[s] {
      PrefixFreeOrdered(lens, bits, pos, t, Msb(bits, pos, lens[s]), lens[s]);
      CodeRange(lens, s);
    } else if s < t {
      CountMono(lens, s, t, lens[s]);
    } else if t < s {
      CountMono(lens, t, s, lens[s]);
    }
  }

  /** A pattern that starts with a shorter code lies below the codes of length k. */
  lemma PrefixFreeOrdered(lens: seq<nat>, bits: seq<bit>, pos: nat, s: nat, m: nat, k: nat)
    requires s < |lens| && StartsWith(lens, bits, pos, s)
    requires lens[s] < k && pos + k <= |bits| && m == Msb(bits, pos, k)
    ensures m < First(lens, k)
  {
    var j := lens[s];
    MsbSplit(bits, pos, j, k - j);
    MsbBound(bits, pos + j, k - j);
    CodeRange(lens, s);
    FirstIsUsed(lens, j);
    UsedGrows(lens, j, k);
    BelowBlock(Code(lens, s), Used(lens, |lens|, j), k - j, Msb(bits, pos + j, k - j));
  }

  /** The decoder finds exactly the symbol whose code is there. */
  lemma DecodeSymIs(lens: seq<nat>, bits: seq<bit>, pos: nat, sym: nat)
    requires sym < |lens| && StartsWith(lens, bits, pos, sym)
    ensures DecodeSym(lens, bits, pos) == Symbol(sym, lens[sym])
  {
    var s: nat :| s < |lens| && StartsWith(lens, bits, pos, s)
               && DecodeSym(lens, bits, pos) == Symbol(s, lens[s]);
    PrefixFree(lens, bits, pos, s, sym);
  }

  /** A pattern at or above every code of the longest length is no code at all. */
  lemma DecodeSymNone(lens: seq<nat>, bits: seq<bit>, pos: nat, g: nat)
    requires g == MaxLen(lens) && g >= 1
    requires pos + g <= |bits|
    requires Msb(bits, pos, g) >= First(lens, g) + Count(lens, g)
    ensures DecodeSym(lens, bits, pos) == NoCode
  {
    if exists sym: nat | sym < |lens| :: StartsWith(lens, bits, pos, sym) {
      var sym: nat :| sym < |lens| && StartsWith(lens, bits, pos, sym);
      CodeRange(lens, sym);
      if lens[sym] < g {
        PrefixFreeOrdered(lens, bits, pos, sym, Msb(bits, pos, g), g);
      }
      assert false;
    }
  }
}
