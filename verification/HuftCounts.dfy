/** The first half of huft_build: counting lengths, bounding them, checking that
    the code set is not over-subscribed, and sorting the symbols by length. */
module HuftCounts {
  import opened Bits
  import opened Huffman
  import opened HuftTables
  import opened HuftInvariant

  /** Number of symbols with a shorter code than k. */
  function Off(lens: seq<nat>, k: nat): nat
  {
    if k <= 1 then 0 else Off(lens, k - 1) + Count(lens, k - 1)
  }

  lemma {:induction false} OffMono(lens: seq<nat>, j: nat, k: nat)
    requires 1 <= j < k
    ensures Off(lens, j) + Count(lens, j) <= Off(lens, k)
    decreases k
  {
    if j < k - 1 { OffMono(lens, j, k - 1); }
  }

  lemma {:induction false} CountWitness(lens: seq<nat>, n: nat, k: nat) returns (i: nat)
    requires n <= |lens| && CountBelow(lens, n, k) > 0
    ensures i < n && lens[i] == k
  {
    if lens[n - 1] == k { i := n - 1; } else { i := CountWitness(lens, n - 1, k); }
  }

  lemma CountOf(lens: seq<nat>, i: nat)
    requires i < |lens|
    ensures Count(lens, lens[i]) > 0
  {
    CountMono(lens, i, |lens|, lens[i]);
  }

  predicate CountsAre(lens: seq<nat>, c: seq<nat>)
  {
    |c| == MAX_BITS + 1 && forall k | 0 <= k <= MAX_BITS :: c[k] == Count(lens, k)
  }

  /** c[*p++]++ over all lengths. */
  method CountLengths(b: seq<nat>) returns (c: seq<nat>)
    requires Lengths(b)
    ensures CountsAre(b, c)
  {
    c := seq(MAX_BITS + 1, i => 0);
    var i := 0;
    while i < |b|
      invariant i <= |b| && |c| == MAX_BITS + 1
      invariant forall k | 0 <= k <= MAX_BITS :: c[k] == CountBelow(b, i, k)
    {
      c := c[b[i] := c[b[i]] + 1];
      i := i + 1;
    }
  }

  lemma {:induction false} CountAll(lens: seq<nat>, n: nat, k: nat)
    requires n <= |lens|
    ensures CountBelow(lens, n, k) <= n
    ensures CountBelow(lens, n, k) == n <==> forall i | 0 <= i < n :: lens[i] == k
  {
    if n > 0 { CountAll(lens, n - 1, k); }
  }

  /** The shortest and the longest code length in use. */
  method LengthBounds(ghost lens: seq<nat>, c: seq<nat>) returns (j: nat, g: nat)
    requires Lengths(lens) && |lens| > 0 && CountsAre(lens, c) && c[0] != |lens|
    ensures 1 <= j <= g <= MAX_BITS && c[j] > 0 && c[g] > 0
    ensures forall k | 1 <= k < j :: c[k] == 0
    ensures g == MaxLen(lens)
  {
    CountAll(lens, |lens|, 0);
    ghost var some: nat :| some < |lens| && lens[some] != 0;
    CountOf(lens, some);
    j := 1;
    while j <= MAX_BITS && c[j] == 0
      invariant 1 <= j <= lens[some]
      invariant forall k | 1 <= k < j :: c[k] == 0
    {
      j := j + 1;
    }
    g := MAX_BITS;
    while c[g] == 0
      invariant lens[some] <= g <= MAX_BITS
      invariant forall k | g < k <= MAX_BITS :: c[k] == 0
      decreases g
    {
      g := g - 1;
    }
    ghost var w := CountWitness(lens, |lens|, g);
    if MaxLen(lens) > g {
      ghost var t :| 0 <= t < |lens| && lens[t] == MaxLen(lens);
      CountOf(lens, t);
    }
  }

  lemma {:induction false} NoShorter(lens: seq<nat>, j: nat)
    requires 1 <= j
    requires forall k | 1 <= k < j :: Count(lens, k) == 0
    ensures First(lens, j) == 0 && Off(lens, j) == 0
  {
    if j > 1 { NoShorter(lens, j - 1); }
  }

  /** Once the codes of some length exceed the patterns, the whole set does. */
  lemma OverAt(lens: seq<nat>, j: nat, g: nat)
    requires 1 <= j <= g <= MAX_BITS && g == MaxLen(lens) && Lengths(lens)
    requires First(lens, j) + Count(lens, j) > Pow2(j)
    ensures First(lens, g) + Count(lens, g) > Pow2(g)
  {
    if j < g {
      FirstIsUsed(lens, j);
      UsedGrows(lens, j, g);
      ShlShl(1, j, g - j);
      ShlOrder(Pow2(j), Used(lens, |lens|, j), g - j);
    }
  }

  /** Patterns of length g left over by the code set, or -1 when it is
      over-subscribed: the y loop of the source. */
  method Leftover(ghost lens: seq<nat>, c: seq<nat>, j0: nat, g: nat) returns (y: int)
    requires Lengths(lens) && CountsAre(lens, c)
    requires 1 <= j0 <= g <= MAX_BITS && g == MaxLen(lens)
    requires forall k | 1 <= k < j0 :: c[k] == 0
    ensures y < 0 <==> First(lens, g) + Count(lens, g) > Pow2(g)
    ensures y >= 0 ==> y == Pow2(g) - First(lens, g) - Count(lens, g)
  {
    NoShorter(lens, j0);
    var j := j0;
    y := Pow2(j);
    while j < g
      invariant j0 <= j <= g
      invariant y == Pow2(j) - First(lens, j)
    {
      y := y - c[j];
      if y < 0 {
        OverAt(lens, j, g);
        return;
      }
      j := j + 1;
      y := 2 * y;
    }
    y := y - c[g];
  }

  // ---------- symbols in order of code length ----------

  /** sym is the symbol of length k with r symbols of that length before it. */
  predicate ValueAt(lens: seq<nat>, k: nat, r: nat, sym: nat)
  {
    sym < |lens| && lens[sym] == k && CountBelow(lens, sym, k) == r
  }

  /** The first n symbols are in their places. */
  ghost predicate Placed(lens: seq<nat>, n: nat, v: seq<nat>, k: nat, r: nat)
    requires n <= |lens|
  {
    1 <= k <= MAX_BITS && r < CountBelow(lens, n, k) ==>
      Off(lens, k) + r < |v| && ValueAt(lens, k, r, v[Off(lens, k) + r])
  }

  ghost predicate ValuesOK(lens: seq<nat>, n: nat, v: seq<nat>)
    requires n <= |lens|
  {
    forall k: nat, r: nat :: Placed(lens, n, v, k, r)
  }

  ghost predicate OffsetsOK(lens: seq<nat>, g: nat, n: nat, x: seq<nat>)
    requires n <= |lens|
  {
    |x| == MAX_BITS + 1 && g <= MAX_BITS
    && forall k | 1 <= k <= g :: x[k] == Off(lens, k) + CountBelow(lens, n, k)
  }

  /** x[k] = number of symbols with shorter codes. */
  method Offsets(ghost lens: seq<nat>, c: seq<nat>, g: nat) returns (x: seq<nat>)
    requires |c| == MAX_BITS + 1 && 1 <= g <= MAX_BITS
    requires forall k | 1 <= k < g :: c[k] == Count(lens, k)
    ensures OffsetsOK(lens, g, 0, x)
  {
    x := seq(MAX_BITS + 1, i => 0);
    var j, i, xp := 0, g, 2;
    while i > 1
      invariant 1 <= i <= g && xp == 2 + (g - i)
      invariant |x| == MAX_BITS + 1
      invariant j == Off(lens, xp - 1)
      invariant forall k | 1 <= k < xp :: x[k] == Off(lens, k)
    {
      j := j + c[xp - 1];
      x := x[xp := j];
      xp := xp + 1;
      i := i - 1;
    }
  }

  lemma {:induction false} OffTotal(lens: seq<nat>, k: nat)
    requires Lengths(lens)
    ensures k >= 1 ==> Off(lens, k) <= |lens|
    decreases k
  {
    if k >= 1 {
      OffBelow(lens, |lens|, k);
      OffBelowBound(lens, |lens|, k);
    }
  }

  /** Symbols among the first n whose length is between 1 and k - 1. */
  function Shorter(lens: seq<nat>, n: nat, k: nat): nat
    requires n <= |lens|
  {
    if n == 0 then 0 else Shorter(lens, n - 1, k) + (if 1 <= lens[n - 1] < k then 1 else 0)
  }

  lemma {:induction false} OffBelowBound(lens: seq<nat>, n: nat, k: nat)
    requires n <= |lens|
    ensures Shorter(lens, n, k) <= n
  {
    if n > 0 { OffBelowBound(lens, n - 1, k); }
  }

  lemma {:induction false} ShorterStep(lens: seq<nat>, n: nat, k: nat)
    requires n <= |lens| && k >= 1
    ensures Shorter(lens, n, k + 1) == Shorter(lens, n, k) + CountBelow(lens, n, k)
  {
    if n > 0 { ShorterStep(lens, n - 1, k); }
  }

  lemma {:induction false} ShorterNone(lens: seq<nat>, n: nat)
    requires n <= |lens|
    ensures Shorter(lens, n, 1) == 0
  {
    if n > 0 { ShorterNone(lens, n - 1); }
  }

  lemma {:induction false} OffBelow(lens: seq<nat>, n: nat, k: nat)
    requires n == |lens| && k >= 1
    ensures Off(lens, k) == Shorter(lens, n, k)
    decreases k
  {
    if k == 1 {
      ShorterNone(lens, n);
    } else {
      OffBelow(lens, n, k - 1);
      ShorterStep(lens, n, k - 1);
    }
  }

  /** Placing the next symbol disturbs none of those already placed. */
  lemma PlaceNext(lens: seq<nat>, i: nat, v: seq<nat>, v': seq<nat>)
    requires Lengths(lens) && i < |lens| && lens[i] > 0 && |v| >= |lens|
    requires Off(lens, lens[i]) + CountBelow(lens, i, lens[i]) < |v|
    requires v' == v[Off(lens, lens[i]) + CountBelow(lens, i, lens[i]) := i]
    requires ValuesOK(lens, i, v)
    ensures ValuesOK(lens, i + 1, v')
  {
    var len := lens[i];
    var at := Off(lens, len) + CountBelow(lens, i, len);
    var i' := i + 1;
    forall k: nat, r: nat
      ensures Placed(lens, i', v', k, r)
    {
      if 1 <= k <= MAX_BITS && r < CountBelow(lens, i + 1, k) {
        assert Placed(lens, i, v, k, r);
        CountMono(lens, i + 1, |lens|, k);
        CountMono(lens, i, |lens|, len);
        if k < len { OffMono(lens, k, len); }
        if len < k { OffMono(lens, len, k); }
      }
    }
  }

  lemma PlaceRoom(lens: seq<nat>, i: nat)
    requires Lengths(lens) && i < |lens| && lens[i] > 0
    ensures Off(lens, lens[i]) + CountBelow(lens, i, lens[i]) < |lens|
  {
    CountMono(lens, i, |lens|, lens[i]);
    OffTotal(lens, lens[i] + 1);
  }

  /** v[x[j]++] = i over all symbols with a code. */
  method SortValues(lens: seq<nat>, g: nat, x0: seq<nat>, v: array<nat>) returns (n: nat)
    requires Lengths(lens) && 1 <= g == MaxLen(lens) <= MAX_BITS && OffsetsOK(lens, g, 0, x0)
    requires v.Length >= |lens|
    modifies v
    ensures ValuesOK(lens, |lens|, v[..])
    ensures n == Off(lens, g) + Count(lens, g)
  {
    var x, i := x0, 0;
    assert ValuesOK(lens, 0, v[..]);
    while i < |lens|
      invariant i <= |lens| && OffsetsOK(lens, g, i, x)
      invariant ValuesOK(lens, i, v[..])
    {
      var j := lens[i];
      ghost var before := v[..];
      if j != 0 {
        PlaceRoom(lens, i);
        v[x[j]] := i;
        x := x[j := x[j] + 1];
        PlaceNext(lens, i, before, v[..]);
      } else {
        ghost var i' := i + 1;
        forall k: nat, r: nat
          ensures Placed(lens, i', before, k, r)
        {
          assert Placed(lens, i, before, k, r);
        }
      }
      i := i + 1;
    }
    n := x[g];
  }
}
