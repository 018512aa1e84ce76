/** When huft_build's tables are right, and when not: no table level may be
    skipped. It never is for the code sets inflate accepts. */
module HuftLevels {
  import opened Bits
  import opened Huffman
  import opened HuftTables
  import opened HuftInvariant
  import opened HuftSteps

  /** Two table levels reach every code: nothing to skip. */
  lemma ShallowNoSkip(jb: Job)
    requires jb.l >= 1 && jb.g <= 2 * jb.l
    ensures NoSkip(jb)
  {
    forall k: nat, code: nat, w: nat
      ensures !SkipAt(jb, k, code, w)
    {
    }
  }

  /** Number of symbols with a code of length k or more. */
  function Longer(lens: seq<nat>, k: nat, g: nat): nat
    requires k <= g + 1
    decreases g + 1 - k
  {
    if k == g + 1 then 0 else Count(lens, k) + Longer(lens, k + 1, g)
  }

  /** In a complete code set every pattern not yet used at length k needs a symbol. */
  lemma {:induction false} LongerFill(lens: seq<nat>, k: nat, g: nat)
    requires 1 <= k <= g && First(lens, g) + Count(lens, g) == Pow2(g)
    ensures First(lens, k) + Longer(lens, k, g) >= Pow2(k)
    decreases g - k
  {
    if k < g { LongerFill(lens, k + 1, g); }
    else { assert Longer(lens, g + 1, g) == 0; }
  }

  lemma {:induction false} LongerBound(lens: seq<nat>, n: nat, k: nat, g: nat)
    requires k <= g + 1 && n <= |lens|
    ensures LongerBelow(lens, n, k, g) <= n
  {
    if n > 0 { LongerBound(lens, n - 1, k, g); }
  }

  function LongerBelow(lens: seq<nat>, n: nat, k: nat, g: nat): nat
    requires n <= |lens|
  {
    if n == 0 then 0 else LongerBelow(lens, n - 1, k, g) + (if k <= lens[n - 1] <= g then 1 else 0)
  }

  lemma {:induction false} LongerSplit(lens: seq<nat>, n: nat, k: nat, g: nat)
    requires n <= |lens| && k <= g
    ensures LongerBelow(lens, n, k, g) == CountBelow(lens, n, k) + LongerBelow(lens, n, k + 1, g)
  {
    if n > 0 { LongerSplit(lens, n - 1, k, g); }
  }

  lemma {:induction false} LongerIsBelow(lens: seq<nat>, k: nat, g: nat)
    requires k <= g + 1
    ensures Longer(lens, k, g) == LongerBelow(lens, |lens|, k, g)
    decreases g + 1 - k
  {
    if k <= g {
      LongerIsBelow(lens, k + 1, g);
      LongerSplit(lens, |lens|, k, g);
    } else {
      NoneBelow(lens, |lens|, k, g);
    }
  }

  lemma {:induction false} NoneBelow(lens: seq<nat>, n: nat, k: nat, g: nat)
    requires n <= |lens| && k > g
    ensures LongerBelow(lens, n, k, g) == 0
  {
    if n > 0 { NoneBelow(lens, n - 1, k, g); }
  }

  /** A complete code set in which 2^d patterns are unused at length k has at least
      2^d symbols. */
  lemma ManySymbols(lens: seq<nat>, k: nat, g: nat, d: nat, code: nat)
    requires 1 <= k <= g && First(lens, g) + Count(lens, g) == Pow2(g)
    requires d <= k && First(lens, k) <= code && code + Pow2(d) <= Pow2(k)
    ensures |lens| >= Pow2(d)
  {
    LongerFill(lens, k, g);
    LongerIsBelow(lens, k, g);
    LongerBound(lens, |lens|, k, g);
  }

  /** A complete code set of fewer than 2^(l+1) symbols skips no level: behind a
      skipped level there would have to be that many codes. */
  lemma FewNoSkip(jb: Job)
    requires ValidJob(jb) && First(jb.a.lens, jb.g) + Count(jb.a.lens, jb.g) == Pow2(jb.g)
    requires |jb.a.lens| < Pow2(jb.l + 1)
    ensures NoSkip(jb)
  {
    hide First, MaxLen, CountBelow, Kraft, Shl, Shr;
    forall k: nat, code: nat, w: nat
      ensures !SkipAt(jb, k, code, w)
    {
      if SkipAt(jb, k, code, w) {
        var d := k - w;
        CodeBound(jb, k, code);
        Split(code, d);
        ShrBound(code, w, d);
        ShlPlus(Shr(code, d), 1, d);
        ShlShl(1, w, d);
        ShlOrder(Pow2(w), Shr(code, d) + 1, d);
        ManySymbols(jb.a.lens, k, jb.g, d, code);
        Pow2Mono(jb.l + 1, d);
      }
    }
  }

  /** A complete code set of fewer than 2^(m+1) symbols has a code of at most m bits. */
  lemma ShortCode(lens: seq<nat>, g: nat, m: nat, l: nat)
    requires 1 <= l <= g && First(lens, g) + Count(lens, g) == Pow2(g)
    requires forall i | 0 <= i < |lens| && lens[i] > 0 :: lens[i] >= l
    requires |lens| < Pow2(m + 1)
    ensures l <= m
  {
    NoneShorter(lens, l);
    ManySymbols(lens, l, g, l, 0);
    if l > m { Pow2Mono(m + 1, l); }
  }

  // ---------- a complete code set that huft_build gets wrong ----------

  /** One code each of 1 to 6 bits and 128 codes of 13 bits. */
  function SkipLens(): (lens: seq<nat>)
    ensures |lens| == 134 && Lengths(lens)
  {
    [1, 2, 3, 4, 5, 6] + seq(128, i => 13)
  }

  lemma {:induction false} CountTail(n: nat, k: nat)
    requires n <= 128
    ensures CountBelow(SkipLens(), 6 + n, k) ==
            CountBelow(SkipLens(), 6, k) + (if k == 13 then n else 0)
  {
    if n > 0 {
      CountTail(n - 1, k);
      assert SkipLens()[6 + n - 1] == 13;
    }
  }

  lemma CountHead(k: nat)
    ensures CountBelow(SkipLens(), 6, k) == if 1 <= k <= 6 then 1 else 0
  {
    var s := SkipLens();
    assert s[0] == 1 && s[1] == 2 && s[2] == 3 && s[3] == 4 && s[4] == 5 && s[5] == 6;
    assert CountBelow(s, 1, k) == if k == 1 then 1 else 0;
    assert CountBelow(s, 2, k) == if 1 <= k <= 2 then 1 else 0;
    assert CountBelow(s, 3, k) == if 1 <= k <= 3 then 1 else 0;
    assert CountBelow(s, 4, k) == if 1 <= k <= 4 then 1 else 0;
    assert CountBelow(s, 5, k) == if 1 <= k <= 5 then 1 else 0;
  }

  lemma SkipCounts(k: nat)
    ensures Count(SkipLens(), k) == if 1 <= k <= 6 then 1 else if k == 13 then 128 else 0
  {
    CountTail(128, k);
    CountHead(k);
  }

  lemma {:induction false} SkipFirst(k: nat)
    requires 7 <= k <= 13
    ensures First(SkipLens(), k) == Shl(126, k - 7)
    decreases k
  {
    var s := SkipLens();
    if k == 7 {
      SkipCounts(1); SkipCounts(2); SkipCounts(3); SkipCounts(4); SkipCounts(5); SkipCounts(6);
      assert First(s, 2) == 2 && First(s, 3) == 6 && First(s, 4) == 14;
      assert First(s, 5) == 30 && First(s, 6) == 62;
    } else {
      SkipFirst(k - 1);
      SkipCounts(k - 1);
    }
  }

  /** The code set is complete, so huft_build returns Z_OK for it; but with a root
      of six bits, the width inflate asks for distances, a level is skipped. */
  lemma SkipExample(simple: nat, bases: seq<nat>, extras: seq<nat>)
    ensures var s := SkipLens();
            var jb := Job(Alphabet(s, simple, bases, extras), 13, 6);
            MaxLen(s) == 13 && Kraft(s, |s|) == Pow2(MAX_BITS) && !NoSkip(jb)
  {
    var s := SkipLens();
    assert s[6] == 13;
    SkipFirst(13);
    SkipCounts(13);
    assert Shl(126, 6) == 8064;
    assert Pow2(13) == 8192 by { Pow2Values(); }
    KraftCompare(s, 13);
    var jb := Job(Alphabet(s, simple, bases, extras), 13, 6);
    assert Level(6, 6) by { assert Level(6, 0); }
    assert Mask(8064, 7) == 0 by { SplitUnique(63, 7, 0); assert Shl(63, 7) == 8064; Pow2Pos(7); }
    assert SkipAt(jb, 13, 8064, 6);
  }
}
