/** The three table set-ups of inflate: inflate_trees_bits, inflate_trees_dynamic
    and inflate_trees_fixed. */
module InflateTrees {
  import opened Bits
  import opened Huffman
  import opened HuftTables
  import opened HuftInvariant
  import opened HuftBuild
  import opened HuftLevels
  import opened HuftPool
  import opened HuftNeed
  import opened HuftVerdict
  import opened Rfc1951

  function LitAlphabet(ll: seq<nat>): Alphabet { Alphabet(ll, 257, LEN_BASE, LEN_EXTRA) }
  function DistAlphabet(dl: seq<nat>): Alphabet { Alphabet(dl, 0, DIST_BASE, DIST_EXTRA) }
  function BitsAlphabet(cl: seq<nat>): Alphabet { Alphabet(cl, 19, [], []) }

  lemma LitAlphabetValid(ll: seq<nat>)
    requires Lengths(ll) && 0 < |ll| <= 288
    ensures ValidAlphabet(LitAlphabet(ll)) && LitAlphabet(ll).lens == ll
  {
  }

  lemma DistAlphabetValid(dl: seq<nat>)
    requires Lengths(dl) && 0 < |dl| <= 30
    ensures ValidAlphabet(DistAlphabet(dl)) && DistAlphabet(dl).lens == dl
  {
  }

  /** Right tables whose root, and so every table, has at most m index bits. */
  ghost predicate Tree(a: Alphabet, m: nat, l: nat, tabs: seq<Tab>, root: nat, pool: seq<Huft>)
  {
    TreeOK(a, l, tabs, root, pool) && l <= m
  }

  /** Entries added behind a tree do not change it. */
  lemma TreeGrow(a: Alphabet, l: nat, tabs: seq<Tab>, root: nat, pool: seq<Huft>, pool': seq<Huft>)
    requires TreeOK(a, l, tabs, root, pool) && pool <= pool'
    ensures TreeOK(a, l, tabs, root, pool')
  {
    hide MaxLen, Shl, First, CountBelow;
    var g := MaxLen(a.lens);
    forall i | 0 <= i < |tabs|
      ensures TabRange(g, l, tabs[i], |pool'|)
    {
      assert TabRange(g, l, tabs[i], |pool|);
    }
    forall i, j | 0 <= i < |tabs| && 0 <= j < Pow2(tabs[i].z)
      ensures CellAt(a, g, l, tabs, i, j, pool')
    {
      assert CellAt(a, g, l, tabs, i, j, pool);
    }
  }

  lemma BelowPrefix(n: nat, pool: seq<Huft>, pool': seq<Huft>, k: nat)
    requires Below(n, pool, pool') && n <= k <= |pool'|
    ensures pool[..n] <= pool'[..k]
  {
  }

  /** For the code sets inflate uses no table level is skipped and the root is not
      wider than asked for. */
  lemma UsableNoSkip(a: Alphabet, m: nat, l: nat)
    requires ValidAlphabet(a) && 1 <= m && 1 <= l && ClampedWidth(a.lens, m, l)
    requires Usable(a.lens) && |a.lens| < Pow2(m + 1)
    ensures NoSkip(Job(a, MaxLen(a.lens), l)) && l <= m
  {
    hide Shl, First, CountBelow, MaxLen, Kraft;
    var g := MaxLen(a.lens);
    var jb := Job(a, g, l);
    KraftCompare(a.lens, g);
    if g <= 2 * l {
      ShallowNoSkip(jb);
    } else {
      Pow2Mono(m + 1, l + 1);
      FewNoSkip(jb);
    }
    if l > m {
      ShortCode(a.lens, g, m, l);
    }
  }

  lemma ZeroNotUsable(lens: seq<nat>)
    requires Lengths(lens) && AllZero(lens)
    ensures !Usable(lens) && MaxLen(lens) == 0
  {
    hide MaxLen, Shl;
    NoKraft(lens, |lens|);
    Pow2Pos(MAX_BITS);
  }

  /** The code length code: accepted exactly when it is usable. A single table. */
  method InflateTreesBits(cl: seq<nat>, hp: array<Huft>)
    returns (r: int, bb: nat, tb: nat, ghost tabs: seq<Tab>)
    requires |cl| == 19 && Lengths(cl) && MaxLen(cl) <= 7 && hp.Length == MANY
    modifies hp
    ensures r == (if Usable(cl) then Z_OK else Z_DATA_ERROR)
    ensures r == Z_OK ==> Tree(BitsAlphabet(cl), 7, bb, tabs, tb, hp[..]) && bb == MaxLen(cl)
  {
    hide Shl, First, CountBelow, MaxLen, Kraft, TooMany, Needed, ValidJob, Layout, Total, ClampedWidth;
    var v := new nat[19];
    var a := BitsAlphabet(cl);
    Pow2Values();
    var hn;
    r, tb, bb, hn, tabs := Build(a, 7, hp, 0, v);
    if AllZero(cl) { ZeroNotUsable(cl); } else { SingleFits(a, 7, bb, MANY); }
    if r == Z_BUF_ERROR || bb == 0 {
      r := Z_DATA_ERROR;
    } else if r == Z_OK {
      ShallowNoSkip(Job(a, MaxLen(cl), bb));
      TreeGrow(a, bb, tabs, tb, hp[..hn], hp[..]);
    }
  }

  /** A code set that is not rejected outright and needs more entries than that. */
  ghost predicate Overflows(a: Alphabet, l: nat, room: int)
    requires Lengths(a.lens)
  {
    l >= 1 && !AllZero(a.lens) && Kraft(a.lens, |a.lens|) <= Pow2(MAX_BITS) && Needed(Job(a, MaxLen(a.lens), l)) > room
  }

  /** The first tables do not fit, or they do and the second ones do not fit behind them. */
  ghost predicate NoMemory(ll: seq<nat>, dl: seq<nat>, bl: nat, bd: nat)
    requires Lengths(ll) && Lengths(dl)
  {
    || Overflows(LitAlphabet(ll), bl, MANY)
    || (bl >= 1 && Usable(ll)
        && Overflows(DistAlphabet(dl), bd, MANY - Needed(Job(LitAlphabet(ll), MaxLen(ll), bl))))
  }

  /** Literal/length and distance tables in one pool, the second behind the first. They
      always fit for code sets that can be used. */
  method InflateTreesDynamic(nl: nat, nd: nat, c: seq<nat>, hp: array<Huft>)
    returns (r: int, bl: nat, bd: nat, tl: nat, td: nat, ghost lts: seq<Tab>, ghost dts: seq<Tab>)
    requires 257 <= nl <= 286 && 1 <= nd <= 30 && |c| == nl + nd && Lengths(c) && hp.Length == MANY
    modifies hp
    ensures r == Z_OK <==> GoodTrees(c[..nl], c[nl..]) && !EmptyDistances(c[..nl], c[nl..])
    ensures r in {Z_OK, Z_DATA_ERROR, Z_MEM_ERROR}
    ensures r == Z_MEM_ERROR ==> !GoodTrees(c[..nl], c[nl..])
    ensures !AllZero(c[..nl]) ==> ClampedWidth(c[..nl], 9, bl)
    ensures Usable(c[..nl]) && !AllZero(c[nl..]) && !Overflows(LitAlphabet(c[..nl]), bl, MANY)
            ==> ClampedWidth(c[nl..], 6, bd)
    ensures r == Z_MEM_ERROR <==> NoMemory(c[..nl], c[nl..], bl, bd)
    ensures r == Z_OK ==> Tree(LitAlphabet(c[..nl]), 9, bl, lts, tl, hp[..])
    ensures r == Z_OK && Usable(c[nl..]) ==> Tree(DistAlphabet(c[nl..]), 6, bd, dts, td, hp[..])
  {
    hide Shl, First, CountBelow, MaxLen, Kraft, TreeOK, NoSkip, ValidAlphabet, LitAlphabet, DistAlphabet, TooMany,
         Needed, Layout, Total, ValidJob, ClampedWidth;
    var ll, dl := c[..nl], c[nl..];
    LitAlphabetValid(ll);
    DistAlphabetValid(dl);
    bd, td, dts := 0, 0, [];
    var v := new nat[288];
    var hn;
    r, tl, bl, hn, lts := Build(LitAlphabet(ll), 9, hp, 0, v);
    if AllZero(ll) { ZeroNotUsable(ll); }
    if Usable(ll) { LitTree(ll, bl); }
    if r != Z_OK || bl == 0 {
      if r != Z_DATA_ERROR && r != Z_MEM_ERROR { r := Z_DATA_ERROR; }
      return;
    }
    LitTakes(ll, bl, lts);
    ghost var before := hp[..];
    var hn';
    r, td, bd, hn', dts := Build(DistAlphabet(dl), 6, hp, hn, v);
    if AllZero(dl) { ZeroNotUsable(dl); } else { NotAllZero(dl); }
    if Usable(dl) { DistTree(dl, bd, MANY - hn); }
    if r != Z_OK || (bd == 0 && nl > 257) {
      if r != Z_DATA_ERROR && r != Z_MEM_ERROR { r := Z_DATA_ERROR; }
      return;
    }
    BelowPrefix(hn, before, hp[..], |hp[..]|);
    TreeGrow(LitAlphabet(ll), bl, lts, tl, before[..hn], hp[..]);
    if !AllZero(dl) {
      TreeGrow(DistAlphabet(dl), bd, dts, td, hp[..hn'], hp[..]);
    }
  }

  lemma NotAllZero(lens: seq<nat>)
    requires !AllZero(lens)
    ensures MaxLen(lens) > 0
  {
  }

  lemma LitTree(ll: seq<nat>, l: nat)
    requires Lengths(ll) && 257 <= |ll| <= 286 && Usable(ll) && 1 <= l && ClampedWidth(ll, 9, l)
    ensures var jb := Job(LitAlphabet(ll), MaxLen(ll), l);
            NoSkip(jb) && l <= 9 && !(ValidJob(jb) && TooMany(jb, MANY))
  {
    hide ValidAlphabet, LitAlphabet, Kraft, MaxLen, NoSkip, Shl, ClampedWidth, Usable, Layout, Total, ValidJob;
    LitAlphabetValid(ll);
    assert Pow2(10) == 1024 by { Pow2Values(); TenBits(); }
    UsableNoSkip(LitAlphabet(ll), 9, l);
    var jb := Job(LitAlphabet(ll), MaxLen(ll), l);
    forall tabs: seq<Tab> | ValidJob(jb) && Layout(jb, tabs)
      ensures Total(tabs, |tabs|) <= 926
    {
      LitTakes(ll, l, tabs);
    }
  }

  lemma Width(lens: seq<nat>, m: nat, l: nat)
    requires ClampedWidth(lens, m, l) && l <= m
    ensures l == m || l == MaxLen(lens)
  {
  }

  lemma LitTakes(ll: seq<nat>, l: nat, tabs: seq<Tab>)
    requires Lengths(ll) && 257 <= |ll| <= 286 && Usable(ll) && 1 <= l <= 9 && ClampedWidth(ll, 9, l)
    requires var jb := Job(LitAlphabet(ll), MaxLen(ll), l); ValidJob(jb) && Layout(jb, tabs)
    ensures Total(tabs, |tabs|) <= 926
  {
    hide ValidAlphabet, LitAlphabet, Kraft, MaxLen, NoSkip, Shl, ClampedWidth, Usable, Layout, Total, ValidJob;
    LitAlphabetValid(ll);
    Width(ll, 9, l);
    LitRoom(Job(LitAlphabet(ll), MaxLen(ll), l), tabs);
  }

  lemma TenBits()
    ensures Pow2(10) == 1024
  {
  }

  lemma DistTree(dl: seq<nat>, l: nat, room: int)
    requires Lengths(dl) && 1 <= |dl| <= 30 && Usable(dl) && 1 <= l && ClampedWidth(dl, 6, l)
    requires room >= MANY - 926
    ensures var jb := Job(DistAlphabet(dl), MaxLen(dl), l);
            NoSkip(jb) && l <= 6 && !(ValidJob(jb) && TooMany(jb, room))
  {
    hide ValidAlphabet, DistAlphabet, Kraft, MaxLen, NoSkip, Shl, ClampedWidth, Usable, Layout, Total, ValidJob;
    DistAlphabetValid(dl);
    Pow2Values();
    UsableNoSkip(DistAlphabet(dl), 6, l);
    Width(dl, 6, l);
    var jb := Job(DistAlphabet(dl), MaxLen(dl), l);
    forall tabs: seq<Tab> | ValidJob(jb) && Layout(jb, tabs)
      ensures Total(tabs, |tabs|) <= 328
    {
      DistRoom(jb, tabs);
    }
  }

  // ---------- the fixed codes ----------

  lemma {:induction false} KraftRun(lens: seq<nat>, i: nat, n: nat, v: nat, q: nat)
    requires Lengths(lens) && i + n <= |lens| && v > 0
    requires forall x | i <= x < i + n :: lens[x] == v
    requires v <= MAX_BITS && q == Pow2(MAX_BITS - v)
    ensures Kraft(lens, i + n) == Kraft(lens, i) + n * q
    decreases n
  {
    hide Shl;
    if n > 0 {
      KraftRun(lens, i, n - 1, v, q);
      assert i + n - 1 == i + (n - 1);
    }
  }

  lemma FixedLitCode()
    ensures MaxLen(FixedLit()) == 9 && Kraft(FixedLit(), 288) == Pow2(MAX_BITS)
  {
    hide MaxLen, Kraft;
    var s := FixedLit();
    Pow2Values();
    KraftRun(s, 0, 144, 8, 128);
    KraftRun(s, 144, 112, 9, 64);
    KraftRun(s, 256, 24, 7, 256);
    KraftRun(s, 280, 8, 8, 128);
    KraftNone(s);
    assert s[144] == 9;
  }

  lemma FixedDistCode()
    ensures MaxLen(FixedDist()) == 5 && Kraft(FixedDist(), 30) < Pow2(MAX_BITS)
  {
    hide MaxLen, Kraft;
    var s := FixedDist();
    Pow2Values();
    assert Pow2(10) == 1024;
    KraftRun(s, 0, 30, 5, 1024);
    KraftNone(s);
    assert s[0] == 5;
  }

  lemma KraftNone(s: seq<nat>)
    requires Lengths(s)
    ensures Kraft(s, 0) == 0
  {
  }

  lemma FixedNotZero()
    ensures !AllZero(FixedLit()) && !AllZero(FixedDist())
  {
    assert FixedLit()[0] == 8;
    assert FixedDist()[0] == 5;
  }

  /** The tables for the fixed codes, each in a pool of its own: nine and five index
      bits, no sub-tables. */
  method InflateTreesFixed()
    returns (tl: seq<Huft>, td: seq<Huft>, ghost lts: seq<Tab>, ghost dts: seq<Tab>)
    ensures Tree(LitAlphabet(FixedLit()), 9, 9, lts, 0, tl)
    ensures Tree(DistAlphabet(FixedDist()), 5, 5, dts, 0, td)
  {
    hide Shl, First, CountBelow, MaxLen, Kraft, NoSkip, ValidAlphabet, LitAlphabet, DistAlphabet, FixedLit, FixedDist,
         TooMany, Needed, ValidJob, Layout, Total, ClampedWidth;
    LitAlphabetValid(FixedLit());
    DistAlphabetValid(FixedDist());
    var hp := new Huft[MANY](i => Huft(0, 0, 0));
    var v := new nat[288];
    Pow2Values();
    FixedLitCode();
    FixedDistCode();
    FixedNotZero();
    var r, root, l, hn;
    r, root, l, hn, lts := Build(LitAlphabet(FixedLit()), 9, hp, 0, v);
    SingleFits(LitAlphabet(FixedLit()), 9, l, MANY);
    ShallowNoSkip(Job(LitAlphabet(FixedLit()), 9, l));
    tl := hp[..hn];
    r, root, l, hn, dts := Build(DistAlphabet(FixedDist()), 5, hp, 0, v);
    SingleFits(DistAlphabet(FixedDist()), 5, l, MANY);
    ShallowNoSkip(Job(DistAlphabet(FixedDist()), 5, l));
    td := hp[..hn];
  }
}
