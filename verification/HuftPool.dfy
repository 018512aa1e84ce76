/** How much of the table pool huft_build takes. Behind each table stand codes of its
    own, but for one table of each width at each level; so a complete code set of few
    symbols needs few entries. */
module HuftPool {
  import opened Bits
  import opened Huffman
  import opened HuftTables
  import opened HuftInvariant
  import opened HuftSteps
  import opened HuftLevels

  // ---------- which tables open ----------

  /** What the choice of a table's width makes true of the patterns of t.w + t.z bits
      below it: they all are codes, or the first code of that length is one of them, or,
      in a table that is as wide as may be, the codes of that length end among them. */
  ghost predicate Sized(jb: Job, t: Tab)
  {
    var d := t.w + t.z;
    var lo, hi := Shl(t.pre, t.z), Shl(t.pre + 1, t.z);
    || (First(jb.a.lens, d) <= lo && hi <= End(jb, d))
    || lo < First(jb.a.lens, d) < hi
    || (t.z >= jb.l && lo < End(jb, d) < hi)
  }

  ghost predicate SubTab(jb: Job, t: Tab)
    requires jb.l >= 1
  {
    0 < t.w && Level(jb.l, t.w) && 1 <= t.z && t.w + t.z <= jb.g && Sized(jb, t) && Chosen(jb, t.w, t.pre, t.z)
  }

  /** No table below the root has more than z index bits. */
  predicate Upto(tabs: seq<Tab>, z: nat)
  {
    forall i | 0 < i < |tabs| :: tabs[i].z <= z
  }

  /** The tables in the order in which they open: the root, and below it, at each level,
      tables for larger and larger prefixes, none wider than the root if no level is
      skipped. */
  ghost predicate Layout(jb: Job, tabs: seq<Tab>)
    requires jb.l >= 1
  {
    && (|tabs| > 0 ==> tabs[0].w == 0 && tabs[0].z == jb.l)
    && (forall i | 0 < i < |tabs| :: SubTab(jb, tabs[i]))
    && (forall i, j | 0 <= i < j < |tabs| && tabs[i].w == tabs[j].w :: tabs[i].pre < tabs[j].pre)
    && (NoSkip(jb) ==> Upto(tabs, jb.l))
  }

  /** Pool entries of the first n tables. */
  function Total(tabs: seq<Tab>, n: nat): nat
    requires n <= |tabs|
  {
    if n == 0 then 0 else Total(tabs, n - 1) + Pow2(tabs[n - 1].z)
  }

  /** The tables do not fit in so many entries. */
  ghost predicate TooMany(jb: Job, room: int)
    requires jb.l >= 1
  {
    exists tabs: seq<Tab> :: Layout(jb, tabs) && Total(tabs, |tabs|) > room
  }

  /** The width that was chosen is the first one that the codes fill. */
  predicate Narrowest(jb: Job, k: nat, w: nat, pre: nat, z: nat)
  {
    && w < k <= w + z
    && (w + z == k || (z <= jb.l && Shl(pre + 1, z - 1) > End(jb, w + z - 1)))
  }

  /** A code of k bits begins the block of the w-bit prefix p. */
  predicate Begins(jb: Job, w: nat, p: nat, k: nat)
  {
    w < k <= jb.g && IsCode(jb, k, Shl(p, k - w))
  }

  /** The table is the one that the first code with its prefix opens. */
  ghost predicate Chosen(jb: Job, w: nat, p: nat, z: nat)
  {
    exists k: nat :: Begins(jb, w, p, k) && Narrowest(jb, k, w, p, z) && Fits(jb, Tab(0, w, p, z))
  }

  lemma SizedNew(jb: Job, k: nat, code: nat, t: Tab)
    requires ValidJob(jb) && IsCode(jb, k, code) && t.w < k && Mask(code, k - t.w) == 0
    requires t.pre == Shr(code, k - t.w) && t.w + t.z <= jb.g && Fits(jb, t) && Narrowest(jb, k, t.w, t.pre, t.z)
    ensures Sized(jb, t)
  {
    hide Shl, Shr, Mask, First, MaxLen, CountBelow, End;
    var d, lens := t.w + t.z, jb.a.lens;
    Split(code, k - t.w);
    ShlPlus(t.pre, 1, t.z);
    Pow2Pos(t.z);
    if d == k {
      assert Shl(t.pre, t.z) == code;
    } else {
      var more := d - k;
      ShlShl(t.pre, k - t.w, more);
      assert k - t.w + more == t.z;
      LaterFirst(jb, k, code, d);
      FirstDoubles(jb, d - 1);
      assert Shl(t.pre + 1, t.z) == 2 * Shl(t.pre + 1, t.z - 1) by { ShlOne(t.pre + 1, t.z); }
    }
  }

  lemma ChosenNew(jb: Job, k: nat, code: nat, t: Tab)
    requires ValidJob(jb) && IsCode(jb, k, code) && t.w < k && Mask(code, k - t.w) == 0
    requires t.pre == Shr(code, k - t.w) && Fits(jb, t) && Narrowest(jb, k, t.w, t.pre, t.z)
    ensures Chosen(jb, t.w, t.pre, t.z)
  {
    hide Shl, Shr, Mask, First, MaxLen, CountBelow;
    Split(code, k - t.w);
    assert Begins(jb, t.w, t.pre, k);
  }

  lemma ShlOne(v: nat, d: nat)
    requires d > 0
    ensures Shl(v, d) == 2 * Shl(v, d - 1)
  {
  }

  lemma FirstDoubles(jb: Job, k: nat)
    requires 1 <= k < jb.g
    ensures First(jb.a.lens, k + 1) == 2 * End(jb, k)
  {
  }

  /** Longer codes begin behind a code. */
  lemma LaterFirst(jb: Job, k: nat, code: nat, d: nat)
    requires ValidJob(jb) && IsCode(jb, k, code) && k < d <= jb.g
    ensures Shl(code, d - k) < First(jb.a.lens, d)
  {
    hide Shl, First, MaxLen, CountBelow;
    EndBefore(jb, k, d);
    AtRefine(jb.g, code, k, d - k);
    assert k + (d - k) == d;
    AtOrder(jb.g, code, End(jb, k), k);
    AtOrder(jb.g, Shl(code, d - k), First(jb.a.lens, d), d);
  }

  /** The open tables above the top one are at lower levels. */
  lemma {:induction false} StackBelow(jb: Job, k: nat, code: nat, sk: Stack, t: nat, h: nat)
    requires ValidJob(jb) && StackOK(jb, k, code, sk) && t <= h <= sk.h
    ensures sk.tabs[sk.st[t]].w <= sk.tabs[sk.st[h]].w
    decreases h - t
  {
    if t < h {
      assert OnStack(jb, k, code, sk, t);
      StackBelow(jb, k, code, sk, t + 1, h);
    }
  }

  /** Tables at the level of a new one have smaller prefixes. */
  lemma LaterPrefix(jb: Job, k: nat, code: nat, sk: Stack, hn: nat, pool: seq<Huft>, i: nat)
    requires Inv(jb, k, code, sk, hn, pool) && IsCode(jb, k, code) && Depth(jb, sk) < k
    requires i < |sk.tabs| && sk.tabs[i].w == Depth(jb, sk)
    ensures sk.tabs[i].pre < Shr(code, k - Depth(jb, sk))
  {
    hide Shl, Shr, Mask, Rev, First, MaxLen, CountBelow, Used, Links, CellsDone, TabsOK, Fits;
    var w := Depth(jb, sk);
    if i in sk.st {
      var t :| 0 <= t < |sk.st| && sk.st[t] == i;
      StackBelow(jb, k, code, sk, t, sk.h);
      assert false;
    }
    assert ClosedAt(jb, k, code, sk, i);
    AtPrefix(jb.g, code, w, k - w);
    assert w + (k - w) == k;
    AtOrder(jb.g, sk.tabs[i].pre, Shr(code, k - w), w);
    AtOrder(jb.g, Shr(code, k - w) + 1, sk.tabs[i].pre + 1, w);
    AtOrder(jb.g, sk.tabs[i].pre + 1, Shr(code, k - w) + 1, w);
  }

  lemma LayoutOpen(jb: Job, k: nat, code: nat, sk: Stack, hn: nat, z: nat, pool: seq<Huft>)
    requires Inv(jb, k, code, sk, hn, pool) && IsCode(jb, k, code) && Depth(jb, sk) < k
    requires 1 <= z && Depth(jb, sk) + z <= jb.g && Fits(jb, NewTab(jb, k, code, sk, hn, z))
    requires var nt := NewTab(jb, k, code, sk, hn, z); Narrowest(jb, k, nt.w, nt.pre, z)
    requires Layout(jb, sk.tabs) && (sk.h < 0 ==> z == jb.l) && (NoSkip(jb) ==> z <= jb.l)
    ensures Layout(jb, sk.tabs + [NewTab(jb, k, code, sk, hn, z)])
  {
    hide Shl, Shr, Mask, Rev, First, MaxLen, CountBelow, Used, Links, CellsDone, TabsOK, Fits, Narrowest, Sized, Level,
         Chosen;
    var nt := NewTab(jb, k, code, sk, hn, z);
    var tabs := sk.tabs + [nt];
    CodeBound(jb, k, code);
    if sk.h < 0 {
      NoTables(jb, k, code, sk, hn, pool);
    } else {
      DepthLevel(jb, k, code, sk);
      SizedNew(jb, k, code, nt);
      ChosenNew(jb, k, code, nt);
    }
    forall i, j | 0 <= i < j < |tabs| && tabs[i].w == tabs[j].w
      ensures tabs[i].pre < tabs[j].pre
    {
      if j == |sk.tabs| { LaterPrefix(jb, k, code, sk, hn, pool, i); }
    }
  }

  lemma {:induction false} TotalMore(tabs: seq<Tab>, more: seq<Tab>, n: nat)
    requires n <= |tabs|
    ensures Total(tabs + more, n) == Total(tabs, n)
  {
    if n > 0 { TotalMore(tabs, more, n - 1); }
  }

  lemma NoTotal()
    ensures Total([], 0) == 0
  {
  }

  lemma TotalOpen(tabs: seq<Tab>, nt: Tab)
    ensures Total(tabs + [nt], |tabs| + 1) == Total(tabs, |tabs|) + Pow2(nt.z)
  {
    TotalMore(tabs, [nt], |tabs|);
  }

  // ---------- how many there are ----------

  /** Entries of those of the first n tables that are w bits deep and z bits wide. */
  function Use(tabs: seq<Tab>, n: nat, w: nat, z: nat): nat
    requires n <= |tabs|
  {
    if n == 0 then 0
    else Use(tabs, n - 1, w, z) + (if tabs[n - 1].w == w && tabs[n - 1].z == z then Pow2(z) else 0)
  }

  /** Most that tables for prefixes below p can take: one that holds the first code, one
      that holds the end, and for the others a code of their own for each entry. */
  function Most(f: int, e: int, s: int, size: nat, last: bool): int
  {
    (if f < s then size else 0) + (if last && e < s then size else 0)
    + (if s <= f then 0 else if s <= e then s - f else e - f)
  }

  lemma {:induction false} UseBelow(jb: Job, tabs: seq<Tab>, n: nat, w: nat, z: nat, p: nat)
    requires ValidJob(jb) && Layout(jb, tabs) && n <= |tabs| && w > 0 && w + z <= jb.g
    requires forall i | 0 <= i < n && tabs[i].w == w && tabs[i].z == z :: tabs[i].pre < p
    requires First(jb.a.lens, w + z) <= End(jb, w + z)
    ensures Use(tabs, n, w, z) <= Most(First(jb.a.lens, w + z), End(jb, w + z), Shl(p, z), Pow2(z), z >= jb.l)
  {
    hide Shl, First, MaxLen, CountBelow, End, Level;
    if n > 0 {
      var t := tabs[n - 1];
      if t.w == w && t.z == z {
        UseBelow(jb, tabs, n - 1, w, z, t.pre);
        assert SubTab(jb, t);
        ShlPlus(t.pre, 1, z);
        ShlOrder(p, t.pre + 1, z);
      } else {
        UseBelow(jb, tabs, n - 1, w, z, p);
      }
    }
  }

  /** Codes of one length, dummies included. */
  function Codes(jb: Job, k: nat): int
  {
    End(jb, k) - First(jb.a.lens, k)
  }

  lemma FirstEnd(jb: Job, k: nat)
    requires ValidJob(jb) && 1 <= k <= jb.g
    ensures First(jb.a.lens, k) <= End(jb, k)
  {
  }

  lemma UseBound(jb: Job, tabs: seq<Tab>, n: nat, w: nat, z: nat)
    requires ValidJob(jb) && Layout(jb, tabs) && n <= |tabs| && w > 0 && w + z <= jb.g
    ensures Use(tabs, n, w, z) <= Pow2(z) + (if z >= jb.l then Pow2(z) else 0) + Codes(jb, w + z)
  {
    hide Shl, First, MaxLen, CountBelow, End, Level, Sized;
    FirstEnd(jb, w + z);
    var p := AllBelow(tabs, n);
    UseBelow(jb, tabs, n, w, z, p);
  }

  lemma {:induction false} AllBelow(tabs: seq<Tab>, n: nat) returns (p: nat)
    requires n <= |tabs|
    ensures forall i | 0 <= i < n :: tabs[i].pre < p
  {
    if n == 0 {
      p := 0;
    } else {
      p := AllBelow(tabs, n - 1);
      if p <= tabs[n - 1].pre { p := tabs[n - 1].pre + 1; }
    }
  }

  /** Entries of the tables w bits deep, at most z bits wide. */
  function LevelUse(tabs: seq<Tab>, n: nat, w: nat, z: nat): nat
    requires n <= |tabs|
  {
    if z == 0 then 0 else LevelUse(tabs, n, w, z - 1) + Use(tabs, n, w, z)
  }

  lemma {:induction false} LevelUseStep(tabs: seq<Tab>, n: nat, w: nat, z: nat)
    requires 0 < n <= |tabs|
    ensures LevelUse(tabs, n, w, z)
            == LevelUse(tabs, n - 1, w, z) + (if tabs[n - 1].w == w && 1 <= tabs[n - 1].z <= z then Pow2(tabs[n - 1].z)
                                              else 0)
  {
    hide Shl;
    if z > 0 { LevelUseStep(tabs, n, w, z - 1); }
  }

  lemma {:induction false} LevelUseNone(tabs: seq<Tab>, w: nat, z: nat)
    ensures LevelUse(tabs, 0, w, z) == 0
  {
    if z > 0 { LevelUseNone(tabs, w, z - 1); }
  }

  /** 2 + 4 + ... + 2^z, with those from 2^l on twice. */
  function Spare(l: nat, z: nat): nat
  {
    if z == 0 then 0 else Spare(l, z - 1) + Pow2(z) + (if z >= l then Pow2(z) else 0)
  }

  lemma {:induction false} SpareMono(l: nat, y: nat, z: nat)
    requires y <= z
    ensures Spare(l, y) <= Spare(l, z)
  {
    if y < z { SpareMono(l, y, z - 1); }
  }

  predicate Complete(jb: Job)
  {
    First(jb.a.lens, jb.g) + Count(jb.a.lens, jb.g) == Pow2(jb.g)
  }

  /** In a complete code set the tables of one level need at most one entry for each
      code that reaches into them, and the spare ones. */
  lemma {:induction false} LevelBound(jb: Job, tabs: seq<Tab>, w: nat, z: nat)
    requires ValidJob(jb) && Layout(jb, tabs) && Complete(jb) && w > 0 && w + z <= jb.g
    ensures LevelUse(tabs, |tabs|, w, z) + Longer(jb.a.lens, w + z + 1, jb.g)
            <= Spare(jb.l, z) + Longer(jb.a.lens, w + 1, jb.g)
  {
    hide Shl, First, MaxLen, CountBelow, Level, Sized, Layout;
    if z > 0 {
      LevelBound(jb, tabs, w, z - 1);
      UseBound(jb, tabs, |tabs|, w, z);
      CodesCount(jb, w + z);
      assert w + (z - 1) + 1 == w + z;
    }
  }

  lemma CodesCount(jb: Job, k: nat)
    requires Complete(jb) && 1 <= k <= jb.g
    ensures Codes(jb, k) == Count(jb.a.lens, k)
  {
  }

  lemma LevelAtMost(jb: Job, tabs: seq<Tab>, w: nat, z: nat)
    requires ValidJob(jb) && Layout(jb, tabs) && Complete(jb) && w > 0 && w + z <= jb.g
    ensures LevelUse(tabs, |tabs|, w, z) <= Spare(jb.l, z) + |jb.a.lens|
  {
    hide Shl, First, MaxLen, CountBelow, Layout, Longer;
    LevelBound(jb, tabs, w, z);
    LongerIsBelow(jb.a.lens, w + 1, jb.g);
    LongerBound(jb.a.lens, |jb.a.lens|, w + 1, jb.g);
  }

  /** At most z index bits, as far as the longest code reaches. */
  function Reach(jb: Job, w: nat, z: nat): nat
  {
    if jb.g <= w then 0 else if jb.g - w < z then jb.g - w else z
  }

  lemma LevelsOf(l: nat, w: nat)
    requires l >= 1 && Level(l, w)
    ensures w == 0 || w == l || w == 2 * l || w >= 3 * l
  {
    if w >= l && w - l >= l && w - l - l >= l { assert w >= 3 * l; }
  }

  /** With codes of at most 3 l bits, tables stand at two levels below the root. */
  lemma {:induction false} TotalByLevel(jb: Job, tabs: seq<Tab>, n: nat, z: nat)
    requires ValidJob(jb) && Layout(jb, tabs) && n <= |tabs| && jb.g <= 3 * jb.l && Upto(tabs, z)
    ensures Total(tabs, n) <= Pow2(jb.l) + LevelUse(tabs, n, jb.l, Reach(jb, jb.l, z))
                              + LevelUse(tabs, n, 2 * jb.l, Reach(jb, 2 * jb.l, z))
  {
    hide Shl, First, MaxLen, CountBelow, Level, Sized, LevelUse;
    if n > 0 {
      TotalByLevel(jb, tabs, n - 1, z);
      var t := tabs[n - 1];
      LevelUseStep(tabs, n, jb.l, Reach(jb, jb.l, z));
      LevelUseStep(tabs, n, 2 * jb.l, Reach(jb, 2 * jb.l, z));
      if n == 1 {
        LevelUseNone(tabs, jb.l, Reach(jb, jb.l, z));
        LevelUseNone(tabs, 2 * jb.l, Reach(jb, 2 * jb.l, z));
        assert Total(tabs, 0) == 0;
      } else {
        assert SubTab(jb, t);
        LevelsOf(jb.l, t.w);
      }
    }
  }

  function Lesser(x: nat, y: nat): nat { if x < y then x else y }

  /** What a complete code set needs at most, with tables of at most z bits. */
  function Need(l: nat, z: nat, symbols: nat, g: nat): nat
  {
    Pow2(l) + (if g <= l then 0 else Spare(l, Lesser(z, g - l)) + symbols)
    + (if g <= 2 * l then 0 else Spare(l, Lesser(z, g - 2 * l)) + symbols)
  }

  lemma TotalBound(jb: Job, tabs: seq<Tab>, z: nat)
    requires ValidJob(jb) && Layout(jb, tabs) && Complete(jb) && jb.g <= 3 * jb.l && Upto(tabs, z)
    ensures Total(tabs, |tabs|) <= Need(jb.l, z, |jb.a.lens|, jb.g)
  {
    hide Shl, First, MaxLen, CountBelow, Layout, Spare, Complete, Total, Upto;
    TotalByLevel(jb, tabs, |tabs|, z);
    if jb.g > jb.l { LevelAtMost(jb, tabs, jb.l, Lesser(z, jb.g - jb.l)); }
    if jb.g > 2 * jb.l { LevelAtMost(jb, tabs, 2 * jb.l, Lesser(z, jb.g - 2 * jb.l)); }
  }

  /** A single table, however many codes are missing. */
  lemma SingleTotal(jb: Job, tabs: seq<Tab>)
    requires ValidJob(jb) && Layout(jb, tabs) && jb.l == jb.g
    ensures Total(tabs, |tabs|) <= Pow2(jb.g)
  {
    hide Shl, First, MaxLen, CountBelow, Sized, Total;
    assert forall i | 0 < i < |tabs| :: SubTab(jb, tabs[i]);
    TotalByLevel(jb, tabs, |tabs|, jb.g);
  }
}
