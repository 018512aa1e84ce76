/** Exactly how many entries the tables of a code set take: at each level below the root,
    the table of every prefix at which a longer code begins. */
module HuftNeed {
  import opened Bits
  import opened Huffman
  import opened HuftTables
  import opened HuftInvariant
  import opened HuftSteps
  import opened HuftGaps
  import opened HuftPool

  // ---------- the width of a table is determined ----------

  /** Once the codes fill a table, they fill every wider one. */
  lemma {:induction false} FillsOn(jb: Job, w: nat, p: nat, y: nat, z: nat)
    requires ValidJob(jb) && 1 <= w + y && y <= z && w + z <= jb.g
    requires Shl(p + 1, y) <= End(jb, w + y)
    ensures Shl(p + 1, z) <= End(jb, w + z)
    decreases z
  {
    hide Shl, First, MaxLen, CountBelow;
    if y < z {
      FillsOn(jb, w, p, y, z - 1);
      FirstDoubles(jb, w + z - 1);
      FirstEnd(jb, w + z);
      ShlOne(p + 1, z);
    }
  }

  /** Only one code begins a block. */
  lemma BeginsOnce(jb: Job, w: nat, p: nat, j: nat, k: nat)
    requires ValidJob(jb) && Begins(jb, w, p, j) && Begins(jb, w, p, k)
    ensures j == k
  {
    hide Shl, First, MaxLen, CountBelow, End;
    AtRefine(jb.g, p, w, j - w);
    AtRefine(jb.g, p, w, k - w);
    assert w + (j - w) == j && w + (k - w) == k;
    AtOrder(jb.g, Shl(p, j - w), Shl(p, j - w) + 1, j);
    OneCode(jb, j, Shl(p, j - w), k, Shl(p, k - w));
  }

  lemma NarrowestOnce(jb: Job, k: nat, w: nat, p: nat, y: nat, z: nat)
    requires ValidJob(jb) && Narrowest(jb, k, w, p, y) && Fits(jb, Tab(0, w, p, y)) && Narrowest(jb, k, w, p, z)
    requires w + z <= jb.g
    ensures z <= y
  {
    hide Shl, First, MaxLen, CountBelow, End;
    if y < jb.l && y < z { FillsOn(jb, w, p, y, z - 1); }
  }

  lemma ChosenOnce(jb: Job, w: nat, p: nat, y: nat, z: nat)
    requires ValidJob(jb) && Chosen(jb, w, p, y) && Chosen(jb, w, p, z) && w + y <= jb.g && w + z <= jb.g
    ensures y == z
  {
    hide Shl, First, MaxLen, CountBelow, End, Fits, Narrowest;
    var j: nat :| Begins(jb, w, p, j) && Narrowest(jb, j, w, p, y) && Fits(jb, Tab(0, w, p, y));
    var k: nat :| Begins(jb, w, p, k) && Narrowest(jb, k, w, p, z) && Fits(jb, Tab(0, w, p, z));
    BeginsOnce(jb, w, p, j, k);
    NarrowestOnce(jb, k, w, p, y, z);
    NarrowestOnce(jb, k, w, p, z, y);
  }

  // ---------- what is needed ----------

  ghost predicate Opens(jb: Job, w: nat, p: nat, z: nat)
  {
    w + z <= jb.g && Chosen(jb, w, p, z)
  }

  /** Entries of the table for the w-bit prefix p: none if no longer code begins there. */
  ghost function Entries(jb: Job, w: nat, p: nat): nat
  {
    if exists z: nat :: Opens(jb, w, p, z) then
      var z: nat :| Opens(jb, w, p, z);
      Pow2(z)
    else 0
  }

  lemma EntriesAre(jb: Job, w: nat, p: nat, z: nat)
    requires ValidJob(jb) && Opens(jb, w, p, z)
    ensures Entries(jb, w, p) == Pow2(z)
  {
    hide Narrowest, Fits, Begins, Shl;
    var y: nat :| Opens(jb, w, p, y) && Entries(jb, w, p) == Pow2(y);
    assert Opens(jb, w, p, y);
    ChosenOnce(jb, w, p, y, z);
  }

  /** Entries of the tables for the w-bit prefixes below n. */
  ghost function NeedLevel(jb: Job, w: nat, n: nat): nat
  {
    if n == 0 then 0 else NeedLevel(jb, w, n - 1) + Entries(jb, w, n - 1)
  }

  /** Entries of all tables w bits deep and deeper. */
  ghost function NeedFrom(jb: Job, w: nat): nat
    requires jb.l >= 1
    decreases jb.g - w
  {
    if w >= jb.g then 0 else NeedLevel(jb, w, Pow2(w)) + NeedFrom(jb, w + jb.l)
  }

  /** All entries huft_build needs for this code set. */
  ghost function Needed(jb: Job): nat
    requires jb.l >= 1
  {
    Pow2(jb.l) + NeedFrom(jb, jb.l)
  }

  // ---------- the tables by level ----------

  /** Entries of those of the first n tables that are w bits deep with a prefix below p. */
  function LevelBelow(tabs: seq<Tab>, n: nat, w: nat, p: nat): nat
    requires n <= |tabs|
  {
    if n == 0 then 0
    else LevelBelow(tabs, n - 1, w, p) + (if tabs[n - 1].w == w && tabs[n - 1].pre < p then Pow2(tabs[n - 1].z) else 0)
  }

  function FromLevel(jb: Job, tabs: seq<Tab>, n: nat, w: nat): nat
    requires n <= |tabs| && jb.l >= 1
    decreases jb.g - w
  {
    if w >= jb.g then 0 else LevelBelow(tabs, n, w, Pow2(w)) + FromLevel(jb, tabs, n, w + jb.l)
  }

  lemma {:induction false} FromLevelStep(jb: Job, tabs: seq<Tab>, n: nat, w: nat)
    requires 0 < n <= |tabs| && jb.l >= 1 && Level(jb.l, w) && Level(jb.l, tabs[n - 1].w)
    requires tabs[n - 1].w < jb.g && tabs[n - 1].pre < Pow2(tabs[n - 1].w)
    ensures FromLevel(jb, tabs, n, w)
            == FromLevel(jb, tabs, n - 1, w) + (if tabs[n - 1].w >= w then Pow2(tabs[n - 1].z) else 0)
    decreases jb.g - w
  {
    hide Shl;
    var t := tabs[n - 1];
    if w < jb.g {
      FromLevelStep(jb, tabs, n, w + jb.l);
      if w <= t.w < w + jb.l { LevelGap(jb.l, w, t.w); }
    }
  }

  lemma {:induction false} FromNone(jb: Job, tabs: seq<Tab>, w: nat)
    requires jb.l >= 1
    ensures FromLevel(jb, tabs, 0, w) == 0
    decreases jb.g - w
  {
    if w < jb.g { FromNone(jb, tabs, w + jb.l); }
  }

  /** The root and the levels below it are all there is. */
  lemma {:induction false} TotalIs(jb: Job, tabs: seq<Tab>, hn: nat, n: nat)
    requires ValidJob(jb) && Layout(jb, tabs) && Prefixed(tabs) && 0 < n <= |tabs|
    ensures Total(tabs, n) == Pow2(jb.l) + FromLevel(jb, tabs, n, jb.l)
  {
    hide Shl, First, MaxLen, CountBelow, Sized, Chosen;
    assert Level(jb.l, 0) && Level(jb.l, jb.l);
    if n > 1 {
      TotalIs(jb, tabs, hn, n - 1);
      assert SubTab(jb, tabs[n - 1]);
      FromLevelStep(jb, tabs, n, jb.l);
    } else {
      assert Total(tabs, 0) == 0;
      FromLevelStep(jb, tabs, 1, jb.l);
      FromNone(jb, tabs, jb.l);
    }
  }

  /** A prefix of w bits is below 2^w. */
  predicate Prefixed(tabs: seq<Tab>)
  {
    forall i | 0 <= i < |tabs| :: tabs[i].pre < Pow2(tabs[i].w)
  }

  lemma {:induction false} LevelNotMore(jb: Job, tabs: seq<Tab>, n: nat, w: nat, p: nat)
    requires ValidJob(jb) && Layout(jb, tabs) && n <= |tabs| && w > 0
    ensures LevelBelow(tabs, n, w, p) <= NeedLevel(jb, w, p)
    decreases n
  {
    hide Shl, First, MaxLen, CountBelow, Sized, Chosen, Level, Entries;
    if n > 0 {
      var t := tabs[n - 1];
      if t.w == w && t.pre < p {
        assert SubTab(jb, t);
        EarlierBelow(tabs, n - 1, w, p, t.pre);
        LevelNotMore(jb, tabs, n - 1, w, t.pre);
        EntriesAre(jb, w, t.pre, t.z);
        NeedMono(jb, w, t.pre + 1, p);
      } else {
        LevelNotMore(jb, tabs, n - 1, w, p);
      }
    }
  }

  lemma {:induction false} EarlierBelow(tabs: seq<Tab>, n: nat, w: nat, p: nat, q: nat)
    requires n <= |tabs| && q <= p && forall i | 0 <= i < n && tabs[i].w == w :: tabs[i].pre < q
    ensures LevelBelow(tabs, n, w, p) == LevelBelow(tabs, n, w, q)
  {
    if n > 0 { EarlierBelow(tabs, n - 1, w, p, q); }
  }

  lemma {:induction false} NeedMono(jb: Job, w: nat, m: nat, n: nat)
    requires m <= n
    ensures NeedLevel(jb, w, m) <= NeedLevel(jb, w, n)
    decreases n
  {
    hide Entries;
    if m < n { NeedMono(jb, w, m, n - 1); }
  }

  /** A table with the prefix p adds its entries. */
  lemma {:induction false} LevelAdds(tabs: seq<Tab>, n: nat, w: nat, p: nat, i: nat)
    requires i < n <= |tabs| && tabs[i].w == w && tabs[i].pre == p
    ensures LevelBelow(tabs, n, w, p + 1) >= LevelBelow(tabs, n, w, p) + Pow2(tabs[i].z)
    decreases n
  {
    hide Shl;
    if i < n - 1 { LevelAdds(tabs, n - 1, w, p, i); } else { LevelMono(tabs, n - 1, w, p); }
  }

  lemma {:induction false} LevelMono(tabs: seq<Tab>, n: nat, w: nat, p: nat)
    requires n <= |tabs|
    ensures LevelBelow(tabs, n, w, p + 1) >= LevelBelow(tabs, n, w, p)
  {
    hide Shl;
    if n > 0 { LevelMono(tabs, n - 1, w, p); }
  }

  /** Every prefix at which a longer code begins has its table. */
  ghost predicate AllThere(jb: Job, tabs: seq<Tab>)
    requires jb.l >= 1
  {
    forall w: nat, p: nat, z: nat | Opens(jb, w, p, z) && 0 < w && Level(jb.l, w) :: HasTab(tabs, w, p)
  }

  lemma {:induction false} LevelNotLess(jb: Job, tabs: seq<Tab>, w: nat, p: nat)
    requires ValidJob(jb) && Layout(jb, tabs) && AllThere(jb, tabs) && w > 0 && Level(jb.l, w)
    ensures NeedLevel(jb, w, p) <= LevelBelow(tabs, |tabs|, w, p)
  {
    hide Shl, First, MaxLen, CountBelow, Sized, Chosen, Level, LevelBelow;
    if p > 0 {
      var q: nat := p - 1;
      LevelNotLess(jb, tabs, w, q);
      LevelMono(tabs, |tabs|, w, q);
      if z: nat :| Opens(jb, w, q, z) {
        assert HasTab(tabs, w, q);
        var i :| 0 <= i < |tabs| && tabs[i].w == w && tabs[i].pre == q;
        assert SubTab(jb, tabs[i]);
        EntriesAre(jb, w, q, tabs[i].z);
        LevelAdds(tabs, |tabs|, w, q, i);
      }
    }
  }

  lemma {:induction false} FromCompare(jb: Job, tabs: seq<Tab>, w: nat)
    requires ValidJob(jb) && Layout(jb, tabs) && w > 0 && Level(jb.l, w)
    ensures FromLevel(jb, tabs, |tabs|, w) <= NeedFrom(jb, w)
    ensures AllThere(jb, tabs) ==> FromLevel(jb, tabs, |tabs|, w) == NeedFrom(jb, w)
    decreases jb.g - w
  {
    hide Shl, First, MaxLen, CountBelow, Layout, AllThere, NeedLevel, LevelBelow;
    if w < jb.g {
      FromCompare(jb, tabs, w + jb.l);
      LevelNotMore(jb, tabs, |tabs|, w, Pow2(w));
      if AllThere(jb, tabs) { LevelNotLess(jb, tabs, w, Pow2(w)); }
    }
  }

  /** The tables never take more than is needed, and in the end exactly that. */
  lemma TotalNeeded(jb: Job, tabs: seq<Tab>)
    requires ValidJob(jb) && Layout(jb, tabs) && Prefixed(tabs) && |tabs| > 0
    ensures Total(tabs, |tabs|) <= Needed(jb)
    ensures AllThere(jb, tabs) ==> Total(tabs, |tabs|) == Needed(jb)
  {
    hide Shl, First, MaxLen, CountBelow, Layout, AllThere, FromLevel, NeedFrom, Total;
    assert Level(jb.l, jb.l) by { assert Level(jb.l, 0); }
    TotalIs(jb, tabs, 0, |tabs|);
    FromCompare(jb, tabs, jb.l);
  }

  /** With all codes placed all tables are there. */
  lemma CoveredIsAll(jb: Job, tabs: seq<Tab>)
    requires ValidJob(jb) && Covered(jb, tabs, Pow2(jb.g))
    ensures AllThere(jb, tabs)
  {
    hide Shl, Shr, First, MaxLen, CountBelow, End, Level, Narrowest, Fits;
    forall w: nat, p: nat, z: nat | Opens(jb, w, p, z) && 0 < w && Level(jb.l, w)
      ensures HasTab(tabs, w, p)
    {
      var k: nat :| Begins(jb, w, p, k);
      var code := Shl(p, k - w);
      CodeBound(jb, k, code);
      AtOrder(jb.g, code, Pow2(k), k);
      ShlShl(1, k, jb.g - k);
      Pow2Pos(k - w);
      SplitUnique(p, k - w, 0);
      assert HasTab(tabs, w, Shr(code, k - w));
    }
  }

  /** So many entries are not enough, and some of the tables by themselves are too many. */
  ghost predicate Overfull(jb: Job, room: int)
    requires jb.l >= 1
  {
    TooMany(jb, room) && Needed(jb) > room
  }

  lemma OverfullMeans(jb: Job, room: int)
    requires jb.l >= 1 && Overfull(jb, room)
    ensures TooMany(jb, room) && Needed(jb) > room
  {
  }

  lemma OverfullBy(jb: Job, tabs: seq<Tab>, room: int)
    requires ValidJob(jb) && Layout(jb, tabs) && Prefixed(tabs) && |tabs| > 0 && Total(tabs, |tabs|) > room
    ensures Overfull(jb, room)
  {
    hide Layout, Prefixed, Total, ValidJob, Needed;
    TotalNeeded(jb, tabs);
  }

  /** What the finished tables take. */
  lemma FinalNeed(jb: Job, tabs: seq<Tab>, hn: nat, pool: seq<Huft>, pool0: seq<Huft>)
    requires ValidJob(jb) && Past(jb, jb.g, Pow2(jb.g), tabs, hn, pool, pool0) && Layout(jb, tabs)
    requires TabsOK(jb.g, tabs, hn) && |tabs| > 0
    ensures Total(tabs, |tabs|) == Needed(jb)
  {
    hide History, Started, SkipsSeen, Covered, Layout, Total, First, MaxLen, CountBelow;
    assert Prefixed(tabs) by {
      forall i | 0 <= i < |tabs|
        ensures tabs[i].pre < Pow2(tabs[i].w)
      {
        assert TabOK(jb.g, tabs[i], hn);
      }
    }
    CoveredIsAll(jb, tabs);
    TotalNeeded(jb, tabs);
  }
}
