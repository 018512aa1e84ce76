/** What goes wrong in huft_build when a table level is skipped: the first table that is
    wider than l bits has entries no code ever writes, and the decoder reaches them. */
module HuftGaps {
  import opened Bits
  import opened Huffman
  import opened HuftTables
  import opened HuftInvariant
  import opened HuftSteps
  import opened HuftFill

  ghost predicate Wide(jb: Job, tabs: seq<Tab>)
  {
    exists i :: 0 <= i < |tabs| && tabs[i].z > jb.l
  }

  predicate NarrowBefore(jb: Job, tabs: seq<Tab>, i: nat)
    requires i <= |tabs|
  {
    forall j | 0 <= j < i :: tabs[j].z <= jb.l
  }

  /** Where a table's link lies in the table before it. */
  function LinkPlace(l: nat, t: Tab): nat
  {
    Rev(Mask(t.pre, l), l)
  }

  /** Table p, of l bits, has the link to table i. */
  ghost predicate LinkFrom(jb: Job, tabs: seq<Tab>, p: nat, i: nat, pool: seq<Huft>)
    requires i < |tabs|
  {
    && p < i && tabs[p].z == jb.l
    && tabs[i].w == tabs[p].w + jb.l && Shr(tabs[i].pre, jb.l) == tabs[p].pre
    && var at := tabs[p].addr + LinkPlace(jb.l, tabs[i]);
       && at < |pool| && pool[at].exop == tabs[i].z && pool[at].bits == jb.l
       && tabs[i].addr == at + pool[at].base
  }

  /** Up to the first wide table every table but the root is linked. */
  ghost predicate Reachable(jb: Job, tabs: seq<Tab>, i: nat, pool: seq<Huft>)
    requires i < |tabs|
  {
    i > 0 && NarrowBefore(jb, tabs, i) ==> exists p: nat :: LinkFrom(jb, tabs, p, i, pool)
  }

  /** The entries of the first wide table beyond the first 2^l are as they were, and
      only codes too long for them are still to come. */
  ghost predicate GapAt(jb: Job, k: nat, tabs: seq<Tab>, i: nat, pool: seq<Huft>, pool0: seq<Huft>)
    requires i < |tabs| && |pool| == |pool0|
  {
    tabs[i].z > jb.l && NarrowBefore(jb, tabs, i) ==>
      && k > tabs[i].w + jb.l
      && forall x | tabs[i].addr + Pow2(jb.l) <= x < tabs[i].addr + Pow2(tabs[i].z) :: x < |pool| && pool[x] == pool0[x]
  }

  /** What the tables and the pool still tell about the pool at the start, pool0. */
  ghost predicate History(jb: Job, k: nat, tabs: seq<Tab>, hn: nat, pool: seq<Huft>, pool0: seq<Huft>)
  {
    && |pool| == |pool0|
    && (forall x | hn <= x < |pool| :: pool[x] == pool0[x])
    && (forall i | 0 <= i < |tabs| :: Reachable(jb, tabs, i, pool))
    && (forall i | 0 <= i < |tabs| :: GapAt(jb, k, tabs, i, pool, pool0))
  }

  // ---------- opening a table ----------

  /** A closed table's prefix lies before the current code. */
  lemma ClosedPrefix(jb: Job, k: nat, code: nat, sk: Stack, hn: nat, pool: seq<Huft>, p: nat, i: nat)
    requires Inv(jb, k, code, sk, hn, pool) && sk.h >= 0 && p == sk.st[sk.h] && p < i < |sk.tabs|
    ensures sk.tabs[i].w <= jb.g && At(jb.g, sk.tabs[i].pre + 1, sk.tabs[i].w) <= At(jb.g, code, k)
  {
    hide At;
    assert TabOK(jb.g, sk.tabs[i], hn);
    assert forall t | 0 <= t < |sk.st| :: sk.st[t] <= sk.st[sk.h];
    assert ClosedAt(jb, k, code, sk, i);
  }

  /** Two tables below the same one, with different prefixes, have different links. */
  lemma LinksDiffer(l: nat, a: Tab, b: Tab)
    requires Shr(a.pre, l) == Shr(b.pre, l) && a.pre != b.pre
    ensures LinkPlace(l, a) != LinkPlace(l, b)
  {
    Split(a.pre, l);
    Split(b.pre, l);
    if LinkPlace(l, a) == LinkPlace(l, b) {
      MaskBound(a.pre, l);
      MaskBound(b.pre, l);
      RevInjective(Mask(a.pre, l), Mask(b.pre, l), l);
    }
  }

  lemma LinkKept(jb: Job, tabs: seq<Tab>, more: seq<Tab>, p: nat, i: nat, pool: seq<Huft>, pool': seq<Huft>)
    requires i < |tabs| && LinkFrom(jb, tabs, p, i, pool)
    requires |pool'| == |pool|
    requires var at := tabs[p].addr + LinkPlace(jb.l, tabs[i]); at < |pool| && pool'[at] == pool[at]
    ensures LinkFrom(jb, tabs + more, p, i, pool')
  {
  }

  lemma SameNarrow(jb: Job, tabs: seq<Tab>, more: seq<Tab>, i: nat)
    requires i <= |tabs|
    ensures NarrowBefore(jb, tabs + more, i) <==> NarrowBefore(jb, tabs, i)
  {
    assert forall j | 0 <= j < i :: (tabs + more)[j] == tabs[j];
  }

  /** Links to older tables survive the new link. */
  lemma OpenReachableOld(jb: Job, k: nat, code: nat, sk: Stack, hn: nat, z: nat, pool: seq<Huft>, i: nat)
    requires CanOpen(jb, k, code, sk, hn, z, pool) && sk.h >= 0
    requires i < |sk.tabs| && Reachable(jb, sk.tabs, i, pool)
    ensures Reachable(jb, sk.tabs + [NewTab(jb, k, code, sk, hn, z)], i, Linked(jb, sk, hn, z, Rev(code, k), pool))
  {
    hide Shl, Shr, Mask, Rev, First, MaxLen, CountBelow, Used, At, Fits;
    var nt := NewTab(jb, k, code, sk, hn, z);
    SameNarrow(jb, sk.tabs, [nt], i);
    if i > 0 && NarrowBefore(jb, sk.tabs, i) {
      var p: nat :| LinkFrom(jb, sk.tabs, p, i, pool);
      OpenLinkApart(jb, k, code, sk, hn, z, pool, p, i);
      LinkKept(jb, sk.tabs, [nt], p, i, pool, Linked(jb, sk, hn, z, Rev(code, k), pool));
    }
  }

  lemma OpenLinkApart(jb: Job, k: nat, code: nat, sk: Stack, hn: nat, z: nat, pool: seq<Huft>, p: nat, i: nat)
    requires CanOpen(jb, k, code, sk, hn, z, pool) && sk.h >= 0
    requires i < |sk.tabs| && LinkFrom(jb, sk.tabs, p, i, pool)
    ensures var pool' := Linked(jb, sk, hn, z, Rev(code, k), pool);
            var at := sk.tabs[p].addr + LinkPlace(jb.l, sk.tabs[i]);
            |pool'| == |pool| && at < |pool| && pool'[at] == pool[at]
  {
    hide Shl, Shr, Mask, Rev, First, MaxLen, CountBelow, Used, At, Fits, Links, CellsDone, Closed;
    var top := sk.st[sk.h];
    var nt := NewTab(jb, k, code, sk, hn, z);
    LinkPool(jb, k, code, sk, hn, z, pool);
    LinkIndex(jb, k, code, sk, hn, z, pool);
    RevBound(Mask(sk.tabs[i].pre, jb.l), jb.l);
    var jt := Shr(Rev(code, k), sk.tabs[top].w);
    if p == top {
      ClosedPrefix(jb, k, code, sk, hn, pool, p, i);
      AtPrefix(jb.g, code, nt.w, k - nt.w);
      AtOrder(jb.g, sk.tabs[i].pre, nt.pre, nt.w);
      AtOrder(jb.g, sk.tabs[i].pre, sk.tabs[i].pre + 1, nt.w);
      LinksDiffer(jb.l, sk.tabs[i], nt);
    }
    CellsApart(jb.g, sk.tabs, hn, p, LinkPlace(jb.l, sk.tabs[i]), top, jt);
  }

  lemma OpenReachableNew(jb: Job, k: nat, code: nat, sk: Stack, hn: nat, z: nat, pool: seq<Huft>)
    requires CanOpen(jb, k, code, sk, hn, z, pool) && sk.h >= 0
    ensures Reachable(jb, sk.tabs + [NewTab(jb, k, code, sk, hn, z)], |sk.tabs|,
                      Linked(jb, sk, hn, z, Rev(code, k), pool))
  {
    hide Shl, Shr, Mask, Rev, First, MaxLen, CountBelow, Used, At, Fits, Links, CellsDone, Closed;
    var nt := NewTab(jb, k, code, sk, hn, z);
    var tabs := sk.tabs + [nt];
    var top := sk.st[sk.h];
    LinkPool(jb, k, code, sk, hn, z, pool);
    LinkIndex(jb, k, code, sk, hn, z, pool);
    TopFull(jb, k, code, sk, hn, pool);
    if NarrowBefore(jb, tabs, |sk.tabs|) {
      assert tabs[top].z <= jb.l;
      assert LinkFrom(jb, tabs, top, |sk.tabs|, Linked(jb, sk, hn, z, Rev(code, k), pool));
    }
  }

  /** The new link is among the first 2^l entries of its table. */
  lemma OpenGapOld(jb: Job, k: nat, code: nat, sk: Stack, hn: nat, z: nat, pool: seq<Huft>, pool0: seq<Huft>, i: nat)
    requires CanOpen(jb, k, code, sk, hn, z, pool) && sk.h >= 0 && |pool| == |pool0|
    requires i < |sk.tabs| && GapAt(jb, k, sk.tabs, i, pool, pool0)
    ensures GapAt(jb, k, sk.tabs + [NewTab(jb, k, code, sk, hn, z)], i, Linked(jb, sk, hn, z, Rev(code, k), pool),
                  pool0)
  {
    hide Shl, Shr, Mask, Rev, First, MaxLen, CountBelow, Used, At, Fits, Links, CellsDone, Closed;
    var nt := NewTab(jb, k, code, sk, hn, z);
    var pool' := Linked(jb, sk, hn, z, Rev(code, k), pool);
    SameNarrow(jb, sk.tabs, [nt], i);
    LinkPool(jb, k, code, sk, hn, z, pool);
    var top := sk.st[sk.h];
    var jt := Shr(Rev(code, k), sk.tabs[top].w);
    if sk.tabs[i].z > jb.l && NarrowBefore(jb, sk.tabs, i) {
      forall x | sk.tabs[i].addr + Pow2(jb.l) <= x < sk.tabs[i].addr + Pow2(sk.tabs[i].z)
        ensures pool'[x] == pool0[x]
      {
        CellsApart(jb.g, sk.tabs, hn, i, x - sk.tabs[i].addr, top, jt);
      }
    }
  }

  /** Opening a table; a wide one is opened only for a code that is too long. */
  lemma HistoryOpen(jb: Job, k: nat, code: nat, sk: Stack, hn: nat, z: nat, pool: seq<Huft>, pool0: seq<Huft>)
    requires CanOpen(jb, k, code, sk, hn, z, pool) && History(jb, k, sk.tabs, hn, pool, pool0)
    requires z > jb.l ==> k - Depth(jb, sk) > jb.l
    ensures History(jb, k, sk.tabs + [NewTab(jb, k, code, sk, hn, z)], hn + Pow2(z),
                    Linked(jb, sk, hn, z, Rev(code, k), pool), pool0)
  {
    hide Shl, Shr, Mask, Rev, First, MaxLen, CountBelow, Used, At, Fits, Links, CellsDone, Closed, LinkFrom;
    var nt := NewTab(jb, k, code, sk, hn, z);
    var tabs := sk.tabs + [nt];
    var pool' := Linked(jb, sk, hn, z, Rev(code, k), pool);
    if sk.h < 0 {
      CodeBound(jb, k, code);
      NoTables(jb, k, code, sk, hn, pool);
    } else {
      LinkPool(jb, k, code, sk, hn, z, pool);
      OpenReachableNew(jb, k, code, sk, hn, z, pool);
    }
    forall i | 0 <= i < |tabs|
      ensures Reachable(jb, tabs, i, pool') && GapAt(jb, k, tabs, i, pool', pool0)
    {
      if i < |sk.tabs| {
        assert Reachable(jb, sk.tabs, i, pool) && GapAt(jb, k, sk.tabs, i, pool, pool0);
        OpenReachableOld(jb, k, code, sk, hn, z, pool, i);
        OpenGapOld(jb, k, code, sk, hn, z, pool, pool0, i);
      }
    }
  }

  // ---------- filling entries ----------

  lemma FillLinkApart(jb: Job, k: nat, code: nat, sk: Stack, hn: nat, r: Huft, pool: seq<Huft>, pool': seq<Huft>,
                      p: nat, i: nat)
    requires CanFill(jb, k, code, sk, hn, pool) && FilledTop(jb, k, code, sk, r, pool, pool')
    requires i < |sk.tabs| && LinkFrom(jb, sk.tabs, p, i, pool)
    ensures var at := sk.tabs[p].addr + LinkPlace(jb.l, sk.tabs[i]);
            |pool'| == |pool| && at < |pool| && pool'[at] == pool[at]
  {
    hide Shl, Shr, Mask, Rev, First, MaxLen, CountBelow, Used, At, Fits, Links, CellsDone, Closed;
    var top := sk.st[sk.h];
    TopReaches(jb, k, code, sk, hn, pool);
    var t := sk.tabs[top];
    var d := k - t.w;
    var x := LinkPlace(jb.l, sk.tabs[i]);
    RevBound(Mask(sk.tabs[i].pre, jb.l), jb.l);
    if p == top {
      ClosedPrefix(jb, k, code, sk, hn, pool, p, i);
      CellOfCode(t, x, d, code);
      LinkCode(t, sk.tabs[i], jb.l);
      if Mask(x, d) == Rev(Mask(code, d), d) {
        AtPrefix(jb.g, sk.tabs[i].pre, k, jb.l - d);
        assert k + (jb.l - d) == sk.tabs[i].w;
        AtOrder(jb.g, sk.tabs[i].pre, sk.tabs[i].pre + 1, sk.tabs[i].w);
        assert false;
      }
    } else {
      OutsideTop(jb.g, sk.tabs, hn, top, p, x, d, Rev(Mask(code, d), d), r, pool, pool');
    }
  }

  /** The cell of a link stands for the prefix of the table it leads to. */
  lemma LinkCode(t: Tab, next: Tab, l: nat)
    requires t.z == l && Shr(next.pre, l) == t.pre
    ensures CellCode(t, LinkPlace(l, next)) == next.pre
  {
    MaskBound(next.pre, l);
    RevRev(Mask(next.pre, l), l);
    Split(next.pre, l);
  }

  lemma FillGap(jb: Job, k: nat, code: nat, sk: Stack, hn: nat, r: Huft, pool: seq<Huft>, pool': seq<Huft>,
                pool0: seq<Huft>, i: nat)
    requires CanFill(jb, k, code, sk, hn, pool) && FilledTop(jb, k, code, sk, r, pool, pool')
    requires i < |sk.tabs| && |pool| == |pool'| == |pool0| && GapAt(jb, k, sk.tabs, i, pool, pool0)
    ensures GapAt(jb, k, sk.tabs, i, pool', pool0)
  {
    hide Shl, Shr, Mask, Rev, First, MaxLen, CountBelow, Used, At, Fits, Links, CellsDone, Closed;
    var top := sk.st[sk.h];
    TopReaches(jb, k, code, sk, hn, pool);
    var t := sk.tabs[top];
    if sk.tabs[i].z > jb.l && NarrowBefore(jb, sk.tabs, i) {
      assert i != top;
      forall x | sk.tabs[i].addr + Pow2(jb.l) <= x < sk.tabs[i].addr + Pow2(sk.tabs[i].z)
        ensures pool'[x] == pool0[x]
      {
        OutsideTop(jb.g, sk.tabs, hn, top, i, x - sk.tabs[i].addr, k - t.w, Rev(Mask(code, k - t.w), k - t.w), r, pool,
                   pool');
      }
    }
  }

  lemma HistoryFill(jb: Job, k: nat, code: nat, sk: Stack, hn: nat, r: Huft, pool: seq<Huft>, pool': seq<Huft>,
                    pool0: seq<Huft>)
    requires CanFill(jb, k, code, sk, hn, pool) && FilledTop(jb, k, code, sk, r, pool, pool')
    requires History(jb, k, sk.tabs, hn, pool, pool0)
    ensures History(jb, k, sk.tabs, hn, pool', pool0)
  {
    hide Shl, Shr, Mask, Rev, First, MaxLen, CountBelow, Used, At, Fits, Links, CellsDone, Closed, LinkFrom;
    TopReaches(jb, k, code, sk, hn, pool);
    forall i | 0 <= i < |sk.tabs|
      ensures Reachable(jb, sk.tabs, i, pool') && GapAt(jb, k, sk.tabs, i, pool', pool0)
    {
      assert Reachable(jb, sk.tabs, i, pool) && GapAt(jb, k, sk.tabs, i, pool, pool0);
      FillGap(jb, k, code, sk, hn, r, pool, pool', pool0, i);
      if i > 0 && NarrowBefore(jb, sk.tabs, i) {
        var p: nat :| LinkFrom(jb, sk.tabs, p, i, pool);
        FillLinkApart(jb, k, code, sk, hn, r, pool, pool', p, i);
        LinkKept(jb, sk.tabs, [], p, i, pool, pool');
        assert sk.tabs + [] == sk.tabs;
      }
    }
  }

  /** Longer codes are even further from the gap. */
  lemma HistoryLonger(jb: Job, k: nat, k': nat, tabs: seq<Tab>, hn: nat, pool: seq<Huft>, pool0: seq<Huft>)
    requires History(jb, k, tabs, hn, pool, pool0) && k <= k'
    ensures History(jb, k', tabs, hn, pool, pool0)
  {
    hide Reachable, NarrowBefore;
    forall i | 0 <= i < |tabs|
      ensures GapAt(jb, k', tabs, i, pool, pool0)
    {
      assert GapAt(jb, k, tabs, i, pool, pool0);
    }
  }

  // ---------- a skipped level opens a wide table ----------

  /** Every table but the root starts at a pattern before f. */
  ghost predicate Started(jb: Job, tabs: seq<Tab>, f: nat)
  {
    forall i | 0 <= i < |tabs| && tabs[i].w > 0 :: tabs[i].w <= jb.g && At(jb.g, tabs[i].pre, tabs[i].w) < f
  }

  /** If a level was skipped at a code before f, there is a wide table. */
  ghost predicate SkipsSeen(jb: Job, tabs: seq<Tab>, f: nat)
    requires jb.l >= 1
  {
    Wide(jb, tabs) || forall k: nat, code: nat, w: nat | SkipAt(jb, k, code, w) :: At(jb.g, code, k) >= f
  }

  lemma {:induction false} LevelGap(l: nat, a: nat, b: nat)
    requires l >= 1 && Level(l, a) && Level(l, b) && a <= b < a + l
    ensures a == b
    decreases a
  {
    if a > 0 { LevelGap(l, a - l, b - l); }
  }

  /** The open tables stand at every level below the depth. */
  lemma {:induction false} StackLevel(jb: Job, k: nat, code: nat, sk: Stack, h: nat, w: nat) returns (t: nat)
    requires ValidJob(jb) && StackOK(jb, k, code, sk) && h <= sk.h && Level(jb.l, w)
    requires w < sk.tabs[sk.st[h]].w + jb.l
    ensures t <= h && sk.tabs[sk.st[t]].w == w
    decreases h
  {
    assert OnStack(jb, k, code, sk, h);
    if w >= sk.tabs[sk.st[h]].w {
      LevelGap(jb.l, sk.tabs[sk.st[h]].w, w);
      t := h;
    } else {
      assert OnStack(jb, k, code, sk, 0);
      assert OnStack(jb, k, code, sk, h - 1);
      t := StackLevel(jb, k, code, sk, h - 1, w);
    }
  }

  /** When a level is skipped, no table is open there yet. */
  lemma SkipDepth(jb: Job, k: nat, code: nat, sk: Stack, hn: nat, pool: seq<Huft>, w: nat)
    requires Inv(jb, k, code, sk, hn, pool) && SkipAt(jb, k, code, w)
    requires Started(jb, sk.tabs, At(jb.g, code, k))
    ensures Depth(jb, sk) <= w
  {
    hide Shl, Shr, Mask, Rev, First, MaxLen, CountBelow, Used, At, Fits, Links, CellsDone, Closed, TabsOK, Level;
    if Depth(jb, sk) > w {
      var t := StackLevel(jb, k, code, sk, sk.h, w);
      assert OnStack(jb, k, code, sk, t);
      AtPrefix(jb.g, code, w, k - w);
    }
  }

  /** The codes do not overlap. */
  lemma OneCode(jb: Job, k: nat, code: nat, k': nat, code': nat)
    requires ValidJob(jb) && IsCode(jb, k, code) && IsCode(jb, k', code')
    requires At(jb.g, code, k) <= At(jb.g, code', k') < At(jb.g, code + 1, k)
    ensures k' == k && code' == code
  {
    hide Shl, First, MaxLen, CountBelow, Used, At, End;
    if k == k' {
      AtOrder(jb.g, code', code, k);
      AtOrder(jb.g, code', code + 1, k);
    } else if k' < k {
      EndBefore(jb, k', k);
      AtLess(jb.g, code', End(jb, k'), k');
      AtAtMost(jb.g, First(jb.a.lens, k), code, k);
      assert false;
    } else {
      EndBefore(jb, k, k');
      AtAtMost(jb.g, code + 1, End(jb, k), k);
      AtAtMost(jb.g, First(jb.a.lens, k'), code', k');
      assert false;
    }
  }

  lemma AtLess(g: nat, u: nat, v: nat, k: nat)
    requires k <= g && u < v
    ensures At(g, u, k) < At(g, v, k)
  {
    AtOrder(g, u, v, k);
  }

  lemma AtAtMost(g: nat, u: nat, v: nat, k: nat)
    requires k <= g && u <= v
    ensures At(g, u, k) <= At(g, v, k)
  {
    AtOrder(g, u, v, k);
  }

  /** A code more is placed. */
  lemma SeenStep(jb: Job, k: nat, code: nat, tabs: seq<Tab>)
    requires ValidJob(jb) && IsCode(jb, k, code) && SkipsSeen(jb, tabs, At(jb.g, code, k))
    requires (exists w: nat :: SkipAt(jb, k, code, w)) ==> Wide(jb, tabs)
    ensures SkipsSeen(jb, tabs, At(jb.g, code + 1, k))
  {
    hide Wide, At, First, End;
    if !Wide(jb, tabs) {
      forall k': nat, code': nat, w: nat | SkipAt(jb, k', code', w)
        ensures At(jb.g, code', k') >= At(jb.g, code + 1, k)
      {
        if At(jb.g, code', k') < At(jb.g, code + 1, k) {
          OneCode(jb, k, code, k', code');
        }
      }
    }
  }

  lemma StartedStep(jb: Job, k: nat, code: nat, tabs: seq<Tab>)
    requires k <= jb.g && Started(jb, tabs, At(jb.g, code, k) + 1)
    ensures Started(jb, tabs, At(jb.g, code + 1, k))
  {
    AtOrder(jb.g, code, code + 1, k);
  }

  lemma StartedOpen(jb: Job, k: nat, code: nat, sk: Stack, hn: nat, z: nat)
    requires |sk.st| == sk.h + 1 && Depth(jb, sk) < k <= jb.g && Mask(code, k - Depth(jb, sk)) == 0
    requires Started(jb, sk.tabs, At(jb.g, code, k) + 1)
    ensures Started(jb, sk.tabs + [NewTab(jb, k, code, sk, hn, z)], At(jb.g, code, k) + 1)
  {
    AtPrefix(jb.g, code, Depth(jb, sk), k - Depth(jb, sk));
  }

  lemma WideLater(jb: Job, tabs: seq<Tab>, more: seq<Tab>, f: nat)
    requires jb.l >= 1
    ensures Wide(jb, tabs) ==> Wide(jb, tabs + more)
    ensures SkipsSeen(jb, tabs, f) ==> SkipsSeen(jb, tabs + more, f)
  {
    if i :| 0 <= i < |tabs| && tabs[i].z > jb.l {
      assert (tabs + more)[i].z > jb.l;
    }
  }

  // ---------- every prefix of a code gets its table ----------

  ghost predicate HasTab(tabs: seq<Tab>, w: nat, p: nat)
  {
    exists i | 0 <= i < |tabs| :: tabs[i].w == w && tabs[i].pre == p
  }

  /** There is a table for the prefix at each level of every code before f. */
  ghost predicate Covered(jb: Job, tabs: seq<Tab>, f: nat)
    requires jb.l >= 1
  {
    forall k: nat, code: nat, w: nat |
      IsCode(jb, k, code) && At(jb.g, code, k) < f && 0 < w < k && Level(jb.l, w) :: HasTab(tabs, w, Shr(code, k - w))
  }

  lemma CoveredOpen(jb: Job, tabs: seq<Tab>, nt: Tab, f: nat)
    requires jb.l >= 1 && Covered(jb, tabs, f)
    ensures Covered(jb, tabs + [nt], f)
  {
    hide First, End, At, Shr, Level;
    forall k: nat, code: nat, w: nat |
      IsCode(jb, k, code) && At(jb.g, code, k) < f && 0 < w < k && Level(jb.l, w)
      ensures HasTab(tabs + [nt], w, Shr(code, k - w))
    {
      assert HasTab(tabs, w, Shr(code, k - w));
      var i :| 0 <= i < |tabs| && tabs[i].w == w && tabs[i].pre == Shr(code, k - w);
      assert (tabs + [nt])[i] == tabs[i];
    }
  }

  lemma CoveredFill(jb: Job, k: nat, code: nat, sk: Stack, hn: nat, pool: seq<Huft>)
    requires CanFill(jb, k, code, sk, hn, pool) && Covered(jb, sk.tabs, At(jb.g, code, k))
    ensures Covered(jb, sk.tabs, At(jb.g, code + 1, k))
  {
    hide Shl, Shr, Mask, Rev, First, MaxLen, CountBelow, Used, At, Fits, Links, CellsDone, Closed, TabsOK, Level, End;
    forall k': nat, code': nat, w: nat |
      IsCode(jb, k', code') && At(jb.g, code', k') < At(jb.g, code + 1, k) && 0 < w < k' && Level(jb.l, w)
      ensures HasTab(sk.tabs, w, Shr(code', k' - w))
    {
      if At(jb.g, code', k') >= At(jb.g, code, k) {
        OneCode(jb, k, code, k', code');
        var t := StackLevel(jb, k, code, sk, sk.h, w);
        assert OnStack(jb, k, code, sk, t);
      }
    }
  }

  /** Everything about the past that the loop carries along, before code is placed. */
  ghost predicate Past(jb: Job, k: nat, code: nat, tabs: seq<Tab>, hn: nat, pool: seq<Huft>, pool0: seq<Huft>)
  {
    && jb.l >= 1 && k <= jb.g
    && History(jb, k, tabs, hn, pool, pool0)
    && Started(jb, tabs, At(jb.g, code, k))
    && SkipsSeen(jb, tabs, At(jb.g, code, k))
    && Covered(jb, tabs, At(jb.g, code, k))
  }

  /** The same while tables open for it. */
  ghost predicate Opening(jb: Job, k: nat, code: nat, tabs: seq<Tab>, hn: nat, pool: seq<Huft>, pool0: seq<Huft>)
  {
    && jb.l >= 1 && k <= jb.g
    && History(jb, k, tabs, hn, pool, pool0)
    && Started(jb, tabs, At(jb.g, code, k) + 1)
    && SkipsSeen(jb, tabs, At(jb.g, code, k))
    && Covered(jb, tabs, At(jb.g, code, k))
  }

  lemma PastOpening(jb: Job, k: nat, code: nat, tabs: seq<Tab>, hn: nat, pool: seq<Huft>, pool0: seq<Huft>)
    requires Past(jb, k, code, tabs, hn, pool, pool0)
    ensures Opening(jb, k, code, tabs, hn, pool, pool0)
  {
    hide At, History, SkipsSeen, Covered;
  }

  lemma OpeningOpen(jb: Job, k: nat, code: nat, sk: Stack, hn: nat, z: nat, pool: seq<Huft>, pool0: seq<Huft>)
    requires CanOpen(jb, k, code, sk, hn, z, pool) && Opening(jb, k, code, sk.tabs, hn, pool, pool0)
    requires z > jb.l ==> k - Depth(jb, sk) > jb.l
    ensures Opening(jb, k, code, sk.tabs + [NewTab(jb, k, code, sk, hn, z)], hn + Pow2(z),
                    Linked(jb, sk, hn, z, Rev(code, k), pool), pool0)
    ensures z > jb.l || Wide(jb, sk.tabs) ==> Wide(jb, sk.tabs + [NewTab(jb, k, code, sk, hn, z)])
  {
    hide At, History, SkipsSeen, Started, Covered, Links, CellsDone, Closed, TabsOK, Fits;
    var nt := NewTab(jb, k, code, sk, hn, z);
    HistoryOpen(jb, k, code, sk, hn, z, pool, pool0);
    StartedOpen(jb, k, code, sk, hn, z);
    WideLater(jb, sk.tabs, [nt], At(jb.g, code, k));
    CoveredOpen(jb, sk.tabs, nt, At(jb.g, code, k));
    assert (sk.tabs + [nt])[|sk.tabs|] == nt;
  }

  lemma OpeningFill(jb: Job, k: nat, code: nat, sk: Stack, hn: nat, r: Huft, pool: seq<Huft>, pool': seq<Huft>,
                    pool0: seq<Huft>)
    requires CanFill(jb, k, code, sk, hn, pool) && FilledTop(jb, k, code, sk, r, pool, pool')
    requires Opening(jb, k, code, sk.tabs, hn, pool, pool0)
    requires (exists w: nat :: SkipAt(jb, k, code, w)) ==> Wide(jb, sk.tabs)
    ensures Past(jb, k, code + 1, sk.tabs, hn, pool', pool0)
  {
    hide At, History, SkipsSeen, Started, Covered, Links, CellsDone, Closed, StackOK, TabsOK, Wide;
    HistoryFill(jb, k, code, sk, hn, r, pool, pool', pool0);
    StartedStep(jb, k, code, sk.tabs);
    SeenStep(jb, k, code, sk.tabs);
    CoveredFill(jb, k, code, sk, hn, pool);
  }

  lemma PastLonger(jb: Job, k: nat, code: nat, tabs: seq<Tab>, hn: nat, pool: seq<Huft>, pool0: seq<Huft>)
    requires Past(jb, k, code, tabs, hn, pool, pool0) && k < jb.g
    ensures Past(jb, k + 1, 2 * code, tabs, hn, pool, pool0)
  {
    hide History, SkipsSeen, Started, Covered;
    HistoryLonger(jb, k, k + 1, tabs, hn, pool, pool0);
    AtRefine(jb.g, code, k, 1);
    assert Shl(code, 1) == 2 * Shl(code, 0) == 2 * code;
  }

  lemma PastStart(jb: Job, k: nat, hn: nat, pool: seq<Huft>)
    requires jb.l >= 1 && k <= jb.g
    ensures Past(jb, k, 0, [], hn, pool, pool)
  {
    ShlZero(jb.g - k);
  }

  /** With all codes placed a skipped level has shown. */
  lemma PastEnd(jb: Job, tabs: seq<Tab>, hn: nat, pool: seq<Huft>, pool0: seq<Huft>)
    requires ValidJob(jb) && Past(jb, jb.g, Pow2(jb.g), tabs, hn, pool, pool0)
    ensures !NoSkip(jb) ==> Wide(jb, tabs)
  {
    hide Wide, History, Started, Covered;
    if !NoSkip(jb) && !Wide(jb, tabs) {
      var k: nat, code: nat, w: nat :| SkipAt(jb, k, code, w);
      CodeBound(jb, k, code);
      AtOrder(jb.g, code, Pow2(k), k);
      AtRefine(jb.g, Pow2(k), k, jb.g - k);
      ShlShl(1, k, jb.g - k);
      assert false;
    }
  }

  // ---------- the decoder gets there ----------

  /** n table look-ups lead from the table at `at`, of z bits, to the one at `to`, of z'
      bits: every entry on the way is a link (no literal, extra bits or end). */
  ghost predicate Walk(pool: seq<Huft>, at: nat, z: nat, bits: seq<bit>, pos: nat, n: nat, to: nat, z': nat, pos': nat)
    decreases n
  {
    if n == 0 then at == to && z == z' && pos == pos'
    else
      && pos + z <= |bits|
      && at + Lsb(bits, pos, z) < |pool|
      && var at' := at + Lsb(bits, pos, z);
         && 0 < pool[at'].exop < 16
         && Walk(pool, at' + pool[at'].base, pool[at'].exop, bits, pos + pool[at'].bits, n - 1, to, z', pos')
  }

  /** The decoder, started at the root, looks up an entry that still is as it was in
      the pool before. */
  ghost predicate ReadsUnwritten(pool: seq<Huft>, pool0: seq<Huft>, root: nat, l: nat, bits: seq<bit>,
                                 n: nat, at: nat, z: nat, pos: nat)
  {
    && Walk(pool, root, l, bits, 0, n, at, z, pos)
    && pos + z <= |bits|
    && var x := at + Lsb(bits, pos, z);
       x < |pool| == |pool0| && pool[x] == pool0[x]
  }

  /** For some input the decoder looks up an entry of the used pool, below hn, that
      huft_build never wrote. */
  ghost predicate Unbuilt(pool: seq<Huft>, pool0: seq<Huft>, root: nat, l: nat, hn: nat)
  {
    exists bits: seq<bit>, n: nat, at: nat, z: nat, pos: nat ::
      ReadsUnwritten(pool, pool0, root, l, bits, n, at, z, pos) && at + Lsb(bits, pos, z) < hn
  }

  lemma {:induction false} WalkOne(pool: seq<Huft>, at: nat, z: nat, bits: seq<bit>, pos: nat, n: nat, to: nat, z': nat,
                                   pos': nat)
    requires Walk(pool, at, z, bits, pos, n, to, z', pos') && pos' + z' <= |bits|
    requires to + Lsb(bits, pos', z') < |pool| && 0 < pool[to + Lsb(bits, pos', z')].exop < 16
    ensures var en := pool[to + Lsb(bits, pos', z')];
            Walk(pool, at, z, bits, pos, n + 1, to + Lsb(bits, pos', z') + en.base, en.exop, pos' + en.bits)
    decreases n
  {
    if n > 0 {
      var at' := at + Lsb(bits, pos, z);
      WalkOne(pool, at' + pool[at'].base, pool[at'].exop, bits, pos + pool[at'].bits, n - 1, to, z', pos');
    }
  }

  /** The link's index is the next l bits of the prefix. */
  lemma PrefixIndex(bits: seq<bit>, w: nat, l: nat, t: Tab)
    requires w + l <= |bits| && Msb(bits, 0, w + l) == t.pre
    ensures Msb(bits, 0, w) == Shr(t.pre, l) && Lsb(bits, w, l) == LinkPlace(l, t)
  {
    MsbSplit(bits, 0, w, l);
    LsbIsRevMsb(bits, w, l);
    MsbBound(bits, w, l);
    SplitUnique(Msb(bits, 0, w), l, Msb(bits, w, l));
  }

  lemma Narrower(jb: Job, tabs: seq<Tab>, i: nat)
    requires i <= |tabs| && NarrowBefore(jb, tabs, i)
    ensures forall p: nat | p <= i :: NarrowBefore(jb, tabs, p)
  {
  }

  /** Bits that start with the prefix of a table lead to it, up to the first wide one. */
  lemma {:induction false} WalkTo(jb: Job, k: nat, tabs: seq<Tab>, hn: nat, pool: seq<Huft>, pool0: seq<Huft>, i: nat,
                                  bits: seq<bit>) returns (n: nat)
    requires jb.l >= 1 && jb.g <= MAX_BITS && History(jb, k, tabs, hn, pool, pool0) && TabsOK(jb.g, tabs, hn)
    requires i < |tabs| && NarrowBefore(jb, tabs, i)
    requires tabs[0].w == 0 && tabs[0].z == jb.l
    requires tabs[i].w <= |bits| && Msb(bits, 0, tabs[i].w) == tabs[i].pre
    ensures Walk(pool, tabs[0].addr, jb.l, bits, 0, n, tabs[i].addr, tabs[i].z, tabs[i].w)
  {
    hide Shl, Shr, Mask, Rev, Lsb, Msb, GapAt, NarrowBefore;
    Narrower(jb, tabs, i);
    if i == 0 {
      n := 0;
    } else {
      assert Reachable(jb, tabs, i, pool);
      var p: nat :| LinkFrom(jb, tabs, p, i, pool);
      PrefixIndex(bits, tabs[p].w, jb.l, tabs[i]);
      var m := WalkTo(jb, k, tabs, hn, pool, pool0, p, bits);
      assert TabOK(jb.g, tabs[i], hn);
      WalkOne(pool, tabs[0].addr, jb.l, bits, 0, m, tabs[p].addr, jb.l, tabs[p].w);
      n := m + 1;
    }
  }

  /** The n bits of v, most significant first. */
  function MsbBits(v: nat, n: nat): (r: seq<bit>)
    ensures |r| == n
  {
    if n == 0 then [] else MsbBits(v / 2, n - 1) + [v % 2]
  }

  lemma {:induction false} MsbOfBits(v: nat, n: nat, rest: seq<bit>)
    requires v < Pow2(n)
    ensures Msb(MsbBits(v, n) + rest, 0, n) == v
    decreases n
  {
    if n > 0 {
      var b: bit := v % 2;
      assert MsbBits(v, n) + rest == MsbBits(v / 2, n - 1) + ([b] + rest);
      MsbOfBits(v / 2, n - 1, [b] + rest);
    }
  }

  lemma {:induction false} LsbOfOnes(bits: seq<bit>, pos: nat, z: nat)
    requires pos + z <= |bits| && forall i | pos <= i < pos + z :: bits[i] == 1
    ensures Lsb(bits, pos, z) == Pow2(z) - 1
    decreases z
  {
    if z > 0 { LsbOfOnes(bits, pos + 1, z - 1); }
  }

  lemma {:induction false} FirstWide(jb: Job, tabs: seq<Tab>, n: nat) returns (d: nat)
    requires n <= |tabs| && exists i :: 0 <= i < n && tabs[i].z > jb.l
    ensures d < n && tabs[d].z > jb.l && NarrowBefore(jb, tabs, d)
  {
    if NarrowBefore(jb, tabs, n - 1) {
      d := n - 1;
    } else {
      d := FirstWide(jb, tabs, n - 1);
    }
  }

  /** A wide table: the decoder reaches one of its unwritten entries. */
  lemma GapReached(jb: Job, k: nat, tabs: seq<Tab>, hn: nat, pool: seq<Huft>, pool0: seq<Huft>)
    requires jb.l >= 1 && jb.g <= MAX_BITS && History(jb, k, tabs, hn, pool, pool0) && TabsOK(jb.g, tabs, hn)
    requires Wide(jb, tabs) && tabs[0].w == 0 && tabs[0].z == jb.l && hn <= |pool|
    ensures Unbuilt(pool, pool0, tabs[0].addr, jb.l, hn)
  {
    hide Shl, Lsb, Msb, Walk, Reachable;
    var d := FirstWide(jb, tabs, |tabs|);
    var t := tabs[d];
    assert TabOK(jb.g, t, hn);
    var ones: seq<bit> := seq(t.z, i => 1);
    var bits := MsbBits(t.pre, t.w) + ones;
    MsbOfBits(t.pre, t.w, ones);
    var n := WalkTo(jb, k, tabs, hn, pool, pool0, d, bits);
    LsbOfOnes(bits, t.w, t.z);
    LastUnwritten(jb, k, tabs, hn, pool, pool0, d);
    assert ReadsUnwritten(pool, pool0, tabs[0].addr, jb.l, bits, n, t.addr, t.z, t.w);
  }

  lemma LastUnwritten(jb: Job, k: nat, tabs: seq<Tab>, hn: nat, pool: seq<Huft>, pool0: seq<Huft>, d: nat)
    requires History(jb, k, tabs, hn, pool, pool0) && TabsOK(jb.g, tabs, hn) && jb.l >= 1
    requires d < |tabs| && tabs[d].z > jb.l && NarrowBefore(jb, tabs, d) && hn <= |pool|
    ensures var x := tabs[d].addr + Pow2(tabs[d].z) - 1;
            0 <= x < hn && x < |pool| && pool[x] == pool0[x]
  {
    hide Shl, Reachable;
    var t := tabs[d];
    assert TabOK(jb.g, t, hn) && GapAt(jb, k, tabs, d, pool, pool0);
    Pow2Mono(jb.l, t.z);
    Pow2Pos(jb.l);
    var x := t.addr + Pow2(t.z) - 1;
    assert t.addr + Pow2(jb.l) <= x < t.addr + Pow2(t.z);
  }
}
