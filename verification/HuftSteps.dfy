/** What each step of huft_build's filling loop keeps of the invariant. */
module HuftSteps {
  import opened Bits
  import opened Huffman
  import opened HuftTables
  import opened HuftInvariant

  // ---------- positions ----------

  lemma AtRefine(g: nat, v: nat, k: nat, d: nat)
    requires k + d <= g
    ensures At(g, v, k) == At(g, Shl(v, d), k + d)
  {
    ShlShl(v, d, g - k - d);
    assert d + (g - k - d) == g - k;
  }

  lemma AtOrder(g: nat, v: nat, v': nat, k: nat)
    requires k <= g
    ensures v < v' <==> At(g, v, k) < At(g, v', k)
    ensures v == v' <==> At(g, v, k) == At(g, v', k)
  {
    ShlOrder(v, v', g - k);
  }

  /** A pattern lies in the block of its prefix. */
  lemma AtPrefix(g: nat, v: nat, w: nat, d: nat)
    requires w + d <= g
    ensures At(g, Shr(v, d), w) <= At(g, v, w + d) < At(g, Shr(v, d) + 1, w)
    ensures Mask(v, d) == 0 ==> At(g, Shr(v, d), w) == At(g, v, w + d)
  {
    var q := Shr(v, d);
    Split(v, d);
    AtRefine(g, q, w, d);
    AtRefine(g, q + 1, w, d);
    ShlPlus(q, 1, d);
    AtOrder(g, v, Shl(q + 1, d), w + d);
    AtOrder(g, Shl(q, d), v, w + d);
  }

  /** A pattern in the block of a prefix has that prefix. */
  lemma AtBlock(g: nat, v: nat, pre: nat, w: nat, d: nat)
    requires w + d <= g
    requires At(g, pre, w) <= At(g, v, w + d) < At(g, pre + 1, w)
    ensures Shr(v, d) == pre
  {
    AtPrefix(g, v, w, d);
    AtOrder(g, Shr(v, d), pre + 1, w);
    AtOrder(g, pre, Shr(v, d) + 1, w);
  }

  lemma CodeBound(jb: Job, k: nat, code: nat)
    requires ValidJob(jb) && IsCode(jb, k, code)
    ensures code < Pow2(k)
    ensures End(jb, k) <= Pow2(k)
  {
    EndBound(jb, k);
  }

  /** No more codes of length up to k than there are k-bit patterns. */
  lemma EndBound(jb: Job, k: nat)
    requires ValidJob(jb) && 1 <= k <= jb.g
    ensures End(jb, k) <= Pow2(k)
  {
    if k < jb.g {
      UsedGrows(jb.a.lens, k, jb.g);
      FirstIsUsed(jb.a.lens, k);
      ShlShl(1, k, jb.g - k);
      ShlOrder(Pow2(k), End(jb, k), jb.g - k);
    }
  }

  /** Shorter codes end before longer codes begin. */
  lemma EndBefore(jb: Job, j: nat, k: nat)
    requires ValidJob(jb) && 1 <= j < k <= jb.g
    ensures At(jb.g, End(jb, j), j) <= At(jb.g, First(jb.a.lens, k), k)
  {
    UsedGrows(jb.a.lens, j, k);
    FirstIsUsed(jb.a.lens, j);
    AtRefine(jb.g, End(jb, j), j, k - j);
    assert j + (k - j) == k;
    AtOrder(jb.g, First(jb.a.lens, k), Shl(End(jb, j), k - j), k);
  }

  /** A code that fits below an open table is not longer than the table reaches,
      unless the table has at least l bits. */
  lemma FitsCode(jb: Job, t: Tab, k: nat, code: nat)
    requires ValidJob(jb) && IsCode(jb, k, code) && Fits(jb, t)
    requires t.w < k && 1 <= t.z && t.w + t.z <= jb.g && t.pre == Shr(code, k - t.w)
    ensures t.z >= jb.l || k <= t.w + t.z
  {
    hide Shl, Shr, Mask, Rev, First, MaxLen, CountBelow, Used;
    if t.z < jb.l && k > t.w + t.z {
      var r := t.w + t.z;
      AtPrefix(jb.g, code, t.w, k - t.w);
      AtRefine(jb.g, t.pre + 1, t.w, t.z);
      EndBefore(jb, r, k);
      AtOrder(jb.g, End(jb, r), Shl(t.pre + 1, t.z), r);
      AtOrder(jb.g, code, First(jb.a.lens, k), k);
      assert false;
    }
  }

  // ---------- opening a table ----------

  /** The table that opens for the current code, below all open tables. */
  function NewTab(jb: Job, k: nat, code: nat, sk: Stack, hn: nat, z: nat): Tab
    requires |sk.st| == sk.h + 1 && Depth(jb, sk) <= k
  {
    Tab(hn, Depth(jb, sk), Shr(code, k - Depth(jb, sk)), z)
  }

  /** The open tables after another one opened: x gets the reversed code i. */
  function Pushed(jb: Job, k: nat, code: nat, sk: Stack, hn: nat, z: nat, i: nat): Stack
    requires |sk.st| == sk.h + 1 && Depth(jb, sk) <= k
    requires -1 <= sk.h < 14 && |sk.u| == 15 && |sk.x| == 16
  {
    Stack(sk.h + 1, sk.u[sk.h + 1 := hn],
          if sk.h < 0 then sk.x else sk.x[sk.h + 1 := i],
          sk.tabs + [NewTab(jb, k, code, sk, hn, z)], sk.st + [|sk.tabs|])
  }

  /** The pool after the open table at the top got its link to the new table. */
  function Linked(jb: Job, sk: Stack, hn: nat, z: nat, i: nat, pool: seq<Huft>): seq<Huft>
    requires |sk.st| == sk.h + 1 && -1 <= sk.h < |sk.u|
    requires sk.h >= 0 ==> sk.st[sk.h] < |sk.tabs|
  {
    if sk.h < 0 then pool
    else
      var j := Shr(i, sk.tabs[sk.st[sk.h]].w);
      if sk.u[sk.h] + j < |pool| && hn >= sk.u[sk.h] + j
      then pool[sk.u[sk.h] + j := Huft(z, jb.l, hn - sk.u[sk.h] - j)] else pool
  }

  ghost predicate CanOpen(jb: Job, k: nat, code: nat, sk: Stack, hn: nat, z: nat, pool: seq<Huft>)
  {
    && Inv(jb, k, code, sk, hn, pool)
    && IsCode(jb, k, code)
    && Depth(jb, sk) < k
    && 1 <= z && Depth(jb, sk) + z <= jb.g
    && Fits(jb, NewTab(jb, k, code, sk, hn, z))
    && (NoSkip(jb) ==> z <= jb.l)
    && hn + Pow2(z) <= |pool|
  }

  /** Facts about the table at the top when a code reaches beyond it. */
  lemma TopFull(jb: Job, k: nat, code: nat, sk: Stack, hn: nat, pool: seq<Huft>)
    requires Inv(jb, k, code, sk, hn, pool) && IsCode(jb, k, code) && Depth(jb, sk) < k && sk.h >= 0
    ensures var t := sk.tabs[sk.st[sk.h]]; t.z >= jb.l && (NoSkip(jb) ==> t.z == jb.l)
    ensures var t := sk.tabs[sk.st[sk.h]]; t.w < Depth(jb, sk)
  {
    assert OnStack(jb, k, code, sk, sk.h);
    var t := sk.tabs[sk.st[sk.h]];
    assert TabOK(jb.g, t, hn);
    FitsCode(jb, t, k, code);
  }

  lemma DepthLevel(jb: Job, k: nat, code: nat, sk: Stack)
    requires ValidJob(jb) && StackOK(jb, k, code, sk) && Depth(jb, sk) < k <= jb.g
    ensures sk.h + 1 <= Depth(jb, sk) && sk.h < 14
    ensures Level(jb.l, Depth(jb, sk))
  {
    if sk.h >= 0 {
      assert OnStack(jb, k, code, sk, sk.h);
    }
  }

  /** The index of the new link: the next l code bits, reversed. */
  lemma LinkIndex(jb: Job, k: nat, code: nat, sk: Stack, hn: nat, z: nat, pool: seq<Huft>)
    requires CanOpen(jb, k, code, sk, hn, z, pool) && sk.h >= 0
    ensures var top, nt := sk.tabs[sk.st[sk.h]], NewTab(jb, k, code, sk, hn, z);
            var j := Shr(Rev(code, k), top.w);
            && j == Rev(Mask(nt.pre, jb.l), jb.l) < Pow2(jb.l)
            && Shr(nt.pre, jb.l) == top.pre
            && Rev(code, k) == Rev(nt.pre, nt.w)
            && (top.z == jb.l ==> CellCode(top, j) == nt.pre)
  {
    hide Shl, Shr, Mask, Rev, First, MaxLen, CountBelow, Used;
    assert OnStack(jb, k, code, sk, sk.h);
    var top, nt := sk.tabs[sk.st[sk.h]], NewTab(jb, k, code, sk, hn, z);
    LinkArith(code, k, top.w, jb.l);
  }

  /** The l code bits after the first w, with nothing but zeros behind them. */
  lemma LinkArith(code: nat, k: nat, w: nat, l: nat)
    requires w + l <= k && Mask(code, k - (w + l)) == 0
    ensures var pre := Shr(code, k - (w + l));
            var j := Shr(Rev(code, k), w);
            && j == Rev(Mask(pre, l), l) < Pow2(l)
            && Shr(pre, l) == Shr(code, k - w)
            && Rev(code, k) == Rev(pre, w + l)
            && Shl(Shr(pre, l), l) + Rev(j, l) == pre
  {
    var pre := Shr(code, k - (w + l));
    RevTrailingZeros(code, w + l, k - (w + l));
    RevParts(pre, w, l);
    RevBound(Mask(pre, l), l);
    ShrShr(code, l, k - (w + l));
    assert l + (k - (w + l)) == k - w;
    Split(pre, l);
    RevRev(Mask(pre, l), l);
  }

  lemma {:induction false} OpenTabs(jb: Job, k: nat, code: nat, sk: Stack, hn: nat, z: nat, pool: seq<Huft>)
    requires CanOpen(jb, k, code, sk, hn, z, pool)
    ensures TabsOK(jb.g, sk.tabs + [NewTab(jb, k, code, sk, hn, z)], hn + Pow2(z))
  {
    CodeBound(jb, k, code);
    var nt := NewTab(jb, k, code, sk, hn, z);
    ShrBound(code, nt.w, k - nt.w);
    var tabs := sk.tabs + [nt];
    forall i | 0 <= i < |tabs|
      ensures TabOK(jb.g, tabs[i], hn + Pow2(z))
    {
      if i < |sk.tabs| { assert TabOK(jb.g, sk.tabs[i], hn); }
    }
    forall i, j | 0 <= i < j < |tabs|
      ensures tabs[i].addr + Pow2(tabs[i].z) <= tabs[j].addr
    {
      assert TabOK(jb.g, sk.tabs[i], hn);
    }
  }

  /** An open table stays open, one level further from the top. */
  lemma OpenStackOld(jb: Job, k: nat, code: nat, sk: Stack, nt: Tab, i: nat, t: nat)
    requires ValidJob(jb) && StackOK(jb, k, code, sk) && 0 <= sk.h < 14 && t <= sk.h
    requires var top := sk.tabs[sk.st[sk.h]];
             top.z >= jb.l && (NoSkip(jb) ==> top.z == jb.l) && nt.w == top.w + jb.l
    ensures OnStack(jb, k, code,
                    Stack(sk.h + 1, sk.u[sk.h + 1 := nt.addr], sk.x[sk.h + 1 := i], sk.tabs + [nt],
                          sk.st + [|sk.tabs|]), t)
  {
    assert OnStack(jb, k, code, sk, t);
    if t < sk.h { assert OnStack(jb, k, code, sk, t + 1); }
  }

  lemma OpenStackTop(jb: Job, k: nat, code: nat, sk: Stack, hn: nat, z: nat, pool: seq<Huft>)
    requires CanOpen(jb, k, code, sk, hn, z, pool) && sk.h < 14
    ensures OnStack(jb, k, code, Pushed(jb, k, code, sk, hn, z, Rev(code, k)), sk.h + 1)
  {
    hide Shl, Shr, Mask, Rev, MaxLen, CountBelow, Used, First, TabsOK, Closed, CellsDone, Links;
    DepthLevel(jb, k, code, sk);
    if sk.h >= 0 {
      LinkIndex(jb, k, code, sk, hn, z, pool);
    } else {
      RevNothing(Shr(code, k));
    }
  }

  lemma RevNothing(c: nat)
    ensures Rev(c, 0) == 0
  {
  }

  lemma OpenStack(jb: Job, k: nat, code: nat, sk: Stack, hn: nat, z: nat, pool: seq<Huft>)
    requires CanOpen(jb, k, code, sk, hn, z, pool) && sk.h < 14
    ensures StackOK(jb, k, code, Pushed(jb, k, code, sk, hn, z, Rev(code, k)))
  {
    var sk' := Pushed(jb, k, code, sk, hn, z, Rev(code, k));
    OpenStackTop(jb, k, code, sk, hn, z, pool);
    forall t | 0 <= t <= sk.h
      ensures OnStack(jb, k, code, sk', t)
    {
      TopFull(jb, k, code, sk, hn, pool);
      OpenStackOld(jb, k, code, sk, NewTab(jb, k, code, sk, hn, z), Rev(code, k), t);
    }
    OpenStackOrder(sk.st, |sk.tabs|);
  }

  lemma OpenStackOrder(st: seq<nat>, n: nat)
    requires forall t | 0 <= t < |st| :: st[t] < n
    requires forall t, t' | 0 <= t < t' < |st| :: st[t] < st[t']
    ensures forall t, t' | 0 <= t < t' < |st| + 1 :: (st + [n])[t] < (st + [n])[t']
  {
  }

  /** Tables do not overlap, so different cells have different addresses. */
  lemma CellsApart(g: nat, tabs: seq<Tab>, hn: nat, i: nat, j: nat, i': nat, j': nat)
    requires TabsOK(g, tabs, hn) && i < |tabs| && i' < |tabs|
    requires j < Pow2(tabs[i].z) && j' < Pow2(tabs[i'].z)
    requires i != i' || j != j'
    ensures tabs[i].addr + j != tabs[i'].addr + j'
  {
    if i < i' {
      assert tabs[i].addr + Pow2(tabs[i].z) <= tabs[i'].addr;
    } else if i' < i {
      assert tabs[i'].addr + Pow2(tabs[i'].z) <= tabs[i].addr;
    }
  }

  /** Growing the list of tables keeps right entries right. */
  lemma CellGrow(jb: Job, tabs: seq<Tab>, more: seq<Tab>, i: nat, j: nat, pool: seq<Huft>, pool': seq<Huft>)
    requires ValidAlphabet(jb.a) && i < |tabs| && CellAt(jb.a, jb.g, jb.l, tabs, i, j, pool)
    requires |pool'| == |pool| && pool'[tabs[i].addr + j] == pool[tabs[i].addr + j]
    ensures CellAt(jb.a, jb.g, jb.l, tabs + more, i, j, pool')
  {
    var t := tabs[i];
    var en := pool[t.addr + j];
    if !LeafCell(jb.a, jb.g, jb.l, t, j, en) {
      var n :| 0 <= n < |tabs| && LinksTo(jb.l, tabs[n], t, j, en);
      assert LinksTo(jb.l, (tabs + more)[n], t, j, en);
    }
  }

  ghost predicate ChangedAt(pool: seq<Huft>, pool': seq<Huft>, at: nat)
  {
    |pool'| == |pool| && forall x | 0 <= x < |pool| && x != at :: pool'[x] == pool[x]
  }

  /** The link's own cell starts exactly at the frontier. */
  lemma LinkPool(jb: Job, k: nat, code: nat, sk: Stack, hn: nat, z: nat, pool: seq<Huft>)
    requires CanOpen(jb, k, code, sk, hn, z, pool) && sk.h >= 0
    ensures var top := sk.tabs[sk.st[sk.h]];
            var j := Shr(Rev(code, k), top.w);
            && top.addr == sk.u[sk.h] && j < Pow2(jb.l) <= Pow2(top.z)
            && top.addr + Pow2(top.z) <= hn <= |pool|
            && Linked(jb, sk, hn, z, Rev(code, k), pool)
               == pool[top.addr + j := Huft(z, jb.l, hn - top.addr - j)]
            && ChangedAt(pool, Linked(jb, sk, hn, z, Rev(code, k), pool), top.addr + j)
            && (NoSkip(jb) ==> At(jb.g, CellCode(top, j), top.w + top.z) == At(jb.g, code, k))
  {
    hide Shl, Shr, Mask, Rev, First, MaxLen, CountBelow, Used;
    assert OnStack(jb, k, code, sk, sk.h);
    var top := sk.tabs[sk.st[sk.h]];
    assert TabOK(jb.g, top, hn);
    LinkIndex(jb, k, code, sk, hn, z, pool);
    TopFull(jb, k, code, sk, hn, pool);
    Pow2Mono(jb.l, top.z);
    AtPrefix(jb.g, code, Depth(jb, sk), k - Depth(jb, sk));
  }

  lemma OpenLinkTop(jb: Job, k: nat, code: nat, sk: Stack, hn: nat, z: nat, pool: seq<Huft>)
    requires CanOpen(jb, k, code, sk, hn, z, pool) && 0 <= sk.h < 14 && NoSkip(jb)
    ensures LinkAt(jb, Pushed(jb, k, code, sk, hn, z, Rev(code, k)), sk.h, Linked(jb, sk, hn, z, Rev(code, k), pool))
  {
    LinkPool(jb, k, code, sk, hn, z, pool);
    LinkIndex(jb, k, code, sk, hn, z, pool);
    TopFull(jb, k, code, sk, hn, pool);
  }

  /** Writing another cell leaves a link alone. */
  lemma OpenLinkOld(jb: Job, sk: Stack, sk': Stack, hn: nat, t: nat, top: nat, j': nat,
                    pool: seq<Huft>, pool': seq<Huft>)
    requires |sk.st| == sk.h + 1 && |sk'.st| == sk'.h + 1
    requires TabsOK(jb.g, sk.tabs, hn) && t < sk.h <= sk'.h && LinkAt(jb, sk, t, pool)
    requires sk.tabs <= sk'.tabs && sk.st <= sk'.st
    requires top < |sk.tabs| && j' < Pow2(sk.tabs[top].z) && sk.st[t] != top
    requires sk.tabs[sk.st[t]].z == jb.l
    requires ChangedAt(pool, pool', sk.tabs[top].addr + j')
    ensures LinkAt(jb, sk', t, pool')
  {
    var next := sk.tabs[sk.st[t + 1]];
    RevBound(Mask(next.pre, jb.l), jb.l);
    CellsApart(jb.g, sk.tabs, hn, sk.st[t], Rev(Mask(next.pre, jb.l), jb.l), top, j');
  }

  lemma OpenLinks(jb: Job, k: nat, code: nat, sk: Stack, hn: nat, z: nat, pool: seq<Huft>)
    requires CanOpen(jb, k, code, sk, hn, z, pool) && sk.h < 14 && NoSkip(jb)
    ensures Links(jb, Pushed(jb, k, code, sk, hn, z, Rev(code, k)), Linked(jb, sk, hn, z, Rev(code, k), pool))
  {
    hide Shl, Shr, Mask, Rev, First, MaxLen, CountBelow, Used;
    var sk' := Pushed(jb, k, code, sk, hn, z, Rev(code, k));
    var pool' := Linked(jb, sk, hn, z, Rev(code, k), pool);
    if sk.h >= 0 {
      OpenLinkTop(jb, k, code, sk, hn, z, pool);
      LinkPool(jb, k, code, sk, hn, z, pool);
      OpenLinksOld(jb, k, code, sk, sk', hn, Shr(Rev(code, k), sk.tabs[sk.st[sk.h]].w), pool, pool');
    }
  }

  lemma OpenLinksOld(jb: Job, k: nat, code: nat, sk: Stack, sk': Stack, hn: nat, j': nat,
                     pool: seq<Huft>, pool': seq<Huft>)
    requires ValidJob(jb) && StackOK(jb, k, code, sk) && TabsOK(jb.g, sk.tabs, hn) && NoSkip(jb)
    requires 0 <= sk.h <= sk'.h && |sk'.st| == sk'.h + 1 && sk.tabs <= sk'.tabs && sk.st <= sk'.st
    requires Links(jb, sk, pool)
    requires j' < Pow2(sk.tabs[sk.st[sk.h]].z)
    requires ChangedAt(pool, pool', sk.tabs[sk.st[sk.h]].addr + j')
    ensures forall t | 0 <= t < sk.h :: LinkAt(jb, sk', t, pool')
  {
    forall t | 0 <= t < sk.h
      ensures LinkAt(jb, sk', t, pool')
    {
      assert OnStack(jb, k, code, sk, t);
      assert LinkAt(jb, sk, t, pool);
      OpenLinkOld(jb, sk, sk', hn, t, sk.st[sk.h], j', pool, pool');
    }
  }

  /** Cells below the frontier are not the one that starts at the frontier. */
  lemma CellKept(jb: Job, tabs: seq<Tab>, nt: Tab, hn: nat, i: nat, j: nat, top: nat, jt: nat, f: nat,
                 pool: seq<Huft>, pool': seq<Huft>)
    requires ValidAlphabet(jb.a) && TabsOK(jb.g, tabs, hn)
    requires i < |tabs| && j < Pow2(tabs[i].z) && top < |tabs| && jt < Pow2(tabs[top].z)
    requires tabs[i].w + tabs[i].z <= jb.g && tabs[top].w + tabs[top].z <= jb.g
    requires At(jb.g, CellCode(tabs[i], j), tabs[i].w + tabs[i].z) < f
    requires At(jb.g, CellCode(tabs[top], jt), tabs[top].w + tabs[top].z) >= f
    requires Done(jb, tabs, i, j, f, pool)
    requires ChangedAt(pool, pool', tabs[top].addr + jt)
    ensures CellAt(jb.a, jb.g, jb.l, tabs + [nt], i, j, pool')
  {
    CellsApart(jb.g, tabs, hn, i, j, top, jt);
    CellGrow(jb, tabs, [nt], i, j, pool, pool');
  }

  lemma CellsOld(jb: Job, tabs: seq<Tab>, nt: Tab, hn: nat, top: nat, jt: nat, f: nat,
                 pool: seq<Huft>, pool': seq<Huft>)
    requires ValidAlphabet(jb.a) && TabsOK(jb.g, tabs, hn)
    requires forall i | 0 <= i < |tabs| :: tabs[i].w + tabs[i].z <= jb.g
    requires CellsDone(jb, tabs, f, pool)
    requires top < |tabs| && jt < Pow2(tabs[top].z)
    requires At(jb.g, CellCode(tabs[top], jt), tabs[top].w + tabs[top].z) >= f
    requires ChangedAt(pool, pool', tabs[top].addr + jt)
    ensures forall i, j | 0 <= i < |tabs| && 0 <= j < Pow2(tabs[i].z) :: Done(jb, tabs + [nt], i, j, f, pool')
  {
    forall i, j | 0 <= i < |tabs| && 0 <= j < Pow2(tabs[i].z)
      ensures Done(jb, tabs + [nt], i, j, f, pool')
    {
      if At(jb.g, CellCode(tabs[i], j), tabs[i].w + tabs[i].z) < f {
        assert Done(jb, tabs, i, j, f, pool);
        CellKept(jb, tabs, nt, hn, i, j, top, jt, f, pool, pool');
      }
    }
  }

  /** No cell of the new table is below the frontier, which is where the table starts. */
  lemma CellsNew(jb: Job, tabs: seq<Tab>, nt: Tab, f: nat, pool: seq<Huft>)
    requires ValidAlphabet(jb.a) && nt.w + nt.z <= jb.g && At(jb.g, nt.pre, nt.w) == f
    requires forall i | 0 <= i < |tabs| :: tabs[i].w + tabs[i].z <= jb.g
    requires forall i, j | 0 <= i < |tabs| && 0 <= j < Pow2(tabs[i].z) :: Done(jb, tabs + [nt], i, j, f, pool)
    ensures CellsDone(jb, tabs + [nt], f, pool)
  {
    forall j | 0 <= j < Pow2(nt.z)
      ensures Done(jb, tabs + [nt], |tabs|, j, f, pool)
    {
      CellAbove(jb.g, nt, j);
    }
  }

  lemma OpenCells(jb: Job, k: nat, code: nat, sk: Stack, hn: nat, z: nat, pool: seq<Huft>)
    requires CanOpen(jb, k, code, sk, hn, z, pool) && sk.h < 14 && NoSkip(jb)
    requires forall i | 0 <= i < |sk.tabs| :: sk.tabs[i].w + sk.tabs[i].z <= jb.g
    ensures CellsDone(jb, sk.tabs + [NewTab(jb, k, code, sk, hn, z)], At(jb.g, code, k),
                      Linked(jb, sk, hn, z, Rev(code, k), pool))
  {
    hide Shl, Shr, Mask, Rev, First, MaxLen, CountBelow, Used;
    var nt := NewTab(jb, k, code, sk, hn, z);
    var pool' := Linked(jb, sk, hn, z, Rev(code, k), pool);
    var f := At(jb.g, code, k);
    assert At(jb.g, nt.pre, nt.w) == f by { AtPrefix(jb.g, code, nt.w, k - nt.w); }
    if sk.h < 0 {
      CodeBound(jb, k, code);
      NoTables(jb, k, code, sk, hn, pool);
      CellsNew(jb, sk.tabs, nt, f, pool');
    } else {
      LinkPool(jb, k, code, sk, hn, z, pool);
      var top := sk.st[sk.h];
      OpenCellsBelow(jb, sk.tabs, nt, hn, top, Shr(Rev(code, k), sk.tabs[top].w), f, pool, pool');
    }
  }

  lemma OpenCellsBelow(jb: Job, tabs: seq<Tab>, nt: Tab, hn: nat, top: nat, jt: nat, f: nat,
                       pool: seq<Huft>, pool': seq<Huft>)
    requires ValidAlphabet(jb.a) && TabsOK(jb.g, tabs, hn)
    requires forall i | 0 <= i < |tabs| :: tabs[i].w + tabs[i].z <= jb.g
    requires CellsDone(jb, tabs, f, pool)
    requires top < |tabs| && jt < Pow2(tabs[top].z)
    requires At(jb.g, CellCode(tabs[top], jt), tabs[top].w + tabs[top].z) >= f
    requires ChangedAt(pool, pool', tabs[top].addr + jt)
    requires nt.w + nt.z <= jb.g && At(jb.g, nt.pre, nt.w) == f
    ensures CellsDone(jb, tabs + [nt], f, pool')
  {
    CellsOld(jb, tabs, nt, hn, top, jt, f, pool, pool');
    CellsNew(jb, tabs, nt, f, pool');
  }

  /** With no table open, every table is below the frontier, which is still at zero. */
  lemma NoTables(jb: Job, k: nat, code: nat, sk: Stack, hn: nat, pool: seq<Huft>)
    requires Inv(jb, k, code, sk, hn, pool) && sk.h < 0 && code < Pow2(k)
    ensures |sk.tabs| == 0
  {
    hide Shl, Shr, Mask, Rev, First, MaxLen, CountBelow, Used, Links, CellsDone, TabsOK, Fits;
    MaskSmall(code, k);
    ShlZero(jb.g - k);
    if |sk.tabs| > 0 {
      var t := sk.tabs[0];
      assert ClosedAt(jb, k, code, sk, 0);
      assert TabOK(jb.g, t, hn);
      ShlZero(jb.g - t.w);
      AtOrder(jb.g, 0, t.pre + 1, t.w);
    }
  }

  /** Every cell of a table lies in the block of the table's prefix. */
  lemma CellAbove(g: nat, t: Tab, j: nat)
    requires t.w + t.z <= g && j < Pow2(t.z)
    ensures At(g, t.pre, t.w) <= At(g, CellCode(t, j), t.w + t.z) < At(g, t.pre + 1, t.w)
  {
    RevBound(j, t.z);
    SplitUnique(t.pre, t.z, Rev(j, t.z));
    AtPrefix(g, CellCode(t, j), t.w, t.z);
  }

  /** Opening a table keeps the invariant. */
  lemma OpenTable(jb: Job, k: nat, code: nat, sk: Stack, hn: nat, z: nat, pool: seq<Huft>)
    requires CanOpen(jb, k, code, sk, hn, z, pool)
    ensures sk.h < 14
    ensures Inv(jb, k, code, Pushed(jb, k, code, sk, hn, z, Rev(code, k)), hn + Pow2(z),
                Linked(jb, sk, hn, z, Rev(code, k), pool))
    ensures Depth(jb, Pushed(jb, k, code, sk, hn, z, Rev(code, k))) == Depth(jb, sk) + jb.l
  {
    hide Shl, Shr, Mask, Rev, First, MaxLen, CountBelow, Used, Links, CellsDone, Fits, Level, OnStack;
    DepthLevel(jb, k, code, sk);
    OpenTabs(jb, k, code, sk, hn, z, pool);
    OpenStack(jb, k, code, sk, hn, z, pool);
    var sk' := Pushed(jb, k, code, sk, hn, z, Rev(code, k));
    assert forall i | 0 <= i < |sk.tabs| :: TabOK(jb.g, sk.tabs[i], hn);
    if NoSkip(jb) {
      OpenLinks(jb, k, code, sk, hn, z, pool);
      OpenCells(jb, k, code, sk, hn, z, pool);
    }
    forall i | 0 <= i < |sk'.tabs|
      ensures ClosedAt(jb, k, code, sk', i)
    {
      if i < |sk.tabs| {
        assert ClosedAt(jb, k, code, sk, i);
      } else {
        assert sk'.st[sk'.h] == i;
      }
    }
    if k > Depth(jb, sk') {
      ZeroTail(code, k - Depth(jb, sk), k - Depth(jb, sk'));
    }
  }
}
