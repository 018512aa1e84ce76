/** The invariant of huft_build's table-filling loop. The codes are placed in
    increasing order, so at any time the code patterns below a frontier are
    decided and their entries are right; the tables still open form a stack. */
module HuftInvariant {
  import opened Bits
  import opened Huffman
  import opened HuftTables

  /** What stays fixed: the alphabet, its longest code and the table width. */
  datatype Job = Job(a: Alphabet, g: nat, l: nat)

  ghost predicate ValidJob(jb: Job)
  {
    && ValidAlphabet(jb.a)
    && jb.g == MaxLen(jb.a.lens)
    && 1 <= jb.l <= jb.g <= MAX_BITS
    && First(jb.a.lens, jb.g) + Count(jb.a.lens, jb.g) <= Pow2(jb.g)
  }

  /** One past the last k-bit code, dummy codes of the longest length included. */
  function End(jb: Job, k: nat): nat
  {
    if k == jb.g then Pow2(jb.g) else First(jb.a.lens, k) + Count(jb.a.lens, k)
  }

  predicate IsCode(jb: Job, k: nat, code: nat)
  {
    1 <= k <= jb.g && First(jb.a.lens, k) <= code < End(jb, k)
  }

  /** The tables still open: level, table addresses and code prefixes as the
      source keeps them in h, u and x, and which table of the list each one is. */
  datatype Stack = Stack(h: int, u: seq<nat>, x: seq<nat>, tabs: seq<Tab>, st: seq<nat>)

  /** Multiples of l: bits consumed before a table. */
  predicate Level(l: nat, w: nat)
    requires l >= 1
  {
    w == 0 || (w >= l && Level(l, w - l))
  }

  /** A sub-table's first code is more than l bits longer than the bits before
      that table. huft_build then opens a table wider than l bits of which only
      the first 2^l entries are ever linked. */
  ghost predicate SkipAt(jb: Job, k: nat, code: nat, w: nat)
    requires jb.l >= 1
  {
    && IsCode(jb, k, code)
    && 0 < w && Level(jb.l, w) && w + jb.l < k
    && Mask(code, k - w) == 0
  }

  ghost predicate NoSkip(jb: Job)
    requires jb.l >= 1
  {
    forall k: nat, code: nat, w: nat :: !SkipAt(jb, k, code, w)
  }

  /** Position of the k-bit pattern v among the g-bit patterns. */
  function At(g: nat, v: nat, k: nat): nat
    requires k <= g
  {
    Shl(v, g - k)
  }

  ghost predicate TabOK(g: nat, t: Tab, hn: nat)
  {
    t.w + t.z <= g && 1 <= t.z && t.pre < Pow2(t.w) && t.addr + Pow2(t.z) <= hn
  }

  ghost predicate TabsOK(g: nat, tabs: seq<Tab>, hn: nat)
  {
    && (forall i | 0 <= i < |tabs| :: TabOK(g, tabs[i], hn))
    && (forall i, j | 0 <= i < j < |tabs| :: tabs[i].addr + Pow2(tabs[i].z) <= tabs[j].addr)
  }

  /** The codes of length up to w + z cover the whole table, or it has at least l bits. */
  predicate Fits(jb: Job, t: Tab)
  {
    t.z >= jb.l || Shl(t.pre + 1, t.z) <= End(jb, t.w + t.z)
  }

  ghost predicate OnStack(jb: Job, k: nat, code: nat, sk: Stack, t: nat)
    requires ValidJob(jb)
    requires |sk.st| == sk.h + 1 && t <= sk.h < |sk.u| && sk.h < |sk.x|
  {
    && sk.st[t] < |sk.tabs|
    && var tab := sk.tabs[sk.st[t]];
    && tab.addr == sk.u[t]
    && t <= tab.w < k
    && Level(jb.l, tab.w)
    && tab.pre == Shr(code, k - tab.w)
    && sk.x[t] == Rev(tab.pre, tab.w)
    && (t == 0 ==> tab.w == 0)
    && (t < sk.h ==> tab.z >= jb.l && (NoSkip(jb) ==> tab.z == jb.l))
    && (t < sk.h && sk.st[t + 1] < |sk.tabs| ==> sk.tabs[sk.st[t + 1]].w == tab.w + jb.l)
    && (t == sk.h ==> Fits(jb, tab) && (NoSkip(jb) ==> tab.z <= jb.l))
  }

  ghost predicate StackOK(jb: Job, k: nat, code: nat, sk: Stack)
    requires ValidJob(jb)
  {
    && -1 <= sk.h < 15 && |sk.st| == sk.h + 1 && |sk.u| == 15 && |sk.x| == 16
    && sk.x[0] == 0
    && (forall t | 0 <= t <= sk.h :: sk.st[t] < |sk.tabs| && sk.tabs[sk.st[t]].w < k)
    && (forall t | 0 <= t <= sk.h :: OnStack(jb, k, code, sk, t))
    && (forall t, t' | 0 <= t < t' <= sk.h :: sk.st[t] < sk.st[t'])
  }

  /** Entry of the open table at level t that leads to the open table at level t + 1. */
  ghost predicate LinkAt(jb: Job, sk: Stack, t: nat, pool: seq<Huft>)
    requires |sk.st| == sk.h + 1 && t < sk.h
  {
    && sk.st[t] < |sk.tabs| && sk.st[t + 1] < |sk.tabs|
    && var tab, next := sk.tabs[sk.st[t]], sk.tabs[sk.st[t + 1]];
       var j := Rev(Mask(next.pre, jb.l), jb.l);
       && tab.addr + j < |pool|
       && pool[tab.addr + j].bits == jb.l
       && LinksTo(jb.l, next, tab, j, pool[tab.addr + j])
  }

  ghost predicate Links(jb: Job, sk: Stack, pool: seq<Huft>)
    requires |sk.st| == sk.h + 1
  {
    forall t | 0 <= t < sk.h :: LinkAt(jb, sk, t, pool)
  }

  /** Every table that is no longer open lies wholly below the frontier. */
  ghost predicate Closed(jb: Job, k: nat, code: nat, sk: Stack)
    requires k <= jb.g
    requires forall i | 0 <= i < |sk.tabs| :: sk.tabs[i].w <= jb.g
  {
    forall i | 0 <= i < |sk.tabs| :: ClosedAt(jb, k, code, sk, i)
  }

  predicate ClosedAt(jb: Job, k: nat, code: nat, sk: Stack, i: nat)
    requires k <= jb.g && i < |sk.tabs| && sk.tabs[i].w <= jb.g
  {
    i in sk.st || ClosedTab(jb, k, code, sk.tabs[i])
  }

  predicate ClosedTab(jb: Job, k: nat, code: nat, t: Tab)
    requires k <= jb.g && t.w <= jb.g
  {
    At(jb.g, t.pre + 1, t.w) <= At(jb.g, code, k)
  }

  ghost predicate Done(jb: Job, tabs: seq<Tab>, i: nat, j: nat, frontier: nat, pool: seq<Huft>)
    requires ValidAlphabet(jb.a) && i < |tabs| && tabs[i].w + tabs[i].z <= jb.g
  {
    At(jb.g, CellCode(tabs[i], j), tabs[i].w + tabs[i].z) < frontier
    ==> CellAt(jb.a, jb.g, jb.l, tabs, i, j, pool)
  }

  ghost predicate CellsDone(jb: Job, tabs: seq<Tab>, frontier: nat, pool: seq<Huft>)
    requires ValidAlphabet(jb.a)
    requires forall i | 0 <= i < |tabs| :: tabs[i].w + tabs[i].z <= jb.g
  {
    forall i, j | 0 <= i < |tabs| && 0 <= j < Pow2(tabs[i].z) :: Done(jb, tabs, i, j, frontier, pool)
  }

  /** A new table opens only at a code whose bits beyond the open tables are zero. */
  ghost predicate TrailingZeros(jb: Job, k: nat, code: nat, w: nat)
  {
    k > w ==> Mask(code, k - w) == 0
  }

  ghost predicate Inv(jb: Job, k: nat, code: nat, sk: Stack, hn: nat, pool: seq<Huft>)
  {
    && ValidJob(jb)
    && 1 <= k <= jb.g
    && hn <= |pool|
    && TabsOK(jb.g, sk.tabs, hn)
    && (forall i | 0 <= i < |sk.tabs| :: TabOK(jb.g, sk.tabs[i], hn))
    && StackOK(jb, k, code, sk)
    && Closed(jb, k, code, sk)
    && TrailingZeros(jb, k, code, Depth(jb, sk))
    && (NoSkip(jb) ==> Links(jb, sk, pool) && CellsDone(jb, sk.tabs, At(jb.g, code, k), pool))
  }

  /** Bits covered by the open tables: w + l in the source. */
  function Depth(jb: Job, sk: Stack): nat
    requires |sk.st| == sk.h + 1
  {
    if sk.h < 0 || sk.st[sk.h] >= |sk.tabs| then 0 else sk.tabs[sk.st[sk.h]].w + jb.l
  }
}
