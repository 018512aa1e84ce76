/** Placing one code: filling its entries, stepping to the next code, closing
    finished tables. Continues HuftSteps. */
module HuftFill {
  import opened Bits
  import opened Huffman
  import opened HuftTables
  import opened HuftInvariant
  import opened HuftSteps

  // ---------- filling entries ----------

  /** The entry r says what the k-bit pattern code stands for. */
  ghost predicate EntryFor(jb: Job, k: nat, code: nat, r: Huft)
    requires ValidAlphabet(jb.a)
  {
    || (exists sym: nat | sym < |jb.a.lens| :: IsSymbol(jb.a, k, code, sym, r))
    || (k == jb.g && code >= First(jb.a.lens, k) + Count(jb.a.lens, k) && r.exop == INVALID
        && (jb.l == jb.g ==> HasSymbolBase(jb.a, r)))
  }

  /** pool' is pool with r at every d-bit repetition of start inside table t. */
  ghost predicate Filled(t: Tab, d: nat, start: nat, r: Huft, pool: seq<Huft>, pool': seq<Huft>)
  {
    && |pool'| == |pool| && t.addr + Pow2(t.z) <= |pool|
    && (forall x | 0 <= x < |pool| && !(t.addr <= x < t.addr + Pow2(t.z)) :: pool'[x] == pool[x])
    && (forall j | 0 <= j < Pow2(t.z) ::
          pool'[t.addr + j] == if Mask(j, d) == start then r else pool[t.addr + j])
  }

  /** The first d index bits of a cell, reversed, extend the table's prefix. */
  lemma CellPrefix(t: Tab, j: nat, d: nat)
    requires d <= t.z
    ensures Shr(CellCode(t, j), t.z - d) == Shl(t.pre, d) + Rev(Mask(j, d), d)
  {
    hide Shl, Shr, Mask, Rev, First, MaxLen, CountBelow, Used;
    var e := t.z - d;
    RevPrefix(j, e, d);
    RevBound(Shr(j, d), e);
    ShlShl(t.pre, d, e);
    ShlPlus(Shl(t.pre, d), Rev(Mask(j, d), d), e);
    SplitUnique(Shl(t.pre, d) + Rev(Mask(j, d), d), e, Rev(Shr(j, d), e));
  }

  lemma MaskBound(v: nat, d: nat)
    ensures Mask(v, d) < Pow2(d)
  {
    Split(v, d);
  }

  /** A cell belongs to the current code exactly when its index repeats start. */
  lemma CellOfCode(t: Tab, j: nat, d: nat, code: nat)
    requires d <= t.z && t.pre == Shr(code, d)
    ensures Mask(j, d) == Rev(Mask(code, d), d) <==> Shr(CellCode(t, j), t.z - d) == code
  {
    CellPrefix(t, j, d);
    Split(code, d);
    MaskBound(j, d);
    MaskBound(code, d);
    RevRev(Mask(j, d), d);
    RevRev(Mask(code, d), d);
    RevBound(Mask(code, d), d);
  }

  lemma EntryIsLeaf(jb: Job, t: Tab, j: nat, k: nat, code: nat, r: Huft)
    requires ValidAlphabet(jb.a) && t.w < k <= t.w + t.z && r.bits == k - t.w
    requires Shr(CellCode(t, j), t.z - r.bits) == code && EntryFor(jb, k, code, r)
    ensures LeafCell(jb.a, jb.g, jb.l, t, j, r)
  {
    assert t.w + r.bits == k;
    if exists sym: nat | sym < |jb.a.lens| :: IsSymbol(jb.a, k, code, sym, r) {
      var sym: nat :| sym < |jb.a.lens| && IsSymbol(jb.a, k, code, sym, r);
      assert IsSymbol(jb.a, t.w + r.bits, Shr(CellCode(t, j), t.z - r.bits), sym, r);
    }
  }

  /** Cells of the top table below the new frontier are right after the fill. */
  lemma FillTop(jb: Job, tabs: seq<Tab>, top: nat, k: nat, code: nat, j: nat, r: Huft,
                pool: seq<Huft>, pool': seq<Huft>)
    requires ValidAlphabet(jb.a) && k <= jb.g && top < |tabs| && j < Pow2(tabs[top].z)
    requires var t := tabs[top];
             && t.w < k <= t.w + t.z <= jb.g && t.pre == Shr(code, k - t.w)
             && Filled(t, k - t.w, Rev(Mask(code, k - t.w), k - t.w), r, pool, pool')
             && r.bits == k - t.w
    requires EntryFor(jb, k, code, r)
    requires Done(jb, tabs, top, j, At(jb.g, code, k), pool)
    ensures Done(jb, tabs, top, j, At(jb.g, code + 1, k), pool')
  {
    hide Shl, Shr, Mask, Rev, MaxLen, First, CountBelow, Used, CellCode, LeafCell;
    var t := tabs[top];
    var d := k - t.w;
    var cv := CellCode(t, j);
    CellOfCode(t, j, d, code);
    if Mask(j, d) == Rev(Mask(code, d), d) {
      EntryIsLeaf(jb, t, j, k, code, r);
    } else if At(jb.g, cv, t.w + t.z) < At(jb.g, code + 1, k) {
      if At(jb.g, cv, t.w + t.z) >= At(jb.g, code, k) {
        assert k + (t.z - d) == t.w + t.z;
        AtBlock(jb.g, cv, code, k, t.z - d);
      }
    }
  }

  /** A cell of an open table below the top: new below the frontier is only its link. */
  lemma FillBelow(jb: Job, sk: Stack, t: nat, k: nat, code: nat, j: nat, pool: seq<Huft>, pool': seq<Huft>)
    requires ValidAlphabet(jb.a) && |sk.st| == sk.h + 1 && t < sk.h && k <= jb.g
    requires LinkAt(jb, sk, t, pool)
    requires var tab, next := sk.tabs[sk.st[t]], sk.tabs[sk.st[t + 1]];
             && tab.z == jb.l && next.w == tab.w + jb.l <= k
             && next.pre == Shr(code, k - next.w) && tab.pre == Shr(next.pre, jb.l)
             && j < Pow2(tab.z)
             && tab.addr + j < |pool| == |pool'| && pool'[tab.addr + j] == pool[tab.addr + j]
    requires Done(jb, sk.tabs, sk.st[t], j, At(jb.g, code, k), pool)
    ensures Done(jb, sk.tabs, sk.st[t], j, At(jb.g, code + 1, k), pool')
  {
    hide Shl, Shr, Mask, Rev, First, MaxLen, CountBelow, Used;
    var tab, next := sk.tabs[sk.st[t]], sk.tabs[sk.st[t + 1]];
    var cv := CellCode(tab, j);
    var lo := At(jb.g, cv, tab.w + tab.z);
    if At(jb.g, code, k) <= lo < At(jb.g, code + 1, k) {
      // the cell's block is the one the current code lies in
      AtPrefix(jb.g, code, next.w, k - next.w);
      AtNext(jb.g, code, next.w, k - next.w);
      AtOrder(jb.g, cv, next.pre + 1, next.w);
      AtOrder(jb.g, cv, next.pre, next.w);
      assert cv == next.pre;
      CellIndex(tab, j, next.pre);
      assert LinkCell(jb.l, sk.tabs, tab, j, pool[tab.addr + j]);
    }
  }

  /** One step further never leaves more than the block of the prefix. */
  lemma AtNext(g: nat, v: nat, w: nat, d: nat)
    requires w + d <= g
    ensures At(g, v + 1, w + d) <= At(g, Shr(v, d) + 1, w)
  {
    var q := Shr(v, d);
    Split(v, d);
    ShlPlus(q, 1, d);
    AtRefine(g, q + 1, w, d);
    AtOrder(g, Shl(q + 1, d), v + 1, w + d);
  }

  lemma CellIndex(t: Tab, j: nat, cv: nat)
    requires CellCode(t, j) == cv && j < Pow2(t.z)
    ensures j == Rev(Mask(cv, t.z), t.z)
  {
    RevBound(j, t.z);
    SplitUnique(t.pre, t.z, Rev(j, t.z));
    RevRev(j, t.z);
  }

  /** A closed table has no cell at or above the frontier. */
  lemma FillClosed(jb: Job, tabs: seq<Tab>, i: nat, k: nat, code: nat, j: nat, pool: seq<Huft>, pool': seq<Huft>)
    requires ValidAlphabet(jb.a) && k <= jb.g && i < |tabs| && tabs[i].w + tabs[i].z <= jb.g
    requires ClosedTab(jb, k, code, tabs[i]) && j < Pow2(tabs[i].z)
    requires tabs[i].addr + j < |pool| == |pool'| && pool'[tabs[i].addr + j] == pool[tabs[i].addr + j]
    requires Done(jb, tabs, i, j, At(jb.g, code, k), pool)
    ensures Done(jb, tabs, i, j, At(jb.g, code + 1, k), pool')
  {
    CellAbove(jb.g, tabs[i], j);
  }

  ghost predicate CanFill(jb: Job, k: nat, code: nat, sk: Stack, hn: nat, pool: seq<Huft>)
  {
    Inv(jb, k, code, sk, hn, pool) && IsCode(jb, k, code) && sk.h >= 0 && k <= Depth(jb, sk)
  }

  /** The top table reaches as far as the current code. */
  lemma TopReaches(jb: Job, k: nat, code: nat, sk: Stack, hn: nat, pool: seq<Huft>)
    requires CanFill(jb, k, code, sk, hn, pool)
    ensures var t := sk.tabs[sk.st[sk.h]];
            && t.addr == sk.u[sk.h] && t.addr + Pow2(t.z) <= hn
            && t.w < k <= t.w + t.z <= jb.g && t.pre == Shr(code, k - t.w)
            && Shr(Rev(code, k), t.w) == Rev(Mask(code, k - t.w), k - t.w)
  {
    assert OnStack(jb, k, code, sk, sk.h);
    var t := sk.tabs[sk.st[sk.h]];
    assert TabOK(jb.g, t, hn);
    FitsCode(jb, t, k, code);
    RevParts(code, t.w, k - t.w);
  }

  ghost predicate FilledTop(jb: Job, k: nat, code: nat, sk: Stack, r: Huft, pool: seq<Huft>, pool': seq<Huft>)
    requires |sk.st| == sk.h + 1 && sk.h >= 0 && sk.st[sk.h] < |sk.tabs| && sk.tabs[sk.st[sk.h]].w <= k
  {
    var t := sk.tabs[sk.st[sk.h]];
    && r.bits == k - t.w
    && Filled(t, k - t.w, Rev(Mask(code, k - t.w), k - t.w), r, pool, pool')
  }

  lemma OutsideTop(g: nat, tabs: seq<Tab>, hn: nat, top: nat, i: nat, j: nat, d: nat, start: nat, r: Huft,
                   pool: seq<Huft>, pool': seq<Huft>)
    requires TabsOK(g, tabs, hn) && top < |tabs| && i < |tabs| && i != top && j < Pow2(tabs[i].z)
    requires hn <= |pool| && Filled(tabs[top], d, start, r, pool, pool')
    ensures tabs[i].addr + j < |pool| == |pool'| && pool'[tabs[i].addr + j] == pool[tabs[i].addr + j]
  {
    assert TabOK(g, tabs[i], hn);
    if i < top {
      assert tabs[i].addr + Pow2(tabs[i].z) <= tabs[top].addr;
    } else {
      assert tabs[top].addr + Pow2(tabs[top].z) <= tabs[i].addr;
    }
  }

  /** Neighbours on the stack: prefix and width. */
  lemma StackStep(jb: Job, k: nat, code: nat, sk: Stack, t: nat)
    requires ValidJob(jb) && StackOK(jb, k, code, sk) && t < sk.h && k <= jb.g
    ensures var tab, next := sk.tabs[sk.st[t]], sk.tabs[sk.st[t + 1]];
            && next.w == tab.w + jb.l < k && next.pre == Shr(code, k - next.w)
            && tab.pre == Shr(next.pre, jb.l)
            && (NoSkip(jb) ==> tab.z == jb.l)
            && sk.st[t] != sk.st[sk.h]
  {
    assert OnStack(jb, k, code, sk, t);
    assert OnStack(jb, k, code, sk, t + 1);
    var next := sk.tabs[sk.st[t + 1]];
    ShrShr(code, jb.l, k - next.w);
    assert jb.l + (k - next.w) == k - (next.w - jb.l);
  }

  lemma FillCell(jb: Job, k: nat, code: nat, sk: Stack, hn: nat, r: Huft, pool: seq<Huft>, pool': seq<Huft>,
                 i: nat, j: nat)
    requires CanFill(jb, k, code, sk, hn, pool) && NoSkip(jb)
    requires EntryFor(jb, k, code, r) && FilledTop(jb, k, code, sk, r, pool, pool')
    requires i < |sk.tabs| && j < Pow2(sk.tabs[i].z) && sk.tabs[i].w + sk.tabs[i].z <= jb.g
    ensures Done(jb, sk.tabs, i, j, At(jb.g, code + 1, k), pool')
  {
    hide Shl, Shr, Mask, Rev, First, MaxLen, CountBelow, Used;
    var top := sk.st[sk.h];
    TopReaches(jb, k, code, sk, hn, pool);
    var tt := sk.tabs[top];
    assert Done(jb, sk.tabs, i, j, At(jb.g, code, k), pool);
    if i == top {
      FillTop(jb, sk.tabs, top, k, code, j, r, pool, pool');
    } else {
      OutsideTop(jb.g, sk.tabs, hn, top, i, j, k - tt.w, Rev(Mask(code, k - tt.w), k - tt.w), r, pool, pool');
      if i in sk.st {
        var t :| 0 <= t < |sk.st| && sk.st[t] == i;
        StackStep(jb, k, code, sk, t);
        assert LinkAt(jb, sk, t, pool);
        FillBelow(jb, sk, t, k, code, j, pool, pool');
      } else {
        assert ClosedAt(jb, k, code, sk, i);
        FillClosed(jb, sk.tabs, i, k, code, j, pool, pool');
      }
    }
  }

  lemma FillLinks(jb: Job, k: nat, code: nat, sk: Stack, hn: nat, r: Huft, pool: seq<Huft>, pool': seq<Huft>)
    requires CanFill(jb, k, code, sk, hn, pool) && NoSkip(jb)
    requires FilledTop(jb, k, code, sk, r, pool, pool')
    ensures Links(jb, sk, pool')
  {
    forall t | 0 <= t < sk.h
      ensures LinkAt(jb, sk, t, pool')
    {
      assert LinkAt(jb, sk, t, pool);
      StackStep(jb, k, code, sk, t);
      var top := sk.st[sk.h];
      var tt := sk.tabs[top];
      var next := sk.tabs[sk.st[t + 1]];
      var j := Rev(Mask(next.pre, jb.l), jb.l);
      RevBound(Mask(next.pre, jb.l), jb.l);
      OutsideTop(jb.g, sk.tabs, hn, top, sk.st[t], j, k - tt.w, Rev(Mask(code, k - tt.w), k - tt.w), r, pool, pool');
    }
  }

  // ---------- stepping to the next code and closing tables ----------

  /** The invariant between filling a code's entries and closing the tables it
      finished: the frontier has moved to code + 1, the stack still fits code. */
  ghost predicate Between(jb: Job, k: nat, code: nat, sk: Stack, hn: nat, pool: seq<Huft>)
  {
    && ValidJob(jb)
    && 1 <= k <= jb.g && code < Pow2(k)
    && hn <= |pool|
    && TabsOK(jb.g, sk.tabs, hn)
    && (forall i | 0 <= i < |sk.tabs| :: TabOK(jb.g, sk.tabs[i], hn))
    && StackOK(jb, k, code, sk) && sk.h >= 0
    && Closed(jb, k, code + 1, sk)
    && TrailingZeros(jb, k, code + 1, Depth(jb, sk))
    && (NoSkip(jb) ==> Links(jb, sk, pool) && CellsDone(jb, sk.tabs, At(jb.g, code + 1, k), pool))
  }

  lemma FillKeeps(jb: Job, k: nat, code: nat, sk: Stack, hn: nat, r: Huft, pool: seq<Huft>, pool': seq<Huft>)
    requires CanFill(jb, k, code, sk, hn, pool)
    requires EntryFor(jb, k, code, r) && FilledTop(jb, k, code, sk, r, pool, pool')
    ensures Between(jb, k, code, sk, hn, pool')
  {
    CodeBound(jb, k, code);
    if NoSkip(jb) {
      FillLinks(jb, k, code, sk, hn, r, pool, pool');
      FillCells(jb, k, code, sk, hn, r, pool, pool');
    }
    ClosedLater(jb, k, code, code + 1, sk);
  }

  lemma FillCells(jb: Job, k: nat, code: nat, sk: Stack, hn: nat, r: Huft, pool: seq<Huft>, pool': seq<Huft>)
    requires CanFill(jb, k, code, sk, hn, pool) && NoSkip(jb)
    requires EntryFor(jb, k, code, r) && FilledTop(jb, k, code, sk, r, pool, pool')
    requires forall i | 0 <= i < |sk.tabs| :: sk.tabs[i].w + sk.tabs[i].z <= jb.g
    ensures CellsDone(jb, sk.tabs, At(jb.g, code + 1, k), pool')
  {
    var f := At(jb.g, code + 1, k);
    forall i, j | 0 <= i < |sk.tabs| && 0 <= j < Pow2(sk.tabs[i].z)
      ensures Done(jb, sk.tabs, i, j, f, pool')
    {
      FillCell(jb, k, code, sk, hn, r, pool, pool', i, j);
    }
  }

  /** A closed table stays closed when the frontier moves on. */
  lemma ClosedLater(jb: Job, k: nat, code: nat, code': nat, sk: Stack)
    requires k <= jb.g && code <= code'
    requires forall i | 0 <= i < |sk.tabs| :: sk.tabs[i].w <= jb.g
    requires Closed(jb, k, code, sk)
    ensures Closed(jb, k, code', sk)
  {
    AtOrder(jb.g, code, code', k);
    forall i | 0 <= i < |sk.tabs|
      ensures ClosedAt(jb, k, code', sk, i)
    {
      assert ClosedAt(jb, k, code, sk, i);
    }
  }

  /** Adding one to a code changes a prefix only by carrying into it. */
  lemma {:induction false} Carry(code: nat, d: nat)
    ensures Shr(code + 1, d) == Shr(code, d) || (Shr(code + 1, d) == Shr(code, d) + 1 && Mask(code + 1, d) == 0)
    decreases d
  {
    if d > 0 {
      if code % 2 == 0 {
        assert (code + 1) / 2 == code / 2;
      } else {
        assert (code + 1) / 2 == code / 2 + 1;
        Carry(code / 2, d - 1);
      }
    }
  }

  /** The stack without its top table. */
  function Popped(sk: Stack): Stack
    requires sk.h >= 1 && |sk.st| == sk.h + 1
  {
    Stack(sk.h - 1, sk.u, sk.x, sk.tabs, sk.st[..sk.h])
  }

  lemma PopStack(jb: Job, k: nat, code: nat, sk: Stack)
    requires ValidJob(jb) && k <= jb.g && StackOK(jb, k, code, sk) && sk.h >= 1
    ensures StackOK(jb, k, code, Popped(sk))
    ensures Depth(jb, Popped(sk)) == sk.tabs[sk.st[sk.h]].w
  {
    hide Shl, Shr, Mask, Rev, First, MaxLen, CountBelow, Used;
    var sk' := Popped(sk);
    assert OnStack(jb, k, code, sk, sk.h - 1);
    forall t | 0 <= t <= sk'.h
      ensures OnStack(jb, k, code, sk', t)
    {
      assert OnStack(jb, k, code, sk, t);
    }
  }

  /** Closing the top table when the next code has another prefix. */
  lemma PopKeeps(jb: Job, k: nat, code: nat, sk: Stack, hn: nat, pool: seq<Huft>)
    requires Between(jb, k, code, sk, hn, pool) && sk.h >= 1
    requires Shr(code + 1, k - sk.tabs[sk.st[sk.h]].w) != sk.tabs[sk.st[sk.h]].pre
    ensures Between(jb, k, code, Popped(sk), hn, pool)
  {
    hide Shl, Shr, Mask, Rev, First, MaxLen, CountBelow, Used;
    assert OnStack(jb, k, code, sk, sk.h);
    var t := sk.tabs[sk.st[sk.h]];
    PopStack(jb, k, code, sk);
    Carry(code, k - t.w);
    AtPrefix(jb.g, code + 1, t.w, k - t.w);
    PopClosed(jb, k, code + 1, sk);
    if NoSkip(jb) {
      PopLinks(jb, sk, pool);
    }
  }

  lemma PopClosed(jb: Job, k: nat, code: nat, sk: Stack)
    requires k <= jb.g && sk.h >= 1 && |sk.st| == sk.h + 1 && sk.st[sk.h] < |sk.tabs|
    requires forall i | 0 <= i < |sk.tabs| :: sk.tabs[i].w <= jb.g
    requires Closed(jb, k, code, sk)
    requires ClosedTab(jb, k, code, sk.tabs[sk.st[sk.h]])
    ensures Closed(jb, k, code, Popped(sk))
  {
    var sk' := Popped(sk);
    forall i | 0 <= i < |sk'.tabs|
      ensures ClosedAt(jb, k, code, sk', i)
    {
      assert ClosedAt(jb, k, code, sk, i);
      if i in sk.st && i !in sk'.st {
        assert i == sk.st[sk.h];
      }
    }
  }

  lemma PopLinks(jb: Job, sk: Stack, pool: seq<Huft>)
    requires sk.h >= 1 && |sk.st| == sk.h + 1 && Links(jb, sk, pool)
    ensures Links(jb, Popped(sk), pool)
  {
    forall t | 0 <= t < sk.h - 1
      ensures LinkAt(jb, Popped(sk), t, pool)
    {
      assert LinkAt(jb, sk, t, pool);
    }
  }

  /** With the top table's prefix unchanged all open tables fit the next code. */
  lemma SettledKeeps(jb: Job, k: nat, code: nat, sk: Stack, hn: nat, pool: seq<Huft>)
    requires Between(jb, k, code, sk, hn, pool)
    requires Shr(code + 1, k - sk.tabs[sk.st[sk.h]].w) == sk.tabs[sk.st[sk.h]].pre
    ensures Inv(jb, k, code + 1, sk, hn, pool)
  {
    var next := code + 1;
    forall t | 0 <= t <= sk.h
      ensures OnStack(jb, k, next, sk, t)
    {
      assert OnStack(jb, k, code, sk, t);
      SamePrefix(jb, k, code, sk, t);
    }
  }

  lemma {:induction false} SamePrefix(jb: Job, k: nat, code: nat, sk: Stack, t: nat)
    requires ValidJob(jb) && k <= jb.g && StackOK(jb, k, code, sk) && t <= sk.h
    requires sk.tabs[sk.st[sk.h]].w <= k
    requires Shr(code + 1, k - sk.tabs[sk.st[sk.h]].w) == sk.tabs[sk.st[sk.h]].pre
    ensures sk.tabs[sk.st[t]].w <= k
    ensures Shr(code + 1, k - sk.tabs[sk.st[t]].w) == sk.tabs[sk.st[t]].pre
    decreases sk.h - t
  {
    if t < sk.h {
      SamePrefix(jb, k, code, sk, t + 1);
      StackStep(jb, k, code, sk, t);
      var next := sk.tabs[sk.st[t + 1]];
      ShrShr(code + 1, jb.l, k - next.w);
      assert jb.l + (k - next.w) == k - (next.w - jb.l);
    }
  }

  /** Going on to the next code length appends a zero to the current code. */
  lemma LengthKeeps(jb: Job, k: nat, code: nat, sk: Stack, hn: nat, pool: seq<Huft>)
    requires Inv(jb, k, code, sk, hn, pool) && k < jb.g
    ensures Inv(jb, k + 1, 2 * code, sk, hn, pool)
  {
    hide Rev, MaxLen, CountBelow, Used, First;
    AtRefine(jb.g, code, k, 1);
    assert Shl(code, 1) == 2 * Shl(code, 0) == 2 * code;
    assert At(jb.g, 2 * code, k + 1) == At(jb.g, code, k);
    var k', code' := k + 1, 2 * code;
    assert code' % 2 == 0 && code' / 2 == code;
    forall t | 0 <= t <= sk.h
      ensures OnStack(jb, k', code', sk, t)
    {
      assert OnStack(jb, k, code, sk, t);
    }
    forall i | 0 <= i < |sk.tabs|
      ensures ClosedAt(jb, k', code', sk, i)
    {
      assert ClosedAt(jb, k, code, sk, i);
    }
    var w := Depth(jb, sk);
    if k > w { assert Mask(code, k - w) == 0; }
  }
}
