/** huft_build: from code lengths to lookup tables, in place in a shared pool. */
module HuftBuild {
  import opened Bits
  import opened Huffman
  import opened HuftTables
  import opened HuftInvariant
  import opened HuftSteps
  import opened HuftFill
  import opened HuftGaps
  import opened HuftPool
  import opened HuftNeed
  import opened HuftCounts

  const Z_OK := 0
  const Z_STREAM_END := 1
  const Z_DATA_ERROR := -3
  const Z_MEM_ERROR := -4
  const Z_BUF_ERROR := -5

  /** Size of the table pool. */
  const MANY := 1440

  /** The counts after the last one was raised to fill the code set up. */
  predicate Completed(jb: Job, c: seq<nat>)
  {
    && |c| == MAX_BITS + 1 && jb.g <= MAX_BITS
    && forall k | 1 <= k <= jb.g :: First(jb.a.lens, k) + c[k] == End(jb, k)
  }

  // ---------- how wide a new table is ----------

  /** The number of index bits of the table that opens at the current code. */
  method TableSize(ghost jb: Job, c: seq<nat>, g: nat, l: nat, k: nat, w: nat, a: nat, ghost code: nat)
    returns (j: nat)
    requires ValidJob(jb) && g == jb.g && l == jb.l && Completed(jb, c)
    requires w < k <= g && IsCode(jb, k, code) && code + a + 1 == End(jb, k)
    requires Mask(code, k - w) == 0
    ensures 1 <= j && w + j <= g
    ensures Fits(jb, Tab(0, w, Shr(code, k - w), j))
    ensures k - w <= l ==> j <= l
    ensures Narrowest(jb, k, w, Shr(code, k - w), j)
  {
    hide Shl, Shr, Mask, Rev, First, MaxLen, CountBelow, Used;
    ghost var pre := Shr(code, k - w);
    BlockEnd(code, k - w);
    FullWidth(jb, k, code, w);
    var z := if g - w > l then l else g - w;
    j := k - w;
    var f: nat := Pow2(j);
    if f > a + 1 {
      f := f - (a + 1);
      if j < z {
        j := WidenTable(jb, c, k, w, z, pre, f);
      }
    }
  }

  /** Trying wider tables, up to z bits, until the codes use the table up:
      f counts the patterns still left. */
  method WidenTable(ghost jb: Job, c: seq<nat>, k: nat, w: nat, z: nat, ghost pre: nat, f0: nat)
    returns (j: nat)
    requires ValidJob(jb) && Completed(jb, c) && w < k && w + z <= jb.g && k - w < z
    requires f0 > 0 && f0 + End(jb, k) == Shl(pre + 1, k - w)
    ensures k - w < j <= z && Shl(pre + 1, j - 1) > End(jb, w + j - 1)
    ensures j == z || Shl(pre + 1, j) <= End(jb, w + j)
  {
    var f, xp := f0, k;
    j := k - w + 1;
    while j < z
      invariant k - w < j <= z && xp == w + j - 1 && f > 0
      invariant f + End(jb, xp) == Shl(pre + 1, j - 1)
    {
      EndStep(jb, c, xp);
      f := 2 * f;
      xp := xp + 1;
      if f <= c[xp] { break; }
      f := f - c[xp];
      j := j + 1;
    }
  }

  lemma EndStep(jb: Job, c: seq<nat>, k: nat)
    requires Completed(jb, c) && 1 <= k < jb.g
    ensures End(jb, k + 1) == 2 * End(jb, k) + c[k + 1]
  {
  }

  lemma BlockEnd(code: nat, d: nat)
    requires Mask(code, d) == 0
    ensures Shl(Shr(code, d) + 1, d) == code + Pow2(d)
  {
    Split(code, d);
    ShlPlus(Shr(code, d), 1, d);
  }

  /** A table that reaches the longest code length covers its whole block. */
  lemma FullWidth(jb: Job, k: nat, code: nat, w: nat)
    requires ValidJob(jb) && IsCode(jb, k, code) && w < k
    ensures Shl(Shr(code, k - w) + 1, jb.g - w) <= End(jb, jb.g)
  {
    CodeBound(jb, k, code);
    ShrBound(code, w, k - w);
    ShlShl(1, w, jb.g - w);
    ShlOrder(Pow2(w), Shr(code, k - w) + 1, jb.g - w);
  }

  /** The root table is exactly l bits wide. */
  lemma RootWidth(jb: Job, z: nat)
    requires ValidJob(jb) && Count(jb.a.lens, jb.g) > 0
    requires 1 <= z <= jb.l && Fits(jb, Tab(0, 0, 0, z))
    ensures z == jb.l
  {
    hide CountBelow, MaxLen;
    if z < jb.l {
      assert End(jb, z) >= Pow2(z);
      UsedGrows(jb.a.lens, z, jb.g);
      FirstIsUsed(jb.a.lens, z);
      ShlShl(1, z, jb.g - z);
      ShlOrder(End(jb, z), Pow2(z), jb.g - z);
      assert false;
    }
  }

  // ---------- filling entries ----------

  /** for (j = start; j < z; j += f) q[j] = r, with f = 1 << d. */
  method FillEntries(hp: array<Huft>, q: nat, z: nat, start: nat, d: nat, r: Huft, ghost t: Tab)
    requires q == t.addr && z == Pow2(t.z) && t.addr + Pow2(t.z) <= hp.Length
    requires start < Pow2(d)
    modifies hp
    ensures Filled(t, d, start, r, old(hp[..]), hp[..])
  {
    hide Shl, Mask, Pow2, FilledTo, Filled;
    var f := Pow2(d);
    var j := start;
    ghost var n := 0;
    ShlZero(d);
    ghost var before := hp[..];
    NoneFilled(before, q, z, d, start, r);
    while j < z
      invariant j == Shl(n, d) + start && hp.Length == |before|
      invariant FilledTo(before, hp[..], q, z, d, start, r, j)
      decreases z - j
    {
      ghost var pool := hp[..];
      hp[q + j] := r;
      assert hp[..] == pool[q + j := r];
      OneFilled(before, pool, q, z, d, start, r, j, n);
      ShlNext(n, d);
      Pow2Pos(d);
      j := j + f;
      n := n + 1;
    }
    AllFilled(before, hp[..], t, d, start, r, j);
  }

  /** Entries before j, of the z at q, are r where their index ends in start. */
  ghost predicate FilledTo(before: seq<Huft>, pool: seq<Huft>, q: nat, z: nat, d: nat, start: nat, r: Huft, j: nat)
  {
    && |pool| == |before| && q + z <= |pool|
    && (forall y | 0 <= y < |pool| && !(q <= y < q + z) :: pool[y] == before[y])
    && (forall y | q <= y < q + z :: pool[y] == if y < q + j && Mask(y - q, d) == start then r else before[y])
  }

  lemma NoneFilled(before: seq<Huft>, q: nat, z: nat, d: nat, start: nat, r: Huft)
    requires start < Pow2(d) && q + z <= |before|
    ensures FilledTo(before, before, q, z, d, start, r, start)
  {
    BeforeFirst(d, start);
  }

  lemma OneFilled(before: seq<Huft>, pool: seq<Huft>, q: nat, z: nat, d: nat, start: nat, r: Huft, j: nat, n: nat)
    requires start < Pow2(d) && j == Shl(n, d) + start && j < z && FilledTo(before, pool, q, z, d, start, r, j)
    ensures FilledTo(before, pool[q + j := r], q, z, d, start, r, j + Pow2(d))
  {
    hide Shl, Mask;
    NextRepeat(n, d, start, j);
    Pow2Pos(d);
  }

  lemma FilledAt(before: seq<Huft>, pool: seq<Huft>, q: nat, z: nat, d: nat, start: nat, r: Huft, j: nat, i: nat)
    requires FilledTo(before, pool, q, z, d, start, r, j) && j >= z && i < z
    ensures q + i < |pool| == |before| && pool[q + i] == if Mask(i, d) == start then r else before[q + i]
  {
    hide Mask;
    var y := q + i;
    assert y - q == i;
  }

  lemma FilledOutside(before: seq<Huft>, pool: seq<Huft>, q: nat, z: nat, d: nat, start: nat, r: Huft, j: nat)
    requires FilledTo(before, pool, q, z, d, start, r, j)
    ensures |pool| == |before| && q + z <= |pool|
    ensures forall x | 0 <= x < |pool| && !(q <= x < q + z) :: pool[x] == before[x]
  {
    hide Mask;
  }

  lemma AllFilled(before: seq<Huft>, pool: seq<Huft>, t: Tab, d: nat, start: nat, r: Huft, j: nat)
    requires FilledTo(before, pool, t.addr, Pow2(t.z), d, start, r, j) && j >= Pow2(t.z)
    ensures Filled(t, d, start, r, before, pool)
  {
    hide Mask, Pow2, FilledTo;
    FilledOutside(before, pool, t.addr, Pow2(t.z), d, start, r, j);
    forall i | 0 <= i < Pow2(t.z)
      ensures pool[t.addr + i] == if Mask(i, d) == start then r else before[t.addr + i]
    {
      FilledAt(before, pool, t.addr, Pow2(t.z), d, start, r, j, i);
    }
  }

  lemma ShlNext(n: nat, d: nat)
    ensures Shl(n + 1, d) == Shl(n, d) + Pow2(d)
  {
    ShlPlus(n, 1, d);
  }

  lemma BeforeFirst(d: nat, start: nat)
    requires start < Pow2(d)
    ensures forall x: nat | x < start :: Mask(x, d) != start
  {
    forall x: nat | x < start
      ensures Mask(x, d) != start
    {
      MaskSmall(x, d);
    }
  }

  /** Between one repetition of start and the next no index ends in start. */
  lemma NextRepeat(n: nat, d: nat, start: nat, j: nat)
    requires start < Pow2(d) && j == Shl(n, d) + start
    ensures Mask(j, d) == start
    ensures forall x: nat | j < x < j + Pow2(d) :: Mask(x, d) != start
  {
    SplitUnique(n, d, start);
    forall x: nat | j < x < j + Pow2(d)
      ensures Mask(x, d) != start
    {
      if Mask(x, d) == start {
        Split(x, d);
        ShlOrder(n, Shr(x, d), d);
        ShlPlus(n, 1, d);
        ShlOrder(Shr(x, d), n + 1, d);
      }
    }
  }

  // ---------- the next code ----------

  /** Backwards increment of the k-bit reversed code i; the mask j of the source
      is kept as its bit number t, -1 standing for zero. */
  method NextCode(i0: nat, k: nat, ghost code: nat) returns (i: nat)
    requires i0 == Rev(code, k) && k >= 1
    ensures i == Rev(code + 1, k)
  {
    i := i0;
    var t: int := k - 1;
    ghost var cc := code;
    while t >= 0 && Shr(i, t) % 2 == 1
      invariant -1 <= t < k
      invariant i == Rev(cc, t + 1)
      invariant Rev(code + 1, k) == Rev(cc + 1, t + 1)
    {
      BitOfRev(cc, t);
      i := i - Pow2(t);
      cc := cc / 2;
      t := t - 1;
    }
    if t >= 0 {
      BitOfRev(cc, t);
      i := i + Pow2(t);
    }
  }

  /** The highest bit of a reversed code is the lowest bit of the code. */
  lemma BitOfRev(cc: nat, t: nat)
    ensures Shr(Rev(cc, t + 1), t) == cc % 2
    ensures cc % 2 == 1 ==> Rev(cc, t + 1) == Pow2(t) + Rev(cc / 2, t)
                            && Rev(cc + 1, t + 1) == Rev(cc / 2 + 1, t)
    ensures cc % 2 == 0 ==> Rev(cc + 1, t + 1) == Rev(cc, t + 1) + Pow2(t)
  {
    RevBound(cc / 2, t);
    SplitUnique(cc % 2, t, Rev(cc / 2, t));
    ShlZero(t);
    if cc % 2 == 1 {
      assert (cc + 1) % 2 == 0 && (cc + 1) / 2 == cc / 2 + 1;
    } else {
      assert (cc + 1) % 2 == 1 && (cc + 1) / 2 == cc / 2;
    }
  }

  // ---------- closing tables ----------

  /** Comparing reversed prefixes is comparing prefixes. */
  lemma PrefixTest(jb: Job, k: nat, code: nat, sk: Stack, hn: nat, pool: seq<Huft>)
    requires Between(jb, k, code, sk, hn, pool)
    ensures var t := sk.tabs[sk.st[sk.h]];
            && (t.w > 0 || code + 1 < Pow2(k) ==>
                  (Mask(Rev(code + 1, k), t.w) != sk.x[sk.h] <==> Shr(code + 1, k - t.w) != t.pre))
            && (t.w == 0 ==> Mask(Rev(code + 1, k), t.w) == sk.x[sk.h])
            && (sk.h == 0 ==> t.w == 0)
  {
    hide Shl, Shr, Rev, First, MaxLen, CountBelow, Used;
    assert OnStack(jb, k, code, sk, sk.h);
    var t := sk.tabs[sk.st[sk.h]];
    RevParts(code + 1, t.w, k - t.w);
    ShrBound(code, t.w, k - t.w);
    if code + 1 < Pow2(k) {
      ShrBound(code + 1, t.w, k - t.w);
      if Rev(Shr(code + 1, k - t.w), t.w) == Rev(t.pre, t.w) {
        RevInjective(Shr(code + 1, k - t.w), t.pre, t.w);
      }
    } else if t.w > 0 {
      LastPrefix(code, t.w, k - t.w);
    }
  }

  /** After the last code everything wraps round to zero, and every prefix differs. */
  lemma LastPrefix(code: nat, w: nat, d: nat)
    requires code + 1 == Pow2(w + d) && w > 0
    ensures Shr(code + 1, d) == Pow2(w) != Shr(code, d)
    ensures Rev(Shr(code + 1, d), w) == 0 != Rev(Shr(code, d), w)
  {
    ShlShl(1, w, d);
    Pow2Pos(d);
    SplitUnique(Pow2(w), d, 0);
    RevPow2(w);
    ShrBound(code, w, d);
    Carry(code, d);
    Pow2Pos(w - 1);
    RevZero(w);
    if Rev(Shr(code, d), w) == 0 { RevInjective(Shr(code, d), 0, w); }
  }

  lemma {:induction false} RevPow2(w: nat)
    ensures Rev(Pow2(w), w) == 0
  {
    if w > 0 {
      RevPow2(w - 1);
      ShlZero(w - 1);
      assert Pow2(w) % 2 == 0 && Pow2(w) / 2 == Pow2(w - 1);
    }
  }

  /** Backing up over finished tables. */
  method CloseTables(ghost jb: Job, l: nat, k: nat, ghost code: nat, i: nat, h0: nat, w0: nat, x: seq<nat>,
                     ghost sk0: Stack, ghost hn: nat, ghost pool: seq<Huft>)
    returns (h: nat, w: nat, ghost sk: Stack)
    requires Between(jb, k, code, sk0, hn, pool) && i == Rev(code + 1, k)
    requires h0 == sk0.h && x == sk0.x && w0 == sk0.tabs[sk0.st[sk0.h]].w && l == jb.l
    ensures Between(jb, k, code, sk, hn, pool)
    ensures code + 1 < Pow2(k) ==> Inv(jb, k, code + 1, sk, hn, pool)
    ensures sk.h == h <= h0 && sk.u == sk0.u && sk.x == x && sk.tabs == sk0.tabs
    ensures w == sk.tabs[sk.st[h]].w
    ensures h < h0 ==> Depth(jb, sk) < k
    ensures h == h0 ==> sk == sk0
  {
    hide Shl, Shr, Mask, Rev, MaxLen, CountBelow, Used;
    h, w, sk := h0, w0, sk0;
    PrefixTest(jb, k, code, sk, hn, pool);
    while Mask(i, w) != x[h]
      invariant Between(jb, k, code, sk, hn, pool)
      invariant sk.h == h <= h0 && sk.u == sk0.u && sk.x == x && sk.tabs == sk0.tabs
      invariant w == sk.tabs[sk.st[h]].w
      invariant h < h0 ==> Depth(jb, sk) < k
      invariant h == h0 ==> sk == sk0
      invariant var t := sk.tabs[sk.st[sk.h]];
                && (t.w > 0 || code + 1 < Pow2(k) ==>
                      (Mask(i, t.w) != sk.x[sk.h] <==> Shr(code + 1, k - t.w) != t.pre))
                && (t.w == 0 ==> Mask(i, t.w) == sk.x[sk.h])
                && (sk.h == 0 ==> t.w == 0)
      decreases h
    {
      PopKeeps(jb, k, code, sk, hn, pool);
      PopStack(jb, k, code, sk);
      assert OnStack(jb, k, code, sk, sk.h);
      assert OnStack(jb, k, code, sk, sk.h - 1);
      sk := Popped(sk);
      h := h - 1;
      w := w - l;
      PrefixTest(jb, k, code, sk, hn, pool);
    }
    if code + 1 < Pow2(k) {
      SettledKeeps(jb, k, code, sk, hn, pool);
    }
  }

  // ---------- placing all codes ----------

  /** The local variables of the filling loop: table level h, bits w before the
      current table, its address q and size z, reversed code i, the stacks u and
      x, pool space used hn, next value p, and the entry r last assembled. */
  datatype Work = Work(h: int, w: int, q: nat, z: nat, i: nat, u: seq<nat>, x: seq<nat>,
                       hn: nat, p: nat, r: Huft)

  ghost predicate Matches(jb: Job, k: nat, code: nat, wk: Work, sk: Stack)
    requires |sk.st| == sk.h + 1
  {
    && sk.h == wk.h && sk.u == wk.u && sk.x == wk.x
    && wk.i == Rev(code, k)
    && wk.w + jb.l == Depth(jb, sk)
    && (sk.h < 0 ==> k <= jb.l)
    && (k <= Depth(jb, sk) ==> 0 <= sk.h < |sk.u| && wk.q == sk.u[sk.h]
                               && sk.st[sk.h] < |sk.tabs| && wk.z == Pow2(sk.tabs[sk.st[sk.h]].z))
  }

  ghost predicate WorkOK(jb: Job, k: nat, code: nat, wk: Work, sk: Stack, pool: seq<Huft>)
  {
    Inv(jb, k, code, sk, wk.hn, pool) && Matches(jb, k, code, wk, sk)
  }

  /** What holds of the tables from the start of the call on: they lie at or above hn0
      and take up what is used, and the root comes first. */
  ghost predicate Shape(jb: Job, tabs: seq<Tab>, hn0: nat, hn: nat)
    requires jb.l >= 1
  {
    && hn == hn0 + Total(tabs, |tabs|)
    && (forall i | 0 <= i < |tabs| :: hn0 <= tabs[i].addr)
    && (|tabs| > 0 ==> tabs[0] == Tab(hn0, 0, 0, jb.l))
    && (jb.l == jb.g ==> |tabs| <= 1)
    && Layout(jb, tabs)
  }

  /** The bits before hn0 belong to tables built earlier. */
  ghost predicate Below(hn0: nat, pool: seq<Huft>, pool': seq<Huft>)
  {
    |pool'| == |pool| && hn0 <= |pool| && forall x | 0 <= x < hn0 :: pool'[x] == pool[x]
  }

  /** The first code of a sub-table is at most l bits longer than the bits before it. */
  lemma NoSkipWidth(jb: Job, k: nat, code: nat, sk: Stack)
    requires ValidJob(jb) && StackOK(jb, k, code, sk) && IsCode(jb, k, code)
    requires Depth(jb, sk) < k && Mask(code, k - Depth(jb, sk)) == 0
    requires sk.h < 0 ==> k <= jb.l
    ensures NoSkip(jb) ==> k - Depth(jb, sk) <= jb.l
  {
    DepthLevel(jb, k, code, sk);
    assert !NoSkip(jb) || !SkipAt(jb, k, code, Depth(jb, sk));
  }

  lemma ShapeOpen(jb: Job, k: nat, code: nat, sk: Stack, hn0: nat, hn: nat, z: nat, pool: seq<Huft>)
    requires CanOpen(jb, k, code, sk, hn, z, pool) && Shape(jb, sk.tabs, hn0, hn)
    requires Count(jb.a.lens, jb.g) > 0 && (sk.h < 0 ==> z <= jb.l)
    requires Narrowest(jb, k, Depth(jb, sk), Shr(code, k - Depth(jb, sk)), z)
    ensures Shape(jb, sk.tabs + [NewTab(jb, k, code, sk, hn, z)], hn0, hn + Pow2(z))
  {
    hide Shl, Shr, Mask, Rev, MaxLen, CountBelow, Used, Links, CellsDone, Closed, Kraft, Layout, Narrowest, Total;
    ShapeLayout(jb, k, code, sk, hn, z, pool);
    TotalOpen(sk.tabs, NewTab(jb, k, code, sk, hn, z));
    NoTotal();
    CodeBound(jb, k, code);
    if sk.h < 0 {
      NoTables(jb, k, code, sk, hn, pool);
      MaskSmall(code, k);
      RootWidth(jb, z);
    } else {
      assert OnStack(jb, k, code, sk, sk.h);
    }
  }

  /** Where the table goes among the others, whether there is room for it or not. */
  lemma ShapeLayout(jb: Job, k: nat, code: nat, sk: Stack, hn: nat, z: nat, pool: seq<Huft>)
    requires Inv(jb, k, code, sk, hn, pool) && IsCode(jb, k, code) && Depth(jb, sk) < k
    requires 1 <= z && Depth(jb, sk) + z <= jb.g && Fits(jb, NewTab(jb, k, code, sk, hn, z))
    requires Narrowest(jb, k, Depth(jb, sk), Shr(code, k - Depth(jb, sk)), z)
    requires Count(jb.a.lens, jb.g) > 0 && (sk.h < 0 ==> z <= jb.l) && Layout(jb, sk.tabs)
    requires NoSkip(jb) ==> z <= jb.l
    ensures Layout(jb, sk.tabs + [NewTab(jb, k, code, sk, hn, z)])
  {
    hide Shl, Shr, Mask, Rev, MaxLen, CountBelow, Used, Links, CellsDone, Closed, Kraft, Layout, Narrowest;
    CodeBound(jb, k, code);
    if sk.h < 0 {
      NoTables(jb, k, code, sk, hn, pool);
      MaskSmall(code, k);
      RootWidth(jb, z);
    }
    LayoutOpen(jb, k, code, sk, hn, z, pool);
  }

  /** No room for the next table: the tables are too many. */
  lemma NoRoom(jb: Job, k: nat, code: nat, sk: Stack, hn0: nat, hn: nat, z: nat, pool: seq<Huft>, room: int)
    requires Inv(jb, k, code, sk, hn, pool) && IsCode(jb, k, code) && Depth(jb, sk) < k
    requires 1 <= z && Depth(jb, sk) + z <= jb.g && Fits(jb, NewTab(jb, k, code, sk, hn, z))
    requires Narrowest(jb, k, Depth(jb, sk), Shr(code, k - Depth(jb, sk)), z)
    requires Count(jb.a.lens, jb.g) > 0 && (sk.h < 0 ==> z <= jb.l) && Shape(jb, sk.tabs, hn0, hn)
    requires (NoSkip(jb) ==> z <= jb.l) && hn - hn0 + Pow2(z) > room
    ensures Overfull(jb, room)
  {
    hide Shl, Shr, Mask, Rev, MaxLen, CountBelow, Used, Links, CellsDone, Closed, Kraft, Layout, Narrowest, Total, Fits;
    ShapeLayout(jb, k, code, sk, hn, z, pool);
    TotalOpen(sk.tabs, NewTab(jb, k, code, sk, hn, z));
    PrefixedNew(jb, k, code, sk, hn, z, pool);
    OverfullBy(jb, sk.tabs + [NewTab(jb, k, code, sk, hn, z)], room);
  }

  lemma PrefixedNew(jb: Job, k: nat, code: nat, sk: Stack, hn: nat, z: nat, pool: seq<Huft>)
    requires Inv(jb, k, code, sk, hn, pool) && IsCode(jb, k, code) && Depth(jb, sk) < k
    ensures Prefixed(sk.tabs + [NewTab(jb, k, code, sk, hn, z)])
  {
    hide Shl, Shr, Mask, Rev, First, MaxLen, CountBelow, Used, Links, CellsDone, Closed, TabsOK;
    CodeBound(jb, k, code);
    ShrBound(code, Depth(jb, sk), k - Depth(jb, sk));
    forall i | 0 <= i < |sk.tabs|
      ensures sk.tabs[i].pre < Pow2(sk.tabs[i].w)
    {
      assert TabOK(jb.g, sk.tabs[i], hn);
    }
  }

  /** The local variables after a table of j bits opened. */
  function Opened(l: nat, wk: Work, j: nat): Work
    requires -1 <= wk.h < 14 && |wk.u| == 15 && |wk.x| == 16 && wk.w + l >= 0
  {
    var h := wk.h + 1;
    var wk' := wk.(h := h, w := wk.w + l, q := wk.hn, z := Pow2(j), u := wk.u[h := wk.hn], hn := wk.hn + Pow2(j));
    if h == 0 then wk'
    else
      var e := if wk.w >= 0 then Shr(wk.i, wk.w) else 0;
      wk'.(x := wk.x[h := wk.i],
           r := Huft(j, l, if wk.hn >= wk.u[h - 1] + e then wk.hn - wk.u[h - 1] - e else 0))
  }

  lemma OpenedOK(jb: Job, k: nat, code: nat, wk: Work, sk: Stack, j: nat, pool: seq<Huft>)
    requires WorkOK(jb, k, code, wk, sk, pool)
    requires CanOpen(jb, k, code, sk, wk.hn, j, pool)
    ensures wk.h < 14 && wk.w + jb.l >= 0
    ensures WorkOK(jb, k, code, Opened(jb.l, wk, j), Pushed(jb, k, code, sk, wk.hn, j, wk.i),
                   Linked(jb, sk, wk.hn, j, wk.i, pool))
  {
    OpenTable(jb, k, code, sk, wk.hn, j, pool);
  }

  /** Where the link goes, and that it does. */
  lemma OpenedLink(jb: Job, k: nat, code: nat, wk: Work, sk: Stack, j: nat, pool: seq<Huft>)
    requires WorkOK(jb, k, code, wk, sk, pool)
    requires CanOpen(jb, k, code, sk, wk.hn, j, pool) && 0 <= wk.h < 14
    ensures wk.w >= 0
    ensures var e := Shr(wk.i, wk.w);
            && wk.u[wk.h] + e < wk.hn
            && (exists i | 0 <= i < |sk.tabs| :: sk.tabs[i].addr == wk.u[wk.h])
            && Linked(jb, sk, wk.hn, j, wk.i, pool)
               == pool[wk.u[wk.h] + e := Huft(j, jb.l, wk.hn - wk.u[wk.h] - e)]
            && Opened(jb.l, wk, j).r == Huft(j, jb.l, wk.hn - wk.u[wk.h] - e)
            && Opened(jb.l, wk, j).x == wk.x[wk.h + 1 := wk.i]
  {
    hide Shl, Shr, Mask, Rev, First, MaxLen, CountBelow, Used;
    LinkPool(jb, k, code, sk, wk.hn, j, pool);
    var top := sk.st[sk.h];
    assert sk.tabs[top].addr == wk.u[wk.h];
  }

  /** One turn of while (k > w + l): allocate a table, link it to the last one. */
  method OpenOne(ghost jb: Job, c: seq<nat>, g: nat, l: nat, k: nat, a: nat, ghost code: nat,
                 hp: array<Huft>, wk0: Work, ghost sk0: Stack, ghost hn0: nat, ghost pool0: seq<Huft>)
    returns (ok: bool, wk: Work, ghost sk: Stack)
    requires WorkOK(jb, k, code, wk0, sk0, hp[..]) && Shape(jb, sk0.tabs, hn0, wk0.hn)
    requires g == jb.g && l == jb.l && Completed(jb, c) && Count(jb.a.lens, g) > 0
    requires IsCode(jb, k, code) && code + a + 1 == End(jb, k)
    requires k > wk0.w + l && hp.Length == MANY
    requires Opening(jb, k, code, sk0.tabs, wk0.hn, hp[..], pool0)
    modifies hp
    ensures Below(hn0, old(hp[..]), hp[..])
    ensures !ok ==> Overfull(jb, MANY - hn0)
    ensures ok ==> WorkOK(jb, k, code, wk, sk, hp[..]) && Shape(jb, sk.tabs, hn0, wk.hn)
    ensures ok ==> Opening(jb, k, code, sk.tabs, wk.hn, hp[..], pool0)
    ensures ok && (k - (wk0.w + l) > l || Wide(jb, sk0.tabs)) ==> Wide(jb, sk.tabs)
    ensures ok ==> wk.w == wk0.w + l && wk.p == wk0.p && (l == g ==> wk.r == wk0.r)
  {
    hide Shl, Shr, Mask, Rev, First, MaxLen, CountBelow, Used, Opening, Wide, Needed, Layout, Total, Overfull, NoSkip,
         Links, CellsDone, Closed, TabsOK;
    ok, wk, sk := true, wk0, sk0;
    ghost var pool := hp[..];
    OpenReady(jb, k, code, wk0, sk0, pool);
    var w: nat := wk0.w + l;
    var h := wk0.h + 1;
    var j := TableSize(jb, c, g, l, k, w, a, code);
    var z := Pow2(j);
    if wk0.hn + z > MANY {
      ok := false;
      NoRoom(jb, k, code, sk0, hn0, wk0.hn, j, pool, MANY - hn0);
      return;
    }
    OpenedAll(jb, k, code, wk0, sk0, hn0, j, pool);
    OpenedPast(jb, k, code, wk0, sk0, j, pool, pool0);
    sk := Pushed(jb, k, code, sk0, wk0.hn, j, wk0.i);
    wk := wk0.(h := h, w := w, q := wk0.hn, z := z, u := wk0.u[h := wk0.hn], hn := wk0.hn + z);
    if h > 0 {
      var e := Shr(wk0.i, w - l);
      var r := Huft(j, l, wk0.hn - wk0.u[h - 1] - e);
      hp[wk0.u[h - 1] + e] := r;
      wk := wk.(x := wk0.x[h := wk0.i], r := r);
    }
    assert wk == Opened(l, wk0, j);
    assert hp[..] == Linked(jb, sk0, wk0.hn, j, wk0.i, pool);
  }

  lemma OpenReady(jb: Job, k: nat, code: nat, wk: Work, sk: Stack, pool: seq<Huft>)
    requires WorkOK(jb, k, code, wk, sk, pool) && IsCode(jb, k, code) && k > wk.w + jb.l
    ensures ValidJob(jb) && -1 <= wk.h < 14 && |wk.u| == 15 && |wk.x| == 16
    ensures wk.w + jb.l == Depth(jb, sk) && Mask(code, k - Depth(jb, sk)) == 0
    ensures sk.h < 0 ==> k <= jb.l && wk.w + jb.l == 0
    ensures NoSkip(jb) ==> k - Depth(jb, sk) <= jb.l
  {
    DepthLevel(jb, k, code, sk);
    NoSkipWidth(jb, k, code, sk);
  }

  /** Everything there is to say about the table that just opened. */
  lemma OpenedAll(jb: Job, k: nat, code: nat, wk: Work, sk: Stack, hn0: nat, j: nat, pool: seq<Huft>)
    requires WorkOK(jb, k, code, wk, sk, pool) && Shape(jb, sk.tabs, hn0, wk.hn)
    requires IsCode(jb, k, code) && k > wk.w + jb.l && Count(jb.a.lens, jb.g) > 0
    requires 1 <= j && Depth(jb, sk) + j <= jb.g && wk.hn + Pow2(j) <= |pool|
    requires Fits(jb, Tab(0, Depth(jb, sk), Shr(code, k - Depth(jb, sk)), j))
    requires k - Depth(jb, sk) <= jb.l ==> j <= jb.l
    requires Narrowest(jb, k, Depth(jb, sk), Shr(code, k - Depth(jb, sk)), j)
    ensures -1 <= wk.h < 14 && wk.w + jb.l >= 0 && |wk.u| == 15 && |wk.x| == 16
    ensures WorkOK(jb, k, code, Opened(jb.l, wk, j), Pushed(jb, k, code, sk, wk.hn, j, wk.i),
                   Linked(jb, sk, wk.hn, j, wk.i, pool))
    ensures Shape(jb, Pushed(jb, k, code, sk, wk.hn, j, wk.i).tabs, hn0, wk.hn + Pow2(j))
    ensures wk.h >= 0 ==> wk.w >= 0
    ensures wk.h >= 0 ==>
              var e := Shr(wk.i, wk.w);
              && hn0 <= wk.u[wk.h] && wk.u[wk.h] + e < wk.hn
              && Linked(jb, sk, wk.hn, j, wk.i, pool)
                 == pool[wk.u[wk.h] + e := Huft(j, jb.l, wk.hn - wk.u[wk.h] - e)]
              && Opened(jb.l, wk, j).r == Huft(j, jb.l, wk.hn - wk.u[wk.h] - e)
              && Opened(jb.l, wk, j).x == wk.x[wk.h + 1 := wk.i]
    ensures jb.l == jb.g ==> wk.h < 0
    ensures wk.h < 0 ==> Linked(jb, sk, wk.hn, j, wk.i, pool) == pool
  {
    hide Shl, Shr, Mask, Rev, First, MaxLen, CountBelow, Used, Layout, Total, Narrowest, Links, CellsDone, Closed,
         NoSkip;
    OpenReady(jb, k, code, wk, sk, pool);
    assert CanOpen(jb, k, code, sk, wk.hn, j, pool);
    OpenedOK(jb, k, code, wk, sk, j, pool);
    ShapeOpen(jb, k, code, sk, hn0, wk.hn, j, pool);
    if wk.h >= 0 {
      OpenedLink(jb, k, code, wk, sk, j, pool);
    }
  }

  lemma OpenedPast(jb: Job, k: nat, code: nat, wk: Work, sk: Stack, j: nat, pool: seq<Huft>, pool0: seq<Huft>)
    requires WorkOK(jb, k, code, wk, sk, pool) && Opening(jb, k, code, sk.tabs, wk.hn, pool, pool0)
    requires IsCode(jb, k, code) && k > wk.w + jb.l
    requires 1 <= j && Depth(jb, sk) + j <= jb.g && wk.hn + Pow2(j) <= |pool|
    requires Fits(jb, Tab(0, Depth(jb, sk), Shr(code, k - Depth(jb, sk)), j))
    requires (k - Depth(jb, sk) <= jb.l ==> j <= jb.l) && j >= k - Depth(jb, sk)
    ensures -1 <= wk.h < 14 && |wk.u| == 15 && |wk.x| == 16
    ensures var sk' := Pushed(jb, k, code, sk, wk.hn, j, wk.i);
            && Opening(jb, k, code, sk'.tabs, wk.hn + Pow2(j), Linked(jb, sk, wk.hn, j, wk.i, pool), pool0)
            && (k - Depth(jb, sk) > jb.l || Wide(jb, sk.tabs) ==> Wide(jb, sk'.tabs))
  {
    hide Shl, Shr, Mask, Rev, First, MaxLen, CountBelow, Used, Opening, Wide;
    OpenReady(jb, k, code, wk, sk, pool);
    assert CanOpen(jb, k, code, sk, wk.hn, j, pool);
    OpeningOpen(jb, k, code, sk, wk.hn, j, pool, pool0);
  }

  /** A skipped level leaves no choice: the next table to open is wide. */
  lemma SkipOpens(jb: Job, k: nat, code: nat, wk: Work, sk: Stack, pool: seq<Huft>, pool0: seq<Huft>)
    requires WorkOK(jb, k, code, wk, sk, pool) && Past(jb, k, code, sk.tabs, wk.hn, pool, pool0)
    ensures (exists w: nat :: SkipAt(jb, k, code, w)) ==> k - (wk.w + jb.l) > jb.l
  {
    hide Shl, Shr, Mask, Rev, First, MaxLen, CountBelow, Used, At;
    if w: nat :| SkipAt(jb, k, code, w) {
      SkipDepth(jb, k, code, sk, wk.hn, pool, w);
    }
  }

  /** while (k > w + l): make tables up to the level the code needs. */
  method OpenTables(ghost jb: Job, c: seq<nat>, g: nat, l: nat, k: nat, a: nat, ghost code: nat,
                    hp: array<Huft>, wk0: Work, ghost sk0: Stack, ghost hn0: nat, ghost pool0: seq<Huft>)
    returns (ok: bool, wk: Work, ghost sk: Stack)
    requires ValidJob(jb)
    requires WorkOK(jb, k, code, wk0, sk0, hp[..]) && Shape(jb, sk0.tabs, hn0, wk0.hn)
    requires g == jb.g && l == jb.l && Completed(jb, c) && Count(jb.a.lens, g) > 0
    requires IsCode(jb, k, code) && code + a + 1 == End(jb, k)
    requires hp.Length == MANY && hn0 <= MANY
    requires Opening(jb, k, code, sk0.tabs, wk0.hn, hp[..], pool0)
    modifies hp
    ensures Below(hn0, old(hp[..]), hp[..])
    ensures !ok ==> Overfull(jb, MANY - hn0)
    ensures ok ==> WorkOK(jb, k, code, wk, sk, hp[..]) && Shape(jb, sk.tabs, hn0, wk.hn)
    ensures ok ==> Opening(jb, k, code, sk.tabs, wk.hn, hp[..], pool0)
    ensures ok && k - (wk0.w + l) > l ==> Wide(jb, sk.tabs)
    ensures ok ==> k <= wk.w + l && wk.p == wk0.p && (l == g ==> wk.r == wk0.r)
  {
    hide Opening, Wide, WorkOK, Shape, Completed, IsCode, End, Shl, Shr, Mask, Rev, First, MaxLen, CountBelow, Used;
    CodeBound(jb, k, code);
    ok, wk, sk := true, wk0, sk0;
    while k > wk.w + l
      invariant WorkOK(jb, k, code, wk, sk, hp[..]) && Shape(jb, sk.tabs, hn0, wk.hn)
      invariant Below(hn0, old(hp[..]), hp[..])
      invariant Opening(jb, k, code, sk.tabs, wk.hn, hp[..], pool0)
      invariant wk.w == wk0.w || (k - (wk0.w + l) > l ==> Wide(jb, sk.tabs))
      invariant wk.p == wk0.p && (l == g ==> wk.r == wk0.r)
      decreases k - wk.w
    {
      if l == g { SingleTable(jb, k, code, wk, sk, hp[..], hn0); }
      ok, wk, sk := OpenOne(jb, c, g, l, k, a, code, hp, wk, sk, hn0, pool0);
      if !ok { return; }
    }
  }

  /** A second table is never opened when the root is as wide as the longest code. */
  lemma SingleTable(jb: Job, k: nat, code: nat, wk: Work, sk: Stack, pool: seq<Huft>, hn0: nat)
    requires WorkOK(jb, k, code, wk, sk, pool) && Shape(jb, sk.tabs, hn0, wk.hn)
    requires k > wk.w + jb.l && jb.l == jb.g
    requires code < Pow2(k)
    ensures wk.hn == hn0
  {
    if sk.h < 0 {
      NoTables(jb, k, code, sk, wk.hn, pool);
    }
  }

  /** The value list and the position p in it fit the current code. */
  ghost predicate AtValue(jb: Job, k: nat, code: nat, p: nat, n: nat, v: seq<nat>)
  {
    var lens := jb.a.lens;
    var r := code - First(lens, k);
    && ValuesOK(lens, |lens|, v)
    && n == Off(lens, jb.g) + Count(lens, jb.g)
    && r >= 0
    && p == Off(lens, k) + (if r < Count(lens, k) then r else Count(lens, k))
  }

  lemma ValueHere(jb: Job, k: nat, code: nat, p: nat, n: nat, v: seq<nat>)
    requires ValidJob(jb) && IsCode(jb, k, code) && AtValue(jb, k, code, p, n, v)
    ensures p < n ==> p < |v| && v[p] < |jb.a.lens| && jb.a.lens[v[p]] == k && Code(jb.a.lens, v[p]) == code
    ensures p < n ==> AtValue(jb, k, code + 1, p + 1, n, v)
    ensures p >= n ==> k == jb.g && code >= First(jb.a.lens, k) + Count(jb.a.lens, k)
                       && AtValue(jb, k, code + 1, p, n, v)
  {
    hide Shl, Shr, Mask, Rev, First, MaxLen, CountBelow, Used;
    var lens := jb.a.lens;
    var r := code - First(lens, k);
    if r < Count(lens, k) {
      assert Placed(lens, |lens|, v, k, r);
      if k < jb.g { OffMono(lens, k, jb.g); }
    } else {
      assert k == jb.g;
    }
  }

  /** An invalid entry in a single table copies the base of the entry before it. */
  ghost predicate LastBase(jb: Job, code: nat, r: Huft)
    requires ValidAlphabet(jb.a)
  {
    jb.l == jb.g && code > 0 ==> HasSymbolBase(jb.a, r)
  }

  /** The first of all codes belongs to a symbol. */
  lemma FirstCodeReal(jb: Job, k: nat, code: nat)
    requires ValidJob(jb) && IsCode(jb, k, code) && Count(jb.a.lens, jb.g) > 0
    requires k == jb.g && code >= First(jb.a.lens, k) + Count(jb.a.lens, k)
    ensures code > 0
  {
  }

  /** The entry for the current code, as the source assembles it in r. */
  method EntryOf(a: Alphabet, ghost jb: Job, k: nat, ghost code: nat, w: nat, v: array<nat>, n: nat, p0: nat, r0: Huft)
    returns (r: Huft, p: nat)
    requires ValidJob(jb) && IsCode(jb, k, code) && a == jb.a && Count(a.lens, jb.g) > 0 && w < k
    requires AtValue(jb, k, code, p0, n, v[..]) && LastBase(jb, code, r0)
    ensures EntryFor(jb, k, code, r) && r.bits == k - w
    ensures AtValue(jb, k, code + 1, p, n, v[..]) && LastBase(jb, code + 1, r)
  {
    ValueHere(jb, k, code, p0, n, v[..]);
    p := p0;
    if p >= n {
      r := Huft(INVALID, k - w, r0.base);
      FirstCodeReal(jb, k, code);
      if jb.l == jb.g {
        ghost var sym: nat :| sym < |a.lens| && a.lens[sym] > 0 && r0.base == BaseOf(a, sym);
        assert a.lens[sym] > 0 && r.base == BaseOf(a, sym);
      }
    } else {
      var s := v[p];
      if s < a.simple {
        r := Huft(if s < 256 then 0 else 32 + 64, k - w, s);
      } else {
        r := Huft(a.extras[s - a.simple] + 16 + 64, k - w, a.bases[s - a.simple]);
      }
      p := p + 1;
      assert IsSymbol(a, k, code, s, r);
      assert a.lens[s] > 0 && r.base == BaseOf(a, s);
    }
  }

  /** What holds after a code is placed: the tables are ready for the next code,
      or this was the last one. */
  ghost predicate Placed1(jb: Job, k: nat, code: nat, wk: Work, sk: Stack, pool: seq<Huft>)
  {
    && Between(jb, k, code, sk, wk.hn, pool)
    && (code + 1 < Pow2(k) ==> WorkOK(jb, k, code + 1, wk, sk, pool))
  }

  /** The body of while (a--): tables, entries, next code, back up. */
  method PlaceCode(a: Alphabet, ghost jb: Job, c: seq<nat>, v: array<nat>, n: nat, g: nat, l: nat, k: nat, left: nat,
                   ghost code: nat, hp: array<Huft>, wk0: Work, ghost sk0: Stack, ghost hn0: nat,
                   ghost pool0: seq<Huft>)
    returns (ok: bool, wk: Work, ghost sk: Stack)
    requires WorkOK(jb, k, code, wk0, sk0, hp[..]) && Shape(jb, sk0.tabs, hn0, wk0.hn)
    requires a == jb.a && g == jb.g && l == jb.l && Completed(jb, c) && Count(jb.a.lens, g) > 0
    requires IsCode(jb, k, code) && code + left + 1 == End(jb, k)
    requires hp.Length == MANY
    requires AtValue(jb, k, code, wk0.p, n, v[..]) && LastBase(jb, code, wk0.r)
    requires Past(jb, k, code, sk0.tabs, wk0.hn, hp[..], pool0)
    modifies hp
    ensures Below(hn0, old(hp[..]), hp[..])
    ensures !ok ==> Overfull(jb, MANY - hn0)
    ensures ok ==> Placed1(jb, k, code, wk, sk, hp[..]) && Shape(jb, sk.tabs, hn0, wk.hn)
    ensures ok ==> Past(jb, k, code + 1, sk.tabs, wk.hn, hp[..], pool0)
    ensures ok ==> AtValue(jb, k, code + 1, wk.p, n, v[..]) && LastBase(jb, code + 1, wk.r)
  {
    hide Shl, Shr, Mask, Rev, First, MaxLen, CountBelow, Used, Past, Opening, Wide, Overfull, Layout, Total, NoSkip;
    ghost var vs := v[..];
    PastOpening(jb, k, code, sk0.tabs, wk0.hn, hp[..], pool0);
    SkipOpens(jb, k, code, wk0, sk0, hp[..], pool0);
    ok, wk, sk := OpenTables(jb, c, g, l, k, left, code, hp, wk0, sk0, hn0, pool0);
    if !ok { return; }
    assert v[..] == vs;
    ghost var pool := hp[..];
    TopReaches(jb, k, code, sk, wk.hn, pool);
    ghost var t := sk.tabs[sk.st[sk.h]];
    assert wk.w == t.w;
    var r, p := EntryOf(a, jb, k, code, wk.w, v, n, wk.p, wk.r);
    RevBound(Mask(code, k - t.w), k - t.w);
    FillEntries(hp, wk.q, wk.z, Shr(wk.i, wk.w), k - wk.w, r, t);
    OpeningFill(jb, k, code, sk, wk.hn, r, pool, hp[..], pool0);
    FillKeeps(jb, k, code, sk, wk.hn, r, pool, hp[..]);
    var i := NextCode(wk.i, k, code);
    var h, w, sk' := CloseTables(jb, l, k, code, i, wk.h, wk.w, wk.x, sk, wk.hn, hp[..]);
    wk := wk.(h := h, w := w, i := i, p := p, r := r);
    sk := sk';
  }

  /** With every code placed the tables represent the code set. */
  lemma TablesComplete(jb: Job, code: nat, sk: Stack, hn0: nat, hn: nat, pool: seq<Huft>)
    requires Between(jb, jb.g, code, sk, hn, pool) && code + 1 == Pow2(jb.g) && Shape(jb, sk.tabs, hn0, hn)
    requires NoSkip(jb)
    ensures TreeOK(jb.a, jb.l, sk.tabs, hn0, pool[..hn])
  {
    assert OnStack(jb, jb.g, code, sk, sk.h);
    forall i | 0 <= i < |sk.tabs|
      ensures TabRange(jb.g, jb.l, sk.tabs[i], hn)
    {
      assert TabOK(jb.g, sk.tabs[i], hn);
    }
    forall i, j | 0 <= i < |sk.tabs| && 0 <= j < Pow2(sk.tabs[i].z)
      ensures CellAt(jb.a, jb.g, jb.l, sk.tabs, i, j, pool[..hn])
    {
      assert TabOK(jb.g, sk.tabs[i], hn);
      CellComplete(jb, sk.tabs, i, j, hn, pool);
    }
  }

  lemma CellComplete(jb: Job, tabs: seq<Tab>, i: nat, j: nat, hn: nat, pool: seq<Huft>)
    requires ValidAlphabet(jb.a) && i < |tabs| && TabOK(jb.g, tabs[i], hn) && j < Pow2(tabs[i].z) && hn <= |pool|
    requires Done(jb, tabs, i, j, At(jb.g, Pow2(jb.g), jb.g), pool)
    ensures CellAt(jb.a, jb.g, jb.l, tabs, i, j, pool[..hn])
  {
    var t := tabs[i];
    CellAbove(jb.g, t, j);
    ShlShl(1, t.w, jb.g - t.w);
    ShlOrder(Pow2(t.w), t.pre + 1, jb.g - t.w);
  }

  /** A shorter code length never uses up all patterns. */
  lemma EndBelow(jb: Job, k: nat)
    requires ValidJob(jb) && 1 <= k < jb.g && Count(jb.a.lens, jb.g) > 0
    ensures End(jb, k) < Pow2(k)
  {
    UsedGrows(jb.a.lens, k, jb.g);
    FirstIsUsed(jb.a.lens, k);
    ShlShl(1, k, jb.g - k);
    if End(jb, k) >= Pow2(k) { ShlOrder(End(jb, k), Pow2(k), jb.g - k); }
  }

  lemma NextLength(jb: Job, k: nat, code: nat, wk: Work, sk: Stack, pool: seq<Huft>)
    requires WorkOK(jb, k, code, wk, sk, pool) && k < jb.g && (sk.h >= 0 || k < jb.l)
    ensures WorkOK(jb, k + 1, 2 * code, wk, sk, pool)
  {
    LengthKeeps(jb, k, code, sk, wk.hn, pool);
    ShlZero(k);
    assert (2 * code) % 2 == 0 && (2 * code) / 2 == code;
  }

  lemma StartState(jb: Job, k: nat, wk: Work, sk: Stack, hn0: nat, pool: seq<Huft>)
    requires ValidJob(jb) && 1 <= k <= jb.l && hn0 <= |pool|
    requires wk.h == -1 && wk.w + jb.l == 0 && wk.i == 0 && wk.hn == hn0
    requires |wk.u| == 15 && |wk.x| == 16 && wk.x[0] == 0
    requires sk == Stack(-1, wk.u, wk.x, [], [])
    ensures WorkOK(jb, k, 0, wk, sk, pool) && Shape(jb, sk.tabs, hn0, hn0)
  {
    Pow2Pos(k);
    MaskSmall(0, k);
    RevZero(k);
  }

  /** The state when the next code to place is code: ready for it, or all done. */
  ghost predicate Ready(jb: Job, k: nat, code: nat, wk: Work, sk: Stack, hn0: nat, n: nat, v: seq<nat>, pool: seq<Huft>)
  {
    && ValidJob(jb) && 1 <= k <= jb.g && code <= Pow2(k)
    && Shape(jb, sk.tabs, hn0, wk.hn)
    && AtValue(jb, k, code, wk.p, n, v) && LastBase(jb, code, wk.r)
    && (code < Pow2(k) ==> WorkOK(jb, k, code, wk, sk, pool))
    && (code == Pow2(k) && code > 0 ==> Between(jb, k, code - 1, sk, wk.hn, pool))
  }

  /** One turn of while (a--). */
  method PlaceNext(a: Alphabet, ghost jb: Job, c: seq<nat>, v: array<nat>, n: nat, g: nat, l: nat, k: nat, left: nat,
                   ghost code: nat, hp: array<Huft>, wk0: Work, ghost sk0: Stack, ghost hn0: nat,
                   ghost pool0: seq<Huft>)
    returns (ok: bool, wk: Work, ghost sk: Stack)
    requires Ready(jb, k, code, wk0, sk0, hn0, n, v[..], hp[..])
    requires a == jb.a && g == jb.g && l == jb.l && Completed(jb, c) && Count(a.lens, g) > 0
    requires IsCode(jb, k, code) && code + left + 1 == End(jb, k) && code < Pow2(k)
    requires hp.Length == MANY
    requires Past(jb, k, code, sk0.tabs, wk0.hn, hp[..], pool0)
    modifies hp
    ensures Below(hn0, old(hp[..]), hp[..])
    ensures !ok ==> Overfull(jb, MANY - hn0)
    ensures ok ==> Past(jb, k, code + 1, sk.tabs, wk.hn, hp[..], pool0)
    ensures ok ==> Ready(jb, k, code + 1, wk, sk, hn0, n, v[..], hp[..]) && sk.h >= 0
  {
    hide Past;
    ok, wk, sk := PlaceCode(a, jb, c, v, n, g, l, k, left, code, hp, wk0, sk0, hn0, pool0);
  }

  lemma BelowBoth(n: nat, a: seq<Huft>, b: seq<Huft>, c: seq<Huft>)
    requires Below(n, a, b) && Below(n, b, c)
    ensures Below(n, a, c)
  {
  }

  lemma BelowSame(jb: Job, k: nat, code: nat, wk: Work, sk: Stack, hn0: nat, n: nat, v: seq<nat>, pool: seq<Huft>)
    requires Ready(jb, k, code, wk, sk, hn0, n, v, pool)
    ensures Below(hn0, pool, pool)
  {
    Pow2Pos(k);
  }

  lemma IsCodes(jb: Job, c: seq<nat>, k: nat)
    requires ValidJob(jb) && 1 <= k <= jb.g && Completed(jb, c)
    ensures k < |c| && First(jb.a.lens, k) + c[k] == End(jb, k)
    ensures forall code: nat | First(jb.a.lens, k) <= code < End(jb, k) :: IsCode(jb, k, code)
    ensures First(jb.a.lens, k) <= End(jb, k) <= Pow2(k)
  {
    EndBound(jb, k);
  }

  /** while (a--): place the codes of length k. */
  method PlaceLength(a: Alphabet, ghost jb: Job, c: seq<nat>, v: array<nat>, n: nat, g: nat, l: nat, k: nat,
                     hp: array<Huft>, wk0: Work, ghost sk0: Stack, ghost hn0: nat, ghost pool0: seq<Huft>)
    returns (ok: bool, wk: Work, ghost sk: Stack)
    requires ValidJob(jb) && 1 <= k <= jb.g && First(a.lens, k) < Pow2(k)
    requires a == jb.a && g == jb.g && l == jb.l && Completed(jb, c) && Count(a.lens, g) > 0
    requires hp.Length == MANY
    requires Ready(jb, k, First(a.lens, k), wk0, sk0, hn0, n, v[..], hp[..])
    requires sk0.h >= 0 || c[k] > 0
    requires Past(jb, k, First(a.lens, k), sk0.tabs, wk0.hn, hp[..], pool0)
    modifies hp
    ensures Below(hn0, old(hp[..]), hp[..])
    ensures !ok ==> Overfull(jb, MANY - hn0)
    ensures ok ==> Past(jb, k, End(jb, k), sk.tabs, wk.hn, hp[..], pool0)
    ensures ok ==> Ready(jb, k, End(jb, k), wk, sk, hn0, n, v[..], hp[..]) && sk.h >= 0
  {
    hide Ready, IsCode, Past, Overfull, Shl, First, CountBelow, End, ValidJob, Completed, Below;
    IsCodes(jb, c, k);
    BelowSame(jb, k, First(a.lens, k), wk0, sk0, hn0, n, v[..], hp[..]);
    ghost var code := First(a.lens, k);
    ok, wk, sk := true, wk0, sk0;
    var left: nat := c[k];
    while left > 0
      invariant ok && code + left == End(jb, k) && code >= First(a.lens, k)
      invariant Below(hn0, old(hp[..]), hp[..])
      invariant left < c[k] || sk0.h >= 0 ==> sk.h >= 0
      invariant Past(jb, k, code, sk.tabs, wk.hn, hp[..], pool0)
      invariant Ready(jb, k, code, wk, sk, hn0, n, v[..], hp[..])
    {
      left := left - 1;
      ghost var was := hp[..];
      ok, wk, sk := PlaceNext(a, jb, c, v, n, g, l, k, left, code, hp, wk, sk, hn0, pool0);
      BelowBoth(hn0, old(hp[..]), was, hp[..]);
      if !ok { return; }
      code := code + 1;
    }
  }

  /** for (; k <= g; k++): place all codes in order. */
  method PlaceAll(a: Alphabet, ghost jb: Job, c: seq<nat>, v: array<nat>, n: nat, g: nat, l: nat, k0: nat,
                  hp: array<Huft>, wk0: Work, ghost sk0: Stack, ghost hn0: nat, ghost pool0: seq<Huft>)
    returns (ok: bool, wk: Work, ghost sk: Stack)
    requires ValidJob(jb) && a == jb.a && g == jb.g && l == jb.l && Completed(jb, c)
    requires Count(a.lens, g) > 0 && 1 <= k0 <= g && First(a.lens, k0) < Pow2(k0)
    requires hp.Length == MANY
    requires Ready(jb, k0, First(a.lens, k0), wk0, sk0, hn0, n, v[..], hp[..])
    requires c[k0] > 0
    requires Past(jb, k0, First(a.lens, k0), sk0.tabs, wk0.hn, hp[..], pool0)
    modifies hp
    ensures Below(hn0, old(hp[..]), hp[..])
    ensures !ok ==> Overfull(jb, MANY - hn0)
    ensures ok ==> Past(jb, g, End(jb, g), sk.tabs, wk.hn, hp[..], pool0)
    ensures ok ==> Ready(jb, g, End(jb, g), wk, sk, hn0, n, v[..], hp[..]) && sk.h >= 0
  {
    hide Past, Overfull, Ready, Shl;
    var k := k0;
    ok, wk, sk := PlaceLength(a, jb, c, v, n, g, l, k, hp, wk0, sk0, hn0, pool0);
    if !ok { return; }
    while k < g
      invariant k0 <= k <= g && sk.h >= 0
      invariant Below(hn0, old(hp[..]), hp[..])
      invariant Past(jb, k, End(jb, k), sk.tabs, wk.hn, hp[..], pool0)
      invariant Ready(jb, k, End(jb, k), wk, sk, hn0, n, v[..], hp[..])
    {
      PastLonger(jb, k, End(jb, k), sk.tabs, wk.hn, hp[..], pool0);
      ToNextLength(jb, k, wk, sk, hn0, n, v[..], hp[..]);
      k := k + 1;
      ok, wk, sk := PlaceLength(a, jb, c, v, n, g, l, k, hp, wk, sk, hn0, pool0);
      if !ok { return; }
    }
  }

  /** The second half of huft_build: generate the codes and make the table entries. */
  method FillTables(a: Alphabet, ghost jb: Job, c: seq<nat>, v: array<nat>, n: nat, g: nat, l: nat, k0: nat,
                    hp: array<Huft>, hn0: nat)
    returns (ok: bool, hn: nat, ghost tabs: seq<Tab>)
    requires ValidJob(jb) && a == jb.a && g == jb.g && l == jb.l && Completed(jb, c)
    requires Count(a.lens, g) > 0 && 1 <= k0 <= l && c[k0] > 0
    requires First(a.lens, k0) == 0 && Off(a.lens, k0) == 0
    requires hp.Length == MANY && hn0 <= MANY
    requires ValuesOK(a.lens, |a.lens|, v[..]) && n == Off(a.lens, g) + Count(a.lens, g)
    modifies hp
    ensures Below(hn0, old(hp[..]), hp[..])
    ensures !ok ==> Overfull(jb, MANY - hn0)
    ensures ok ==> hn0 <= hn <= MANY && Built(jb, tabs, hn0, hn, hp[..], old(hp[..]))
  {
    hide Past, Shl, Shr, Mask, Rev, First, MaxLen, CountBelow, Used, Unbuilt, TreeOK, NoSkip, Started, Links, CellsDone,
         StackOK, Closed, Overfull, Needed, Layout, Total;
    ghost var pool0 := hp[..];
    var wk := Work(-1, 0 - l, 0, 0, 0, seq(15, i => 0), seq(16, i => 0), hn0, 0, Huft(0, 0, 0));
    ghost var sk := Stack(-1, wk.u, wk.x, [], []);
    StartState(jb, k0, wk, sk, hn0, hp[..]);
    PastStart(jb, k0, hn0, pool0);
    Pow2Pos(k0);
    hn, tabs := 0, [];
    ok, wk, sk := PlaceAll(a, jb, c, v, n, g, l, k0, hp, wk, sk, hn0, pool0);
    if !ok { return; }
    hn, tabs := wk.hn, sk.tabs;
    Pow2Pos(g);
    if !NoSkip(jb) { GapsShow(jb, Pow2(g) - 1, sk, hn0, hn, hp[..], pool0); }
    AllPlaced(jb, Pow2(g) - 1, sk, hn0, hn, hp[..]);
    FinalNeed(jb, tabs, hn, hp[..], pool0);
    assert hp[..][..hn] == hp[..hn];
  }

  /** With a skipped level the finished tables have a gap. */
  lemma GapsShow(jb: Job, code: nat, sk: Stack, hn0: nat, hn: nat, pool: seq<Huft>, pool0: seq<Huft>)
    requires Between(jb, jb.g, code, sk, hn, pool) && code + 1 == Pow2(jb.g) && Shape(jb, sk.tabs, hn0, hn)
    requires Past(jb, jb.g, code + 1, sk.tabs, hn, pool, pool0) && !NoSkip(jb)
    ensures Unbuilt(pool, pool0, hn0, jb.l, hn)
  {
    hide Shl, First, MaxLen, CountBelow, Used, History, Started, SkipsSeen, Unbuilt, Closed, Links, CellsDone, StackOK;
    PastEnd(jb, sk.tabs, hn, pool, pool0);
    GapReached(jb, jb.g, sk.tabs, hn, pool, pool0);
  }

  lemma AllPlaced(jb: Job, code: nat, sk: Stack, hn0: nat, hn: nat, pool: seq<Huft>)
    requires Between(jb, jb.g, code, sk, hn, pool) && code + 1 == Pow2(jb.g) && Shape(jb, sk.tabs, hn0, hn)
    ensures NoSkip(jb) ==> TreeOK(jb.a, jb.l, sk.tabs, hn0, pool[..hn])
    ensures |sk.tabs| > 0
  {
    TablesOpened(jb, code, sk, hn, pool);
    if NoSkip(jb) { TablesComplete(jb, code, sk, hn0, hn, pool); }
  }

  lemma TablesOpened(jb: Job, code: nat, sk: Stack, hn: nat, pool: seq<Huft>)
    requires Between(jb, jb.g, code, sk, hn, pool)
    ensures |sk.tabs| > 0
  {
    assert OnStack(jb, jb.g, code, sk, sk.h);
  }

  lemma ToNextLength(jb: Job, k: nat, wk: Work, sk: Stack, hn0: nat, n: nat, v: seq<nat>, pool: seq<Huft>)
    requires ValidJob(jb) && k < jb.g && Count(jb.a.lens, jb.g) > 0 && sk.h >= 0
    requires Ready(jb, k, End(jb, k), wk, sk, hn0, n, v, pool)
    ensures Ready(jb, k + 1, First(jb.a.lens, k + 1), wk, sk, hn0, n, v, pool)
    ensures First(jb.a.lens, k + 1) < Pow2(k + 1)
  {
    EndBelow(jb, k);
    NextLength(jb, k, End(jb, k), wk, sk, pool);
  }

  // ---------- the whole function ----------

  predicate AllZero(lens: seq<nat>)
  {
    forall i | 0 <= i < |lens| :: lens[i] == 0
  }

  /** The root width *m: the requested width, at least the shortest code length and
      at most the longest. */
  predicate ClampedWidth(lens: seq<nat>, m: nat, l: nat)
  {
    && l <= MaxLen(lens)
    && (l < MaxLen(lens) ==> l >= m)
    && (exists i | 0 <= i < |lens| :: 0 < lens[i] <= l)
    && (l <= m || ((exists i | 0 <= i < |lens| :: l == lens[i])
                   && (forall i | 0 <= i < |lens| && lens[i] > 0 :: lens[i] >= l)))
  }

  /** What huft_build leaves in the pool from root on: the tables take what is used, the
      first has exactly l index bits, and they are right if no table level is skipped;
      otherwise the decoder can reach an entry that was never written. */
  ghost predicate Built(jb: Job, tabs: seq<Tab>, root: nat, hn': nat, pool: seq<Huft>, pool0: seq<Huft>)
  {
    && ValidJob(jb) && Layout(jb, tabs)
    && |tabs| > 0 && tabs[0] == Tab(root, 0, 0, jb.l)
    && hn' == root + Total(tabs, |tabs|) == root + Needed(jb) <= |pool|
    && if NoSkip(jb) then TreeOK(jb.a, jb.l, tabs, root, pool[..hn']) else Unbuilt(pool, pool0, root, jb.l, hn')
  }

  /** Build the tables for alphabet a at hp[hn..], with m index bits for the root.
      - Z_DATA_ERROR exactly for an over-subscribed code set (Kraft sum above 1);
      - Z_MEM_ERROR exactly when it is not, but its tables need more entries than are left;
      - otherwise Z_BUF_ERROR for an incomplete code set, the single one-bit code
        excepted, and Z_OK for all others; the tables are built in both cases. */
  method Build(a: Alphabet, m: nat, hp: array<Huft>, hn: nat, v: array<nat>)
    returns (r: int, root: nat, l: nat, hn': nat, ghost tabs: seq<Tab>)
    requires ValidAlphabet(a) && m >= 1
    requires hp.Length == MANY && hn <= MANY && v.Length >= |a.lens|
    modifies hp, v
    ensures Below(hn, old(hp[..]), hp[..]) && hn <= hn' <= MANY
    ensures AllZero(a.lens) ==> r == Z_OK && l == 0 && hn' == hn
    ensures r == Z_DATA_ERROR <==> Kraft(a.lens, |a.lens|) > Pow2(MAX_BITS)
    ensures !AllZero(a.lens) && r != Z_MEM_ERROR ==> (r == Z_OK <==> Usable(a.lens))
    ensures r in {Z_OK, Z_BUF_ERROR, Z_DATA_ERROR, Z_MEM_ERROR}
    ensures !AllZero(a.lens) ==> 1 <= l && ClampedWidth(a.lens, m, l)
    ensures r == Z_MEM_ERROR ==>
              var jb := Job(a, MaxLen(a.lens), l); l >= 1 && ValidJob(jb) && TooMany(jb, MANY - hn)
    ensures r == Z_MEM_ERROR <==>
              !AllZero(a.lens) && Kraft(a.lens, |a.lens|) <= Pow2(MAX_BITS)
              && Needed(Job(a, MaxLen(a.lens), l)) > MANY - hn
    ensures !AllZero(a.lens) && r in {Z_OK, Z_BUF_ERROR} ==>
              root == hn && Built(Job(a, MaxLen(a.lens), l), tabs, root, hn', hp[..], old(hp[..]))
  {
    hide Shl, Shr, Mask, Rev, First, MaxLen, CountBelow, Used, Needed, Overfull, Layout, Total, Unbuilt, TreeOK;
    root, hn', tabs := hn, hn, [];
    var n := |a.lens|;
    var c := CountLengths(a.lens);
    CountAll(a.lens, n, 0);
    if c[0] == n {
      r, l := Z_OK, 0;
      NoKraft(a.lens, n);
      return;
    }
    var j, g := LengthBounds(a.lens, c);
    l := if m < j then j else m;
    if l > g { l := g; }
    WidthOK(a.lens, c, j, g, m, l);
    var y := Leftover(a.lens, c, j, g);
    KraftCompare(a.lens, g);
    if y < 0 {
      r := Z_DATA_ERROR;
      return;
    }
    ghost var jb := Job(a, g, l);
    c := c[g := c[g] + y];
    assert Completed(jb, c);
    var x := Offsets(a.lens, c, g);
    n := SortValues(a.lens, g, x, v);
    NoShorter(a.lens, j);
    var ok;
    ok, hn', tabs := FillTables(a, jb, c, v, n, g, l, j, hp, hn);
    if !ok {
      r, hn' := Z_MEM_ERROR, hn;
      OverfullMeans(jb, MANY - hn);
      return;
    }
    r := if y != 0 && g != 1 then Z_BUF_ERROR else Z_OK;
  }

  lemma WidthOK(lens: seq<nat>, c: seq<nat>, j: nat, g: nat, m: nat, l: nat)
    requires Lengths(lens) && CountsAre(lens, c) && 1 <= j <= g <= MAX_BITS && g == MaxLen(lens) && c[j] > 0
    requires forall k | 1 <= k < j :: c[k] == 0
    requires l == if (if m < j then j else m) > g then g else if m < j then j else m
    ensures ClampedWidth(lens, m, l) && l >= j
  {
    var w := CountWitness(lens, |lens|, j);
    forall i | 0 <= i < |lens| && lens[i] > 0
      ensures lens[i] >= j
    {
      CountOf(lens, i);
    }
  }
}
