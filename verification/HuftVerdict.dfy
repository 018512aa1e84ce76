/** huft_build as a whole: exactly when its tables decode, when they fit in the pool, and
    code sets for which they do not. */
module HuftVerdict {
  import opened Bits
  import opened Huffman
  import opened HuftTables
  import opened HuftInvariant
  import opened HuftGaps
  import opened HuftLevels
  import opened HuftPool
  import opened HuftNeed
  import opened HuftBuild

  /** From every position the walk through the tables gives what the code alone does. */
  ghost predicate DecodesRight(a: Alphabet, l: nat, root: nat, pool: seq<Huft>)
    requires ValidAlphabet(a)
  {
    forall bits: seq<bit>, start: nat | start + MaxLen(a.lens) <= |bits| ::
      Agrees(a, FollowTables(pool, root, l, bits, start), bits, start)
  }

  // ---------- never written means wrong ----------

  /** An operation that huft_build never writes: not a literal, base, link, end or error. */
  const BLANK := 64

  ghost predicate Blank(pool0: seq<Huft>)
  {
    forall x | 0 <= x < |pool0| :: pool0[x].exop == BLANK
  }

  /** The walk ends where no code can. */
  predicate Astray(r: Reached)
  {
    r.Entry? ==> 0 < r.en.exop < 16 || r.en.exop == BLANK
  }

  /** Bits beyond those looked at do not matter. */
  lemma {:induction false} WalkMore(pool: seq<Huft>, at: nat, z: nat, bits: seq<bit>, more: seq<bit>, pos: nat, n: nat,
                                    to: nat, z': nat, pos': nat)
    requires Walk(pool, at, z, bits, pos, n, to, z', pos')
    ensures Walk(pool, at, z, bits + more, pos, n, to, z', pos')
    decreases n
  {
    if n > 0 {
      LsbMore(bits, more, pos, z);
      var x := at + Lsb(bits, pos, z);
      WalkMore(pool, x + pool[x].base, pool[x].exop, bits, more, pos + pool[x].bits, n - 1, to, z', pos');
    }
  }

  lemma LsbMore(bits: seq<bit>, more: seq<bit>, pos: nat, n: nat)
    requires pos + n <= |bits|
    ensures Lsb(bits + more, pos, n) == Lsb(bits, pos, n)
  {
    assert (bits + more)[pos..pos + n] == bits[pos..pos + n];
    LsbShift(bits + more, bits, pos, pos, n);
  }

  lemma {:induction false} WalkAstray(pool: seq<Huft>, hn: nat, at: nat, z: nat, bits: seq<bit>, pos: nat, n: nat,
                                      to: nat, z': nat, pos': nat)
    requires hn <= |pool| && Walk(pool, at, z, bits, pos, n, to, z', pos') && pos' + z' <= |bits|
    requires to + Lsb(bits, pos', z') < |pool| && pool[to + Lsb(bits, pos', z')].exop == BLANK
    ensures Astray(FollowTables(pool[..hn], at, z, bits, pos))
    decreases n
  {
    if n > 0 {
      var x := at + Lsb(bits, pos, z);
      WalkAstray(pool, hn, x + pool[x].base, pool[x].exop, bits, pos + pool[x].bits, n - 1, to, z', pos');
    }
  }

  lemma AstrayIsWrong(a: Alphabet, r: Reached, bits: seq<bit>, start: nat)
    requires ValidAlphabet(a) && Astray(r)
    ensures !Agrees(a, r, bits, start)
  {
    hide DecodeSym;
  }

  lemma UnbuiltIsWrong(a: Alphabet, l: nat, root: nat, pool: seq<Huft>, pool0: seq<Huft>, hn: nat)
    requires ValidAlphabet(a) && hn <= |pool| && Unbuilt(pool, pool0, root, l, hn) && Blank(pool0)
    ensures !DecodesRight(a, l, root, pool[..hn])
  {
    hide MaxLen, Walk, FollowTables, Agrees;
    var bits: seq<bit>, n: nat, at: nat, z: nat, pos: nat :|
      ReadsUnwritten(pool, pool0, root, l, bits, n, at, z, pos) && at + Lsb(bits, pos, z) < hn;
    var more: seq<bit> := seq(MaxLen(a.lens), i => 0);
    WalkMore(pool, root, l, bits, more, 0, n, at, z, pos);
    LsbMore(bits, more, pos, z);
    WalkAstray(pool, hn, root, l, bits + more, 0, n, at, z, pos);
    AstrayIsWrong(a, FollowTables(pool[..hn], root, l, bits + more, 0), bits + more, 0);
  }

  /** The tables decode, whatever the pool held before, exactly when no table level is
      skipped: with one skipped, tables built in a blank pool do not. */
  lemma RightExactly(jb: Job, tabs: seq<Tab>, root: nat, hn: nat, pool: seq<Huft>, pool0: seq<Huft>)
    requires Built(jb, tabs, root, hn, pool, pool0)
    ensures NoSkip(jb) ==> DecodesRight(jb.a, jb.l, root, pool[..hn])
    ensures !NoSkip(jb) && Blank(pool0) ==> !DecodesRight(jb.a, jb.l, root, pool[..hn])
  {
    hide MaxLen, FollowTables, Agrees, Unbuilt, Layout, Total;
    if NoSkip(jb) {
      forall bits: seq<bit>, start: nat | start + MaxLen(jb.a.lens) <= |bits|
        ensures Agrees(jb.a, FollowTables(pool[..hn], root, jb.l, bits, start), bits, start)
      {
        TablesDecode(jb.a, jb.l, tabs, root, pool[..hn], bits, start);
      }
    } else if Blank(pool0) {
      UnbuiltIsWrong(jb.a, jb.l, root, pool, pool0, hn);
    }
  }

  // ---------- the pool ----------

  /** 2, 4, 8, ... up to 2^z. */
  lemma SpareValues()
    ensures Spare(9, 6) == 126 && Spare(6, 6) == 190 && Spare(6, 3) == 14 && Spare(6, 7) == 446 && Spare(6, 1) == 2
  {
    Pow2Values();
    assert Spare(6, 1) == 2 && Spare(6, 2) == 6 && Spare(6, 3) == 14 && Spare(6, 4) == 30 && Spare(6, 5) == 62;
    assert Spare(9, 1) == 2 && Spare(9, 2) == 6 && Spare(9, 3) == 14 && Spare(9, 4) == 30 && Spare(9, 5) == 62;
  }

  /** A complete code set, or any with a single table. */
  lemma UsableComplete(jb: Job)
    requires ValidJob(jb) && Usable(jb.a.lens)
    ensures Complete(jb) || jb.l == jb.g
  {
    hide First, CountBelow, MaxLen, Kraft, Shl;
    KraftCompare(jb.a.lens, jb.g);
  }

  /** Literal/length tables take at most 926 of the 1440 entries. */
  lemma LitRoom(jb: Job, tabs: seq<Tab>)
    requires ValidJob(jb) && Usable(jb.a.lens) && Layout(jb, tabs)
    requires jb.l == 9 || jb.l == jb.g <= 9
    ensures Total(tabs, |tabs|) <= 926
  {
    hide Sized, First, CountBelow, MaxLen, Spare, Usable, Shl, Total;
    UsableComplete(jb);
    Pow2Values();
    SpareValues();
    if jb.l == jb.g {
      SingleTotal(jb, tabs);
      Pow2Mono(jb.l, 9);
    } else {
      SpareMono(9, Lesser(6, jb.g - 9), 6);
      assert forall i | 0 < i < |tabs| :: SubTab(jb, tabs[i]);
      TotalBound(jb, tabs, 6);
    }
  }

  /** Distance tables take at most 328. */
  lemma DistRoom(jb: Job, tabs: seq<Tab>)
    requires ValidJob(jb) && Usable(jb.a.lens) && Layout(jb, tabs) && NoSkip(jb) && |jb.a.lens| <= 30
    requires jb.l == 6 || jb.l == jb.g <= 6
    ensures Total(tabs, |tabs|) <= 328
  {
    hide Layout, First, CountBelow, MaxLen, Spare, Usable, Shl, Total, NoSkip;
    UsableComplete(jb);
    Pow2Values();
    SpareValues();
    if jb.l == jb.g {
      SingleTotal(jb, tabs);
      Pow2Mono(jb.l, 6);
    } else {
      SpareMono(6, Lesser(6, jb.g - 6), 6);
      if jb.g > 12 { SpareMono(6, Lesser(6, jb.g - 12), 3); }
      assert Upto(tabs, 6) by { NarrowLayout(jb, tabs); }
      TotalBound(jb, tabs, 6);
    }
  }

  lemma NarrowLayout(jb: Job, tabs: seq<Tab>)
    requires jb.l >= 1 && NoSkip(jb) && Layout(jb, tabs)
    ensures Upto(tabs, jb.l)
  {
  }

  /** A single table fits where it has room. */
  lemma SingleFits(a: Alphabet, m: nat, l: nat, room: int)
    requires 1 <= l && ClampedWidth(a.lens, m, l) && MaxLen(a.lens) <= m && Pow2(m) <= room
    ensures l == MaxLen(a.lens)
    ensures var jb := Job(a, MaxLen(a.lens), l); !(ValidJob(jb) && TooMany(jb, room))
  {
    hide Layout, Total, MaxLen, Shl, First, CountBelow;
    var jb := Job(a, MaxLen(a.lens), l);
    forall tabs: seq<Tab> | ValidJob(jb) && Layout(jb, tabs)
      ensures Total(tabs, |tabs|) <= room
    {
      SingleTotal(jb, tabs);
      Pow2Mono(l, m);
    }
  }

  /** The code set of SkipExample fits as well. */
  lemma SkipRoom(jb: Job, tabs: seq<Tab>)
    requires ValidJob(jb) && jb.a.lens == SkipLens() && jb.l == 6 && Layout(jb, tabs)
    ensures Total(tabs, |tabs|) <= 780
  {
    hide First, CountBelow, MaxLen, Spare, Kraft, Shl, Total, Sized, SkipLens;
    SkipExample(jb.a.simple, jb.a.bases, jb.a.extras);
    UsableComplete(jb);
    Pow2Values();
    SpareValues();
    assert forall i | 0 < i < |tabs| :: SubTab(jb, tabs[i]);
    assert forall w | Level(6, w) && w > 0 :: w >= 6;
    TotalBound(jb, tabs, 7);
  }

  function SkipAlphabet(): Alphabet { Alphabet(SkipLens(), 134, [], []) }

  lemma SkipFacts(l: nat)
    ensures var a := SkipAlphabet();
            && ValidAlphabet(a) && |a.lens| == 134 && !AllZero(a.lens) && Usable(a.lens)
            && (ClampedWidth(a.lens, 6, l) && l >= 1 ==> l == 6 && !NoSkip(Job(a, MaxLen(a.lens), l)))
  {
    hide First, CountBelow, MaxLen, Shl, NoSkip, Kraft, SkipLens;
    SkipExample(134, [], []);
    SkipStart();
    Pow2Pos(MAX_BITS);
  }

  lemma SkipStart()
    ensures SkipLens()[0] == 1
  {
  }

  /** A complete code set that huft_build takes, with tables that do not decode it. */
  method SkipAccepted(hp: array<Huft>) returns (r: int, root: nat, l: nat, hn: nat)
    requires hp.Length == MANY && Blank(hp[..])
    modifies hp
    ensures Usable(SkipAlphabet().lens) && r == Z_OK && ValidAlphabet(SkipAlphabet())
    ensures hn <= hp.Length && !DecodesRight(SkipAlphabet(), l, root, hp[..hn])
  {
    hide MaxLen, Shl, SkipAlphabet, NoSkip, DecodesRight, Kraft, TooMany, Needed, ClampedWidth, ValidAlphabet, Usable,
         AllZero, Blank, Unbuilt, TreeOK, Layout, Total;
    var v := new nat[134];
    ghost var pool0 := hp[..];
    ghost var tabs;
    SkipFacts(6);
    r, root, l, hn, tabs := Build(SkipAlphabet(), 6, hp, 0, v);
    SkipFacts(l);
    ghost var jb := Job(SkipAlphabet(), MaxLen(SkipAlphabet().lens), l);
    NotOver(SkipAlphabet().lens);
    if r == Z_MEM_ERROR { SkipFits(jb); }
    RightExactly(jb, tabs, root, hn, hp[..], pool0);
    assert hp[..][..hn] == hp[..hn];
  }

  lemma NotOver(lens: seq<nat>)
    requires Lengths(lens) && Usable(lens)
    ensures Kraft(lens, |lens|) <= Pow2(MAX_BITS)
  {
  }

  lemma SkipFits(jb: Job)
    requires ValidJob(jb) && jb.a == SkipAlphabet() && jb.l == 6
    ensures !TooMany(jb, MANY)
  {
    hide Layout, Total, SkipLens, MaxLen, First, CountBelow;
    forall tabs: seq<Tab> | Layout(jb, tabs)
      ensures Total(tabs, |tabs|) <= MANY
    {
      SkipRoom(jb, tabs);
    }
  }

  // ---------- an incomplete code set that does not fit ----------

  /** A single code of 15 bits: 32767 patterns are left, and get entries all the same. */
  function LongAlphabet(): (a: Alphabet)
    ensures ValidAlphabet(a) && |a.lens| == 257
  {
    Alphabet(seq(256, i => 0) + [15], 257, [], [])
  }

  lemma LongFacts(l: nat)
    ensures var lens := LongAlphabet().lens;
            && (forall i | 0 <= i < |lens| :: lens[i] == 0 || lens[i] == 15)
            && !AllZero(lens) && MaxLen(lens) == 15 && 0 < Kraft(lens, |lens|) < Pow2(MAX_BITS)
            && (l >= 1 && ClampedWidth(lens, 9, l) ==> l == 15)
  {
    var lens := LongAlphabet().lens;
    hide MaxLen, Shl, Kraft;
    assert lens[256] == 15;
    LongKraft(lens, 256);
    Pow2Values();
  }

  lemma {:induction false} LongKraft(lens: seq<nat>, n: nat)
    requires n < |lens| && Lengths(lens) && (forall i | 0 <= i < n :: lens[i] == 0) && lens[n] == 15
    ensures Kraft(lens, n + 1) == 1
    decreases n
  {
    ZeroSum(lens, n);
    assert Pow2(0) == 1;
  }

  lemma {:induction false} ZeroSum(lens: seq<nat>, n: nat)
    requires n <= |lens| && Lengths(lens) && forall i | 0 <= i < n :: lens[i] == 0
    ensures Kraft(lens, n) == 0
  {
    if n > 0 { ZeroSum(lens, n - 1); }
  }

  lemma {:induction false} FirstTotal(tabs: seq<Tab>, n: nat)
    requires 0 < n <= |tabs|
    ensures Total(tabs, n) >= Pow2(tabs[0].z)
  {
    hide Shl;
    if n > 1 { FirstTotal(tabs, n - 1); } else { assert Total(tabs, 0) == 0; }
  }

  /** It is incomplete, so Z_BUF_ERROR would be due; but the tables do not fit. */
  method LongRefused(hp: array<Huft>) returns (r: int, root: nat, l: nat, hn: nat)
    requires hp.Length == MANY
    modifies hp
    ensures r == Z_MEM_ERROR
    ensures 0 < Kraft(LongAlphabet().lens, |LongAlphabet().lens|) < Pow2(MAX_BITS)
  {
    hide MaxLen, Shl, LongAlphabet, NoSkip, Kraft, TooMany, Needed, ClampedWidth, ValidAlphabet, AllZero, Unbuilt,
         TreeOK, Layout, Total;
    var v := new nat[257];
    ghost var tabs;
    LongFacts(0);
    r, root, l, hn, tabs := Build(LongAlphabet(), 9, hp, 0, v);
    LongFacts(l);
    if r in {Z_OK, Z_BUF_ERROR} {
      FirstTotal(tabs, |tabs|);
      Pow2Values();
      assert false;
    }
  }
}
