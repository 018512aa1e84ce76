/** What inflate makes of malformed streams that it does not notice: it decodes exactly the
    streams that are well-formed behind 32768 zero bytes, and those as if the zeros came
    before. An unassigned bit in the code length code never gets that far. */
module Faults {
  import opened Basics
  import opened Bits
  import opened Huffman
  import opened Rfc1951

  /** As many bytes as the longest distance. */
  const HISTORY := 32768

  predicate IsHistory(z: seq<byte>)
  {
    |z| == HISTORY && forall i | 0 <= i < |z| :: z[i] == 0
  }

  function Zeros(): (z: seq<byte>)
    ensures IsHistory(z)
  {
    seq(HISTORY, i => 0)
  }

  /** inflate comes to its end with r just when rz, behind the zeros z, is well-formed. */
  predicate Alike(r: Outcome, rz: Outcome, z: seq<byte>)
  {
    match Goes(r)
    case Done(out, end) => rz == Done(z + out, end)
    case _ => !rz.Done?
  }

  // ---------- copies ----------

  lemma BackAlike(z: seq<byte>, out: seq<byte>, dist: nat)
    requires IsHistory(z) && 1 <= dist <= HISTORY
    ensures Back(z + out, dist) == Back(out, dist)
  {
  }

  lemma {:induction false} CopyAlike(z: seq<byte>, out: seq<byte>, dist: nat, len: nat)
    requires IsHistory(z) && 1 <= dist <= HISTORY
    ensures LzCopy(z + out, dist, len) == z + LzCopy(out, dist, len)
    decreases len
  {
    if len > 0 {
      BackAlike(z, out, dist);
      assert z + out + [Back(out, dist)] == z + (out + [Back(out, dist)]);
      CopyAlike(z, out + [Back(out, dist)], dist, len - 1);
    }
  }

  lemma LongestDistance(sym: nat, x: nat)
    requires sym < 30 && x < Pow2(DIST_EXTRA[sym])
    ensures 1 <= DIST_BASE[sym] + x <= HISTORY
  {
    Pow2Values();
    if sym >= 20 { HighDistance(sym); }
  }

  lemma HighDistance(sym: nat)
    requires 20 <= sym < 30
    ensures DIST_BASE[sym] + Pow2(DIST_EXTRA[sym]) <= HISTORY + 1
  {
    Pow2Values();
    assert Pow2(10) == 1024 && Pow2(11) == 2048 && Pow2(12) == 4096;
  }

  // ---------- a code length code of one symbol ----------

  ghost predicate OneCode(cl: seq<nat>, s: nat)
  {
    |cl| == 19 && s < 19 && cl[s] == 1 && forall x | 0 <= x < 19 && x != s :: cl[x] == 0
  }

  /** The n-th symbol of one bit. */
  lemma {:induction false} NthCode(cl: seq<nat>, m: nat, n: nat) returns (s: nat)
    requires m <= |cl| && n < CountBelow(cl, m, 1)
    ensures s < m && cl[s] == 1 && CountBelow(cl, s, 1) == n
  {
    if CountBelow(cl, m - 1, 1) > n { s := NthCode(cl, m - 1, n); } else { s := m - 1; }
  }

  lemma OneBit(cl: seq<nat>, bits: seq<bit>, pos: nat, s: nat)
    requires s < |cl| && cl[s] == 1 && pos < |bits| && CountBelow(cl, s, 1) == bits[pos]
    ensures DecodeSym(cl, bits, pos).Symbol?
  {
    assert Msb(bits, pos, 1) == bits[pos] by { assert Msb(bits, pos, 0) == 0; }
    DecodeSymIs(cl, bits, pos, s);
  }

  /** With codes of at most one bit, a bit that is no code means that there is one code. */
  lemma UnassignedMeans(cl: seq<nat>, bits: seq<bit>, pos: nat)
    requires |cl| == 19 && DecodeSym(cl, bits, pos) == NoCode && MaxLen(cl) == 1
    ensures OneCode(cl, OnlySymbol(cl))
  {
    hide DecodeSym;
    var s := OnlySymbol(cl);
    assert cl[s] == 1;
    if t: nat :| t < 19 && t != s && cl[t] != 0 {
      assert cl[t] == 1;
      CountMono(cl, if s < t then s else t, if s < t then t else s, 1);
      CountMono(cl, if s < t then t else s, 19, 1);
      var n: nat := bits[pos];
      var u := NthCode(cl, 19, n);
      OneBit(cl, bits, pos, u);
      assert false;
    }
  }

  /** Code lengths that a code of the symbol s alone can have given so far. */
  predicate Even(s: nat, acc: seq<nat>)
  {
    if s == 16 then acc == [] else forall i | 0 <= i < |acc| :: acc[i] == if s < 16 then s else 0
  }

  lemma {:induction false} KraftEven(lens: seq<nat>, n: nat, v: nat)
    requires Lengths(lens) && n <= |lens| && 0 < v <= MAX_BITS && forall i | 0 <= i < |lens| :: lens[i] == v
    ensures Kraft(lens, n) == Times(n, Pow2(MAX_BITS - v))
  {
    hide Shl;
    if n > 0 { KraftEven(lens, n - 1, v); }
  }

  function Times(n: nat, q: nat): nat
  {
    if n == 0 then 0 else Times(n - 1, q) + q
  }

  lemma {:induction false} TimesMono(m: nat, n: nat, q: nat)
    requires m <= n && q > 0
    ensures Times(m, q) <= Times(n, q) && (m < n ==> Times(m, q) < Times(n, q))
  {
    if m < n { TimesMono(m, n - 1, q); }
  }

  /** 2^d times 2^e. */
  lemma {:induction false} TimesPow(d: nat, e: nat)
    ensures Times(Pow2(d), Pow2(e)) == Pow2(d + e)
    decreases d
  {
    if d == 0 {
      assert Times(1, Pow2(e)) == Times(0, Pow2(e)) + Pow2(e);
    } else {
      TimesPow(d - 1, e);
      TimesSum(Pow2(d - 1), Pow2(d - 1), Pow2(e));
    }
  }

  lemma {:induction false} TimesSum(m: nat, n: nat, q: nat)
    ensures Times(m + n, q) == Times(m, q) + Times(n, q)
  {
    if n > 0 { TimesSum(m, n - 1, q); }
  }

  /** 257 to 286 codes of one length are never a code set that can be used. */
  lemma EvenUnusable(lens: seq<nat>, v: nat)
    requires Lengths(lens) && 257 <= |lens| <= 286 && forall i | 0 <= i < |lens| :: lens[i] == v
    ensures !Usable(lens)
  {
    hide Shl, MaxLen;
    assert lens[0] == v && MaxLen(lens) == v;
    Pow2Values();
    if v == 0 {
      NoKraft(lens, |lens|);
    } else {
      KraftEven(lens, |lens|, v);
      TimesPow(v, MAX_BITS - v);
      Pow2Pos(MAX_BITS - v);
      if v <= 8 {
        Pow2Mono(v, 8);
        TimesMono(Pow2(v), |lens|, Pow2(MAX_BITS - v));
      } else {
        Pow2Mono(9, v);
        TimesMono(|lens|, Pow2(v), Pow2(MAX_BITS - v));
      }
    }
  }

  /** With a code length code of one symbol a block never comes to its end. */
  lemma {:induction false} NeverEnds(bits: seq<bit>, last: bool, nl: nat, nd: nat, cl: seq<nat>, acc: seq<nat>, s: nat,
                                     pos: nat, out: seq<byte>)
    requires pos <= |bits| && 257 <= nl <= 286 && 1 <= nd <= 32
    requires |cl| == 19 && Lengths(cl) && |acc| <= nl + nd && Lengths(acc) && OneCode(cl, s) && Even(s, acc)
    ensures var g := Goes(Lens(bits, last, nl, nd, cl, acc, pos, out)); g.Bad? || g.Truncated?
    decreases |bits| - pos, 0
  {
    hide DecodeSym, MaxLen, OnlySymbol, LensMore, Symbols, Usable;
    if |acc| == nl + nd {
      EvenUnusable(acc[..nl], acc[0]);
    } else {
      var d := DecodeSym(cl, bits, pos);
      if d.Symbol? {
        assert d.sym == s;
        MoreNeverEnds(bits, last, nl, nd, cl, acc, s, pos + d.len, out);
      } else if d.NoCode? && MaxLen(cl) == 1 {
        OnlyIs(cl, s);
        MoreNeverEnds(bits, last, nl, nd, cl, acc, s, pos + 1, out);
      }
    }
  }

  lemma OnlyIs(cl: seq<nat>, s: nat)
    requires OneCode(cl, s)
    ensures OnlySymbol(cl) == s
  {
  }

  lemma {:induction false} MoreNeverEnds(bits: seq<bit>, last: bool, nl: nat, nd: nat, cl: seq<nat>, acc: seq<nat>,
                                         s: nat,
                                         pos: nat, out: seq<byte>)
    requires pos <= |bits| && 257 <= nl <= 286 && 1 <= nd <= 32 && s <= 18
    requires |cl| == 19 && Lengths(cl) && |acc| < nl + nd && Lengths(acc) && OneCode(cl, s) && Even(s, acc)
    ensures var g := Goes(LensMore(bits, last, nl, nd, cl, acc, s, pos, out)); g.Bad? || g.Truncated?
    decreases |bits| - pos, 1
  {
    hide Lens;
    if s < 16 {
      NeverEnds(bits, last, nl, nd, cl, acc + [s], s, pos, out);
    } else if s > 16 && pos + RepeatBits(s) <= |bits| {
      var times := RepeatBase(s) + Lsb(bits, pos, RepeatBits(s));
      if |acc| + times <= nl + nd {
        NeverEnds(bits, last, nl, nd, cl, acc + Repeat(0, times), s, pos + RepeatBits(s), out);
      }
    }
  }

  // ---------- the whole stream ----------

  lemma {:induction false} BlocksAlike(bits: seq<bit>, pos: nat, out: seq<byte>, z: seq<byte>)
    requires pos <= |bits| && IsHistory(z)
    ensures Alike(Blocks(bits, pos, out), Blocks(bits, pos, z + out), z)
    decreases |bits| - pos, 0
  {
    hide StoredLen, Symbols, Header, Lsb, IsHistory;
    if pos + 3 <= |bits| {
      var last, kind := bits[pos] == 1, Lsb(bits, pos + 1, 2);
      if kind == 0 {
        if Align(pos + 3) <= |bits| { StoredLenAlike(bits, last, Align(pos + 3), out, z); }
      } else if kind == 1 {
        SymbolsAlike(bits, last, Codes(FixedLit(), FixedDist()), pos + 3, out, z);
      } else if kind == 2 {
        HeaderAlike(bits, last, pos + 3, out, z);
      }
    }
  }

  lemma {:induction false} NextAlike(bits: seq<bit>, last: bool, pos: nat, out: seq<byte>, z: seq<byte>)
    requires pos <= |bits| && IsHistory(z)
    ensures Alike(Next(bits, last, pos, out), Next(bits, last, pos, z + out), z)
    decreases |bits| - pos, 1
  {
    hide Blocks, IsHistory;
    if !last { BlocksAlike(bits, pos, out, z); }
  }

  lemma {:induction false} StoredLenAlike(bits: seq<bit>, last: bool, pos: nat, out: seq<byte>, z: seq<byte>)
    requires pos <= |bits| && IsHistory(z)
    ensures Alike(StoredLen(bits, last, pos, out), StoredLen(bits, last, pos, z + out), z)
    decreases |bits| - pos, 3
  {
    hide StoredBytes, Lsb, IsHistory;
    if pos + 32 <= |bits| { StoredBytesAlike(bits, last, Lsb(bits, pos, 16), pos + 32, out, z); }
  }

  lemma {:induction false} StoredBytesAlike(bits: seq<bit>, last: bool, left: nat, pos: nat, out: seq<byte>,
                                            z: seq<byte>)
    requires pos <= |bits| && IsHistory(z)
    ensures Alike(StoredBytes(bits, last, left, pos, out), StoredBytes(bits, last, left, pos, z + out), z)
    decreases |bits| - pos, 2
  {
    hide Next, IsHistory;
    if left == 0 {
      NextAlike(bits, last, pos, out, z);
    } else if pos + 8 <= |bits| {
      var b := ByteAt(bits, pos);
      assert z + out + [b] == z + (out + [b]);
      StoredBytesAlike(bits, last, left - 1, pos + 8, out + [b], z);
    }
  }

  lemma {:induction false} SymbolsAlike(bits: seq<bit>, last: bool, c: Codes, pos: nat, out: seq<byte>, z: seq<byte>)
    requires pos <= |bits| && ValidCodes(c) && IsHistory(z)
    ensures Alike(Symbols(bits, last, c, pos, out), Symbols(bits, last, c, pos, z + out), z)
    decreases |bits| - pos, 1
  {
    hide DecodeSym, LenExtra, Next, IsHistory, MaxLen;
    var d := DecodeSym(c.ll, bits, pos);
    if d.Symbol? && d.sym < 256 {
      assert z + out + [d.sym] == z + (out + [d.sym]);
      SymbolsAlike(bits, last, c, pos + d.len, out + [d.sym], z);
    } else if d.Symbol? && d.sym == 256 {
      NextAlike(bits, last, pos + d.len, out, z);
    } else if d.Symbol? && d.sym <= 285 {
      LengthAlike(bits, last, c, LEN_BASE[d.sym - 257], LEN_EXTRA[d.sym - 257], pos + d.len, out, z);
    }
  }

  lemma {:induction false} LengthAlike(bits: seq<bit>, last: bool, c: Codes, base: nat, extra: nat, pos: nat,
                                       out: seq<byte>, z: seq<byte>)
    requires pos <= |bits| && ValidCodes(c) && IsHistory(z)
    ensures Alike(LenExtra(bits, last, c, base, extra, pos, out), LenExtra(bits, last, c, base, extra, pos, z + out), z)
    decreases |bits| - pos, 1
  {
    hide DecodeSym, DistExtra, IsHistory, MaxLen;
    if pos + extra <= |bits| {
      var d := DecodeSym(c.dl, bits, pos + extra);
      if d.Symbol? && d.sym <= 29 {
        DistanceAlike(bits, last, c, base + Lsb(bits, pos, extra), d.sym, pos + extra + d.len, out, z);
      }
    }
  }

  lemma {:induction false} DistanceAlike(bits: seq<bit>, last: bool, c: Codes, len: nat, sym: nat, pos: nat,
                                         out: seq<byte>, z: seq<byte>)
    requires pos <= |bits| && ValidCodes(c) && sym <= 29 && IsHistory(z)
    ensures Alike(DistExtra(bits, last, c, len, DIST_BASE[sym], DIST_EXTRA[sym], pos, out),
                  DistExtra(bits, last, c, len, DIST_BASE[sym], DIST_EXTRA[sym], pos, z + out), z)
    decreases |bits| - pos, 3
  {
    hide Copied, IsHistory, Lsb;
    var extra := DIST_EXTRA[sym];
    if pos + extra <= |bits| {
      LsbBound(bits, pos, extra);
      LongestDistance(sym, Lsb(bits, pos, extra));
      var dist := DIST_BASE[sym] + Lsb(bits, pos, extra);
      CopiedAlike(bits, last, c, len, dist, pos + extra, out, z);
    }
  }

  lemma {:induction false} CopiedAlike(bits: seq<bit>, last: bool, c: Codes, len: nat, dist: nat, pos: nat,
                                       out: seq<byte>, z: seq<byte>)
    requires pos <= |bits| && ValidCodes(c) && 1 <= dist <= HISTORY && IsHistory(z)
    ensures Alike(Copied(bits, last, c, len, dist, pos, out), Copied(bits, last, c, len, dist, pos, z + out), z)
    decreases |bits| - pos, 2
  {
    hide Symbols, LzCopy;
    CopyAlike(z, out, dist, len);
    SymbolsAlike(bits, last, c, pos, LzCopy(out, dist, len), z);
    var r := Symbols(bits, last, c, pos, LzCopy(out, dist, len));
    assert Goes(Goes(r)) == Goes(r);
    assert Goes(Copied(bits, last, c, len, dist, pos, out)) == Goes(r);
    assert Copied(bits, last, c, len, dist, pos, z + out) == Symbols(bits, last, c, pos, LzCopy(z + out, dist, len));
  }

  lemma TreesAlike(bits: seq<bit>, last: bool, ll: seq<nat>, dl: seq<nat>, pos: nat, out: seq<byte>, z: seq<byte>)
    requires pos <= |bits| && Lengths(ll) && Lengths(dl) && |ll| <= 288 && |dl| <= 32 && IsHistory(z)
    ensures Alike(Trees(bits, last, ll, dl, pos, out), Trees(bits, last, ll, dl, pos, z + out), z)
    decreases |bits| - pos, 2
  {
    hide Symbols, GoodTrees, EmptyDistances, IsHistory;
    if GoodTrees(ll, dl) { SymbolsAlike(bits, last, Codes(ll, dl), pos, out, z); }
  }

  /** Code lengths read so far, seen from a code of one symbol. */
  ghost predicate Sound(cl: seq<nat>, acc: seq<nat>)
  {
    forall s: nat :: OneCode(cl, s) ==> Even(s, acc)
  }

  lemma {:induction false} LensAlike(bits: seq<bit>, last: bool, nl: nat, nd: nat, cl: seq<nat>, acc: seq<nat>,
                                     pos: nat, out: seq<byte>, z: seq<byte>)
    requires pos <= |bits| && 257 <= nl <= 286 && 1 <= nd <= 32 && IsHistory(z)
    requires |cl| == 19 && Lengths(cl) && |acc| <= nl + nd && Lengths(acc) && Sound(cl, acc)
    ensures Alike(Lens(bits, last, nl, nd, cl, acc, pos, out), Lens(bits, last, nl, nd, cl, acc, pos, z + out), z)
    decreases |bits| - pos, 3
  {
    hide Trees, DecodeSym, MaxLen, LensMore, IsHistory, OnlySymbol;
    if |acc| == nl + nd {
      TreesAlike(bits, last, acc[..nl], acc[nl..], pos, out, z);
    } else {
      var d := DecodeSym(cl, bits, pos);
      if d.Symbol? {
        MoreAlike(bits, last, nl, nd, cl, acc, d.sym, pos + d.len, out, z);
      } else if d.NoCode? && MaxLen(cl) == 1 {
        UnassignedMeans(cl, bits, pos);
        MoreNeverEnds(bits, last, nl, nd, cl, acc, OnlySymbol(cl), pos + 1, out);
      }
    }
  }

  lemma {:induction false} MoreAlike(bits: seq<bit>, last: bool, nl: nat, nd: nat, cl: seq<nat>, acc: seq<nat>, c: nat,
                                     pos: nat, out: seq<byte>, z: seq<byte>)
    requires pos <= |bits| && 257 <= nl <= 286 && 1 <= nd <= 32 && c <= 18 && IsHistory(z)
    requires |cl| == 19 && Lengths(cl) && |acc| < nl + nd && Lengths(acc) && Sound(cl, acc) && cl[c] > 0
    ensures Alike(LensMore(bits, last, nl, nd, cl, acc, c, pos, out),
                  LensMore(bits, last, nl, nd, cl, acc, c, pos, z + out), z)
    decreases |bits| - pos, 4
  {
    hide Lens, IsHistory;
    if c < 16 {
      LensAlike(bits, last, nl, nd, cl, acc + [c], pos, out, z);
    } else if pos + RepeatBits(c) <= |bits| {
      var times := RepeatBase(c) + Lsb(bits, pos, RepeatBits(c));
      if |acc| + times <= nl + nd && !(c == 16 && acc == []) {
        var v := if c == 16 then acc[|acc| - 1] else 0;
        LensAlike(bits, last, nl, nd, cl, acc + Repeat(v, times), pos + RepeatBits(c), out, z);
      }
    }
  }

  lemma {:induction false} CodeLensAlike(bits: seq<bit>, last: bool, nl: nat, nd: nat, n: nat, i: nat, cl: seq<nat>,
                                         pos: nat, out: seq<byte>, z: seq<byte>)
    requires pos <= |bits| && 257 <= nl <= 286 && 1 <= nd <= 32 && i <= n <= 19 && |cl| == 19 && Lengths(cl)
    requires IsHistory(z)
    ensures Alike(CodeLens(bits, last, nl, nd, n, i, cl, pos, out),
                  CodeLens(bits, last, nl, nd, n, i, cl, pos, z + out), z)
    decreases |bits| - pos, 4, n - i
  {
    hide Lens, Usable, IsHistory, Lsb, Shl;
    if i == n {
      LensAlike(bits, last, nl, nd, cl, [], pos, out, z);
    } else if pos + 3 <= |bits| {
      LsbBound(bits, pos, 3);
      Pow2Values();
      CodeLensAlike(bits, last, nl, nd, n, i + 1, cl[BORDER[i] := Lsb(bits, pos, 3)], pos + 3, out, z);
    }
  }

  lemma {:induction false} HeaderAlike(bits: seq<bit>, last: bool, pos: nat, out: seq<byte>, z: seq<byte>)
    requires pos <= |bits| && IsHistory(z)
    ensures Alike(Header(bits, last, pos, out), Header(bits, last, pos, z + out), z)
    decreases |bits| - pos, 0
  {
    hide CodeLens, IsHistory;
    if pos + 14 <= |bits| && Lsb(bits, pos, 5) <= 29 {
      LsbBound(bits, pos + 5, 5);
      LsbBound(bits, pos + 10, 4);
      Pow2Values();
      assert Pow2(5) == 32;
      CodeLensAlike(bits, last, 257 + Lsb(bits, pos, 5), 1 + Lsb(bits, pos + 5, 5), 4 + Lsb(bits, pos + 10, 4), 0,
                    seq(19, i => 0), pos + 14, out, z);
    }
  }

  /** inflate comes to the end of a stream exactly when RFC 1951, with 32768 zero bytes
      before it, does so without refusal, and gives the bytes that come behind them. */
  lemma BehindZeros(inp: seq<byte>)
    ensures var rz := Blocks(BitsOf(inp), 0, Zeros());
            match Goes(Decode(inp))
            case Done(out, end) => rz == Done(Zeros() + out, end)
            case _ => !rz.Done?
  {
    hide Blocks, Zeros;
    BlocksAlike(BitsOf(inp), 0, [], Zeros());
    assert Zeros() + [] == Zeros();
  }
}
