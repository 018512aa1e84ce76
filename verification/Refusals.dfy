/** Which streams the format allows and inflate refuses: exactly those with a dynamic block
    of more than 30 distance codes, or one with codes for lengths and no distance code. */
module Refusals {
  import opened Basics
  import opened Bits
  import opened Huffman
  import opened Rfc1951

  // ---------- the condition, block by block ----------

  /** The lengths of the code length code, as far as they can be read. */
  ghost function ReadCl(bits: seq<bit>, n: nat, i: nat, cl: seq<nat>, pos: nat): (r: (seq<nat>, nat))
    requires i <= n <= 19 && |cl| == 19 && Lengths(cl)
    ensures |r.0| == 19 && Lengths(r.0)
    decreases n - i
  {
    if i == n || pos + 3 > |bits| then (cl, pos)
    else
      LsbBound(bits, pos, 3);
      assert Lsb(bits, pos, 3) < 8 by { Pow2Values(); }
      ReadCl(bits, n, i + 1, cl[BORDER[i] := Lsb(bits, pos, 3)], pos + 3)
  }

  /** The code lengths of a dynamic block, as far as they can be read. */
  ghost function ReadLens(bits: seq<bit>, total: nat, cl: seq<nat>, acc: seq<nat>, pos: nat): seq<nat>
    requires |cl| == 19
    decreases |bits| - pos
  {
    if |acc| >= total then acc
    else
      match DecodeSym(cl, bits, pos)
      case OutOfBits => acc
      case NoCode => acc
      case Symbol(c, len) =>
        if c < 16 then ReadLens(bits, total, cl, acc + [c], pos + len)
        else if pos + len + RepeatBits(c) > |bits| || (c == 16 && acc == []) then acc
        else
          var times := RepeatBase(c) + Lsb(bits, pos + len, RepeatBits(c));
          ReadLens(bits, total, cl, acc + Repeat(if c == 16 then acc[|acc| - 1] else 0, times),
                   pos + len + RepeatBits(c))
  }

  /** The code lengths of the dynamic block whose header is at pos. */
  ghost function BlockLengths(bits: seq<bit>, pos: nat): seq<nat>
    requires pos + 14 <= |bits|
  {
    var nl, nd, n := 257 + Lsb(bits, pos, 5), 1 + Lsb(bits, pos + 5, 5), 4 + Lsb(bits, pos + 10, 4);
    LsbBound(bits, pos + 10, 4);
    assert n <= 19 by { Pow2Values(); }
    var (cl, at) := ReadCl(bits, n, 0, seq(19, i => 0), pos + 14);
    ReadLens(bits, nl + nd, cl, [], at)
  }

  /** At most 30 distance codes, and no code for lengths or a distance code of non-zero
      length. */
  ghost predicate DynamicOK(bits: seq<bit>, pos: nat)
    requires pos + 14 <= |bits|
  {
    var nl, nd, lens := 257 + Lsb(bits, pos, 5), 1 + Lsb(bits, pos + 5, 5), BlockLengths(bits, pos);
    nd <= 30 && (nl == 257 || exists i :: nl <= i < |lens| && lens[i] > 0)
  }

  /** What the block at pos comes to, were it the last one. */
  ghost function OneBlock(bits: seq<bit>, pos: nat, out: seq<byte>): (r: Outcome)
    requires pos + 3 <= |bits|
    ensures From(r, bits, pos + 1, out)
  {
    var kind := Lsb(bits, pos + 1, 2);
    if kind == 0 then
      (if Align(pos + 3) <= |bits| then StoredLen(bits, true, Align(pos + 3), out) else Truncated(out))
    else if kind == 1 then Symbols(bits, true, Codes(FixedLit(), FixedDist()), pos + 3, out)
    else if kind == 2 then Header(bits, true, pos + 3, out)
    else Bad(out, pos + 3)
  }

  /** Every dynamic block, from the block at pos to the last one, meets the condition. */
  ghost predicate AllTaken(bits: seq<bit>, pos: nat, out: seq<byte>)
    decreases |bits| - pos
  {
    pos + 3 <= |bits| ==>
      var r := Plain(OneBlock(bits, pos, out));
      && (Lsb(bits, pos + 1, 2) == 2 && pos + 17 <= |bits| ==> DynamicOK(bits, pos + 3))
      && (bits[pos] == 0 && r.Done? ==> AllTaken(bits, r.end, r.out))
  }

  // ---------- a stream is its first block and the others ----------

  /** What a block that is not the last one comes to, going on after it. */
  ghost function Then(bits: seq<bit>, r: Outcome): Outcome
  {
    match r
    case Done(out, end) => if end <= |bits| then Blocks(bits, end, out) else Truncated(out)
    case Refused(out, end, rfc) => Refused(out, end, Plain(if rfc.Refused? then rfc else Then(bits, rfc)))
    case Unnoticed(out, end, on) => Unnoticed(out, end, Goes(if on.Unnoticed? then on else Then(bits, on)))
    case _ => r
  }

  lemma PlainThen(bits: seq<bit>, r: Outcome)
    requires Sane(r)
    ensures Plain(Then(bits, r)) == Plain(Then(bits, Plain(r)))
  {
  }

  lemma GoesThen(bits: seq<bit>, r: Outcome)
    requires Sane(r)
    ensures Goes(Then(bits, r)) == Goes(Then(bits, Goes(r)))
  {
  }

  lemma {:induction false} StoredBytesThen(bits: seq<bit>, left: nat, pos: nat, out: seq<byte>)
    requires pos <= |bits|
    ensures StoredBytes(bits, false, left, pos, out) == Then(bits, StoredBytes(bits, true, left, pos, out))
    decreases left
  {
    if left > 0 && pos + 8 <= |bits| { StoredBytesThen(bits, left - 1, pos + 8, out + [ByteAt(bits, pos)]); }
  }

  lemma StoredLenThen(bits: seq<bit>, pos: nat, out: seq<byte>)
    requires pos <= |bits|
    ensures StoredLen(bits, false, pos, out) == Then(bits, StoredLen(bits, true, pos, out))
  {
    hide StoredBytes;
    if pos + 32 <= |bits| { StoredBytesThen(bits, Lsb(bits, pos, 16), pos + 32, out); }
  }

  lemma {:induction false} SymbolsThen(bits: seq<bit>, c: Codes, pos: nat, out: seq<byte>)
    requires pos <= |bits| && ValidCodes(c)
    ensures Symbols(bits, false, c, pos, out) == Then(bits, Symbols(bits, true, c, pos, out))
    decreases |bits| - pos, 0
  {
    hide DecodeSym, LenExtra;
    var d := DecodeSym(c.ll, bits, pos);
    if d.Symbol? && d.sym < 256 {
      SymbolsThen(bits, c, pos + d.len, out + [d.sym]);
    } else if d.Symbol? && 256 < d.sym <= 285 {
      LengthThen(bits, c, LEN_BASE[d.sym - 257], LEN_EXTRA[d.sym - 257], pos + d.len, out);
    }
  }

  lemma {:induction false} LengthThen(bits: seq<bit>, c: Codes, base: nat, extra: nat, pos: nat, out: seq<byte>)
    requires pos <= |bits| && ValidCodes(c)
    ensures LenExtra(bits, false, c, base, extra, pos, out)
            == Then(bits, LenExtra(bits, true, c, base, extra, pos, out))
    decreases |bits| - pos, 0
  {
    hide DecodeSym, DistExtra;
    if pos + extra <= |bits| {
      var d := DecodeSym(c.dl, bits, pos + extra);
      if d.Symbol? && d.sym <= 29 {
        DistanceThen(bits, c, base + Lsb(bits, pos, extra), DIST_BASE[d.sym], DIST_EXTRA[d.sym], pos + extra + d.len,
                     out);
      }
    }
  }

  lemma {:induction false} DistanceThen(bits: seq<bit>, c: Codes, len: nat, base: nat, extra: nat, pos: nat,
                                        out: seq<byte>)
    requires pos <= |bits| && ValidCodes(c) && base >= 1
    ensures DistExtra(bits, false, c, len, base, extra, pos, out)
            == Then(bits, DistExtra(bits, true, c, len, base, extra, pos, out))
    decreases |bits| - pos, 1
  {
    hide Symbols;
    if pos + extra <= |bits| {
      var copied := LzCopy(out, base + Lsb(bits, pos, extra), len);
      SymbolsThen(bits, c, pos + extra, copied);
      GoesThen(bits, Symbols(bits, true, c, pos + extra, copied));
    }
  }

  lemma TreesThen(bits: seq<bit>, ll: seq<nat>, dl: seq<nat>, pos: nat, out: seq<byte>)
    requires pos <= |bits| && Lengths(ll) && Lengths(dl) && |ll| <= 288 && |dl| <= 32
    ensures Trees(bits, false, ll, dl, pos, out) == Then(bits, Trees(bits, true, ll, dl, pos, out))
  {
    hide Symbols, GoodTrees, EmptyDistances;
    SymbolsThen(bits, Codes(ll, dl), pos, out);
    PlainThen(bits, Symbols(bits, true, Codes(ll, dl), pos, out));
  }

  lemma {:induction false} LensThen(bits: seq<bit>, nl: nat, nd: nat, cl: seq<nat>, acc: seq<nat>, pos: nat,
                                    out: seq<byte>)
    requires pos <= |bits| && 257 <= nl <= 286 && 1 <= nd <= 32
    requires |cl| == 19 && Lengths(cl) && |acc| <= nl + nd && Lengths(acc)
    ensures Lens(bits, false, nl, nd, cl, acc, pos, out) == Then(bits, Lens(bits, true, nl, nd, cl, acc, pos, out))
    decreases |bits| - pos, 0
  {
    hide Trees, DecodeSym, MaxLen, OnlySymbol, LensMore;
    if |acc| == nl + nd {
      TreesThen(bits, acc[..nl], acc[nl..], pos, out);
    } else {
      var d := DecodeSym(cl, bits, pos);
      if d.Symbol? {
        LensMoreThen(bits, nl, nd, cl, acc, d.sym, pos + d.len, out);
      } else if d.NoCode? && MaxLen(cl) == 1 {
        LensMoreThen(bits, nl, nd, cl, acc, OnlySymbol(cl), pos + 1, out);
        GoesThen(bits, LensMore(bits, true, nl, nd, cl, acc, OnlySymbol(cl), pos + 1, out));
      }
    }
  }

  lemma {:induction false} LensMoreThen(bits: seq<bit>, nl: nat, nd: nat, cl: seq<nat>, acc: seq<nat>, c: nat,
                                        pos: nat, out: seq<byte>)
    requires pos <= |bits| && 257 <= nl <= 286 && 1 <= nd <= 32 && c <= 18
    requires |cl| == 19 && Lengths(cl) && |acc| < nl + nd && Lengths(acc)
    ensures LensMore(bits, false, nl, nd, cl, acc, c, pos, out)
            == Then(bits, LensMore(bits, true, nl, nd, cl, acc, c, pos, out))
    decreases |bits| - pos, 1
  {
    hide Lens;
    if c < 16 {
      LensThen(bits, nl, nd, cl, acc + [c], pos, out);
    } else if pos + RepeatBits(c) <= |bits| {
      var times := RepeatBase(c) + Lsb(bits, pos, RepeatBits(c));
      if |acc| + times <= nl + nd && !(c == 16 && acc == []) {
        var v := if c == 16 then acc[|acc| - 1] else 0;
        LensThen(bits, nl, nd, cl, acc + Repeat(v, times), pos + RepeatBits(c), out);
      }
    }
  }

  lemma {:induction false} CodeLensThen(bits: seq<bit>, nl: nat, nd: nat, n: nat, i: nat, cl: seq<nat>, pos: nat,
                                        out: seq<byte>)
    requires pos <= |bits| && 257 <= nl <= 286 && 1 <= nd <= 32 && i <= n <= 19 && |cl| == 19 && Lengths(cl)
    ensures CodeLens(bits, false, nl, nd, n, i, cl, pos, out)
            == Then(bits, CodeLens(bits, true, nl, nd, n, i, cl, pos, out))
    decreases n - i
  {
    hide Lens, Usable, Lsb, Shl, From, Sane;
    if i == n {
      LensThen(bits, nl, nd, cl, [], pos, out);
    } else if pos + 3 <= |bits| {
      LsbBound(bits, pos, 3);
      Pow2Values();
      CodeLensThen(bits, nl, nd, n, i + 1, cl[BORDER[i] := Lsb(bits, pos, 3)], pos + 3, out);
    }
  }

  lemma HeaderThen(bits: seq<bit>, pos: nat, out: seq<byte>)
    requires pos <= |bits|
    ensures Header(bits, false, pos, out) == Then(bits, Header(bits, true, pos, out))
  {
    hide CodeLens;
    if pos + 14 <= |bits| && Lsb(bits, pos, 5) <= 29 {
      LsbBound(bits, pos + 5, 5);
      LsbBound(bits, pos + 10, 4);
      Pow2Values();
      var nl, nd, n := 257 + Lsb(bits, pos, 5), 1 + Lsb(bits, pos + 5, 5), 4 + Lsb(bits, pos + 10, 4);
      assert Pow2(5) == 32;
      CodeLensThen(bits, nl, nd, n, 0, seq(19, i => 0), pos + 14, out);
      PlainThen(bits, CodeLens(bits, true, nl, nd, n, 0, seq(19, i => 0), pos + 14, out));
    }
  }

  lemma BlocksThen(bits: seq<bit>, pos: nat, out: seq<byte>)
    requires pos + 3 <= |bits|
    ensures Blocks(bits, pos, out)
            == if bits[pos] == 1 then OneBlock(bits, pos, out) else Then(bits, OneBlock(bits, pos, out))
  {
    hide StoredLen, Symbols, Header, Lsb;
    if Align(pos + 3) <= |bits| { StoredLenThen(bits, Align(pos + 3), out); }
    SymbolsThen(bits, Codes(FixedLit(), FixedDist()), pos + 3, out);
    HeaderThen(bits, pos + 3, out);
  }

  // ---------- which blocks are refused ----------

  lemma {:induction false} StoredTaken(bits: seq<bit>, left: nat, pos: nat, out: seq<byte>)
    requires pos <= |bits|
    ensures !StoredBytes(bits, true, left, pos, out).Refused?
    decreases left
  {
    if left > 0 && pos + 8 <= |bits| { StoredTaken(bits, left - 1, pos + 8, out + [ByteAt(bits, pos)]); }
  }

  lemma {:induction false} SymbolsTaken(bits: seq<bit>, c: Codes, pos: nat, out: seq<byte>)
    requires pos <= |bits| && ValidCodes(c)
    ensures !Symbols(bits, true, c, pos, out).Refused?
    decreases |bits| - pos, 0
  {
    hide DecodeSym, LenExtra;
    var d := DecodeSym(c.ll, bits, pos);
    if d.Symbol? && d.sym < 256 {
      SymbolsTaken(bits, c, pos + d.len, out + [d.sym]);
    } else if d.Symbol? && 256 < d.sym <= 285 {
      LengthTaken(bits, c, LEN_BASE[d.sym - 257], LEN_EXTRA[d.sym - 257], pos + d.len, out);
    }
  }

  lemma {:induction false} LengthTaken(bits: seq<bit>, c: Codes, base: nat, extra: nat, pos: nat, out: seq<byte>)
    requires pos <= |bits| && ValidCodes(c)
    ensures !LenExtra(bits, true, c, base, extra, pos, out).Refused?
    decreases |bits| - pos, 0
  {
    hide DecodeSym, DistExtra;
    if pos + extra <= |bits| {
      var d := DecodeSym(c.dl, bits, pos + extra);
      if d.Symbol? && d.sym <= 29 {
        DistanceTaken(bits, c, base + Lsb(bits, pos, extra), DIST_BASE[d.sym], DIST_EXTRA[d.sym], pos + extra + d.len,
                      out);
      }
    }
  }

  lemma {:induction false} DistanceTaken(bits: seq<bit>, c: Codes, len: nat, base: nat, extra: nat, pos: nat,
                                         out: seq<byte>)
    requires pos <= |bits| && ValidCodes(c) && base >= 1
    ensures !DistExtra(bits, true, c, len, base, extra, pos, out).Refused?
    decreases |bits| - pos, 1
  {
    hide Symbols;
    if pos + extra <= |bits| {
      var dist := base + Lsb(bits, pos, extra);
      if dist <= |out| { SymbolsTaken(bits, c, pos + extra, LzCopy(out, dist, len)); }
    }
  }

  lemma TreesRefused(bits: seq<bit>, ll: seq<nat>, dl: seq<nat>, pos: nat, out: seq<byte>)
    requires pos <= |bits| && Lengths(ll) && Lengths(dl) && |ll| <= 288 && |dl| <= 32
    requires Plain(Trees(bits, true, ll, dl, pos, out)).Done?
    ensures Trees(bits, true, ll, dl, pos, out).Refused? <==> EmptyDistances(ll, dl)
  {
    hide Symbols, GoodTrees, EmptyDistances;
    SymbolsTaken(bits, Codes(ll, dl), pos, out);
  }

  lemma {:induction false} LensRefused(bits: seq<bit>, nl: nat, nd: nat, cl: seq<nat>, acc: seq<nat>, pos: nat,
                                       out: seq<byte>)
    requires pos <= |bits| && 257 <= nl <= 286 && 1 <= nd <= 32
    requires |cl| == 19 && Lengths(cl) && |acc| <= nl + nd && Lengths(acc)
    requires Plain(Lens(bits, true, nl, nd, cl, acc, pos, out)).Done?
    ensures var lens := ReadLens(bits, nl + nd, cl, acc, pos);
            && |lens| == nl + nd
            && (Lens(bits, true, nl, nd, cl, acc, pos, out).Refused? <==> EmptyDistances(lens[..nl], lens[nl..]))
    decreases |bits| - pos
  {
    hide Trees, DecodeSym, EmptyDistances;
    if |acc| == nl + nd {
      TreesRefused(bits, acc[..nl], acc[nl..], pos, out);
    } else {
      var d := DecodeSym(cl, bits, pos);
      if d.sym < 16 {
        LensRefused(bits, nl, nd, cl, acc + [d.sym], pos + d.len, out);
      } else {
        var times := RepeatBase(d.sym) + Lsb(bits, pos + d.len, RepeatBits(d.sym));
        var v := if d.sym == 16 then acc[|acc| - 1] else 0;
        LensRefused(bits, nl, nd, cl, acc + Repeat(v, times), pos + d.len + RepeatBits(d.sym), out);
      }
    }
  }

  lemma {:induction false} CodeLensRefused(bits: seq<bit>, nl: nat, nd: nat, n: nat, i: nat, cl: seq<nat>, pos: nat,
                                           out: seq<byte>)
    requires pos <= |bits| && 257 <= nl <= 286 && 1 <= nd <= 32 && i <= n <= 19 && |cl| == 19 && Lengths(cl)
    requires Plain(CodeLens(bits, true, nl, nd, n, i, cl, pos, out)).Done?
    ensures var r := ReadCl(bits, n, i, cl, pos);
            var lens := ReadLens(bits, nl + nd, r.0, [], r.1);
            && |lens| == nl + nd
            && (CodeLens(bits, true, nl, nd, n, i, cl, pos, out).Refused? <==> EmptyDistances(lens[..nl], lens[nl..]))
    decreases n - i
  {
    hide Lens, Usable, ReadLens, EmptyDistances, Lsb;
    if i == n {
      LensRefused(bits, nl, nd, cl, [], pos, out);
    } else {
      LsbBound(bits, pos, 3);
      Pow2Values();
      CodeLensRefused(bits, nl, nd, n, i + 1, cl[BORDER[i] := Lsb(bits, pos, 3)], pos + 3, out);
    }
  }

  lemma EmptyMeans(lens: seq<nat>, nl: nat)
    requires nl <= |lens|
    ensures EmptyDistances(lens[..nl], lens[nl..])
            <==> nl > 257 && !exists i :: nl <= i < |lens| && lens[i] > 0
  {
    var dl := lens[nl..];
    if MaxLen(dl) > 0 {
      var i :| 0 <= i < |dl| && dl[i] == MaxLen(dl);
      assert lens[nl + i] > 0;
    } else {
      forall i | nl <= i < |lens|
        ensures lens[i] == 0
      {
        assert dl[i - nl] == lens[i];
      }
    }
  }

  lemma HeaderRefused(bits: seq<bit>, pos: nat, out: seq<byte>)
    requires pos <= |bits| && Plain(Header(bits, true, pos, out)).Done?
    ensures pos + 14 <= |bits| && (Header(bits, true, pos, out).Refused? <==> !DynamicOK(bits, pos))
  {
    hide CodeLens, ReadLens, ReadCl, EmptyDistances;
    LsbBound(bits, pos + 5, 5);
    LsbBound(bits, pos + 10, 4);
    Pow2Values();
    assert Pow2(5) == 32;
    var nl, nd, n := 257 + Lsb(bits, pos, 5), 1 + Lsb(bits, pos + 5, 5), 4 + Lsb(bits, pos + 10, 4);
    CodeLensRefused(bits, nl, nd, n, 0, seq(19, i => 0), pos + 14, out);
    EmptyMeans(BlockLengths(bits, pos), nl);
  }

  lemma BlockRefused(bits: seq<bit>, pos: nat, out: seq<byte>)
    requires pos + 3 <= |bits| && Plain(OneBlock(bits, pos, out)).Done?
    ensures OneBlock(bits, pos, out).Refused?
            <==> Lsb(bits, pos + 1, 2) == 2 && pos + 17 <= |bits| && !DynamicOK(bits, pos + 3)
  {
    hide StoredBytes, Symbols, Header, Lsb, DynamicOK;
    var kind := Lsb(bits, pos + 1, 2);
    if kind == 0 {
      StoredTaken(bits, Lsb(bits, Align(pos + 3), 16), Align(pos + 3) + 32, out);
    } else if kind == 1 {
      SymbolsTaken(bits, Codes(FixedLit(), FixedDist()), pos + 3, out);
    } else if kind == 2 {
      HeaderRefused(bits, pos + 3, out);
    }
  }

  /** A well-formed stream is refused exactly when some dynamic block is not taken. */
  lemma {:induction false} RefusedExactly(bits: seq<bit>, pos: nat, out: seq<byte>)
    requires pos <= |bits| && Plain(Blocks(bits, pos, out)).Done?
    ensures Blocks(bits, pos, out).Refused? <==> !AllTaken(bits, pos, out)
    decreases |bits| - pos
  {
    hide Blocks, OneBlock, DynamicOK, Lsb;
    assert pos + 3 <= |bits| by { LongEnough(bits, pos, out); }
    var b := OneBlock(bits, pos, out);
    BlocksThen(bits, pos, out);
    PlainThen(bits, b);
    BlockRefused(bits, pos, out);
    if bits[pos] == 0 {
      RefusedExactly(bits, Plain(b).end, Plain(b).out);
    }
  }

  lemma LongEnough(bits: seq<bit>, pos: nat, out: seq<byte>)
    requires pos <= |bits| && Plain(Blocks(bits, pos, out)).Done?
    ensures pos + 3 <= |bits|
  {
  }
}
