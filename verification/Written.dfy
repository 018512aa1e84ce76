/** Decoding undoes writing: a stream is well-formed exactly when it is written down as
    Deflate says, and then it decodes to what was written. */
module Written {
  import opened Basics
  import opened Bits
  import opened Huffman
  import opened Rfc1951
  import opened Deflate

  // ---------- bits and codes ----------

  lemma AtPlus(bits: seq<bit>, pos: nat, s: seq<bit>, t: seq<bit>)
    ensures At(bits, pos, s + t) <==> At(bits, pos, s) && At(bits, pos + |s|, t)
  {
    if pos + |s + t| <= |bits| {
      var there := bits[pos..pos + |s + t|];
      assert there[..|s|] == bits[pos..pos + |s|] && there[|s|..] == bits[pos + |s|..pos + |s| + |t|];
      assert (s + t)[..|s|] == s && (s + t)[|s|..] == t;
    }
  }

  lemma AtOne(bits: seq<bit>, pos: nat, b: bit)
    ensures At(bits, pos, [b]) <==> pos < |bits| && bits[pos] == b
  {
    if pos < |bits| { assert bits[pos..pos + 1] == [bits[pos]]; }
  }

  lemma {:induction false} NumberAt(bits: seq<bit>, pos: nat, v: nat, n: nat)
    requires v < Pow2(n)
    ensures At(bits, pos, ByteBits(v, n)) <==> pos + n <= |bits| && Lsb(bits, pos, n) == v
    decreases n
  {
    hide At;
    if n > 0 {
      AtPlus(bits, pos, [v % 2], ByteBits(v / 2, n - 1));
      AtOne(bits, pos, v % 2);
      NumberAt(bits, pos + 1, v / 2, n - 1);
    } else {
      AtNone(bits, pos);
    }
  }

  lemma AtNone(bits: seq<bit>, pos: nat)
    ensures At(bits, pos, []) <==> pos <= |bits|
  {
  }

  lemma {:induction false} CodeAt(bits: seq<bit>, pos: nat, v: nat, n: nat)
    requires v < Pow2(n)
    ensures At(bits, pos, CodeBits(v, n)) <==> pos + n <= |bits| && Msb(bits, pos, n) == v
  {
    hide At;
    if n > 0 {
      AtPlus(bits, pos, CodeBits(v / 2, n - 1), [v % 2]);
      AtOne(bits, pos + (n - 1), v % 2);
      CodeAt(bits, pos, v / 2, n - 1);
    } else {
      AtNone(bits, pos);
    }
  }

  /** Code lengths that are not over-subscribed. */
  predicate Fits(lens: seq<nat>)
  {
    Lengths(lens) && Kraft(lens, |lens|) <= Pow2(MAX_BITS)
  }

  lemma CodeFits(lens: seq<nat>, sym: nat)
    requires Fits(lens) && sym < |lens| && lens[sym] > 0
    ensures Code(lens, sym) < Pow2(lens[sym])
  {
    hide Used, Shl, First, Kraft, CountBelow;
    var j, g := lens[sym], MAX_BITS;
    CodeRange(lens, sym);
    FirstIsUsed(lens, j);
    FirstIsUsed(lens, g);
    KraftIsUsed(lens, |lens|);
    if j < g { UsedGrows(lens, j, g); }
    ShlNone(Used(lens, |lens|, j));
    ShlShl(1, j, g - j);
    ShlOrder(Pow2(j), Used(lens, |lens|, j), g - j);
  }

  lemma ShlNone(v: nat)
    ensures Shl(v, 0) == v
  {
  }

  /** A code word is there exactly when the symbol is decoded. */
  lemma WordAt(lens: seq<nat>, bits: seq<bit>, pos: nat, sym: nat)
    requires Fits(lens) && Has(Canonical(lens), sym)
    ensures sym < |lens| && lens[sym] > 0
    ensures At(bits, pos, Canonical(lens)[sym]) <==> DecodeSym(lens, bits, pos) == Symbol(sym, lens[sym])
  {
    hide At, Code, DecodeSym, Kraft, CodeBits, Msb, Shl;
    var n := lens[sym];
    assert |CodeBits(Code(lens, sym), n)| == n;
    CodeFits(lens, sym);
    CodeAt(bits, pos, Code(lens, sym), n);
    if StartsWith(lens, bits, pos, sym) { DecodeSymIs(lens, bits, pos, sym); }
    if DecodeSym(lens, bits, pos) == Symbol(sym, n) { SymbolStarts(lens, bits, pos); }
  }

  lemma SymbolStarts(lens: seq<nat>, bits: seq<bit>, pos: nat)
    requires DecodeSym(lens, bits, pos).Symbol?
    ensures var d := DecodeSym(lens, bits, pos);
            d.sym < |lens| && StartsWith(lens, bits, pos, d.sym) && d.len == lens[d.sym]
  {
  }

  /** What is decoded has a word, and the word is there. */
  lemma DecodedWord(lens: seq<nat>, bits: seq<bit>, pos: nat)
    requires Fits(lens) && DecodeSym(lens, bits, pos).Symbol?
    ensures var d := DecodeSym(lens, bits, pos);
            && Has(Canonical(lens), d.sym) && |Canonical(lens)[d.sym]| == d.len
            && At(bits, pos, Canonical(lens)[d.sym])
  {
    hide At, Code, DecodeSym, Kraft, CodeBits;
    SymbolStarts(lens, bits, pos);
    WordAt(lens, bits, pos, DecodeSym(lens, bits, pos).sym);
  }

  lemma HasLength(lens: seq<nat>, sym: nat)
    requires Has(Canonical(lens), sym)
    ensures sym < |lens| && |Canonical(lens)[sym]| == lens[sym]
  {
  }

  // ---------- the fixed codes ----------

  lemma {:induction false} FixedCount(n: nat)
    requires n <= 288
    ensures CountBelow(FixedLit(), n, 8) == if n <= 144 then n else if n <= 280 then 144 else n - 136
    ensures CountBelow(FixedLit(), n, 9) == if n <= 144 then 0 else if n <= 256 then n - 144 else 112
    ensures CountBelow(FixedLit(), n, 7) == if n <= 256 then 0 else if n <= 280 then n - 256 else 24
  {
    if n > 0 { FixedCount(n - 1); }
  }

  lemma {:induction false} FixedDistCount(n: nat)
    requires n <= 30
    ensures CountBelow(FixedDist(), n, 5) == n
  {
    if n > 0 { FixedDistCount(n - 1); }
  }

  /** The table of section 3.2.6 is the canonical code for its lengths. */
  lemma FixedIs()
    ensures FixedWords() == Words(Canonical(FixedLit()), Canonical(FixedDist()))
  {
    hide CodeBits, CountBelow;
    var ll, dl := FixedLit(), FixedDist();
    NoneShorter(ll, 7);
    NoneShorter(dl, 5);
    FixedCount(288);
    assert First(ll, 8) == 48 && First(ll, 9) == 400;
    forall sym | 0 <= sym < 288
      ensures FixedWords().ll[sym] == Canonical(ll)[sym]
    {
      FixedCount(sym);
    }
    forall sym | 0 <= sym < 30
      ensures FixedWords().dl[sym] == Canonical(dl)[sym]
    {
      FixedDistCount(sym);
    }
  }

  // ---------- lengths and distances ----------

  /** The leading digits of v, when it is below lim 2^m. */
  lemma {:induction false} HalvingsAre(v: nat, lim: nat, m: nat)
    requires lim in {4, 8} && v < Shl(lim, m)
    ensures var e := Halvings(v, lim);
            e <= m && Shr(v, e) < lim && (e > 0 ==> Shr(v, e) >= lim / 2)
    decreases v
  {
    if v >= lim {
      if m > 0 { HalvingsAre(v / 2, lim, m - 1); }
      if v / 2 < lim { assert Halvings(v / 2, lim) == 0; }
    }
  }

  /** Digits q, and e further bits v. */
  lemma {:induction false} HalvingsOf(q: nat, e: nat, v: nat, lim: nat)
    requires lim in {4, 8} && q < lim && (e > 0 ==> q >= lim / 2) && v < Pow2(e)
    ensures var x := Shl(q, e) + v;
            Halvings(x, lim) == e && Shr(x, e) == q && Mask(x, e) == v
    decreases e
  {
    SplitUnique(q, e, v);
    if e > 0 {
      var x := Shl(q, e) + v;
      assert x / 2 == Shl(q, e - 1) + v / 2;
      HalvingsOf(q, e - 1, v / 2, lim);
      if e > 1 { LeastDigit(q, e - 1, lim / 2); }
    }
  }

  lemma {:induction false} LeastDigit(q: nat, e: nat, least: nat)
    requires q >= least
    ensures Shl(q, e) >= least
  {
    if e > 0 { LeastDigit(q, e - 1, least); }
  }

  predicate LengthEntry(i: nat, e: nat, base: nat)
    requires i < 29
  {
    LEN_EXTRA[i] == e && LEN_BASE[i] == base
  }

  lemma LengthEntries0()
    ensures LengthEntry(0, 0, 3) && LengthEntry(1, 0, 4) && LengthEntry(2, 0, 5) && LengthEntry(3, 0, 6)
  {
  }

  lemma LengthEntries1()
    ensures LengthEntry(4, 0, 7) && LengthEntry(5, 0, 8) && LengthEntry(6, 0, 9) && LengthEntry(7, 0, 10)
  {
  }

  lemma LengthEntries2()
    ensures LengthEntry(8, 1, 11) && LengthEntry(9, 1, 13) && LengthEntry(10, 1, 15) && LengthEntry(11, 1, 17)
    ensures LengthEntry(12, 2, 19) && LengthEntry(13, 2, 23) && LengthEntry(14, 2, 27) && LengthEntry(15, 2, 31)
  {
  }

  lemma LengthEntries3()
    ensures LengthEntry(16, 3, 35) && LengthEntry(17, 3, 43) && LengthEntry(18, 3, 51) && LengthEntry(19, 3, 59)
    ensures LengthEntry(20, 4, 67) && LengthEntry(21, 4, 83) && LengthEntry(22, 4, 99) && LengthEntry(23, 4, 115)
  {
  }

  lemma LengthEntries4()
    ensures LengthEntry(24, 5, 131) && LengthEntry(25, 5, 163) && LengthEntry(26, 5, 195) && LengthEntry(27, 5, 227)
    ensures LengthEntry(28, 0, 258)
  {
  }

  lemma LengthEntries()
    ensures LengthEntry(0, 0, 3) && LengthEntry(1, 0, 4) && LengthEntry(2, 0, 5) && LengthEntry(3, 0, 6)
    ensures LengthEntry(4, 0, 7) && LengthEntry(5, 0, 8) && LengthEntry(6, 0, 9) && LengthEntry(7, 0, 10)
    ensures LengthEntry(8, 1, 11) && LengthEntry(9, 1, 13) && LengthEntry(10, 1, 15) && LengthEntry(11, 1, 17)
    ensures LengthEntry(12, 2, 19) && LengthEntry(13, 2, 23) && LengthEntry(14, 2, 27) && LengthEntry(15, 2, 31)
    ensures LengthEntry(16, 3, 35) && LengthEntry(17, 3, 43) && LengthEntry(18, 3, 51) && LengthEntry(19, 3, 59)
    ensures LengthEntry(20, 4, 67) && LengthEntry(21, 4, 83) && LengthEntry(22, 4, 99) && LengthEntry(23, 4, 115)
    ensures LengthEntry(24, 5, 131) && LengthEntry(25, 5, 163) && LengthEntry(26, 5, 195) && LengthEntry(27, 5, 227)
    ensures LengthEntry(28, 0, 258)
  {
    hide LengthEntry;
    LengthEntries0();
    LengthEntries1();
    LengthEntries2();
    LengthEntries3();
    LengthEntries4();
  }

  lemma LengthTable(e: nat, q: nat)
    requires e <= 5 && q < 8 && (e > 0 ==> q >= 4)
    ensures LengthEntry(4 * e + q, e, 3 + Shl(q, e))
  {
    hide Shl, LengthEntry;
    ShlNone(q);
    Doubled(q);
    LengthEntries();
    if e == 0 {} else if e == 1 {} else if e == 2 {} else if e == 3 {} else if e == 4 {} else { assert e == 5; }
  }

  lemma Doubled(q: nat)
    ensures Shl(q, 1) == 2 * q && Shl(q, 2) == 4 * q && Shl(q, 3) == 8 * q && Shl(q, 4) == 16 * q
    ensures Shl(q, 5) == 32 * q && Shl(q, 6) == 64 * q && Shl(q, 7) == 128 * q && Shl(q, 8) == 256 * q
    ensures Shl(q, 9) == 512 * q && Shl(q, 10) == 1024 * q && Shl(q, 11) == 2048 * q && Shl(q, 12) == 4096 * q
    ensures Shl(q, 13) == 8192 * q
  {
    assert Shl(q, 6) == 64 * q;
    assert Shl(q, 12) == 64 * Shl(q, 6);
  }

  predicate DistanceEntry(i: nat, e: nat, base: nat)
    requires i < 30
  {
    DIST_EXTRA[i] == e && DIST_BASE[i] == base
  }

  lemma DistanceEntries0()
    ensures DistanceEntry(0, 0, 1) && DistanceEntry(1, 0, 2) && DistanceEntry(2, 0, 3)
    ensures DistanceEntry(3, 0, 4) && DistanceEntry(4, 1, 5) && DistanceEntry(5, 1, 7)
  {
  }

  lemma DistanceEntries1()
    ensures DistanceEntry(6, 2, 9) && DistanceEntry(7, 2, 13) && DistanceEntry(8, 3, 17)
    ensures DistanceEntry(9, 3, 25) && DistanceEntry(10, 4, 33) && DistanceEntry(11, 4, 49)
  {
  }

  lemma DistanceEntries2()
    ensures DistanceEntry(12, 5, 65) && DistanceEntry(13, 5, 97) && DistanceEntry(14, 6, 129)
    ensures DistanceEntry(15, 6, 193) && DistanceEntry(16, 7, 257) && DistanceEntry(17, 7, 385)
  {
  }

  lemma DistanceEntries3()
    ensures DistanceEntry(18, 8, 513) && DistanceEntry(19, 8, 769) && DistanceEntry(20, 9, 1025)
    ensures DistanceEntry(21, 9, 1537) && DistanceEntry(22, 10, 2049) && DistanceEntry(23, 10, 3073)
  {
  }

  lemma DistanceEntries4()
    ensures DistanceEntry(24, 11, 4097) && DistanceEntry(25, 11, 6145) && DistanceEntry(26, 12, 8193)
    ensures DistanceEntry(27, 12, 12289) && DistanceEntry(28, 13, 16385) && DistanceEntry(29, 13, 24577)
  {
  }

  lemma DistanceEntries()
    ensures DistanceEntry(0, 0, 1) && DistanceEntry(1, 0, 2) && DistanceEntry(2, 0, 3)
    ensures DistanceEntry(3, 0, 4) && DistanceEntry(4, 1, 5) && DistanceEntry(5, 1, 7)
    ensures DistanceEntry(6, 2, 9) && DistanceEntry(7, 2, 13) && DistanceEntry(8, 3, 17)
    ensures DistanceEntry(9, 3, 25) && DistanceEntry(10, 4, 33) && DistanceEntry(11, 4, 49)
    ensures DistanceEntry(12, 5, 65) && DistanceEntry(13, 5, 97) && DistanceEntry(14, 6, 129)
    ensures DistanceEntry(15, 6, 193) && DistanceEntry(16, 7, 257) && DistanceEntry(17, 7, 385)
    ensures DistanceEntry(18, 8, 513) && DistanceEntry(19, 8, 769) && DistanceEntry(20, 9, 1025)
    ensures DistanceEntry(21, 9, 1537) && DistanceEntry(22, 10, 2049) && DistanceEntry(23, 10, 3073)
    ensures DistanceEntry(24, 11, 4097) && DistanceEntry(25, 11, 6145) && DistanceEntry(26, 12, 8193)
    ensures DistanceEntry(27, 12, 12289) && DistanceEntry(28, 13, 16385) && DistanceEntry(29, 13, 24577)
  {
    hide DistanceEntry;
    DistanceEntries0();
    DistanceEntries1();
    DistanceEntries2();
    DistanceEntries3();
    DistanceEntries4();
  }

  lemma DistanceTable(e: nat, q: nat)
    requires e <= 13 && q < 4 && (e > 0 ==> q >= 2)
    ensures DistanceEntry(2 * e + q, e, 1 + Shl(q, e))
  {
    hide Shl, DistanceEntry;
    ShlNone(q);
    Doubled(q);
    DistanceEntries();
    if e < 4 {
      if e == 0 {} else if e == 1 {} else if e == 2 {} else { assert e == 3; }
    } else if e < 9 {
      if e == 4 {} else if e == 5 {} else if e == 6 {} else if e == 7 {} else { assert e == 8; }
    } else {
      if e == 9 {} else if e == 10 {} else if e == 11 {} else if e == 12 {} else { assert e == 13; }
    }
  }

  /** The table entry of a length's symbol, and the extra value, give the length. */
  lemma LengthCoded(len: nat)
    requires 3 <= len <= 258
    ensures var c := LengthCode(len);
            && 257 <= c.sym <= 285 && c.value < Pow2(c.extra) && c.value <= len
            && LengthEntry(c.sym - 257, c.extra, len - c.value)
  {
    hide Shl, Shr, Mask, Halvings, LengthEntry;
    if len < 258 {
      var v := len - 3;
      Doubled(8);
      HalvingsAre(v, 8, 5);
      var e := Halvings(v, 8);
      Split(v, e);
      LengthTable(e, Shr(v, e));
    } else {
      ShlNone(1);
      LengthEntries();
    }
  }

  /** And the other way round: only the last symbol with extra bits reaches 258 as well. */
  lemma LengthDecoded(i: nat, v: nat) returns (e: nat, base: nat)
    requires i < 29
    ensures LengthEntry(i, e, base)
    ensures v < Pow2(e) ==> 3 <= base + v <= 258
    ensures v < Pow2(e) ==> if i == 27 && v == 31 then base + v == 258 && Coded(257 + i, e, v) == LONGEST
                            else LengthCode(base + v) == Coded(257 + i, e, v)
  {
    hide Shl, Shr, Mask, Halvings, LengthEntry;
    if i < 28 {
      e := if i < 8 then 0 else i / 4 - 1;
      var q := i - 4 * e;
      base := 3 + Shl(q, e);
      LengthTable(e, q);
      if v < Pow2(e) {
        HalvingsOf(q, e, v, 8);
        LengthRange(q, e, v);
      }
    } else {
      e, base := 0, 258;
      LengthEntries();
      ShlNone(1);
    }
  }

  lemma LengthRange(q: nat, e: nat, v: nat)
    requires e <= 5 && q < 8 && (e > 0 ==> q >= 4) && v < Pow2(e)
    ensures 3 + Shl(q, e) + v <= 258
    ensures 3 + Shl(q, e) + v == 258 <==> e == 5 && q == 7 && v == 31
  {
    hide Shl;
    ShlNone(q);
    Doubled(q);
    Pow2Values();
    if e == 0 {} else if e == 1 {} else if e == 2 {} else if e == 3 {} else if e == 4 {} else { assert e == 5; }
  }

  lemma DistanceCoded(dist: nat)
    requires 1 <= dist <= 32768
    ensures var c := DistanceCode(dist);
            && c.sym <= 29 && c.value < Pow2(c.extra) && c.value < dist
            && DistanceEntry(c.sym, c.extra, dist - c.value)
  {
    hide Shl, Shr, Mask, Halvings, DistanceEntry;
    var v := dist - 1;
    Doubled(4);
    HalvingsAre(v, 4, 13);
    var e := Halvings(v, 4);
    Split(v, e);
    DistanceTable(e, Shr(v, e));
  }

  lemma DistanceDecoded(i: nat, v: nat) returns (e: nat, base: nat)
    requires i < 30
    ensures DistanceEntry(i, e, base) && base >= 1
    ensures v < Pow2(e) ==> 1 <= base + v <= 32768 && DistanceCode(base + v) == Coded(i, e, v)
  {
    hide Shl, Shr, Mask, Halvings, DistanceEntry;
    e := if i < 4 then 0 else i / 2 - 1;
    var q := i - 2 * e;
    base := 1 + Shl(q, e);
    DistanceTable(e, q);
    if v < Pow2(e) {
      DistanceRoom(q, e);
      HalvingsOf(q, e, v, 4);
    }
  }

  lemma DistanceRoom(q: nat, e: nat)
    requires q < 4 && e <= 13
    ensures Shl(q, e) + Pow2(e) <= 32768
  {
    ShlPlus(q, 1, e);
    LeastRoom(q + 1, 4, e);
    ShlShl(4, e, 13 - e);
    ShlGrows(Shl(4, e), 13 - e);
    Doubled(4);
  }

  lemma {:induction false} LeastRoom(u: nat, v: nat, d: nat)
    requires u <= v
    ensures Shl(u, d) <= Shl(v, d)
  {
    if d > 0 { LeastRoom(u, v, d - 1); }
  }

  lemma {:induction false} ShlGrows(v: nat, d: nat)
    ensures v <= Shl(v, d)
  {
    if d > 0 { ShlGrows(v, d - 1); }
  }

  // ---------- copies ----------

  /** Each byte copied is the one dist before it. */
  lemma {:induction false} CopiedFrom(out: seq<byte>, dist: nat, len: nat, i: nat)
    requires 1 <= dist <= |out| <= i < |out| + len
    ensures LzCopy(out, dist, len)[i] == LzCopy(out, dist, len)[i - dist]
    decreases len
  {
    var out' := out + [Back(out, dist)];
    var r := LzCopy(out', dist, len - 1);
    assert r == LzCopy(out, dist, len);
    if i == |out| {
      assert out' == r[..|out'|];
      assert r[i] == out'[i] && r[i - dist] == out'[i - dist];
    } else {
      CopiedFrom(out', dist, len - 1, i);
    }
  }

  lemma {:induction false} CopiedAround(out: seq<byte>, dist: nat, len: nat, k: nat)
    requires 1 <= dist <= |out| && k < len
    ensures LzCopy(out, dist, len)[|out| + k] == out[|out| - dist + Around(k, dist)]
    decreases k
  {
    hide LzCopy;
    var r := LzCopy(out, dist, len);
    CopiedFrom(out, dist, len, |out| + k);
    if k < dist {
      assert out == r[..|out|];
      assert r[|out| + k - dist] == out[|out| + k - dist];
    } else {
      CopiedAround(out, dist, len, k - dist);
    }
  }

  lemma CopyIs(out: seq<byte>, dist: nat, len: nat)
    requires 1 <= dist <= |out|
    ensures LzCopy(out, dist, len) == out + Repeated(out, len, dist)
  {
    var r := LzCopy(out, dist, len);
    forall k | 0 <= k < len
      ensures r[|out| + k] == Repeated(out, len, dist)[k]
    {
      CopiedAround(out, dist, len, k);
    }
    assert r[..|out|] == out;
    assert r == r[..|out|] + r[|out|..];
    assert r[|out|..] == Repeated(out, len, dist);
  }

  // ---------- the data of a block ----------

  /** Two codes that are not over-subscribed, and their words. */
  ghost predicate Coding(c: Codes, w: Words)
  {
    && ValidCodes(c) && Fits(c.ll) && Fits(c.dl) && |c.dl| <= 32
    && w == Words(Canonical(c.ll), Canonical(c.dl))
  }

  lemma LiteralStep(bits: seq<bit>, last: bool, c: Codes, pos: nat, out: seq<byte>, sym: nat, n: nat)
    requires pos <= |bits| && ValidCodes(c) && DecodeSym(c.ll, bits, pos) == Symbol(sym, n)
    ensures var r := Symbols(bits, last, c, pos, out);
            && (sym < 256 ==> r == Symbols(bits, last, c, pos + n, out + [sym]))
            && (sym == 256 ==> r == Next(bits, last, pos + n, out))
            && (sym > 285 ==> r == Bad(out, pos + n))
  {
    hide DecodeSym, Next;
  }

  lemma LengthStep(bits: seq<bit>, last: bool, c: Codes, pos: nat, out: seq<byte>, sym: nat, n: nat, e: nat, base: nat)
    requires pos <= |bits| && ValidCodes(c) && DecodeSym(c.ll, bits, pos) == Symbol(sym, n)
    requires 257 <= sym <= 285 && LengthEntry(sym - 257, e, base)
    ensures Symbols(bits, last, c, pos, out) == LenExtra(bits, last, c, base, e, pos + n, out)
  {
    hide DecodeSym, Next, LenExtra;
  }

  lemma DistanceStep(bits: seq<bit>, last: bool, c: Codes, len: nat, pos: nat, out: seq<byte>, sym: nat, n: nat,
                     e: nat, base: nat)
    requires pos <= |bits| && ValidCodes(c) && DecodeSym(c.dl, bits, pos) == Symbol(sym, n)
    requires sym <= 29 && DistanceEntry(sym, e, base) && base >= 1
    ensures Distance(bits, last, c, len, pos, out) == DistExtra(bits, last, c, len, base, e, pos + n, out)
  {
    hide DecodeSym, DistExtra;
  }

  lemma CopyStep(bits: seq<bit>, last: bool, c: Codes, len: nat, dist: nat, pos: nat, out: seq<byte>)
    requires pos <= |bits| && ValidCodes(c) && 1 <= dist <= |out|
    ensures Copied(bits, last, c, len, dist, pos, out) == Symbols(bits, last, c, pos, out + Repeated(out, len, dist))
  {
    hide Symbols, LzCopy;
    CopyIs(out, dist, len);
  }

  /** A symbol and its extra bits. */
  lemma CodedAt(lens: seq<nat>, bits: seq<bit>, pos: nat, c: Coded)
    requires Fits(lens) && Has(Canonical(lens), c.sym) && c.value < Pow2(c.extra)
    requires At(bits, pos, CodedBits(Canonical(lens), c))
    ensures var n := |Canonical(lens)[c.sym]|;
            && DecodeSym(lens, bits, pos) == Symbol(c.sym, n) && pos + n + c.extra <= |bits|
            && Lsb(bits, pos + n, c.extra) == c.value && |CodedBits(Canonical(lens), c)| == n + c.extra
  {
    hide At, DecodeSym, Fits, Canonical, Lsb, ByteBits, Shl;
    var w := Canonical(lens)[c.sym];
    AtPlus(bits, pos, w, ByteBits(c.value, c.extra));
    HasLength(lens, c.sym);
    WordAt(lens, bits, pos, c.sym);
    NumberAt(bits, pos + |w|, c.value, c.extra);
  }

  lemma DistanceWritten(bits: seq<bit>, last: bool, c: Codes, w: Words, len: nat, dist: nat, pos: nat, out: seq<byte>)
    requires Coding(c, w) && HasDistance(w, dist) && dist <= |out| && pos <= |bits|
    requires At(bits, pos, CodedBits(w.dl, DistanceCode(dist)))
    ensures pos + |CodedBits(w.dl, DistanceCode(dist))| <= |bits|
    ensures Distance(bits, last, c, len, pos, out)
            == Symbols(bits, last, c, pos + |CodedBits(w.dl, DistanceCode(dist))|, out + Repeated(out, len, dist))
  {
    hide At, DecodeSym, Fits, Canonical, Lsb, ByteBits, Shl, Symbols, Distance, Copied, CodedBits, DistanceEntry,
         DistanceCode, Repeated;
    var k := DistanceCode(dist);
    DistanceCoded(dist);
    CodedAt(c.dl, bits, pos, k);
    var n := |w.dl[k.sym]|;
    DistanceStep(bits, last, c, len, pos, out, k.sym, n, k.extra, dist - k.value);
    CopyStep(bits, last, c, len, dist, pos + n + k.extra, out);
  }

  lemma CopyWritten(bits: seq<bit>, last: bool, c: Codes, w: Words, k: Coded, len: nat, dist: nat, pos: nat,
                    out: seq<byte>)
    requires Coding(c, w) && Has(w.ll, k.sym) && HasDistance(w, dist) && dist <= |out| && pos <= |bits|
    requires 257 <= k.sym <= 285 && k.value < Pow2(k.extra) && k.value <= len
    requires LengthEntry(k.sym - 257, k.extra, len - k.value)
    requires At(bits, pos, CodedBits(w.ll, k) + CodedBits(w.dl, DistanceCode(dist)))
    ensures var s := CodedBits(w.ll, k) + CodedBits(w.dl, DistanceCode(dist));
            pos + |s| <= |bits|
            && Symbols(bits, last, c, pos, out)
               == Symbols(bits, last, c, pos + |s|, out + Repeated(out, len, dist))
  {
    hide At, DecodeSym, Fits, Canonical, Lsb, ByteBits, Shl, Symbols, Distance, CodedBits, LengthEntry, DistanceCode,
         Repeated;
    AtPlus(bits, pos, CodedBits(w.ll, k), CodedBits(w.dl, DistanceCode(dist)));
    CodedAt(c.ll, bits, pos, k);
    var n := |w.ll[k.sym]|;
    LengthStep(bits, last, c, pos, out, k.sym, n, k.extra, len - k.value);
    DistanceWritten(bits, last, c, w, len, dist, pos + n + k.extra, out);
  }

  lemma TokenWritten(bits: seq<bit>, last: bool, c: Codes, w: Words, t: Token, pos: nat, out: seq<byte>)
    requires Coding(c, w) && HasCodes(w, t) && Reaches(out, t) && pos <= |bits| && At(bits, pos, TokenBits(w, t))
    ensures pos + |TokenBits(w, t)| <= |bits|
    ensures Symbols(bits, last, c, pos, out)
            == Symbols(bits, last, c, pos + |TokenBits(w, t)|, Expanded(out, t))
  {
    hide At, DecodeSym, Fits, Canonical, Lsb, ByteBits, Shl, Symbols, CodedBits, LengthEntry, DistanceCode, LengthCode,
         Repeated, HasDistance;
    match t
    case Literal(b) =>
      HasLength(c.ll, b);
      WordAt(c.ll, bits, pos, b);
      LiteralStep(bits, last, c, pos, out, b, |w.ll[b]|);
    case Copy(len, dist) =>
      LengthCoded(len);
      CopyWritten(bits, last, c, w, LengthCode(len), len, dist, pos, out);
    case LongCopy(dist) =>
      LengthEntries();
      ShlNone(1);
      assert Pow2(5) == 32 by { Pow2Values(); }
      CopyWritten(bits, last, c, w, LONGEST, 258, dist, pos, out);
  }

  lemma {:induction false} TokensWritten(bits: seq<bit>, last: bool, c: Codes, w: Words, ts: seq<Token>, pos: nat,
                                         out: seq<byte>)
    requires Coding(c, w) && TokensOK(w, ts, out) && pos <= |bits| && At(bits, pos, TokensBits(w, ts, out))
    ensures pos + |TokensBits(w, ts, out)| <= |bits|
    ensures Symbols(bits, last, c, pos, out)
            == Next(bits, last, pos + |TokensBits(w, ts, out)|, AllExpanded(w, ts, out))
    decreases |ts|
  {
    hide At, DecodeSym, Fits, Canonical, Symbols, Next, HasCodes, Reaches, TokenBits, Expanded;
    if ts == [] {
      HasLength(c.ll, 256);
      WordAt(c.ll, bits, pos, 256);
      LiteralStep(bits, last, c, pos, out, 256, |w.ll[256]|);
    } else {
      var out' := Expanded(out, ts[0]);
      AtPlus(bits, pos, TokenBits(w, ts[0]), TokensBits(w, ts[1..], out'));
      TokenWritten(bits, last, c, w, ts[0], pos, out);
      TokensWritten(bits, last, c, w, ts[1..], pos + |TokenBits(w, ts[0])|, out');
    }
  }

  // ---------- and back ----------

  /** What is decoded is written there. */
  lemma CodedThere(lens: seq<nat>, bits: seq<bit>, pos: nat, sym: nat, n: nat, e: nat, v: nat)
    requires Fits(lens) && DecodeSym(lens, bits, pos) == Symbol(sym, n)
    requires pos + n + e <= |bits| && Lsb(bits, pos + n, e) == v
    ensures Has(Canonical(lens), sym) && v < Pow2(e) && At(bits, pos, CodedBits(Canonical(lens), Coded(sym, e, v)))
  {
    hide At, DecodeSym, Fits, Canonical, Lsb, ByteBits, Shl;
    DecodedWord(lens, bits, pos);
    LsbBound(bits, pos + n, e);
    NumberAt(bits, pos + n, v, e);
    AtPlus(bits, pos, Canonical(lens)[sym], ByteBits(v, e));
  }

  lemma LengthOnce(i: nat, e: nat, base: nat, e': nat, base': nat)
    requires i < 29 && LengthEntry(i, e, base) && LengthEntry(i, e', base')
    ensures e == e' && base == base'
  {
  }

  lemma DistanceOnce(i: nat, e: nat, base: nat, e': nat, base': nat)
    requires i < 30 && DistanceEntry(i, e, base) && DistanceEntry(i, e', base')
    ensures e == e' && base == base'
  {
  }

  lemma GoodSymbol(bits: seq<bit>, last: bool, c: Codes, pos: nat, out: seq<byte>)
    requires pos <= |bits| && ValidCodes(c) && Plain(Symbols(bits, last, c, pos, out)).Done?
    ensures DecodeSym(c.ll, bits, pos).Symbol? && DecodeSym(c.ll, bits, pos).sym <= 285
  {
    hide DecodeSym, Next, LenExtra;
  }

  lemma GoodExtra(bits: seq<bit>, last: bool, c: Codes, base: nat, e: nat, pos: nat, out: seq<byte>)
    requires pos <= |bits| && ValidCodes(c) && Plain(LenExtra(bits, last, c, base, e, pos, out)).Done?
    ensures pos + e <= |bits|
    ensures LenExtra(bits, last, c, base, e, pos, out)
            == Distance(bits, last, c, base + Lsb(bits, pos, e), pos + e, out)
  {
    hide Distance, Lsb;
  }

  lemma GoodDistance(bits: seq<bit>, last: bool, c: Codes, len: nat, pos: nat, out: seq<byte>)
    requires pos <= |bits| && ValidCodes(c) && Plain(Distance(bits, last, c, len, pos, out)).Done?
    ensures DecodeSym(c.dl, bits, pos).Symbol? && DecodeSym(c.dl, bits, pos).sym <= 29
  {
    hide DecodeSym, DistExtra;
  }

  lemma GoodCopy(bits: seq<bit>, last: bool, c: Codes, len: nat, base: nat, e: nat, pos: nat, out: seq<byte>)
    requires pos <= |bits| && ValidCodes(c) && base >= 1
             && Plain(DistExtra(bits, last, c, len, base, e, pos, out)).Done?
    ensures pos + e <= |bits| && base + Lsb(bits, pos, e) <= |out|
  {
    hide Symbols, LzCopy, Lsb;
  }

  lemma DistanceParsed(bits: seq<bit>, last: bool, c: Codes, w: Words, len: nat, pos: nat, out: seq<byte>)
    returns (dist: nat)
    requires Coding(c, w) && pos <= |bits| && Plain(Distance(bits, last, c, len, pos, out)).Done?
    ensures HasDistance(w, dist) && dist <= |out|
    ensures At(bits, pos, CodedBits(w.dl, DistanceCode(dist)))
  {
    hide At, DecodeSym, Fits, Canonical, Lsb, ByteBits, Shl, Distance, DistExtra, DistanceEntry, DistanceCode, Plain,
         CodedBits;
    GoodDistance(bits, last, c, len, pos, out);
    var d := DecodeSym(c.dl, bits, pos);
    var e, base := DistanceDecoded(d.sym, 0);
    DistanceStep(bits, last, c, len, pos, out, d.sym, d.len, e, base);
    GoodCopy(bits, last, c, len, base, e, pos + d.len, out);
    var v := Lsb(bits, pos + d.len, e);
    CodedThere(c.dl, bits, pos, d.sym, d.len, e, v);
    var e', base' := DistanceDecoded(d.sym, v);
    DistanceOnce(d.sym, e, base, e', base');
    dist := base + v;
  }

  lemma CopyParsed(bits: seq<bit>, last: bool, c: Codes, w: Words, pos: nat, out: seq<byte>) returns (t: Token)
    requires Coding(c, w) && pos <= |bits| && Plain(Symbols(bits, last, c, pos, out)).Done?
    requires var d := DecodeSym(c.ll, bits, pos); d.Symbol? && 257 <= d.sym <= 285
    ensures HasCodes(w, t) && Reaches(out, t) && At(bits, pos, TokenBits(w, t))
  {
    hide At, DecodeSym, Fits, Canonical, Lsb, ByteBits, Shl, Symbols, LenExtra, Distance, LengthEntry, LengthCode,
         DistanceCode,
         Plain, HasDistance, CodedBits;
    var d := DecodeSym(c.ll, bits, pos);
    var i := d.sym - 257;
    var e, base := LengthDecoded(i, 0);
    LengthStep(bits, last, c, pos, out, d.sym, d.len, e, base);
    GoodExtra(bits, last, c, base, e, pos + d.len, out);
    var v := Lsb(bits, pos + d.len, e);
    CodedThere(c.ll, bits, pos, d.sym, d.len, e, v);
    var e', base' := LengthDecoded(i, v);
    LengthOnce(i, e, base, e', base');
    var k := Coded(d.sym, e, v);
    var dist := DistanceParsed(bits, last, c, w, base + v, pos + d.len + e, out);
    HasDistanceMeans(w, dist);
    CodedSize(w.ll, k);
    HasLength(c.ll, d.sym);
    AtPlus(bits, pos, CodedBits(w.ll, k), CodedBits(w.dl, DistanceCode(dist)));
    t := if i == 27 && v == 31 then LongCopy(dist) else Copy(base + v, dist);
  }

  lemma HasDistanceMeans(w: Words, dist: nat)
    requires HasDistance(w, dist)
    ensures 1 <= dist <= 32768 && DistanceCode(dist).sym < |w.dl|
  {
  }

  lemma CodedSize(words: seq<seq<bit>>, k: Coded)
    requires k.sym < |words|
    ensures |CodedBits(words, k)| == |words[k.sym]| + k.extra
  {
  }

  lemma TokenParsed(bits: seq<bit>, last: bool, c: Codes, w: Words, pos: nat, out: seq<byte>) returns (t: Token)
    requires Coding(c, w) && pos <= |bits| && Plain(Symbols(bits, last, c, pos, out)).Done?
    requires var d := DecodeSym(c.ll, bits, pos); d.Symbol? ==> d.sym != 256
    ensures HasCodes(w, t) && Reaches(out, t) && At(bits, pos, TokenBits(w, t))
  {
    hide At, DecodeSym, Fits, Canonical, Symbols, Plain;
    GoodSymbol(bits, last, c, pos, out);
    var d := DecodeSym(c.ll, bits, pos);
    if d.sym < 256 {
      DecodedWord(c.ll, bits, pos);
      t := Literal(d.sym);
    } else {
      t := CopyParsed(bits, last, c, w, pos, out);
    }
  }

  lemma {:induction false} TokensParsed(bits: seq<bit>, last: bool, c: Codes, w: Words, pos: nat, out: seq<byte>)
    returns (ts: seq<Token>)
    requires Coding(c, w) && pos <= |bits| && Plain(Symbols(bits, last, c, pos, out)).Done?
    ensures TokensOK(w, ts, out) && At(bits, pos, TokensBits(w, ts, out))
    decreases |bits| - pos
  {
    hide At, DecodeSym, Fits, Canonical, Symbols, Next, Plain, HasCodes, Reaches, TokenBits, Expanded;
    var d := DecodeSym(c.ll, bits, pos);
    if d.Symbol? && d.sym == 256 {
      DecodedWord(c.ll, bits, pos);
      ts := [];
    } else {
      var t := TokenParsed(bits, last, c, w, pos, out);
      var s, out' := TokenBits(w, t), Expanded(out, t);
      TokenWritten(bits, last, c, w, t, pos, out);
      TokenNotEmpty(w, t);
      var more := TokensParsed(bits, last, c, w, pos + |s|, out');
      AtPlus(bits, pos, s, TokensBits(w, more, out'));
      ts := [t] + more;
      assert ts[1..] == more;
    }
  }

  lemma TokenNotEmpty(w: Words, t: Token)
    requires HasCodes(w, t)
    ensures |TokenBits(w, t)| > 0
  {
  }
}
