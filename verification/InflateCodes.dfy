/** Decoding one compressed block: inflate_codes, which can stop wherever input or
    output space runs out and go on later. */
module InflateCodes {
  import opened Basics
  import opened Bits
  import opened Huffman
  import opened HuftTables
  import opened HuftBuild
  import opened Rfc1951
  import opened InflateTrees
  import opened InflateBits
  import opened InflateWindow

  /** inflate_codes_mode. */
  datatype CodesMode = START | LEN | LENEXT | DIST | DISTEXT | COPY | LIT | WASH | END | BADCODE

  /** A step keeps what inflate makes of the rest of the stream, or finds the error there
      is, no later than it shows and after the bytes that come before it. */
  predicate Keeps(before: Outcome, after: Outcome)
  {
    var b, a := Goes(before), Goes(after);
    a == b || (SameFailure(b, a) && a.out == b.out && a.end <= b.end)
  }

  /** Malformed, or refused. */
  predicate SameFailure(before: Outcome, after: Outcome)
  {
    (before.Bad? && after.Bad?) || (before.Refused? && after.Refused?)
  }

  /** An error with these bytes before it, which shows at pos or later. */
  predicate BadHere(r: Outcome, out: seq<byte>, pos: nat)
  {
    r.Bad? && r.out == out && pos <= r.end
  }

  // ---------- bits of exop ----------

  predicate Bit16(e: nat) { e / 16 % 2 == 1 }
  predicate Bit32(e: nat) { e / 32 % 2 == 1 }
  predicate Bit64(e: nat) { e / 64 % 2 == 1 }

  /** The entry of a symbol that is simple: a literal or the end of the block. */
  lemma SimpleClass(ll: seq<nat>, sym: nat)
    requires Lengths(ll) && 0 < |ll| <= 288 && sym < |ll| && sym <= 256
    ensures ValidAlphabet(LitAlphabet(ll))
    ensures ExopOf(LitAlphabet(ll), sym) == (if sym < 256 then 0 else 96) && BaseOf(LitAlphabet(ll), sym) == sym
  {
    LitAlphabetValid(ll);
  }

  /** The entry of a length, or of a symbol that stands for none. */
  lemma LengthClass(ll: seq<nat>, sym: nat)
    requires Lengths(ll) && 0 < |ll| <= 288 && 256 < sym < |ll|
    ensures ValidAlphabet(LitAlphabet(ll)) && sym - 257 < |LEN_EXTRA|
    ensures ExopOf(LitAlphabet(ll), sym) == 80 + LEN_EXTRA[sym - 257]
            && BaseOf(LitAlphabet(ll), sym) == LEN_BASE[sym - 257]
  {
    hide MaxLen;
    LitAlphabetValid(ll);
  }

  lemma NoLength(i: nat)
    requires 29 <= i < 31
    ensures LEN_EXTRA[i] == 112
  {
  }

  lemma LenRange(i: nat)
    requires i < 29
    ensures LEN_EXTRA[i] <= 5 && 3 <= LEN_BASE[i] && LEN_BASE[i] + Pow2(LEN_EXTRA[i]) <= 259
  {
    Pow2Values();
  }

  lemma DistClass(dl: seq<nat>, sym: nat)
    requires Lengths(dl) && 0 < |dl| <= 30 && sym < |dl|
    ensures ValidAlphabet(DistAlphabet(dl))
    ensures var e, b := ExopOf(DistAlphabet(dl), sym), BaseOf(DistAlphabet(dl), sym);
            && b == DIST_BASE[sym] && e == 80 + DIST_EXTRA[sym]
            && DIST_EXTRA[sym] <= 13 && 1 <= b && b + Pow2(DIST_EXTRA[sym]) <= WSIZE + 1
  {
    DistAlphabetValid(dl);
    DistRange(sym);
  }

  lemma DistRange(i: nat)
    requires i < 30
    ensures DIST_EXTRA[i] <= 13 && 1 <= DIST_BASE[i] && DIST_BASE[i] + Pow2(DIST_EXTRA[i]) <= WSIZE + 1
  {
    Pow2Values();
    if i < 15 { assert DIST_EXTRA[i] <= 6; } else { DistRangeHigh(i); }
  }

  lemma DistRangeHigh(i: nat)
    requires 15 <= i < 30
    ensures DIST_EXTRA[i] <= 13 && 1 <= DIST_BASE[i] && DIST_BASE[i] + Pow2(DIST_EXTRA[i]) <= WSIZE + 1
  {
    Pow2Values();
    assert Pow2(10) == 1024 && Pow2(11) == 2048 && Pow2(12) == 4096;
  }

  // ---------- the format, one element at a time ----------

  lemma SymbolsStep(bits: seq<bit>, last: bool, c: Codes, pos: nat, out: seq<byte>)
    requires pos <= |bits| && ValidCodes(c)
    ensures var d := DecodeSym(c.ll, bits, pos);
            var r := Symbols(bits, last, c, pos, out);
            && (d == NoCode ==> r == Bad(out, pos + MaxLen(c.ll)))
            && (d.Symbol? && d.sym < 256 ==> r == Symbols(bits, last, c, pos + d.len, out + [d.sym]))
            && (d.Symbol? && d.sym == 256 ==> r == Next(bits, last, pos + d.len, out))
            && (d.Symbol? && d.sym > 285 ==> BadHere(r, out, pos + d.len))
            && (d.Symbol? && 256 < d.sym <= 285 ==>
                  r == LenExtra(bits, last, c, LEN_BASE[d.sym - 257], LEN_EXTRA[d.sym - 257], pos + d.len, out))
            && (Stops(Goes(r)) ==> d == NoCode || (d.Symbol? && pos + d.len <= Goes(r).end))
  {
    hide DecodeSym, MaxLen, Next, LenExtra, Lsb;
  }

  lemma DistanceStep(bits: seq<bit>, last: bool, c: Codes, len: nat, pos: nat, out: seq<byte>)
    requires pos <= |bits| && ValidCodes(c)
    ensures var d := DecodeSym(c.dl, bits, pos);
            var r := Distance(bits, last, c, len, pos, out);
            && (d == NoCode ==> r == Bad(out, pos + MaxLen(c.dl)))
            && (d.Symbol? && d.sym < 30 ==>
                  r == DistExtra(bits, last, c, len, DIST_BASE[d.sym], DIST_EXTRA[d.sym], pos + d.len, out))
            && (Stops(Goes(r)) ==> d == NoCode || (d.Symbol? && pos + d.len <= Goes(r).end))
  {
    hide DecodeSym, MaxLen, DistExtra, Lsb;
  }

  lemma ExtraStep(bits: seq<bit>, last: bool, c: Codes, len: nat, base: nat, extra: nat, pos: nat, out: seq<byte>)
    requires pos <= |bits| && ValidCodes(c)
    ensures pos + extra <= |bits| ==>
              LenExtra(bits, last, c, base, extra, pos, out)
              == Distance(bits, last, c, base + Lsb(bits, pos, extra), pos + extra, out)
    ensures pos + extra <= |bits| && base >= 1 ==>
              DistExtra(bits, last, c, len, base, extra, pos, out)
              == Copied(bits, last, c, len, base + Lsb(bits, pos, extra), pos + extra, out)
  {
  }

  /** Copying one byte more. */
  lemma CopiedStep(bits: seq<bit>, last: bool, c: Codes, len: nat, dist: nat, pos: nat, out: seq<byte>)
    requires pos <= |bits| && ValidCodes(c) && dist >= 1
    ensures len == 0 ==>
              Goes(Copied(bits, last, c, len, dist, pos, out)) == Goes(Symbols(bits, last, c, pos, out))
    ensures len > 0 ==>
              Goes(Copied(bits, last, c, len, dist, pos, out))
              == Goes(Copied(bits, last, c, len - 1, dist, pos, out + [Back(out, dist)]))
  {
    CopiedAll(bits, last, c, len, dist, pos, out);
    if len > 0 { CopiedAll(bits, last, c, len - 1, dist, pos, out + [Back(out, dist)]); }
  }

  lemma CopiedAll(bits: seq<bit>, last: bool, c: Codes, len: nat, dist: nat, pos: nat, out: seq<byte>)
    requires pos <= |bits| && ValidCodes(c) && dist >= 1
    ensures Goes(Copied(bits, last, c, len, dist, pos, out))
            == Goes(Symbols(bits, last, c, pos, LzCopy(out, dist, len)))
  {
    hide Symbols, LzCopy;
  }

  // ---------- a code is longer than the tables it has led through ----------

  /** Zero bits after the end of the input do not change what was decided before. */
  lemma {:induction false} MsbExtend(bits: seq<bit>, more: seq<bit>, pos: nat, n: nat)
    requires pos + n <= |bits|
    ensures Msb(bits + more, pos, n) == Msb(bits, pos, n)
  {
    if n > 0 { MsbExtend(bits, more, pos, n - 1); }
  }

  lemma {:induction false} SubtableLonger(a: Alphabet, l: nat, tabs: seq<Tab>, root: nat, pool: seq<Huft>,
                                          i: nat, bits: seq<bit>, start: nat)
    requires TreeOK(a, l, tabs, root, pool) && i < |tabs| && InTable(tabs[i], bits, start)
    requires start + MAX_BITS <= |bits| && DecodeSym(a.lens, bits, start).Symbol?
    ensures DecodeSym(a.lens, bits, start).len > tabs[i].w
    decreases MAX_BITS - tabs[i].w
  {
    hide MaxLen, CountBelow, Shl, Msb, Lsb, DecodeSym, LeafCell, LinkCell;
    assert TabRange(MaxLen(a.lens), l, tabs[i], |pool|);
    var next := Lookup(a, l, tabs, root, pool, i, bits, start);
    var t := tabs[i];
    var en := pool[t.addr + Lsb(bits, start + t.w, t.z)];
    if !FoundSymbol(a, t, en, bits, start) && !FoundNothing(a, l, t, en, bits, start) {
      assert TabRange(MaxLen(a.lens), l, tabs[next], |pool|);
      SubtableLonger(a, l, tabs, root, pool, next, bits, start);
    }
  }

  /** The symbol that starts at start has a code longer than the w bits consumed. */
  lemma CodeGoesOn(a: Alphabet, l: nat, tabs: seq<Tab>, root: nat, pool: seq<Huft>,
                   i: nat, bits: seq<bit>, start: nat)
    requires TreeOK(a, l, tabs, root, pool) && i < |tabs| && InTable(tabs[i], bits, start)
    requires DecodeSym(a.lens, bits, start).Symbol?
    ensures DecodeSym(a.lens, bits, start).len > tabs[i].w
  {
    hide MaxLen, CountBelow, Shl, Msb, TreeOK;
    var more: seq<bit> := seq(MAX_BITS, j => 0);
    var long := bits + more;
    var sym: nat :| sym < |a.lens| && StartsWith(a.lens, bits, start, sym)
            && DecodeSym(a.lens, bits, start) == Symbol(sym, a.lens[sym]);
    MsbExtend(bits, more, start, a.lens[sym]);
    DecodeSymIs(a.lens, long, start, sym);
    MsbExtend(bits, more, start, tabs[i].w);
    SubtableLonger(a, l, tabs, root, pool, i, long, start);
  }

  /** In table number i of the literal/length tree the code goes on past pos. */
  lemma LenGoesOn(bits: seq<bit>, last: bool, c: Codes, l: nat, ts: seq<Tab>, root: nat, pool: seq<Huft>,
                  i: nat, pos: nat, out: seq<byte>)
    requires ValidCodes(c) && Tree(LitAlphabet(c.ll), 9, l, ts, root, pool)
    requires i < |ts| && ts[i].w <= pos <= |bits| && InTable(ts[i], bits, pos - ts[i].w)
    ensures ts[i].z <= 9
    ensures var r := Symbols(bits, last, c, pos - ts[i].w, out); Stops(Goes(r)) ==> pos < Goes(r).end
  {
    hide MaxLen, CountBelow, Shl, Msb, Lsb, DecodeSym, TreeOK, Symbols, Sane, From, InTable;
    TableWidth(LitAlphabet(c.ll), 9, l, ts, root, pool, i);
    SymbolsStep(bits, last, c, pos - ts[i].w, out);
    if DecodeSym(c.ll, bits, pos - ts[i].w).Symbol? {
      CodeGoesOn(LitAlphabet(c.ll), l, ts, root, pool, i, bits, pos - ts[i].w);
    }
    TableDepth(LitAlphabet(c.ll), l, ts, root, pool, i);
  }

  lemma TableDepth(a: Alphabet, l: nat, ts: seq<Tab>, root: nat, pool: seq<Huft>, i: nat)
    requires TreeOK(a, l, ts, root, pool) && i < |ts|
    ensures ts[i].w < ts[i].w + ts[i].z <= MaxLen(a.lens)
  {
    assert TabRange(MaxLen(a.lens), l, ts[i], |pool|);
  }

  /** The same for distances. */
  lemma DistGoesOn(bits: seq<bit>, last: bool, c: Codes, len: nat, l: nat, ts: seq<Tab>, root: nat, pool: seq<Huft>,
                   i: nat, pos: nat, out: seq<byte>)
    requires ValidCodes(c) && Tree(DistAlphabet(c.dl), 6, l, ts, root, pool)
    requires i < |ts| && ts[i].w <= pos <= |bits| && InTable(ts[i], bits, pos - ts[i].w)
    ensures ts[i].z <= 6
    ensures var r := Distance(bits, last, c, len, pos - ts[i].w, out); Stops(Goes(r)) ==> pos < Goes(r).end
  {
    hide MaxLen, CountBelow, Shl, Msb, Lsb, DecodeSym, TreeOK, Distance, InTable;
    TableWidth(DistAlphabet(c.dl), 6, l, ts, root, pool, i);
    DistanceStep(bits, last, c, len, pos - ts[i].w, out);
    if DecodeSym(c.dl, bits, pos - ts[i].w).Symbol? {
      CodeGoesOn(DistAlphabet(c.dl), l, ts, root, pool, i, bits, pos - ts[i].w);
    }
    TableDepth(DistAlphabet(c.dl), l, ts, root, pool, i);
  }

  // ---------- what one lookup means ----------

  /** A literal/length entry: literal, length base, next table, end of block or error. */
  ghost predicate LitEntry(bits: seq<bit>, last: bool, c: Codes, ts: seq<Tab>, t: Tab, at: nat, en: Huft,
                           pos: nat, out: seq<byte>, next: nat)
    requires ValidCodes(c) && t.w <= pos && pos + en.bits <= |bits|
  {
    var r := Symbols(bits, last, c, pos - t.w, out);
    var e, pos' := en.exop, pos + en.bits;
    if e == 0 then en.base < 256 && r == Symbols(bits, last, c, pos', out + [en.base])
    else if Bit16(e) then
      && |c.ll| > 257 && e % 16 <= 5 && 3 <= en.base && en.base + Pow2(e % 16) <= 259
      && r == LenExtra(bits, last, c, en.base, e % 16, pos', out)
    else if !Bit64(e) then NextTable(bits, ts, t, at, en, pos, next)
    else if Bit32(e) then r == Next(bits, last, pos', out)
    else BadHere(r, out, pos')
  }

  /** The entry leads on to table number next, one level down. */
  ghost predicate NextTable(bits: seq<bit>, ts: seq<Tab>, t: Tab, at: nat, en: Huft, pos: nat, next: nat)
    requires t.w <= pos
  {
    && next < |ts| && ts[next].addr == at + en.base && ts[next].z == en.exop
    && ts[next].w == t.w + en.bits && InTable(ts[next], bits, pos - t.w)
  }

  lemma LitLookup(bits: seq<bit>, last: bool, c: Codes, l: nat, ts: seq<Tab>, root: nat, pool: seq<Huft>,
                  i: nat, pos: nat, out: seq<byte>) returns (next: nat)
    requires ValidCodes(c) && 0 < |c.ll| && Tree(LitAlphabet(c.ll), 9, l, ts, root, pool)
    requires i < |ts| && ts[i].w <= pos && InTable(ts[i], bits, pos - ts[i].w) && pos + ts[i].z <= |bits|
    ensures ts[i].addr + Lsb(bits, pos, ts[i].z) < |pool|
    ensures var at := ts[i].addr + Lsb(bits, pos, ts[i].z);
            var en := pool[at];
            1 <= en.bits <= ts[i].z && LitEntry(bits, last, c, ts, ts[i], at, en, pos, out, next)
  {
    hide MaxLen, CountBelow, Shl, Msb, Lsb, DecodeSym, TreeOK, Symbols, Sane, From, LenExtra, Next, ValidAlphabet,
         LitAlphabet, ExopOf, BaseOf;
    var a := LitAlphabet(c.ll);
    var t, start := ts[i], pos - ts[i].w;
    LitAlphabetValid(c.ll);
    next := Lookup(a, l, ts, root, pool, i, bits, start);
    assert start + t.w == pos;
    var en := pool[t.addr + Lsb(bits, pos, t.z)];
    TableDepth(a, l, ts, root, pool, i);
    LitFound(bits, last, c, l, ts, t, t.addr + Lsb(bits, pos, t.z), en, pos, out, next);
  }

  lemma LitFound(bits: seq<bit>, last: bool, c: Codes, l: nat, ts: seq<Tab>, t: Tab, at: nat, en: Huft,
                 pos: nat, out: seq<byte>, next: nat)
    requires ValidCodes(c) && 0 < |c.ll| && t.w <= pos && pos + t.z <= |bits| && l <= 9
    requires ValidAlphabet(LitAlphabet(c.ll)) && t.w + t.z <= MaxLen(c.ll)
    requires Found(LitAlphabet(c.ll), l, ts, t, at, en, bits, pos - t.w, next)
    ensures 1 <= en.bits <= t.z && LitEntry(bits, last, c, ts, t, at, en, pos, out, next)
  {
    hide MaxLen, CountBelow, Shl, Msb, Lsb, DecodeSym, Symbols, Sane, From, LenExtra, Distance, DistExtra, Copied, Next,
         LitAlphabet, ExopOf, BaseOf, Kraft, InTable, HasSymbolBase;
    var a, start := LitAlphabet(c.ll), pos - t.w;
    LitAlphabetValid(c.ll);
    SymbolsStep(bits, last, c, start, out);
    if FoundSymbol(a, t, en, bits, start) {
      LitSymbol(bits, last, c, ts, t, at, en, pos, out, next);
    }
  }

  /** A symbol that was found is told by the operation of its entry. */
  lemma LitSymbol(bits: seq<bit>, last: bool, c: Codes, ts: seq<Tab>, t: Tab, at: nat, en: Huft,
                  pos: nat, out: seq<byte>, next: nat)
    requires ValidCodes(c) && 0 < |c.ll| && t.w <= pos && pos + t.z <= |bits|
    requires ValidAlphabet(LitAlphabet(c.ll)) && FoundSymbol(LitAlphabet(c.ll), t, en, bits, pos - t.w)
    ensures LitEntry(bits, last, c, ts, t, at, en, pos, out, next)
  {
    hide MaxLen, DecodeSym, ValidAlphabet, LitAlphabet, ExopOf, BaseOf, LitEntry;
    LitAlphabetValid(c.ll);
    var sym := DecodeSym(c.ll, bits, pos - t.w).sym;
    if sym <= 256 {
      SimpleClass(c.ll, sym);
      EntrySimple(bits, last, c, ts, t, at, en, pos, out, next, sym);
    } else {
      LengthClass(c.ll, sym);
      if sym <= 285 {
        EntryLength(bits, last, c, ts, t, at, en, pos, out, next, sym, LEN_BASE[sym - 257], LEN_EXTRA[sym - 257]);
      } else {
        NoLength(sym - 257);
        EntryNone(bits, last, c, ts, t, at, en, pos, out, next, sym);
      }
    }
  }

  lemma EntrySimple(bits: seq<bit>, last: bool, c: Codes, ts: seq<Tab>, t: Tab, at: nat, en: Huft,
                    pos: nat, out: seq<byte>, next: nat, sym: nat)
    requires ValidCodes(c) && t.w <= pos && pos + en.bits <= |bits| && sym <= 256
    requires DecodeSym(c.ll, bits, pos - t.w) == Symbol(sym, t.w + en.bits)
    requires en.exop == (if sym < 256 then 0 else 96) && en.base == sym
    ensures LitEntry(bits, last, c, ts, t, at, en, pos, out, next)
  {
    hide DecodeSym, Symbols, LenExtra, Next, From, Bit16, Bit32, Bit64, NextTable, BadHere;
    SymbolsStep(bits, last, c, pos - t.w, out);
    OtherBits();
  }

  lemma EntryLength(bits: seq<bit>, last: bool, c: Codes, ts: seq<Tab>, t: Tab, at: nat, en: Huft,
                    pos: nat, out: seq<byte>, next: nat, sym: nat, base: nat, extra: nat)
    requires ValidCodes(c) && t.w <= pos && pos + en.bits <= |bits| && 256 < sym <= 285 && sym < |c.ll|
    requires DecodeSym(c.ll, bits, pos - t.w) == Symbol(sym, t.w + en.bits)
    requires base == LEN_BASE[sym - 257] && extra == LEN_EXTRA[sym - 257] && en.exop == 80 + extra && en.base == base
    ensures LitEntry(bits, last, c, ts, t, at, en, pos, out, next)
  {
    hide DecodeSym, Symbols, LenExtra, Next, From, LitEntry, Pow2, ValidCodes;
    SymbolsLength(bits, last, c, pos - t.w, out, sym, t.w + en.bits, base, extra);
    LengthRange(sym - 257, base, extra);
    assert pos - t.w + (t.w + en.bits) == pos + en.bits;
    EntryBase(bits, last, c, ts, t, at, en, pos, out, next, base, extra);
  }

  lemma LengthRange(i: nat, base: nat, extra: nat)
    requires i < 29 && base == LEN_BASE[i] && extra == LEN_EXTRA[i]
    ensures extra <= 5 && 3 <= base && base + Pow2(extra) <= 259
  {
    hide Pow2;
    LenRange(i);
  }

  lemma SymbolsLength(bits: seq<bit>, last: bool, c: Codes, pos: nat, out: seq<byte>, sym: nat, len: nat, base: nat,
                      extra: nat)
    requires pos <= |bits| && ValidCodes(c) && 256 < sym <= 285 && DecodeSym(c.ll, bits, pos) == Symbol(sym, len)
    requires base == LEN_BASE[sym - 257] && extra == LEN_EXTRA[sym - 257]
    ensures pos + len <= |bits| && Symbols(bits, last, c, pos, out)
            == LenExtra(bits, last, c, base, extra, pos + len, out)
  {
    hide DecodeSym, MaxLen, Next, LenExtra, Lsb, From;
  }

  lemma EntryBase(bits: seq<bit>, last: bool, c: Codes, ts: seq<Tab>, t: Tab, at: nat, en: Huft,
                  pos: nat, out: seq<byte>, next: nat, base: nat, extra: nat)
    requires ValidCodes(c) && t.w <= pos && pos + en.bits <= |bits| && |c.ll| > 257
    requires extra <= 5 && 3 <= base && base + Pow2(extra) <= 259 && en.exop == 80 + extra && en.base == base
    requires Symbols(bits, last, c, pos - t.w, out) == LenExtra(bits, last, c, base, extra, pos + en.bits, out)
    ensures LitEntry(bits, last, c, ts, t, at, en, pos, out, next)
  {
    hide DecodeSym, Symbols, LenExtra, Next, From, Bit16, Bit32, Bit64, NextTable, BadHere, Pow2;
    ExtraBits(extra);
  }

  lemma EntryNone(bits: seq<bit>, last: bool, c: Codes, ts: seq<Tab>, t: Tab, at: nat, en: Huft,
                  pos: nat, out: seq<byte>, next: nat, sym: nat)
    requires ValidCodes(c) && t.w <= pos && pos + en.bits <= |bits| && sym > 285
    requires DecodeSym(c.ll, bits, pos - t.w) == Symbol(sym, t.w + en.bits) && en.exop == 192
    ensures LitEntry(bits, last, c, ts, t, at, en, pos, out, next)
  {
    hide DecodeSym, Symbols, LenExtra, Next, From, Bit16, Bit32, Bit64, NextTable;
    SymbolsStep(bits, last, c, pos - t.w, out);
    OtherBits();
  }

  /** The operations for a literal, the end of the block and an invalid code. */
  lemma OtherBits()
    ensures !Bit16(0) && !Bit16(96) && Bit64(96) && Bit32(96) && !Bit16(192) && Bit64(192) && !Bit32(192)
  {
  }

  lemma ExtraBits(x: nat)
    requires x <= 13
    ensures var e := 80 + x; Bit16(e) && e % 16 == x
  {
  }

  /** A distance entry: distance base, next table or error. */
  ghost predicate DistEntry(bits: seq<bit>, last: bool, c: Codes, len: nat, ts: seq<Tab>, t: Tab, at: nat, en: Huft,
                            pos: nat, out: seq<byte>, next: nat)
    requires ValidCodes(c) && t.w <= pos && pos + en.bits <= |bits|
  {
    var r := Distance(bits, last, c, len, pos - t.w, out);
    var e, pos' := en.exop, pos + en.bits;
    if Bit16(e) then
      && e % 16 <= 13 && 1 <= en.base && en.base + Pow2(e % 16) <= WSIZE + 1
      && r == DistExtra(bits, last, c, len, en.base, e % 16, pos', out)
    else if !Bit64(e) then NextTable(bits, ts, t, at, en, pos, next)
    else BadHere(r, out, pos')
  }

  lemma DistLookup(bits: seq<bit>, last: bool, c: Codes, len: nat, l: nat, ts: seq<Tab>, root: nat, pool: seq<Huft>,
                   i: nat, pos: nat, out: seq<byte>) returns (next: nat)
    requires ValidCodes(c) && 0 < |c.dl| <= 30 && Tree(DistAlphabet(c.dl), 6, l, ts, root, pool)
    requires i < |ts| && ts[i].w <= pos && InTable(ts[i], bits, pos - ts[i].w) && pos + ts[i].z <= |bits|
    ensures ts[i].addr + Lsb(bits, pos, ts[i].z) < |pool|
    ensures var at := ts[i].addr + Lsb(bits, pos, ts[i].z);
            var en := pool[at];
            1 <= en.bits <= ts[i].z && DistEntry(bits, last, c, len, ts, ts[i], at, en, pos, out, next)
  {
    hide MaxLen, Msb, Lsb, DecodeSym, TreeOK, ValidAlphabet, DistAlphabet, Found, InTable, DistEntry;
    var a := DistAlphabet(c.dl);
    var t, start := ts[i], pos - ts[i].w;
    DistAlphabetValid(c.dl);
    next := Lookup(a, l, ts, root, pool, i, bits, start);
    assert start + t.w == pos;
    var at := t.addr + Lsb(bits, pos, t.z);
    TableDepth(a, l, ts, root, pool, i);
    DistFound(bits, last, c, len, l, ts, t, at, pool[at], pos, out, next);
  }

  lemma DistFound(bits: seq<bit>, last: bool, c: Codes, len: nat, l: nat, ts: seq<Tab>, t: Tab, at: nat, en: Huft,
                  pos: nat, out: seq<byte>, next: nat)
    requires ValidCodes(c) && 0 < |c.dl| <= 30 && t.w <= pos && pos + t.z <= |bits| && l <= 6
    requires ValidAlphabet(DistAlphabet(c.dl)) && t.w + t.z <= MaxLen(c.dl)
    requires Found(DistAlphabet(c.dl), l, ts, t, at, en, bits, pos - t.w, next)
    ensures 1 <= en.bits <= t.z && DistEntry(bits, last, c, len, ts, t, at, en, pos, out, next)
  {
    hide MaxLen, DecodeSym, Distance, DistExtra, DistAlphabet, ExopOf, BaseOf, Kraft, InTable, HasSymbolBase, From,
         ValidAlphabet;
    var a, start := DistAlphabet(c.dl), pos - t.w;
    DistAlphabetValid(c.dl);
    if FoundSymbol(a, t, en, bits, start) {
      var sym := DecodeSym(c.dl, bits, start).sym;
      DistSymbol(bits, last, c, len, ts, t, at, en, pos, out, next, sym, DIST_BASE[sym], DIST_EXTRA[sym]);
    } else {
      DistanceStep(bits, last, c, len, start, out);
    }
  }

  lemma DistSymbol(bits: seq<bit>, last: bool, c: Codes, len: nat, ts: seq<Tab>, t: Tab, at: nat, en: Huft,
                   pos: nat, out: seq<byte>, next: nat, sym: nat, base: nat, extra: nat)
    requires ValidCodes(c) && 0 < |c.dl| <= 30 && t.w <= pos && pos + t.z <= |bits| && sym < |c.dl|
    requires ValidAlphabet(DistAlphabet(c.dl)) && FoundSymbol(DistAlphabet(c.dl), t, en, bits, pos - t.w)
    requires DecodeSym(c.dl, bits, pos - t.w).sym == sym && base == DIST_BASE[sym] && extra == DIST_EXTRA[sym]
    ensures DistEntry(bits, last, c, len, ts, t, at, en, pos, out, next)
  {
    hide MaxLen, DecodeSym, Distance, DistExtra, DistAlphabet, ExopOf, BaseOf, From, Bit16, Bit64, Pow2, NextTable,
         BadHere, ValidAlphabet;
    DistAlphabetValid(c.dl);
    DistClass(c.dl, sym);
    ExtraBits(extra);
    DistanceSymbol(bits, last, c, len, pos - t.w, out, sym, t.w + en.bits, base, extra);
    assert pos - t.w + (t.w + en.bits) == pos + en.bits;
  }

  lemma DistanceSymbol(bits: seq<bit>, last: bool, c: Codes, len: nat, pos: nat, out: seq<byte>, sym: nat, n: nat,
                       base: nat, extra: nat)
    requires pos <= |bits| && ValidCodes(c) && sym < 30 && DecodeSym(c.dl, bits, pos) == Symbol(sym, n)
    requires base == DIST_BASE[sym] && extra == DIST_EXTRA[sym]
    ensures base >= 1 && pos + n <= |bits|
    ensures Distance(bits, last, c, len, pos, out) == DistExtra(bits, last, c, len, base, extra, pos + n, out)
  {
    hide DecodeSym, MaxLen, DistExtra, Lsb, From;
  }

  /** A literal/length entry that ends a code, whose bits were dumped. */
  ghost predicate LitEnd(bits: seq<bit>, last: bool, c: Codes, en: Huft, start: nat, pos: nat, out: seq<byte>)
    requires ValidCodes(c) && start <= |bits| && pos <= |bits|
  {
    var r, e := Symbols(bits, last, c, start, out), en.exop;
    if e == 0 then en.base < 256 && r == Symbols(bits, last, c, pos, out + [en.base])
    else if Bit16(e) then
      && |c.ll| > 257 && e % 16 <= 5 && 3 <= en.base && en.base + Pow2(e % 16) <= 259
      && r == LenExtra(bits, last, c, en.base, e % 16, pos, out)
    else Bit64(e) && if Bit32(e) then r == Next(bits, last, pos, out) else BadHere(r, out, pos)
  }

  ghost predicate DistEnd(bits: seq<bit>, last: bool, c: Codes, len: nat, en: Huft, start: nat, pos: nat,
                          out: seq<byte>)
    requires ValidCodes(c) && start <= |bits| && pos <= |bits|
  {
    var r, e := Distance(bits, last, c, len, start, out), en.exop;
    if Bit16(e) then
      && e % 16 <= 13 && 1 <= en.base && en.base + Pow2(e % 16) <= WSIZE + 1
      && r == DistExtra(bits, last, c, len, en.base, e % 16, pos, out)
    else Bit64(e) && BadHere(r, out, pos)
  }

  /** No code is longer than 15 bits, so no walk is. */
  lemma TableBits(a: Alphabet, m: nat, l: nat, ts: seq<Tab>, root: nat, pool: seq<Huft>, i: nat)
    requires Tree(a, m, l, ts, root, pool) && i < |ts|
    ensures 1 <= ts[i].z <= m && ts[i].w + ts[i].z <= MAX_BITS
  {
    assert TabRange(MaxLen(a.lens), l, ts[i], |pool|);
  }

  /** The widths of all tables are bounded by the root's. */
  lemma TableWidth(a: Alphabet, m: nat, l: nat, ts: seq<Tab>, root: nat, pool: seq<Huft>, i: nat)
    requires Tree(a, m, l, ts, root, pool) && i < |ts|
    ensures 1 <= ts[i].z <= m && ts[0] == Tab(root, 0, 0, l)
  {
    assert TabRange(MaxLen(a.lens), l, ts[i], |pool|);
  }

  lemma RootTable(a: Alphabet, m: nat, l: nat, ts: seq<Tab>, root: nat, pool: seq<Huft>)
    requires Tree(a, m, l, ts, root, pool)
    ensures |ts| > 0 && ts[0] == Tab(root, 0, 0, l) && 1 <= l <= m
  {
  }

  lemma InRoot(ts: seq<Tab>, root: nat, l: nat, bits: seq<bit>, pos: nat)
    requires |ts| > 0 && ts[0] == Tab(root, 0, 0, l) && pos <= |bits|
    ensures InTable(ts[0], bits, pos)
  {
  }

  /** struct inflate_codes_state together with the parts of the blocks state and the
      stream that inflate_codes works on. Tables are values: the source keeps const
      pointers to them. */
  class CodesState {
    const br: BitReader
    const win: Window
    const lbits: nat
    const dbits: nat
    const ltab: seq<Huft>
    const lroot: nat
    const dtab: seq<Huft>
    const droot: nat
    ghost const last: bool
    ghost const cs: Codes
    ghost const lts: seq<Tab>
    ghost const dts: seq<Tab>
    var mode: CodesMode
    var len: nat
    var tree: nat           // table address, if LEN or DIST
    var need: nat           // its index bits
    var lit: nat            // literal, if LIT
    var get: nat            // extra bits to get
    var dist: nat           // distance back
    ghost var cur: nat      // which of lts or dts the table is

    constructor (br: BitReader, win: Window, lbits: nat, dbits: nat, ltab: seq<Huft>, lroot: nat,
                 dtab: seq<Huft>, droot: nat,
                 ghost last: bool, ghost cs: Codes, ghost lts: seq<Tab>, ghost dts: seq<Tab>)
      requires br.Valid() && win.Valid() && br.bitk < 16
      requires GoodTables(cs, lbits, dbits, ltab, lroot, dtab, droot, lts, dts)
      ensures Valid() && mode == START && this.br == br && this.win == win
      ensures this.last == last && this.cs == cs
    {
      this.br, this.win := br, win;
      this.lbits, this.dbits, this.ltab, this.lroot, this.dtab, this.droot := lbits, dbits, ltab, lroot, dtab, droot;
      this.last, this.cs, this.lts, this.dts := last, cs, lts, dts;
      mode, len, tree, need, lit, get, dist, cur := START, 0, 0, 0, 0, 0, 0, 0;
    }

    // ---------- invariant ----------

    static ghost predicate GoodDist(cs: Codes, dbits: nat, dtab: seq<Huft>, droot: nat, dts: seq<Tab>)
    {
      ValidCodes(cs) && 0 < |cs.dl| <= 30 && Tree(DistAlphabet(cs.dl), 6, dbits, dts, droot, dtab)
    }

    /** The tables are right for the block's codes; the distance tables may be
        missing when there are no length symbols. */
    static ghost predicate GoodTables(cs: Codes, lbits: nat, dbits: nat, ltab: seq<Huft>, lroot: nat,
                                      dtab: seq<Huft>, droot: nat, lts: seq<Tab>, dts: seq<Tab>)
    {
      && ValidCodes(cs) && 0 < |cs.ll|
      && Tree(LitAlphabet(cs.ll), 9, lbits, lts, lroot, ltab)
      && (|cs.ll| <= 257 || GoodDist(cs, dbits, dtab, droot, dts))
    }

    ghost predicate Tables()
    {
      GoodTables(cs, lbits, dbits, ltab, lroot, dtab, droot, lts, dts)
    }

    ghost predicate DistTables()
    {
      GoodDist(cs, dbits, dtab, droot, dts)
    }

    /** The table in use is number cur, reached by the bits before the position. */
    ghost predicate Walking(ts: seq<Tab>)
      reads this, br
    {
      && cur < |ts| && ts[cur].w <= br.Pos()
      && tree == ts[cur].addr && need == ts[cur].z
      && InTable(ts[cur], br.bits, br.Pos() - ts[cur].w)
    }

    ghost predicate ModeOK()
      reads this, br
    {
      match mode
      case LEN => Walking(lts)
      case LENEXT => DistTables() && get <= 5 && 3 <= len && len + Pow2(get) <= 259
      case DIST => DistTables() && len <= 258 && Walking(dts)
      case DISTEXT => DistTables() && len <= 258 && get <= 13 && 1 <= dist && dist + Pow2(get) <= WSIZE + 1
      case COPY => len <= 258 && 1 <= dist <= WSIZE
      case LIT => lit < 256
      case END => br.bitk < 8
      case _ => true
    }

    ghost predicate Base()
      reads this, br, win, win.buf
    {
      br.Valid() && win.Valid() && Tables()
    }

    /** Between steps at most 15 bits are held (the Assert at WASH). */
    ghost predicate Valid()
      reads this, br, win, win.buf
    {
      Base() && br.bitk < 16 && br.Pos() <= |br.bits| && ModeOK()
    }

    /** What inflate makes of the rest of the stream, from the current state. */
    ghost function Meaning(): (m: Outcome)
      reads this, br, win, win.buf
      requires Valid()
      ensures !m.Unnoticed?
    {
      var bits, pos, out := br.bits, br.Pos(), win.made;
      var r :=
        match mode
        case START => Symbols(bits, last, cs, pos, out)
        case LEN => Symbols(bits, last, cs, pos - lts[cur].w, out)
        case LENEXT => LenExtra(bits, last, cs, len, get, pos, out)
        case DIST => Distance(bits, last, cs, len, pos - dts[cur].w, out)
        case DISTEXT => DistExtra(bits, last, cs, len, dist, get, pos, out)
        case COPY => Copied(bits, last, cs, len, dist, pos, out)
        case LIT => Symbols(bits, last, cs, pos, out + [lit])
        case WASH => Next(bits, last, pos, out)
        case END => Next(bits, last, pos, out)
        case BADCODE => Bad(out, pos);
      Goes(r)
    }

    /** Out of input: the stream does not end a whole byte before what was granted. */
    ghost predicate Starved()
      reads this, br, win, win.buf
      requires Valid()
    {
      && br.availIn == 0
      && (Stops(Meaning()) ==> Meaning().end + 8 > 8 * br.nextIn)
    }

    /** Whatever is left to decode only adds to the output. */
    lemma Extends()
      requires Valid()
      ensures win.made <= Meaning().out
    {
      hide Tree, InTable, Symbols, Sane, LenExtra, Distance, DistExtra, Copied, Next, Walking, DistTables, Tables;
    }

    /** Granting input and output space changes nothing else. */
    twostate lemma Granted()
      requires old(Valid()) && br.Valid() && win.Valid()
      requires unchanged(this) && br.Pos() == old(br.Pos()) && br.bitk == old(br.bitk) && win.made == old(win.made)
      ensures Valid() && Meaning() == old(Meaning())
    {
      hide Tree, InTable, Symbols, Sane, From, LenExtra, Distance, DistExtra, Copied, Next, DistTables, Tables;
    }

    // ---------- steps ----------

    /** Waiting for input in the middle of a code: its end is still ahead. */
    lemma StarvedLen()
      requires Valid() && mode == LEN && br.availIn == 0 && br.bitk < need
      ensures Starved()
    {
      hide MaxLen, CountBelow, Shl, Msb, Lsb, DecodeSym, Tree, Symbols, Sane, From, LenExtra, Distance, DistExtra,
           Copied, Next, DistAlphabet, LitAlphabet, Pow2, Slot, InTable;
      LenGoesOn(br.bits, last, cs, lbits, lts, lroot, ltab, cur, br.Pos(), win.made);
    }

    lemma StarvedDist()
      requires Valid() && mode == DIST && br.availIn == 0 && br.bitk < need
      ensures Starved()
    {
      hide MaxLen, CountBelow, Shl, Msb, Lsb, DecodeSym, Tree, Symbols, Sane, From, LenExtra, Distance, DistExtra,
           Copied, Next, DistAlphabet, LitAlphabet, Pow2, Slot, InTable;
      DistGoesOn(br.bits, last, cs, len, dbits, dts, droot, dtab, cur, br.Pos(), win.made);
    }

    /** START: set up for LEN. */
    method StepStart()
      requires Valid() && mode == START
      modifies this
      ensures Valid() && mode == LEN && Meaning() == old(Meaning())
    {
      hide MaxLen, Shl, Msb, Lsb, TreeOK, Symbols;
      RootTable(LitAlphabet(cs.ll), 9, lbits, lts, lroot, ltab);
      InRoot(lts, lroot, lbits, br.bits, br.Pos());
      need, tree, mode := lbits, lroot, LEN;
      cur := 0;
    }

    /** Looks up the next bits in the table at from, which has 2^e entries. */
    method LookLit(ghost i: nat, from: nat, e: nat) returns (at: nat, t: Huft, ghost next: nat)
      requires Base() && e <= br.bitk && br.Pos() <= |br.bits|
      requires i < |lts| && lts[i].addr == from && lts[i].z == e
      requires lts[i].w <= br.Pos() && InTable(lts[i], br.bits, br.Pos() - lts[i].w)
      modifies br
      ensures Base() && br.Pos() == old(br.Pos()) + t.bits <= |br.bits| && 1 <= t.bits <= e
      ensures br.nextIn == old(br.nextIn) && br.availIn == old(br.availIn) && br.bitk == old(br.bitk) - t.bits
      ensures LitEntry(br.bits, last, cs, lts, lts[i], at, t, old(br.Pos()), win.made, next)
    {
      hide MaxLen, Shl, Msb, Lsb, Tree, Symbols, Sane, From, LenExtra, Next, LitAlphabet, DistAlphabet, BitsOf, InTable,
           LitEntry, Window.Valid, BitReader.Valid, GoodDist, Stops;
      br.Bounds();
      next := LitLookup(br.bits, last, cs, lbits, lts, lroot, ltab, i, br.Pos(), win.made);
      at := from + br.Peek(e);
      t := ltab[at];
      br.DumpBits(t.bits);
    }

    method LookDist(ghost n: nat, ghost i: nat, from: nat, e: nat) returns (at: nat, t: Huft, ghost next: nat)
      requires Base() && DistTables() && e <= br.bitk && br.Pos() <= |br.bits|
      requires i < |dts| && dts[i].addr == from && dts[i].z == e
      requires dts[i].w <= br.Pos() && InTable(dts[i], br.bits, br.Pos() - dts[i].w)
      modifies br
      ensures Base() && br.Pos() == old(br.Pos()) + t.bits <= |br.bits| && 1 <= t.bits <= e
      ensures br.nextIn == old(br.nextIn) && br.availIn == old(br.availIn) && br.bitk == old(br.bitk) - t.bits
      ensures DistEntry(br.bits, last, cs, n, dts, dts[i], at, t, old(br.Pos()), win.made, next)
    {
      hide MaxLen, Shl, Msb, Lsb, Tree, Distance, DistExtra, LitAlphabet, DistAlphabet, BitsOf, InTable, DistEntry,
           Window.Valid, BitReader.Valid, Stops;
      br.Bounds();
      next := DistLookup(br.bits, last, cs, n, dbits, dts, droot, dtab, i, br.Pos(), win.made);
      at := from + br.Peek(e);
      t := dtab[at];
      br.DumpBits(t.bits);
    }

    /** LEN: look a literal/length code up, one table at a time. */
    method StepLen(r0: int) returns (leave: bool, r: int)
      requires Valid() && mode == LEN
      modifies this, br
      ensures Valid() && Keeps(old(Meaning()), Meaning())
      ensures br.nextIn + br.availIn == old(br.nextIn + br.availIn)
      ensures if mode == BADCODE then leave && r == Z_DATA_ERROR else r == r0 || r == Z_OK
      ensures br.Left() <= old(br.Left())
      ensures leave && mode != BADCODE ==> mode == LEN && Starved()
      ensures !leave ==> br.Left() < old(br.Left()) && mode in {LIT, LENEXT, LEN, WASH}
    {
      hide MaxLen, Shl, Msb, Lsb, Tree, Symbols, Sane, From, LenExtra, Next, LitAlphabet, DistAlphabet, BitsOf,
           LitEntry, InTable;
      TableWidth(LitAlphabet(cs.ll), 9, lbits, lts, lroot, ltab, cur);
      var j := need;
      var ok;
      ok, r := br.NeedBits(j, r0);
      if !ok {
        leave := true;
        StarvedLen();
        return;
      }
      ghost var pos := br.Pos();
      var at, t;
      ghost var next;
      at, t, next := LookLit(cur, tree, j);
      leave := TakeLit(at, t, pos, next);
      if leave { r := Z_DATA_ERROR; }
    }

    /** Act on a literal/length entry whose bits were dumped. */
    method TakeLit(at: nat, t: Huft, ghost pos: nat, ghost next: nat) returns (bad: bool)
      requires Base() && br.bitk < 16 && br.Pos() <= |br.bits|
      requires cur < |lts| && lts[cur].w <= pos && pos + t.bits == br.Pos()
      requires LitEntry(br.bits, last, cs, lts, lts[cur], at, t, pos, win.made, next)
      modifies this
      ensures Valid() && Keeps(Symbols(br.bits, last, cs, pos - old(lts[cur].w), win.made), Meaning())
      ensures if bad then mode == BADCODE else mode in {LIT, LENEXT, LEN, WASH}
    {
      hide MaxLen, Shl, Msb, Lsb, Tree, Symbols, Sane, From, LenExtra, Next, LitAlphabet, DistAlphabet, BitsOf,
           Window.Valid, Slot, Stops;
      bad := false;
      var e := t.exop;
      if e == 0 {
        lit := t.base;
        mode := LIT;
      } else if Bit16(e) {
        get := e % 16;
        len := t.base;
        mode := LENEXT;
      } else if !Bit64(e) {
        need := e;
        tree := at + t.base;
        cur := next;
        mode := LEN;
      } else if Bit32(e) {
        mode := WASH;
      } else {
        mode := BADCODE;
        bad := true;
      }
    }

    /** LENEXT: add the length's extra bits. */
    method StepLenExt(r0: int) returns (leave: bool, r: int)
      requires Valid() && mode == LENEXT
      modifies this, br
      ensures Valid() && Keeps(old(Meaning()), Meaning())
      ensures br.nextIn + br.availIn == old(br.nextIn + br.availIn)
      ensures r == r0 || r == Z_OK
      ensures br.Left() <= old(br.Left())
      ensures leave ==> mode == LENEXT && Starved()
      ensures !leave ==> br.Left() <= old(br.Left()) && mode == DIST
    {
      hide MaxLen, Shl, Msb, Lsb, Tree, LitAlphabet, DistAlphabet, BitsOf, DecodeSym, LenExtra, InTable, Slot, Walking,
           DistTables;
      var j := get;
      ghost var pos := br.Pos();
      var ok;
      ok, r := br.NeedBits(j, r0);
      leave := !ok;
      if !ok { return; }
      TakeLenExt(j);
    }

    method TakeLenExt(j: nat)
      requires Valid() && mode == LENEXT && j == get <= br.bitk
      modifies this, br
      ensures Valid() && mode == DIST && Meaning() == old(Meaning())
      ensures br.nextIn + br.availIn == old(br.nextIn + br.availIn) && br.Left() <= old(br.Left())
    {
      hide MaxLen, Shl, Msb, Lsb, Tree, LitAlphabet, DistAlphabet, BitsOf, DecodeSym, Symbols, Sane, From, Distance,
           DistExtra, Copied, Next, LenExtra, InTable, Slot;
      br.Bounds();
      RootTable(DistAlphabet(cs.dl), 6, dbits, dts, droot, dtab);
      ExtraStep(br.bits, last, cs, 0, len, j, br.Pos(), win.made);
      len := len + br.Peek(j);
      br.DumpBits(j);
      InRoot(dts, droot, dbits, br.bits, br.Pos());
      need, tree, mode := dbits, droot, DIST;
      cur := 0;
    }

    /** DIST: look a distance code up. */
    method StepDist(r0: int) returns (leave: bool, r: int)
      requires Valid() && mode == DIST
      modifies this, br
      ensures Valid() && Keeps(old(Meaning()), Meaning())
      ensures br.nextIn + br.availIn == old(br.nextIn + br.availIn)
      ensures if mode == BADCODE then leave && r == Z_DATA_ERROR else r == r0 || r == Z_OK
      ensures br.Left() <= old(br.Left())
      ensures leave && mode != BADCODE ==> mode == DIST && Starved()
      ensures !leave ==> br.Left() < old(br.Left()) && mode in {DISTEXT, DIST}
    {
      hide MaxLen, Shl, Msb, Lsb, Tree, Distance, DistExtra, DistAlphabet, LitAlphabet, BitsOf, DistEntry, InTable;
      TableWidth(DistAlphabet(cs.dl), 6, dbits, dts, droot, dtab, cur);
      var j := need;
      var ok;
      ok, r := br.NeedBits(j, r0);
      if !ok {
        leave := true;
        StarvedDist();
        return;
      }
      ghost var pos := br.Pos();
      var at, t;
      ghost var next;
      at, t, next := LookDist(len, cur, tree, j);
      leave := TakeDist(at, t, pos, next);
      if leave { r := Z_DATA_ERROR; }
    }

    /** Act on a distance entry whose bits were dumped. */
    method TakeDist(at: nat, t: Huft, ghost pos: nat, ghost next: nat) returns (bad: bool)
      requires Base() && DistTables() && len <= 258 && br.bitk < 16 && br.Pos() <= |br.bits|
      requires cur < |dts| && dts[cur].w <= pos && pos + t.bits == br.Pos()
      requires DistEntry(br.bits, last, cs, len, dts, dts[cur], at, t, pos, win.made, next)
      modifies this
      ensures Valid() && Keeps(Distance(br.bits, last, cs, old(len), pos - old(dts[cur].w), win.made), Meaning())
      ensures if bad then mode == BADCODE else mode in {DISTEXT, DIST}
    {
      hide MaxLen, Shl, Msb, Lsb, Tree, Distance, DistExtra, LitAlphabet, DistAlphabet, BitsOf, Window.Valid,
           BitReader.Valid, BitReader.Pos, Sane, From, Stops;
      bad := false;
      var e := t.exop;
      if Bit16(e) {
        get := e % 16;
        dist := t.base;
        mode := DISTEXT;
      } else if !Bit64(e) {
        need := e;
        tree := at + t.base;
        cur := next;
        mode := DIST;
      } else {
        mode := BADCODE;
        bad := true;
      }
    }

    /** DISTEXT: add the distance's extra bits. */
    method StepDistExt(r0: int) returns (leave: bool, r: int)
      requires Valid() && mode == DISTEXT
      modifies this, br
      ensures Valid() && Keeps(old(Meaning()), Meaning())
      ensures br.nextIn + br.availIn == old(br.nextIn + br.availIn)
      ensures r == r0 || r == Z_OK
      ensures br.Left() <= old(br.Left())
      ensures leave ==> mode == DISTEXT && Starved()
      ensures !leave ==> br.Left() <= old(br.Left()) && mode == COPY
    {
      hide MaxLen, Shl, Msb, Lsb, Tree, LitAlphabet, DistAlphabet, BitsOf, DecodeSym, DistExtra, InTable, Slot, Walking;
      var j := get;
      ghost var pos := br.Pos();
      var ok;
      ok, r := br.NeedBits(j, r0);
      leave := !ok;
      if !ok { return; }
      TakeDistExt(j);
    }

    method TakeDistExt(j: nat)
      requires Base() && br.Pos() <= |br.bits| && ModeOK() && mode == DISTEXT && j == get <= br.bitk < j + 16
      modifies this, br
      ensures Valid() && mode == COPY
      ensures Meaning() == Goes(DistExtra(br.bits, last, cs, old(len), old(dist), j, old(br.Pos()), win.made))
      ensures br.nextIn + br.availIn == old(br.nextIn + br.availIn) && br.Left() <= old(br.Left())
    {
      hide MaxLen, Shl, Msb, Lsb, Tree, LitAlphabet, DistAlphabet, BitsOf, DecodeSym, Symbols, Sane, From, Distance,
           LenExtra, Next, Copied, DistExtra, InTable, Slot;
      br.Bounds();
      ExtraStep(br.bits, last, cs, len, dist, j, br.Pos(), win.made);
      dist := dist + br.Peek(j);
      br.DumpBits(j);
      mode := COPY;
    }

    // ---------- output ----------

    /** Output waits and the caller's buffer is full. */
    ghost predicate Full()
      reads win
    {
      win.availOut == 0 && |win.out| < |win.made|
    }

    /** Address of the byte d back from byte number n of the output. */
    static function BackAt(n: nat, d: nat): nat
      requires d <= WSIZE
    {
      Slot(n + WSIZE - d)
    }

    /** The address f of the copy's first byte. */
    lemma Source(d: nat)
      requires win.Valid() && 1 <= d <= WSIZE
      ensures BackAt(|win.made|, d) == if win.write < d then WSIZE - (d - win.write) else win.write - d
    {
      SlotStep(|win.made|);
    }

    /** *q++ = *f++ for one byte of a copy. */
    method CopyByte(f: nat, ghost d: nat) returns (f': nat)
      requires win.Valid() && win.Room() > 0 && 1 <= d <= WSIZE && f == BackAt(|win.made|, d)
      modifies win`write, win`made, win.buf
      ensures win.Valid() && win.Room() == old(win.Room()) - 1 && win.write == old(win.write) + 1
      ensures |win.made| == |old(win.made)| + 1 && old(win.made) <= win.made
      ensures win.made == old(win.made + [Back(win.made, d)])
      ensures f' == BackAt(|win.made|, d) && f' == (if f + 1 == WSIZE then 0 else f + 1)
    {
      hide Slot, Tree, Tables;
      ghost var n := |win.made|;
      SlotStep(n + WSIZE - d);
      if d <= n {
        SlotWrap(n - d);
        assert win.made[n - d] == win.buf[Slot(n - d)];
      } else {
        SlotSmall(n + WSIZE - d);
      }
      win.OutByte(win.buf[f]);
      f' := if f + 1 == WSIZE then 0 else f + 1;
    }

    static lemma LzCopyStep(made: seq<byte>, d: nat, len: nat)
      requires 1 <= d && len > 0
      ensures LzCopy(made, d, len) == LzCopy(made + [Back(made, d)], d, len - 1)
    {
    }

    lemma CodesValid()
      requires Base()
      ensures ValidCodes(cs)
    {
    }

    /** COPY: copy in the window, stopping when no room can be made. */
    method StepCopy(r0: int) returns (leave: bool, r: int)
      requires Valid() && mode == COPY
      modifies this, win, win.buf
      ensures Valid() && Keeps(old(Meaning()), Meaning())
      ensures old(win.out) <= win.out && |win.out| + win.availOut == old(|win.out| + win.availOut)
      ensures leave ==> mode == COPY && Full() && (r == r0 || r == Z_OK)
      ensures !leave ==> mode == START && (r == r0 || r == Z_OK)
    {
      hide MaxLen, Shl, Msb, Lsb, Tree, BitsOf, Copied, Symbols, Sane, From, LenExtra, Distance, DistExtra, Next, Slot,
           BackAt, DistTables, InTable, Walking, BitReader.Valid, BitReader.Pos, Window.Valid, Tables, ValidCodes;
      CodesValid();
      r := r0;
      var f := if win.write < dist then WSIZE - (dist - win.write) else win.write - dist;
      Source(dist);
      ghost var pos := br.Pos();
      while len > 0
        invariant win.Valid() && mode == COPY && dist == old(dist) && len <= old(len) && unchanged(br)
        invariant f == BackAt(|win.made|, dist)
        invariant old(win.out) <= win.out && |win.out| + win.availOut == old(|win.out| + win.availOut)
        invariant Keeps(old(Meaning()), Copied(br.bits, last, cs, len, dist, pos, win.made))
        invariant r == r0 || r == Z_OK
        decreases len
      {
        var ok;
        ok, r := win.NeedOut(r);
        if !ok {
          leave := true;
          return;
        }
        CopiedStep(br.bits, last, cs, len, dist, pos, win.made);
        f := CopyByte(f, dist);
        len := len - 1;
      }
      CopiedStep(br.bits, last, cs, 0, dist, pos, win.made);
      mode := START;
      leave := false;
    }

    /** LIT: put the literal out. */
    method StepLit(r0: int) returns (leave: bool, r: int)
      requires Valid() && mode == LIT
      modifies this, win, win.buf
      ensures Valid() && Meaning() == old(Meaning())
      ensures old(win.out) <= win.out && |win.out| + win.availOut == old(|win.out| + win.availOut)
      ensures leave ==> mode == LIT && Full() && (r == r0 || r == Z_OK)
      ensures !leave ==> mode == START && r == Z_OK
    {
      hide MaxLen, Shl, Msb, Lsb, Tree, LitAlphabet, DistAlphabet, BitsOf, Symbols;
      var ok;
      ok, r := win.NeedOut(r0);
      leave := !ok;
      if !ok { return; }
      win.OutByte(lit);
      mode := START;
    }

    /** WASH: return an unused byte, then wait until all output is handed over. */
    method StepWash(r0: int) returns (leave: bool, r: int)
      requires Valid() && mode == WASH
      modifies this, br, win
      ensures Valid() && Meaning() == old(Meaning())
      ensures br.Left() == old(br.Left()) && br.nextIn + br.availIn == old(br.nextIn + br.availIn)
      ensures old(win.out) <= win.out && |win.out| + win.availOut == old(|win.out| + win.availOut)
      ensures leave ==> mode == WASH && Full()
      ensures !leave ==> mode == END && |win.out| == |win.made|
      ensures br.bitk < 8 && (r == r0 || (r0 == Z_BUF_ERROR && r == Z_OK))
    {
      hide MaxLen, Shl, Msb, Lsb, Tree, LitAlphabet, DistAlphabet, BitsOf, Next;
      if br.bitk > 7 {
        br.Unread(1);
      }
      r := win.Flush(r0);
      leave := win.read != win.write;
      if leave { return; }
      mode := END;
    }

    // ---------- inflate_fast ----------

    /** Walk the literal/length tables with all bits at hand. */
    method WalkLit() returns (t: Huft)
      requires Base() && br.bitk >= MAX_BITS && br.Pos() <= |br.bits|
      modifies br
      ensures Base() && br.Pos() <= |br.bits|
      ensures old(br.Pos()) < br.Pos() <= old(br.Pos()) + MAX_BITS
      ensures br.nextIn == old(br.nextIn) && br.availIn == old(br.availIn)
      ensures br.bitk == old(br.bitk) - (br.Pos() - old(br.Pos()))
      ensures LitEnd(br.bits, last, cs, t, old(br.Pos()), br.Pos(), win.made)
    {
      hide MaxLen, Shl, Msb, Lsb, Tree, Symbols, Sane, From, LenExtra, Next, LitAlphabet, DistAlphabet, BitsOf, InTable,
           Window.Valid, BitReader.Valid, GoodDist, Stops;
      ghost var start := br.Pos();
      RootTable(LitAlphabet(cs.ll), 9, lbits, lts, lroot, ltab);
      InRoot(lts, lroot, lbits, br.bits, start);
      TableBits(LitAlphabet(cs.ll), 9, lbits, lts, lroot, ltab, 0);
      ghost var i: nat := 0;
      var at: nat;
      ghost var next: nat;
      at, t, next := LookLit(0, lroot, lbits);
      while t.exop != 0 && !Bit16(t.exop) && !Bit64(t.exop)
        invariant Base() && br.Pos() <= |br.bits| && i < |lts|
        invariant start + lts[i].w + t.bits == br.Pos() && 1 <= t.bits <= lts[i].z
        invariant br.nextIn == old(br.nextIn) && br.availIn == old(br.availIn)
        invariant br.bitk == old(br.bitk) - (br.Pos() - start)
        invariant start + lts[i].w + lts[i].z <= start + MAX_BITS
        invariant LitEntry(br.bits, last, cs, lts, lts[i], at, t, start + lts[i].w, win.made, next)
        decreases br.bitk
      {
        TableBits(LitAlphabet(cs.ll), 9, lbits, lts, lroot, ltab, next);
        i := next;
        at, t, next := LookLit(i, at + t.base, t.exop);
      }
    }

    /** Walk the distance tables with all bits at hand. */
    method WalkDist(ghost n: nat) returns (t: Huft)
      requires Base() && DistTables() && br.bitk >= MAX_BITS && br.Pos() <= |br.bits|
      modifies br
      ensures Base() && br.Pos() <= |br.bits|
      ensures old(br.Pos()) < br.Pos() <= old(br.Pos()) + MAX_BITS
      ensures br.nextIn == old(br.nextIn) && br.availIn == old(br.availIn)
      ensures br.bitk == old(br.bitk) - (br.Pos() - old(br.Pos()))
      ensures DistEnd(br.bits, last, cs, n, t, old(br.Pos()), br.Pos(), win.made)
    {
      hide MaxLen, Shl, Msb, Lsb, Tree, Distance, DistExtra, LitAlphabet, DistAlphabet, BitsOf, InTable, Window.Valid,
           BitReader.Valid, Stops;
      ghost var start := br.Pos();
      RootTable(DistAlphabet(cs.dl), 6, dbits, dts, droot, dtab);
      InRoot(dts, droot, dbits, br.bits, start);
      TableBits(DistAlphabet(cs.dl), 6, dbits, dts, droot, dtab, 0);
      ghost var i: nat := 0;
      var at: nat;
      ghost var next: nat;
      at, t, next := LookDist(n, 0, droot, dbits);
      while !Bit16(t.exop) && !Bit64(t.exop)
        invariant Base() && br.Pos() <= |br.bits| && i < |dts|
        invariant start + dts[i].w + t.bits == br.Pos() && 1 <= t.bits <= dts[i].z
        invariant br.nextIn == old(br.nextIn) && br.availIn == old(br.availIn)
        invariant br.bitk == old(br.bitk) - (br.Pos() - start)
        invariant start + dts[i].w + dts[i].z <= start + MAX_BITS
        invariant DistEntry(br.bits, last, cs, n, dts, dts[i], at, t, start + dts[i].w, win.made, next)
        decreases br.bitk
      {
        TableBits(DistAlphabet(cs.dl), 6, dbits, dts, droot, dtab, next);
        i := next;
        at, t, next := LookDist(n, i, at + t.base, t.exop);
      }
    }

    /** do *q++ = *r++ while (--n). */
    method CopyRun(r0: nat, n: nat, ghost d: nat, ghost total: nat) returns (r: nat)
      requires win.Valid() && 1 <= n <= win.Room() && 1 <= d <= WSIZE && n <= total
      requires r0 == BackAt(|win.made|, d) && r0 + n <= WSIZE
      modifies win`write, win`made, win.buf
      ensures win.Valid() && win.Room() == old(win.Room()) - n && |win.made| == |old(win.made)| + n
      ensures old(win.made) <= win.made
      ensures LzCopy(old(win.made), d, total) == LzCopy(win.made, d, total - n)
      ensures r == BackAt(|win.made|, d) && r == (if r0 + n == WSIZE then 0 else r0 + n)
      ensures win.write == old(win.write) + n
    {
      hide Slot, BackAt, LzCopy, Back;
      r := r0;
      var i := n;
      while i > 0
        invariant 0 <= i <= n && win.Valid() && win.Room() == old(win.Room()) - (n - i)
        invariant |win.made| == |old(win.made)| + (n - i) && old(win.made) <= win.made
        invariant LzCopy(old(win.made), d, total) == LzCopy(win.made, d, total - (n - i))
        invariant r == BackAt(|win.made|, d) && r == (if i == 0 && r0 + n == WSIZE then 0 else r0 + (n - i))
        invariant win.write == old(win.write) + (n - i)
      {
        ghost var made := win.made;
        r := CopyByte(r, d);
        LzCopyStep(made, d, total - (n - i));
        i := i - 1;
      }
    }

    /** The copy of inflate_fast: no stop for room, and at most one wrap of the source. */
    method FastCopy(c0: nat, d: nat)
      requires win.Valid() && 3 <= c0 <= 258 <= win.Room() && 1 <= d <= WSIZE
      modifies win`write, win`made, win.buf
      ensures win.Valid() && win.Room() == old(win.Room()) - c0 && |win.made| == |old(win.made)| + c0
      ensures old(win.made) <= win.made
      ensures win.made == LzCopy(old(win.made), d, c0)
    {
      hide Slot, BackAt, LzCopy, Back;
      var c := c0;
      Source(d);
      if win.write >= d {
        var r := win.write - d;
        r := CopyRun(r, 1, d, c0);
        c := c - 1;
        r := CopyRun(r, 1, d, c0 - 1);
        c := c - 1;
        r := CopyRun(r, c, d, c0 - 2);
      } else {
        var e := d - win.write;
        var r := WSIZE - e;
        if c > e {
          c := c - e;
          r := CopyRun(r, e, d, c0);
        }
        r := CopyRun(r, c, d, c);
      }
    }

    /** What one turn of the fast loop leaves to decode. */
    ghost function FastMeaning(st: int): Outcome
      reads this, br, win, win.buf
      requires br.Pos() <= |br.bits| && ValidCodes(cs)
    {
      if st == Z_OK then Symbols(br.bits, last, cs, br.Pos(), win.made)
      else if st == Z_STREAM_END then Next(br.bits, last, br.Pos(), win.made)
      else Bad(win.made, br.Pos())
    }

    /** The extra bits of a distance and the copy. */
    method FastExtra(c: nat, base: nat, e: nat) returns (st: int)
      requires Base() && br.Pos() <= |br.bits| && e <= 13 && 1 <= base && base + Pow2(e) <= WSIZE + 1
      requires 3 <= c <= 258 <= win.Room() && br.Left() >= 40
      modifies br, win`write, win`made, win.buf
      ensures Base() && br.Pos() <= |br.bits| && st == Z_OK
      ensures br.Left() <= old(br.Left()) && br.Pos() + br.Left() == old(br.Pos() + br.Left())
      ensures br.nextIn + br.availIn == old(br.nextIn + br.availIn) && br.nextIn >= old(br.nextIn)
      ensures win.Room() >= 0 && old(win.made) <= win.made
      ensures Keeps(old(DistExtra(br.bits, last, cs, c, base, e, br.Pos(), win.made)), FastMeaning(st))
    {
      hide MaxLen, Shl, Msb, Lsb, Tree, Symbols, Sane, From, LenExtra, Next, Distance, DistExtra, Copied, LitAlphabet,
           DistAlphabet, BitsOf, DecodeSym, Slot, LzCopy, Tables, ValidCodes, Window.Valid, BitReader.Valid;
      CodesValid();
      br.GrabBits(e);
      ghost var pos := br.Pos();
      br.Bounds();
      ExtraStep(br.bits, last, cs, c, base, e, pos, win.made);
      var d := base + br.Peek(e);
      br.DumpBits(e);
      CopiedAll(br.bits, last, cs, c, d, br.Pos(), win.made);
      FastCopy(c, d);
      st := Z_OK;
    }

    /** A distance and the copy, after a length. */
    method FastDistance(c: nat) returns (st: int)
      requires Base() && DistTables() && br.Pos() <= |br.bits|
      requires 3 <= c <= 258 <= win.Room() && br.Left() >= 60
      modifies br, win`write, win`made, win.buf
      ensures Base() && br.Pos() <= |br.bits| && st in {Z_OK, Z_DATA_ERROR}
      ensures br.Left() < old(br.Left()) && br.Pos() + br.Left() == old(br.Pos() + br.Left())
      ensures br.nextIn + br.availIn == old(br.nextIn + br.availIn) && br.nextIn >= old(br.nextIn)
      ensures win.Room() >= 0 && old(win.made) <= win.made
      ensures Keeps(old(Distance(br.bits, last, cs, c, br.Pos(), win.made)), FastMeaning(st))
    {
      hide MaxLen, Shl, Msb, Lsb, Tree, Symbols, Sane, From, LenExtra, Next, Distance, DistExtra, Copied, LitAlphabet,
           DistAlphabet, BitsOf, DecodeSym, Slot, LzCopy, Tables, ValidCodes, Window.Valid, BitReader.Valid;
      CodesValid();
      br.GrabBits(15);
      var t := WalkDist(c);
      if Bit16(t.exop) {
        st := FastExtra(c, t.base, t.exop % 16);
      } else {
        st := Z_DATA_ERROR;
      }
    }

    /** The extra bits of a length, the distance and the copy. */
    method FastLength(base: nat, e: nat) returns (st: int)
      requires Base() && DistTables() && br.Pos() <= |br.bits| && e <= 5 && 3 <= base && base + Pow2(e) <= 259
      requires e <= br.bitk && win.Room() >= 258 && br.Left() >= 65
      modifies br, win`write, win`made, win.buf
      ensures Base() && br.Pos() <= |br.bits| && st in {Z_OK, Z_DATA_ERROR}
      ensures br.Left() < old(br.Left()) && br.Pos() + br.Left() == old(br.Pos() + br.Left())
      ensures br.nextIn + br.availIn == old(br.nextIn + br.availIn) && br.nextIn >= old(br.nextIn)
      ensures win.Room() >= 0 && old(win.made) <= win.made
      ensures Keeps(old(LenExtra(br.bits, last, cs, base, e, br.Pos(), win.made)), FastMeaning(st))
    {
      hide MaxLen, Shl, Msb, Lsb, Tree, Symbols, Sane, From, LenExtra, Next, Distance, DistExtra, Copied, LitAlphabet,
           DistAlphabet, BitsOf, DecodeSym, Slot, LzCopy, Window.Valid, BitReader.Valid, Tables;
      ghost var pos := br.Pos();
      br.Bounds();
      ExtraStep(br.bits, last, cs, 0, base, e, pos, win.made);
      var c := base + br.Peek(e);
      br.DumpBits(e);
      st := FastDistance(c);
    }

    /** One turn of the fast loop: a literal, a length/distance pair or the end. At
        most 48 bits are decoded, which ten bytes of input always cover. */
    method FastOne() returns (st: int)
      requires Base() && br.Pos() <= |br.bits| && win.Room() >= 258 && br.availIn >= 10
      modifies br, win`write, win`made, win.buf
      ensures Base() && br.Pos() <= |br.bits| && st in {Z_OK, Z_STREAM_END, Z_DATA_ERROR}
      ensures br.Left() < old(br.Left()) && br.Pos() + br.Left() == old(br.Pos() + br.Left())
      ensures br.nextIn + br.availIn == old(br.nextIn + br.availIn) && br.nextIn >= old(br.nextIn)
      ensures win.Room() >= 0 && old(win.made) <= win.made
      ensures Keeps(old(Symbols(br.bits, last, cs, br.Pos(), win.made)), FastMeaning(st))
    {
      hide MaxLen, Shl, Msb, Lsb, Tree, Symbols, Sane, From, LenExtra, Next, Distance, DistExtra, Copied, LitAlphabet,
           DistAlphabet, BitsOf, DecodeSym, Slot, LzCopy, Window.Valid, BitReader.Valid;
      br.GrabBits(20);
      var t := WalkLit();
      var e := t.exop;
      if e == 0 {
        win.OutByte(t.base);
        st := Z_OK;
      } else if Bit16(e) {
        st := FastLength(t.base, e % 16);
      } else if Bit32(e) {
        st := Z_STREAM_END;
      } else {
        st := Z_DATA_ERROR;
      }
    }

    /** inflate_fast: decode while there is input and room for any length/distance
        pair, then hand whole bytes back. */
    method InflateFast() returns (st: int)
      requires Valid() && mode == START && win.Room() >= 258 && br.availIn >= 10
      modifies br, win`write, win`made, win.buf
      ensures Base() && br.bitk < 16 && br.Pos() <= |br.bits| && st in {Z_OK, Z_STREAM_END, Z_DATA_ERROR}
      ensures br.Left() < old(br.Left())
      ensures br.nextIn + br.availIn == old(br.nextIn + br.availIn)
      ensures win.Room() >= 0 && old(win.made) <= win.made
      ensures Keeps(old(Meaning()), FastMeaning(st))
    {
      hide MaxLen, Shl, Msb, Lsb, Tree, Symbols, Sane, From, Next, LitAlphabet, DistAlphabet, BitsOf;
      var avail0 := br.availIn;
      ghost var k0, pos0 := br.bitk, br.Pos();
      st := FastOne();
      while st == Z_OK && win.Room() >= 258 && br.availIn >= 10
        invariant Base() && br.Pos() <= |br.bits| && st in {Z_OK, Z_STREAM_END, Z_DATA_ERROR}
        invariant br.Left() < old(br.Left()) && br.Pos() + br.Left() == old(br.Pos() + br.Left())
        invariant br.nextIn + br.availIn == old(br.nextIn + br.availIn) && br.nextIn >= old(br.nextIn)
        invariant win.Room() >= 0 && old(win.made) <= win.made
        invariant Keeps(old(Meaning()), FastMeaning(st))
        decreases br.Left()
      {
        st := FastOne();
      }
      br.Ungrab(avail0, k0, pos0);
    }

    // ---------- inflate_codes ----------

    /** START with the fast path: taken when there is room for any copy and ten bytes
        of input, and falling through to LEN when it ends without an end of block. */
    method StepStartFast(r0: int) returns (r: int)
      requires Valid() && mode == START
      modifies this, br, win`write, win`made, win.buf
      ensures Valid() && Keeps(old(Meaning()), Meaning())
      ensures br.Left() <= old(br.Left()) && br.nextIn + br.availIn == old(br.nextIn + br.availIn)
      ensures mode in {LEN, WASH, BADCODE}
      ensures r == r0 || r == Z_OK || (mode == WASH && r == Z_STREAM_END) || (mode == BADCODE && r == Z_DATA_ERROR)
      ensures mode == BADCODE ==> r == Z_DATA_ERROR
    {
      hide MaxLen, Shl, Msb, Lsb, Tree, Symbols, Sane, From, Next, LitAlphabet, DistAlphabet, BitsOf;
      r := r0;
      if win.Room() >= 258 && br.availIn >= 10 {
        r := InflateFast();
        if r != Z_OK {
          mode := if r == Z_STREAM_END then WASH else BADCODE;
          return;
        }
      }
      StepStart();
    }

    /** Measure of the modes between two units of input. */
    static function Rank(m: CodesMode): nat
    {
      match m
      case DISTEXT => 5
      case COPY => 4
      case LIT => 4
      case LENEXT => 3
      case START => 3
      case LEN => 2
      case DIST => 2
      case WASH => 2
      case END => 1
      case BADCODE => 0
    }

    /** The pending return code that goes with a mode. The fast path sets
        Z_STREAM_END before the output is handed over. */
    predicate Code(r: int)
      reads this
    {
      r == Z_OK || r == Z_BUF_ERROR || (mode in {WASH, END} && r == Z_STREAM_END)
          || (mode == BADCODE && r == Z_DATA_ERROR)
    }

    /** Why inflate_codes returns: end of block (with less than a byte in the buffer,
        though output may still wait), bad code, or no input or no output space. */
    ghost predicate Left0(r: int)
      reads this, br, win, win.buf
      requires Valid()
    {
      if r == Z_STREAM_END then mode in {WASH, END} && br.bitk < 8
      else if r == Z_DATA_ERROR then mode == BADCODE
      else r in {Z_OK, Z_BUF_ERROR} && mode !in {END, BADCODE} && (Starved() || Full())
    }

    /** One turn of for (;;) switch (c->mode). */
    method Step(r0: int) returns (leave: bool, r: int)
      requires Valid() && Code(r0)
      modifies this, br, win, win.buf
      ensures Valid() && Keeps(old(Meaning()), Meaning())
      ensures br.nextIn + br.availIn == old(br.nextIn + br.availIn)
      ensures old(win.out) <= win.out && |win.out| + win.availOut == old(|win.out| + win.availOut)
      ensures leave ==> Left0(r)
      ensures !leave ==> Code(r)
      ensures br.Left() <= old(br.Left())
      ensures !leave ==> br.Left() < old(br.Left()) || (br.Left() == old(br.Left()) && Rank(mode) < Rank(old(mode)))
    {
      hide MaxLen, Shl, Msb, Lsb, Tree, Tables, Walking, Symbols, Sane, From, Next, Distance, LenExtra, DistExtra,
           Copied, LitAlphabet, DistAlphabet, BitsOf;
      leave, r := false, r0;
      match mode
      case START => r := StepStartFast(r);
      case LEN => leave, r := StepLen(r);
      case LENEXT => leave, r := StepLenExt(r);
      case DIST => leave, r := StepDist(r);
      case DISTEXT => leave, r := StepDistExt(r);
      case COPY => leave, r := StepCopy(r);
      case LIT => leave, r := StepLit(r);
      case WASH => leave, r := StepWash(r);
      case END => leave, r := true, Z_STREAM_END;
      case BADCODE => leave, r := true, Z_DATA_ERROR;
    }

    /** inflate_codes: go on until the block ends, a code is bad, or input or output
        space runs out; whatever stops it, the rest of the stream means the same. */
    method InflateCodes(r0: int) returns (r: int)
      requires Valid() && r0 in {Z_OK, Z_BUF_ERROR}
      modifies this, br, win, win.buf
      ensures Valid() && Keeps(old(Meaning()), Meaning())
      ensures br.nextIn + br.availIn == old(br.nextIn + br.availIn) && br.Left() <= old(br.Left())
      ensures old(win.out) <= win.out && |win.out| + win.availOut == old(|win.out| + win.availOut)
      ensures Left0(r)
    {
      hide MaxLen, Shl, Msb, Lsb, Tree, Tables, Walking, Symbols, Sane, From, Next, Distance, LenExtra, DistExtra,
           Copied, LitAlphabet, DistAlphabet, BitsOf;
      var leave := false;
      r := r0;
      while !leave
        invariant Valid() && Keeps(old(Meaning()), Meaning())
        invariant br.nextIn + br.availIn == old(br.nextIn + br.availIn)
        invariant old(win.out) <= win.out && |win.out| + win.availOut == old(|win.out| + win.availOut)
        invariant if leave then Left0(r) else Code(r)
        invariant br.Left() <= old(br.Left())
        decreases !leave, br.Left(), Rank(mode)
      {
        leave, r := Step(r);
      }
      LeaveFlush(r);
      r := win.Flush(r);
    }

    /** The flush at LEAVE changes nothing but how much is handed over. */
    lemma LeaveFlush(r: int)
      requires Valid() && Left0(r)
      ensures Full() ==> win.Flushable() == 0
    {
    }
  }
}
