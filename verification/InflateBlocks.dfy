/** Block headers, stored blocks, dynamic code lengths and the sequence of blocks:
    inflate_blocks, resumable at every point. */
module InflateBlocks {
  import opened Basics
  import opened Bits
  import opened Huffman
  import opened HuftTables
  import opened HuftInvariant
  import opened HuftBuild
  import opened Rfc1951
  import opened InflateTrees
  import opened InflateBits
  import opened InflateWindow
  import opened InflateCodes

  /** inflate_block_mode. */
  datatype BlockMode = TYPE | LENS | STORED | TABLE | BTREE | DTREE | CODES | DRY | DONE | BAD

  // ---------- the format, one element at a time ----------

  lemma BlocksStep(bits: seq<bit>, pos: nat, out: seq<byte>)
    requires pos <= |bits|
    ensures pos + 3 <= |bits| ==>
              var last, kind := bits[pos] == 1, Lsb(bits, pos + 1, 2);
              var r := Blocks(bits, pos, out);
              && (kind == 0 && Align(pos + 3) <= |bits| ==> r == StoredLen(bits, last, Align(pos + 3), out))
              && (kind == 1 ==> r == Symbols(bits, last, Codes(FixedLit(), FixedDist()), pos + 3, out))
              && (kind == 2 ==> r == Header(bits, last, pos + 3, out))
              && (kind == 3 ==> r == Bad(out, pos + 3))
    ensures Stops(Goes(Blocks(bits, pos, out))) ==> pos + 3 <= Goes(Blocks(bits, pos, out)).end
  {
  }

  lemma StoredLenStep(bits: seq<bit>, last: bool, pos: nat, out: seq<byte>)
    requires pos <= |bits|
    ensures pos + 32 <= |bits| ==>
              StoredLen(bits, last, pos, out) ==
              if Lsb(bits, pos, 16) + Lsb(bits, pos + 16, 16) != 0xffff then Bad(out, pos + 32)
              else StoredBytes(bits, last, Lsb(bits, pos, 16), pos + 32, out)
    ensures Stops(Goes(StoredLen(bits, last, pos, out))) ==> pos + 32 <= Goes(StoredLen(bits, last, pos, out)).end
  {
  }

  lemma StoredBytesStep(bits: seq<bit>, last: bool, left: nat, pos: nat, out: seq<byte>)
    requires pos <= |bits|
    ensures left == 0 ==> StoredBytes(bits, last, left, pos, out) == Next(bits, last, pos, out)
    ensures left > 0 && pos + 8 <= |bits| ==>
              StoredBytes(bits, last, left, pos, out)
              == StoredBytes(bits, last, left - 1, pos + 8, out + [ByteAt(bits, pos)])
    ensures left > 0 && Stops(Goes(StoredBytes(bits, last, left, pos, out))) ==>
              pos + 8 <= Goes(StoredBytes(bits, last, left, pos, out)).end
  {
  }

  lemma NextStep(bits: seq<bit>, last: bool, pos: nat, out: seq<byte>)
    requires pos <= |bits|
    ensures Next(bits, last, pos, out) == if last then Done(out, pos) else Blocks(bits, pos, out)
  {
  }

  lemma HeaderStep(bits: seq<bit>, last: bool, pos: nat, out: seq<byte>)
    requires pos <= |bits|
    ensures pos + 14 <= |bits| ==>
              var hlit, hdist, hclen := Lsb(bits, pos, 5), Lsb(bits, pos + 5, 5), Lsb(bits, pos + 10, 4);
              && hclen < 16
              && Keeps(Header(bits, last, pos, out),
                 if hlit > 29 then Bad(out, pos + 14)
                 else if hdist > 29 then Refused(out, pos + 14, Truncated(out))
                 else CodeLens(bits, last, 257 + hlit, 1 + hdist, 4 + hclen, 0, seq(19, i => 0), pos + 14, out))
    ensures Stops(Goes(Header(bits, last, pos, out))) ==> pos + 14 <= Goes(Header(bits, last, pos, out)).end
  {
    if pos + 14 <= |bits| {
      LsbBound(bits, pos + 10, 4);
      assert Pow2(4) == 16;
    }
  }

  lemma CodeLensStep(bits: seq<bit>, last: bool, nl: nat, nd: nat, n: nat, i: nat, cl: seq<nat>, pos: nat,
                     out: seq<byte>)
    requires pos <= |bits| && 257 <= nl <= 286 && 1 <= nd <= 30 && i <= n <= 19
    requires |cl| == 19 && Lengths(cl)
    ensures i == n ==> CodeLens(bits, last, nl, nd, n, i, cl, pos, out) ==
                       if Usable(cl) then Lens(bits, last, nl, nd, cl, [], pos, out) else Bad(out, pos)
    ensures i < n && pos + 3 <= |bits| ==>
              && Lsb(bits, pos, 3) < 8
              && CodeLens(bits, last, nl, nd, n, i, cl, pos, out)
                 == CodeLens(bits, last, nl, nd, n, i + 1, cl[BORDER[i] := Lsb(bits, pos, 3)], pos + 3, out)
    ensures i < n && Stops(Goes(CodeLens(bits, last, nl, nd, n, i, cl, pos, out))) ==>
              pos + 3 <= Goes(CodeLens(bits, last, nl, nd, n, i, cl, pos, out)).end
  {
    hide Lens, Kraft, MaxLen, Lsb, Shl;
    if i < n && pos + 3 <= |bits| {
      LsbBound(bits, pos, 3);
      Pow2Values();
    }
  }

  /** What a repeat code appends, or that it is an error. */
  predicate RepeatOK(c: nat, times: nat, n: nat, total: nat)
  {
    n + times <= total && !(c == 16 && n == 0)
  }

  /** The symbol of the code length code that inflate finds: an unassigned bit is taken for
      the only symbol there is. */
  ghost function LensCode(cl: seq<nat>, bits: seq<bit>, pos: nat): Decoded
    requires |cl| == 19
  {
    var d := DecodeSym(cl, bits, pos);
    if d == NoCode && MaxLen(cl) == 1 then Symbol(OnlySymbol(cl), 1) else d
  }

  lemma LensStep(bits: seq<bit>, last: bool, nl: nat, nd: nat, cl: seq<nat>, acc: seq<nat>, pos: nat, out: seq<byte>)
    requires pos <= |bits| && 257 <= nl <= 286 && 1 <= nd <= 30
    requires |cl| == 19 && Lengths(cl) && |acc| <= nl + nd && Lengths(acc)
    ensures var r := Goes(Lens(bits, last, nl, nd, cl, acc, pos, out));
            if |acc| == nl + nd then r == Goes(Trees(bits, last, acc[..nl], acc[nl..], pos, out))
            else
              var d := LensCode(cl, bits, pos);
              && (d.Symbol? ==>
                    && d.sym <= 18 && pos + d.len <= |bits|
                    && r == Goes(LensMore(bits, last, nl, nd, cl, acc, d.sym, pos + d.len, out)))
              && (Stops(r) ==> pos + (if d.Symbol? then d.len else 0) <= r.end)
  {
    hide Trees, LensMore, Kraft, MaxLen, Lsb, Shl, DecodeSym, OnlySymbol;
  }

  lemma LensMoreStep(bits: seq<bit>, last: bool, nl: nat, nd: nat, cl: seq<nat>, acc: seq<nat>, c: nat,
                     pos: nat, out: seq<byte>)
    requires pos <= |bits| && 257 <= nl <= 286 && 1 <= nd <= 30 && c <= 18
    requires |cl| == 19 && Lengths(cl) && |acc| < nl + nd && Lengths(acc)
    ensures var r := LensMore(bits, last, nl, nd, cl, acc, c, pos, out);
            && (c < 16 ==> r == Lens(bits, last, nl, nd, cl, acc + [c], pos, out))
            && (c >= 16 && pos + RepeatBits(c) <= |bits| ==>
                  var times := RepeatBase(c) + Lsb(bits, pos, RepeatBits(c));
                  r == if !RepeatOK(c, times, |acc|, nl + nd) then Bad(out, pos + RepeatBits(c))
                       else Lens(bits, last, nl, nd, cl, acc + Repeat(if c == 16 then acc[|acc| - 1] else 0, times),
                                 pos + RepeatBits(c), out))
            && (Stops(Goes(r)) ==> pos + (if c < 16 then 0 else RepeatBits(c)) <= Goes(r).end)
  {
    hide Lens, Kraft, MaxLen, Lsb, Shl;
  }

  /** A repeat code that was looked up, its extra bits and the lengths it stands for. */
  lemma RepeatStep(bits: seq<bit>, last: bool, nl: nat, nd: nat, cl: seq<nat>, acc: seq<nat>, pos: nat, out: seq<byte>,
                   c: nat, t: nat, times: nat)
    requires 257 <= nl <= 286 && 1 <= nd <= 30 && |cl| == 19 && Lengths(cl) && |acc| < nl + nd && Lengths(acc)
    requires 16 <= c <= 18 && pos + t + RepeatBits(c) <= |bits|
    requires LensCode(cl, bits, pos) == Symbol(c, t)
    requires times == RepeatBase(c) + Lsb(bits, pos + t, RepeatBits(c))
    ensures var before := Lens(bits, last, nl, nd, cl, acc, pos, out);
            if !RepeatOK(c, times, |acc|, nl + nd) then Keeps(before, Bad(out, pos + t + RepeatBits(c)))
            else
              var more := Repeat(if c == 16 then acc[|acc| - 1] else 0, times);
              Lengths(acc + more)
              && Keeps(before, Lens(bits, last, nl, nd, cl, acc + more, pos + t + RepeatBits(c), out))
  {
    hide Lens, LensMore, LensCode, Lsb, MaxLen;
    LensStep(bits, last, nl, nd, cl, acc, pos, out);
    LensMoreStep(bits, last, nl, nd, cl, acc, c, pos + t, out);
  }

  lemma TreesStep(bits: seq<bit>, last: bool, ll: seq<nat>, dl: seq<nat>, pos: nat, out: seq<byte>)
    requires pos <= |bits| && Lengths(ll) && Lengths(dl) && |ll| <= 288 && |dl| <= 30
    ensures Keeps(Trees(bits, last, ll, dl, pos, out),
                  if !GoodTrees(ll, dl) then Bad(out, pos)
                  else if EmptyDistances(ll, dl) then Refused(out, pos, Truncated(out))
                  else Symbols(bits, last, Codes(ll, dl), pos, out))
    ensures !GoodTrees(ll, dl) ==> Trees(bits, last, ll, dl, pos, out) == Bad(out, pos)
  {
  }

  /** An entry of the single table for the code length code. */
  lemma BitsLookup(bits: seq<bit>, cl: seq<nat>, bb: nat, ts: seq<Tab>, tb: nat, pool: seq<Huft>, pos: nat)
    requires |cl| == 19 && Lengths(cl) && Tree(BitsAlphabet(cl), 7, bb, ts, tb, pool) && bb == MaxLen(cl)
    requires pos + bb <= |bits| && Usable(cl)
    ensures tb + Lsb(bits, pos, bb) < |pool|
    ensures var en := pool[tb + Lsb(bits, pos, bb)];
            && 1 <= en.bits <= bb && en.base <= 18
            && LensCode(cl, bits, pos) == Symbol(en.base, en.bits)
  {
    hide MaxLen, CountBelow, Shl, Lsb, DecodeSym, Kraft, OnlySymbol, Usable, LensCode;
    var a := BitsAlphabet(cl);
    InRoot(ts, tb, bb, bits, pos);
    var next := Lookup(a, bb, ts, tb, pool, 0, bits, pos);
    var en := pool[tb + Lsb(bits, pos, bb)];
    if FoundSymbol(a, ts[0], en, bits, pos) {
      CodeFound(cl, bits, pos);
    } else if FoundNothing(a, bb, ts[0], en, bits, pos) {
      SingleBit(cl, en, bits, pos);
    } else {
      assert false;
    }
  }

  lemma CodeFound(cl: seq<nat>, bits: seq<bit>, pos: nat)
    requires |cl| == 19
    ensures DecodeSym(cl, bits, pos).Symbol? ==> LensCode(cl, bits, pos) == DecodeSym(cl, bits, pos)
  {
    hide DecodeSym, MaxLen;
  }

  /** A usable code set with a pattern that is no code has a single code, of one bit; the
      entry for the other bit has its symbol. */
  lemma SingleBit(cl: seq<nat>, en: Huft, bits: seq<bit>, pos: nat)
    requires |cl| == 19 && Lengths(cl) && Usable(cl) && ValidAlphabet(BitsAlphabet(cl))
    requires DecodeSym(cl, bits, pos) == NoCode && Kraft(cl, 19) < Pow2(MAX_BITS)
    requires HasSymbolBase(BitsAlphabet(cl), en) && 1 <= en.bits <= MaxLen(cl)
    ensures LensCode(cl, bits, pos) == Symbol(en.base, en.bits)
  {
    hide DecodeSym, MaxLen, Shl, Kraft;
    var sym: nat :| sym < 19 && cl[sym] > 0 && en.base == BaseOf(BitsAlphabet(cl), sym);
    assert cl[sym] == 1;
    var only := OnlySymbol(cl);
    if only < sym { TwoBits(cl, only, sym); } else if sym < only { TwoBits(cl, sym, only); }
  }

  /** Two codes of one bit are all there can be. */
  lemma {:induction false} TwoBits(cl: seq<nat>, a: nat, b: nat)
    requires |cl| == 19 && Lengths(cl) && a < b < 19 && cl[a] == 1 && cl[b] == 1
    ensures Kraft(cl, 19) >= Pow2(MAX_BITS)
  {
    hide Shl, Kraft;
    KraftMore(cl, a, b);
    KraftMore(cl, b, 19);
    Pow2Values();
  }

  lemma {:induction false} KraftMore(cl: seq<nat>, i: nat, n: nat)
    requires Lengths(cl) && i < n <= |cl| && cl[i] == 1
    ensures Kraft(cl, n) >= Kraft(cl, i) + Pow2(MAX_BITS - 1)
    decreases n
  {
    hide Shl;
    if i < n - 1 { KraftMore(cl, i, n - 1); }
  }

  /** BORDER lists every symbol of the code length code once. */
  lemma BorderCovers(x: nat) returns (t: nat)
    requires x < 19
    ensures t < 19 && BORDER[t] == x
  {
    t := [3, 17, 15, 13, 11, 9, 7, 5, 4, 6, 8, 10, 12, 14, 16, 18, 0, 1, 2][x];
  }

  lemma BorderOnce(s: nat, t: nat)
    requires s < 19 && t < 19 && s != t
    ensures BORDER[s] != BORDER[t]
  {
    var inv := [3, 17, 15, 13, 11, 9, 7, 5, 4, 6, 8, 10, 12, 14, 16, 18, 0, 1, 2];
    assert inv[BORDER[s]] == s && inv[BORDER[t]] == t;
  }

  /** The code lengths read so far are in blens, at the places BORDER gives. */
  ghost predicate LengthsRead(cl: seq<nat>, blens: seq<nat>, index: nat)
  {
    && |cl| == 19 && |blens| >= 19 && index <= 19
    && (forall x | 0 <= x < 19 :: cl[x] <= 7)
    && (forall t {:trigger BORDER[t]} | 0 <= t < index :: blens[BORDER[t]] == cl[BORDER[t]])
    && (forall t {:trigger BORDER[t]} | index <= t < 19 :: cl[BORDER[t]] == 0)
  }

  /** struct inflate_blocks_state. */
  class BlocksState {
    const br: BitReader
    const win: Window
    const hufts: array<Huft>      // single allocation for tree space
    const fixedTl: seq<Huft>
    const fixedTd: seq<Huft>
    ghost const fixedLts: seq<Tab>
    ghost const fixedDts: seq<Tab>
    var mode: BlockMode
    var left: nat                 // if STORED, bytes left to copy
    var table: nat                // table lengths (14 bits)
    var index: nat                // index into blens (or border)
    var blens: seq<nat>           // bit lengths of codes
    var bb: nat                   // bit length tree depth
    var tb: nat                   // bit length decoding tree
    var codes: CodesState?        // if CODES, current state
    var last: bool                // true if this block is the last block
    ghost var cl: seq<nat>        // the code length code, if BTREE or DTREE
    ghost var bts: seq<Tab>
    ghost var turned: bool        // in BAD: the block was refused, not malformed
    ghost var noMem: bool         // Z_MEM_ERROR was returned: blens is gone, do not call again

    constructor (inp: seq<byte>)
      ensures Valid() && mode == TYPE && br.inp == inp && br.nextIn == 0 && br.Pos() == 0 && br.availIn == 0
      ensures win.out == [] && win.made == [] && win.availOut == 0 && !noMem && codes == null
      ensures Meaning() == Goes(Decode(inp))
      ensures fresh(br) && fresh(win) && fresh(win.buf) && fresh(hufts)
    {
      hide MaxLen, Shl, Tree, Lsb, FixedLit, FixedDist, LitAlphabet, DistAlphabet, BitsOf, Blocks;
      br := new BitReader(inp);
      win := new Window();
      hufts := new Huft[MANY](i => Huft(0, 0, 0));
      var tl, td, lts, dts := InflateTreesFixed();
      fixedTl, fixedTd, fixedLts, fixedDts := tl, td, lts, dts;
      mode, left, table, index, blens, bb, tb, codes, last := TYPE, 0, 0, 0, [], 0, 0, null, false;
      cl, bts, noMem, turned := [], [], false, false;
    }

    // ---------- invariant ----------

    ghost function Nl(): nat reads this { 257 + Mask(table, 5) }
    ghost function Nd(): nat reads this { 1 + Mask(Shr(table, 5), 5) }
    ghost function Nc(): nat reads this { 4 + Shr(table, 10) }

    ghost predicate Sizes()
      reads this
    {
      Nl() <= 286 && Nd() <= 30 && Nc() <= 19 && |blens| == Nl() + Nd()
    }

    ghost predicate FixedOK()
    {
      && Tree(LitAlphabet(FixedLit()), 9, 9, fixedLts, 0, fixedTl)
      && Tree(DistAlphabet(FixedDist()), 5, 5, fixedDts, 0, fixedTd)
    }

    ghost predicate Base()
      reads this, br, win, win.buf
    {
      br.Valid() && win.Valid() && FixedOK() && hufts.Length == MANY && br.Pos() <= |br.bits|
    }

    ghost predicate ModeOK()
      reads this, br, win, win.buf, hufts, codes
    {
      match mode
      case TYPE => br.bitk < 8
      case LENS => br.bitk <= 24 && br.bitk % 8 == 0
      case STORED => br.kk == 0 && left > 0
      case TABLE => br.bitk < 16
      case BTREE => br.bitk < 16 && Sizes() && index <= Nc() && LengthsRead(cl, blens, index)
      case DTREE => br.bitk < 16 && ModeDtree()
      case CODES => codes != null && codes.br == br && codes.win == win && codes.last == last && codes.Valid()
      case DRY => br.bitk < 8
      case DONE => br.bitk < 8 && |win.out| == |win.made|
      case BAD => true
    }

    ghost predicate Valid()
      reads this, br, win, win.buf, hufts, codes
    {
      Base() && ModeOK()
    }

    /** What inflate makes of the rest of the stream, from the current state. */
    ghost function Meaning(): (m: Outcome)
      reads this, br, win, win.buf, hufts, codes
      requires Valid()
      ensures !m.Unnoticed?
    {
      var bits, pos, out := br.bits, br.Pos(), win.made;
      var r :=
        match mode
        case TYPE => Blocks(bits, pos, out)
        case LENS => StoredLen(bits, last, pos, out)
        case STORED => StoredBytes(bits, last, left, pos, out)
        case TABLE => Header(bits, last, pos, out)
        case BTREE => CodeLens(bits, last, Nl(), Nd(), Nc(), index, cl, pos, out)
        case DTREE => Lens(bits, last, Nl(), Nd(), cl, blens[..index], pos, out)
        case CODES => codes.Meaning()
        case DRY => Done(out, pos)
        case DONE => Done(out, pos)
        case BAD => if turned then Refused(out, pos, Truncated(out)) else Bad(out, pos);
      Goes(r)
    }

    lemma AtBad()
      requires Base() && mode == BAD
      ensures Valid()
      ensures Meaning() == if turned then Refused(win.made, br.Pos(), Truncated(win.made)) else Bad(win.made, br.Pos())
    {
    }

    lemma AtTable()
      requires Base() && mode == TABLE && br.bitk < 16
      ensures Valid() && Meaning() == Goes(Header(br.bits, last, br.Pos(), win.made))
    {
    }

    lemma StoredMeans()
      requires Valid() && mode == STORED
      ensures Base() && br.bitk == br.kk == 0 && left > 0
      ensures Meaning() == Goes(StoredBytes(br.bits, last, left, br.Pos(), win.made))
    {
      hide MaxLen, Shl, Tree, Lsb, StoredBytes, Blocks, BitsOf, Sizes, LengthsRead, FixedOK, Slot, Window.Valid,
           CodesState.Valid, CodesState.Meaning, ModeDtree;
    }

    /** After the stored lengths: the bytes, or the end of the block. */
    lemma AtStored()
      requires Base() && br.kk == 0 && mode == (if left != 0 then STORED else if last then DRY else TYPE)
      ensures Valid() && Meaning() == Goes(StoredBytes(br.bits, last, left, br.Pos(), win.made))
    {
      hide MaxLen, Shl, Tree, Lsb, StoredBytes, Blocks, BitsOf, Sizes, LengthsRead, Next, Slot, FixedOK, Window.Valid,
           CodesState.Valid, CodesState.Meaning, ModeDtree;
      StoredBytesStep(br.bits, last, left, br.Pos(), win.made);
      NextStep(br.bits, last, br.Pos(), win.made);
    }

    lemma BtreeMeans()
      requires Valid() && mode == BTREE
      ensures Base() && br.bitk < 16 && Sizes() && index <= Nc() && LengthsRead(cl, blens, index)
      ensures |cl| == 19 && Lengths(cl)
      ensures Meaning() == Goes(CodeLens(br.bits, last, Nl(), Nd(), Nc(), index, cl, br.Pos(), win.made))
    {
      hide MaxLen, Shl, Shr, Mask, Tree, Lsb, CodeLens, Sane, From, BitsOf, FixedOK, LengthsRead, Window.Valid, Slot,
           CodesState.Valid, CodesState.Meaning, ModeDtree;
      LengthsReadBound(cl, blens, index);
    }

    lemma AtBtree()
      requires Base() && mode == BTREE && br.bitk < 16 && Sizes() && index <= Nc() && LengthsRead(cl, blens, index)
      requires |cl| == 19 && Lengths(cl)
      ensures Valid()
      ensures Meaning() == Goes(CodeLens(br.bits, last, Nl(), Nd(), Nc(), index, cl, br.Pos(), win.made))
    {
      hide MaxLen, Shl, Shr, Mask, Tree, Lsb, CodeLens, Sane, From, BitsOf, FixedOK, LengthsRead, Window.Valid, Slot,
           CodesState.Valid, CodesState.Meaning, ModeDtree;
    }

    lemma DtreeMeans()
      requires Valid() && mode == DTREE
      ensures Base() && br.bitk < 16 && ModeDtree()
      ensures Meaning() == Goes(Lens(br.bits, last, Nl(), Nd(), cl, blens[..index], br.Pos(), win.made))
    {
      hide MaxLen, Shl, Shr, Mask, Tree, Lsb, Lens, Sane, From, BitsOf, FixedOK, BitsAlphabet, LengthsRead,
           Window.Valid, Slot, CodesState.Valid, CodesState.Meaning;
    }

    lemma AtDtree()
      requires Base() && mode == DTREE && br.bitk < 16 && ModeDtree()
      ensures Valid() && Meaning() == Goes(Lens(br.bits, last, Nl(), Nd(), cl, blens[..index], br.Pos(), win.made))
    {
    }

    ghost predicate Starved()
      reads this, br, win, win.buf, hufts, codes
      requires Valid()
    {
      && br.availIn == 0
      && (Stops(Meaning()) ==> Meaning().end + 8 > 8 * br.nextIn)
    }

    ghost predicate Full()
      reads win
    {
      win.availOut == 0 && |win.out| < |win.made|
    }

    /** Whatever is left to decode only adds to the output. */
    lemma Extends()
      requires Valid()
      ensures win.made <= Meaning().out
      ensures win.out <= win.made && br.nextIn + br.availIn <= |br.inp|
      ensures mode == DONE ==> br.bitk < 8 && win.out == win.made && Meaning() == Done(win.out, br.Pos())
    {
      hide Blocks, StoredLen, StoredBytes, Header, CodeLens, Lens, FixedOK, Tree, BitsAlphabet, LengthsRead, Shl, Shr,
           Mask, MaxLen, CodesState.Valid, CodesState.Meaning;
      if mode == CODES { codes.Extends(); }
      if mode == BTREE { LengthsReadBound(cl, blens, index); }
    }

    /** The caller supplies more input and more room. */
    method Grant(input: nat, room: nat)
      requires Valid() && br.nextIn + br.availIn + input <= |br.inp|
      modifies br`availIn, win`availOut
      ensures Valid() && Meaning() == old(Meaning())
      ensures br.availIn == old(br.availIn) + input && win.availOut == old(win.availOut) + room
    {
      hide Blocks, StoredLen, StoredBytes, Header, CodeLens, Lens, FixedOK, Tree, BitsAlphabet, LengthsRead, Shl, Shr,
           Mask, MaxLen, BitsOf, Lsb, CodesState.Valid, CodesState.Meaning;
      br.Grant(input);
      win.Grant(room);
      if mode == CODES { codes.Granted(); }
    }

    // ---------- steps ----------

    lemma FixedGood()
      requires FixedOK()
      ensures CodesState.GoodTables(Codes(FixedLit(), FixedDist()), 9, 5, fixedTl, 0, fixedTd, 0, fixedLts, fixedDts)
    {
    }

    /** inflate_trees_fixed and inflate_codes_new. */
    method NewFixedCodes()
      requires Base() && br.bitk < 16
      modifies this`codes, this`mode
      ensures Valid() && mode == CODES && fresh(codes)
      ensures Meaning() == Goes(Symbols(br.bits, last, Codes(FixedLit(), FixedDist()), br.Pos(), win.made))
    {
      hide MaxLen, Shl, Tree, Lsb, Symbols, Sane, From, FixedLit, FixedDist, BitsOf, LitAlphabet, DistAlphabet,
           CodesState.Walking;
      FixedGood();
      codes := new CodesState(br, win, 9, 5, fixedTl, 0, fixedTd, 0, last,
                              Codes(FixedLit(), FixedDist()), fixedLts, fixedDts);
      mode := CODES;
    }

    /** TYPE: the three header bits. */
    method StepType(r0: int) returns (leave: bool, r: int)
      requires Valid() && mode == TYPE
      modifies this, br
      ensures Valid() && Keeps(old(Meaning()), Meaning())
      ensures br.nextIn + br.availIn == old(br.nextIn + br.availIn) && br.Left() <= old(br.Left())
      ensures (codes == old(codes) || fresh(codes)) && noMem == old(noMem)
      ensures leave ==> if mode == BAD then r == Z_DATA_ERROR else mode == TYPE && Starved() && (r == r0 || r == Z_OK)
      ensures !leave ==> br.Left() < old(br.Left()) && (r == r0 || r == Z_OK) && mode in {LENS, CODES, TABLE}
    {
      hide MaxLen, Shl, Tree, Lsb, Blocks, BitsOf, Sizes, LengthsRead;
      BlocksStep(br.bits, br.Pos(), win.made);
      var ok;
      ok, r := br.NeedBits(3, r0);
      leave := !ok;
      if !ok { return; }
      leave := TakeType();
      if leave { r := Z_DATA_ERROR; }
    }

    method TakeType() returns (bad: bool)
      requires Base() && 3 <= br.bitk < 16 && br.Pos() + 3 <= |br.bits|
      modifies this, br
      ensures Valid() && Keeps(Blocks(br.bits, old(br.Pos()), win.made), Meaning())
      ensures br.nextIn + br.availIn == old(br.nextIn + br.availIn) && br.Left() < old(br.Left())
      ensures (codes == old(codes) || fresh(codes)) && noMem == old(noMem)
      ensures if bad then mode == BAD else mode in {LENS, CODES, TABLE}
    {
      hide MaxLen, Shl, Tree, Lsb, Blocks, StoredLen, Symbols, Sane, From, Header, FixedLit, FixedDist, BitsOf,
           LitAlphabet, DistAlphabet, Sizes, LengthsRead, Valid, Meaning, ModeOK, Slot, Window.Valid;
      ghost var pos := br.Pos();
      BlocksStep(br.bits, pos, win.made);
      TypeBits(br.bits, pos);
      bad := false;
      var t := br.Peek(3);
      last := t % 2 == 1;
      br.DumpBits(3);
      if t / 2 == 0 {
        ToByteBoundary();
      } else if t / 2 == 1 {
        NewFixedCodes();
      } else if t / 2 == 2 {
        mode := TABLE;
        AtTable();
      } else {
        mode, turned := BAD, false;
        bad := true;
        AtBad();
      }
    }

    /** Go to a byte boundary for the stored lengths. */
    method ToByteBoundary()
      requires Base() && br.bitk < 13
      modifies this`mode, br
      ensures Valid() && mode == LENS && br.Pos() == Align(old(br.Pos()))
      ensures Meaning() == Goes(StoredLen(br.bits, last, br.Pos(), win.made))
      ensures br.nextIn + br.availIn == old(br.nextIn + br.availIn) && br.Left() <= old(br.Left())
    {
      hide MaxLen, Shl, Tree, Lsb, BitsOf, FixedOK, Window.Valid, CodesState.Valid, CodesState.Meaning, ModeDtree,
           LengthsRead, Sizes, Slot;
      br.Bounds();
      br.DumpBits(br.bitk % 8);
      mode := LENS;
    }

    /** LENS: LEN and NLEN must be complements. */
    method StepLens(r0: int) returns (leave: bool, r: int)
      requires Valid() && mode == LENS
      modifies this, br
      ensures Valid() && Keeps(old(Meaning()), Meaning())
      ensures br.nextIn + br.availIn == old(br.nextIn + br.availIn) && br.Left() <= old(br.Left())
      ensures codes == old(codes) && noMem == old(noMem)
      ensures leave ==> if mode == BAD then r == Z_DATA_ERROR else mode == LENS && Starved() && (r == r0 || r == Z_OK)
      ensures !leave ==> br.Left() < old(br.Left()) && (r == r0 || r == Z_OK) && mode in {STORED, DRY, TYPE}
    {
      hide MaxLen, Shl, Tree, Lsb, StoredLen, BitsOf, Sizes, LengthsRead;
      StoredLenStep(br.bits, last, br.Pos(), win.made);
      var ok;
      ok, r := br.NeedBits(32, r0);
      leave := !ok;
      if !ok { return; }
      leave := TakeLens();
      if leave { r := Z_DATA_ERROR; }
    }

    method TakeLens() returns (bad: bool)
      requires Base() && br.bitk == 32 && br.Pos() + 32 <= |br.bits|
      modifies this, br
      ensures Valid() && Keeps(StoredLen(br.bits, last, old(br.Pos()), win.made), Meaning()) && last == old(last)
      ensures br.nextIn + br.availIn == old(br.nextIn + br.availIn) && br.Left() <= old(br.Left())
      ensures !bad ==> br.Left() < old(br.Left())
      ensures codes == old(codes) && noMem == old(noMem)
      ensures if bad then mode == BAD else mode in {STORED, DRY, TYPE}
    {
      hide MaxLen, Shl, Tree, Lsb, StoredLen, StoredBytes, Blocks, BitsOf, Slot, FixedOK, Window.Valid, Valid, Meaning,
           ModeOK;
      ghost var pos := br.Pos();
      StoredLenStep(br.bits, last, pos, win.made);
      WordHalves(br);
      bad := false;
      var b := br.bitb;
      if (0xffff_ffff - b) / 0x1_0000 % 0x1_0000 != b % 0x1_0000 {
        mode, turned := BAD, false;
        bad := true;
        AtBad();
      } else {
        left := b % 0x1_0000;
        br.DumpWord();
        mode := if left != 0 then STORED else if last then DRY else TYPE;
        AtStored();
      }
    }

    /** STORED: copy bytes as far as input and output space go. */
    method StepStored(r0: int) returns (leave: bool, r: int)
      requires Valid() && mode == STORED
      modifies this, br, win, win.buf
      ensures Valid() && Meaning() == old(Meaning())
      ensures br.nextIn + br.availIn == old(br.nextIn + br.availIn) && br.Left() <= old(br.Left())
      ensures old(win.out) <= win.out && |win.out| + win.availOut == old(|win.out| + win.availOut)
      ensures codes == old(codes) && noMem == old(noMem)
      ensures leave ==> mode == STORED && (Starved() || Full()) && (r == r0 || r == Z_OK)
      ensures !leave ==> br.Left() < old(br.Left()) && r == Z_OK && mode in {STORED, DRY, TYPE}
    {
      hide MaxLen, Shl, Tree, Lsb, StoredBytes, Blocks, BitsOf, FixedOK, Slot, Valid, Meaning, ModeOK, BitReader.Valid,
           Window.Valid, Sane, From;
      r := r0;
      StoredMeans();
      StoredBytesStep(br.bits, last, left, br.Pos(), win.made);
      if br.availIn == 0 {
        leave := true;
        return;
      }
      var ok;
      ok, r := win.NeedOut(r);
      leave := !ok;
      if !ok {
        AtStored();
        return;
      }
      var t := left;
      if t > br.availIn { t := br.availIn; }
      if t > win.Room() { t := win.Room(); }
      CopyStored(t);
      left := left - t;
      if left == 0 { mode := if last then DRY else TYPE; }
      AtStored();
    }

    /** memcpy(q, p, t). */
    method CopyStored(t: nat)
      requires br.Valid() && win.Valid() && br.kk == 0 && 1 <= t <= left
      requires t <= br.availIn && t <= win.Room() && br.Pos() <= |br.bits|
      modifies br, win`write, win`made, win.buf
      ensures br.Valid() && win.Valid() && br.kk == 0 && br.Pos() <= |br.bits|
      ensures br.nextIn + br.availIn == old(br.nextIn + br.availIn) && br.Left() < old(br.Left())
      ensures StoredBytes(br.bits, last, left - t, br.Pos(), win.made)
              == old(StoredBytes(br.bits, last, left, br.Pos(), win.made))
      ensures old(win.made) <= win.made
    {
      hide Shl, Lsb, StoredBytes, BitsOf, Sane, From, MaxLen, Slot;
      var i: nat := 0;
      while i < t
        invariant i <= t && br.Valid() && win.Valid() && br.kk == 0 && br.Pos() <= |br.bits|
        invariant br.availIn == old(br.availIn) - i && win.Room() == old(win.Room()) - i
        invariant br.nextIn + br.availIn == old(br.nextIn + br.availIn)
        invariant br.Left() == old(br.Left()) - 8 * i
        invariant StoredBytes(br.bits, last, left - i, br.Pos(), win.made)
                  == old(StoredBytes(br.bits, last, left, br.Pos(), win.made))
        invariant old(win.made) <= win.made
      {
        br.Bounds();
        StoredBytesStep(br.bits, last, left - i, br.Pos(), win.made);
        var b := br.TakeByte();
        win.OutByte(b);
        i := i + 1;
      }
    }

    /** TABLE: the sizes of the dynamic block header. */
    method StepTable(r0: int) returns (leave: bool, r: int)
      requires Valid() && mode == TABLE
      modifies this, br
      ensures Valid() && Keeps(old(Meaning()), Meaning())
      ensures br.nextIn + br.availIn == old(br.nextIn + br.availIn) && br.Left() <= old(br.Left())
      ensures codes == old(codes) && noMem == old(noMem)
      ensures leave ==> if mode == BAD then r == Z_DATA_ERROR else mode == TABLE && Starved() && (r == r0 || r == Z_OK)
      ensures !leave ==> br.Left() < old(br.Left()) && (r == r0 || r == Z_OK) && mode == BTREE
    {
      hide MaxLen, Shl, Shr, Mask, Tree, Lsb, Header, BitsOf, Sizes, LengthsRead;
      HeaderStep(br.bits, last, br.Pos(), win.made);
      var ok;
      ok, r := br.NeedBits(14, r0);
      leave := !ok;
      if !ok { return; }
      leave := TakeTable();
      if leave { r := Z_DATA_ERROR; }
    }

    method TakeTable() returns (bad: bool)
      requires Base() && 14 <= br.bitk <= 22 && br.Pos() + 14 <= |br.bits|
      modifies this, br
      ensures Valid() && Keeps(Header(br.bits, last, old(br.Pos()), win.made), Meaning()) && last == old(last)
      ensures br.nextIn + br.availIn == old(br.nextIn + br.availIn) && br.Left() <= old(br.Left())
      ensures !bad ==> br.Left() < old(br.Left())
      ensures codes == old(codes) && noMem == old(noMem)
      ensures if bad then mode == BAD else mode == BTREE
    {
      hide MaxLen, Shl, Shr, Mask, Tree, Lsb, Header, CodeLens, Sane, From, BitsOf, FixedOK, LengthsRead, Valid,
           Meaning, ModeOK, Slot, Window.Valid;
      ghost var pos := br.Pos();
      HeaderStep(br.bits, last, pos, win.made);
      table := br.Peek(14);
      TableFields(br.bits, pos);
      var t := table;
      bad := Mask(t, 5) > 29 || Mask(Shr(t, 5), 5) > 29;
      if bad {
        mode, turned := BAD, Mask(t, 5) <= 29;
        AtBad();
        return;
      }
      br.DumpBits(14);
      NewLengths(258 + Mask(t, 5) + Mask(Shr(t, 5), 5), Nl(), Nd(), Nc());
    }

    /** Room for all code lengths; those of the code length code come first. */
    method NewLengths(n: nat, ghost nl: nat, ghost nd: nat, ghost nc: nat)
      requires Base() && br.bitk < 16 && nl == Nl() && nd == Nd() && nc == Nc()
      requires n == nl + nd && 257 <= nl <= 286 && 1 <= nd <= 30 && nc <= 19
      modifies this`blens, this`index, this`cl, this`mode
      ensures cl == seq(19, i => 0) && Lengths(cl)
      ensures Valid() && mode == BTREE
      ensures Meaning() == Goes(CodeLens(br.bits, last, nl, nd, nc, 0, cl, br.Pos(), win.made))
    {
      hide MaxLen, Shl, Shr, Mask, Tree, Lsb, Header, CodeLens, Sane, From, BitsOf, FixedOK, LengthsRead;
      blens := seq(n, i => 0);
      index := 0;
      cl := seq(19, i => 0);
      assert cl == seq(19, i => 0);
      NoneRead(cl, blens);
      mode := BTREE;
    }

    /** BTREE: one three-bit length of the code length code. */
    method StepBtree(r0: int) returns (leave: bool, r: int)
      requires Valid() && mode == BTREE && index < Nc()
      modifies this, br
      ensures Valid() && Meaning() == old(Meaning())
      ensures br.nextIn + br.availIn == old(br.nextIn + br.availIn) && br.Left() <= old(br.Left())
      ensures codes == old(codes) && noMem == old(noMem)
      ensures mode == BTREE && (r == r0 || r == Z_OK)
      ensures leave ==> Starved()
      ensures !leave ==> br.Left() < old(br.Left())
    {
      hide MaxLen, Shl, Shr, Mask, Tree, Lsb, CodeLens, Sane, From, BitsOf, LengthsRead, FixedOK;
      LengthsReadBound(cl, blens, index);
      CodeLensStep(br.bits, last, Nl(), Nd(), Nc(), index, cl, br.Pos(), win.made);
      var ok;
      ok, r := br.NeedBits(3, r0);
      leave := !ok;
      if !ok { return; }
      TakeBtree();
    }

    method TakeBtree()
      requires Valid() && mode == BTREE && index < Nc() && br.bitk >= 3 && br.Pos() + 3 <= |br.bits|
      modifies this`blens, this`cl, this`index, br
      ensures Valid() && Meaning() == old(Meaning())
      ensures br.nextIn + br.availIn == old(br.nextIn + br.availIn) && br.Left() < old(br.Left())
    {
      hide MaxLen, Shl, Shr, Mask, Tree, Lsb, CodeLens, Sane, From, BitsOf, LengthsRead, FixedOK, Window.Valid, Valid,
           Meaning, ModeOK, Slot;
      BtreeMeans();
      LengthsReadBound(cl, blens, index);
      CodeLensStep(br.bits, last, Nl(), Nd(), Nc(), index, cl, br.Pos(), win.made);
      var v := br.Peek(3);
      LengthRead(cl, blens, index, v);
      blens := blens[BORDER[index] := v];
      cl := cl[BORDER[index] := v];
      index := index + 1;
      br.DumpBits(3);
      AtBtree();
    }

    /** BTREE, all lengths read: the others are zero; build the bit length tree. */
    method FinishBtree() returns (bad: bool)
      requires Valid() && mode == BTREE && index == Nc()
      modifies this, hufts
      ensures Valid() && Keeps(old(Meaning()), Meaning())
      ensures codes == old(codes) && noMem == old(noMem)
      ensures if bad then mode == BAD else mode == DTREE
    {
      hide MaxLen, Shl, Shr, Mask, Tree, Lsb, CodeLens, Lens, Sane, From, BitsOf, LengthsRead, FixedOK, Kraft;
      LengthsReadBound(cl, blens, index);
      CodeLensStep(br.bits, last, Nl(), Nd(), Nc(), index, cl, br.Pos(), win.made);
      ZeroRest();
      AllLengths(cl, blens);
      bad := BuildBtree(Nl(), Nd());
    }

    /** while (index < 19) blens[border[index++]] = 0. */
    method ZeroRest()
      requires index <= 19 && LengthsRead(cl, blens, index)
      modifies this`blens, this`index
      ensures index == 19 && LengthsRead(cl, blens, 19) && |blens| == old(|blens|)
    {
      hide LengthsRead;
      LengthsReadBound(cl, blens, index);
      while index < 19
        invariant index <= 19 && |blens| == old(|blens|) >= 19 && LengthsRead(cl, blens, index)
      {
        LengthZero(cl, blens, index);
        blens := blens[BORDER[index] := 0];
        index := index + 1;
      }
    }

    /** inflate_trees_bits. */
    method BuildBtree(ghost nl: nat, ghost nd: nat) returns (bad: bool)
      requires 257 <= nl <= 286 && 1 <= nd <= 30 && |cl| == 19 && Lengths(cl) && MaxLen(cl) <= 7
      requires |blens| == nl + nd && blens[..19] == cl && mode == BTREE
      requires Base() && br.bitk < 16 && nl == Nl() && nd == Nd() && Sizes()
      modifies this`bb, this`tb, this`bts, this`index, this`mode, this`turned, hufts
      ensures Valid()
      ensures Meaning() == if Usable(cl) then Goes(Lens(br.bits, last, nl, nd, cl, [], br.Pos(), win.made))
                          else Bad(win.made, br.Pos())
      ensures if bad then mode == BAD else mode == DTREE
    {
      hide MaxLen, Shl, Shr, Mask, Tree, Lsb, CodeLens, Lens, Sane, From, BitsOf, LengthsRead, FixedOK, Kraft, Usable,
           BitsAlphabet, Slot, Valid, Meaning, ModeOK, Window.Valid, BitReader.Valid, BitReader.Pos, Goes;
      bad := BuildBits();
      index := 0;
      assert blens[..0] == [];
      mode, turned := if bad then BAD else DTREE, false;
      if bad { AtBad(); } else { AtDtree(); }
    }

    method BuildBits() returns (bad: bool)
      requires |cl| == 19 && Lengths(cl) && MaxLen(cl) <= 7 && |blens| >= 19 && blens[..19] == cl
               && hufts.Length == MANY
      modifies this`bb, this`tb, this`bts, hufts
      ensures bad == !Usable(cl)
      ensures !bad ==> Tree(BitsAlphabet(cl), 7, bb, bts, tb, hufts[..]) && bb == MaxLen(cl)
    {
      hide MaxLen, Shl, Tree, Kraft, Usable, BitsAlphabet;
      var r;
      r, bb, tb, bts := InflateTreesBits(blens[..19], hufts);
      bad := r != Z_OK;
    }

    /** DTREE: one code length or one run of repeated lengths. */
    method StepDtree(r0: int) returns (leave: bool, r: int)
      requires Valid() && mode == DTREE && index < Nl() + Nd() && !noMem
      modifies this, br
      ensures Valid() && Keeps(old(Meaning()), Meaning())
      ensures br.nextIn + br.availIn == old(br.nextIn + br.availIn) && br.Left() <= old(br.Left())
      ensures codes == old(codes) && noMem == old(noMem)
      ensures leave ==> if mode == BAD then r == Z_DATA_ERROR else mode == DTREE && Starved() && (r == r0 || r == Z_OK)
      ensures !leave ==> br.Left() < old(br.Left()) && (r == r0 || r == Z_OK) && mode == DTREE
    {
      hide MaxLen, Shl, Shr, Mask, Tree, Lsb, Lens, Sane, From, BitsOf, FixedOK, DecodeSym, BitsAlphabet, LengthsRead,
           Window.Valid, Slot, LensMore, LensCode, OnlySymbol, Valid, Meaning, ModeOK;
      DtreeMeans();
      ghost var pos := br.Pos();
      LensStep(br.bits, last, Nl(), Nd(), cl, blens[..index], pos, win.made);
      BitsWidth(cl, bb, bts, tb, hufts[..]);
      var t := bb;
      var ok;
      ok, r := br.NeedBits(t, r0);
      leave := !ok;
      if !ok {
        AtDtree();
        return;
      }
      br.Bounds();
      BitsLookup(br.bits, cl, bb, bts, tb, hufts[..], pos);
      var h := hufts[tb + br.Peek(t)];
      var c := h.base;
      if c < 16 {
        LensMoreStep(br.bits, last, Nl(), Nd(), cl, blens[..index], c, pos + h.bits, win.made);
        TakeLength(c, h.bits);
      } else {
        leave, r := StepRepeat(c, h.bits, r, pos, old(Meaning()));
      }
    }

    /** DTREE: a code length c of t bits in the buffer. */
    method TakeLength(c: nat, t: nat)
      requires index < |blens| && mode == DTREE && Base() && ModeDtree() && br.bitk < 16
      requires c < 16 && 1 <= t <= br.bitk && br.Pos() + t <= |br.bits|
      modifies this`blens, this`index, br
      ensures index == old(index) + 1 && |blens| == old(|blens|)
      ensures blens[..index] == old(blens[..index]) + [c]
      ensures Base() && ModeDtree() && mode == DTREE
      ensures Valid() && br.Pos() == old(br.Pos()) + t
      ensures Meaning() == Goes(Lens(br.bits, last, Nl(), Nd(), cl, blens[..index], br.Pos(), win.made))
      ensures br.nextIn + br.availIn == old(br.nextIn + br.availIn) && br.Left() < old(br.Left())
    {
      hide MaxLen, Shl, Shr, Mask, Tree, Lsb, Lens, Sane, From, BitsOf, FixedOK, DecodeSym, BitsAlphabet, LengthsRead,
           Valid, Meaning, ModeOK, Window.Valid, Slot;
      br.DumpBits(t);
      blens := blens[index := c];
      index := index + 1;
      assert blens[..index] == old(blens[..index]) + [c];
      AtDtree();
    }

    /** DTREE: a repeat code c of t bits that is still in the buffer. */
    method StepRepeat(c: nat, t: nat, r0: int, ghost pos: nat, ghost before: Outcome) returns (leave: bool, r: int)
      requires Base() && ModeDtree() && index < Nl() + Nd() && mode == DTREE
      requires pos == br.Pos() && 1 <= t <= 7 && t <= br.bitk < 16 && 16 <= c <= 18 && pos <= |br.bits|
      requires LensCode(cl, br.bits, pos) == Symbol(c, t)
      requires before == Goes(Lens(br.bits, last, Nl(), Nd(), cl, blens[..index], pos, win.made))
      modifies this, br
      ensures Valid() && Keeps(before, Meaning())
      ensures br.nextIn + br.availIn == old(br.nextIn + br.availIn) && br.Left() <= old(br.Left())
      ensures codes == old(codes) && noMem == old(noMem)
      ensures leave ==> if mode == BAD then r == Z_DATA_ERROR else mode == DTREE && Starved() && (r == r0 || r == Z_OK)
      ensures !leave ==> br.Left() < old(br.Left()) && (r == r0 || r == Z_OK) && mode == DTREE
    {
      hide MaxLen, Shl, Shr, Mask, Tree, Lsb, Lens, Sane, From, BitsOf, FixedOK, DecodeSym, BitsAlphabet, LengthsRead,
           LensMore, LensCode, Window.Valid, Slot, CodesState.Valid, CodesState.Meaning;
      LensStep(br.bits, last, Nl(), Nd(), cl, blens[..index], pos, win.made);
      LensMoreStep(br.bits, last, Nl(), Nd(), cl, blens[..index], c, pos + t, win.made);
      br.Bounds();
      var i := if c == 18 then 7 else c - 14;
      var ok;
      ok, r := br.NeedBits(t + i, r0);
      leave := !ok;
      if !ok { return; }
      leave := TakeRepeat(c, t, i, before);
      if leave { r := Z_DATA_ERROR; }
    }

    /** How often the length is repeated: past the t bits of the code, i extra bits. */
    method RepeatCount(c: nat, t: nat, i: nat) returns (j: nat)
      requires br.Valid() && i == RepeatBits(c) && 16 <= c <= 18 && t + i <= br.bitk && br.Pos() + t + i <= |br.bits|
      modifies br`bitb, br`bitk, br`kk
      ensures br.Valid() && br.Pos() == old(br.Pos()) + t + i && br.Left() == old(br.Left()) - (t + i)
      ensures br.bitk == old(br.bitk) - (t + i)
      ensures j == RepeatBase(c) + Lsb(br.bits, old(br.Pos()) + t, i)
    {
      hide Lsb, Mask, Shl;
      br.DumpBits(t);
      j := if c == 18 then 11 else 3;
      j := j + br.Peek(i);
      br.DumpBits(i);
    }

    /** DTREE: a repeat code with its extra bits in the buffer. */
    method TakeRepeat(c: nat, t: nat, i: nat, ghost before: Outcome) returns (bad: bool)
      requires Base() && ModeDtree() && index < Nl() + Nd() && mode == DTREE
      requires 1 <= t <= 7 && 16 <= c <= 18 && i == RepeatBits(c) && t + i <= br.bitk
               && (br.bitk < 16 || br.bitk <= t + i + 7)
      requires br.Pos() + t + i <= |br.bits|
      requires LensCode(cl, br.bits, br.Pos()) == Symbol(c, t)
      requires before == Goes(Lens(br.bits, last, Nl(), Nd(), cl, blens[..index], br.Pos(), win.made))
      modifies this`mode, this`turned, this`blens, this`index, br
      ensures Valid() && Keeps(before, Meaning())
      ensures br.nextIn + br.availIn == old(br.nextIn + br.availIn) && br.Left() < old(br.Left())
      ensures codes == old(codes) && noMem == old(noMem)
      ensures mode == if bad then BAD else DTREE
    {
      hide MaxLen, Shl, Shr, Mask, Tree, Lsb, Lens, Sane, From, BitsOf, FixedOK, DecodeSym, BitsAlphabet, LengthsRead,
           Repeat, Slot, Valid, Meaning, ModeOK, Window.Valid, BitReader.Valid, BitReader.Pos;
      ghost var acc, pos := blens[..index], br.Pos();
      var j := RepeatCount(c, t, i);
      RepeatStep(br.bits, last, Nl(), Nd(), cl, acc, pos, win.made, c, t, j);
      bad := index + j > 258 + Mask(table, 5) + Mask(Shr(table, 5), 5) || (c == 16 && index < 1);
      if bad {
        mode, turned := BAD, false;
        AtBad();
      } else {
        FillRepeat(if c == 16 then blens[index - 1] else 0, j);
        AtDtree();
      }
    }

    /** The bit length tree and the lengths read so far. */
    ghost predicate ModeDtree()
      reads this, hufts
    {
      && Sizes() && index <= Nl() + Nd() && Lengths(blens[..index])
      && |cl| == 19 && Lengths(cl)
      && (noMem || (Usable(cl) && Tree(BitsAlphabet(cl), 7, bb, bts, tb, hufts[..]) && bb == MaxLen(cl)))
    }

    /** do blens[i++] = c while (--j). */
    method FillRepeat(c: nat, j0: nat)
      requires Sizes() && index + j0 <= Nl() + Nd() && Lengths(blens[..index]) && c <= MAX_BITS
      modifies this`blens, this`index
      ensures Sizes() && index == old(index) + j0 && Lengths(blens[..index])
      ensures blens[..index] == old(blens[..index]) + Repeat(c, j0)
    {
      var i, j := index, j0;
      while j > 0
        invariant 0 <= j <= j0 && i == index + (j0 - j) && index == old(index)
        invariant |blens| == |old(blens)| && blens[..i] == old(blens[..index]) + Repeat(c, j0 - j)
      {
        blens := blens[i := c];
        i := i + 1;
        j := j - 1;
        assert blens[..i] == old(blens[..index]) + Repeat(c, j0 - j);
      }
      index := i;
    }

    /** DTREE, all lengths read: build the literal/length and distance trees. */
    method FinishDtree() returns (r: int)
      requires Valid() && mode == DTREE && index == Nl() + Nd() && !noMem
      modifies this, hufts
      ensures Valid() && Keeps(old(Meaning()), Meaning())
      ensures codes == old(codes) || fresh(codes)
      ensures r in {Z_OK, Z_DATA_ERROR, Z_MEM_ERROR}
      ensures mode == (if r == Z_OK then CODES else if r == Z_DATA_ERROR then BAD else DTREE)
      ensures noMem == (r == Z_MEM_ERROR) && (noMem ==> BadHere(Meaning(), win.made, br.Pos()))
    {
      hide MaxLen, Shl, Shr, Mask, Tree, Lsb, Lens, Trees, Symbols, Sane, From, BitsOf, FixedOK, DecodeSym, LitAlphabet,
           DistAlphabet, BitsAlphabet, LengthsRead, GoodTrees, EmptyDistances, NoMemory, ClampedWidth, Overflows,
           CodesState.Walking, Window.Valid, Slot, Valid, Meaning, ModeOK;
      DtreeMeans();
      var nl, nd := 257 + Mask(table, 5), 1 + Mask(Shr(table, 5), 5);
      assert blens[..index] == blens;
      var ll, dl := blens[..nl], blens[nl..];
      LensStep(br.bits, last, nl, nd, cl, blens, br.Pos(), win.made);
      TreesStep(br.bits, last, ll, dl, br.Pos(), win.made);
      var bl, bd, tl, td;
      ghost var lts, dts;
      r, bl, bd, tl, td, lts, dts := InflateTreesDynamic(nl, nd, blens, hufts);
      if r == Z_MEM_ERROR {
        noMem := true;
        AtDtree();
      } else if r == Z_DATA_ERROR {
        mode, turned := BAD, GoodTrees(ll, dl);
        AtBad();
      } else {
        GoodCodes(ll, dl, bl, bd, hufts[..], tl, td, lts, dts);
        NewDynamicCodes(ll, dl, bl, bd, tl, td, lts, dts);
      }
    }

    lemma GoodCodes(ll: seq<nat>, dl: seq<nat>, bl: nat, bd: nat, pool: seq<Huft>, tl: nat, td: nat,
                    lts: seq<Tab>, dts: seq<Tab>)
      requires Lengths(ll) && Lengths(dl) && 257 <= |ll| <= 286 && 1 <= |dl| <= 30 && GoodTrees(ll, dl)
               && !EmptyDistances(ll, dl)
      requires Tree(LitAlphabet(ll), 9, bl, lts, tl, pool)
      requires Usable(dl) ==> Tree(DistAlphabet(dl), 6, bd, dts, td, pool)
      ensures CodesState.GoodTables(Codes(ll, dl), bl, bd, pool, tl, pool, td, lts, dts)
    {
    }

    method NewDynamicCodes(ll: seq<nat>, dl: seq<nat>, bl: nat, bd: nat, tl: nat, td: nat,
                           ghost lts: seq<Tab>, ghost dts: seq<Tab>)
      requires Base() && br.bitk < 16
      requires CodesState.GoodTables(Codes(ll, dl), bl, bd, hufts[..], tl, hufts[..], td, lts, dts)
      modifies this`codes, this`mode
      ensures Valid() && mode == CODES && fresh(codes)
      ensures Meaning() == Goes(Symbols(br.bits, last, Codes(ll, dl), br.Pos(), win.made))
    {
      hide MaxLen, Shl, Tree, Lsb, Symbols, Sane, From, BitsOf, LitAlphabet, DistAlphabet, CodesState.Walking, FixedOK;
      codes := new CodesState(br, win, bl, bd, hufts[..], tl, hufts[..], td, last, Codes(ll, dl), lts, dts);
      mode := CODES;
    }

    /** CODES: decode the block; at its end go on to the next or finish. */
    method StepCodes(r0: int) returns (leave: bool, r: int)
      requires Valid() && mode == CODES && r0 in {Z_OK, Z_BUF_ERROR}
      modifies this, br, win, win.buf, codes
      ensures Valid() && Keeps(old(Meaning()), Meaning())
      ensures br.nextIn + br.availIn == old(br.nextIn + br.availIn) && br.Left() <= old(br.Left())
      ensures old(win.out) <= win.out && |win.out| + win.availOut == old(|win.out| + win.availOut)
      ensures codes == old(codes) && noMem == old(noMem)
      ensures leave ==> mode == CODES
      ensures leave ==> if r == Z_DATA_ERROR then BadHere(Meaning(), win.made, br.Pos())
              else r in {Z_OK, Z_BUF_ERROR} && (Starved() || Full())
      ensures !leave ==> r == Z_OK && mode in {TYPE, DRY}
    {
      hide MaxLen, Shl, Tree, Lsb, Symbols, Sane, From, Blocks, BitsOf, LitAlphabet, DistAlphabet, CodesState.Walking,
           CodesState.Tables, FixedOK, Sizes, ModeDtree, LengthsRead;
      r := codes.InflateCodes(r0);
      leave := r != Z_STREAM_END;
      if leave { return; }
      r := Z_OK;
      NextStep(br.bits, last, br.Pos(), win.made);
      mode := if last then DRY else TYPE;
    }

    /** DRY: wait until all output is handed over. */
    method StepDry(r0: int) returns (leave: bool, r: int)
      requires Valid() && mode == DRY && r0 in {Z_OK, Z_BUF_ERROR}
      modifies this`mode, win
      ensures Valid() && Meaning() == old(Meaning())
      ensures old(win.out) <= win.out && |win.out| + win.availOut == old(|win.out| + win.availOut)
      ensures leave ==> mode == DRY && Full()
      ensures !leave ==> mode == DONE && |win.out| == |win.made|
      ensures r in {Z_OK, Z_BUF_ERROR}
    {
      hide MaxLen, Shl, Tree, Lsb, Symbols, Sane, From, Blocks, BitsOf, CodesState.Walking, CodesState.Tables, FixedOK,
           Sizes, ModeDtree, LengthsRead;
      r := win.Flush(r0);
      leave := win.read != win.write;
      if leave { return; }
      mode := DONE;
    }

    /** Measure of the modes between two units of input. */
    static function Rank(m: BlockMode): nat
    {
      match m
      case BTREE => 5
      case DTREE => 4
      case CODES => 3
      case TYPE => 2
      case LENS => 2
      case STORED => 2
      case TABLE => 2
      case DRY => 1
      case DONE => 0
      case BAD => 0
    }

    /** Why inflate_blocks returns: end of stream with all output handed over, bad
        data, no memory for tables, or no input or no output space. */
    ghost predicate Left1(r: int)
      reads this, br, win, win.buf, hufts, codes
      requires Valid()
    {
      && noMem == (r == Z_MEM_ERROR)
      && if r == Z_STREAM_END then mode == DONE
         else if r == Z_DATA_ERROR then Fails(Meaning()) && Meaning().out == win.made
         else if r == Z_MEM_ERROR then BadHere(Meaning(), win.made, br.Pos())
         else r in {Z_OK, Z_BUF_ERROR} && (Starved() || Full())
    }

    /** What every step leaves alone, and what it hands over. */
    twostate predicate Steady()
      reads this, br, win
    {
      && br.nextIn + br.availIn == old(br.nextIn + br.availIn) && br.Left() <= old(br.Left())
      && old(win.out) <= win.out && |win.out| + win.availOut == old(|win.out| + win.availOut)
      && (codes == old(codes) || fresh(codes))
    }

    /** BTREE and DTREE: another code length, or the tree they make. */
    method StepTrees(r0: int) returns (leave: bool, r: int)
      requires Valid() && mode in {BTREE, DTREE} && !noMem && r0 in {Z_OK, Z_BUF_ERROR}
      modifies this, br, hufts
      ensures Valid() && Keeps(old(Meaning()), Meaning()) && Steady()
      ensures leave ==> Left1(r)
      ensures !leave ==> r in {Z_OK, Z_BUF_ERROR} && !noMem
      ensures !leave ==> br.Left() < old(br.Left()) || (br.Left() == old(br.Left()) && Rank(mode) < Rank(old(mode)))
    {
      hide MaxLen, Shl, Shr, Mask, Tree, Lsb, Lens, CodeLens, Symbols, Sane, From, BitsOf, FixedOK, LitAlphabet,
           DistAlphabet, BitsAlphabet, LengthsRead, CodesState.Walking, CodesState.Tables;
      leave, r := false, r0;
      if mode == BTREE {
        if index < 4 + Shr(table, 10) {
          leave, r := StepBtree(r);
        } else {
          leave := FinishBtree();
          if leave { r := Z_DATA_ERROR; }
        }
      } else if index < 258 + Mask(table, 5) + Mask(Shr(table, 5), 5) {
        leave, r := StepDtree(r);
      } else {
        var t := FinishDtree();
        leave := t != Z_OK;
        if leave { r := t; }
      }
    }

    lemma BadLeft()
      requires Valid() && mode == BAD && !noMem
      ensures Left1(Z_DATA_ERROR)
    {
      hide MaxLen, Shl, Shr, Mask, Tree, Lsb, Lens, CodeLens, StoredLen, StoredBytes, Blocks, Header, Sane, From,
           BitsOf;
      hide FixedOK, LengthsRead, Slot, Window.Valid, BitReader.Valid, CodesState.Valid, CodesState.Meaning, ModeDtree;
    }

    /** One turn of for (;;) switch (s->mode). */
    method Step(r0: int) returns (leave: bool, r: int)
      requires Valid() && !noMem && r0 in {Z_OK, Z_BUF_ERROR}
      modifies this, br, win, win.buf, hufts, codes
      ensures Valid() && Keeps(old(Meaning()), Meaning()) && Steady()
      ensures leave ==> Left1(r)
      ensures !leave ==> r in {Z_OK, Z_BUF_ERROR} && !noMem
      ensures !leave ==> br.Left() < old(br.Left()) || (br.Left() == old(br.Left()) && Rank(mode) < Rank(old(mode)))
    {
      hide MaxLen, Shl, Shr, Mask, Tree, Lsb, Lens, CodeLens, Symbols, Sane, From, Blocks, StoredLen, StoredBytes,
           Header, BitsOf, FixedOK, Sizes, LengthsRead, ModeDtree, CodesState.Valid, CodesState.Meaning, Window.Valid,
           BitReader.Valid, Slot, Valid, Meaning, ModeOK, Base;
      leave, r := false, r0;
      match mode
      case TYPE =>
        leave, r := StepType(r);
        if leave && mode == BAD { BadLeft(); }
      case LENS =>
        leave, r := StepLens(r);
        if leave && mode == BAD { BadLeft(); }
      case STORED => leave, r := StepStored(r);
      case TABLE =>
        leave, r := StepTable(r);
        if leave && mode == BAD { BadLeft(); }
      case BTREE => leave, r := StepTrees(r);
      case DTREE => leave, r := StepTrees(r);
      case CODES => leave, r := StepCodes(r);
      case DRY => leave, r := StepDry(r);
      case DONE => leave, r := true, Z_STREAM_END;
      case BAD =>
        leave, r := true, Z_DATA_ERROR;
        BadLeft();
    }

    /** inflate_blocks: go on until the stream ends, is found bad, or input or output
        space runs out; whatever stops it, the rest of the stream means the same. */
    method InflateBlocks(r0: int) returns (r: int)
      requires Valid() && !noMem && r0 in {Z_OK, Z_BUF_ERROR}
      modifies this, br, win, win.buf, hufts, codes
      ensures Valid() && Keeps(old(Meaning()), Meaning()) && Steady()
      ensures Left1(r)
    {
      hide MaxLen, Shl, Shr, Mask, Tree, Lsb, Lens, CodeLens, Symbols, Sane, From, Blocks, StoredLen, StoredBytes,
           Header, BitsOf, FixedOK, Sizes, LengthsRead, ModeDtree, CodesState.Valid, CodesState.Meaning;
      var leave := false;
      r := r0;
      while !leave
        invariant Valid() && Keeps(old(Meaning()), Meaning()) && Steady()
        invariant if leave then Left1(r) else r in {Z_OK, Z_BUF_ERROR} && !noMem
        decreases !leave, br.Left(), Rank(mode)
      {
        leave, r := Step(r);
      }
      r := LeaveFlush(r);
    }

    /** The flush at LEAVE changes nothing but how much is handed over. */
    method LeaveFlush(r0: int) returns (r: int)
      requires Valid() && Left1(r0)
      modifies win
      ensures Valid() && Meaning() == old(Meaning()) && Steady() && Left1(r)
    {
      hide MaxLen, Shl, Shr, Mask, Tree, Lsb, Lens, CodeLens, Symbols, Sane, From, Blocks, StoredLen, StoredBytes,
           Header, BitsOf, FixedOK, Sizes, LengthsRead, ModeDtree, Slot, BitReader.Valid, CodesState.Valid,
           CodesState.Meaning, CodesState.Base;
      r := win.Flush(r0);
      if mode == CODES { codes.Granted(); }
    }
  }

  lemma BitsWidth(cl: seq<nat>, bb: nat, ts: seq<Tab>, tb: nat, pool: seq<Huft>)
    requires |cl| == 19 && Tree(BitsAlphabet(cl), 7, bb, ts, tb, pool)
    ensures 1 <= bb <= 7
  {
  }

  lemma NoneRead(cl: seq<nat>, blens: seq<nat>)
    requires |cl| == 19 && (forall x | 0 <= x < 19 :: cl[x] == 0) && |blens| >= 19
    ensures LengthsRead(cl, blens, 0)
  {
  }

  lemma LengthsReadBound(cl: seq<nat>, blens: seq<nat>, index: nat)
    requires LengthsRead(cl, blens, index)
    ensures |cl| == 19 && Lengths(cl) && MaxLen(cl) <= 7 && |blens| >= 19
  {
  }

  lemma LengthRead(cl: seq<nat>, blens: seq<nat>, index: nat, v: nat)
    requires LengthsRead(cl, blens, index) && index < 19 && v < 8
    ensures LengthsRead(cl[BORDER[index] := v], blens[BORDER[index] := v], index + 1)
  {
    forall t {:trigger BORDER[t]} | 0 <= t < 19 && t != index
      ensures BORDER[t] != BORDER[index]
    {
      BorderOnce(t, index);
    }
  }

  lemma LengthZero(cl: seq<nat>, blens: seq<nat>, index: nat)
    requires LengthsRead(cl, blens, index) && index < 19
    ensures LengthsRead(cl, blens[BORDER[index] := 0], index + 1)
  {
    forall t {:trigger BORDER[t]} | 0 <= t < 19 && t != index
      ensures BORDER[t] != BORDER[index]
    {
      BorderOnce(t, index);
    }
  }

  lemma AllLengths(cl: seq<nat>, blens: seq<nat>)
    requires LengthsRead(cl, blens, 19)
    ensures blens[..19] == cl
  {
    forall x | 0 <= x < 19
      ensures blens[x] == cl[x]
    {
      var t := BorderCovers(x);
    }
  }

  /** The three fields of the 14 header bits. */
  lemma TableFields(bits: seq<bit>, pos: nat)
    requires pos + 14 <= |bits|
    ensures var t := Lsb(bits, pos, 14);
            && Mask(t, 5) == Lsb(bits, pos, 5)
            && Mask(Shr(t, 5), 5) == Lsb(bits, pos + 5, 5)
            && Shr(t, 10) == Lsb(bits, pos + 10, 4)
  {
    hide Shl, Shr, Mask, Lsb;
    LsbSplit(bits, pos, 5, 9);
    LsbSplit(bits, pos + 5, 5, 4);
    LsbSplit(bits, pos, 10, 4);
  }

  /** The two halves of a full bit buffer. */
  lemma WordHalves(br: BitReader)
    requires br.Valid() && br.bitk == 32
    ensures br.Pos() + 32 <= |br.bits| && br.bitb < WORD
    ensures br.bitb % 0x1_0000 == Lsb(br.bits, br.Pos(), 16)
    ensures br.bitb / 0x1_0000 == Lsb(br.bits, br.Pos() + 16, 16)
  {
    hide Shl, Lsb, Mask, Shr, BitsOf;
    br.Bounds();
    LsbConcat(br.bits, br.Pos(), 16, 16);
    LsbBound(br.bits, br.Pos(), 16);
    Pow2Values();
    Shl16(Lsb(br.bits, br.Pos() + 16, 16));
  }

  lemma Shl16(v: nat)
    ensures Shl(v, 16) == v * 0x1_0000
  {
    ShlShl(v, 8, 8);
    assert Shl(v, 8) == v * 256;
    assert Shl(v * 256, 8) == v * 256 * 256;
  }

  lemma TypeBits(bits: seq<bit>, pos: nat)
    requires pos + 3 <= |bits|
    ensures var t := Lsb(bits, pos, 3);
            (t % 2 == 1 <==> bits[pos] == 1) && t / 2 == Lsb(bits, pos + 1, 2) && t < 8
  {
    LsbBound(bits, pos, 3);
    assert Pow2(3) == 8;
  }
}
