/** The multi-level lookup tables of inflate: what an entry means, when a set of
    tables represents a canonical code, and why a walk through such tables decodes. */
module HuftTables {
  import opened Bits
  import opened Huffman

  /** struct inflate_huft_s: operation or extra bits, bits to drop, and a literal,
      length base, distance base or table offset. */
  datatype Huft = Huft(exop: nat, bits: nat, base: nat)

  /** The arguments b, s, d and e of huft_build: code lengths, number of simple
      codes, and base value and extra bits of each non-simple code. */
  datatype Alphabet = Alphabet(lens: seq<nat>, simple: nat, bases: seq<nat>, extras: seq<nat>)

  const INVALID := 128 + 64

  predicate ValidAlphabet(a: Alphabet)
  {
    && Lengths(a.lens)
    && 0 < |a.lens| <= 288
    && |a.bases| == |a.extras|
    && |a.lens| <= a.simple + |a.bases|
    && forall i | 0 <= i < |a.extras| :: a.extras[i] <= 13 || a.extras[i] == 112
  }

  function ExopOf(a: Alphabet, sym: nat): nat
    requires ValidAlphabet(a) && sym < |a.lens|
  {
    if sym < a.simple then (if sym < 256 then 0 else 32 + 64) else a.extras[sym - a.simple] + 16 + 64
  }

  function BaseOf(a: Alphabet, sym: nat): nat
    requires ValidAlphabet(a) && sym < |a.lens|
  {
    if sym < a.simple then sym else a.bases[sym - a.simple]
  }

  /** One table: where it lies in the pool, the w code bits already consumed and
      their value pre, and the number z of bits that index it. */
  datatype Tab = Tab(addr: nat, w: nat, pre: nat, z: nat)

  /** The w + z code bits that lead to entry j. */
  function CellCode(t: Tab, j: nat): nat
  {
    Shl(t.pre, t.z) + Rev(j, t.z)
  }

  /** The entry ends a code: its symbol's code is a prefix of the cell's bits, or
      the bits are beyond the last code and the entry says so. */
  ghost predicate LeafCell(a: Alphabet, g: nat, l: nat, t: Tab, j: nat, en: Huft)
    requires ValidAlphabet(a)
  {
    && 1 <= en.bits <= t.z
    && var code := Shr(CellCode(t, j), t.z - en.bits);
       var len := t.w + en.bits;
       || (exists sym: nat | sym < |a.lens| :: IsSymbol(a, len, code, sym, en))
       || (len == g && code >= First(a.lens, g) + Count(a.lens, g) && en.exop == INVALID
           && (l == g ==> HasSymbolBase(a, en)))
  }

  /** An invalid entry keeps whatever base the entry before it had. With a single
      table that is the base of some symbol that has a code. */
  ghost predicate HasSymbolBase(a: Alphabet, en: Huft)
    requires ValidAlphabet(a)
  {
    exists sym: nat | sym < |a.lens| :: a.lens[sym] > 0 && en.base == BaseOf(a, sym)
  }

  predicate IsSymbol(a: Alphabet, len: nat, code: nat, sym: nat, en: Huft)
    requires ValidAlphabet(a) && sym < |a.lens|
  {
    && a.lens[sym] == len
    && Code(a.lens, sym) == code
    && en.exop == ExopOf(a, sym)
    && en.base == BaseOf(a, sym)
  }

  /** The entry leads on to the table for exactly the cell's bits. */
  ghost predicate LinkCell(l: nat, tabs: seq<Tab>, t: Tab, j: nat, en: Huft)
  {
    && t.z == l
    && en.bits == l
    && exists i | 0 <= i < |tabs| :: LinksTo(l, tabs[i], t, j, en)
  }

  predicate LinksTo(l: nat, target: Tab, t: Tab, j: nat, en: Huft)
  {
    && target.addr == t.addr + j + en.base
    && target.w == t.w + l
    && target.pre == CellCode(t, j)
    && target.z == en.exop
  }

  ghost predicate CellOK(a: Alphabet, g: nat, l: nat, tabs: seq<Tab>, t: Tab, j: nat, en: Huft)
    requires ValidAlphabet(a)
  {
    LeafCell(a, g, l, t, j, en) || LinkCell(l, tabs, t, j, en)
  }

  ghost predicate TabRange(g: nat, l: nat, t: Tab, poolSize: nat)
  {
    t.w + t.z <= g && 1 <= t.z <= l && t.addr + Pow2(t.z) <= poolSize
  }

  /** A finished set of tables for alphabet a: the root table has exactly l bits
      and every entry of every table is right. */
  ghost predicate TreeOK(a: Alphabet, l: nat, tabs: seq<Tab>, root: nat, pool: seq<Huft>)
  {
    var g := MaxLen(a.lens);
    && ValidAlphabet(a)
    && 1 <= l <= g
    && |tabs| > 0 && tabs[0] == Tab(root, 0, 0, l)
    && (forall i | 0 <= i < |tabs| :: TabRange(g, l, tabs[i], |pool|))
    && (forall i, j | 0 <= i < |tabs| && 0 <= j < Pow2(tabs[i].z) ::
          CellAt(a, g, l, tabs, i, j, pool))
  }

  ghost predicate CellAt(a: Alphabet, g: nat, l: nat, tabs: seq<Tab>, i: nat, j: nat, pool: seq<Huft>)
    requires ValidAlphabet(a) && i < |tabs|
  {
    tabs[i].addr + j < |pool| && CellOK(a, g, l, tabs, tabs[i], j, pool[tabs[i].addr + j])
  }

  /** The decoder stands in table t after consuming the w bits from start on. */
  ghost predicate InTable(t: Tab, bits: seq<bit>, start: nat)
  {
    start + t.w <= |bits| && Msb(bits, start, t.w) == t.pre
  }

  /** Looking up the next z bits in table number i: what the entry found there
      says about the symbol that starts at `start`. */
  lemma Lookup(a: Alphabet, l: nat, tabs: seq<Tab>, root: nat, pool: seq<Huft>,
               i: nat, bits: seq<bit>, start: nat)
    returns (next: nat)
    requires TreeOK(a, l, tabs, root, pool)
    requires i < |tabs| && InTable(tabs[i], bits, start)
    requires start + tabs[i].w + tabs[i].z <= |bits|
    ensures var t := tabs[i];
            var x := Lsb(bits, start + t.w, t.z);
            x < Pow2(t.z) && t.addr + x < |pool|
    ensures var t := tabs[i];
            var en := pool[t.addr + Lsb(bits, start + t.w, t.z)];
            Found(a, l, tabs, t, t.addr + Lsb(bits, start + t.w, t.z), en, bits, start, next)
  {
    hide Msb, Lsb, MaxLen, CellCode, DecodeSym, LeafCell, FoundSymbol, FoundNothing, Kraft, ValidAlphabet;
    var t := tabs[i];
    var x := Lsb(bits, start + t.w, t.z);
    LsbBound(bits, start + t.w, t.z);
    var en := pool[t.addr + x];
    assert TabRange(MaxLen(a.lens), l, t, |pool|);
    assert CellAt(a, MaxLen(a.lens), l, tabs, i, x, pool);
    CellBits(t, bits, start);
    next := 0;
    if LeafCell(a, MaxLen(a.lens), l, t, x, en) {
      LeafFound(a, l, t, en, bits, start);
    } else {
      next :| 0 <= next < |tabs| && LinksTo(l, tabs[next], t, x, en);
      assert TabRange(MaxLen(a.lens), l, tabs[next], |pool|);
    }
  }

  /** The outcome of one lookup: a symbol, an invalid code, or the next table. */
  ghost predicate Found(a: Alphabet, l: nat, tabs: seq<Tab>, t: Tab, at: nat, en: Huft,
                        bits: seq<bit>, start: nat, next: nat)
    requires ValidAlphabet(a)
  {
    || FoundSymbol(a, t, en, bits, start)
    || FoundNothing(a, l, t, en, bits, start)
    || (1 <= en.exop <= l && en.bits == l == t.z && next < |tabs|
        && tabs[next].addr == at + en.base && tabs[next].z == en.exop
        && tabs[next].w == t.w + l && InTable(tabs[next], bits, start))
  }

  ghost predicate FoundSymbol(a: Alphabet, t: Tab, en: Huft, bits: seq<bit>, start: nat)
    requires ValidAlphabet(a)
  {
    && 1 <= en.bits <= t.z
    && var d := DecodeSym(a.lens, bits, start);
       d.Symbol? && d.len == t.w + en.bits && en.exop == ExopOf(a, d.sym) && en.base == BaseOf(a, d.sym)
  }

  ghost predicate FoundNothing(a: Alphabet, l: nat, t: Tab, en: Huft, bits: seq<bit>, start: nat)
    requires ValidAlphabet(a)
  {
    && 1 <= en.bits <= t.z
    && DecodeSym(a.lens, bits, start) == NoCode
    && en.exop == INVALID
    && Kraft(a.lens, |a.lens|) < Pow2(MAX_BITS)
    && (l == MaxLen(a.lens) ==> HasSymbolBase(a, en))
  }

  /** The bits that select a cell, read as code bits, are the cell's code. */
  lemma CellBits(t: Tab, bits: seq<bit>, start: nat)
    requires InTable(t, bits, start) && start + t.w + t.z <= |bits|
    ensures CellCode(t, Lsb(bits, start + t.w, t.z)) == Msb(bits, start, t.w + t.z)
  {
    LsbIsRevMsb(bits, start + t.w, t.z);
    MsbBound(bits, start + t.w, t.z);
    RevRev(Msb(bits, start + t.w, t.z), t.z);
    MsbSplit(bits, start, t.w, t.z);
  }

  lemma LeafFound(a: Alphabet, l: nat, t: Tab, en: Huft, bits: seq<bit>, start: nat)
    requires ValidAlphabet(a) && InTable(t, bits, start) && start + t.w + t.z <= |bits|
    requires MaxLen(a.lens) >= 1 && t.w + t.z <= MaxLen(a.lens)
    requires LeafCell(a, MaxLen(a.lens), l, t, Lsb(bits, start + t.w, t.z), en)
    ensures FoundSymbol(a, t, en, bits, start) || FoundNothing(a, l, t, en, bits, start)
  {
    hide Shl, Shr, Lsb, Msb, MaxLen, CountBelow, DecodeSym, Kraft;
    var x := Lsb(bits, start + t.w, t.z);
    CellBits(t, bits, start);
    var rest := t.z - en.bits;
    var len := t.w + en.bits;
    MsbSplit(bits, start, len, rest);
    assert len + rest == t.w + t.z;
    var code := Shr(CellCode(t, x), rest);
    assert code == Msb(bits, start, len);
    if exists sym: nat | sym < |a.lens| :: IsSymbol(a, len, code, sym, en) {
      var sym: nat :| sym < |a.lens| && IsSymbol(a, len, code, sym, en);
      DecodeSymIs(a.lens, bits, start, sym);
    } else {
      var g := MaxLen(a.lens);
      DecodeSymNone(a.lens, bits, start, g);
      MsbBound(bits, start, g);
      KraftCompare(a.lens, g);
    }
  }

  // ---------- the whole walk ----------

  /** Where a walk through the tables ends: at an entry, with the position after
      its bits; out of bits; or outside the pool. */
  datatype Reached = Entry(en: Huft, end: nat) | NoBits | Outside

  /** From the table of z index bits at addr: take entries and follow the links as
      the LEN and DIST states do, until one is no link. */
  function FollowTables(pool: seq<Huft>, addr: nat, z: nat, bits: seq<bit>, pos: nat): Reached
    decreases |bits| - pos
  {
    if pos + z > |bits| then NoBits
    else
      var i := addr + Lsb(bits, pos, z);
      if i >= |pool| then Outside
      else
        var en := pool[i];
        if 0 < en.exop < 16 && 0 < en.bits && pos + en.bits <= |bits| then
          FollowTables(pool, i + en.base, en.exop, bits, pos + en.bits)
        else Entry(en, pos + en.bits)
  }

  /** What a walk must come to, by the code alone. */
  ghost predicate Agrees(a: Alphabet, r: Reached, bits: seq<bit>, start: nat)
    requires ValidAlphabet(a)
  {
    && r.Entry?
    && match DecodeSym(a.lens, bits, start)
       case Symbol(sym, len) => r.end == start + len && r.en.exop == ExopOf(a, sym) && r.en.base == BaseOf(a, sym)
       case NoCode => r.en.exop == INVALID
       case OutOfBits => false
  }

  lemma {:induction false} FollowsFrom(a: Alphabet, l: nat, tabs: seq<Tab>, root: nat, pool: seq<Huft>,
                                       i: nat, bits: seq<bit>, start: nat)
    requires TreeOK(a, l, tabs, root, pool) && i < |tabs| && InTable(tabs[i], bits, start)
    requires start + MaxLen(a.lens) <= |bits|
    ensures Agrees(a, FollowTables(pool, tabs[i].addr, tabs[i].z, bits, start + tabs[i].w), bits, start)
    decreases MaxLen(a.lens) - tabs[i].w
  {
    hide MaxLen, Lsb, Msb, DecodeSym, Kraft, CellAt, HasSymbolBase;
    assert TabRange(MaxLen(a.lens), l, tabs[i], |pool|);
    var next := Lookup(a, l, tabs, root, pool, i, bits, start);
    var t := tabs[i];
    var en := pool[t.addr + Lsb(bits, start + t.w, t.z)];
    if !FoundSymbol(a, t, en, bits, start) && !FoundNothing(a, l, t, en, bits, start) {
      assert TabRange(MaxLen(a.lens), l, tabs[next], |pool|);
      FollowsFrom(a, l, tabs, root, pool, next, bits, start);
    }
  }

  /** For every bit string the walk from the root comes to the symbol that canonical
      decoding gives, and consumes its bits; bits that start no code come to an
      invalid-code entry. No entry outside the pool is ever reached. */
  lemma TablesDecode(a: Alphabet, l: nat, tabs: seq<Tab>, root: nat, pool: seq<Huft>, bits: seq<bit>, start: nat)
    requires TreeOK(a, l, tabs, root, pool) && start + MaxLen(a.lens) <= |bits|
    ensures Agrees(a, FollowTables(pool, root, l, bits, start), bits, start)
  {
    hide MaxLen, FollowTables, DecodeSym;
    assert InTable(tabs[0], bits, start);
    FollowsFrom(a, l, tabs, root, pool, 0, bits, start);
  }
}
