/** The DEFLATE format: what a raw stream of bits decodes to. Follows section 3.2
    of RFC 1951 element by element; every function gives the outcome of the whole
    rest of the stream from the element it is named after. */
module Rfc1951 {
  import opened Basics
  import opened Bits
  import opened Huffman

  /** What decoding comes to. In every case out has the bytes that come before.
      Done: the stream ends at position end.
      Bad: malformed, which shows by position end.
      Truncated: the input ends early.
      Refused: a dynamic block that inflate turns away at position end although the format
      has it; rfc is what the stream comes to all the same.
      Unnoticed: malformed in one of the two ways inflate does not notice at once, a
      distance beyond the first byte or an unassigned bit in the code that codes the code
      lengths; on is what inflate, which goes on, makes of the stream. */
  datatype Outcome =
    | Done(out: seq<byte>, end: nat)
    | Bad(out: seq<byte>, end: nat)
    | Truncated(out: seq<byte>)
    | Refused(out: seq<byte>, end: nat, rfc: Outcome)
    | Unnoticed(out: seq<byte>, end: nat, on: Outcome)

  /** What the format says, no matter what inflate takes and notices. */
  function Plain(r: Outcome): Outcome
  {
    match r
    case Refused(_, _, rfc) => rfc
    case Unnoticed(out, end, _) => Bad(out, end)
    case _ => r
  }

  /** What inflate makes of it. */
  function Goes(r: Outcome): (g: Outcome)
    ensures !g.Unnoticed?
  {
    if r.Unnoticed? then Goes(r.on) else r
  }

  /** The rest of a refused or unnoticed stream comes behind the place where it is so. */
  predicate Sane(r: Outcome)
  {
    match r
    case Refused(out, end, rfc) => !rfc.Refused? && !rfc.Unnoticed? && Behind(out, end, rfc)
    case Unnoticed(out, end, on) => !on.Unnoticed? && Behind(out, end, on) && Sane(on)
    case _ => true
  }

  predicate Behind(out: seq<byte>, end: nat, r: Outcome)
  {
    out <= r.out && (Stops(r) ==> end <= r.end)
  }

  /** inflate has to report an error. */
  predicate Fails(r: Outcome) { r.Bad? || r.Refused? }

  /** It is decided, at position r.end, how decoding ends. */
  predicate Stops(r: Outcome) { r.Done? || Fails(r) }

  /** An outcome from pos on, after the bytes out. */
  predicate From(r: Outcome, bits: seq<bit>, pos: nat, out: seq<byte>)
  {
    && Sane(r) && out <= r.out && out <= Goes(r).out
    && (!r.Truncated? ==> pos <= r.end)
    && (Stops(Goes(r)) ==> pos <= Goes(r).end <= |bits|)
  }

  /** A fault passed unnoticed before r. */
  lemma Passing(r: Outcome, bits: seq<bit>, pos: nat, out: seq<byte>, before: seq<byte>)
    requires From(r, bits, pos, out) && before <= out
    ensures From(Unnoticed(before, pos, Goes(r)), bits, pos, before)
    ensures out <= Goes(r).out
  {
    if r.Unnoticed? { assert Goes(r) == r.on; }
  }

  // ---------- tables of section 3.2.5 and 3.2.7 ----------

  const LEN_BASE: seq<nat> := [3, 4, 5, 6, 7, 8, 9, 10, 11, 13, 15, 17, 19, 23, 27, 31,
                               35, 43, 51, 59, 67, 83, 99, 115, 131, 163, 195, 227, 258, 0, 0]
  const LEN_EXTRA: seq<nat> := [0, 0, 0, 0, 0, 0, 0, 0, 1, 1, 1, 1, 2, 2, 2, 2,
                                3, 3, 3, 3, 4, 4, 4, 4, 5, 5, 5, 5, 0, 112, 112]
  const DIST_BASE: seq<nat> := [1, 2, 3, 4, 5, 7, 9, 13, 17, 25, 33, 49, 65, 97, 129, 193,
                                257, 385, 513, 769, 1025, 1537, 2049, 3073, 4097, 6145,
                                8193, 12289, 16385, 24577]
  const DIST_EXTRA: seq<nat> := [0, 0, 0, 0, 1, 1, 2, 2, 3, 3, 4, 4, 5, 5, 6, 6,
                                 7, 7, 8, 8, 9, 9, 10, 10, 11, 11, 12, 12, 13, 13]
  const BORDER: seq<nat> := [16, 17, 18, 0, 8, 7, 9, 6, 10, 5, 11, 4, 12, 3, 13, 2, 14, 1, 15]

  /** The fixed code lengths of section 3.2.6. Distance codes 30 and 31 never occur. */
  function FixedLit(): (r: seq<nat>)
    ensures |r| == 288 && Lengths(r)
  {
    seq(144, i => 8) + seq(112, i => 9) + seq(24, i => 7) + seq(8, i => 8)
  }

  function FixedDist(): (r: seq<nat>)
    ensures |r| == 30 && Lengths(r)
  {
    seq(30, i => 5)
  }

  /** The two codes of a compressed block. */
  datatype Codes = Codes(ll: seq<nat>, dl: seq<nat>)

  ghost predicate ValidCodes(c: Codes)
  {
    Lengths(c.ll) && Lengths(c.dl) && |c.ll| <= 288 && |c.dl| <= 32
  }

  /** The byte dist back; before the first byte there are zeros. */
  function Back(out: seq<byte>, dist: nat): byte
    requires dist >= 1
  {
    if dist <= |out| then out[|out| - dist] else 0
  }

  /** Copy len bytes from dist bytes back; the copy may overlap its own output. */
  function LzCopy(out: seq<byte>, dist: nat, len: nat): (r: seq<byte>)
    requires dist >= 1
    ensures |r| == |out| + len && out <= r
    decreases len
  {
    if len == 0 then out else LzCopy(out + [Back(out, dist)], dist, len - 1)
  }

  function Align(pos: nat): nat
  {
    (pos + 7) / 8 * 8
  }

  // ---------- blocks ----------

  /** A block header at pos: BFINAL and BTYPE (section 3.2.3). */
  ghost function Blocks(bits: seq<bit>, pos: nat, out: seq<byte>): (r: Outcome)
    requires pos <= |bits|
    ensures From(r, bits, pos + 1, out)
    decreases |bits| - pos, 0
  {
    if pos + 3 > |bits| then Truncated(out)
    else
      var last := bits[pos] == 1;
      var kind := Lsb(bits, pos + 1, 2);
      if kind == 0 then
        (if Align(pos + 3) <= |bits| then StoredLen(bits, last, Align(pos + 3), out) else Truncated(out))
      else if kind == 1 then Symbols(bits, last, Codes(FixedLit(), FixedDist()), pos + 3, out)
      else if kind == 2 then Header(bits, last, pos + 3, out)
      else Bad(out, pos + 3)
  }

  /** After a block: the stream is over, or another block follows. */
  ghost function Next(bits: seq<bit>, last: bool, pos: nat, out: seq<byte>): (r: Outcome)
    requires pos <= |bits|
    ensures From(r, bits, pos, out)
    decreases |bits| - pos, 1
  {
    if last then Done(out, pos) else Blocks(bits, pos, out)
  }

  /** LEN and its complement NLEN (section 3.2.4). */
  ghost function StoredLen(bits: seq<bit>, last: bool, pos: nat, out: seq<byte>): (r: Outcome)
    requires pos <= |bits|
    ensures From(r, bits, pos + 1, out)
    decreases |bits| - pos, 3
  {
    if pos + 32 > |bits| then Truncated(out)
    else
      var len, nlen := Lsb(bits, pos, 16), Lsb(bits, pos + 16, 16);
      if len + nlen != 0xffff then Bad(out, pos + 32) else StoredBytes(bits, last, len, pos + 32, out)
  }

  ghost function StoredBytes(bits: seq<bit>, last: bool, left: nat, pos: nat, out: seq<byte>): (r: Outcome)
    requires pos <= |bits|
    ensures From(r, bits, pos, out)
    ensures r.Done? && left > 0 ==> |out| < |r.out|
    decreases |bits| - pos, 2
  {
    if left == 0 then Next(bits, last, pos, out)
    else if pos + 8 > |bits| then Truncated(out)
    else StoredBytes(bits, last, left - 1, pos + 8, out + [ByteAt(bits, pos)])
  }

  function ByteAt(bits: seq<bit>, pos: nat): byte
    requires pos + 8 <= |bits|
  {
    assert Lsb(bits, pos, 8) < 256 by { LsbBound(bits, pos, 8); Pow2Values(); }
    Lsb(bits, pos, 8)
  }

  // ---------- dynamic block header (section 3.2.7) ----------

  /** HLIT, HDIST and HCLEN. inflate takes at most 30 distance codes, the format 32. */
  ghost function Header(bits: seq<bit>, last: bool, pos: nat, out: seq<byte>): (r: Outcome)
    requires pos <= |bits|
    ensures From(r, bits, pos + 1, out)
    decreases |bits| - pos, 0
  {
    if pos + 14 > |bits| then Truncated(out)
    else
      var hlit, hdist, hclen := Lsb(bits, pos, 5), Lsb(bits, pos + 5, 5), Lsb(bits, pos + 10, 4);
      if hlit > 29 then Bad(out, pos + 14)
      else
        LsbBound(bits, pos + 5, 5);
        LsbBound(bits, pos + 10, 4);
        assert hdist < 32 && hclen < 16 by { Pow2Values(); }
        var r := CodeLens(bits, last, 257 + hlit, 1 + hdist, 4 + hclen, 0, seq(19, i => 0), pos + 14, out);
        if hdist > 29 then Refused(out, pos + 14, Plain(r)) else r
  }

  /** The three-bit lengths of the code length code, in the order of BORDER. */
  ghost function CodeLens(bits: seq<bit>, last: bool, nl: nat, nd: nat, n: nat, i: nat, cl: seq<nat>,
                          pos: nat, out: seq<byte>): (r: Outcome)
    requires pos <= |bits| && 257 <= nl <= 286 && 1 <= nd <= 32 && i <= n <= 19
    requires |cl| == 19 && Lengths(cl)
    ensures From(r, bits, pos, out)
    decreases |bits| - pos, 4
  {
    if i == n then (if Usable(cl) then Lens(bits, last, nl, nd, cl, [], pos, out) else Bad(out, pos))
    else if pos + 3 > |bits| then Truncated(out)
    else
      LsbBound(bits, pos, 3);
      assert Lsb(bits, pos, 3) < 8 by { Pow2Values(); }
      CodeLens(bits, last, nl, nd, n, i + 1, cl[BORDER[i] := Lsb(bits, pos, 3)], pos + 3, out)
  }

  /** Extra bits and least repeat count of the symbols 16, 17 and 18. */
  function RepeatBits(c: nat): nat { if c == 16 then 2 else if c == 17 then 3 else 7 }
  function RepeatBase(c: nat): nat { if c == 18 then 11 else 3 }

  function Repeat(v: nat, n: nat): (r: seq<nat>)
    ensures |r| == n && forall i | 0 <= i < n :: r[i] == v
  {
    seq(n, i => v)
  }

  /** The symbol of a code that has only one, of one bit. */
  ghost function OnlySymbol(cl: seq<nat>): (s: nat)
    requires |cl| == 19
    ensures s < 19
  {
    if exists s: nat :: s < 19 && cl[s] == 1 then
      var s: nat :| s < 19 && cl[s] == 1;
      s
    else 0
  }

  /** The literal/length and distance code lengths, read as one sequence. inflate takes an
      unassigned bit for the only symbol there is. */
  ghost function Lens(bits: seq<bit>, last: bool, nl: nat, nd: nat, cl: seq<nat>, acc: seq<nat>,
                      pos: nat, out: seq<byte>): (r: Outcome)
    requires pos <= |bits| && 257 <= nl <= 286 && 1 <= nd <= 32
    requires |cl| == 19 && Lengths(cl) && |acc| <= nl + nd && Lengths(acc)
    ensures From(r, bits, pos, out)
    decreases |bits| - pos, 3
  {
    if |acc| == nl + nd then Trees(bits, last, acc[..nl], acc[nl..], pos, out)
    else
      match DecodeSym(cl, bits, pos)
      case OutOfBits => Truncated(out)
      case NoCode =>
        if MaxLen(cl) != 1 then Bad(out, pos)
        else
          var r := LensMore(bits, last, nl, nd, cl, acc, OnlySymbol(cl), pos + 1, out);
          Passing(r, bits, pos + 1, out, out);
          Unnoticed(out, pos + 1, Goes(r))
      case Symbol(c, len) => LensMore(bits, last, nl, nd, cl, acc, c, pos + len, out)
  }

  /** One code length, or one run of repeated lengths, and the rest. */
  ghost function LensMore(bits: seq<bit>, last: bool, nl: nat, nd: nat, cl: seq<nat>, acc: seq<nat>, c: nat,
                          pos: nat, out: seq<byte>): (r: Outcome)
    requires pos <= |bits| && 257 <= nl <= 286 && 1 <= nd <= 32 && c <= 18
    requires |cl| == 19 && Lengths(cl) && |acc| < nl + nd && Lengths(acc)
    ensures From(r, bits, pos, out)
    decreases |bits| - pos, 4
  {
    if c < 16 then Lens(bits, last, nl, nd, cl, acc + [c], pos, out)
    else if pos + RepeatBits(c) > |bits| then Truncated(out)
    else
      var times := RepeatBase(c) + Lsb(bits, pos, RepeatBits(c));
      if |acc| + times > nl + nd || (c == 16 && acc == []) then Bad(out, pos + RepeatBits(c))
      else
        var v := if c == 16 then acc[|acc| - 1] else 0;
        Lens(bits, last, nl, nd, cl, acc + Repeat(v, times), pos + RepeatBits(c), out)
  }

  /** A literal/length code, and a distance code or none at all: all literals. */
  ghost predicate GoodTrees(ll: seq<nat>, dl: seq<nat>)
    requires Lengths(ll) && Lengths(dl)
  {
    Usable(ll) && (Usable(dl) || MaxLen(dl) == 0)
  }

  /** inflate refuses no distance code where the block has codes for lengths. */
  predicate EmptyDistances(ll: seq<nat>, dl: seq<nat>)
  {
    MaxLen(dl) == 0 && |ll| > 257
  }

  ghost function Trees(bits: seq<bit>, last: bool, ll: seq<nat>, dl: seq<nat>, pos: nat, out: seq<byte>): (r: Outcome)
    requires pos <= |bits| && Lengths(ll) && Lengths(dl) && |ll| <= 288 && |dl| <= 32
    ensures From(r, bits, pos, out)
    decreases |bits| - pos, 2
  {
    if !GoodTrees(ll, dl) then Bad(out, pos)
    else
      var r := Symbols(bits, last, Codes(ll, dl), pos, out);
      if EmptyDistances(ll, dl) then Refused(out, pos, Plain(r)) else r
  }

  // ---------- compressed data (section 3.2.5) ----------

  /** Literals, lengths and the end of the block. */
  ghost function Symbols(bits: seq<bit>, last: bool, c: Codes, pos: nat, out: seq<byte>): (r: Outcome)
    requires pos <= |bits| && ValidCodes(c)
    ensures From(r, bits, pos, out)
    decreases |bits| - pos, 1
  {
    match DecodeSym(c.ll, bits, pos)
    case OutOfBits => Truncated(out)
    case NoCode => Bad(out, pos + MaxLen(c.ll))
    case Symbol(sym, len) =>
      if sym < 256 then Symbols(bits, last, c, pos + len, out + [sym])
      else if sym == 256 then Next(bits, last, pos + len, out)
      else if sym > 285 then Bad(out, pos + len)
      else LenExtra(bits, last, c, LEN_BASE[sym - 257], LEN_EXTRA[sym - 257], pos + len, out)
  }

  ghost function LenExtra(bits: seq<bit>, last: bool, c: Codes, base: nat, extra: nat, pos: nat,
                          out: seq<byte>): (r: Outcome)
    requires pos <= |bits| && ValidCodes(c)
    ensures From(r, bits, pos + extra, out)
    decreases |bits| - pos, 1
  {
    if pos + extra > |bits| then Truncated(out)
    else Distance(bits, last, c, base + Lsb(bits, pos, extra), pos + extra, out)
  }

  ghost function Distance(bits: seq<bit>, last: bool, c: Codes, len: nat, pos: nat, out: seq<byte>): (r: Outcome)
    requires pos <= |bits| && ValidCodes(c)
    ensures From(r, bits, pos, out)
    decreases |bits| - pos, 0
  {
    match DecodeSym(c.dl, bits, pos)
    case OutOfBits => Truncated(out)
    case NoCode => Bad(out, pos + MaxLen(c.dl))
    case Symbol(sym, n) =>
      if sym > 29 then Bad(out, pos + n)
      else DistExtra(bits, last, c, len, DIST_BASE[sym], DIST_EXTRA[sym], pos + n, out)
  }

  ghost function DistExtra(bits: seq<bit>, last: bool, c: Codes, len: nat, base: nat, extra: nat,
                           pos: nat, out: seq<byte>): (r: Outcome)
    requires pos <= |bits| && ValidCodes(c) && base >= 1
    ensures From(r, bits, pos + extra, out)
    decreases |bits| - pos, 3
  {
    if pos + extra > |bits| then Truncated(out)
    else Copied(bits, last, c, len, base + Lsb(bits, pos, extra), pos + extra, out)
  }

  ghost function Copied(bits: seq<bit>, last: bool, c: Codes, len: nat, dist: nat, pos: nat,
                        out: seq<byte>): (r: Outcome)
    requires pos <= |bits| && ValidCodes(c) && dist >= 1
    ensures From(r, bits, pos, out) && |out| + len <= |Goes(r).out|
    decreases |bits| - pos, 2
  {
    var r := Symbols(bits, last, c, pos, LzCopy(out, dist, len));
    Passing(r, bits, pos, LzCopy(out, dist, len), out);
    if dist > |out| then Unnoticed(out, pos, Goes(r)) else r
  }

  /** What a raw DEFLATE stream in these bytes decodes to. */
  ghost function Decode(inp: seq<byte>): Outcome
  {
    Blocks(BitsOf(inp), 0, [])
  }
}
