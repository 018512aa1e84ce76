/** Writing DEFLATE streams, straight from the definitions of RFC 1951: by arithmetic where
    the decoder has tables. A stream is a list of blocks, and a block says what it holds
    and how it is written down. */
module Deflate {
  import opened Basics
  import opened Bits
  import opened Huffman

  // ---------- bits (section 3.1.1) ----------

  /** An n-bit code, most significant bit first. Numbers are the other way round: ByteBits. */
  function CodeBits(v: nat, n: nat): (s: seq<bit>)
    ensures |s| == n
  {
    if n == 0 then [] else CodeBits(v / 2, n - 1) + [v % 2]
  }

  /** The bits s are there from pos on. */
  predicate At(bits: seq<bit>, pos: nat, s: seq<bit>)
  {
    pos + |s| <= |bits| && bits[pos..pos + |s|] == s
  }

  // ---------- codes (sections 3.2.2 and 3.2.6) ----------

  /** The code words of a block, for literals and lengths and for distances; an empty word
      is none. */
  datatype Words = Words(ll: seq<seq<bit>>, dl: seq<seq<bit>>)

  predicate Has(words: seq<seq<bit>>, sym: nat)
  {
    sym < |words| && words[sym] != []
  }

  /** The words that go with code lengths. */
  function Canonical(lens: seq<nat>): (w: seq<seq<bit>>)
    ensures |w| == |lens|
  {
    seq(|lens|, i requires 0 <= i < |lens| => CodeBits(Code(lens, i), lens[i]))
  }

  /** The table of section 3.2.6. */
  function FixedWord(sym: nat): seq<bit>
  {
    if sym < 144 then CodeBits(0x30 + sym, 8)
    else if sym < 256 then CodeBits(0x190 + (sym - 144), 9)
    else if sym < 280 then CodeBits(sym - 256, 7)
    else CodeBits(0xc0 + (sym - 280), 8)
  }

  function FixedWords(): Words
  {
    Words(seq(288, i requires 0 <= i < 288 => FixedWord(i)), seq(30, i requires 0 <= i < 30 => CodeBits(i, 5)))
  }

  // ---------- lengths and distances (section 3.2.5) ----------

  /** How often v is halved until it is below lim. */
  function Halvings(v: nat, lim: nat): nat
    requires lim > 0
  {
    if v < lim then 0 else 1 + Halvings(v / 2, lim)
  }

  /** A symbol, and a number in so many extra bits. */
  datatype Coded = Coded(sym: nat, extra: nat, value: nat)

  /** Lengths from 3 on: four symbols for each number of extra bits, and eight for none;
      258 has one of its own. */
  function LengthCode(len: nat): Coded
    requires 3 <= len <= 258
  {
    if len == 258 then Coded(285, 0, 0)
    else
      var e := Halvings(len - 3, 8);
      Coded(257 + 4 * e + Shr(len - 3, e), e, Mask(len - 3, e))
  }

  /** Distances from 1 on: two symbols for each number of extra bits, and four for none. */
  function DistanceCode(dist: nat): Coded
    requires 1 <= dist <= 32768
  {
    var e := Halvings(dist - 1, 4);
    Coded(2 * e + Shr(dist - 1, e), e, Mask(dist - 1, e))
  }

  function CodedBits(words: seq<seq<bit>>, c: Coded): seq<bit>
    requires c.sym < |words|
  {
    words[c.sym] + ByteBits(c.value, c.extra)
  }

  // ---------- the data of a block ----------

  /** A literal, or a copy of bytes before. The length 258 can also be written with the last
      symbol that has extra bits, all of them set: LongCopy. */
  datatype Token = Literal(b: byte) | Copy(len: nat, dist: nat) | LongCopy(dist: nat)

  const LONGEST := Coded(284, 5, 31)

  predicate HasDistance(w: Words, dist: nat)
  {
    1 <= dist <= 32768 && Has(w.dl, DistanceCode(dist).sym)
  }

  /** The block has codes for it. */
  predicate HasCodes(w: Words, t: Token)
  {
    match t
    case Literal(b) => Has(w.ll, b)
    case Copy(len, dist) => 3 <= len <= 258 && Has(w.ll, LengthCode(len).sym) && HasDistance(w, dist)
    case LongCopy(dist) => Has(w.ll, 284) && HasDistance(w, dist)
  }

  function TokenBits(w: Words, t: Token): seq<bit>
    requires HasCodes(w, t)
  {
    match t
    case Literal(b) => w.ll[b]
    case Copy(len, dist) => CodedBits(w.ll, LengthCode(len)) + CodedBits(w.dl, DistanceCode(dist))
    case LongCopy(dist) => CodedBits(w.ll, LONGEST) + CodedBits(w.dl, DistanceCode(dist))
  }

  /** k modulo d. */
  function Around(k: nat, d: nat): (r: nat)
    requires d > 0
    ensures r < d && r <= k
  {
    if k < d then k else Around(k - d, d)
  }

  /** The last dist bytes, over and over. */
  function Repeated(out: seq<byte>, len: nat, dist: nat): seq<byte>
    requires 1 <= dist <= |out|
  {
    seq(len, k requires 0 <= k < len => out[|out| - dist + Around(k, dist)])
  }

  /** The bytes copied are there. */
  predicate Reaches(out: seq<byte>, t: Token)
  {
    t.Literal? || 1 <= t.dist <= |out|
  }

  function Expanded(out: seq<byte>, t: Token): (r: seq<byte>)
    requires Reaches(out, t)
    ensures |r| > |out| || (t.Copy? && t.len == 0)
  {
    match t
    case Literal(b) => out + [b]
    case Copy(len, dist) => out + Repeated(out, len, dist)
    case LongCopy(dist) => out + Repeated(out, 258, dist)
  }

  predicate TokensOK(w: Words, ts: seq<Token>, out: seq<byte>)
  {
    if ts == [] then Has(w.ll, 256)
    else HasCodes(w, ts[0]) && Reaches(out, ts[0]) && TokensOK(w, ts[1..], Expanded(out, ts[0]))
  }

  /** All tokens, and the end of the block. */
  function TokensBits(w: Words, ts: seq<Token>, out: seq<byte>): seq<bit>
    requires TokensOK(w, ts, out)
  {
    if ts == [] then w.ll[256] else TokenBits(w, ts[0]) + TokensBits(w, ts[1..], Expanded(out, ts[0]))
  }

  function AllExpanded(w: Words, ts: seq<Token>, out: seq<byte>): seq<byte>
    requires TokensOK(w, ts, out)
  {
    if ts == [] then out else AllExpanded(w, ts[1..], Expanded(out, ts[0]))
  }

  // ---------- the header of a dynamic block (section 3.2.7) ----------

  /** The order in which the lengths of the code length code are sent: the three run
      symbols, 0, and then outwards from 8. */
  function Order(i: nat): nat
    requires i < 19
  {
    if i < 3 then 16 + i else if i == 3 then 0 else if i % 2 == 0 then 8 + (i - 4) / 2 else 8 - (i - 3) / 2
  }

  /** One or more code lengths: a length, the length before some more times, or zeros. */
  datatype Run = Length(n: nat) | Again(times: nat) | Zeros(times: nat) | ManyZeros(times: nat)

  function RunCode(r: Run): Coded
    requires r.Length? || r.times >= if r.ManyZeros? then 11 else 3
  {
    match r
    case Length(n) => Coded(n, 0, 0)
    case Again(times) => Coded(16, 2, times - 3)
    case Zeros(times) => Coded(17, 3, times - 3)
    case ManyZeros(times) => Coded(18, 7, times - 11)
  }

  predicate RunOK(words: seq<seq<bit>>, r: Run, acc: seq<nat>)
  {
    && (match r
        case Length(n) => n <= 15
        case Again(times) => 3 <= times <= 6 && acc != []
        case Zeros(times) => 3 <= times <= 10
        case ManyZeros(times) => 11 <= times <= 138)
    && Has(words, RunCode(r).sym)
  }

  function Run1(r: Run, acc: seq<nat>): seq<nat>
    requires r.Again? ==> acc != []
  {
    match r
    case Length(n) => acc + [n]
    case Again(times) => acc + seq(times, i => acc[|acc| - 1])
    case Zeros(times) => acc + seq(times, i => 0)
    case ManyZeros(times) => acc + seq(times, i => 0)
  }

  predicate RunsOK(words: seq<seq<bit>>, rs: seq<Run>, acc: seq<nat>)
  {
    rs == [] || (RunOK(words, rs[0], acc) && RunsOK(words, rs[1..], Run1(rs[0], acc)))
  }

  function RunsBits(words: seq<seq<bit>>, rs: seq<Run>, acc: seq<nat>): seq<bit>
    requires RunsOK(words, rs, acc)
  {
    if rs == [] then [] else CodedBits(words, RunCode(rs[0])) + RunsBits(words, rs[1..], Run1(rs[0], acc))
  }

  /** The code lengths that the runs give. */
  function AllLengths(words: seq<seq<bit>>, rs: seq<Run>, acc: seq<nat>): seq<nat>
    requires RunsOK(words, rs, acc)
  {
    if rs == [] then acc else AllLengths(words, rs[1..], Run1(rs[0], acc))
  }

  /** The lengths of the code length code from number i on. */
  function ClBits(cl: seq<nat>, i: nat, n: nat): seq<bit>
    requires |cl| == 19 && i <= n <= 19
    decreases n - i
  {
    if i == n then [] else ByteBits(cl[Order(i)], 3) + ClBits(cl, i + 1, n)
  }

  /** nl literal/length codes, nd distance codes, nc lengths of the code length code. */
  datatype Head = Head(nl: nat, nd: nat, nc: nat, cl: seq<nat>, runs: seq<Run>)

  predicate HeadShape(h: Head)
  {
    && 257 <= h.nl <= 286 && 1 <= h.nd <= 32 && 4 <= h.nc <= 19 && |h.cl| == 19
    && (forall i | 0 <= i < 19 :: h.cl[i] <= 7)
    && (forall i | h.nc <= i < 19 :: h.cl[Order(i)] == 0)
    && RunsOK(Canonical(h.cl), h.runs, [])
    && |AllLengths(Canonical(h.cl), h.runs, [])| == h.nl + h.nd
  }

  function LitLengths(h: Head): seq<nat>
    requires HeadShape(h)
  {
    AllLengths(Canonical(h.cl), h.runs, [])[..h.nl]
  }

  function DistLengths(h: Head): seq<nat>
    requires HeadShape(h)
  {
    AllLengths(Canonical(h.cl), h.runs, [])[h.nl..]
  }

  /** The codes can be used; there need not be any for distances. */
  predicate HeadOK(h: Head)
  {
    && HeadShape(h)
    && Lengths(h.cl) && Lengths(LitLengths(h)) && Lengths(DistLengths(h))
    && Usable(h.cl) && Usable(LitLengths(h))
    && (Usable(DistLengths(h)) || forall i | 0 <= i < h.nd :: DistLengths(h)[i] == 0)
  }

  function HeadBits(h: Head): seq<bit>
    requires HeadShape(h)
  {
    ByteBits(h.nl - 257, 5) + (ByteBits(h.nd - 1, 5) + (ByteBits(h.nc - 4, 4)
    + (ClBits(h.cl, 0, h.nc) + RunsBits(Canonical(h.cl), h.runs, []))))
  }

  function HeadWords(h: Head): Words
    requires HeadShape(h)
  {
    Words(Canonical(LitLengths(h)), Canonical(DistLengths(h)))
  }

  // ---------- blocks (sections 3.2.3 and 3.2.4) ----------

  /** Plain bytes after padding, or tokens with the fixed codes or with their own. */
  datatype Block =
    | Stored(pad: seq<bit>, data: seq<byte>)
    | Fixed(tokens: seq<Token>)
    | Dynamic(head: Head, tokens: seq<Token>)

  predicate BlockOK(b: Block, pos: nat, out: seq<byte>)
  {
    match b
    case Stored(pad, data) => (pos + 3 + |pad|) % 8 == 0 && |pad| < 8 && |data| <= 65535
    case Fixed(ts) => TokensOK(FixedWords(), ts, out)
    case Dynamic(h, ts) => HeadOK(h) && TokensOK(HeadWords(h), ts, out)
  }

  function BlockBits(b: Block, last: bool, pos: nat, out: seq<byte>): (s: seq<bit>)
    requires BlockOK(b, pos, out)
    ensures |s| >= 3
  {
    var start: seq<bit> := [if last then 1 else 0];
    match b
    case Stored(pad, data) =>
      start + ([0, 0] + (pad + (ByteBits(|data|, 16) + (ByteBits(65535 - |data|, 16) + BitsOf(data)))))
    case Fixed(ts) => start + ([1, 0] + TokensBits(FixedWords(), ts, out))
    case Dynamic(h, ts) => start + ([0, 1] + (HeadBits(h) + TokensBits(HeadWords(h), ts, out)))
  }

  function BlockExpanded(b: Block, pos: nat, out: seq<byte>): seq<byte>
    requires BlockOK(b, pos, out)
  {
    match b
    case Stored(_, data) => out + data
    case Fixed(ts) => AllExpanded(FixedWords(), ts, out)
    case Dynamic(h, ts) => AllExpanded(HeadWords(h), ts, out)
  }

  /** At least one block, and each of them in order where it stands. */
  predicate StreamOK(bs: seq<Block>, pos: nat, out: seq<byte>)
  {
    && bs != [] && BlockOK(bs[0], pos, out)
    && (|bs| > 1 ==> StreamOK(bs[1..], pos + |BlockBits(bs[0], false, pos, out)|, BlockExpanded(bs[0], pos, out)))
  }

  function StreamBits(bs: seq<Block>, pos: nat, out: seq<byte>): seq<bit>
    requires StreamOK(bs, pos, out)
  {
    hide BlockOK, BlockBits, BlockExpanded;
    if |bs| == 1 then BlockBits(bs[0], true, pos, out)
    else
      var s := BlockBits(bs[0], false, pos, out);
      s + StreamBits(bs[1..], pos + |s|, BlockExpanded(bs[0], pos, out))
  }

  function StreamExpanded(bs: seq<Block>, pos: nat, out: seq<byte>): seq<byte>
    requires StreamOK(bs, pos, out)
  {
    hide BlockOK, BlockBits, BlockExpanded;
    if |bs| == 1 then BlockExpanded(bs[0], pos, out)
    else
      StreamExpanded(bs[1..], pos + |BlockBits(bs[0], false, pos, out)|, BlockExpanded(bs[0], pos, out))
  }

  /** inflate takes it: not more than 30 distance codes, and one of non-zero length if there
      are codes for lengths. */
  predicate TakenHead(h: Head)
    requires HeadShape(h)
  {
    h.nd <= 30 && (h.nl == 257 || exists i :: 0 <= i < h.nd && DistLengths(h)[i] > 0)
  }

  predicate Taken(b: Block)
  {
    b.Dynamic? && HeadShape(b.head) ==> TakenHead(b.head)
  }
}
