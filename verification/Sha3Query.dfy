/** The byte stream that sha3_query() hashes: two different results never give the
    same bytes. */
module Sha3Query {
  import opened Basics
  import opened Lanes
  import opened LaneBits
  import opened Sha3
  import DumpLiteral

  type Bytes = seq<Byte>

  /** The text of a statement, the start of a row, and the values of a row. Integers
      and floating-point numbers are their 64 bits. */
  datatype Segment =
    | Statement(sql: Bytes)
    | Row
    | Null
    | Integer(v: Lane)
    | Float(r: Lane)
    | Text(text: Bytes)
    | Blob(blob: Bytes)

  // ---------- encoding ----------

  function DigitByte(c: char): Byte
  {
    match c
    case '0' => 48 case '1' => 49 case '2' => 50 case '3' => 51 case '4' => 52
    case '5' => 53 case '6' => 54 case '7' => 55 case '8' => 56 case _ => 57
  }

  /** %d for a size. */
  function Count(n: nat): Bytes
  {
    var s := DumpLiteral.Decimal(n);
    seq(|s|, i requires 0 <= i < |s| => DigitByte(s[i]))
  }

  /** Most significant byte first. */
  function BigEndian(u: Lane): (b: Bytes)
    ensures |b| == 8
  {
    seq(8, k requires 0 <= k < 8 => ByteOf(u, 7 - k))
  }

  const COLON: Byte := 58

  function Sized(tag: Byte, data: Bytes): Bytes
  {
    [tag] + Count(|data|) + [COLON] + data
  }

  function Encode(g: Segment): Bytes
  {
    match g
    case Statement(sql) => Sized(83, sql)
    case Row => [82]
    case Null => [78]
    case Integer(v) => [73] + BigEndian(v)
    case Float(r) => [70] + BigEndian(r)
    case Text(text) => Sized(84, text)
    case Blob(blob) => Sized(66, blob)
  }

  lemma Digits()
    ensures forall c | '0' <= c <= '9' :: DigitByte(c) as int == c as int
  {
    forall c | '0' <= c <= '9'
      ensures DigitByte(c) as int == c as int
    {
      var n := c as int;
      assert n == 48 || n == 49 || n == 50 || n == 51 || n == 52 || n == 53 || n == 54 || n == 55 || n == 56 || n == 57;
    }
  }

  /** Bit u of byte k is bit 8 (7 - k) + u of the number. */
  lemma BigEndianBits(v: Lane, k: nat, u: nat)
    requires k < 8 && u < 8
    ensures Bit(BigEndian(v)[k], u) == LaneBit(v, 8 * (7 - k) + u)
  {
    hide Bit, LaneBit, Low, Down;
    ByteBit(v, 7 - k, u);
  }

  /** The letters of the comment in the source. */
  lemma Letters(data: Bytes, v: Lane)
    ensures Encode(Statement(data))[0] as int == 'S' as int && Encode(Row) == [Encode(Row)[0]]
    ensures Encode(Row)[0] as int == 'R' as int && Encode(Null) == [Encode(Null)[0]]
    ensures Encode(Null)[0] as int == 'N' as int && Encode(Integer(v))[0] as int == 'I' as int
    ensures Encode(Float(v))[0] as int == 'F' as int && Encode(Text(data))[0] as int == 'T' as int
    ensures Encode(Blob(data))[0] as int == 'B' as int && COLON as int == ':' as int
  {
    hide BigEndian, Count;
  }

  function EncodeAll(s: seq<Segment>): Bytes
  {
    if s == [] then [] else EncodeAll(s[..|s| - 1]) + Encode(s[|s| - 1])
  }

  // ---------- feeding the hash ----------

  /** x[0] = tag; for (j = 8; j >= 1; j--) x[j] = u & 0xff, u >>= 8. */
  method NineBytes(tag: Byte, u0: Lane) returns (x: Bytes)
    ensures x == [tag] + BigEndian(u0)
  {
    hide Down1, Low;
    var u := u0;
    x := seq(9, j => 0);
    var j: nat := 8;
    while j >= 1
      invariant j <= 8 && |x| == 9
      invariant j >= 1 ==> u == Down(u0, 8 - j)
      invariant forall k | j < k <= 8 :: x[k] == ByteOf(u0, 8 - k)
      decreases j
    {
      x := x[j := Low(u)];
      u := Down1(u);
      j := j - 1;
    }
    x := x[0 := tag];
  }

  /** hash_step_vformat with "S%d:", "T%d:" or "B%d:", and then the bytes. */
  method AddSized(cx: Sha3Context, tag: Byte, data: Bytes)
    requires cx.Valid()
    modifies cx, cx.s
    ensures cx.Valid() && cx.msg == old(cx.msg) + Sized(tag, data)
  {
    hide Sha3Context.Valid, DumpLiteral.Decimal;
    cx.Update([tag] + Count(|data|) + [COLON], false);
    cx.Update(data, false);
  }

  method AddSegment(cx: Sha3Context, g: Segment)
    requires cx.Valid()
    modifies cx, cx.s
    ensures cx.Valid() && cx.msg == old(cx.msg) + Encode(g)
  {
    hide Sha3Context.Valid, Sized, BigEndian;
    match g
    case Statement(sql) => AddSized(cx, 83, sql);
    case Row => cx.Update([82], false);
    case Null => cx.Update([78], false);
    case Integer(v) =>
      var x := NineBytes(73, v);
      cx.Update(x, false);
    case Float(r) =>
      var x := NineBytes(70, r);
      cx.Update(x, false);
    case Text(text) => AddSized(cx, 84, text);
    case Blob(blob) => AddSized(cx, 66, blob);
  }

  /** The hash that sha3QueryFunc computes over what its statements return. */
  method HashQuery(iSize: int, s: seq<Segment>) returns (h: Bytes)
    ensures h == Sponge(EncodeAll(s), RateFor(iSize))
  {
    hide Sha3Context.Valid, Sponge, RateFor, Encode;
    var cx := new Sha3Context(iSize);
    var i: nat := 0;
    while i < |s|
      invariant i <= |s| && cx.Valid() && fresh(cx) && fresh(cx.s) && cx.msg == EncodeAll(s[..i])
    {
      AddSegment(cx, s[i]);
      i := i + 1;
      assert s[..i][..i - 1] == s[..i - 1];
    }
    assert s[..i] == s;
    h := cx.Final();
  }

  // ---------- decoding ----------

  function DigitValue(b: Byte): int
  {
    if b == 48 then 0 else if b == 49 then 1 else if b == 50 then 2 else if b == 51 then 3 else if b == 52 then 4
    else if b == 53 then 5 else if b == 54 then 6 else if b == 55 then 7 else if b == 56 then 8
    else if b == 57 then 9 else -1
  }

  /** Decimal digits up to a colon, after acc; and what follows. */
  function ReadCount(s: Bytes, acc: nat): Option<(nat, Bytes)>
  {
    if s == [] then None
    else if s[0] == COLON then Some((acc, s[1..]))
    else if DigitValue(s[0]) < 0 then None
    else ReadCount(s[1..], acc * 10 + DigitValue(s[0]))
  }

  function ReadSized(s: Bytes): Option<(Bytes, Bytes)>
  {
    match ReadCount(s, 0)
    case None => None
    case Some((n, rest)) => if n <= |rest| then Some((rest[..n], rest[n..])) else None
  }

  function FromBigEndian(b: Bytes): Lane
    requires |b| == 8
  {
    Word(seq(8, t requires 0 <= t < 8 => b[7 - t]))
  }

  /** The first segment, and the rest of the bytes. */
  function ReadSegment(s: Bytes): Option<(Segment, Bytes)>
    requires s != []
  {
    var tag := s[0];
    if tag == 82 then Some((Row, s[1..]))
    else if tag == 78 then Some((Null, s[1..]))
    else if tag == 73 || tag == 70 then
      if |s| < 9 then None
      else
        var v := FromBigEndian(s[1..9]);
        Some((if tag == 73 then Integer(v) else Float(v), s[9..]))
    else
      match ReadSized(s[1..])
      case None => None
      case Some((data, rest)) =>
        if tag == 83 then Some((Statement(data), rest))
        else if tag == 84 then Some((Text(data), rest))
        else if tag == 66 then Some((Blob(data), rest))
        else None
  }

  function Decode(s: Bytes): Option<seq<Segment>>
    decreases |s|
  {
    if s == [] then Some([])
    else
      match ReadSegment(s)
      case None => None
      case Some((g, rest)) =>
        if |rest| >= |s| then None
        else
          match Decode(rest)
          case None => None
          case Some(gs) => Some([g] + gs)
  }

  lemma DigitBack(c: char)
    requires '0' <= c <= '9'
    ensures DigitByte(c) != COLON && DigitValue(DigitByte(c)) == (c - '0') as int
  {
  }

  lemma {:induction false} CountBack(n: nat, t: Bytes)
    ensures ReadCount(Count(n) + t, 0) == ReadCount(t, n)
    decreases n
  {
    hide DigitByte, DigitValue;
    var d := DumpLiteral.Decimal(n);
    var c := d[|d| - 1];
    DigitBack(c);
    var last := [DigitByte(c)];
    assert (last + t)[1..] == t;
    if n < 10 {
      assert Count(n) == last;
    } else {
      assert Count(n) == Count(n / 10) + last;
      assert Count(n) + t == Count(n / 10) + (last + t);
      CountBack(n / 10, last + t);
    }
  }

  lemma SizedBack(tag: Byte, data: Bytes, rest: Bytes)
    ensures ReadSized((Sized(tag, data) + rest)[1..]) == Some((data, rest))
  {
    hide ReadCount, Count;
    var t := [COLON] + (data + rest);
    assert (Sized(tag, data) + rest)[1..] == Count(|data|) + t;
    CountBack(|data|, t);
    ColonEnds(data + rest, |data|);
    assert (data + rest)[..|data|] == data && (data + rest)[|data|..] == rest;
  }

  lemma ColonEnds(rest: Bytes, n: nat)
    ensures ReadCount([COLON] + rest, n) == Some((n, rest))
  {
    assert ([COLON] + rest)[1..] == rest;
  }

  lemma BigEndianBack(u: Lane)
    ensures FromBigEndian(BigEndian(u)) == u
  {
    hide ByteOf, Word;
    var b := BigEndian(u);
    var x := seq(8, t requires 0 <= t < 8 => b[7 - t]);
    var y := seq(8, t requires 0 <= t < 8 => ByteOf(u, t));
    forall t | 0 <= t < 8
      ensures x[t] == y[t]
    {
      assert b[7 - t] == ByteOf(u, 7 - (7 - t));
    }
    assert x == y;
    WordOfBytes(u);
  }

  lemma SegmentBack(g: Segment, rest: Bytes)
    ensures Encode(g) != [] && ReadSegment(Encode(g) + rest) == Some((g, rest))
  {
    hide ReadSized, BigEndian, FromBigEndian, Count;
    var s := Encode(g) + rest;
    match g
    case Statement(sql) => SizedBack(83, sql, rest);
    case Row => assert s[1..] == rest;
    case Null => assert s[1..] == rest;
    case Integer(v) =>
      BigEndianBack(v);
      assert s[1..9] == BigEndian(v) && s[9..] == rest;
    case Float(r) =>
      BigEndianBack(r);
      assert s[1..9] == BigEndian(r) && s[9..] == rest;
    case Text(text) => SizedBack(84, text, rest);
    case Blob(blob) => SizedBack(66, blob, rest);
  }

  lemma {:induction false} FirstSegment(s: seq<Segment>)
    requires s != []
    ensures EncodeAll(s) == Encode(s[0]) + EncodeAll(s[1..])
  {
    hide Encode;
    if |s| > 1 {
      FirstSegment(s[..|s| - 1]);
      assert s[..|s| - 1][1..] == s[1..][..|s| - 2];
      assert s[1..][|s| - 2] == s[|s| - 1];
      assert EncodeAll(s) == Encode(s[0]) + (EncodeAll(s[1..][..|s| - 2]) + Encode(s[|s| - 1]));
    } else {
      assert EncodeAll(s) == EncodeAll([]) + Encode(s[0]) == Encode(s[0]) + EncodeAll(s[1..]);
    }
  }

  lemma {:induction false} DecodeEncode(s: seq<Segment>)
    ensures Decode(EncodeAll(s)) == Some(s)
  {
    hide Encode, ReadSegment;
    if s != [] {
      FirstSegment(s);
      SegmentBack(s[0], EncodeAll(s[1..]));
      DecodeEncode(s[1..]);
      assert [s[0]] + s[1..] == s;
    }
  }

  /** Different results give different byte streams. */
  lemma UniquelyDecodable(a: seq<Segment>, b: seq<Segment>)
    requires EncodeAll(a) == EncodeAll(b)
    ensures a == b
  {
    DecodeEncode(a);
    DecodeEncode(b);
  }
}
