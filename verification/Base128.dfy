/** The base-128 codec of the client: String2Dword reads the usual little-endian form;
    Dword2String writes it for some values only. */
module Base128 {
  import opened Basics

  type Dword = d: nat | d < 0x1_0000_0000

  /** The usual form: seven bits a byte, least significant first, the high bit set in
      all bytes but the last. */
  function Standard(n: nat): (s: seq<byte>)
    ensures |s| > 0
  {
    if n < 128 then [n] else [128 + n % 128] + Standard(n / 128)
  }

  function Power(i: nat): nat
  {
    if i == 0 then 1 else 128 * Power(i - 1)
  }

  // ---------- String2Dword ----------

  /** The value of at most room bytes, up to the first without the high bit. */
  function Value(s: seq<byte>, room: nat): nat
  {
    if s == [] || room == 0 then 0
    else if s[0] < 128 then s[0]
    else s[0] - 128 + 128 * Value(s[1..], room - 1)
  }

  function Length(s: seq<byte>, room: nat): (n: nat)
    ensures n <= |s| && n <= room
  {
    if s == [] || room == 0 then 0
    else if s[0] < 128 then 1
    else 1 + Length(s[1..], room - 1)
  }

  /** Arithmetic of a DWORD. */
  function Wrap(n: nat): Dword { n % 0x1_0000_0000 }

  lemma WrapPlus(a: nat, b: nat)
    ensures Wrap(Wrap(a) + b) == Wrap(a + b) == Wrap(a + Wrap(b))
  {
  }

  lemma {:induction false} ScaleValue(v: nat, d: nat, p: nat)
    ensures d * p + p * 128 * v == p * (d + 128 * v)
  {
  }

  lemma {:induction false} WrapTimes(a: nat, b: nat)
    ensures Wrap(a * Wrap(b)) == Wrap(a * b)
    decreases a
  {
    if a > 0 {
      WrapTimes(a - 1, b);
      assert a * Wrap(b) == (a - 1) * Wrap(b) + Wrap(b) && a * b == (a - 1) * b + b;
      WrapPlus((a - 1) * Wrap(b), Wrap(b));
      WrapPlus((a - 1) * b, b);
      WrapPlus(Wrap((a - 1) * b), b);
    } else {
      assert 0 * Wrap(b) == 0 == 0 * b;
    }
  }

  /** dwRet += c * dwTemp. */
  function PlusTimes(ret: nat, c: nat, temp: nat): Dword { Wrap(ret + c * temp) }

  /** dwTemp *= 0x80. */
  function Times128(temp: nat): Dword { Wrap(128 * temp) }

  /** What ret and p times the value still to come make together. */
  function Total(ret: nat, p: nat, v: nat): Dword { Wrap(ret + p * v) }

  /** The last byte. */
  lemma LastByte(ret: nat, c: nat, temp: nat, p: nat)
    requires temp == Wrap(p)
    ensures PlusTimes(ret, c, temp) == Total(ret, p, c)
  {
    hide Wrap;
    WrapTimes(c, p);
    WrapSum(ret, c * temp, c * p);
    assert c * p == p * c;
  }

  /** A byte with more to come, of value v. */
  lemma MoreBytes(ret: nat, d: nat, temp: nat, p: nat, v: nat)
    requires temp == Wrap(p)
    ensures Total(PlusTimes(ret, d, temp), 128 * p, v) == Total(ret, p, d + 128 * v)
    ensures Times128(temp) == Wrap(128 * p)
  {
    hide Wrap;
    WrapTimes(128, p);
    ScaleValue(v, d, p);
    WrapPlus(ret + d * temp, 128 * p * v);
    LastByte(ret + 128 * p * v, d, temp, p);
    assert p * d == d * p && p * 128 * v == 128 * p * v;
  }

  lemma Unread(s: seq<byte>, room: nat)
    requires s != [] && room > 0
    ensures s[0] < 128 ==> Value(s, room) == s[0] && Length(s, room) == 1
    ensures s[0] >= 128 ==> Value(s, room) == s[0] - 128 + 128 * Value(s[1..], room - 1)
                            && Length(s, room) == 1 + Length(s[1..], room - 1)
  {
  }

  lemma NothingLeft(p: nat, s: seq<byte>, room: nat)
    requires s == [] || room == 0
    ensures forall ret: Dword :: Total(ret, p, Value(s, room)) == ret
    ensures Length(s, room) == 0
  {
  }

  lemma PowerStep(n: nat)
    ensures Power(n + 1) == 128 * Power(n)
  {
  }

  /** String2Dword; an empty string leaves dwOutLen as it is. */
  method String2Dword(str: seq<byte>, dwOutLen0: Dword) returns (dwRet: Dword, dwOutLen: Dword)
    ensures dwRet == Wrap(Value(str, 5))
    ensures dwOutLen == if str == [] then dwOutLen0 else Length(str, 5)
  {
    hide Wrap, Value, Length, Total, Power, PlusTimes, Times128;
    if str == [] {
      OfEmpty();
      return 0, dwOutLen0;
    }
    dwRet := 0;
    var dwTemp: Dword := 1;
    var nLen: nat := 0;
    assert str[0..] == str;
    AtStart(Value(str, 5));
    while nLen < 5 && nLen < |str|
      invariant nLen <= 5 && nLen <= |str| && dwTemp == Wrap(Power(nLen))
      invariant Total(dwRet, Power(nLen), Value(str[nLen..], 5 - nLen)) == Wrap(Value(str, 5))
      invariant nLen + Length(str[nLen..], 5 - nLen) == Length(str, 5)
    {
      var c := str[nLen];
      ghost var p := Power(nLen);
      assert str[nLen..][1..] == str[nLen + 1..];
      Unread(str[nLen..], 5 - nLen);
      PowerStep(nLen);
      if c < 128 {
        LastByte(dwRet, c, dwTemp, p);
        return PlusTimes(dwRet, c, dwTemp), nLen + 1;
      }
      MoreBytes(dwRet, c - 128, dwTemp, p, Value(str[nLen + 1..], 4 - nLen));
      dwRet := PlusTimes(dwRet, c - 128, dwTemp);
      dwTemp := Times128(dwTemp);
      nLen := nLen + 1;
    }
    NothingLeft(Power(nLen), str[nLen..], 5 - nLen);
    dwOutLen := nLen;
  }

  lemma OfEmpty()
    ensures Wrap(Value([], 5)) == 0
  {
  }

  lemma AtStart(v: nat)
    ensures Wrap(Power(0)) == 1 && Total(0, Power(0), v) == Wrap(v)
  {
  }

  lemma WrapSum(a: nat, b: nat, c: nat)
    requires Wrap(b) == Wrap(c)
    ensures Wrap(a + b) == Wrap(a + c)
  {
    WrapPlus(a, b);
    WrapPlus(a, c);
  }

  /** String2Dword inverts the usual form, whatever follows it. */
  lemma {:induction false} StandardBack(n: nat, rest: seq<byte>, room: nat)
    requires room > 0 && n < Power(room)
    ensures Value(Standard(n) + rest, room) == n
    ensures Length(Standard(n) + rest, room) == |Standard(n)|
  {
    var s := Standard(n) + rest;
    if n >= 128 {
      assert s[1..] == Standard(n / 128) + rest;
      StandardBack(n / 128, rest, room - 1);
    }
  }

  lemma EveryDword(dw: Dword, rest: seq<byte>)
    ensures Wrap(Value(Standard(dw) + rest, 5)) == dw && Length(Standard(dw) + rest, 5) == |Standard(dw)|
  {
    Powers();
    StandardBack(dw, rest, 5);
  }

  lemma Powers()
    ensures Power(0) == 1 && Power(1) == 128 && Power(2) == 16384 && Power(3) == 2097152
    ensures Power(4) == 268435456 && Power(5) == 34359738368
  {
    assert Power(3) == 128 * Power(2);
    assert Power(4) == 128 * Power(3);
    assert Power(5) == 128 * Power(4);
  }

  /** Fewer bytes give smaller values. */
  lemma {:induction false} ValueBound(s: seq<byte>, room: nat)
    ensures Value(s, room) < Power(|s|)
  {
    if s != [] && room > 0 { ValueBound(s[1..], room - 1); }
    PowerPositive(|s|);
  }

  lemma {:induction false} PowerPositive(i: nat)
    ensures Power(i) >= 1 && (i > 0 ==> Power(i) >= 128)
  {
    if i > 0 { PowerPositive(i - 1); }
  }

  // ---------- Dword2String ----------

  /** One turn of its loop: a digit is taken when data is more than base. */
  function Digit(data: nat, base: nat): nat
    requires base > 0
  {
    if data > base then data / base else 0
  }

  function Left(data: nat, base: nat): nat
    requires base > 0
  {
    if data > base then data % base else data
  }

  function Taken(data: nat, base: nat): nat
  {
    if data > base then 1 else 0
  }

  /** The bytes Dword2String leaves in hex before the high bits are set, and how many
      it will return. */
  datatype Work = Work(hex: seq<nat>, outLen: nat)

  function Written(dw: Dword): (w: Work)
    ensures |w.hex| == 5 && 1 <= w.outLen <= 5 && forall i | 0 <= i < 5 :: w.hex[i] < 256
  {
    var r3 := Left(dw, 268435456);
    var r2 := Left(r3, 2097152);
    var r1 := Left(r2, 16384);
    var r0 := Left(r1, 128);
    Work([r0, Digit(r1, 128), Digit(r2, 16384), Digit(r3, 2097152), Digit(dw, 268435456)],
         Taken(dw, 268435456) + Taken(r3, 2097152) + Taken(r2, 16384) + Taken(r1, 128) + 1)
  }

  function Output(w: Work): seq<byte>
    requires |w.hex| == 5 && 1 <= w.outLen <= 5 && forall i | 0 <= i < 5 :: w.hex[i] < 256
  {
    seq(w.outLen, i requires 0 <= i < w.outLen => if i < w.outLen - 1 then (w.hex[i] + 128) % 256 else w.hex[i])
  }

  /** The digits, highest first, and how many bytes to write. */
  method FindDigits(dw: Dword) returns (hex: array<byte>, dwOutLen: nat)
    ensures fresh(hex) && hex.Length == 5 && hex[..] == Written(dw).hex && dwOutLen == Written(dw).outLen
  {
    hide Digit, Left, Taken;
    var dwData: nat := dw;
    var dwData2 := 0x80 * 0x80 * 0x80 * 0x80;
    var nLen: nat := 4;
    hex := new byte[5](i => 0);
    dwOutLen := 0;
    ghost var w := Written(dw);
    ghost var r3 := Left(dw, 268435456);
    ghost var r2 := Left(r3, 2097152);
    ghost var r1 := Left(r2, 16384);
    while nLen > 0
      invariant nLen <= 4
      invariant dwData2 == if nLen == 4 then 268435456 else if nLen == 3 then 2097152 else if nLen == 2 then 16384
                           else if nLen == 1 then 128 else 1
      invariant dwData == if nLen == 4 then dw else if nLen == 3 then r3 else if nLen == 2 then r2
                          else if nLen == 1 then r1 else w.hex[0]
      invariant forall i | nLen < i < 5 :: hex[i] == w.hex[i]
      invariant forall i | 0 <= i <= nLen :: hex[i] == 0
      invariant dwOutLen == (if nLen < 4 then Taken(dw, 268435456) else 0)
                + (if nLen < 3 then Taken(r3, 2097152) else 0)
                            + (if nLen < 2 then Taken(r2, 16384) else 0) + (if nLen < 1 then Taken(r1, 128) else 0)
    {
      TurnOf(dwData, dwData2);
      if dwData > dwData2 {
        hex[nLen] := dwData / dwData2 % 256;
        dwData := dwData % dwData2;
        dwOutLen := dwOutLen + 1;
      }
      dwData2 := dwData2 / 0x80;
      nLen := nLen - 1;
    }
    hex[0] := dwData;
    dwOutLen := dwOutLen + 1;
  }

  /** Dword2String: the usual form of the good values; for the others, too few bytes. */
  method Dword2String(dw: Dword) returns (s: seq<byte>)
    ensures s == Output(Written(dw))
    ensures if Good(dw) then s == Standard(dw) else |s| < |Standard(dw)|
  {
    hide Written, Good, Standard;
    WrittenForm(dw);
    var hex, dwOutLen := FindDigits(dw);
    ghost var w := Written(dw);
    var i: nat := 0;
    while i < dwOutLen - 1
      invariant i <= dwOutLen - 1
      invariant forall j | 0 <= j < 5 :: hex[j] == if j < i then (w.hex[j] + 128) % 256 else w.hex[j]
    {
      var h: nat := hex[i] as int + 0x80;
      hex[i] := h % 256;
      i := i + 1;
    }
    s := hex[..dwOutLen];
  }

  lemma TurnOf(data: nat, base: nat)
    requires base > 0
    ensures data > base ==>
              Digit(data, base) == data / base && Left(data, base) == data % base && Taken(data, base) == 1
    ensures data <= base ==> Digit(data, base) == 0 && Left(data, base) == data && Taken(data, base) == 0
  {
  }

  // ---------- when the two agree ----------

  /** All base-128 digits are there. */
  predicate NoZeroDigit(n: nat)
  {
    n % 128 != 0 && (n < 128 || NoZeroDigit(n / 128))
  }

  /** The values Dword2String writes in the usual form: no zero among the digits above
      the lowest, and the two lowest are not 1 and 0. */
  predicate Good(dw: nat)
  {
    dw < 128 || (NoZeroDigit(dw / 128) && !(dw / 128 % 128 == 1 && dw % 128 == 0))
  }

  /** A level of the loop, for a number of digit d at this place and low below it. */
  lemma LevelOf(d: nat, low: nat, base: nat)
    requires base in {128, 16384, 2097152, 268435456} && low < base
    ensures var data := d * base + low;
            && (d == 0 ==> Digit(data, base) == 0 && Left(data, base) == low && Taken(data, base) == 0)
            && (d > 1 || (d == 1 && low > 0) ==>
                  Digit(data, base) == d && Left(data, base) == low && Taken(data, base) == 1)
            && (d == 1 && low == 0 ==> Digit(data, base) == 0 && Left(data, base) == base && Taken(data, base) == 0)
  {
    if base == 128 {
    } else if base == 16384 {
    } else if base == 2097152 {
    } else {
    }
  }

  /** The five digits of a DWORD. */
  datatype Digits = Digits(d0: nat, d1: nat, d2: nat, d3: nat, d4: nat)

  predicate DigitsOf(dw: nat, d: Digits)
  {
    && d.d0 < 128 && d.d1 < 128 && d.d2 < 128 && d.d3 < 128 && d.d4 < 16
    && dw == d.d4 * 268435456 + d.d3 * 2097152 + d.d2 * 16384 + d.d1 * 128 + d.d0
  }

  lemma Split(dw: Dword) returns (d: Digits)
    ensures DigitsOf(dw, d)
  {
    var n1 := dw / 128;
    var n2 := n1 / 128;
    var n3 := n2 / 128;
    d := Digits(dw % 128, n1 % 128, n2 % 128, n3 % 128, n3 / 128);
  }

  /** The number of digits up to the highest that is not 0, at least one. */
  function Top(d: Digits): nat
  {
    if d.d4 > 0 then 5 else if d.d3 > 0 then 4 else if d.d2 > 0 then 3 else if d.d1 > 0 then 2 else 1
  }

  predicate GoodDigits(d: Digits)
  {
    Top(d) == 1
    || (d.d1 > 0 && (d.d2 > 0 || Top(d) == 2) && (d.d3 > 0 || Top(d) <= 3) && !(d.d1 == 1 && d.d0 == 0))
  }

  /** The value of the digits from the second, third, ... on. */
  function From1(d: Digits): nat { d.d4 * 2097152 + d.d3 * 16384 + d.d2 * 128 + d.d1 }
  function From2(d: Digits): nat { d.d4 * 16384 + d.d3 * 128 + d.d2 }
  function From3(d: Digits): nat { d.d4 * 128 + d.d3 }

  lemma GoodIs(dw: Dword, d: Digits)
    requires DigitsOf(dw, d)
    ensures Good(dw) <==> GoodDigits(d)
  {
    assert dw / 128 == From1(d) && From1(d) / 128 == From2(d) && From2(d) / 128 == From3(d) && From3(d) / 128 == d.d4;
    assert NoZeroDigit(d.d4) <==> d.d4 > 0;
    assert NoZeroDigit(From3(d)) <==> d.d3 > 0 && (d.d4 == 0 || NoZeroDigit(d.d4));
    assert NoZeroDigit(From2(d)) <==> d.d2 > 0 && (From2(d) < 128 || NoZeroDigit(From3(d)));
    assert NoZeroDigit(From1(d)) <==> d.d1 > 0 && (From1(d) < 128 || NoZeroDigit(From2(d)));
  }

  /** The usual form, digit by digit. */
  function Form(d: Digits): seq<byte>
    requires d.d0 < 128 && d.d1 < 128 && d.d2 < 128 && d.d3 < 128 && d.d4 < 16
  {
    if Top(d) == 1 then [d.d0]
    else if Top(d) == 2 then [128 + d.d0, d.d1]
    else if Top(d) == 3 then [128 + d.d0, 128 + d.d1, d.d2]
    else if Top(d) == 4 then [128 + d.d0, 128 + d.d1, 128 + d.d2, d.d3]
    else [128 + d.d0, 128 + d.d1, 128 + d.d2, 128 + d.d3, d.d4]
  }

  lemma StandardStep(q: nat, r: nat)
    requires r < 128
    ensures Standard(128 * q + r) == if q == 0 then [r] else [128 + r] + Standard(q)
  {
  }

  lemma StandardIs(dw: Dword, d: Digits)
    requires DigitsOf(dw, d)
    ensures Standard(dw) == Form(d) && |Standard(dw)| == Top(d)
  {
    hide Standard;
    StandardStep(0, d.d4);
    StandardStep(d.d4, d.d3);
    StandardStep(From3(d), d.d2);
    StandardStep(From2(d), d.d1);
    StandardStep(From1(d), d.d0);
    assert dw == 128 * From1(d) + d.d0 && From1(d) == 128 * From2(d) + d.d1;
    assert From2(d) == 128 * From3(d) + d.d2 && From3(d) == 128 * d.d4 + d.d3;
  }

  lemma OutputIs(d: Digits)
    requires d.d0 < 128 && d.d1 < 128 && d.d2 < 128 && d.d3 < 128 && d.d4 < 16
    ensures Output(Work([d.d0, d.d1, d.d2, d.d3, d.d4], Top(d))) == Form(d)
  {
  }

  lemma GoodLevel(d: nat, low: nat, base: nat)
    requires base in {128, 16384, 2097152, 268435456} && low < base && (d != 1 || low > 0)
    ensures var data := d * base + low;
            Digit(data, base) == d && Left(data, base) == low && Taken(data, base) == if d > 0 then 1 else 0
  {
    hide Digit, Left, Taken;
    LevelOf(d, low, base);
  }

  /** Running the levels on the digits. */
  lemma LevelsGood(dw: Dword, d: Digits)
    requires DigitsOf(dw, d) && GoodDigits(d)
    ensures Written(dw) == Work([d.d0, d.d1, d.d2, d.d3, d.d4], Top(d))
  {
    hide Digit, Left, Taken;
    var l1 := d.d1 * 128 + d.d0;
    var l2 := d.d2 * 16384 + l1;
    var l3 := d.d3 * 2097152 + l2;
    assert d.d4 * 268435456 + l3 == dw;
    GoodLevel(d.d4, l3, 268435456);
    GoodLevel(d.d3, l2, 2097152);
    GoodLevel(d.d2, l1, 16384);
    GoodLevel(d.d1, d.d0, 128);
    assert Left(dw, 268435456) == l3;
    assert Left(l3, 2097152) == l2;
    assert Left(l2, 16384) == l1;
    assert Written(dw).hex == [d.d0, d.d1, d.d2, d.d3, d.d4];
  }

  /** The levels below a number that is exactly a power: one more is taken, at most. */
  lemma Stuck(base: nat)
    requires base in {2097152, 16384, 128}
    ensures Taken(128 * base, base) == 1 && Left(128 * base, base) == 0
    ensures Taken(0, base) == 0 && Left(0, base) == 0
  {
    LevelOf(128, 0, base);
    LevelOf(0, 0, base);
  }

  function TakenFrom2(r2: nat): nat
  {
    Taken(r2, 16384) + Taken(Left(r2, 16384), 128)
  }

  function TakenFrom3(r3: nat): nat
  {
    Taken(r3, 2097152) + TakenFrom2(Left(r3, 2097152))
  }

  /** Levels 1 and 2, for what is below level 3. */
  lemma Low2(d: Digits)
    requires d.d0 < 128 && d.d1 < 128 && d.d2 < 128
    ensures TakenFrom2(d.d2 * 16384 + d.d1 * 128 + d.d0) <= (if d.d2 > 0 then 2 else if d.d1 > 0 then 1 else 0)
    ensures d.d2 > 0 && d.d1 == 0 ==> TakenFrom2(d.d2 * 16384 + d.d1 * 128 + d.d0) <= 1
    ensures d.d1 == 1 && d.d0 == 0 ==> TakenFrom2(d.d2 * 16384 + d.d1 * 128 + d.d0) <= (if d.d2 > 0 then 1 else 0)
    ensures TakenFrom2(0) == 0 && TakenFrom2(2097152) == 1
  {
    hide Digit, Left, Taken;
    var l1 := d.d1 * 128 + d.d0;
    LevelOf(d.d2, l1, 16384);
    LevelOf(d.d1, d.d0, 128);
    Stuck(16384);
    Stuck(128);
  }

  lemma Low3(d: Digits)
    requires d.d0 < 128 && d.d1 < 128 && d.d2 < 128 && d.d3 < 128
    ensures var n := TakenFrom3(d.d3 * 2097152 + d.d2 * 16384 + d.d1 * 128 + d.d0);
            && n <= (if d.d3 > 0 then 3 else if d.d2 > 0 then 2 else if d.d1 > 0 then 1 else 0)
            && (d.d3 > 0 && d.d2 == 0 ==> n <= 2)
            && (d.d1 == 0 && (d.d3 > 0 || d.d2 > 0) ==> n <= (if d.d3 > 0 then 2 else 1))
            && (d.d1 == 1 && d.d0 == 0 ==> n <= (if d.d3 > 0 then 2 else if d.d2 > 0 then 1 else 0))
    ensures TakenFrom3(268435456) == 1
  {
    hide Digit, Left, Taken, TakenFrom2;
    LevelOf(d.d3, d.d2 * 16384 + d.d1 * 128 + d.d0, 2097152);
    Low2(d);
    Stuck(2097152);
  }

  lemma LevelsBad(dw: Dword, d: Digits)
    requires DigitsOf(dw, d) && !GoodDigits(d)
    ensures Written(dw).outLen < Top(d)
  {
    hide Digit, Left, Taken;
    LevelOf(d.d4, d.d3 * 2097152 + d.d2 * 16384 + d.d1 * 128 + d.d0, 268435456);
    Low3(d);
    assert Written(dw).outLen == Taken(dw, 268435456) + TakenFrom3(Left(dw, 268435456)) + 1;
  }

  lemma {:induction false} StandardSize(n: nat)
    ensures n >= 128 ==> Power(|Standard(n)| - 1) <= n
  {
    if n >= 128 * 128 { StandardSize(n / 128); }
    else if n >= 128 { assert Standard(n / 128) == [n / 128]; assert Power(1) == 128 * Power(0); }
  }

  lemma {:induction false} PowerGrows(i: nat, j: nat)
    requires i <= j
    ensures Power(i) <= Power(j)
  {
    if i < j { PowerGrows(i, j - 1); }
  }

  /** Dword2String writes the usual form exactly for the good values; for the others it
      writes too few bytes. */
  lemma WrittenForm(dw: Dword)
    ensures if Good(dw) then Output(Written(dw)) == Standard(dw) else |Output(Written(dw))| < |Standard(dw)|
  {
    hide Good, Written, Standard;
    var d := Split(dw);
    GoodIs(dw, d);
    StandardIs(dw, d);
    OutputIs(d);
    if GoodDigits(d) { LevelsGood(dw, d); } else { LevelsBad(dw, d); }
  }

  /** Writing and reading a value: right exactly for the good ones. */
  method RoundTrip(dw: Dword) returns (r: Dword)
    ensures r == dw <==> Good(dw)
  {
    hide Good, Written, Standard, Value, Wrap;
    var s := Dword2String(dw);
    var n;
    r, n := String2Dword(s, 0);
    RoundTripIff(dw);
  }

  lemma RoundTripIff(dw: Dword)
    ensures Wrap(Value(Output(Written(dw)), 5)) == dw <==> Good(dw)
  {
    hide Good, Written, Value;
    var s := Output(Written(dw));
    WrittenForm(dw);
    if Good(dw) {
      EveryDword(dw, []);
      assert s + [] == s;
    } else {
      ValueBound(s, 5);
      Powers();
      ShortForm(dw);
      PowerGrows(|s|, |Standard(dw)| - 1);
      PowerGrows(|s|, 4);
      StandardSize(dw);
    }
  }

  lemma ShortForm(dw: Dword)
    ensures dw < 128 ==> |Standard(dw)| == 1
    ensures |Standard(dw)| <= 5
  {
    var d := Split(dw);
    StandardIs(dw, d);
  }
}
