/** The headers of dynamic blocks, whole blocks, and whole streams: decoding and writing
    undo each other. */
module WrittenBlocks {
  import opened Basics
  import opened Bits
  import opened Huffman
  import opened Rfc1951
  import opened Deflate
  import opened Written

  // ---------- the code length code ----------

  lemma OrderIs(i: nat)
    requires i < 19
    ensures Order(i) == BORDER[i] < 19
  {
    if i < 4 {}
    else if i < 9 { if i == 4 {} else if i == 5 {} else if i == 6 {} else if i == 7 {} else { assert i == 8; } }
    else if i < 14 { if i == 9 {} else if i == 10 {} else if i == 11 {} else if i == 12 {} else { assert i == 13; } }
    else { if i == 14 {} else if i == 15 {} else if i == 16 {} else if i == 17 {} else { assert i == 18; } }
  }

  lemma OrderOnce(i: nat, j: nat)
    requires i < 19 && j < 19 && Order(i) == Order(j)
    ensures i == j
  {
  }

  /** Every length has its turn. */
  lemma OrderAll(s: nat) returns (i: nat)
    requires s < 19
    ensures i < 19 && Order(i) == s
  {
    i := if s >= 16 then s - 16 else if s == 0 then 3 else if s >= 8 then 2 * (s - 8) + 4 else 2 * (8 - s) + 3;
  }

  /** The lengths with a turn before i are those of cl, and the others 0. */
  predicate ReadTo(cl: seq<nat>, cl0: seq<nat>, i: nat)
    requires |cl| == |cl0| == 19 && i <= 19
  {
    forall j | 0 <= j < 19 :: Order(j) < 19 && cl0[Order(j)] == if j < i then cl[Order(j)] else 0
  }

  predicate ClShape(cl: seq<nat>)
  {
    |cl| == 19 && forall i | 0 <= i < 19 :: cl[i] <= 7
  }

  lemma ClNext(cl: seq<nat>, cl0: seq<nat>, i: nat, v: nat)
    requires ClShape(cl) && ClShape(cl0) && i < 19 && ReadTo(cl, cl0, i) && v == cl[Order(i)]
    ensures ClShape(cl0[Order(i) := v]) && ReadTo(cl, cl0[Order(i) := v], i + 1)
  {
    hide Order;
    forall j | 0 <= j < 19 && Order(j) == Order(i)
      ensures j == i
    {
      OrderOnce(i, j);
    }
  }

  lemma ClAll(cl: seq<nat>, cl0: seq<nat>, n: nat)
    requires |cl| == |cl0| == 19 && n <= 19 && ReadTo(cl, cl0, n)
    requires forall i | n <= i < 19 :: Order(i) < 19 && cl[Order(i)] == 0
    ensures cl0 == cl
  {
    hide Order;
    forall s | 0 <= s < 19
      ensures cl0[s] == cl[s]
    {
      var i := OrderAll(s);
    }
  }

  lemma ClStep(bits: seq<bit>, last: bool, nl: nat, nd: nat, n: nat, i: nat, cl0: seq<nat>, pos: nat, out: seq<byte>)
    requires pos <= |bits| && 257 <= nl <= 286 && 1 <= nd <= 32 && i < n <= 19 && ClShape(cl0)
    requires pos + 3 <= |bits|
    ensures Order(i) < 19 && Lsb(bits, pos, 3) <= 7 && ClShape(cl0[Order(i) := Lsb(bits, pos, 3)])
    ensures CodeLens(bits, last, nl, nd, n, i, cl0, pos, out)
            == CodeLens(bits, last, nl, nd, n, i + 1, cl0[Order(i) := Lsb(bits, pos, 3)], pos + 3, out)
  {
    hide Lens, Usable, Lsb, Order;
    OrderIs(i);
    LsbBound(bits, pos, 3);
    assert Lsb(bits, pos, 3) < 8 by { Pow2Values(); }
  }

  lemma ClEnd(bits: seq<bit>, last: bool, nl: nat, nd: nat, n: nat, cl: seq<nat>, pos: nat, out: seq<byte>)
    requires pos <= |bits| && 257 <= nl <= 286 && 1 <= nd <= 32 && n <= 19 && ClShape(cl)
    ensures CodeLens(bits, last, nl, nd, n, n, cl, pos, out)
            == if Usable(cl) then Lens(bits, last, nl, nd, cl, [], pos, out) else Bad(out, pos)
  {
    hide Lens, Usable;
  }

  lemma OrderBelow(i: nat)
    requires i < 19
    ensures Order(i) < 19
  {
  }

  lemma {:induction false} ClWritten(bits: seq<bit>, last: bool, nl: nat, nd: nat, n: nat, i: nat, cl: seq<nat>,
                                     cl0: seq<nat>, pos: nat, out: seq<byte>)
    requires 257 <= nl <= 286 && 1 <= nd <= 32 && i <= n <= 19 && ClShape(cl) && ClShape(cl0) && Usable(cl)
    requires ReadTo(cl, cl0, i) && forall j | n <= j < 19 :: Order(j) < 19 && cl[Order(j)] == 0
    requires pos <= |bits| && At(bits, pos, ClBits(cl, i, n))
    ensures pos + |ClBits(cl, i, n)| <= |bits|
    ensures CodeLens(bits, last, nl, nd, n, i, cl0, pos, out)
            == Lens(bits, last, nl, nd, cl, [], pos + |ClBits(cl, i, n)|, out)
    decreases n - i
  {
    hide Lens, CodeLens, Usable, At, Lsb, Order, ByteBits, ReadTo;
    if i == n {
      ClAll(cl, cl0, n);
      ClEnd(bits, last, nl, nd, n, cl, pos, out);
    } else {
      OrderBelow(i);
      var v := cl[Order(i)];
      AtPlus(bits, pos, ByteBits(v, 3), ClBits(cl, i + 1, n));
      assert v < Pow2(3) by { Pow2Values(); }
      NumberAt(bits, pos, v, 3);
      ClStep(bits, last, nl, nd, n, i, cl0, pos, out);
      ClNext(cl, cl0, i, v);
      ClWritten(bits, last, nl, nd, n, i + 1, cl, cl0[Order(i) := v], pos + 3, out);
    }
  }

  /** The lengths that are there. */
  lemma {:induction false} ClParsed(bits: seq<bit>, last: bool, nl: nat, nd: nat, n: nat, i: nat, cl0: seq<nat>,
                                    pos: nat, out: seq<byte>) returns (cl: seq<nat>)
    requires 257 <= nl <= 286 && 1 <= nd <= 32 && i <= n <= 19 && ClShape(cl0) && ReadTo(cl0, cl0, i)
    requires pos <= |bits| && Plain(CodeLens(bits, last, nl, nd, n, i, cl0, pos, out)).Done?
    ensures ClShape(cl) && Usable(cl) && ReadTo(cl, cl0, i) && At(bits, pos, ClBits(cl, i, n))
    ensures forall j | n <= j < 19 :: Order(j) < 19 && cl[Order(j)] == 0
    decreases n - i
  {
    hide Lens, CodeLens, Usable, At, Lsb, Order, ByteBits, ReadTo, Plain;
    if i == n {
      ClEnd(bits, last, nl, nd, n, cl0, pos, out);
      cl := cl0;
      ClRest(cl0, n);
      AtNone(bits, pos);
      BadIsPlain(out, pos);
    } else {
      ClRoom(bits, last, nl, nd, n, i, cl0, pos, out);
      ClStep(bits, last, nl, nd, n, i, cl0, pos, out);
      var v := Lsb(bits, pos, 3);
      ClTaken(cl0, i, v);
      cl := ClParsed(bits, last, nl, nd, n, i + 1, cl0[Order(i) := v], pos + 3, out);
      ClBack(cl, cl0, i, v);
      assert v < Pow2(3) by { LsbBound(bits, pos, 3); }
      NumberAt(bits, pos, v, 3);
      AtPlus(bits, pos, ByteBits(v, 3), ClBits(cl, i + 1, n));
    }
  }

  lemma BadIsPlain(out: seq<byte>, pos: nat)
    ensures Plain(Bad(out, pos)) == Bad(out, pos)
  {
  }

  lemma ClRest(cl: seq<nat>, n: nat)
    requires |cl| == 19 && n <= 19 && ReadTo(cl, cl, n)
    ensures forall j | n <= j < 19 :: Order(j) < 19 && cl[Order(j)] == 0
  {
  }

  lemma ClRoom(bits: seq<bit>, last: bool, nl: nat, nd: nat, n: nat, i: nat, cl0: seq<nat>, pos: nat, out: seq<byte>)
    requires 257 <= nl <= 286 && 1 <= nd <= 32 && i < n <= 19 && ClShape(cl0)
    requires pos <= |bits| && Plain(CodeLens(bits, last, nl, nd, n, i, cl0, pos, out)).Done?
    ensures pos + 3 <= |bits|
  {
    hide Lens, Usable, Lsb;
  }

  lemma ClTaken(cl0: seq<nat>, i: nat, v: nat)
    requires ClShape(cl0) && i < 19 && Order(i) < 19 && ReadTo(cl0, cl0, i) && v <= 7
    ensures ReadTo(cl0[Order(i) := v], cl0[Order(i) := v], i + 1)
  {
    hide Order;
    forall j | 0 <= j < 19 && Order(j) == Order(i)
      ensures j == i
    {
      OrderOnce(i, j);
    }
  }

  lemma ClBack(cl: seq<nat>, cl0: seq<nat>, i: nat, v: nat)
    requires ClShape(cl) && ClShape(cl0) && i < 19 && Order(i) < 19 && ReadTo(cl0, cl0, i)
    requires ReadTo(cl, cl0[Order(i) := v], i + 1)
    ensures ReadTo(cl, cl0, i) && cl[Order(i)] == v
  {
    hide Order;
    forall j | 0 <= j < 19 && Order(j) == Order(i)
      ensures j == i
    {
      OrderOnce(i, j);
    }
  }

  // ---------- the code lengths ----------

  lemma CodeLengthStep(bits: seq<bit>, last: bool, nl: nat, nd: nat, cl: seq<nat>, acc: seq<nat>, pos: nat,
                       out: seq<byte>, c: nat, n: nat)
    requires pos <= |bits| && 257 <= nl <= 286 && 1 <= nd <= 32
    requires |cl| == 19 && Lengths(cl) && |acc| < nl + nd && Lengths(acc)
    requires DecodeSym(cl, bits, pos) == Symbol(c, n)
    ensures c <= 18 && pos + n <= |bits|
    ensures var r := Lens(bits, last, nl, nd, cl, acc, pos, out);
            && (c < 16 ==> r == Lens(bits, last, nl, nd, cl, acc + [c], pos + n, out))
            && (c >= 16 && pos + n + RepeatBits(c) <= |bits| ==>
                  var times := RepeatBase(c) + Lsb(bits, pos + n, RepeatBits(c));
                  |acc| + times <= nl + nd && (c == 16 ==> acc != []) ==>
                    r == Lens(bits, last, nl, nd, cl, acc + Repeat(if c == 16 then acc[|acc| - 1] else 0, times),
                              pos + n + RepeatBits(c), out))
  {
    hide Trees, DecodeSym, Usable, MaxLen, OnlySymbol, Lsb;
  }

  lemma LensEnd(bits: seq<bit>, last: bool, nl: nat, nd: nat, cl: seq<nat>, acc: seq<nat>, pos: nat, out: seq<byte>)
    requires pos <= |bits| && 257 <= nl <= 286 && 1 <= nd <= 32
    requires |cl| == 19 && Lengths(cl) && |acc| == nl + nd && Lengths(acc)
    ensures Lens(bits, last, nl, nd, cl, acc, pos, out) == Trees(bits, last, acc[..nl], acc[nl..], pos, out)
  {
    hide Trees, DecodeSym;
  }

  lemma RunCodeIs(words: seq<seq<bit>>, r: Run, acc: seq<nat>)
    requires RunOK(words, r, acc)
    ensures var k := RunCode(r);
            && k.value < Pow2(k.extra) && |Run1(r, acc)| > |acc|
            && (k.sym < 16 ==> k.extra == 0 && Run1(r, acc) == acc + [k.sym])
            && (k.sym >= 16 ==>
                  && k.sym <= 18 && k.extra == RepeatBits(k.sym) && (k.sym == 16 ==> acc != [])
                  && Run1(r, acc) == acc + Repeat(if k.sym == 16 then acc[|acc| - 1] else 0,
                                                  RepeatBase(k.sym) + k.value))
    ensures Lengths(acc) ==> Lengths(Run1(r, acc))
  {
    Pow2Values();
  }

  lemma RunWritten(bits: seq<bit>, last: bool, nl: nat, nd: nat, cl: seq<nat>, acc: seq<nat>, r: Run, pos: nat,
                   out: seq<byte>)
    requires pos <= |bits| && 257 <= nl <= 286 && 1 <= nd <= 32
    requires |cl| == 19 && Fits(cl) && Lengths(acc) && RunOK(Canonical(cl), r, acc) && |Run1(r, acc)| <= nl + nd
    requires At(bits, pos, CodedBits(Canonical(cl), RunCode(r)))
    ensures pos + |CodedBits(Canonical(cl), RunCode(r))| <= |bits| && Lengths(Run1(r, acc))
    ensures Lens(bits, last, nl, nd, cl, acc, pos, out)
            == Lens(bits, last, nl, nd, cl, Run1(r, acc), pos + |CodedBits(Canonical(cl), RunCode(r))|, out)
  {
    hide Lens, At, DecodeSym, Canonical, Lsb, CodedBits, Kraft, Shl, Run1, RepeatBase, RepeatBits;
    RunCodeIs(Canonical(cl), r, acc);
    var k := RunCode(r);
    CodedAt(cl, bits, pos, k);
    CodeLengthStep(bits, last, nl, nd, cl, acc, pos, out, k.sym, |Canonical(cl)[k.sym]|);
  }

  lemma {:induction false} LengthsGrow(words: seq<seq<bit>>, rs: seq<Run>, acc: seq<nat>)
    requires RunsOK(words, rs, acc)
    ensures |AllLengths(words, rs, acc)| >= |acc|
    ensures rs != [] ==> |AllLengths(words, rs, acc)| >= |Run1(rs[0], acc)| > |acc|
    decreases |rs|
  {
    hide RunOK, Run1;
    if rs != [] {
      RunCodeIs(words, rs[0], acc);
      RunPossible(words, rs[0], acc);
      LengthsGrow(words, rs[1..], Run1(rs[0], acc));
    }
  }

  lemma RunPossible(words: seq<seq<bit>>, r: Run, acc: seq<nat>)
    requires RunOK(words, r, acc)
    ensures r.Again? ==> acc != []
  {
  }

  lemma {:induction false} RunsWritten(bits: seq<bit>, last: bool, nl: nat, nd: nat, cl: seq<nat>, acc: seq<nat>,
                                       rs: seq<Run>, pos: nat, out: seq<byte>)
    requires pos <= |bits| && 257 <= nl <= 286 && 1 <= nd <= 32
    requires |cl| == 19 && Fits(cl) && Lengths(acc) && RunsOK(Canonical(cl), rs, acc)
    requires |AllLengths(Canonical(cl), rs, acc)| == nl + nd
    requires At(bits, pos, RunsBits(Canonical(cl), rs, acc))
    ensures pos + |RunsBits(Canonical(cl), rs, acc)| <= |bits| && |acc| <= nl + nd
    ensures var all := AllLengths(Canonical(cl), rs, acc);
            Lengths(all) && Lens(bits, last, nl, nd, cl, acc, pos, out)
                            == Trees(bits, last, all[..nl], all[nl..], pos + |RunsBits(Canonical(cl), rs, acc)|, out)
    decreases |rs|
  {
    hide Lens, Trees, At, DecodeSym, Canonical, CodedBits, Kraft, Shl, Run1, RunOK;
    var w := Canonical(cl);
    LengthsGrow(w, rs, acc);
    if rs == [] {
      LensEnd(bits, last, nl, nd, cl, acc, pos, out);
    } else {
      RunPossible(w, rs[0], acc);
      RunShape(w, rs[0], acc);
      var s, acc' := CodedBits(w, RunCode(rs[0])), Run1(rs[0], acc);
      AtPlus(bits, pos, s, RunsBits(w, rs[1..], acc'));
      RunWritten(bits, last, nl, nd, cl, acc, rs[0], pos, out);
      RunsWritten(bits, last, nl, nd, cl, acc', rs[1..], pos + |s|, out);
    }
  }

  lemma RunShape(words: seq<seq<bit>>, r: Run, acc: seq<nat>)
    requires RunOK(words, r, acc)
    ensures r.Length? || r.times >= if r.ManyZeros? then 11 else 3
    ensures RunCode(r).sym < |words|
  {
  }

  lemma GoodLens(bits: seq<bit>, last: bool, nl: nat, nd: nat, cl: seq<nat>, acc: seq<nat>, pos: nat, out: seq<byte>)
    requires pos <= |bits| && 257 <= nl <= 286 && 1 <= nd <= 32
    requires |cl| == 19 && Lengths(cl) && |acc| < nl + nd && Lengths(acc)
    requires Plain(Lens(bits, last, nl, nd, cl, acc, pos, out)).Done?
    ensures var d := DecodeSym(cl, bits, pos);
            && d.Symbol?
            && (d.sym >= 16 ==>
                  && pos + d.len + RepeatBits(d.sym) <= |bits|
                  && |acc| + RepeatBase(d.sym) + Lsb(bits, pos + d.len, RepeatBits(d.sym)) <= nl + nd)
            && (d.sym == 16 ==> acc != [])
  {
    hide Trees, DecodeSym, Usable, MaxLen, OnlySymbol, Lsb;
  }

  function RunOf(c: nat, v: nat): Run
  {
    if c < 16 then Length(c) else if c == 16 then Again(3 + v) else if c == 17 then Zeros(3 + v) else ManyZeros(11 + v)
  }

  lemma RunOfIs(words: seq<seq<bit>>, c: nat, v: nat, acc: seq<nat>)
    requires c <= 18 && Has(words, c) && v < Pow2(if c < 16 then 0 else RepeatBits(c)) && (c == 16 ==> acc != [])
    ensures RunOK(words, RunOf(c, v), acc)
    ensures RunCode(RunOf(c, v)) == Coded(c, if c < 16 then 0 else RepeatBits(c), v)
    ensures |Run1(RunOf(c, v), acc)| == |acc| + if c < 16 then 1 else RepeatBase(c) + v
  {
    Pow2Values();
  }

  lemma {:induction false} RunsParsed(bits: seq<bit>, last: bool, nl: nat, nd: nat, cl: seq<nat>, acc: seq<nat>,
                                      pos: nat, out: seq<byte>) returns (rs: seq<Run>)
    requires pos <= |bits| && 257 <= nl <= 286 && 1 <= nd <= 32
    requires |cl| == 19 && Fits(cl) && Lengths(acc) && |acc| <= nl + nd
    requires Plain(Lens(bits, last, nl, nd, cl, acc, pos, out)).Done?
    ensures RunsOK(Canonical(cl), rs, acc) && |AllLengths(Canonical(cl), rs, acc)| == nl + nd
    ensures At(bits, pos, RunsBits(Canonical(cl), rs, acc))
    decreases nl + nd - |acc|
  {
    hide Lens, At, DecodeSym, Canonical, CodedBits, Kraft, Shl, Run1, RunOK, RunOf, RepeatBits, RepeatBase, Lsb, Plain;
    var w := Canonical(cl);
    if |acc| == nl + nd {
      rs := [];
      AtNone(bits, pos);
    } else {
      GoodLens(bits, last, nl, nd, cl, acc, pos, out);
      var d := DecodeSym(cl, bits, pos);
      assert d.sym <= 18;
      var e := if d.sym < 16 then 0 else RepeatBits(d.sym);
      var v := Lsb(bits, pos + d.len, e);
      NoValue(bits, pos + d.len);
      CodedThere(cl, bits, pos, d.sym, d.len, e, v);
      var r := RunOf(d.sym, v);
      RunOfIs(w, d.sym, v, acc);
      RunPossible(w, r, acc);
      RunShape(w, r, acc);
      RunWritten(bits, last, nl, nd, cl, acc, r, pos, out);
      RunCodeIs(w, r, acc);
      var s := CodedBits(w, RunCode(r));
      var more := RunsParsed(bits, last, nl, nd, cl, Run1(r, acc), pos + |s|, out);
      AtPlus(bits, pos, s, RunsBits(w, more, Run1(r, acc)));
      rs := [r] + more;
      assert rs[1..] == more;
    }
  }

  lemma NoValue(bits: seq<bit>, pos: nat)
    requires pos <= |bits|
    ensures Lsb(bits, pos, 0) == 0
  {
  }

  // ---------- the header ----------

  /** What is taken goes on with x, and what is refused would. */
  predicate Onwards(r: Outcome, x: Outcome, taken: bool)
  {
    if taken then r == x else r.Refused? && r.rfc == Plain(x)
  }

  lemma UsableFits(lens: seq<nat>)
    requires Lengths(lens) && (Usable(lens) || forall i | 0 <= i < |lens| :: lens[i] == 0)
    ensures Fits(lens)
  {
    hide MaxLen, Shl;
    if !Usable(lens) {
      NoKraft(lens, |lens|);
    }
  }

  lemma NoLengths(lens: seq<nat>)
    ensures MaxLen(lens) == 0 <==> forall i | 0 <= i < |lens| :: lens[i] == 0
  {
  }

  lemma TreesGoOn(bits: seq<bit>, last: bool, ll: seq<nat>, dl: seq<nat>, pos: nat, out: seq<byte>)
    requires pos <= |bits| && Lengths(ll) && Lengths(dl) && |ll| <= 288 && |dl| <= 32
    requires Usable(ll) && (Usable(dl) || forall i | 0 <= i < |dl| :: dl[i] == 0)
    ensures Onwards(Trees(bits, last, ll, dl, pos, out), Symbols(bits, last, Codes(ll, dl), pos, out),
                    |ll| <= 257 || exists i :: 0 <= i < |dl| && dl[i] > 0)
  {
    hide Symbols, Usable, MaxLen;
    NoLengths(dl);
  }

  lemma GoodTreesMean(bits: seq<bit>, last: bool, ll: seq<nat>, dl: seq<nat>, pos: nat, out: seq<byte>)
    requires pos <= |bits| && Lengths(ll) && Lengths(dl) && |ll| <= 288 && |dl| <= 32
    requires Plain(Trees(bits, last, ll, dl, pos, out)).Done?
    ensures Usable(ll) && (Usable(dl) || forall i | 0 <= i < |dl| :: dl[i] == 0)
  {
    hide Symbols, Usable, MaxLen;
    NoLengths(dl);
  }

  lemma HeaderStep(bits: seq<bit>, last: bool, pos: nat, out: seq<byte>, nl: nat, nd: nat, nc: nat)
    requires pos + 14 <= |bits|
    requires Lsb(bits, pos, 5) == nl - 257 && Lsb(bits, pos + 5, 5) == nd - 1 && Lsb(bits, pos + 10, 4) == nc - 4
    requires 257 <= nl <= 286
    ensures 1 <= nd <= 32 && 4 <= nc <= 19
    ensures var r := CodeLens(bits, last, nl, nd, nc, 0, seq(19, i => 0), pos + 14, out);
            Header(bits, last, pos, out) == if nd > 30 then Refused(out, pos + 14, Plain(r)) else r
  {
    hide CodeLens, Lsb;
    LsbBound(bits, pos + 5, 5);
    LsbBound(bits, pos + 10, 4);
    assert Pow2(5) == 32 && Pow2(4) == 16 by { Pow2Values(); }
  }

  lemma GoodHeader(bits: seq<bit>, last: bool, pos: nat, out: seq<byte>)
    requires pos <= |bits| && Plain(Header(bits, last, pos, out)).Done?
    ensures pos + 14 <= |bits| && Lsb(bits, pos, 5) <= 29
  {
    hide CodeLens, Lsb;
  }

  lemma NothingRead(cl: seq<nat>)
    requires ClShape(cl)
    ensures ClShape(seq(19, i => 0)) && ReadTo(cl, seq(19, i => 0), 0)
  {
  }

  lemma OnwardsTwice(r: Outcome, t: Outcome, x: Outcome, first: bool, second: bool, pos: nat, out: seq<byte>)
    requires Onwards(t, x, second)
    requires r == if first then t else Refused(out, pos, Plain(t))
    ensures Onwards(r, x, first && second)
  {
  }

  /** The three counts. */
  lemma CountsAt(bits: seq<bit>, pos: nat, h: Head, rest: seq<bit>)
    requires 257 <= h.nl <= 286 && 1 <= h.nd <= 32 && 4 <= h.nc <= 19
    ensures At(bits, pos, ByteBits(h.nl - 257, 5) + (ByteBits(h.nd - 1, 5) + (ByteBits(h.nc - 4, 4) + rest)))
            <==> pos + 14 <= |bits| && Lsb(bits, pos, 5) == h.nl - 257 && Lsb(bits, pos + 5, 5) == h.nd - 1
                 && Lsb(bits, pos + 10, 4) == h.nc - 4 && At(bits, pos + 14, rest)
  {
    hide At, Lsb, ByteBits;
    assert Pow2(5) == 32 && Pow2(4) == 16 by { Pow2Values(); }
    var a, b, c := ByteBits(h.nl - 257, 5), ByteBits(h.nd - 1, 5), ByteBits(h.nc - 4, 4);
    AtPlus(bits, pos, a, b + (c + rest));
    AtPlus(bits, pos + 5, b, c + rest);
    AtPlus(bits, pos + 10, c, rest);
    NumberAt(bits, pos, h.nl - 257, 5);
    NumberAt(bits, pos + 5, h.nd - 1, 5);
    NumberAt(bits, pos + 10, h.nc - 4, 4);
  }

  lemma HeadMeans(h: Head)
    requires HeadOK(h)
    ensures 257 <= h.nl <= 286 && 1 <= h.nd <= 32 && 4 <= h.nc <= 19 && ClShape(h.cl) && Usable(h.cl)
    ensures forall j | h.nc <= j < 19 :: Order(j) < 19 && h.cl[Order(j)] == 0
    ensures RunsOK(Canonical(h.cl), h.runs, [])
    ensures var all := AllLengths(Canonical(h.cl), h.runs, []);
            |all| == h.nl + h.nd && all[..h.nl] == LitLengths(h) && all[h.nl..] == DistLengths(h)
    ensures Lengths(LitLengths(h)) && Lengths(DistLengths(h)) && Usable(LitLengths(h))
    ensures Usable(DistLengths(h)) || forall i | 0 <= i < |DistLengths(h)| :: DistLengths(h)[i] == 0
  {
    hide Usable, RunsOK, AllLengths, Canonical;
  }

  /** The codes a header gives. */
  ghost function HeadCodes(h: Head): (c: Codes)
    requires HeadOK(h)
    ensures Coding(c, HeadWords(h)) && c == Codes(LitLengths(h), DistLengths(h))
  {
    hide Usable, Kraft, Canonical, RunsOK, AllLengths;
    UsableFits(LitLengths(h));
    UsableFits(DistLengths(h));
    Codes(LitLengths(h), DistLengths(h))
  }

  lemma HeadWritten(bits: seq<bit>, last: bool, h: Head, pos: nat, out: seq<byte>)
    requires HeadOK(h) && pos <= |bits| && At(bits, pos, HeadBits(h))
    ensures pos + |HeadBits(h)| <= |bits|
    ensures var x := Symbols(bits, last, HeadCodes(h), pos + |HeadBits(h)|, out);
            Onwards(Header(bits, last, pos, out), x, TakenHead(h))
  {
    hide At, Lsb, ByteBits, Header, CodeLens, Lens, Trees, Symbols, Usable, RunsOK, RunsBits, AllLengths, Canonical,
         ClBits, ReadTo, Onwards, Coding, HeadOK;
    HeadMeans(h);
    var w := Canonical(h.cl);
    var rest := ClBits(h.cl, 0, h.nc) + RunsBits(w, h.runs, []);
    CountsAt(bits, pos, h, rest);
    HeaderStep(bits, last, pos, out, h.nl, h.nd, h.nc);
    AtPlus(bits, pos + 14, ClBits(h.cl, 0, h.nc), RunsBits(w, h.runs, []));
    NothingRead(h.cl);
    ClWritten(bits, last, h.nl, h.nd, h.nc, 0, h.cl, seq(19, i => 0), pos + 14, out);
    UsableFits(h.cl);
    var p := pos + 14 + |ClBits(h.cl, 0, h.nc)|;
    RunsWritten(bits, last, h.nl, h.nd, h.cl, [], h.runs, p, out);
    var end := p + |RunsBits(w, h.runs, [])|;
    assert end == pos + |HeadBits(h)|;
    TreesGoOn(bits, last, LitLengths(h), DistLengths(h), end, out);
    var t := Trees(bits, last, LitLengths(h), DistLengths(h), end, out);
    var x := Symbols(bits, last, HeadCodes(h), end, out);
    OnwardsTwice(Header(bits, last, pos, out), t, x, h.nd <= 30,
                 h.nl == 257 || exists i :: 0 <= i < h.nd && DistLengths(h)[i] > 0, pos + 14, out);
  }

  lemma HeadParsed(bits: seq<bit>, last: bool, pos: nat, out: seq<byte>) returns (h: Head)
    requires pos <= |bits| && Plain(Header(bits, last, pos, out)).Done?
    ensures HeadOK(h) && At(bits, pos, HeadBits(h))
  {
    hide At, Lsb, ByteBits, Header, CodeLens, Lens, Trees, Usable, RunsOK, RunsBits, AllLengths, Canonical, ClBits,
         ReadTo, Onwards, Plain;
    GoodHeader(bits, last, pos, out);
    var nl, nd, nc := 257 + Lsb(bits, pos, 5), 1 + Lsb(bits, pos + 5, 5), 4 + Lsb(bits, pos + 10, 4);
    HeaderStep(bits, last, pos, out, nl, nd, nc);
    var cl0 := seq(19, i => 0);
    NothingRead(cl0);
    var r := CodeLens(bits, last, nl, nd, nc, 0, cl0, pos + 14, out);
    RefusedPlain(out, pos + 14, r);
    var cl := ClParsed(bits, last, nl, nd, nc, 0, cl0, pos + 14, out);
    ClWritten(bits, last, nl, nd, nc, 0, cl, cl0, pos + 14, out);
    UsableFits(cl);
    var w := Canonical(cl);
    var p := pos + 14 + |ClBits(cl, 0, nc)|;
    var runs := RunsParsed(bits, last, nl, nd, cl, [], p, out);
    RunsWritten(bits, last, nl, nd, cl, [], runs, p, out);
    h := Head(nl, nd, nc, cl, runs);
    var all := AllLengths(w, runs, []);
    GoodTreesMean(bits, last, all[..nl], all[nl..], p + |RunsBits(w, runs, [])|, out);
    AtPlus(bits, pos + 14, ClBits(cl, 0, nc), RunsBits(w, runs, []));
    CountsAt(bits, pos, h, ClBits(cl, 0, nc) + RunsBits(w, runs, []));
  }

  lemma RefusedPlain(out: seq<byte>, pos: nat, r: Outcome)
    ensures Plain(Refused(out, pos, Plain(r))) == Plain(r)
  {
  }

  // ---------- stored blocks ----------

  lemma {:induction false} DataWritten(bits: seq<bit>, last: bool, pos: nat, out: seq<byte>, data: seq<byte>)
    requires pos <= |bits| && At(bits, pos, BitsOf(data))
    ensures pos + 8 * |data| <= |bits|
    ensures StoredBytes(bits, last, |data|, pos, out) == Next(bits, last, pos + 8 * |data|, out + data)
    decreases |data|
  {
    hide At, Lsb, ByteBits, Next, StoredBytes;
    if data == [] {
      assert out + data == out;
      StoredStep(bits, last, 0, pos, out);
    } else {
      AtPlus(bits, pos, ByteBits(data[0], 8), BitsOf(data[1..]));
      Pow2Values();
      NumberAt(bits, pos, data[0], 8);
      StoredStep(bits, last, |data|, pos, out);
      DataWritten(bits, last, pos + 8, out + [data[0]], data[1..]);
      assert out + [data[0]] + data[1..] == out + data;
    }
  }

  lemma StoredStep(bits: seq<bit>, last: bool, left: nat, pos: nat, out: seq<byte>)
    requires pos <= |bits|
    ensures left == 0 ==> StoredBytes(bits, last, left, pos, out) == Next(bits, last, pos, out)
    ensures left > 0 && pos + 8 <= |bits| ==>
              && Lsb(bits, pos, 8) < 256
              && StoredBytes(bits, last, left, pos, out)
                 == StoredBytes(bits, last, left - 1, pos + 8, out + [Lsb(bits, pos, 8)])
    ensures left > 0 && Plain(StoredBytes(bits, last, left, pos, out)).Done? ==> pos + 8 <= |bits|
  {
    hide Next, Lsb;
    if pos + 8 <= |bits| {
      LsbBound(bits, pos, 8);
      Pow2Values();
    }
  }

  lemma {:induction false} DataParsed(bits: seq<bit>, last: bool, left: nat, pos: nat, out: seq<byte>)
    returns (data: seq<byte>)
    requires pos <= |bits| && Plain(StoredBytes(bits, last, left, pos, out)).Done?
    ensures |data| == left && At(bits, pos, BitsOf(data))
    decreases left
  {
    hide At, Lsb, ByteBits, Next, StoredBytes, Plain;
    if left == 0 {
      data := [];
      AtNone(bits, pos);
    } else {
      StoredStep(bits, last, left, pos, out);
      var b: byte := Lsb(bits, pos, 8);
      var more := DataParsed(bits, last, left - 1, pos + 8, out + [b]);
      data := [b] + more;
      assert data[1..] == more;
      Pow2Values();
      NumberAt(bits, pos, b, 8);
      AtPlus(bits, pos, ByteBits(b, 8), BitsOf(more));
    }
  }

  lemma StoredAt(bits: seq<bit>, pos: nat, n: nat, data: seq<byte>)
    requires |data| == n <= 65535
    ensures At(bits, pos, ByteBits(n, 16) + (ByteBits(65535 - n, 16) + BitsOf(data)))
            <==> pos + 32 <= |bits| && Lsb(bits, pos, 16) == n && Lsb(bits, pos + 16, 16) == 65535 - n
                 && At(bits, pos + 32, BitsOf(data))
  {
    hide At, Lsb, ByteBits, BitsOf;
    assert Pow2(16) == 65536 by { Pow2Values(); }
    AtPlus(bits, pos, ByteBits(n, 16), ByteBits(65535 - n, 16) + BitsOf(data));
    AtPlus(bits, pos + 16, ByteBits(65535 - n, 16), BitsOf(data));
    NumberAt(bits, pos, n, 16);
    NumberAt(bits, pos + 16, 65535 - n, 16);
  }

  lemma StoredLenStep(bits: seq<bit>, last: bool, pos: nat, out: seq<byte>)
    requires pos <= |bits|
    ensures pos + 32 <= |bits| && Lsb(bits, pos, 16) + Lsb(bits, pos + 16, 16) == 65535 ==>
              StoredLen(bits, last, pos, out) == StoredBytes(bits, last, Lsb(bits, pos, 16), pos + 32, out)
    ensures Plain(StoredLen(bits, last, pos, out)).Done? ==>
              pos + 32 <= |bits| && Lsb(bits, pos, 16) + Lsb(bits, pos + 16, 16) == 65535
  {
    hide StoredBytes, Lsb;
  }

  // ---------- blocks ----------

  lemma AtStart(bits: seq<bit>, pos: nat, last: bool, a: bit, b: bit, rest: seq<bit>)
    ensures var first: bit := if last then 1 else 0;
            At(bits, pos, [first] + ([a, b] + rest))
            <==> pos + 3 <= |bits| && last == (bits[pos] == 1) && Lsb(bits, pos + 1, 2) == a + 2 * b
                 && At(bits, pos + 3, rest)
  {
    hide At;
    var first: bit := if last then 1 else 0;
    AtPlus(bits, pos, [first], [a, b] + rest);
    AtPlus(bits, pos + 1, [a, b], rest);
    AtPlus(bits, pos + 1, [a], [b]);
    assert [a] + [b] == [a, b];
    AtOne(bits, pos, first);
    AtOne(bits, pos + 1, a);
    AtOne(bits, pos + 2, b);
    if pos + 3 <= |bits| { TwoBits(bits, pos + 1); }
    if At(bits, pos + 3, rest) { AtRoom(bits, pos + 3, rest); }
  }

  lemma AtRoom(bits: seq<bit>, pos: nat, s: seq<bit>)
    requires At(bits, pos, s)
    ensures pos + |s| <= |bits|
  {
  }

  lemma TwoBits(bits: seq<bit>, pos: nat)
    requires pos + 2 <= |bits|
    ensures Lsb(bits, pos, 2) == bits[pos] + 2 * (bits[pos + 1] as int)
  {
    assert Lsb(bits, pos + 2, 0) == 0;
    assert Lsb(bits, pos + 1, 1) == bits[pos + 1] + 2 * Lsb(bits, pos + 2, 0);
  }

  lemma BlocksStep(bits: seq<bit>, pos: nat, out: seq<byte>)
    requires pos <= |bits|
    ensures pos + 3 <= |bits| ==>
              var last, kind, r := bits[pos] == 1, Lsb(bits, pos + 1, 2), Blocks(bits, pos, out);
              && (kind == 0 && Align(pos + 3) <= |bits| ==> r == StoredLen(bits, last, Align(pos + 3), out))
              && (kind == 1 ==> r == Symbols(bits, last, Codes(FixedLit(), FixedDist()), pos + 3, out))
              && (kind == 2 ==> r == Header(bits, last, pos + 3, out))
    ensures Plain(Blocks(bits, pos, out)).Done? ==>
              && pos + 3 <= |bits| && Lsb(bits, pos + 1, 2) <= 2
              && (Lsb(bits, pos + 1, 2) == 0 ==> Align(pos + 3) <= |bits|)
  {
    hide StoredLen, Symbols, Header, Lsb, FixedLit, FixedDist;
    if pos + 3 <= |bits| {
      LsbBound(bits, pos + 1, 2);
      Pow2Values();
    }
  }

  lemma FixedCoding()
    ensures Coding(Codes(FixedLit(), FixedDist()), FixedWords())
  {
    hide FixedLit, FixedDist, FixedWords, Kraft, Canonical, Shl;
    FixedIs();
    FixedFits();
  }

  lemma FixedFits()
    ensures Fits(FixedLit()) && Fits(FixedDist())
  {
    hide CountBelow, Kraft, Used, Shl;
    var ll, dl := FixedLit(), FixedDist();
    KraftIsUsed(ll, 288);
    KraftIsUsed(dl, 30);
    FixedCount(288);
    NoneShorter(ll, 7);
    NoneShorter(dl, 5);
    FixedDistCount(30);
    KraftCompare(ll, 9);
    KraftCompare(dl, 5);
    Pow2Values();
    assert First(ll, 8) == 48 && First(ll, 9) == 400;
  }

  lemma AlignIs(pos: nat, n: nat)
    requires n < 8 && (pos + 3 + n) % 8 == 0
    ensures Align(pos + 3) == pos + 3 + n
  {
  }

  lemma StoredWritten(bits: seq<bit>, b: Block, last: bool, pos: nat, out: seq<byte>)
    requires b.Stored? && BlockOK(b, pos, out) && pos <= |bits| && At(bits, pos, BlockBits(b, last, pos, out))
    ensures pos + |BlockBits(b, last, pos, out)| <= |bits|
    ensures Blocks(bits, pos, out) == Next(bits, last, pos + |BlockBits(b, last, pos, out)|, out + b.data)
  {
    hide At, Lsb, ByteBits, BitsOf, Header, Symbols, StoredLen, StoredBytes, Next, Blocks, HeadOK, HeadBits, HeadWords,
         TokensOK, TokensBits, AllExpanded, FixedWords, FixedLit, FixedDist, Coding, TakenHead, HeadShape, Align;
    BlocksStep(bits, pos, out);
    var n := |b.data|;
    var rest := ByteBits(n, 16) + (ByteBits(65535 - n, 16) + BitsOf(b.data));
    AtStart(bits, pos, last, 0, 0, b.pad + rest);
    AtPlus(bits, pos + 3, b.pad, rest);
    AlignIs(pos, |b.pad|);
    var p := pos + 3 + |b.pad|;
    StoredAt(bits, p, n, b.data);
    StoredLenStep(bits, last, p, out);
    DataWritten(bits, last, p + 32, out, b.data);
  }

  lemma FixedWritten(bits: seq<bit>, ts: seq<Token>, last: bool, pos: nat, out: seq<byte>)
    requires TokensOK(FixedWords(), ts, out) && pos <= |bits|
    requires At(bits, pos, BlockBits(Fixed(ts), last, pos, out))
    ensures pos + |BlockBits(Fixed(ts), last, pos, out)| <= |bits|
    ensures Blocks(bits, pos, out)
            == Next(bits, last, pos + |BlockBits(Fixed(ts), last, pos, out)|, AllExpanded(FixedWords(), ts, out))
  {
    hide At, Lsb, ByteBits, BitsOf, Header, Symbols, StoredLen, StoredBytes, Next, Blocks, HeadOK, HeadBits, HeadWords,
         TokensOK, TokensBits, AllExpanded, FixedWords, FixedLit, FixedDist, Coding, TakenHead, HeadShape, Align;
    BlocksStep(bits, pos, out);
    AtStart(bits, pos, last, 1, 0, TokensBits(FixedWords(), ts, out));
    FixedCoding();
    TokensWritten(bits, last, Codes(FixedLit(), FixedDist()), FixedWords(), ts, pos + 3, out);
  }

  lemma DynamicBits(h: Head, ts: seq<Token>, last: bool, pos: nat, out: seq<byte>)
    requires HeadOK(h) && HeadShape(h) && TokensOK(HeadWords(h), ts, out)
    ensures var first: bit := if last then 1 else 0;
            BlockBits(Dynamic(h, ts), last, pos, out)
            == [first] + ([0, 1] + (HeadBits(h) + TokensBits(HeadWords(h), ts, out)))
  {
    hide HeadOK, HeadShape, TokensOK, TokensBits, HeadBits, HeadWords;
  }

  lemma DynamicWritten(bits: seq<bit>, h: Head, ts: seq<Token>, last: bool, pos: nat, out: seq<byte>)
    requires HeadOK(h) && TokensOK(HeadWords(h), ts, out) && pos <= |bits|
    requires At(bits, pos, BlockBits(Dynamic(h, ts), last, pos, out))
    ensures pos + |BlockBits(Dynamic(h, ts), last, pos, out)| <= |bits|
    ensures var x := Next(bits, last, pos + |BlockBits(Dynamic(h, ts), last, pos, out)|,
                          AllExpanded(HeadWords(h), ts, out));
            Onwards(Blocks(bits, pos, out), x, TakenHead(h))
  {
    hide At, Lsb, ByteBits, BitsOf, Header, Symbols, StoredLen, StoredBytes, Next, Blocks, HeadOK, HeadBits, HeadWords,
         TokensOK, TokensBits, AllExpanded, FixedWords, FixedLit, FixedDist, Coding, TakenHead, HeadShape, Align,
             Onwards, BlockBits;
    BlocksStep(bits, pos, out);
    HeadIsShaped(h);
    DynamicBits(h, ts, last, pos, out);
    AtStart(bits, pos, last, 0, 1, HeadBits(h) + TokensBits(HeadWords(h), ts, out));
    AtPlus(bits, pos + 3, HeadBits(h), TokensBits(HeadWords(h), ts, out));
    HeadWritten(bits, last, h, pos + 3, out);
    TokensWritten(bits, last, HeadCodes(h), HeadWords(h), ts, pos + 3 + |HeadBits(h)|, out);
  }

  /** Decoding a written block. */
  lemma BlockWritten(bits: seq<bit>, b: Block, last: bool, pos: nat, out: seq<byte>)
    requires BlockOK(b, pos, out) && pos <= |bits| && At(bits, pos, BlockBits(b, last, pos, out))
    ensures pos + |BlockBits(b, last, pos, out)| <= |bits|
    ensures var x := Next(bits, last, pos + |BlockBits(b, last, pos, out)|, BlockExpanded(b, pos, out));
            Onwards(Blocks(bits, pos, out), x, Taken(b))
  {
    hide At, Next, Blocks, HeadOK, HeadWords, TokensOK, AllExpanded, FixedWords, TakenHead, HeadShape, BlockBits;
    match b
    case Stored(_, _) => StoredWritten(bits, b, last, pos, out);
    case Fixed(ts) => FixedWritten(bits, ts, last, pos, out);
    case Dynamic(h, ts) =>
      HeadIsShaped(h);
      DynamicWritten(bits, h, ts, last, pos, out);
  }

  lemma HeadIsShaped(h: Head)
    requires HeadOK(h)
    ensures HeadShape(h)
  {
  }

  lemma StoredParsed(bits: seq<bit>, pos: nat, out: seq<byte>) returns (b: Block)
    requires pos + 3 <= |bits| && Plain(Blocks(bits, pos, out)).Done? && Lsb(bits, pos + 1, 2) == 0
    ensures b.Stored? && BlockOK(b, pos, out) && At(bits, pos, BlockBits(b, bits[pos] == 1, pos, out))
  {
    hide At, Lsb, ByteBits, BitsOf, Header, Symbols, StoredLen, StoredBytes, Next, Blocks, HeadOK, HeadBits, HeadWords,
         TokensOK, TokensBits, AllExpanded, FixedWords, FixedLit, FixedDist, Coding, TakenHead, HeadShape, Plain;
    BlocksStep(bits, pos, out);
    var last, p := bits[pos] == 1, Align(pos + 3);
    StoredLenStep(bits, last, p, out);
    var n := Lsb(bits, p, 16);
    var data := DataParsed(bits, last, n, p + 32, out);
    StoredAt(bits, p, n, data);
    var pad := bits[pos + 3..p];
    AtSlice(bits, pos + 3, p);
    var rest := ByteBits(n, 16) + (ByteBits(65535 - n, 16) + BitsOf(data));
    AtPlus(bits, pos + 3, pad, rest);
    AtStart(bits, pos, last, 0, 0, pad + rest);
    b := Stored(pad, data);
  }

  lemma FixedParsed(bits: seq<bit>, pos: nat, out: seq<byte>) returns (ts: seq<Token>)
    requires pos + 3 <= |bits| && Plain(Blocks(bits, pos, out)).Done? && Lsb(bits, pos + 1, 2) == 1
    ensures TokensOK(FixedWords(), ts, out) && At(bits, pos, BlockBits(Fixed(ts), bits[pos] == 1, pos, out))
  {
    hide At, Lsb, ByteBits, BitsOf, Header, Symbols, StoredLen, StoredBytes, Next, Blocks, HeadOK, HeadBits, HeadWords,
         TokensOK, TokensBits, AllExpanded, FixedWords, FixedLit, FixedDist, Coding, TakenHead, HeadShape, Plain, Align;
    BlocksStep(bits, pos, out);
    var last := bits[pos] == 1;
    FixedCoding();
    ts := TokensParsed(bits, last, Codes(FixedLit(), FixedDist()), FixedWords(), pos + 3, out);
    AtStart(bits, pos, last, 1, 0, TokensBits(FixedWords(), ts, out));
  }

  lemma DynamicParsed(bits: seq<bit>, pos: nat, out: seq<byte>) returns (h: Head, ts: seq<Token>)
    requires pos + 3 <= |bits| && Plain(Blocks(bits, pos, out)).Done? && Lsb(bits, pos + 1, 2) == 2
    ensures HeadOK(h) && TokensOK(HeadWords(h), ts, out)
    ensures At(bits, pos, BlockBits(Dynamic(h, ts), bits[pos] == 1, pos, out))
  {
    hide At, Lsb, ByteBits, BitsOf, Header, Symbols, StoredLen, StoredBytes, Next, Blocks, HeadOK, HeadBits, HeadWords,
         TokensOK, TokensBits, AllExpanded, FixedWords, FixedLit, FixedDist, Coding, TakenHead, HeadShape, Plain, Align;
    BlocksStep(bits, pos, out);
    var last := bits[pos] == 1;
    h := HeadParsed(bits, last, pos + 3, out);
    HeadIsShaped(h);
    HeadWritten(bits, last, h, pos + 3, out);
    var c, p := HeadCodes(h), pos + 3 + |HeadBits(h)|;
    CodingIsValid(c, HeadWords(h));
    OnwardsPlain(Header(bits, last, pos + 3, out), Symbols(bits, last, c, p, out), TakenHead(h));
    ts := TokensParsed(bits, last, c, HeadWords(h), p, out);
    AtPlus(bits, pos + 3, HeadBits(h), TokensBits(HeadWords(h), ts, out));
    AtStart(bits, pos, last, 0, 1, HeadBits(h) + TokensBits(HeadWords(h), ts, out));
  }

  lemma CodingIsValid(c: Codes, w: Words)
    requires Coding(c, w)
    ensures ValidCodes(c)
  {
  }

  /** A block that can be decoded is written there. */
  lemma BlockParsed(bits: seq<bit>, pos: nat, out: seq<byte>) returns (b: Block, last: bool)
    requires pos <= |bits| && Plain(Blocks(bits, pos, out)).Done?
    ensures BlockOK(b, pos, out) && At(bits, pos, BlockBits(b, last, pos, out))
  {
    hide At, Lsb, Blocks, HeadOK, HeadWords, TokensOK, FixedWords, HeadShape, BlockBits, Plain, Align;
    BlocksStep(bits, pos, out);
    last := bits[pos] == 1;
    if Lsb(bits, pos + 1, 2) == 0 {
      b := StoredParsed(bits, pos, out);
    } else if Lsb(bits, pos + 1, 2) == 1 {
      var ts := FixedParsed(bits, pos, out);
      b := Fixed(ts);
    } else {
      var h, ts := DynamicParsed(bits, pos, out);
      b := Dynamic(h, ts);
    }
  }

  lemma AtSlice(bits: seq<bit>, pos: nat, end: nat)
    requires pos <= end <= |bits|
    ensures At(bits, pos, bits[pos..end])
  {
  }

  lemma OnwardsPlain(r: Outcome, x: Outcome, taken: bool)
    requires Onwards(r, x, taken)
    ensures Plain(r) == Plain(x) || (Plain(r) == r.rfc == Plain(x))
  {
  }

  // ---------- streams ----------

  lemma NextIs(bits: seq<bit>, last: bool, pos: nat, out: seq<byte>)
    requires pos <= |bits|
    ensures Next(bits, last, pos, out) == if last then Done(out, pos) else Blocks(bits, pos, out)
  {
    hide Blocks;
  }

  /** A written stream decodes to what was written, and inflate takes it exactly when it
      takes every block. */
  lemma {:induction false} StreamWritten(bits: seq<bit>, bs: seq<Block>, pos: nat, out: seq<byte>)
    requires StreamOK(bs, pos, out) && pos <= |bits| && At(bits, pos, StreamBits(bs, pos, out))
    ensures var r := Blocks(bits, pos, out);
            && Plain(r) == Done(StreamExpanded(bs, pos, out), pos + |StreamBits(bs, pos, out)|)
            && (r.Done? || r.Refused?)
            && (r.Done? <==> forall i | 0 <= i < |bs| :: Taken(bs[i]))
    decreases |bs|
  {
    hide At, Blocks, Next, BlockOK, BlockBits, BlockExpanded, Taken;
    if |bs| == 1 {
      BlockWritten(bits, bs[0], true, pos, out);
      NextIs(bits, true, pos + |BlockBits(bs[0], true, pos, out)|, BlockExpanded(bs[0], pos, out));
    } else {
      var s, out' := BlockBits(bs[0], false, pos, out), BlockExpanded(bs[0], pos, out);
      AtPlus(bits, pos, s, StreamBits(bs[1..], pos + |s|, out'));
      BlockWritten(bits, bs[0], false, pos, out);
      NextIs(bits, false, pos + |s|, out');
      StreamWritten(bits, bs[1..], pos + |s|, out');
      forall i | 0 < i < |bs|
        ensures bs[i] == bs[1..][i - 1]
      {
      }
    }
  }

  lemma {:induction false} StreamParsed(bits: seq<bit>, pos: nat, out: seq<byte>) returns (bs: seq<Block>)
    requires pos <= |bits| && Plain(Blocks(bits, pos, out)).Done?
    ensures StreamOK(bs, pos, out) && At(bits, pos, StreamBits(bs, pos, out))
    decreases |bits| - pos
  {
    hide At, Blocks, Next, BlockOK, BlockBits, BlockExpanded, Taken;
    var b, last := BlockParsed(bits, pos, out);
    BlockWritten(bits, b, last, pos, out);
    if last {
      bs := [b];
    } else {
      var s, out' := BlockBits(b, false, pos, out), BlockExpanded(b, pos, out);
      NextIs(bits, false, pos + |s|, out');
      var more := StreamParsed(bits, pos + |s|, out');
      bs := [b] + more;
      assert bs[1..] == more;
      AtPlus(bits, pos, s, StreamBits(more, pos + |s|, out'));
    }
  }

  /** The input starts with these bits, the first at the least significant end of the first
      byte. */
  predicate StartsWithBits(inp: seq<byte>, s: seq<bit>)
  {
    |s| <= 8 * |inp| && forall i | 0 <= i < |s| :: s[i] == BitIn(inp[i / 8], i % 8)
  }

  function BitIn(b: byte, i: nat): bit
  {
    if i == 0 then b % 2 else BitIn(b / 2, i - 1)
  }

  lemma {:induction false} BitOfByte(b: nat, n: nat, i: nat)
    requires i < n && b < 256
    ensures ByteBits(b, n)[i] == BitIn(b, i)
  {
    if i > 0 { BitOfByte(b / 2, n - 1, i - 1); }
  }

  lemma {:induction false} BitOfInput(inp: seq<byte>, i: nat)
    requires i < 8 * |inp|
    ensures BitsOf(inp)[i] == BitIn(inp[i / 8], i % 8)
    decreases |inp|
  {
    hide ByteBits, BitIn;
    if i < 8 {
      BitOfByte(inp[0], 8, i);
    } else {
      BitOfInput(inp[1..], i - 8);
    }
  }

  lemma StartsIs(inp: seq<byte>, s: seq<bit>)
    ensures StartsWithBits(inp, s) <==> At(BitsOf(inp), 0, s)
  {
    hide BitsOf, BitIn;
    assert |BitsOf(inp)| == 8 * |inp|;
    forall i | 0 <= i < 8 * |inp|
      ensures BitsOf(inp)[i] == BitIn(inp[i / 8], i % 8)
    {
      BitOfInput(inp, i);
    }
  }

  /** A stream is well-formed by RFC 1951 exactly when some blocks are written there. */
  lemma WellFormed(inp: seq<byte>)
    ensures Plain(Decode(inp)).Done? <==>
              exists bs: seq<Block> :: StreamOK(bs, 0, []) && StartsWithBits(inp, StreamBits(bs, 0, []))
  {
    hide At, Blocks, StreamOK, StreamBits, StreamExpanded, StartsWithBits, Plain;
    if Plain(Decode(inp)).Done? {
      var bs := StreamParsed(BitsOf(inp), 0, []);
      StartsIs(inp, StreamBits(bs, 0, []));
    }
    forall bs: seq<Block> | StreamOK(bs, 0, []) && StartsWithBits(inp, StreamBits(bs, 0, []))
      ensures Plain(Decode(inp)).Done?
    {
      StartsIs(inp, StreamBits(bs, 0, []));
      StreamWritten(BitsOf(inp), bs, 0, []);
    }
  }

  /** And then it decodes to the bytes that were written, whatever follows it. */
  lemma Inverse(inp: seq<byte>, bs: seq<Block>)
    requires StreamOK(bs, 0, []) && StartsWithBits(inp, StreamBits(bs, 0, []))
    ensures Plain(Decode(inp)) == Done(StreamExpanded(bs, 0, []), |StreamBits(bs, 0, [])|)
    ensures Decode(inp).Done? <==> forall i | 0 <= i < |bs| :: Taken(bs[i])
  {
    hide At, Blocks, StreamOK, StreamBits, StreamExpanded, StartsWithBits;
    StartsIs(inp, StreamBits(bs, 0, []));
    StreamWritten(BitsOf(inp), bs, 0, []);
  }
}
