/** The shell's CSV: writing a table with .mode csv and reading it back with .import. */
module Csv {
  import opened Basics

  const EOF: int := -1
  const QUOTE: byte := 34
  const CR: byte := 13
  const LF: byte := 10

  // ---------- writing ----------

  /** needCsvQuote. */
  predicate NeedCsvQuote(b: byte)
  {
    b <= 32 || b == 34 || b == 39 || b >= 127
  }

  predicate Special(b: byte, sep: byte)
  {
    NeedCsvQuote(b) || b == sep
  }

  predicate Quoted(f: Bytes, sep: byte)
  {
    f == [] || exists i | 0 <= i < |f| :: Special(f[i], sep)
  }

  function Doubled(f: Bytes): Bytes
  {
    if f == [] then [] else Doubled(f[..|f| - 1]) + (if f[|f| - 1] == QUOTE then [QUOTE, QUOTE] else [f[|f| - 1]])
  }

  /** A field as it stands in a file: as it is, or in quotes with its quotes doubled. */
  datatype Cell = Plain(text: Bytes) | InQuotes(text: Bytes)

  function CellText(c: Cell): Bytes
  {
    match c
    case Plain(f) => f
    case InQuotes(f) => [QUOTE] + Doubled(f) + [QUOTE]
  }

  /** The first n cells, each followed by the separator. */
  function CellsText(cells: seq<Cell>, n: nat, sep: byte): Bytes
    requires n <= |cells|
  {
    if n == 0 then [] else CellsText(cells, n - 1, sep) + CellText(cells[n - 1]) + [sep]
  }

  /** A row, and what ends it. */
  datatype Line = Line(cells: seq<Cell>, end: Bytes)

  function LineText(l: Line, sep: byte): Bytes
    requires l.cells != []
  {
    var n := |l.cells|;
    CellsText(l.cells, n - 1, sep) + CellText(l.cells[n - 1]) + l.end
  }

  function FileText(lines: seq<Line>, n: nat, sep: byte): Bytes
    requires n <= |lines| && forall r | 0 <= r < |lines| :: lines[r].cells != []
  {
    if n == 0 then [] else FileText(lines, n - 1, sep) + LineText(lines[n - 1], sep)
  }

  /** A field as RFC 4180 writes it, quoted when it needs to be. */
  function FieldCell(f: Bytes, sep: byte): Cell
  {
    if Quoted(f, sep) then InQuotes(f) else Plain(f)
  }

  function FieldText(f: Bytes, sep: byte): Bytes
  {
    CellText(FieldCell(f, sep))
  }

  /** A row as it is exported. */
  function ExportedLine(row: seq<Bytes>, sep: byte): (l: Line)
    ensures |l.cells| == |row|
  {
    Line(seq(|row|, i requires 0 <= i < |row| => FieldCell(row[i], sep)), [CR, LF])
  }

  function ExportedLines(t: seq<seq<Bytes>>, sep: byte): (lines: seq<Line>)
    ensures |lines| == |t| && forall r | 0 <= r < |t| :: lines[r] == ExportedLine(t[r], sep)
  {
    seq(|t|, r requires 0 <= r < |t| => ExportedLine(t[r], sep))
  }

  /** output_csv with a one-character separator. The loop leaves i at 0 when a
      character needs quotes, and so does an empty field. */
  method OutputCsv(z: Bytes, sep: byte, bSep: bool) returns (out: Bytes)
    ensures out == FieldText(z, sep) + (if bSep then [sep] else [])
  {
    var i: nat := 0;
    ghost var found := false;
    while i < |z|
      invariant i <= |z| && !found && forall j | 0 <= j < i :: !Special(z[j], sep)
    {
      if z[i] <= 32 || z[i] == 34 || z[i] == 39 || z[i] >= 127 || z[i] == sep {
        assert Special(z[i], sep);
        i := 0;
        found := true;
        break;
      }
      i := i + 1;
    }
    if i == 0 {
      out := [QUOTE];
      while i < |z|
        invariant i <= |z| && out == [QUOTE] + Doubled(z[..i])
      {
        assert z[..i + 1][..i] == z[..i];
        if z[i] == QUOTE { out := out + [QUOTE]; }
        out := out + [z[i]];
        i := i + 1;
      }
      assert z[..i] == z;
      out := out + [QUOTE];
    } else {
      out := z;
    }
    if bSep { out := out + [sep]; }
  }

  /** One row in mode csv. */
  method OutputRow(row: seq<Bytes>, sep: byte) returns (out: Bytes)
    requires |row| > 0
    ensures out == LineText(ExportedLine(row, sep), sep)
  {
    hide CellText, FieldCell;
    out := [];
    ghost var cells := ExportedLine(row, sep).cells;
    var i: nat := 0;
    while i < |row|
      invariant i <= |row|
      invariant if i < |row| then out == CellsText(cells, i, sep)
                else out == CellsText(cells, |row| - 1, sep) + CellText(cells[|row| - 1])
    {
      var f := OutputCsv(row[i], sep, i < |row| - 1);
      assert FieldText(row[i], sep) == CellText(cells[i]) == CellText(cells[i]) + [];
      ghost var before := out;
      out := out + f;
      i := i + 1;
      if i < |row| { assert out == before + CellText(cells[i - 1]) + [sep]; }
    }
    out := out + [CR, LF];
  }

  method Export(t: seq<seq<Bytes>>, sep: byte) returns (out: Bytes)
    requires forall r | 0 <= r < |t| :: |t[r]| > 0
    ensures out == FileText(ExportedLines(t, sep), |t|, sep)
  {
    hide LineText;
    out := [];
    var r: nat := 0;
    while r < |t|
      invariant r <= |t| && out == FileText(ExportedLines(t, sep), r, sep)
    {
      var line := OutputRow(t[r], sep);
      out := out + line;
      r := r + 1;
    }
  }

  // ---------- reading one field ----------

  /** fgetc. */
  function Getc(inp: Bytes, pos: nat): int
  {
    if pos < |inp| then inp[pos] else EOF
  }

  function After(inp: Bytes, pos: nat): nat
  {
    if pos < |inp| then pos + 1 else pos
  }

  /** do { n--; } while (z[n] != quote). */
  function Strip(z: Bytes): Bytes
  {
    if z == [] || z[|z| - 1] == QUOTE then z[..if z == [] then 0 else |z| - 1] else Strip(z[..|z| - 1])
  }

  /** A field that was read: its text, the position after it, and what ended it. */
  datatype Read = Read(z: Bytes, pos: nat, cTerm: int)

  predicate Ends(c: int, pc: int, ppc: int, cSep: int)
  {
    (c == cSep && pc == QUOTE) || (c == LF && pc == QUOTE) || (c == LF && pc == CR && ppc == QUOTE)
        || (c == EOF && pc == QUOTE)
  }

  /** The rest of a quoted field after text z, with the last two characters pc and ppc. */
  function ReadQuoted(inp: Bytes, pos: nat, z: Bytes, pc: int, ppc: int, cSep: int): (r: Read)
    ensures r.pos >= pos
    decreases |inp| - pos
  {
    var c := Getc(inp, pos);
    if c == QUOTE && pc == QUOTE then ReadQuoted(inp, pos + 1, z, 0, ppc, cSep)
    else if Ends(c, pc, ppc, cSep) then Read(Strip(z), After(inp, pos), c)
    else if c == EOF then Read(z, pos, c)
    else ReadQuoted(inp, pos + 1, z + [c], c, pc, cSep)
  }

  /** The rest of a plain field after text z. */
  function ReadPlain(inp: Bytes, pos: nat, z: Bytes, cSep: int): (r: Read)
    ensures r.pos >= pos
    decreases |inp| - pos
  {
    var c := Getc(inp, pos);
    if c == EOF || c == cSep || c == LF then
      Read(if c == LF && z != [] && z[|z| - 1] == CR then z[..|z| - 1] else z, After(inp, pos), c)
    else ReadPlain(inp, pos + 1, z + [c], cSep)
  }

  datatype FieldRead = NoField(pos: nat) | Field(r: Read)

  /** One field from pos on; a byte order mark is skipped when it is the first. */
  function ReadField(inp: Bytes, pos: nat, first: bool, cSep: int): (r: FieldRead)
    decreases |inp| - pos
  {
    var c := Getc(inp, pos);
    if c == EOF then NoField(pos)
    else if c == QUOTE then Field(ReadQuoted(inp, pos + 1, [], 0, 0, cSep))
    else if c == 0xef && first then
      if Getc(inp, pos + 1) != 0xbb then Field(ReadPlain(inp, pos + 1, [0xef], cSep))
      else if Getc(inp, pos + 2) != 0xbf then Field(ReadPlain(inp, pos + 2, [0xef, 0xbb], cSep))
      else ReadField(inp, pos + 3, false, cSep)
    else Field(ReadPlain(inp, pos, [], cSep))
  }

  /** struct ImportCtx: an input file with a position, the text of the field being
      read, and what ended the field before. */
  class ImportCtx {
    const inp: Bytes
    const cColSep: int
    var pos: nat
    var z: Bytes
    var cTerm: int
    var bNotFirst: bool

    constructor (inp: Bytes, cColSep: int)
      ensures this.inp == inp && this.cColSep == cColSep && pos == 0 && !bNotFirst
    {
      this.inp, this.cColSep := inp, cColSep;
      pos, z, cTerm, bNotFirst := 0, [], 0, false;
    }

    method Fgetc() returns (c: int)
      modifies this`pos
      ensures c == Getc(inp, old(pos)) && pos == After(inp, old(pos))
    {
      if pos < |inp| {
        c := inp[pos];
        pos := pos + 1;
      } else {
        c := EOF;
      }
    }

    /** The quoted half of csv_read_one_field. */
    method ReadQuotedField()
      modifies this`pos, this`z, this`cTerm
      ensures Read(z, pos, cTerm) == ReadQuoted(inp, old(pos), [], 0, 0, cColSep)
    {
      z := [];
      var pc, ppc := 0, 0;
      while true
        invariant ReadQuoted(inp, pos, z, pc, ppc, cColSep) == ReadQuoted(inp, old(pos), [], 0, 0, cColSep)
        invariant pc == QUOTE ==> z != [] && z[|z| - 1] == QUOTE
        invariant pc == CR && ppc == QUOTE ==> |z| >= 2 && z[|z| - 2] == QUOTE
        decreases |inp| - pos
      {
        ghost var pos0 := pos;
        var c := Fgetc();
        if c == QUOTE && pc == QUOTE {
          pc := 0;
          continue;
        }
        if Ends(c, pc, ppc, cColSep) {
          StripBack();
          cTerm := c;
          return;
        }
        if c == EOF {
          cTerm := c;
          return;
        }
        z := z + [c];
        ppc := pc;
        pc := c;
      }
    }

    /** do { n--; } while (z[n] != quote); the buffer holds a quote. */
    method StripBack()
      requires exists i :: 0 <= i < |z| && z[i] == QUOTE
      modifies this`z
      ensures z == Strip(old(z))
    {
      var n: nat := |z| - 1;
      assert z[..|z|] == z;
      while z[n] != QUOTE
        invariant n < |z| && Strip(z) == Strip(z[..n + 1])
        invariant exists i :: 0 <= i <= n && z[i] == QUOTE
        decreases n
      {
        assert z[..n + 1][..n] == z[..n];
        n := n - 1;
      }
      assert z[..n + 1][..n] == z[..n];
      z := z[..n];
    }

    /** while (c is neither EOF nor a separator): the rest of a plain field, whose
        next character c is at c0 and was read. */
    method ReadPlainField(c0: int, ghost pos0: nat)
      requires c0 == Getc(inp, pos0) && pos == After(inp, pos0)
      modifies this`pos, this`z, this`cTerm
      ensures Read(z, pos, cTerm) == ReadPlain(inp, pos0, old(z), cColSep)
    {
      var c := c0;
      ghost var p := pos0;
      while c != EOF && c != cColSep && c != LF
        invariant c == Getc(inp, p) && pos == After(inp, p)
        invariant ReadPlain(inp, p, z, cColSep) == ReadPlain(inp, pos0, old(z), cColSep)
        decreases |inp| - p
      {
        z := z + [c];
        p := pos;
        c := Fgetc();
      }
      if c == LF && z != [] && z[|z| - 1] == CR { z := z[..|z| - 1]; }
      cTerm := c;
    }

    /** csv_read_one_field; the first field of a file may start with a byte order mark. */
    method ReadOneField() returns (f: Option<Bytes>)
      modifies this
      ensures match ReadField(inp, old(pos), !old(bNotFirst), cColSep)
              case NoField(p) => f == None && pos == p && cTerm == EOF && (old(bNotFirst) ==> bNotFirst)
              case Field(r) => f == Some(r.z) && pos == r.pos && cTerm == r.cTerm && bNotFirst
      decreases |inp| - pos
    {
      hide ReadQuoted, ReadPlain;
      z := [];
      var c := Fgetc();
      if c == EOF {
        cTerm := EOF;
        return None;
      }
      if c == QUOTE {
        ReadQuotedField();
      } else {
        ghost var p := old(pos);
        if c == 0xef && !bNotFirst {
          z := z + [c];
          assert z == [0xef];
          p := pos;
          c := Fgetc();
          if c == 0xbb {
            z := z + [c];
            assert z == [0xef, 0xbb];
            p := pos;
            c := Fgetc();
            if c == 0xbf {
              bNotFirst := true;
              z := [];
              f := ReadOneField();
              return;
            }
          }
        }
        ReadPlainField(c, p);
      }
      f := Some(z);
      bNotFirst := true;
    }
  }

  // ---------- a written field is read back ----------

  predicate Here(inp: Bytes, pos: nat, s: Bytes)
  {
    pos + |s| <= |inp| && inp[pos..pos + |s|] == s
  }

  lemma HereSplit(inp: Bytes, pos: nat, a: Bytes, b: Bytes)
    requires Here(inp, pos, a + b)
    ensures Here(inp, pos, a) && Here(inp, pos + |a|, b)
  {
    var s := inp[pos..pos + |a + b|];
    assert s[..|a|] == a && s[|a|..] == b;
  }

  lemma HerePrefix(inp: Bytes, pos: nat, s: Bytes, n: nat)
    requires Here(inp, pos, s) && n <= |s|
    ensures Here(inp, pos, s[..n]) && Here(inp, pos + n, s[n..])
  {
    assert s == s[..n] + s[n..];
    HereSplit(inp, pos, s[..n], s[n..]);
  }

  lemma Assoc(a: Bytes, b: Bytes, c: Bytes)
    ensures a + b + c == a + (b + c)
  {
  }

  /** One-character separators that .import can tell from quotes and line ends. */
  predicate Separator(sep: byte)
  {
    sep != 0 && sep != QUOTE && sep != CR && sep != LF
  }

  /** colSeparator[0] is a char, so bytes from 128 on turn negative. */
  function SignedChar(b: byte): int
  {
    if b < 128 then b else b - 256
  }

  /** How a field may end at this place: with a separator that is recognised, a line end, or
      the end of the file. */
  predicate EndOfField(inp: Bytes, at: nat, term: Bytes, sep: byte, cSep: int)
  {
    && Here(inp, at, term)
    && ((term == [sep] && cSep == sep) || term == [CR, LF] || term == [LF] || (term == [] && at == |inp|))
  }

  /** The character that ended it. */
  function Ender(term: Bytes): int
  {
    if term == [] then EOF else term[|term| - 1]
  }

  /** A separator as csv_read_one_field has it. */
  predicate SepIs(sep: byte, cSep: int)
  {
    Separator(sep) && ((cSep == sep && sep < 128) || cSep < -1)
  }

  lemma {:induction false} DoubledPrefix(f: Bytes, k: nat)
    requires k <= |f|
    ensures |Doubled(f[..k])| <= |Doubled(f)| && Doubled(f)[..|Doubled(f[..k])|] == Doubled(f[..k])
    decreases |f|
  {
    if k < |f| {
      assert f[..|f| - 1][..k] == f[..k];
      DoubledPrefix(f[..|f| - 1], k);
    } else {
      assert f[..k] == f;
    }
  }

  function Part(x: byte): Bytes
  {
    if x == QUOTE then [QUOTE, QUOTE] else [x]
  }

  /** No quote is waiting to be paired or to end the field. */
  predicate Settled(pc: int, ppc: int)
  {
    pc != QUOTE && !(pc == CR && ppc == QUOTE)
  }

  lemma QuotedStep(inp: Bytes, at: nat, z: Bytes, x: byte, pc: int, ppc: int, cSep: int)
    requires Here(inp, at, Part(x)) && cSep != QUOTE && Settled(pc, ppc)
    ensures var c := if x == QUOTE then 0 else x;
            && Settled(c, pc)
            && ReadQuoted(inp, at, z, pc, ppc, cSep) == ReadQuoted(inp, at + |Part(x)|, z + [x], c, pc, cSep)
  {
    assert inp[at] == inp[at..at + |Part(x)|][0] == x;
    if x == QUOTE {
      assert inp[at + 1] == inp[at..at + 2][1] == QUOTE;
      assert ReadQuoted(inp, at, z, pc, ppc, cSep) == ReadQuoted(inp, at + 1, z + [x], QUOTE, pc, cSep);
    }
  }

  lemma DoubledStep(f: Bytes, k: nat)
    requires 0 < k <= |f|
    ensures Doubled(f[..k]) == Doubled(f[..k - 1]) + Part(f[k - 1])
  {
    assert f[..k][..k - 1] == f[..k - 1];
  }

  /** Reading the doubled text so far leaves the text itself. */
  lemma {:induction false} QuotedPrefix(inp: Bytes, pos: nat, f: Bytes, k: nat, cSep: int) returns (pc: int, ppc: int)
    requires k <= |f| && Here(inp, pos, Doubled(f)) && cSep != QUOTE
    ensures Settled(pc, ppc)
    ensures ReadQuoted(inp, pos, [], 0, 0, cSep)
            == ReadQuoted(inp, pos + |Doubled(f[..k])|, f[..k], pc, ppc, cSep)
  {
    hide ReadQuoted, Here;
    assert f[..0] == [];
    if k == 0 {
      pc, ppc := 0, 0;
    } else {
      var pc0, ppc0 := QuotedPrefix(inp, pos, f, k - 1, cSep);
      var x := f[k - 1];
      DoubledPrefix(f, k);
      DoubledStep(f, k);
      HerePrefix(inp, pos, Doubled(f), |Doubled(f[..k])|);
      HereSplit(inp, pos, Doubled(f[..k - 1]), Part(x));
      QuotedStep(inp, pos + |Doubled(f[..k - 1])|, f[..k - 1], x, pc0, ppc0, cSep);
      assert f[..k] == f[..k - 1] + [f[k - 1]];
      pc, ppc := if x == QUOTE then 0 else x, pc0;
    }
  }

  lemma QuotedBack(inp: Bytes, pos: nat, f: Bytes, term: Bytes, sep: byte, cSep: int)
    requires SepIs(sep, cSep) && EndOfField(inp, pos + |Doubled(f)| + 1, term, sep, cSep)
    requires Here(inp, pos, Doubled(f) + [QUOTE])
    ensures ReadQuoted(inp, pos, [], 0, 0, cSep) == Read(f, pos + |Doubled(f)| + 1 + |term|, Ender(term))
  {
    HereSplit(inp, pos, Doubled(f), [QUOTE]);
    var pc, ppc := QuotedPrefix(inp, pos, f, |f|, cSep);
    assert f[..|f|] == f;
    QuoteEnds(inp, pos + |Doubled(f)|, f, pc, ppc, term, sep, cSep);
  }

  /** The closing quote and what follows it. */
  lemma QuoteEnds(inp: Bytes, at: nat, f: Bytes, pc: int, ppc: int, term: Bytes, sep: byte, cSep: int)
    requires SepIs(sep, cSep) && Settled(pc, ppc) && Here(inp, at, [QUOTE]) && EndOfField(inp, at + 1, term, sep, cSep)
    ensures ReadQuoted(inp, at, f, pc, ppc, cSep) == Read(f, at + 1 + |term|, Ender(term))
  {
    assert inp[at] == inp[at..at + 1][0] == QUOTE;
    var z := f + [QUOTE];
    assert ReadQuoted(inp, at, f, pc, ppc, cSep) == ReadQuoted(inp, at + 1, z, QUOTE, pc, cSep);
    assert z[..|z| - 1] == f && Strip(z) == f;
    if term != [] {
      assert inp[at + 1] == inp[at + 1..at + 1 + |term|][0] == term[0];
      if term == [CR, LF] {
        assert inp[at + 2] == inp[at + 1..at + 3][1] == LF;
        var z' := z + [CR];
        assert z'[..|z'| - 1] == z && Strip(z') == Strip(z);
        assert ReadQuoted(inp, at + 1, z, QUOTE, pc, cSep) == ReadQuoted(inp, at + 2, z', CR, QUOTE, cSep);
      }
    }
  }

  /** Text that may stand without quotes: it does not start with one, and holds neither the
      separator nor a line end. */
  predicate PlainText(f: Bytes, sep: byte)
  {
    && (f == [] || (f[0] != 34 && f[|f| - 1] != 13))
    && forall i | 0 <= i < |f| :: f[i] != sep && f[i] != 10
  }

  /** Plain characters are read one by one. */
  lemma {:induction false} PlainPrefix(inp: Bytes, pos: nat, f: Bytes, k: nat, sep: byte, cSep: int)
    requires k <= |f| && Here(inp, pos, f) && SepIs(sep, cSep) && PlainText(f, sep)
    ensures ReadPlain(inp, pos, [], cSep) == ReadPlain(inp, pos + k, f[..k], cSep)
  {
    if k > 0 {
      PlainPrefix(inp, pos, f, k - 1, sep, cSep);
      assert inp[pos + k - 1] == inp[pos..pos + |f|][k - 1] == f[k - 1];
      assert f[..k] == f[..k - 1] + [f[k - 1]];
    }
  }

  lemma PlainBack(inp: Bytes, pos: nat, f: Bytes, term: Bytes, sep: byte, cSep: int)
    requires SepIs(sep, cSep) && PlainText(f, sep) && Here(inp, pos, f) && EndOfField(inp, pos + |f|, term, sep, cSep)
    ensures ReadPlain(inp, pos, [], cSep) == Read(f, pos + |f| + |term|, Ender(term))
  {
    hide ReadPlain, Here, EndOfField;
    PlainPrefix(inp, pos, f, |f|, sep, cSep);
    assert f[..|f|] == f;
    PlainEnds(inp, pos + |f|, f, term, sep, cSep);
  }

  lemma PlainEnds(inp: Bytes, at: nat, f: Bytes, term: Bytes, sep: byte, cSep: int)
    requires SepIs(sep, cSep) && EndOfField(inp, at, term, sep, cSep) && (f == [] || f[|f| - 1] != CR)
    ensures ReadPlain(inp, at, f, cSep) == Read(f, at + |term|, Ender(term))
  {
    if term != [] {
      assert inp[at] == inp[at..at + |term|][0] == term[0];
      if term == [CR, LF] {
        assert inp[at + 1] == inp[at..at + 2][1] == LF;
        var z := f + [CR];
        assert z[..|z| - 1] == f;
        assert ReadPlain(inp, at + 1, z, cSep) == Read(f, at + 2, LF);
      }
    }
  }

  const BOM: Bytes := [0xef, 0xbb, 0xbf]

  lemma PlainStep(inp: Bytes, pos: nat, z: Bytes, cSep: int)
    requires pos < |inp| && inp[pos] != cSep && inp[pos] != LF
    ensures ReadPlain(inp, pos, z, cSep) == ReadPlain(inp, pos + 1, z + [inp[pos]], cSep)
  {
  }

  /** Only a whole byte order mark is skipped. */
  lemma PlainField(inp: Bytes, pos: nat, first: bool, cSep: int)
    requires pos < |inp| && inp[pos] != QUOTE && cSep < 128 && (first ==> !Here(inp, pos, BOM))
    ensures ReadField(inp, pos, first, cSep) == Field(ReadPlain(inp, pos, [], cSep))
  {
    hide ReadPlain, ReadQuoted;
    if inp[pos] == 0xef && first {
      assert [] + [inp[pos]] == [0xef];
      PlainStep(inp, pos, [], cSep);
      if Getc(inp, pos + 1) == 0xbb {
        assert [0xef] + [inp[pos + 1]] == [0xef, 0xbb];
        PlainStep(inp, pos + 1, [0xef], cSep);
        if pos + 3 <= |inp| { assert inp[pos..pos + 3] == [inp[pos], inp[pos + 1], inp[pos + 2]]; }
      }
    }
  }

  predicate CellOK(c: Cell, sep: byte)
  {
    c.Plain? ==> PlainText(c.text, sep)
  }

  /** Every cell is read back, whatever follows, unless nothing at all is left to read. */
  lemma CellBack(inp: Bytes, pos: nat, c: Cell, term: Bytes, sep: byte, cSep: int, first: bool)
    requires SepIs(sep, cSep) && CellOK(c, sep) && CellText(c) + term != []
    requires Here(inp, pos, CellText(c)) && EndOfField(inp, pos + |CellText(c)|, term, sep, cSep)
    requires first ==> !Here(inp, pos, BOM)
    ensures ReadField(inp, pos, first, cSep) == Field(Read(c.text, pos + |CellText(c) + term|, Ender(term)))
  {
    hide ReadQuoted, ReadPlain, Doubled;
    var text := CellText(c);
    if text != [] { assert inp[pos] == inp[pos..pos + |text|][0] == text[0]; }
    else { assert inp[pos] == inp[pos..pos + |term|][0] == term[0]; }
    match c
    case Plain(f) =>
      PlainField(inp, pos, first, cSep);
      PlainBack(inp, pos, f, term, sep, cSep);
    case InQuotes(f) =>
      assert text == [QUOTE] + (Doubled(f) + [QUOTE]);
      HereSplit(inp, pos, [QUOTE], Doubled(f) + [QUOTE]);
      QuotedBack(inp, pos + 1, f, term, sep, cSep);
  }

  lemma FieldCellOK(f: Bytes, sep: byte)
    ensures CellOK(FieldCell(f, sep), sep) && CellText(FieldCell(f, sep)) != [] && FieldCell(f, sep).text == f
    ensures CellText(FieldCell(f, sep))[0] != 0xef
  {
    if !Quoted(f, sep) {
      forall i | 0 <= i < |f|
        ensures !Special(f[i], sep)
      {
      }
    }
  }

  /** Whatever output_csv writes, csv_read_one_field reads back. */
  lemma FieldBack(inp: Bytes, pos: nat, f: Bytes, term: Bytes, sep: byte, cSep: int, first: bool)
    requires SepIs(sep, cSep) && Here(inp, pos, FieldText(f, sep))
    requires EndOfField(inp, pos + |FieldText(f, sep)|, term, sep, cSep)
    ensures ReadField(inp, pos, first, cSep)
            == Field(Read(f, pos + |FieldText(f, sep) + term|, Ender(term)))
  {
    hide CellText, ReadField, EndOfField, FieldCell;
    FieldCellOK(f, sep);
    var text := FieldText(f, sep);
    assert inp[pos] == inp[pos..pos + |text|][0] == text[0];
    NoMark(inp, pos);
    CellBack(inp, pos, FieldCell(f, sep), term, sep, cSep, first);
  }

  lemma NoMark(inp: Bytes, pos: nat)
    requires pos < |inp| && inp[pos] != 0xef
    ensures !Here(inp, pos, BOM)
  {
    if pos + 3 <= |inp| { assert inp[pos..pos + 3][0] == inp[pos]; }
  }

  // ---------- .import ----------

  lemma {:induction false} QuotedProgress(inp: Bytes, pos: nat, z: Bytes, pc: int, ppc: int, cSep: int)
    requires pos <= |inp|
    ensures var r := ReadQuoted(inp, pos, z, pc, ppc, cSep);
            r.pos <= |inp| && r.cTerm >= EOF && (r.cTerm == EOF ==> r.pos == |inp|)
    decreases |inp| - pos
  {
    var c := Getc(inp, pos);
    if c == QUOTE && pc == QUOTE { QuotedProgress(inp, pos + 1, z, 0, ppc, cSep); }
    else if !Ends(c, pc, ppc, cSep) && c != EOF { QuotedProgress(inp, pos + 1, z + [c], c, pc, cSep); }
  }

  lemma {:induction false} PlainProgress(inp: Bytes, pos: nat, z: Bytes, cSep: int)
    requires pos <= |inp|
    ensures var r := ReadPlain(inp, pos, z, cSep);
            && r.pos <= |inp| && r.cTerm >= EOF && (pos < |inp| ==> r.pos > pos)
            && (r.cTerm == EOF ==> r.pos == |inp|)
    decreases |inp| - pos
  {
    var c := Getc(inp, pos);
    if !(c == EOF || c == cSep || c == LF) { PlainProgress(inp, pos + 1, z + [c], cSep); }
  }

  /** Reading a field uses up input, unless there is none. */
  lemma Progress(inp: Bytes, pos: nat, first: bool, cSep: int)
    requires pos <= |inp|
    ensures match ReadField(inp, pos, first, cSep)
            case NoField(p) => pos <= p == |inp|
            case Field(r) => pos < r.pos <= |inp| && r.cTerm >= EOF && (r.cTerm == EOF ==> r.pos == |inp|)
    decreases |inp| - pos
  {
    hide ReadQuoted, ReadPlain;
    if pos < |inp| {
      if inp[pos] == QUOTE { QuotedProgress(inp, pos + 1, [], 0, 0, cSep); }
      PlainProgress(inp, pos, [], cSep);
      PlainProgress(inp, pos + 1, [0xef], cSep);
      if pos + 2 <= |inp| { PlainProgress(inp, pos + 2, [0xef, 0xbb], cSep); }
      if pos + 3 <= |inp| { Progress(inp, pos + 3, false, cSep); }
    }
  }

  function Nulls(n: nat): seq<Option<Bytes>>
  {
    seq(n, i => None)
  }

  /** What a row of cells gives in a table of nCol columns: NULLs for missing cells; extra
      cells are dropped. */
  function Fitted(cells: seq<Cell>, nCol: nat): (v: seq<Option<Bytes>>)
    ensures |v| == nCol
  {
    seq(nCol, i requires 0 <= i < nCol => if i < |cells| then Some(cells[i].text) else None)
  }

  function Values(row: seq<Bytes>): seq<Option<Bytes>>
  {
    seq(|row|, i requires 0 <= i < |row| => Some(row[i]))
  }

  /** A line that can be read: every cell can, a line feed ends it, with or without a carriage
      return, or the end of the file, but then the last cell must not be empty. A separator
      that is not recognised must not be needed. */
  ghost predicate LineOK(l: Line, sep: byte, cSep: int)
  {
    && l.cells != [] && (forall i | 0 <= i < |l.cells| :: CellOK(l.cells[i], sep))
    && (cSep == sep || |l.cells| == 1)
    && (l.end == [10] || l.end == [13, 10] || (l.end == [] && l.cells[|l.cells| - 1] != Plain([])))
  }

  /** The line l is there from start on, and it is the last one if nothing ends it. */
  ghost predicate LineHere(inp: Bytes, start: nat, l: Line, sep: byte, cSep: int)
  {
    && SepIs(sep, cSep) && LineOK(l, sep, cSep) && Here(inp, start, LineText(l, sep))
    && (l.end == [] ==> start + |LineText(l, sep)| == |inp|)
  }

  /** Reading from pos on is reading from start on: only a byte order mark is in between. */
  predicate Skips(inp: Bytes, pos: nat, first: bool, start: nat)
  {
    if first && Here(inp, pos, BOM) then start == pos + 3 else start == pos
  }

  lemma MarkSkipped(inp: Bytes, pos: nat, first: bool, start: nat, cSep: int)
    requires Skips(inp, pos, first, start)
    ensures first && Here(inp, pos, BOM) ==> ReadField(inp, pos, first, cSep) == ReadField(inp, start, false, cSep)
  {
    hide ReadQuoted, ReadPlain;
    if first && Here(inp, pos, BOM) {
      var there := inp[pos..pos + 3];
      assert inp[pos] == there[0] && inp[pos + 1] == there[1] && inp[pos + 2] == there[2];
    }
  }

  function Term(l: Line, i: nat, sep: byte): Bytes
  {
    if i + 1 < |l.cells| then [sep] else l.end
  }

  lemma LinePart(inp: Bytes, start: nat, l: Line, i: nat, sep: byte)
    requires i < |l.cells| && Here(inp, start, LineText(l, sep))
    ensures Here(inp, start + |CellsText(l.cells, i, sep)|, CellText(l.cells[i]) + Term(l, i, sep))
    ensures i == |l.cells| - 1 ==>
              |LineText(l, sep)| == |CellsText(l.cells, i, sep)| + |CellText(l.cells[i]) + l.end|
    ensures i < |l.cells| - 1 ==>
              |CellsText(l.cells, i + 1, sep)|
              == |CellsText(l.cells, i, sep)| + |CellText(l.cells[i]) + [sep]|
  {
    hide CellText, Here, CellsText;
    var a, part := CellsText(l.cells, i, sep), CellText(l.cells[i]) + Term(l, i, sep);
    if i == |l.cells| - 1 {
      Assoc(a, CellText(l.cells[i]), l.end);
      HereSplit(inp, start, a, part);
    } else {
      CellsPrefix(l.cells, i + 1, |l.cells| - 1, sep);
      NextCells(l.cells, i, sep);
      var b := CellsText(l.cells, i + 1, sep);
      assert LineText(l, sep)[..|b|] == b;
      HerePrefix(inp, start, LineText(l, sep), |b|);
      HereSplit(inp, start, a, part);
    }
  }

  lemma {:induction false} CellsPrefix(cells: seq<Cell>, i: nat, n: nat, sep: byte)
    requires i <= n <= |cells|
    ensures |CellsText(cells, i, sep)| <= |CellsText(cells, n, sep)|
    ensures CellsText(cells, n, sep)[..|CellsText(cells, i, sep)|] == CellsText(cells, i, sep)
    decreases n
  {
    hide CellText;
    if i < n {
      CellsPrefix(cells, i, n - 1, sep);
      var a, b := CellsText(cells, i, sep), CellsText(cells, n - 1, sep);
      assert CellsText(cells, n, sep)[..|a|] == b[..|a|];
    }
  }

  lemma NextCells(cells: seq<Cell>, i: nat, sep: byte)
    requires i < |cells|
    ensures CellsText(cells, i + 1, sep) == CellsText(cells, i, sep) + (CellText(cells[i]) + [sep])
  {
    hide CellText;
    Assoc(CellsText(cells, i, sep), CellText(cells[i]), [sep]);
  }

  /** The place after the first m cells of a line. */
  function AfterCells(start: nat, l: Line, m: nat, sep: byte): nat
    requires m <= |l.cells| && l.cells != []
  {
    start + if m < |l.cells| then |CellsText(l.cells, m, sep)| else |LineText(l, sep)|
  }

  /** Reading cell number m of a line, at its place. */
  lemma LineCell(inp: Bytes, start: nat, l: Line, m: nat, sep: byte, cSep: int, pos: nat, first: bool)
    requires LineHere(inp, start, l, sep, cSep) && m < |l.cells|
    requires if m == 0 then Skips(inp, pos, first, start) else pos == AfterCells(start, l, m, sep) && !first
    ensures ReadField(inp, pos, first, cSep)
            == Field(Read(l.cells[m].text, AfterCells(start, l, m + 1, sep), Ender(Term(l, m, sep))))
  {
    hide ReadField, CellText, LineText, Doubled;
    var c, term := l.cells[m], Term(l, m, sep);
    LinePart(inp, start, l, m, sep);
    var at := start + |CellsText(l.cells, m, sep)|;
    HereSplit(inp, at, CellText(c), term);
    CellNotEmpty(c);
    if m == 0 {
      MarkSkipped(inp, pos, first, start, cSep);
      CellBack(inp, at, c, term, sep, cSep, first && !Here(inp, pos, BOM));
    } else {
      CellBack(inp, at, c, term, sep, cSep, false);
    }
  }

  lemma CellNotEmpty(c: Cell)
    ensures CellText(c) == [] ==> c == Plain([])
  {
  }

  /** The body of the import loop: the values bound for one row, or none at the end of
      the file. A short row is filled with NULLs, and extra fields are dropped: l is the
      line that starts here, if there is one.
      The loop over extra fields never ends when a separator of -1 meets the end of the
      file: each further read leaves the context as it is (EndOfInput). */
  method ImportRow(p: ImportCtx, nCol: nat, ghost sep: byte, ghost start: nat, ghost l: Line)
    returns (row: Option<seq<Option<Bytes>>>, endless: bool)
    requires nCol > 0 && p.pos <= |p.inp| && Skips(p.inp, p.pos, !p.bNotFirst, start)
    modifies p
    ensures endless <==> p.cColSep == EOF && p.cTerm == EOF
    ensures p.cTerm == EOF ==> p.pos == |p.inp|
    ensures old(p.pos) <= p.pos <= |p.inp| && (p.cTerm == EOF || p.pos > old(p.pos))
    ensures row.Some? ==> |row.value| == nCol
    ensures p.cTerm != EOF ==> p.bNotFirst
    ensures start == |p.inp| ==> row == None && p.cTerm == EOF && p.pos == |p.inp|
    ensures LineHere(p.inp, start, l, sep, p.cColSep) ==>
              && row == Some(Fitted(l.cells, nCol))
              && p.pos == start + |LineText(l, sep)| && p.cTerm == Ender(l.end)
    ensures p.cColSep < EOF && nCol >= 2 && row.Some? ==> row.value[1] == None
  {
    hide ReadField, CellText, LineText, CellsText, LineHere, Skips, SepIs;
    ghost var good := LineHere(p.inp, start, l, sep, p.cColSep);
    ghost var pos0 := p.pos;
    ghost var first0 := !p.bNotFirst;
    var bound: seq<Option<Bytes>> := [];
    var i: nat := 0;
    LineMeans(p.inp, start, l, sep, p.cColSep);
    while i < nCol
      invariant pos0 <= p.pos <= |p.inp| && (i > 0 ==> p.cTerm >= EOF && (p.cTerm == EOF || p.pos > pos0))
      invariant if i <= nCol then |bound| == i else |bound| == nCol
      invariant i == 0 ==> p.pos == pos0 && !p.bNotFirst == first0
      invariant i > 0 ==> p.bNotFirst
      invariant i > 0 && p.cTerm == EOF ==> p.pos == |p.inp|
      invariant i > 0 && start == |p.inp| ==> false
      invariant good && i <= nCol ==> i <= |l.cells| && bound == Fitted(l.cells, nCol)[..i]
      invariant good && i > nCol ==> bound == Fitted(l.cells, nCol)
      invariant good && 0 < i <= nCol ==> p.pos == AfterCells(start, l, i, sep) && p.cTerm == Ender(Term(l, i - 1, sep))
      invariant good && i < nCol ==> i < |l.cells|
      invariant good && i > nCol ==> p.pos == start + |LineText(l, sep)| && p.cTerm == Ender(l.end)
      invariant p.cColSep < EOF && nCol >= 2 && i > 0 ==> i > nCol && bound[1] == None
    {
      ghost var at := p.pos;
      ghost var first := !p.bNotFirst;
      Progress(p.inp, at, first, p.cColSep);
      if good { LineCell(p.inp, start, l, i, sep, p.cColSep, at, first); }
      if i == 0 { EndOfInput(p.inp, at, first, start, p.cColSep); }
      var z := p.ReadOneField();
      if z == None && i == 0 { break; }
      bound := bound + [z];
      if i < nCol - 1 && p.cTerm != p.cColSep {
        bound := bound + Nulls(nCol - 1 - i);
        i := nCol + 1;
      }
      i := i + 1;
    }
    if p.cTerm == p.cColSep == EOF {
      row, endless := None, true;
      return;
    }
    endless := false;
    if p.cTerm == p.cColSep { DropExtra(p, nCol, sep, start, l); }
    assert Fitted(l.cells, nCol)[..nCol] == Fitted(l.cells, nCol);
    row := if i >= nCol then Some(bound) else None;
  }

  /** Read fields until one does not end with the separator: the cells of l from number n on,
      if it is there. */
  method DropExtra(p: ImportCtx, n: nat, ghost sep: byte, ghost start: nat, ghost l: Line)
    requires p.pos <= |p.inp| && p.bNotFirst && p.cTerm == p.cColSep != EOF && n > 0
    requires LineHere(p.inp, start, l, sep, p.cColSep) ==>
               && n <= |l.cells| && l.cells != [] && p.pos == AfterCells(start, l, n, sep)
               && p.cTerm == Ender(Term(l, n - 1, sep))
    modifies p
    ensures old(p.pos) <= p.pos <= |p.inp| && p.bNotFirst
    ensures p.cTerm == EOF ==> p.pos == |p.inp|
    ensures p.cTerm == EOF || p.pos > old(p.pos)
    ensures LineHere(p.inp, start, l, sep, p.cColSep) ==>
              p.pos == start + |LineText(l, sep)| && p.cTerm == Ender(l.end)
  {
    hide ReadField, CellText, LineText, CellsText, LineHere, SepIs;
    LineMeans(p.inp, start, l, sep, p.cColSep);
    ghost var good := LineHere(p.inp, start, l, sep, p.cColSep);
    ghost var pos0 := p.pos;
    ghost var m := n;
    var more := true;
    while more
      invariant pos0 <= p.pos <= |p.inp| && p.bNotFirst && (p.cTerm == EOF ==> p.pos == |p.inp|)
      invariant if more then p.cTerm == p.cColSep else p.cTerm == EOF || p.pos > pos0
      invariant good ==>
                  0 < m <= |l.cells| && p.pos == AfterCells(start, l, m, sep) && p.cTerm == Ender(Term(l, m - 1, sep))
      invariant good ==> if more then m < |l.cells| else m == |l.cells|
      decreases more, |p.inp| - p.pos
    {
      Progress(p.inp, p.pos, false, p.cColSep);
      if good { LineCell(p.inp, start, l, m, sep, p.cColSep, p.pos, false); }
      var z := p.ReadOneField();
      m := m + 1;
      more := p.cTerm == p.cColSep;
    }
  }

  /** The separator is not what ends a line. */
  lemma LineMeans(inp: Bytes, start: nat, l: Line, sep: byte, cSep: int)
    ensures LineHere(inp, start, l, sep, cSep) ==>
              && l.cells != [] && Ender(l.end) != cSep && cSep != EOF && Ender([sep]) == sep && start < |inp|
              && (|l.cells| > 1 ==> cSep == sep)
  {
    hide CellsText, Doubled;
    if LineHere(inp, start, l, sep, cSep) {
      CellNotEmpty(l.cells[|l.cells| - 1]);
    }
  }

  lemma EndOfInput(inp: Bytes, pos: nat, first: bool, start: nat, cSep: int)
    requires Skips(inp, pos, first, start)
    ensures start >= |inp| ==> ReadField(inp, pos, first, cSep).NoField?
  {
    hide ReadField;
    if start >= |inp| {
      MarkSkipped(inp, pos, first, start, cSep);
      NothingLeft(inp, start, first, cSep);
      NothingLeft(inp, start, false, cSep);
    }
  }

  lemma NothingLeft(inp: Bytes, pos: nat, first: bool, cSep: int)
    requires pos >= |inp|
    ensures ReadField(inp, pos, first, cSep) == NoField(pos)
  {
  }

  // ---------- files ----------

  /** A file of lines, perhaps with a byte order mark before them: only the last line may end
      without a line feed. */
  ghost predicate FileOf(inp: Bytes, lines: seq<Line>, mark: bool, sep: byte, cSep: int)
  {
    && SepIs(sep, cSep) && (forall r | 0 <= r < |lines| :: LineOK(lines[r], sep, cSep))
    && (forall r | 0 <= r < |lines| - 1 :: lines[r].end != [])
    && inp == (if mark then BOM else []) + FileText(lines, |lines|, sep)
    && (!mark ==> !Here(inp, 0, BOM))
  }

  function LineValues(lines: seq<Line>, nCol: nat): seq<seq<Option<Bytes>>>
  {
    seq(|lines|, r requires 0 <= r < |lines| => Fitted(lines[r].cells, nCol))
  }

  lemma {:induction false} FilePrefix(lines: seq<Line>, i: nat, n: nat, sep: byte)
    requires i <= n <= |lines| && forall r | 0 <= r < |lines| :: lines[r].cells != []
    ensures |FileText(lines, i, sep)| <= |FileText(lines, n, sep)|
    ensures FileText(lines, n, sep)[..|FileText(lines, i, sep)|] == FileText(lines, i, sep)
    decreases n
  {
    hide LineText;
    if i < n { FilePrefix(lines, i, n - 1, sep); }
  }

  /** Where line number i starts. */
  function LineStart(lines: seq<Line>, mark: bool, i: nat, sep: byte): nat
    requires i <= |lines| && forall r | 0 <= r < |lines| :: lines[r].cells != []
  {
    (if mark then 3 else 0) + |FileText(lines, i, sep)|
  }

  lemma LineOfFile(inp: Bytes, lines: seq<Line>, mark: bool, i: nat, sep: byte, cSep: int)
    requires FileOf(inp, lines, mark, sep, cSep) && i < |lines|
    ensures LineHere(inp, LineStart(lines, mark, i, sep), lines[i], sep, cSep)
    ensures LineStart(lines, mark, i + 1, sep) == LineStart(lines, mark, i, sep) + |LineText(lines[i], sep)|
  {
    hide LineText;
    FilePrefix(lines, i + 1, |lines|, sep);
    var pre: Bytes := if mark then BOM else [];
    var a, b := FileText(lines, i, sep), LineText(lines[i], sep);
    var all := FileText(lines, |lines|, sep);
    assert all[..|a + b|] == a + b;
    assert all[|a|..|a| + |b|] == (a + b)[|a|..] == b;
    assert inp[|pre| + |a|..|pre| + |a| + |b|] == all[|a|..|a| + |b|];
    assert Here(inp, |pre| + |a|, b);
  }

  lemma FileMeans(inp: Bytes, lines: seq<Line>, mark: bool, sep: byte, cSep: int)
    requires FileOf(inp, lines, mark, sep, cSep)
    ensures cSep != EOF && forall r | 0 <= r < |lines| :: lines[r].cells != []
    ensures LineStart(lines, mark, 0, sep) == if Here(inp, 0, BOM) then 3 else 0
    ensures LineStart(lines, mark, |lines|, sep) == |inp|
  {
    hide LineText;
    if mark { assert inp[0..3] == BOM; }
  }

  lemma LastEnds(inp: Bytes, lines: seq<Line>, mark: bool, k: nat, sep: byte, cSep: int)
    requires FileOf(inp, lines, mark, sep, cSep) && k < |lines|
    ensures lines[k].end == [] <==> Ender(lines[k].end) == EOF
    ensures lines[k].end == [] ==> k == |lines| - 1
  {
    hide LineOK, FileText;
  }

  lemma MarkOrNot(inp: Bytes, start: nat)
    requires start == if Here(inp, 0, BOM) then 3 else 0
    ensures Skips(inp, 0, true, start) && (inp == [] ==> start == 0)
  {
  }

  lemma NoMarkLater(inp: Bytes, pos: nat)
    ensures Skips(inp, pos, false, pos)
  {
  }

  /** .import into a table of nCol columns, with the line feed as row separator: the rows,
      or None when it never returns. The separator is read as a signed char; byte 255 is
      the same as EOF, and then the import never ends. */
  method Import(inp: Bytes, sep: byte, nCol: nat, ghost lines: seq<Line>, ghost mark: bool)
    returns (imported: Option<seq<seq<Option<Bytes>>>>)
    requires nCol > 0
    ensures imported == None <==> sep == 255
    ensures FileOf(inp, lines, mark, sep, SignedChar(sep)) ==> imported == Some(LineValues(lines, nCol))
    ensures inp == [] && sep != 255 ==> imported == Some([])
    ensures imported.Some? ==> forall r | 0 <= r < |imported.value| :: |imported.value[r]| == nCol
    ensures imported.Some? && sep >= 128 && nCol >= 2 ==>
              forall r | 0 <= r < |imported.value| :: imported.value[r][1] == None
  {
    hide FileText, LineText, CellText, ReadField, Here, Skips, LineHere, FileOf, LineStart;
    var p := new ImportCtx(inp, SignedChar(sep));
    ghost var good := FileOf(inp, lines, mark, sep, p.cColSep);
    ghost var k: nat := 0;
    ghost var start := if Here(inp, 0, BOM) then 3 else 0;
    MarkOrNot(inp, start);
    if good { FileMeans(inp, lines, mark, sep, p.cColSep); }
    var rows: seq<seq<Option<Bytes>>> := [];
    var more := true;
    while more
      invariant p.inp == inp && p.cColSep == SignedChar(sep) && p.pos <= |inp| && fresh(p)
      invariant inp == [] ==> rows == [] && start == 0
      invariant forall r | 0 <= r < |rows| :: |rows[r]| == nCol
      invariant 128 <= sep < 255 && nCol >= 2 ==> forall r | 0 <= r < |rows| :: rows[r][1] == None
      invariant more ==> Skips(inp, p.pos, !p.bNotFirst, start)
      invariant good ==> k <= |lines| && (more ==> start == LineStart(lines, mark, k, sep))
      invariant good ==> rows == LineValues(lines, nCol)[..k]
      invariant good && !more ==> k == |lines|
      invariant !more ==> sep != 255
      decreases more, |inp| - p.pos
    {
      if good && k < |lines| { LineOfFile(inp, lines, mark, k, sep, p.cColSep); }
      var row, endless := ImportRow(p, nCol, sep, start, if good && k < |lines| then lines[k] else Line([], []));
      if endless { return None; }
      if row.Some? { rows := rows + [row.value]; }
      if good && k < |lines| {
        LastEnds(inp, lines, mark, k, sep, p.cColSep);
        k := k + 1;
      }
      more := p.cTerm != EOF;
      start := p.pos;
      NoMarkLater(inp, start);
    }
    assert LineValues(lines, nCol)[..|lines|] == LineValues(lines, nCol);
    imported := Some(rows);
  }

  // ---------- there and back ----------

  ghost predicate Table(t: seq<seq<Bytes>>, nCol: nat)
  {
    nCol > 0 && forall r | 0 <= r < |t| :: |t[r]| == nCol
  }

  function TableValues(t: seq<seq<Bytes>>): seq<seq<Option<Bytes>>>
  {
    seq(|t|, r requires 0 <= r < |t| => Values(t[r]))
  }

  /** What is exported is such a file, if the separator is recognised or not needed. */
  lemma ExportedFile(t: seq<seq<Bytes>>, nCol: nat, sep: byte)
    requires Table(t, nCol) && Separator(sep) && (sep < 128 || (sep != 255 && (nCol == 1 || t == [])))
    ensures FileOf(FileText(ExportedLines(t, sep), |t|, sep), ExportedLines(t, sep), false, sep, SignedChar(sep))
    ensures LineValues(ExportedLines(t, sep), nCol) == TableValues(t)
  {
    hide FieldCell, CellText, CellOK, FileText;
    var lines := ExportedLines(t, sep);
    forall r | 0 <= r < |lines|
      ensures LineOK(lines[r], sep, SignedChar(sep)) && Fitted(lines[r].cells, nCol) == Values(t[r])
    {
      forall i | 0 <= i < nCol
        ensures CellOK(lines[r].cells[i], sep) && lines[r].cells[i].text == t[r][i]
      {
        FieldCellOK(t[r][i], sep);
      }
    }
    NoMarkExported(t, nCol, sep, |t|);
  }

  /** No exported file starts with the first byte of a mark. */
  lemma {:induction false} NoMarkExported(t: seq<seq<Bytes>>, nCol: nat, sep: byte, n: nat)
    requires Table(t, nCol) && n <= |t|
    ensures var out := FileText(ExportedLines(t, sep), n, sep); out != [] ==> out[0] != 0xef
    ensures !Here(FileText(ExportedLines(t, sep), n, sep), 0, BOM)
  {
    hide FieldCell, CellText;
    var lines := ExportedLines(t, sep);
    var out := FileText(lines, n, sep);
    if n > 0 {
      NoMarkExported(t, nCol, sep, n - 1);
      var cells := lines[n - 1].cells;
      FieldCellOK(t[n - 1][0], sep);
      CellsPrefix(cells, if nCol > 1 then 1 else 0, nCol - 1, sep);
      LineFirst(lines[n - 1], sep);
    }
    if out != [] { NoMark(out, 0); }
  }

  lemma LineFirst(l: Line, sep: byte)
    requires l.cells != [] && CellText(l.cells[0]) != []
    ensures LineText(l, sep) != [] && LineText(l, sep)[0] == CellText(l.cells[0])[0]
  {
    hide CellText, CellsText;
    var n := |l.cells|;
    if n > 1 {
      CellsPrefix(l.cells, 1, n - 1, sep);
      NoCells(l.cells, sep);
      NextCells(l.cells, 0, sep);
      var a := CellsText(l.cells, 1, sep);
      assert CellsText(l.cells, n - 1, sep)[..|a|][0] == a[0];
    } else {
      NoCells(l.cells, sep);
    }
  }

  lemma NoCells(cells: seq<Cell>, sep: byte)
    ensures CellsText(cells, 0, sep) == []
  {
  }

  /** Export and import: the identity, exactly when the separator is below 128, or is
      not needed and not 255. */
  method RoundTrip(t: seq<seq<Bytes>>, nCol: nat, sep: byte) returns (imported: Option<seq<seq<Option<Bytes>>>>)
    requires Table(t, nCol) && Separator(sep)
    ensures imported == Some(TableValues(t)) <==> sep < 128 || (sep != 255 && (nCol == 1 || t == []))
  {
    hide FileText, FileOf;
    var out := Export(t, sep);
    imported := Import(out, sep, nCol, ExportedLines(t, sep), false);
    if sep < 128 || (sep != 255 && (nCol == 1 || t == [])) { ExportedFile(t, nCol, sep); }
    if t != [] && nCol >= 2 { assert TableValues(t)[0][1] == Some(t[0][1]); }
  }
}
