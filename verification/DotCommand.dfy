/** The shell's dot-commands: splitting a line into arguments in place, and the
    C-string printer that is its inverse. */
module DotCommand {
  import opened Basics

  const BACKSLASH: byte := 92
  const QUOTE2: byte := 34
  const QUOTE1: byte := 39
  const SPACE: byte := 32

  /** isspace in the C locale. */
  predicate IsSpace(c: byte) { c == 32 || 9 <= c <= 13 }

  predicate Octal(c: byte) { 48 <= c <= 55 }

  /** A C string of these characters. */
  predicate NulFree(s: Bytes) { 0 !in s }

  function CharAt(s: Bytes, i: nat): byte
  {
    if i < |s| then s[i] else 0
  }

  // ---------- what the escapes mean ----------

  /** The character that the escape at i stands for, i being past the backslash. */
  function Meaning(c: byte): byte
  {
    match c
    case 97 => 7
    case 98 => 8
    case 116 => 9
    case 110 => 10
    case 118 => 11
    case 102 => 12
    case 114 => 13
    case _ => c
  }

  function Digit(c: byte): (d: nat)
    requires Octal(c)
    ensures d < 8
  {
    c - 48
  }

  /** The character, and the place after the escape. */
  function Escape(s: Bytes, i: nat): (r: (byte, nat))
    requires i < |s|
    ensures i < r.1 <= |s|
  {
    if !Octal(s[i]) then (Meaning(s[i]), i + 1)
    else if !Octal(CharAt(s, i + 1)) then (Digit(s[i]), i + 1)
    else if !Octal(CharAt(s, i + 2)) then (Digit(s[i]) * 8 + Digit(s[i + 1]), i + 2)
    else ((Digit(s[i]) * 64 + Digit(s[i + 1]) * 8 + Digit(s[i + 2])) % 256, i + 3)
  }

  /** The text from i on with all escapes resolved. */
  function Resolved(s: Bytes, i: nat): Bytes
    requires i <= |s|
    decreases |s| - i
  {
    if i == |s| then []
    else if s[i] == BACKSLASH && i + 1 < |s| then
      var (c, next) := Escape(s, i + 1);
      [c] + Resolved(s, next)
    else [s[i]] + Resolved(s, i + 1)
  }

  // ---------- resolve_backslashes, in place ----------

  /** The characters of s, and a NUL, lie in z from at on. */
  ghost predicate Lies(z: seq<byte>, at: nat, s: Bytes)
  {
    at + |s| < |z| && z[at..at + |s|] == s && z[at + |s|] == 0
  }

  lemma LiesAt(z: seq<byte>, at: nat, s: Bytes, i: nat)
    requires Lies(z, at, s) && i <= |s|
    ensures z[at + i] == CharAt(s, i)
  {
    if i < |s| { assert z[at..at + |s|][i] == s[i]; }
  }

  /** Rewrite the string at z + at. */
  method ResolveBackslashes(z: array<byte>, at: nat, ghost s: Bytes)
    requires Lies(z[..], at, s) && NulFree(s)
    modifies z
    ensures Lies(z[..], at, Resolved(s, 0)) && |Resolved(s, 0)| <= |s| && z[at + |s|] == 0
    ensures forall k | 0 <= k < z.Length && !(at <= k <= at + |s|) :: z[k] == old(z[k])
  {
    hide Resolved;
    var i: nat := 0;
    ghost var was := z[..];
    LiesAt(was, at, s, 0);
    assert s[..0] + Resolved(s, 0) == Resolved(s, 0);
    while z[at + i] != 0 && z[at + i] != BACKSLASH
      invariant i <= |s| && Resolved(s, 0) == s[..i] + Resolved(s, i)
      invariant z[..] == was && z[at + i] == CharAt(s, i)
      decreases |s| - i
    {
      ResolvedStep(s, i);
      assert s[..i] + [s[i]] == s[..i + 1];
      i := i + 1;
      LiesAt(was, at, s, i);
    }
    assert z[at..at + i] == was[at..at + |s|][..i] == s[..i];
    var j;
    i, j := Rewrite(z, at, i, s, was);
    LiesAt(was, at, s, i);
    ResolvedStep(s, i);
    if j < i { z[at + j] := 0; }
    assert z[at..at + j] == Resolved(s, 0);
  }

  lemma ResolvedStep(s: Bytes, i: nat)
    requires i <= |s|
    ensures i == |s| ==> Resolved(s, i) == []
    ensures i < |s| && !(s[i] == BACKSLASH && i + 1 < |s|) ==> Resolved(s, i) == [s[i]] + Resolved(s, i + 1)
    ensures i < |s| && s[i] == BACKSLASH && i + 1 < |s| ==>
              var (c, next) := Escape(s, i + 1); Resolved(s, i) == [c] + Resolved(s, next)
  {
  }

  lemma LiesRoom(z: seq<byte>, at: nat, s: Bytes)
    requires Lies(z, at, s)
    ensures at + |s| < |z|
  {
  }

  /** The main loop: characters from i on are resolved and moved down to j. */
  method Rewrite(z: array<byte>, at: nat, i0: nat, ghost s: Bytes, ghost was: seq<byte>) returns (i: nat, j: nat)
    requires Lies(was, at, s) && NulFree(s) && i0 <= |s| && z[..] == was
    requires Resolved(s, 0) == z[at..at + i0] + Resolved(s, i0)
    modifies z
    ensures j <= i == |s| && Resolved(s, 0) == z[at..at + j]
    ensures forall k | 0 <= k < z.Length && !(at <= k < at + j) :: z[k] == was[k]
  {
    hide Resolved, Escape, Meaning, Lies;
    LiesRoom(was, at, s);
    i, j := i0, i0;
    LiesAt(was, at, s, i);
    while z[at + i] != 0
      invariant j <= i <= |s| && at + |s| < z.Length
      invariant Resolved(s, 0) == z[at..at + j] + Resolved(s, i)
      invariant forall k | 0 <= k < z.Length && !(at <= k < at + j) :: z[k] == was[k]
      invariant z[at + i] == CharAt(s, i)
      decreases |s| - i
    {
      ResolvedStep(s, i);
      LiesAt(was, at, s, i + 1);
      var c := z[at + i];
      i := i + 1;
      if c == BACKSLASH && z[at + i] != 0 {
        c, i := ReadEscape(z, at, i, s, was);
      }
      ghost var done := z[at..at + j];
      z[at + j] := c;
      assert z[at..at + j + 1] == done + [c];
      j := j + 1;
      LiesAt(was, at, s, i);
    }
    ResolvedStep(s, i);
  }

  /** The escape at z + at + i0; the octal digits are read one after the other. */
  method ReadEscape(z: array<byte>, at: nat, i0: nat, ghost s: Bytes, ghost was: seq<byte>) returns (c: byte, i: nat)
    requires Lies(was, at, s) && NulFree(s) && i0 < |s| && |was| == z.Length
    requires forall k | at + i0 <= k < z.Length :: z[k] == was[k]
    ensures (c, i) == Escape(s, i0)
  {
    i := i0;
    LiesAt(was, at, s, i);
    LiesAt(was, at, s, i + 1);
    c := z[at + i];
    if Octal(c) {
      c := Digit(c);
      if Octal(z[at + i + 1]) {
        i := i + 1;
        LiesAt(was, at, s, i + 1);
        c := c * 8 + Digit(z[at + i]);
        if Octal(z[at + i + 1]) {
          i := i + 1;
          c := (c * 8 + Digit(z[at + i])) % 256;
        }
      }
    } else if c == 97 {
      c := 7;
    } else if c == 98 {
      c := 8;
    } else if c == 116 {
      c := 9;
    } else if c == 110 {
      c := 10;
    } else if c == 118 {
      c := 11;
    } else if c == 102 {
      c := 12;
    } else if c == 114 {
      c := 13;
    }
    i := i + 1;
  }

  // ---------- splitting the line, in place ----------

  const MAX_ARGS: nat := 50

  function SkipSpaces(s: Bytes, h: nat): (r: nat)
    requires h <= |s|
    ensures h <= r <= |s| && (r < |s| ==> !IsSpace(s[r]))
    decreases |s| - h
  {
    if h < |s| && IsSpace(s[h]) then SkipSpaces(s, h + 1) else h
  }

  function WordEnd(s: Bytes, h: nat): (r: nat)
    requires h <= |s|
    ensures h <= r <= |s|
    decreases |s| - h
  {
    if h < |s| && !IsSpace(s[h]) then WordEnd(s, h + 1) else h
  }

  /** Where the quoted argument ends; in double quotes a backslash hides a character. */
  function QuoteEnd(s: Bytes, h: nat, delim: byte): (r: nat)
    requires h <= |s|
    ensures h <= r <= |s|
    decreases |s| - h
  {
    if h < |s| && s[h] != delim then
      QuoteEnd(s, if s[h] == BACKSLASH && delim == QUOTE2 && h + 1 < |s| then h + 2 else h + 1, delim)
    else h
  }

  /** One argument: where its characters start and end, and what it is. */
  datatype Argument = Argument(start: nat, end: nat, text: Bytes)

  function NextArgument(s: Bytes, h: nat): (r: Argument)
    requires h < |s|
    ensures h <= r.start <= r.end <= |s| && (r.end == h ==> IsSpace(s[h]))
  {
    if s[h] == QUOTE1 || s[h] == QUOTE2 then
      var e := QuoteEnd(s, h + 1, s[h]);
      Argument(h + 1, e, if s[h] == QUOTE2 then Resolved(s[h + 1..e], 0) else s[h + 1..e])
    else
      var e := WordEnd(s, h);
      Argument(h, e, Resolved(s[h..e], 0))
  }

  /** The arguments from h on when there are n already. */
  function Arguments(s: Bytes, h: nat, n: nat): seq<Bytes>
    requires h <= |s|
    decreases |s| - h
  {
    var h := SkipSpaces(s, h);
    if h == |s| || n >= MAX_ARGS then []
    else
      var a := NextArgument(s, h);
      [a.text] + Arguments(s, if a.end < |s| then a.end + 1 else a.end, n + 1)
  }

  /** All characters from h on are still those of the line. */
  ghost predicate Untouched(z: seq<byte>, s: Bytes, h: nat)
  {
    |s| < |z| && h <= |s| && forall k | h <= k <= |s| :: z[k] == CharAt(s, k)
  }

  /** The arguments found so far, all before h or the end of the line. */
  ghost predicate Stored(z: seq<byte>, s: Bytes, az: seq<nat>, found: seq<Bytes>, h: nat)
  {
    && |az| == |found|
    && forall k | 0 <= k < |az| :: Lies(z, az[k], found[k])
         && az[k] + |found[k]| < (if h < |s| then h else |s| + 1)
  }

  lemma UntouchedLies(z: seq<byte>, s: Bytes, h: nat, e: nat)
    requires Untouched(z, s, h) && h <= e <= |s|
    ensures z[h..e] == s[h..e]
  {
    forall k | h <= k < e
      ensures z[k] == s[k]
    {
    }
  }

  /** Find the end of a quoted argument. */
  method ScanQuoted(z: array<byte>, ghost s: Bytes, h0: nat, delim: byte) returns (h: nat)
    requires NulFree(s) && delim != 0 && Untouched(z[..], s, h0)
    ensures h == QuoteEnd(s, h0, delim)
  {
    h := h0;
    while z[h] != 0 && z[h] != delim
      invariant h0 <= h <= |s| && QuoteEnd(s, h, delim) == QuoteEnd(s, h0, delim)
      decreases |s| - h
    {
      assert z[h] == CharAt(s, h) && (h < |s| ==> z[h + 1] == CharAt(s, h + 1));
      if z[h] == BACKSLASH && delim == QUOTE2 && z[h + 1] != 0 { h := h + 1; }
      h := h + 1;
    }
  }

  method ScanWord(z: array<byte>, ghost s: Bytes, h0: nat) returns (h: nat)
    requires NulFree(s) && Untouched(z[..], s, h0)
    ensures h == WordEnd(s, h0)
  {
    h := h0;
    while z[h] != 0 && !IsSpace(z[h])
      invariant h0 <= h <= |s| && WordEnd(s, h) == WordEnd(s, h0)
      decreases |s| - h
    {
      h := h + 1;
    }
  }

  method ScanSpaces(z: array<byte>, ghost s: Bytes, h0: nat) returns (h: nat)
    requires NulFree(s) && Untouched(z[..], s, h0)
    ensures h == SkipSpaces(s, h0)
  {
    h := h0;
    while IsSpace(z[h])
      invariant h0 <= h <= |s| && SkipSpaces(s, h) == SkipSpaces(s, h0)
      decreases |s| - h
    {
      h := h + 1;
    }
  }

  /** End the argument with a NUL and resolve its escapes. */
  method Terminate(z: array<byte>, ghost s: Bytes, start: nat, end: nat, escapes: bool) returns (h: nat)
    requires NulFree(s) && start <= end && Untouched(z[..], s, start) && end <= |s|
    modifies z
    ensures h == (if end < |s| then end + 1 else end)
    ensures var text := if escapes then Resolved(s[start..end], 0) else s[start..end];
            Lies(z[..], start, text) && |text| <= end - start && z[end] == 0
    ensures forall k | 0 <= k < z.Length && !(start <= k <= end) :: z[k] == old(z[k])
  {
    UntouchedLies(z[..], s, start, end);
    assert z[end] == CharAt(s, end);
    h := end;
    if z[h] != 0 {
      z[h] := 0;
      h := h + 1;
    }
    assert z[start..end] == s[start..end];
    if escapes { ResolveBackslashes(z, start, s[start..end]); }
  }

  /** The next argument, which starts at h0. */
  method TakeArgument(z: array<byte>, ghost s: Bytes, h0: nat) returns (start: nat, h: nat)
    requires NulFree(s) && h0 < |s| && !IsSpace(s[h0]) && Untouched(z[..], s, h0)
    modifies z
    ensures var a := NextArgument(s, h0);
            && start == a.start && h == (if a.end < |s| then a.end + 1 else a.end)
            && Lies(z[..], start, a.text) && |a.text| <= a.end - start && z[a.end] == 0
            && forall k | 0 <= k < z.Length && !(start <= k <= a.end) :: z[k] == old(z[k])
  {
    hide Resolved, Lies;
    h := h0;
    assert z[h] == CharAt(s, h);
    if z[h] == QUOTE1 || z[h] == QUOTE2 {
      var delim := z[h];
      h := h + 1;
      start := h;
      h := ScanQuoted(z, s, h, delim);
      h := Terminate(z, s, start, h, delim == QUOTE2);
    } else {
      start := h;
      h := ScanWord(z, s, h);
      h := Terminate(z, s, start, h, true);
    }
  }

  /** The tokenizer at the start of do_meta_command: the arguments of the line s, which
      lies in zLine, as NUL-terminated strings inside zLine. */
  method Tokenize(zLine: array<byte>, ghost s: Bytes) returns (azArg: seq<nat>)
    requires NulFree(s) && |s| >= 1 && Lies(zLine[..], 0, s)
    modifies zLine
    ensures var args := Arguments(s, 1, 0);
            && |azArg| == |args| <= MAX_ARGS
            && forall k | 0 <= k < |args| :: Lies(zLine[..], azArg[k], args[k])
  {
    hide Resolved, SkipSpaces, NextArgument, Arguments;
    var h: nat := 1;
    azArg := [];
    ghost var found: seq<Bytes> := [];
    AllUntouched(zLine[..], s);
    while zLine[h] != 0 && |azArg| < MAX_ARGS
      invariant 1 <= h <= |s| && Untouched(zLine[..], s, h) && |azArg| <= MAX_ARGS
      invariant Stored(zLine[..], s, azArg, found, h)
      invariant Arguments(s, 1, 0) == found + Arguments(s, h, |found|)
      decreases |s| - h
    {
      ghost var g := h;
      h := ScanSpaces(zLine, s, h);
      ArgumentsStep(s, g, |found|);
      if zLine[h] == 0 { break; }
      ghost var was := zLine[..];
      ghost var a := NextArgument(s, h);
      var start;
      start, h := TakeArgument(zLine, s, h);
      StillStored(was, zLine[..], s, azArg, found, a, h);
      azArg := azArg + [start];
      found := found + [a.text];
    }
    NoMore(s, h, |found|);
  }

  lemma AllUntouched(z: seq<byte>, s: Bytes)
    requires Lies(z, 0, s) && |s| >= 1
    ensures Untouched(z, s, 1)
  {
    forall k | 1 <= k <= |s|
      ensures z[k] == CharAt(s, k)
    {
      LiesAt(z, 0, s, k);
    }
  }

  lemma ArgumentsStep(s: Bytes, h: nat, n: nat)
    requires h <= |s| && n < MAX_ARGS
    ensures var g := SkipSpaces(s, h);
            if g == |s| then Arguments(s, h, n) == []
            else
              var a := NextArgument(s, g);
              Arguments(s, h, n) == [a.text] + Arguments(s, if a.end < |s| then a.end + 1 else a.end, n + 1)
  {
  }

  lemma NoMore(s: Bytes, h: nat, n: nat)
    requires h <= |s|
    ensures h == |s| || n >= MAX_ARGS || SkipSpaces(s, h) == |s| ==> Arguments(s, h, n) == []
  {
  }

  /** Taking one more argument leaves the earlier ones alone. */
  lemma StillStored(was: seq<byte>, z: seq<byte>, s: Bytes, az: seq<nat>, found: seq<Bytes>, a: Argument, h: nat)
    requires |z| == |was| && Stored(was, s, az, found, a.start) && Untouched(was, s, a.start)
    requires a.start <= a.end <= |s| && h == (if a.end < |s| then a.end + 1 else a.end)
    requires Lies(z, a.start, a.text) && |a.text| <= a.end - a.start && z[a.end] == 0
    requires forall k | 0 <= k < |z| && !(a.start <= k <= a.end) :: z[k] == was[k]
    ensures Stored(z, s, az + [a.start], found + [a.text], h) && Untouched(z, s, h)
  {
  }

  // ---------- output_c_string and back ----------

  /** What output_c_string prints for a character. */
  function EscapeOf(c: byte, printable: byte -> bool): Bytes
  {
    if c == BACKSLASH then [BACKSLASH, BACKSLASH]
    else if c == QUOTE2 then [BACKSLASH, QUOTE2]
    else if c == 9 then [BACKSLASH, 116]
    else if c == 10 then [BACKSLASH, 110]
    else if c == 13 then [BACKSLASH, 114]
    else if !printable(c) then [BACKSLASH, 48 + c / 64, 48 + c / 8 % 8, 48 + c % 8]
    else [c]
  }

  function Body(a: Bytes, printable: byte -> bool): Bytes
  {
    if a == [] then [] else EscapeOf(a[0], printable) + Body(a[1..], printable)
  }

  /** An argument as a C string in double quotes. */
  function CString(a: Bytes, printable: byte -> bool): Bytes
  {
    [QUOTE2] + Body(a, printable) + [QUOTE2]
  }

  lemma {:induction false} BodyPlus(a: Bytes, c: byte, printable: byte -> bool)
    ensures Body(a + [c], printable) == Body(a, printable) + EscapeOf(c, printable)
  {
    hide EscapeOf;
    if a == [] {
      assert a + [c] == [c] && [c][1..] == [];
      assert Body([c], printable) == EscapeOf(c, printable) + [];
    } else {
      assert (a + [c])[1..] == a[1..] + [c];
      BodyPlus(a[1..], c, printable);
    }
  }

  lemma NoBody(printable: byte -> bool)
    ensures Body([], printable) == []
  {
  }

  /** output_c_string. Which characters are printable depends on the locale. */
  method OutputCString(z: Bytes, printable: byte -> bool) returns (out: Bytes)
    ensures out == CString(z, printable)
  {
    hide Body;
    out := [QUOTE2];
    var i: nat := 0;
    assert z[..0] == [];
    NoBody(printable);
    while i < |z|
      invariant i <= |z| && out == [QUOTE2] + Body(z[..i], printable)
    {
      var c := z[i];
      BodyPlus(z[..i], c, printable);
      assert z[..i + 1] == z[..i] + [c];
      if c == BACKSLASH {
        out := out + [c, c];
      } else if c == QUOTE2 {
        out := out + [BACKSLASH, QUOTE2];
      } else if c == 9 {
        out := out + [BACKSLASH, 116];
      } else if c == 10 {
        out := out + [BACKSLASH, 110];
      } else if c == 13 {
        out := out + [BACKSLASH, 114];
      } else if !printable(c) {
        out := out + [BACKSLASH, 48 + c / 64, 48 + c / 8 % 8, 48 + c % 8];
      } else {
        out := out + [c];
      }
      i := i + 1;
    }
    assert z[..i] == z;
    out := out + [QUOTE2];
  }

  // ---------- what the comment in the source promises ----------

  /** How many octal digits there are from i on, counting no more than n. */
  function OctalDigitsAt(s: Bytes, i: nat, n: nat): (k: nat)
    ensures k <= n && (k > 0 ==> i + k <= |s|)
    decreases n
  {
    if n > 0 && i < |s| && 48 <= s[i] <= 55 then 1 + OctalDigitsAt(s, i + 1, n - 1) else 0
  }

  function OctalNumber(s: Bytes, i: nat, k: nat): nat
    requires i + k <= |s| && forall j | i <= j < i + k :: s[j] >= 48
  {
    if k == 0 then 0 else 8 * OctalNumber(s, i, k - 1) + (s[i + k - 1] - 48)
  }

  lemma {:induction false} DigitsAre(s: Bytes, i: nat, n: nat)
    ensures forall j | i <= j < i + OctalDigitsAt(s, i, n) :: j < |s| && 48 <= s[j] <= 55
    decreases n
  {
    if n > 0 && i < |s| && 48 <= s[i] <= 55 { DigitsAre(s, i + 1, n - 1); }
  }

  /** How many characters the escape after a backslash has, and what they stand for: alarm,
      backspace, tab, newline, vertical tab, form feed, carriage return, space, or a number
      of up to three octal digits; the comment names the quotes and the backslash as well,
      and every other character stands for itself, too. */
  function DocumentedLength(s: Bytes, i: nat): (n: nat)
    requires i < |s|
    ensures n >= 1 && i + n <= |s|
  {
    var k := OctalDigitsAt(s, i, 3);
    if k > 0 then k else 1
  }

  function DocumentedEscape(s: Bytes, i: nat): byte
    requires i < |s|
  {
    DigitsAre(s, i, 3);
    match s[i]
    case 97 => 7
    case 98 => 8
    case 116 => 9
    case 110 => 10
    case 118 => 11
    case 102 => 12
    case 114 => 13
    case 115 => 32
    case c => if 48 <= c <= 55 then OctalNumber(s, i, OctalDigitsAt(s, i, 3)) % 256 else c
  }

  /** The text with its escapes resolved as the comment says: \s stands for a space. */
  function Documented(s: Bytes, i: nat): Bytes
    requires i <= |s|
    decreases |s| - i
  {
    if i == |s| then []
    else if s[i] == 92 && i + 1 < |s| then
      [DocumentedEscape(s, i + 1)] + Documented(s, i + 1 + DocumentedLength(s, i + 1))
    else [s[i]] + Documented(s, i + 1)
  }

  /** Some escape from i on is \s. */
  predicate EscapesS(s: Bytes, i: nat)
    requires i <= |s|
    decreases |s| - i
  {
    if i == |s| then false
    else if s[i] == 92 && i + 1 < |s| then s[i + 1] == 115 || EscapesS(s, i + 1 + DocumentedLength(s, i + 1))
    else EscapesS(s, i + 1)
  }

  lemma CountIs(s: Bytes, i: nat)
    requires i < |s|
    ensures OctalDigitsAt(s, i, 3)
            == if !Octal(s[i]) then 0 else if !Octal(CharAt(s, i + 1)) then 1
               else if !Octal(CharAt(s, i + 2)) then 2 else 3
  {
    assert OctalDigitsAt(s, i + 2, 1) == if Octal(CharAt(s, i + 2)) then 1 else 0;
    assert OctalDigitsAt(s, i + 1, 2) == if Octal(CharAt(s, i + 1)) then 1 + OctalDigitsAt(s, i + 2, 1) else 0;
  }

  lemma NumberIs(s: Bytes, i: nat, k: nat)
    requires 1 <= k <= 3 && i + k <= |s| && forall j | i <= j < i + k :: 48 <= s[j] <= 55
    ensures OctalNumber(s, i, k)
            == if k == 1 then Digit(s[i]) else if k == 2 then Digit(s[i]) * 8 + Digit(s[i + 1])
               else Digit(s[i]) * 64 + Digit(s[i + 1]) * 8 + Digit(s[i + 2])
  {
    assert OctalNumber(s, i, 1) == 8 * OctalNumber(s, i, 0) + (s[i] - 48);
    if k >= 2 { assert OctalNumber(s, i, 2) == 8 * OctalNumber(s, i, 1) + (s[i + 1] - 48); }
    if k == 3 { assert OctalNumber(s, i, 3) == 8 * OctalNumber(s, i, 2) + (s[i + 2] - 48); }
  }

  /** The escapes are those of the comment, all but \s. */
  lemma EscapeIs(s: Bytes, i: nat)
    requires i < |s|
    ensures Escape(s, i).1 == i + DocumentedLength(s, i)
    ensures Escape(s, i).0 == if s[i] == 115 then 115 else DocumentedEscape(s, i)
  {
    hide OctalDigitsAt, OctalNumber;
    CountIs(s, i);
    if Octal(s[i]) {
      DigitsAre(s, i, 3);
      NumberIs(s, i, OctalDigitsAt(s, i, 3));
      OctalMeans(s, i);
    }
  }

  lemma OctalMeans(s: Bytes, i: nat)
    requires i < |s| && Octal(s[i])
    ensures forall j | i <= j < i + OctalDigitsAt(s, i, 3) :: j < |s| && 48 <= s[j] <= 55
    ensures DocumentedEscape(s, i) == OctalNumber(s, i, OctalDigitsAt(s, i, 3)) % 256
  {
    hide OctalDigitsAt, OctalNumber;
    DigitsAre(s, i, 3);
  }

  lemma {:induction false} SplitHead(a: byte, x: Bytes, b: byte, y: Bytes)
    ensures [a] + x == [b] + y <==> a == b && x == y
  {
    if [a] + x == [b] + y {
      assert ([a] + x)[0] == ([b] + y)[0] && ([a] + x)[1..] == ([b] + y)[1..];
    }
  }

  /** The code does what its comment says exactly for the texts without that escape. */
  lemma {:induction false} AsDocumented(s: Bytes, i: nat)
    requires i <= |s|
    ensures Resolved(s, i) == Documented(s, i) <==> !EscapesS(s, i)
    decreases |s| - i
  {
    hide Escape, DocumentedEscape, DocumentedLength, Resolved, Documented, EscapesS;
    if i == |s| {
      AtTheEnd(s);
    } else {
      DocumentedStep(s, i);
      ResolvedStep(s, i);
      if s[i] == BACKSLASH && i + 1 < |s| {
        EscapeIs(s, i + 1);
        SpaceEscape(s, i + 1);
        var (c, next) := Escape(s, i + 1);
        AsDocumented(s, next);
        SplitHead(c, Resolved(s, next), DocumentedEscape(s, i + 1), Documented(s, next));
      } else {
        AsDocumented(s, i + 1);
        SplitHead(s[i], Resolved(s, i + 1), s[i], Documented(s, i + 1));
      }
    }
  }

  lemma AtTheEnd(s: Bytes)
    ensures Resolved(s, |s|) == Documented(s, |s|) && !EscapesS(s, |s|)
  {
  }

  lemma SpaceEscape(s: Bytes, i: nat)
    requires i < |s|
    ensures s[i] == 115 ==> DocumentedEscape(s, i) == 32
  {
  }

  lemma DocumentedStep(s: Bytes, i: nat)
    requires i < |s|
    ensures !(s[i] == 92 && i + 1 < |s|) ==>
              && Documented(s, i) == [s[i]] + Documented(s, i + 1)
              && EscapesS(s, i) == EscapesS(s, i + 1)
    ensures s[i] == 92 && i + 1 < |s| ==>
              var next := i + 1 + DocumentedLength(s, i + 1);
              && Documented(s, i) == [DocumentedEscape(s, i + 1)] + Documented(s, next)
              && EscapesS(s, i) == (s[i + 1] == 115 || EscapesS(s, next))
  {
    hide DocumentedEscape, DocumentedLength;
  }

  lemma OctalDigits(c: byte)
    ensures c / 64 < 8 && c / 64 * 64 + c / 8 % 8 * 8 + c % 8 == c
  {
  }

  lemma PlainBack(s: Bytes, i: nat, c: byte)
    requires i < |s| && s[i] == c != BACKSLASH
    ensures Resolved(s, i) == [c] + Resolved(s, i + 1)
  {
  }

  lemma PairBack(s: Bytes, i: nat, x: byte, c: byte)
    requires i + 1 < |s| && s[i] == BACKSLASH && s[i + 1] == x && !Octal(x) && Meaning(x) == c
    ensures Resolved(s, i) == [c] + Resolved(s, i + 2)
  {
    assert Escape(s, i + 1) == (c, i + 2);
  }

  lemma OctalBack(s: Bytes, i: nat, c: byte)
    requires i + 3 < |s| && s[i] == BACKSLASH
    requires s[i + 1] == 48 + c / 64 && s[i + 2] == 48 + c / 8 % 8 && s[i + 3] == 48 + c % 8
    ensures Resolved(s, i) == [c] + Resolved(s, i + 4)
  {
    OctalDigits(c);
    assert Escape(s, i + 1) == (c, i + 4);
  }

  /** Every character printed is resolved to itself. */
  lemma EscapeBack(s: Bytes, i: nat, c: byte, printable: byte -> bool)
    requires var e := EscapeOf(c, printable); i + |e| <= |s| && s[i..i + |e|] == e
    ensures Resolved(s, i) == [c] + Resolved(s, i + |EscapeOf(c, printable)|)
  {
    hide Resolved;
    var e := EscapeOf(c, printable);
    var t := s[i..i + |e|];
    assert t[0] == s[i];
    if |e| == 1 {
      PlainBack(s, i, c);
    } else {
      assert t[1] == s[i + 1];
      if |e| == 2 {
        PairBack(s, i, e[1], c);
      } else {
        assert t[2] == s[i + 2] && t[3] == s[i + 3];
        OctalBack(s, i, c);
      }
    }
  }

  lemma {:induction false} BodyBack(pre: Bytes, a: Bytes, printable: byte -> bool)
    ensures Resolved(pre + Body(a, printable), |pre|) == a
    decreases |a|
  {
    hide EscapeOf, Resolved;
    if a != [] {
      var e, rest := EscapeOf(a[0], printable), Body(a[1..], printable);
      var s := pre + e + rest;
      assert pre + Body(a, printable) == s;
      assert s[|pre|..|pre| + |e|] == e;
      EscapeBack(s, |pre|, a[0], printable);
      BodyBack(pre + e, a[1..], printable);
    } else {
      assert pre + [] == pre;
      ResolvedStep(pre, |pre|);
    }
  }

  /** The closing quote is the first one that no backslash hides. */
  lemma EscapeHides(s: Bytes, i: nat, c: byte, printable: byte -> bool)
    requires var e := EscapeOf(c, printable); i + |e| <= |s| && s[i..i + |e|] == e
    ensures QuoteEnd(s, i, QUOTE2) == QuoteEnd(s, i + |EscapeOf(c, printable)|, QUOTE2)
  {
    var e := EscapeOf(c, printable);
    assert forall k | 0 <= k < |e| :: s[i + k] == s[i..i + |e|][k] == e[k];
    if |e| == 4 {
      assert s[i] == BACKSLASH && s[i + 2] == e[2] && s[i + 3] == e[3];
      assert QuoteEnd(s, i, QUOTE2) == QuoteEnd(s, i + 2, QUOTE2) == QuoteEnd(s, i + 3, QUOTE2);
    } else if |e| == 2 {
      assert s[i] == BACKSLASH;
    } else {
      assert s[i] == e[0];
    }
  }

  lemma {:induction false} BodyEnd(pre: Bytes, a: Bytes, rest: Bytes, printable: byte -> bool)
    ensures QuoteEnd(pre + Body(a, printable) + [QUOTE2] + rest, |pre|, QUOTE2) == |pre| + |Body(a, printable)|
    decreases |a|
  {
    hide EscapeOf;
    var s := pre + Body(a, printable) + [QUOTE2] + rest;
    if a != [] {
      var e := EscapeOf(a[0], printable);
      assert s == (pre + e) + Body(a[1..], printable) + [QUOTE2] + rest;
      assert s[|pre|..|pre| + |e|] == e;
      EscapeHides(s, |pre|, a[0], printable);
      BodyEnd(pre + e, a[1..], rest, printable);
    } else {
      assert s[|pre|] == QUOTE2;
    }
  }

  // ---------- lines and what they are split into ----------

  /** How an argument may stand in a line: as a word, in single quotes, or printed as a C
      string. */
  datatype Arg = Word(raw: Bytes) | Single(text: Bytes) | Printed(text: Bytes)

  /** What it is split into: escapes are resolved in a word, but not in single quotes. */
  function Value(a: Arg): Bytes
  {
    if a.Word? then Resolved(a.raw, 0) else a.text
  }

  /** White space before an argument, and the argument. */
  datatype Item = Item(space: Bytes, arg: Arg)

  predicate White(s: Bytes)
  {
    forall i | 0 <= i < |s| :: s[i] in {9, 10, 11, 12, 13, 32}
  }

  predicate WordOK(w: Bytes)
  {
    && w != [] && w[0] != 39 && w[0] != 34
    && forall i | 0 <= i < |w| :: w[i] !in {0, 9, 10, 11, 12, 13, 32}
  }

  /** A word that is read as it stands. */
  predicate PlainWord(w: Bytes)
  {
    WordOK(w) && forall i | 0 <= i < |w| :: w[i] != 92
  }

  /** What the quotes and the white space cannot hold is not in it. */
  predicate ArgOK(a: Arg)
  {
    match a
    case Word(w) => WordOK(w)
    case Single(t) => forall i | 0 <= i < |t| :: t[i] != 39 && t[i] != 0
    case Printed(t) => NulFree(t)
  }

  predicate ItemOK(t: Item)
  {
    t.space != [] && White(t.space) && ArgOK(t.arg)
  }

  function ArgText(a: Arg, printable: byte -> bool): (t: Bytes)
    ensures ArgOK(a) ==> t != []
  {
    match a
    case Word(w) => w
    case Single(t) => [39] + t + [39]
    case Printed(t) => CString(t, printable)
  }

  function ItemsText(items: seq<Item>, printable: byte -> bool): Bytes
  {
    if items == [] then []
    else items[0].space + ArgText(items[0].arg, printable) + ItemsText(items[1..], printable)
  }

  /** A dot, a name, arguments, and perhaps white space. */
  function Line(name: Bytes, items: seq<Item>, tail: Bytes, printable: byte -> bool): Bytes
  {
    [46] + name + (ItemsText(items, printable) + tail)
  }

  function Values(items: seq<Item>): seq<Bytes>
  {
    seq(|items|, i requires 0 <= i < |items| => Value(items[i].arg))
  }

  lemma CStringArgument(pre: Bytes, a: Bytes, rest: Bytes, printable: byte -> bool)
    ensures var s := pre + CString(a, printable) + rest;
            NextArgument(s, |pre|) == Argument(|pre| + 1, |pre + CString(a, printable)| - 1, a)
  {
    hide Resolved, QuoteEnd, Body;
    var s := pre + CString(a, printable) + rest;
    assert s[|pre|] == QUOTE2;
    assert s == (pre + [QUOTE2]) + Body(a, printable) + [QUOTE2] + rest;
    BodyEnd(pre + [QUOTE2], a, rest, printable);
    assert s[|pre| + 1..|pre + CString(a, printable)| - 1] == [] + Body(a, printable);
    BodyBack([], a, printable);
  }

  lemma {:induction false} SingleEnd(s: Bytes, h: nat, e: nat)
    requires h <= e < |s| && (forall i | h <= i < e :: s[i] != QUOTE1) && s[e] == QUOTE1
    ensures QuoteEnd(s, h, QUOTE1) == e
    decreases e - h
  {
    if h < e { SingleEnd(s, h + 1, e); }
  }

  /** Text in single quotes is taken as it is, with its backslashes. */
  lemma SingleArgument(pre: Bytes, t: Bytes, rest: Bytes)
    requires forall i | 0 <= i < |t| :: t[i] != 39
    ensures var s := pre + ([39] + t + [39]) + rest;
            NextArgument(s, |pre|) == Argument(|pre| + 1, |pre| + 1 + |t|, t)
  {
    hide Resolved, QuoteEnd;
    var s := pre + ([39] + t + [39]) + rest;
    var e := |pre| + 1 + |t|;
    assert s[|pre|] == QUOTE1 && s[e] == QUOTE1 && s[|pre| + 1..e] == t;
    forall i | |pre| + 1 <= i < e
      ensures s[i] != QUOTE1
    {
      assert s[i] == t[i - |pre| - 1];
    }
    SingleEnd(s, |pre| + 1, e);
  }

  lemma {:induction false} WordEndIs(s: Bytes, h: nat, e: nat)
    requires h <= e <= |s| && (forall i | h <= i < e :: !IsSpace(s[i])) && (e < |s| ==> IsSpace(s[e]))
    ensures WordEnd(s, h) == e
    decreases e - h
  {
    if h < e { WordEndIs(s, h + 1, e); }
  }

  lemma {:induction false} NothingToResolve(w: Bytes, i: nat)
    requires i <= |w| && forall k | 0 <= k < |w| :: w[k] != BACKSLASH
    ensures Resolved(w, i) == w[i..]
    decreases |w| - i
  {
    if i < |w| { NothingToResolve(w, i + 1); }
  }

  /** There is white space, or nothing. */
  predicate Apart(rest: Bytes)
  {
    rest == [] || White([rest[0]])
  }

  lemma WordArgument(pre: Bytes, w: Bytes, rest: Bytes)
    requires WordOK(w) && Apart(rest)
    ensures var s := pre + w + rest; NextArgument(s, |pre|) == Argument(|pre|, |pre + w|, Resolved(w, 0))
  {
    hide Resolved, WordEnd, QuoteEnd;
    var s := pre + w + rest;
    var e := |pre + w|;
    assert s[|pre|..e] == w && s[|pre|] == w[0];
    forall i | |pre| <= i < e
      ensures !IsSpace(s[i])
    {
      assert s[i] == w[i - |pre|];
    }
    if e < |s| { assert s[e] == rest[0] == [rest[0]][0]; }
    WordEndIs(s, |pre|, e);
  }

  /** The next argument is the one that stands there, and the rest goes on behind it. */
  lemma ArgBack(pre: Bytes, a: Arg, rest: Bytes, n: nat, printable: byte -> bool)
    requires n < MAX_ARGS && ArgOK(a) && Apart(rest)
    ensures var p := pre + ArgText(a, printable);
            Arguments(p + rest, |pre|, n) == [Value(a)] + Arguments(p + rest, |p|, n + 1)
  {
    hide NextArgument, CString, Arguments;
    var t := ArgText(a, printable);
    var p := pre + t;
    var s := p + rest;
    assert s[|pre|] == t[0];
    ArgStarts(a, printable);
    ArgumentsStep(s, |pre|, n);
    match a
    case Word(w) =>
      WordArgument(pre, w, rest);
      if rest != [] {
        assert s[|p|] == rest[0] == [rest[0]][0];
        SkipOne(s, |p|, n + 1);
      }
    case Single(text) => SingleArgument(pre, text, rest);
    case Printed(text) => CStringArgument(pre, text, rest, printable);
  }

  lemma ArgStarts(a: Arg, printable: byte -> bool)
    requires ArgOK(a)
    ensures ArgText(a, printable) != [] && !IsSpace(ArgText(a, printable)[0])
  {
  }

  lemma SkipOne(s: Bytes, h: nat, n: nat)
    requires h < |s| && IsSpace(s[h])
    ensures Arguments(s, h, n) == Arguments(s, h + 1, n)
  {
    assert SkipSpaces(s, h) == SkipSpaces(s, h + 1);
  }

  lemma {:induction false} SkipWhite(pre: Bytes, w: Bytes, rest: Bytes, n: nat)
    requires White(w)
    ensures Arguments(pre + w + rest, |pre|, n) == Arguments(pre + w + rest, |pre + w|, n)
    decreases |w|
  {
    hide Arguments;
    if w == [] {
      assert pre + w == pre;
    } else {
      var s := pre + w + rest;
      assert s[|pre|] == w[0];
      SkipOne(s, |pre|, n);
      assert s == (pre + [w[0]]) + w[1..] + rest && pre + w == (pre + [w[0]]) + w[1..];
      SkipWhite(pre + [w[0]], w[1..], rest, n);
    }
  }

  lemma SkipTail(pre: Bytes, w: Bytes, n: nat)
    requires White(w)
    ensures Arguments(pre + w, |pre|, n) == []
  {
    hide Arguments;
    SkipWhite(pre, w, [], n);
    assert pre + w + [] == pre + w;
    NoMore(pre + w, |pre + w|, n);
  }

  /** As many arguments as there is room for. */
  function FirstArgs(args: seq<Bytes>, room: int): seq<Bytes>
  {
    if |args| <= room then args else if room <= 0 then [] else args[..room]
  }

  lemma FirstArgsStep(items: seq<Item>, room: int)
    requires items != [] && room > 0
    ensures [Value(items[0].arg)] + FirstArgs(Values(items[1..]), room - 1) == FirstArgs(Values(items), room)
  {
  }

  lemma NoRoom(items: seq<Item>, room: int)
    requires items == [] || room <= 0
    ensures FirstArgs(Values(items), room) == []
  {
  }

  lemma ItemsApart(items: seq<Item>, tail: Bytes, printable: byte -> bool)
    requires White(tail) && forall i | 0 <= i < |items| :: ItemOK(items[i])
    ensures Apart(ItemsText(items, printable) + tail)
  {
    if items != [] {
      assert ItemOK(items[0]);
      assert (ItemsText(items, printable) + tail)[0] == items[0].space[0];
    } else {
      assert ItemsText(items, printable) + tail == tail;
    }
  }

  lemma {:induction false} ItemsBack(pre: Bytes, items: seq<Item>, tail: Bytes, n: nat, printable: byte -> bool)
    requires White(tail) && forall i | 0 <= i < |items| :: ItemOK(items[i])
    ensures Arguments(pre + (ItemsText(items, printable) + tail), |pre|, n)
            == FirstArgs(Values(items), MAX_ARGS - n)
    decreases |items|
  {
    hide CString, Arguments, FirstArgs, ItemsText, ArgText, White, Apart, Values;
    if n >= MAX_ARGS {
      NoMore(pre + (ItemsText(items, printable) + tail), |pre|, n);
      NoRoom(items, MAX_ARGS - n);
    } else if items == [] {
      NoItems(pre, tail, printable);
      SkipTail(pre, tail, n);
      NoRoom(items, MAX_ARGS - n);
    } else {
      var t, rest := ArgText(items[0].arg, printable), ItemsText(items[1..], printable) + tail;
      var q := pre + items[0].space;
      assert ItemOK(items[0]);
      ItemsTextStep(pre, items, tail, printable);
      assert q + t + rest == pre + items[0].space + (t + rest);
      SkipWhite(pre, items[0].space, t + rest, n);
      ItemsApart(items[1..], tail, printable);
      ArgBack(q, items[0].arg, rest, n, printable);
      ItemsBack(q + t, items[1..], tail, n + 1, printable);
      FirstArgsStep(items, MAX_ARGS - n);
    }
  }

  lemma NoItems(pre: Bytes, tail: Bytes, printable: byte -> bool)
    ensures pre + (ItemsText([], printable) + tail) == pre + tail
  {
  }

  lemma ItemsTextStep(pre: Bytes, items: seq<Item>, tail: Bytes, printable: byte -> bool)
    requires items != []
    ensures pre + (ItemsText(items, printable) + tail)
            == pre + items[0].space + ArgText(items[0].arg, printable) + (ItemsText(items[1..], printable) + tail)
  {
    hide ArgText;
    var a, b, c := items[0].space, ArgText(items[0].arg, printable), ItemsText(items[1..], printable);
    assert ItemsText(items, printable) == a + b + c;
  }

  /** A command line of a name and arguments, each after white space, is split into the name
      and the values of the arguments, as many as fit. */
  lemma LineArguments(name: Bytes, items: seq<Item>, tail: Bytes, printable: byte -> bool)
    requires WordOK(name) && White(tail) && forall i | 0 <= i < |items| :: ItemOK(items[i])
    ensures Arguments(Line(name, items, tail, printable), 1, 0) == [Resolved(name, 0)] + FirstArgs(Values(items), 49)
  {
    hide ItemsText, Arguments, WordOK, FirstArgs, White, Apart, Resolved;
    var rest := ItemsText(items, printable) + tail;
    ItemsApart(items, tail, printable);
    assert ArgText(Word(name), printable) == name;
    ArgBack([46], Word(name), rest, 0, printable);
    ItemsBack([46] + name, items, tail, 1, printable);
  }

  lemma {:induction false} BodyNulFree(a: Bytes, printable: byte -> bool)
    requires NulFree(a)
    ensures NulFree(Body(a, printable))
  {
    if a != [] { BodyNulFree(a[1..], printable); }
  }

  lemma {:induction false} ItemsNulFree(items: seq<Item>, printable: byte -> bool)
    requires forall i | 0 <= i < |items| :: ItemOK(items[i])
    ensures NulFree(ItemsText(items, printable))
  {
    hide Body;
    if items != [] {
      assert ItemOK(items[0]);
      if items[0].arg.Printed? { BodyNulFree(items[0].arg.text, printable); }
      ItemsNulFree(items[1..], printable);
    }
  }

  /** Splitting a command line in place: the strings in azArg are the name and the values
      of the arguments, all of them up to 49. */
  method SplitLine(zLine: array<byte>, ghost name: Bytes, ghost items: seq<Item>, ghost tail: Bytes,
                   ghost printable: byte -> bool) returns (azArg: seq<nat>)
    requires WordOK(name) && White(tail) && forall i | 0 <= i < |items| :: ItemOK(items[i])
    requires Lies(zLine[..], 0, Line(name, items, tail, printable))
    modifies zLine
    ensures var all := [Resolved(name, 0)] + FirstArgs(Values(items), 49);
            |azArg| == |all| && forall k | 0 <= k < |all| :: Lies(zLine[..], azArg[k], all[k])
  {
    hide Arguments, ArgText, ItemsText, Lies, Resolved;
    LineArguments(name, items, tail, printable);
    ItemsNulFree(items, printable);
    azArg := Tokenize(zLine, Line(name, items, tail, printable));
  }

  /** Printed arguments, each after a space. */
  function PrintedItems(args: seq<Bytes>): seq<Item>
  {
    seq(|args|, i requires 0 <= i < |args| => Item([SPACE], Printed(args[i])))
  }

  /** Printing arguments and splitting the line again. */
  method PrintAndSplit(name: Bytes, args: seq<Bytes>, printable: byte -> bool)
    returns (zLine: array<byte>, azArg: seq<nat>)
    requires PlainWord(name) && forall i | 0 <= i < |args| :: NulFree(args[i])
    ensures var all := [name] + FirstArgs(args, 49);
            |azArg| == |all| && forall k | 0 <= k < |all| :: Lies(zLine[..], azArg[k], all[k]) && NulFree(all[k])
  {
    hide CString, Lies, ItemsText, Resolved;
    ghost var items := PrintedItems(args);
    var text := [46] + name;
    var i: nat := 0;
    assert items[0..] == items;
    while i < |args|
      invariant i <= |args| && text + (ItemsText(items[i..], printable) + []) == Line(name, items, [], printable)
    {
      var c := OutputCString(args[i], printable);
      assert items[i..][1..] == items[i + 1..] && ArgText(items[i..][0].arg, printable) == c;
      ItemsTextStep(text, items[i..], [], printable);
      text := text + [SPACE] + c;
      i := i + 1;
    }
    assert items[i..] == [];
    NoItems(text, [], printable);
    assert text == text + [];
    zLine := new byte[|text| + 1](k requires 0 <= k <= |text| => if k < |text| then text[k] else 0);
    LineLies(zLine[..], text);
    assert Values(items) == args;
    NothingToResolve(name, 0);
    azArg := SplitLine(zLine, name, items, [], printable);
  }

  lemma LineLies(z: seq<byte>, s: Bytes)
    requires |z| == |s| + 1 && z[|s|] == 0 && forall k | 0 <= k < |s| :: z[k] == s[k]
    ensures Lies(z, 0, s)
  {
  }
}
