/** The string literals of the shell's .dump: output_quoted_escaped_string hides
    line ends behind tokens that do not occur in the text, and nested calls of
    replace() bring them back. */
module DumpLiteral {
  import opened Basics

  // ---------- SQL: evaluating what .dump wrote ----------

  /** replace(s, p, r): every occurrence of p, leftmost first and not overlapping. */
  function ReplaceAll(s: string, p: string, r: string): string
    requires p != ""
  {
    if s == "" then ""
    else if p <= s then r + ReplaceAll(s[|p|..], p, r)
    else [s[0]] + ReplaceAll(s[1..], p, r)
  }

  /** A string literal after its opening quote: two quotes stand for one. */
  function LiteralBody(s: string): Option<(string, string)>
  {
    if s == "" then None
    else if s[0] != '\'' then Prepend(s[0], LiteralBody(s[1..]))
    else if |s| > 1 && s[1] == '\'' then Prepend('\'', LiteralBody(s[2..]))
    else Some(("", s[1..]))
  }

  function Prepend(c: char, r: Option<(string, string)>): Option<(string, string)>
  {
    if r.Some? then Some(([c] + r.value.0, r.value.1)) else None
  }

  function Literal(s: string): Option<(string, string)>
  {
    if s != "" && s[0] == '\'' then LiteralBody(s[1..]) else None
  }

  const REPLACE := "replace("

  /** The rest of a replace() call after its first argument: a literal and char(n). */
  function Arguments(v: string, s: string): Option<(string, string)>
  {
    if s == "" || s[0] != ',' then None
    else
      match Literal(s[1..])
      case None => None
      case Some((p, rest)) =>
        if p == "" then None
        else if ",char(13))" <= rest then Some((ReplaceAll(v, p, [13 as char]), rest[10..]))
        else if ",char(10))" <= rest then Some((ReplaceAll(v, p, [10 as char]), rest[10..]))
        else None
  }

  /** The value of an expression made of literals and replace() calls, and what follows it. */
  function Expression(s: string): Option<(string, string)>
  {
    if REPLACE <= s then
      match Expression(s[8..])
      case None => None
      case Some((v, rest)) => Arguments(v, rest)
    else Literal(s)
  }

  function Evaluate(s: string): Option<string>
  {
    match Expression(s)
    case Some((v, rest)) => if rest == "" then Some(v) else None
    case None => None
  }

  // ---------- unused_string ----------

  /** strstr(z, p) != 0. */
  predicate Occurs(z: string, p: string)
  {
    p <= z || (z != "" && Occurs(z[1..], p))
  }

  /** %u. */
  function Decimal(n: nat): (s: string)
    ensures |s| > 0 && forall i | 0 <= i < |s| :: '0' <= s[i] <= '9'
  {
    if n < 10 then ['0' + n as char] else Decimal(n / 10) + ['0' + (n % 10) as char]
  }

  function Made(zA: string, i: nat): string
  {
    "(" + zA + Decimal(i) + ")"
  }

  lemma {:induction false} DecimalInjective(m: nat, n: nat)
    requires Decimal(m) == Decimal(n)
    ensures m == n
  {
    var s, t := Decimal(m), Decimal(n);
    if m >= 10 && n >= 10 {
      assert s[..|s| - 1] == Decimal(m / 10) && t[..|t| - 1] == Decimal(n / 10);
      assert s[|s| - 1] == t[|t| - 1];
      DecimalInjective(m / 10, n / 10);
    }
  }

  /** Two made-up strings never start at the same place. */
  lemma MadeApart(z: string, zA: string, i: nat, j: nat)
    requires Made(zA, i) <= z && Made(zA, j) <= z
    ensures i == j
  {
    var s, t := Made(zA, i), Made(zA, j);
    var d, e := Decimal(i), Decimal(j);
    var n := |zA| + 1;
    assert s[n..|s| - 1] == d && t[n..|t| - 1] == e;
    assert forall k | 0 <= k < |d| :: z[n + k] == s[n + k] == d[k];
    assert forall k | 0 <= k < |e| :: z[n + k] == t[n + k] == e[k];
    assert z[n + |d|] == s[n + |d|] == ')' && z[n + |e|] == t[n + |e|] == ')';
    assert |d| == |e|;
    assert d == e;
    DecimalInjective(i, j);
  }

  ghost predicate FoundAt(z: string, p: string, k: nat)
  {
    k <= |z| && p <= z[k..]
  }

  lemma {:induction false} OccursAt(z: string, p: string)
    ensures Occurs(z, p) <==> exists k: nat :: FoundAt(z, p, k)
  {
    if p <= z {
      assert z[0..] == z;
      assert FoundAt(z, p, 0);
    } else if z != "" {
      OccursAt(z[1..], p);
      if Occurs(z[1..], p) {
        var k: nat :| FoundAt(z[1..], p, k);
        assert z[k + 1..] == z[1..][k..];
        assert FoundAt(z, p, k + 1);
      }
      if exists k: nat :: FoundAt(z, p, k) {
        var k: nat :| FoundAt(z, p, k);
        assert z[0..] == z;
        assert z[k..] == z[1..][k - 1..];
        assert FoundAt(z[1..], p, k - 1);
      }
    }
  }

  /** A set of numbers below n has at most n of them. */
  lemma {:induction false} Pigeons(s: set<nat>, n: nat)
    requires forall k | k in s :: k < n
    ensures |s| <= n
  {
    if n > 0 {
      var t := s - {n - 1};
      Pigeons(t, n - 1);
      assert s <= t + {n - 1};
    } else {
      assert s == {};
    }
  }

  /** unused_string: z cannot contain all of |z| + 1 made-up strings, so one is found. */
  method UnusedString(z: string, zA: string, zB: string) returns (p: string)
    ensures !Occurs(z, p)
    ensures p == zA || p == zB || exists i: nat :: i <= |z| && p == Made(zA, i)
  {
    hide Made, Decimal;
    if !Occurs(z, zA) { return zA; }
    if !Occurs(z, zB) { return zB; }
    var i: nat := 0;
    ghost var at: set<nat> := {};
    ghost var whose: map<nat, nat> := map[];
    while true
      invariant |at| == i && (forall k | k in at :: k < |z|)
      invariant forall k | k in at :: k in whose && whose[k] < i && FoundAt(z, Made(zA, whose[k]), k)
      decreases |z| + 1 - i
    {
      Pigeons(at, |z|);
      p := Made(zA, i);
      if !Occurs(z, p) { return; }
      OccursAt(z, p);
      ghost var k: nat :| FoundAt(z, p, k);
      MadeNotEmpty(zA, i);
      if k in at { MadeApart(z[k..], zA, i, whose[k]); }
      at, whose := at + {k}, whose[k := i];
      i := i + 1;
    }
  }

  lemma MadeNotEmpty(zA: string, i: nat)
    ensures |Made(zA, i)| > 0
  {
  }

  // ---------- putting tokens for characters, and back ----------

  /** z with every t replaced by tok and every o by other. */
  function Sub(z: string, t: char, tok: string, o: char, other: string): string
  {
    if z == "" then ""
    else (if z[0] == t then tok else if z[0] == o then other else [z[0]]) + Sub(z[1..], t, tok, o, other)
  }

  /** They differ somewhere, so neither is a prefix of the other. */
  ghost predicate Apart(p: string, q: string)
  {
    exists k :: 0 <= k < |p| && k < |q| && p[k] != q[k]
  }

  /** tok is found neither across the ends of other, nor across its own ends. */
  ghost predicate Separate(tok: string, other: string)
  {
    && tok != ""
    && (forall i | 0 <= i < |tok| :: Apart(tok[i..], other))
    && (forall i | 0 < i < |tok| :: Apart(tok[i..], tok))
    && (forall i | 0 < i < |other| :: Apart(tok, other[i..]))
  }

  lemma ApartNotPrefix(p: string, q: string, x: string)
    requires Apart(p, q)
    ensures !(p <= q + x)
  {
    var k :| 0 <= k < |p| && k < |q| && p[k] != q[k];
    assert (q + x)[k] == q[k];
  }

  /** Where an end of the token is found in the text, it is found in z itself. */
  lemma {:induction false} EndInText(z: string, t: char, tok: string, o: char, other: string, i: nat)
    requires Separate(tok, other) && i <= |tok| && tok[i..] <= Sub(z, t, tok, o, other)
    requires i == 0 ==> z == "" || z[0] != t
    ensures tok[i..] <= z
    decreases |tok| - i
  {
    if i < |tok| && z != "" {
      var rest := Sub(z[1..], t, tok, o, other);
      if z[0] == t {
        ApartNotPrefix(tok[i..], tok, rest);
        assert false;
      } else if z[0] == o {
        ApartNotPrefix(tok[i..], other, rest);
        assert false;
      } else {
        assert tok[i..][1..] == tok[i + 1..];
        assert ([z[0]] + rest)[1..] == rest;
        EndInText(z[1..], t, tok, o, other, i + 1);
        assert tok[i..] == [z[0]] + tok[i + 1..];
      }
    }
  }

  /** Text in which p starts nowhere before rest is left alone. */
  lemma {:induction false} SkipOver(q: string, rest: string, p: string, r: string)
    requires p != "" && forall i | 0 <= i < |q| :: !(p <= q[i..] + rest)
    ensures ReplaceAll(q + rest, p, r) == q + ReplaceAll(rest, p, r)
  {
    if q == "" {
      assert q + rest == rest;
    } else {
      assert q[0..] == q;
      assert (q + rest)[1..] == q[1..] + rest;
      forall i | 0 <= i < |q[1..]|
        ensures !(p <= q[1..][i..] + rest)
      {
        assert q[1..][i..] == q[i + 1..];
      }
      SkipOver(q[1..], rest, p, r);
    }
  }

  /** replace() brings back every t, and nothing else changes. */
  lemma {:induction false} Restore(z: string, t: char, tok: string, o: char, other: string)
    requires Separate(tok, other) && !Occurs(z, tok)
    ensures ReplaceAll(Sub(z, t, tok, o, other), tok, [t]) == Sub(z, t, [t], o, other)
  {
    if z != "" {
      var rest := Sub(z[1..], t, tok, o, other);
      Restore(z[1..], t, tok, o, other);
      if z[0] == t {
        assert (tok + rest)[|tok|..] == rest;
      } else if z[0] == o {
        forall i | 0 <= i < |other|
          ensures !(tok <= other[i..] + rest)
        {
          if i == 0 { assert tok[0..] == tok && other[0..] == other; ApartNotPrefix(tok, other, rest); }
          else { ApartNotPrefix(tok, other[i..], rest); }
        }
        SkipOver(other, rest, tok, [t]);
      } else {
        var s := Sub(z, t, tok, o, other);
        assert s[1..] == rest && tok[0..] == tok;
        if tok <= s { EndInText(z, t, tok, o, other, 0); }
      }
    }
  }

  lemma {:induction false} SubNothing(z: string, t: char, o: char)
    ensures Sub(z, t, [t], o, [o]) == z
  {
    if z != "" { SubNothing(z[1..], t, o); }
  }

  lemma {:induction false} SubSwap(z: string, t: char, tok: string, o: char, other: string)
    requires t != o
    ensures Sub(z, t, tok, o, other) == Sub(z, o, other, t, tok)
  {
    if z != "" { SubSwap(z[1..], t, tok, o, other); }
  }

  // ---------- the tokens ----------

  /** What unused_string gives for the letter x and the last digit d. */
  ghost predicate Token(p: string, x: char, d: char)
  {
    || p == ['\\', x]
    || p == ['\\', '0', '1', d]
    || exists i: nat :: p == Made(['\\', x], i)
  }

  /** A token starts with a backslash or a parenthesis; later the one can come only
      right after the other, and no quote or line end comes at all. */
  lemma TokenShape(p: string, x: char, d: char)
    requires Token(p, x, d) && 'a' <= x <= 'z' && '0' <= d <= '9'
    ensures |p| >= 2 && p[0] in {'\\', '('}
    ensures p[0] == '(' ==> p[1] == '\\' && |p| >= 5 && p[2] == x
    ensures p[0] == '\\' ==> p[1] in {x, '0'} && (p[1] == '0' ==> p == ['\\', '0', '1', d])
    ensures forall i | 1 <= i < |p| :: p[i] != '(' && (p[i] == '\\' ==> i == 1 && p[0] == '(')
    ensures forall i | 0 <= i < |p| :: p[i] !in {'\'', '\r', '\n'}
  {
    if i: nat :| p == Made(['\\', x], i) {
      var n := Decimal(i);
      assert p == ['(', '\\', x] + n + [')'];
    }
  }

  lemma Differ(p: string, q: string, k: nat)
    requires k < |p| && k < |q| && p[k] != q[k]
    ensures Apart(p, q)
  {
  }

  /** Tokens for different letters do not overlap each other, nor themselves. */
  lemma TokensSeparate(p: string, x: char, d: char, q: string, y: char, e: char)
    requires Token(p, x, d) && Token(q, y, e) && x != y && d != e
    requires 'a' <= x <= 'z' && 'a' <= y <= 'z' && '0' <= d <= '9' && '0' <= e <= '9'
    ensures Separate(p, q)
  {
    TokenShape(p, x, d);
    TokenShape(q, y, e);
    forall i | 0 <= i < |p|
      ensures Apart(p[i..], q)
    {
      var s := p[i..];
      if s[0] != q[0] { Differ(s, q, 0); }
      else if s[0] == '(' { Differ(s, q, 2); }
      else if s[1] != q[1] { Differ(s, q, 1); }
      else { Differ(s, q, 3); }
    }
    forall i | 0 < i < |p|
      ensures Apart(p[i..], p)
    {
      Differ(p[i..], p, 0);
    }
    forall i | 0 < i < |q|
      ensures Apart(p, q[i..])
    {
      var s := q[i..];
      if s[0] != p[0] { Differ(p, s, 0); }
      else { Differ(p, s, 1); }
    }
  }

  lemma TokenAndLineEnd(p: string, x: char, d: char, c: char)
    requires Token(p, x, d) && 'a' <= x <= 'z' && '0' <= d <= '9' && c in {'\r', '\n'}
    ensures Separate(p, [c])
  {
    TokenShape(p, x, d);
    forall i | 0 <= i < |p|
      ensures Apart(p[i..], [c])
    {
      Differ(p[i..], [c], 0);
    }
    forall i | 0 < i < |p|
      ensures Apart(p[i..], p)
    {
      Differ(p[i..], p, 0);
    }
  }

  // ---------- output_quoted_escaped_string ----------

  function Doubled(w: string): string
  {
    if w == "" then "" else (if w[0] == '\'' then "''" else [w[0]]) + Doubled(w[1..])
  }

  lemma {:induction false} DoubledPlus(a: string, b: string)
    ensures Doubled(a + b) == Doubled(a) + Doubled(b)
  {
    if a == "" {
      assert a + b == b;
    } else {
      assert (a + b)[1..] == a[1..] + b;
      DoubledPlus(a[1..], b);
    }
  }

  lemma {:induction false} DoubledPlain(w: string)
    requires '\'' !in w
    ensures Doubled(w) == w
  {
    if w != "" { DoubledPlain(w[1..]); }
  }

  lemma {:induction false} SubPlus(a: string, b: string, t: char, tok: string, o: char, other: string)
    ensures Sub(a + b, t, tok, o, other) == Sub(a, t, tok, o, other) + Sub(b, t, tok, o, other)
  {
    if a == "" {
      assert a + b == b;
    } else {
      assert (a + b)[1..] == a[1..] + b;
      SubPlus(a[1..], b, t, tok, o, other);
    }
  }

  lemma {:induction false} SubPlain(w: string, t: char, tok: string, o: char, other: string)
    requires t !in w && o !in w
    ensures Sub(w, t, tok, o, other) == w
  {
    if w != "" { SubPlain(w[1..], t, tok, o, other); }
  }

  /** The text between the quotes. */
  function Between(z: string, nl: string, cr: string): string
  {
    Doubled(Sub(z, '\n', nl, '\r', cr))
  }

  /** Printing goes piece by piece: a run of plain characters, then a special one. */
  lemma BetweenPlus(a: string, b: string, nl: string, cr: string)
    ensures Between(a + b, nl, cr) == Between(a, nl, cr) + Between(b, nl, cr)
  {
    SubPlus(a, b, '\n', nl, '\r', cr);
    DoubledPlus(Sub(a, '\n', nl, '\r', cr), Sub(b, '\n', nl, '\r', cr));
  }

  predicate Plain(c: char) { c != '\'' && c != '\n' && c != '\r' }

  lemma BetweenPlain(w: string, nl: string, cr: string)
    requires forall i | 0 <= i < |w| :: Plain(w[i])
    ensures Between(w, nl, cr) == w
  {
    SubPlain(w, '\n', nl, '\r', cr);
    DoubledPlain(w);
  }

  lemma BetweenSpecial(nl: string, cr: string)
    requires '\'' !in nl && '\'' !in cr
    ensures Between("\n", nl, cr) == nl && Between("\r", nl, cr) == cr && Between("'", nl, cr) == "''"
  {
    assert Sub("\n", '\n', nl, '\r', cr) == nl + "" == nl;
    assert Sub("\r", '\n', nl, '\r', cr) == cr + "" == cr;
    assert Sub("'", '\n', nl, '\r', cr) == "'";
    DoubledPlain(nl);
    DoubledPlain(cr);
  }

  /** The printing loop: runs of plain characters, quotes doubled, line ends as tokens. */
  method PrintBetween(z: string, nl: string, cr: string) returns (out: string)
    requires '\'' !in nl && '\'' !in cr
    ensures out == Between(z, nl, cr)
  {
    hide Between;
    BetweenSpecial(nl, cr);
    BetweenPlain("", nl, cr);
    out := "";
    var k: nat := 0;
    while k < |z|
      invariant k <= |z| && out == Between(z[..k], nl, cr)
    {
      var i := PlainRun(z, k);
      BetweenPlain(z[k..i], nl, cr);
      BetweenPlus(z[..k], z[k..i], nl, cr);
      assert z[..k] + z[k..i] == z[..i];
      out := out + z[k..i];
      k := i;
      if k < |z| {
        BetweenPlus(z[..k], [z[k]], nl, cr);
        assert z[..k] + [z[k]] == z[..k + 1];
        out := out + (if z[k] == '\'' then "''" else if z[k] == '\n' then nl else cr);
        k := k + 1;
      }
    }
    assert z[..k] == z;
  }

  /** for (i = 0; plain(z[i]); i++) from place k on. */
  method PlainRun(z: string, k: nat) returns (i: nat)
    requires k <= |z|
    ensures k <= i <= |z| && (forall j | k <= j < i :: Plain(z[j])) && (i < |z| ==> !Plain(z[i]))
  {
    i := k;
    while i < |z| && Plain(z[i])
      invariant k <= i <= |z| && forall j | k <= j < i :: Plain(z[j])
    {
      i := i + 1;
    }
  }

  lemma {:induction false} LiteralBodyOf(w: string, rest: string)
    requires rest == "" || rest[0] != '\''
    ensures LiteralBody(Doubled(w) + "'" + rest) == Some((w, rest))
  {
    var s := Doubled(w) + "'" + rest;
    if w == "" {
      assert s == "'" + rest && s[1..] == rest;
    } else {
      LiteralBodyOf(w[1..], rest);
      var tail := Doubled(w[1..]) + "'" + rest;
      if w[0] == '\'' {
        assert s == "''" + tail && s[2..] == tail;
      } else {
        assert s == [w[0]] + tail && s[1..] == tail;
      }
      assert [w[0]] + w[1..] == w;
    }
  }

  lemma LiteralOf(w: string, rest: string)
    requires rest == "" || rest[0] != '\''
    ensures Literal("'" + Doubled(w) + "'" + rest) == Some((w, rest))
    ensures Expression("'" + Doubled(w) + "'" + rest) == Some((w, rest))
  {
    hide Doubled, LiteralBody, Expression;
    var s := "'" + Doubled(w) + "'" + rest;
    assert s[1..] == Doubled(w) + "'" + rest;
    LiteralBodyOf(w, rest);
    assert s[0] == '\'';
    QuotedExpression(s);
  }

  lemma QuotedExpression(s: string)
    requires s != "" && s[0] == '\''
    ensures Expression(s) == Literal(s)
  {
    hide Literal, Arguments;
    assert REPLACE[0] != '\'';
  }

  function CharCall(c: char): string
  {
    if c == '\r' then ",char(13))" else ",char(10))"
  }

  /** What is printed after the text that replace() works on. */
  function CallEnd(tok: string, c: char): string
  {
    ",'" + tok + "'" + CharCall(c)
  }

  lemma CharCallIs(c: char, rest: string)
    requires c == '\r' || c == '\n'
    ensures var s := CharCall(c) + rest;
            && (",char(13))" <= s <==> c == '\r') && (",char(10))" <= s <==> c == '\n')
            && s[0] == ',' && |s| >= 10 && s[10..] == rest
  {
    var s := CharCall(c) + rest;
    assert s[7] == if c == '\r' then '3' else '0';
    assert ",char(13))"[7] == '3' && ",char(10))"[7] == '0';
    assert |CharCall(c)| == 10 && s[..10] == CharCall(c);
  }

  lemma ArgumentsOf(v: string, tok: string, c: char, rest: string)
    requires c == '\r' || c == '\n'
    requires tok != "" && '\'' !in tok
    ensures Arguments(v, CallEnd(tok, c) + rest) == Some((ReplaceAll(v, tok, [c]), rest))
  {
    hide ReplaceAll, CharCall, Literal;
    var s, call := CallEnd(tok, c) + rest, CharCall(c) + rest;
    DoubledPlain(tok);
    CharCallIs(c, rest);
    LiteralOf(tok, call);
    assert s == "," + ("'" + tok + "'" + call);
    assert s[1..] == "'" + tok + "'" + call;
  }

  /** A replace() call around an expression. */
  lemma ReplaceOf(e: string, v: string, tok: string, c: char, rest: string)
    requires c == '\r' || c == '\n'
    requires tok != "" && '\'' !in tok
    requires Expression(e + (CallEnd(tok, c) + rest)) == Some((v, CallEnd(tok, c) + rest))
    ensures Expression(REPLACE + e + CallEnd(tok, c) + rest) == Some((ReplaceAll(v, tok, [c]), rest))
  {
    hide ReplaceAll, Arguments, CallEnd;
    var args := CallEnd(tok, c) + rest;
    ArgumentsOf(v, tok, c, rest);
    assert REPLACE + e + CallEnd(tok, c) + rest == REPLACE + (e + args);
    assert (REPLACE + (e + args))[8..] == e + args;
  }

  lemma {:induction false} SubAbsent(z: string, t: char, tok: string, o: char, other: string)
    requires o !in z
    ensures Sub(z, t, tok, o, other) == Sub(z, t, tok, o, [o])
  {
    if z != "" { SubAbsent(z[1..], t, tok, o, other); }
  }

  lemma SimpleOK(z: string)
    requires forall i | 0 <= i < |z| :: Plain(z[i])
    ensures Evaluate("'" + z + "'") == Some(z)
  {
    DoubledPlain(z);
    LiteralOf(z, "");
    assert "'" + Doubled(z) + "'" + "" == "'" + z + "'";
  }

  ghost predicate Fits(z: string, p: string, x: char, d: char)
  {
    Token(p, x, d) && !Occurs(z, p)
  }

  /** The inner call brings the carriage returns back. */
  lemma InnerOK(z: string, nl: string, cr: string, rest: string)
    requires Token(nl, 'n', '2') && (if '\r' in z then Fits(z, cr, 'r', '5') else Token(cr, 'r', '5'))
    requires rest == "" || rest[0] == ','
    ensures var q, v := "'" + Between(z, nl, cr) + "'", Sub(z, '\n', nl, '\r', "\r");
            if '\r' in z then Expression(REPLACE + q + CallEnd(cr, '\r') + rest) == Some((v, rest))
            else Expression(q + rest) == Some((v, rest))
  {
    hide Sub, Doubled, ReplaceAll, Expression, CharCall;
    var u := Sub(z, '\n', nl, '\r', cr);
    if '\r' in z {
      LiteralOf(u, CallEnd(cr, '\r') + rest);
      TokenShape(cr, 'r', '5');
      ReplaceOf("'" + Doubled(u) + "'", u, cr, '\r', rest);
      SubSwap(z, '\n', nl, '\r', cr);
      SubSwap(z, '\n', nl, '\r', "\r");
      TokensSeparate(cr, 'r', '5', nl, 'n', '2');
      Restore(z, '\r', cr, '\n', nl);
    } else {
      LiteralOf(u, rest);
      SubAbsent(z, '\n', nl, '\r', cr);
    }
  }

  /** The outer call brings the line feeds back. */
  lemma OuterOK(z: string, nl: string, e: string)
    requires Fits(z, nl, 'n', '2')
    requires Expression(e + (CallEnd(nl, '\n') + "")) == Some((Sub(z, '\n', nl, '\r', "\r"), CallEnd(nl, '\n') + ""))
    ensures Evaluate(REPLACE + e + CallEnd(nl, '\n') + "") == Some(z)
  {
    hide Sub, ReplaceAll, Expression, CallEnd;
    var v := Sub(z, '\n', nl, '\r', "\r");
    SubNothing(z, '\n', '\r');
    TokenShape(nl, 'n', '2');
    ReplaceOf(e, v, nl, '\n', "");
    TokenAndLineEnd(nl, 'n', '2', '\r');
    Restore(z, '\n', nl, '\r', "\r");
  }

  lemma NoLineFeed(z: string, nl: string)
    requires '\n' !in z
    ensures Sub(z, '\n', nl, '\r', "\r") == z
  {
    SubSwap(z, '\n', nl, '\r', "\r");
    SubAbsent(z, '\r', "\r", '\n', nl);
    SubSwap(z, '\n', "\n", '\r', "\r");
    SubNothing(z, '\n', '\r');
  }

  /** Everything that is printed: the calls, the quoted text, and their ends. */
  function Printed(z: string, nl: string, cr: string): string
  {
    var q := "'" + Between(z, nl, cr) + "'";
    var e := if '\r' in z then REPLACE + q + CallEnd(cr, '\r') else q;
    if '\n' in z then REPLACE + e + CallEnd(nl, '\n') else e
  }

  lemma PrintedOK(z: string, nl: string, cr: string)
    requires if '\n' in z then Fits(z, nl, 'n', '2') else Token(nl, 'n', '2')
    requires if '\r' in z then Fits(z, cr, 'r', '5') else Token(cr, 'r', '5')
    ensures Evaluate(Printed(z, nl, cr)) == Some(z)
  {
    hide Between, Expression, Token, CallEnd;
    var q := "'" + Between(z, nl, cr) + "'";
    var e := if '\r' in z then REPLACE + q + CallEnd(cr, '\r') else q;
    if '\n' in z {
      assert CallEnd(nl, '\n')[0] == ',' by { CallEndStart(nl); }
      InnerOK(z, nl, cr, CallEnd(nl, '\n') + "");
      OuterOK(z, nl, e);
      assert REPLACE + e + CallEnd(nl, '\n') + "" == REPLACE + e + CallEnd(nl, '\n');
    } else {
      InnerOK(z, nl, cr, "");
      NoLineFeed(z, nl);
      assert e + "" == e;
    }
  }

  /** It fits on one line. */
  predicate OneLine(s: string)
  {
    '\n' !in s && '\r' !in s
  }

  lemma {:induction false} SubClean(z: string, nl: string, cr: string)
    requires ('\n' in z ==> OneLine(nl)) && ('\r' in z ==> OneLine(cr))
    ensures OneLine(Sub(z, '\n', nl, '\r', cr))
    decreases |z|
  {
    if z != "" { SubClean(z[1..], nl, cr); }
  }

  lemma {:induction false} DoubledClean(w: string)
    requires OneLine(w)
    ensures OneLine(Doubled(w))
  {
    if w != "" { DoubledClean(w[1..]); }
  }

  lemma EndClean(tok: string, c: char)
    requires OneLine(tok)
    ensures OneLine(CallEnd(tok, c))
  {
  }

  /** That is what the tokens are for. */
  lemma PrintedClean(z: string, nl: string, cr: string)
    requires OneLine(nl) && OneLine(cr)
    ensures OneLine(Printed(z, nl, cr))
  {
    hide Between, CallEnd;
    BetweenClean(z, nl, cr);
    EndClean(nl, '\n');
    EndClean(cr, '\r');
    assert OneLine(REPLACE);
  }

  lemma BetweenClean(z: string, nl: string, cr: string)
    requires OneLine(nl) && OneLine(cr)
    ensures OneLine(Between(z, nl, cr))
  {
    SubClean(z, nl, cr);
    DoubledClean(Sub(z, '\n', nl, '\r', cr));
  }

  lemma CallEndStart(tok: string)
    ensures |CallEnd(tok, '\n')| > 0 && CallEnd(tok, '\n')[0] == ','
  {
  }

  /** for (i = 0; z[i]; i++): how many line feeds and carriage returns there are. */
  method CountLineEnds(z: string) returns (nNL: nat, nCR: nat)
    ensures nNL == multiset(z)['\n'] && nCR == multiset(z)['\r']
  {
    nNL, nCR := 0, 0;
    var i: nat := 0;
    while i < |z|
      invariant i <= |z| && nNL == multiset(z[..i])['\n'] && nCR == multiset(z[..i])['\r']
    {
      assert z[..i + 1] == z[..i] + [z[i]];
      if z[i] == '\n' { nNL := nNL + 1; }
      if z[i] == '\r' { nCR := nCR + 1; }
      i := i + 1;
    }
    assert z[..i] == z;
  }

  /** What unused_string gives is a token that fits. */
  lemma UnusedFits(z: string, p: string, x: char, d: char)
    requires !Occurs(z, p)
    requires p == ['\\', x] || p == ['\\', '0', '1', d] || exists i: nat :: i <= |z| && p == Made(['\\', x], i)
    ensures Fits(z, p, x, d) && Token(p, x, d)
  {
    hide Occurs, Made;
  }

  lemma FirstToken(x: char, d: char)
    ensures Token(['\\', x], x, d)
  {
  }

  /** What is printed, piece by piece. */
  lemma PrintedParts(z: string, nl: string, cr: string, q: string)
    requires q == "'" + Between(z, nl, cr) + "'"
    ensures Printed(z, nl, cr)
            == (if '\n' in z then REPLACE else "") + (if '\r' in z then REPLACE else "") + q
               + (if '\r' in z then CallEnd(cr, '\r') else "") + (if '\n' in z then CallEnd(nl, '\n') else "")
  {
    hide Between, CallEnd;
    var c, n := CallEnd(cr, '\r'), CallEnd(nl, '\n');
    if '\n' in z && '\r' in z {
      assert REPLACE + (REPLACE + q + c) + n == REPLACE + REPLACE + q + c + n;
    } else if '\n' in z {
      assert REPLACE + q + n == REPLACE + "" + q + "" + n;
    } else if '\r' in z {
      assert REPLACE + q + c == "" + REPLACE + q + c + "";
    } else {
      assert q == "" + "" + q + "" + "";
    }
  }

  /** The text between the replace() calls that it needs. */
  method PrintHidden(z: string, zNL: string, zCR: string, nNL: nat, nCR: nat) returns (out: string)
    requires (nNL > 0 <==> '\n' in z) && (nCR > 0 <==> '\r' in z)
    requires '\'' !in zNL && '\'' !in zCR
    ensures out == Printed(z, zNL, zCR)
  {
    hide Between, CallEnd, Printed;
    out := if nNL > 0 then REPLACE else "";
    out := out + (if nCR > 0 then REPLACE else "");
    var t := PrintBetween(z, zNL, zCR);
    PrintedParts(z, zNL, zCR, "'" + t + "'");
    out := out + ("'" + t + "'");
    out := out + (if nCR > 0 then CallEnd(zCR, '\r') else "");
    out := out + (if nNL > 0 then CallEnd(zNL, '\n') else "");
  }

  /** output_quoted_escaped_string: what it prints evaluates to z, and fits on one line. */
  method OutputQuotedEscapedString(z: string) returns (out: string)
    ensures Evaluate(out) == Some(z) && OneLine(out)
  {
    hide Printed, Between, Expression, Evaluate, Made, Occurs, CallEnd, Fits, Token;
    var i := PlainRun(z, 0);
    if i == |z| {
      SimpleOK(z);
      return "'" + z + "'";
    }
    var nNL, nCR := CountLineEnds(z);
    var zNL, zCR := "\\n", "\\r";
    FirstToken('n', '2');
    FirstToken('r', '5');
    if nNL > 0 {
      zNL := UnusedString(z, "\\n", "\\012");
      UnusedFits(z, zNL, 'n', '2');
    }
    if nCR > 0 {
      zCR := UnusedString(z, "\\r", "\\015");
      UnusedFits(z, zCR, 'r', '5');
    }
    TokenShape(zNL, 'n', '2');
    TokenShape(zCR, 'r', '5');
    out := PrintHidden(z, zNL, zCR, nNL, nCR);
    PrintedOK(z, zNL, zCR);
    PrintedClean(z, zNL, zCR);
  }
}
