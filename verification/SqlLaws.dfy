/**
 What the two scanners of app/db_backend.py do, said without their modes: quoted stretches are copied
 whole, and outside them each placeholder is replaced and each semicolon ends a statement.  The laws
 are complete: no other function obeys them.
 */
module SqlLaws {
  import opened SqlScanner

  predicate IsQuote(c: char) {
    c == '\'' || c == '"'
  }

  // ---------- Placeholders ----------

  ghost predicate ReplacesPlaceholders(f: string -> string) {
    && f("") == ""
    && (forall rest :: f("?" + rest) == "%s" + f(rest))
    && (forall c, rest :: !IsQuote(c) && c != '?' ==> f([c] + rest) == [c] + f(rest))
    && (forall c, q, rest :: IsQuote(c) && c !in q ==> f([c] + q + [c] + rest) == [c] + q + [c] + f(rest))
    && (forall c, q :: IsQuote(c) && c !in q ==> f([c] + q) == [c] + q)
  }

  function ModeIn(quote: char): Mode {
    if quote == '\'' then Single else Double
  }

  /** Inside quotes everything is copied, the other kind of quote and placeholders included. */
  lemma {:induction false} QuotedCopied(c: char, q: string, rest: string)
    requires IsQuote(c) && c !in q
    ensures RewriteFrom(ModeIn(c), q + rest) == q + RewriteFrom(ModeIn(c), rest)
    decreases |q|
  {
    if q == "" {
      assert q + rest == rest;
    } else {
      assert (q + rest)[1..] == q[1..] + rest;
      QuotedCopied(c, q[1..], rest);
      assert q == [q[0]] + q[1..];
    }
  }

  lemma RewriteOne(mode: Mode, c: char, rest: string)
    ensures RewriteFrom(mode, [c] + rest) == Emit(mode, c) + RewriteFrom(Step(mode, c), rest)
  {
    assert ([c] + rest)[1..] == rest;
  }

  /** A quoted stretch is copied, and the text behind it is rewritten as if it stood alone. */
  lemma RewriteQuoted(c: char, q: string, rest: string)
    requires IsQuote(c) && c !in q
    ensures Rewrite([c] + q + [c] + rest) == [c] + q + [c] + Rewrite(rest)
  {
    assert [c] + q + [c] + rest == [c] + (q + ([c] + rest));
    RewriteOne(Plain, c, q + ([c] + rest));
    QuotedCopied(c, q, [c] + rest);
    RewriteOne(ModeIn(c), c, rest);
    assert [c] + (q + ([c] + Rewrite(rest))) == [c] + q + [c] + Rewrite(rest);
  }

  /** A quote that is never closed quotes the rest of the text. */
  lemma RewriteUnclosed(c: char, q: string)
    requires IsQuote(c) && c !in q
    ensures Rewrite([c] + q) == [c] + q
  {
    RewriteOne(Plain, c, q);
    QuotedCopied(c, q, "");
    assert q + "" == q;
  }

  /** Text without quotes has each placeholder replaced, and what follows is rewritten on its own. */
  lemma {:induction false} RewriteUnquoted(p: string, rest: string)
    requires forall c <- p :: !IsQuote(c)
    ensures Rewrite(p + rest) == ReplaceAll(p) + Rewrite(rest)
    decreases |p|
  {
    if p == "" {
      assert p + rest == rest;
    } else {
      assert p[0] in p && p + rest == [p[0]] + (p[1..] + rest);
      RewriteUnquoted(p[1..], rest);
      RewriteOne(Plain, p[0], p[1..] + rest);
    }
  }

  lemma RewriteFirst(c: char, rest: string)
    requires !IsQuote(c)
    ensures Rewrite([c] + rest) == (if c == '?' then "%s" else [c]) + Rewrite(rest)
    ensures Rewrite("") == ""
  {
    RewriteOne(Plain, c, rest);
  }

  lemma PlaceholderIsNoQuote()
    ensures !IsQuote('?')
  {
  }

  lemma RewriteObeysLaws()
    ensures ReplacesPlaceholders(Rewrite)
  {
    hide Rewrite, IsQuote;
    PlaceholderIsNoQuote();
    RewriteFirst('?', "");
    forall c: char, rest: string | !IsQuote(c)
      ensures Rewrite([c] + rest) == (if c == '?' then "%s" else [c]) + Rewrite(rest)
    {
      RewriteFirst(c, rest);
    }
    forall rest: string
      ensures Rewrite("?" + rest) == "%s" + Rewrite(rest)
    {
      RewriteFirst('?', rest);
      assert "?" + rest == ['?'] + rest;
    }
    forall c, q, rest: string | IsQuote(c) && c !in q
      ensures Rewrite([c] + q + [c] + rest) == [c] + q + [c] + Rewrite(rest)
    {
      RewriteQuoted(c, q, rest);
    }
    forall c, q: string | IsQuote(c) && c !in q
      ensures Rewrite([c] + q) == [c] + q
    {
      RewriteUnclosed(c, q);
    }
  }

  /** How a text beginning with a quote divides: at the next quote of the same kind, if there is one. */
  lemma {:induction false} Divide(c: char, s: string) returns (q: string, closed: bool, rest: string)
    ensures c !in q && s == (if closed then q + [c] + rest else q)
    ensures closed ==> |rest| < |s|
  {
    if s == "" {
      q, closed, rest := "", false, "";
    } else if s[0] == c {
      q, closed, rest := "", true, s[1..];
    } else {
      q, closed, rest := Divide(c, s[1..]);
      q := [s[0]] + q;
      assert s == [s[0]] + s[1..];
    }
  }

  /** The laws leave no choice: a function that obeys them is the rewriting. */
  lemma {:induction false} OnlyRewriteObeys(f: string -> string, s: string)
    requires ReplacesPlaceholders(f)
    ensures f(s) == Rewrite(s)
    decreases |s|
  {
    RewriteObeysLaws();
    hide Rewrite, RewriteFrom;
    if s != "" {
      var c, tail := s[0], s[1..];
      assert s == [c] + tail;
      if !IsQuote(c) {
        OnlyRewriteObeys(f, tail);
        assert c == '?' ==> s == "?" + tail;
      } else {
        var q, closed, rest := Divide(c, tail);
        if closed {
          OnlyRewriteObeys(f, rest);
          assert s == [c] + q + [c] + rest;
        } else {
          assert s == [c] + q;
        }
      }
    }
  }

  // ---------- Statements ----------

  ghost predicate SplitsStatements(g: (string, string) -> seq<string>) {
    && (forall current :: g(current, "") == if Strip(current) == "" then [] else [Strip(current)])
    && (forall current, rest :: g(current, ";" + rest) == g(current, "") + g("", rest))
    && (forall current, c, rest :: !IsQuote(c) && c != ';' ==> g(current, [c] + rest) == g(current + [c], rest))
    && (forall current, c, q, rest :: IsQuote(c) && c !in q ==>
          g(current, [c] + q + [c] + rest) == g(current + [c] + q + [c], rest))
    && (forall current, c, q :: IsQuote(c) && c !in q ==> g(current, [c] + q) == g(current + [c] + q, ""))
  }

  /** What is left of a script when `current` was read since the last semicolon. */
  function Statements(current: string, s: string): seq<string> {
    SplitFrom(Plain, current, s)
  }

  lemma SplitOne(mode: Mode, current: string, c: char, rest: string)
    ensures SplitFrom(mode, current, [c] + rest)
         == if mode == Plain && c == ';' then Flush(current) + SplitFrom(Plain, "", rest)
            else SplitFrom(Step(mode, c), current + [c], rest)
  {
    assert ([c] + rest)[1..] == rest;
  }

  lemma {:induction false} QuotedCollected(c: char, current: string, q: string, rest: string)
    requires IsQuote(c) && c !in q
    ensures SplitFrom(ModeIn(c), current, q + rest) == SplitFrom(ModeIn(c), current + q, rest)
    decreases |q|
  {
    if q == "" {
      assert q + rest == rest && current + q == current;
    } else {
      assert q + rest == [q[0]] + (q[1..] + rest) && current + q == current + [q[0]] + q[1..];
      SplitOne(ModeIn(c), current, q[0], q[1..] + rest);
      QuotedCollected(c, current + [q[0]], q[1..], rest);
    }
  }

  /** A quoted stretch goes whole into the current statement, semicolons included. */
  lemma SplitQuoted(current: string, c: char, q: string, rest: string)
    requires IsQuote(c) && c !in q
    ensures Statements(current, [c] + q + [c] + rest) == Statements(current + [c] + q + [c], rest)
  {
    assert [c] + q + [c] + rest == [c] + (q + ([c] + rest));
    SplitOne(Plain, current, c, q + ([c] + rest));
    QuotedCollected(c, current + [c], q, [c] + rest);
    SplitOne(ModeIn(c), current + [c] + q, c, rest);
  }

  lemma SplitUnclosed(current: string, c: char, q: string)
    requires IsQuote(c) && c !in q
    ensures Statements(current, [c] + q) == Flush(current + [c] + q)
  {
    SplitOne(Plain, current, c, q);
    QuotedCollected(c, current + [c], q, "");
    assert q + "" == q;
  }

  /** Text without quotes and semicolons goes into the current statement. */
  lemma {:induction false} SplitUnquoted(current: string, p: string, rest: string)
    requires forall c <- p :: !IsQuote(c) && c != ';'
    ensures Statements(current, p + rest) == Statements(current + p, rest)
    decreases |p|
  {
    if p == "" {
      assert p + rest == rest && current + p == current;
    } else {
      assert p[0] in p && p + rest == [p[0]] + (p[1..] + rest) && current + p == current + [p[0]] + p[1..];
      SplitOne(Plain, current, p[0], p[1..] + rest);
      SplitUnquoted(current + [p[0]], p[1..], rest);
    }
  }

  lemma SplitObeysLaws()
    ensures SplitsStatements(Statements)
  {
    hide Strip;
    forall current: string, c: char, rest: string
      ensures Statements(current, [c] + rest)
           == if c == ';' then Flush(current) + Statements("", rest) else SplitFrom(Step(Plain, c), current + [c], rest)
    {
      SplitOne(Plain, current, c, rest);
    }
    forall current: string, c, q, rest: string | IsQuote(c) && c !in q
      ensures Statements(current, [c] + q + [c] + rest) == Statements(current + [c] + q + [c], rest)
    {
      SplitQuoted(current, c, q, rest);
    }
    forall current: string, c, q: string | IsQuote(c) && c !in q
      ensures Statements(current, [c] + q) == Flush(current + [c] + q)
    {
      SplitUnclosed(current, c, q);
    }
  }

  /** These laws too leave no choice. */
  lemma {:induction false} OnlySplitObeys(g: (string, string) -> seq<string>, current: string, s: string)
    requires SplitsStatements(g)
    ensures g(current, s) == Statements(current, s)
    decreases |s|
  {
    SplitObeysLaws();
    hide Statements, Strip;
    if s != "" {
      var c, tail := s[0], s[1..];
      assert s == [c] + tail;
      if c == ';' {
        assert s == ";" + tail;
        OnlySplitObeys(g, "", tail);
        assert g(current, "") == Statements(current, "");
        assert Statements(current, ";" + tail) == Statements(current, "") + Statements("", tail);
      } else if !IsQuote(c) {
        OnlySplitObeys(g, current + [c], tail);
      } else {
        var q, closed, rest := Divide(c, tail);
        if closed {
          OnlySplitObeys(g, current + [c] + q + [c], rest);
          assert s == [c] + q + [c] + rest;
        } else {
          assert s == [c] + q;
        }
      }
    }
  }

  lemma SplitIsStatements(script: string)
    ensures Split(script) == Statements("", script)
  {
  }

  // ---------- White space ----------

  ghost predicate AllSpace(s: string) {
    forall i :: 0 <= i < |s| ==> IsSpace(s[i])
  }

  lemma {:induction false} LeftStripExact(s: string) returns (a: string)
    ensures AllSpace(a) && s == a + LeftStrip(s)
    ensures LeftStrip(s) != "" ==> !IsSpace(LeftStrip(s)[0])
  {
    if s != "" && IsSpace(s[0]) {
      a := LeftStripExact(s[1..]);
      a := [s[0]] + a;
      assert s == [s[0]] + s[1..];
    } else {
      a := "";
    }
  }

  lemma {:induction false} RightStripExact(s: string) returns (b: string)
    ensures AllSpace(b) && s == RightStrip(s) + b
    ensures RightStrip(s) != "" ==> !IsSpace(RightStrip(s)[|RightStrip(s)| - 1])
    decreases |s|
  {
    if s != "" && IsSpace(s[|s| - 1]) {
      b := RightStripExact(s[..|s| - 1]);
      b := b + [s[|s| - 1]];
      assert s == s[..|s| - 1] + [s[|s| - 1]];
    } else {
      b := "";
      assert s == s + "";
    }
  }

  /** Stripping takes white space off both ends, and all of it. */
  lemma StripExact(s: string)
    ensures exists a, b :: AllSpace(a) && AllSpace(b) && s == a + Strip(s) + b
    ensures Strip(s) != "" ==> !IsSpace(Strip(s)[0]) && !IsSpace(Strip(s)[|Strip(s)| - 1])
  {
    var a := LeftStripExact(s);
    var b := RightStripExact(LeftStrip(s));
    assert s == a + Strip(s) + b;
    if Strip(s) != "" {
      assert LeftStrip(s)[0] == Strip(s)[0];
    }
  }
}
