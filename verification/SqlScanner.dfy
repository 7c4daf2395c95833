/**
 The two quote-tracking scanners of app/db_backend.py: placeholder rewriting and statement splitting.

 Both scanners look one character ahead inside single quotes, to step over a doubled quote.  The
 specification does not: it switches a mode at every quote, and the loops are proved to agree with it.
 */
module SqlScanner {
  import opened Common

  datatype Mode = Plain | Single | Double

  function Step(mode: Mode, c: char): Mode {
    match mode
    case Plain => if c == '\'' then Single else if c == '"' then Double else Plain
    case Single => if c == '\'' then Plain else Single
    case Double => if c == '"' then Plain else Double
  }

  function ModeAfter(mode: Mode, s: string): Mode
    decreases |s|
  {
    if s == "" then mode else ModeAfter(Step(mode, s[0]), s[1..])
  }

  /** Python's `str.isspace` for one character. */
  predicate IsSpace(c: char) {
    var u := c as int;
    || 0x09 <= u <= 0x0D || 0x1C <= u <= 0x20 || u == 0x85 || u == 0xA0 || u == 0x1680
    || 0x2000 <= u <= 0x200A || u == 0x2028 || u == 0x2029 || u == 0x202F || u == 0x205F || u == 0x3000
  }

  function LeftStrip(s: string): string {
    if s != "" && IsSpace(s[0]) then LeftStrip(s[1..]) else s
  }

  function RightStrip(s: string): string {
    if s != "" && IsSpace(s[|s| - 1]) then RightStrip(s[..|s| - 1]) else s
  }

  function Strip(s: string): string {
    RightStrip(LeftStrip(s))
  }

  // ---------- Placeholder rewriting ----------

  function RewriteFrom(mode: Mode, s: string): string
    decreases |s|
  {
    if s == "" then ""
    else Emit(mode, s[0]) + RewriteFrom(Step(mode, s[0]), s[1..])
  }

  function Emit(mode: Mode, c: char): string {
    if mode == Plain && c == '?' then "%s" else [c]
  }

  function Rewrite(s: string): string {
    RewriteFrom(Plain, s)
  }

  function ModeOf(inSingle: bool, inDouble: bool): Mode {
    if inSingle then Single else if inDouble then Double else Plain
  }

  lemma RewriteHead(done: string, mode: Mode, s: string, i: nat)
    requires i < |s|
    ensures done + RewriteFrom(mode, s[i..]) == done + Emit(mode, s[i]) + RewriteFrom(Step(mode, s[i]), s[i + 1..])
  {
    assert s[i..][1..] == s[i + 1..];
  }

  method ReplaceQmarkParams(sql: string) returns (r: string)
    ensures r == Rewrite(sql)
  {
    r := "";
    var inSingle, inDouble, index := false, false, 0;
    while index < |sql|
      invariant index <= |sql| && !(inSingle && inDouble)
      invariant r + RewriteFrom(ModeOf(inSingle, inDouble), sql[index..]) == Rewrite(sql)
    {
      var c := sql[index];
      RewriteHead(r, ModeOf(inSingle, inDouble), sql, index);
      if c == '\'' && !inDouble {
        r := r + [c];
        if inSingle && index + 1 < |sql| && sql[index + 1] == '\'' {
          RewriteHead(r, Plain, sql, index + 1);
          r := r + "'";
          index := index + 2;
          continue;
        }
        inSingle := !inSingle;
        index := index + 1;
        continue;
      }
      if c == '"' && !inSingle {
        inDouble := !inDouble;
        r := r + [c];
        index := index + 1;
        continue;
      }
      if c == '?' && !inSingle && !inDouble {
        r := r + "%s";
      } else {
        r := r + [c];
      }
      index := index + 1;
    }
  }

  // ---------- Statement splitting ----------

  function Flush(current: string): seq<string> {
    if Strip(current) == "" then [] else [Strip(current)]
  }

  function SplitFrom(mode: Mode, current: string, s: string): seq<string>
    decreases |s|
  {
    if s == "" then Flush(current)
    else if mode == Plain && s[0] == ';' then Flush(current) + SplitFrom(Plain, "", s[1..])
    else SplitFrom(Step(mode, s[0]), current + [s[0]], s[1..])
  }

  function Split(s: string): seq<string> {
    SplitFrom(Plain, "", s)
  }

  lemma SplitHead(done: seq<string>, mode: Mode, current: string, s: string, i: nat)
    requires i < |s|
    ensures done + SplitFrom(mode, current, s[i..])
         == if mode == Plain && s[i] == ';' then done + Flush(current) + SplitFrom(Plain, "", s[i + 1..])
            else done + SplitFrom(Step(mode, s[i]), current + [s[i]], s[i + 1..])
  {
    assert s[i..][1..] == s[i + 1..];
  }

  method SplitSqlStatements(script: string) returns (statements: seq<string>)
    ensures statements == Split(script)
  {
    statements := [];
    var current := "";
    var inSingle, inDouble, index := false, false, 0;
    while index < |script|
      invariant index <= |script| && !(inSingle && inDouble)
      invariant statements + SplitFrom(ModeOf(inSingle, inDouble), current, script[index..]) == Split(script)
    {
      var c := script[index];
      SplitHead(statements, ModeOf(inSingle, inDouble), current, script, index);
      if c == '\'' && !inDouble {
        current := current + [c];
        if inSingle && index + 1 < |script| && script[index + 1] == '\'' {
          SplitHead(statements, Plain, current, script, index + 1);
          current := current + "'";
          index := index + 2;
          continue;
        }
        inSingle := !inSingle;
        index := index + 1;
        continue;
      }
      if c == '"' && !inSingle {
        inDouble := !inDouble;
        current := current + [c];
        index := index + 1;
        continue;
      }
      if c == ';' && !inSingle && !inDouble {
        var statement := Strip(current);
        if statement != "" {
          statements := statements + [statement];
        }
        current := "";
        index := index + 1;
        continue;
      }
      current := current + [c];
      index := index + 1;
    }
    var tail := Strip(current);
    if tail != "" {
      statements := statements + [tail];
    }
  }

  // ---------- Scanning a concatenation ----------

  lemma {:induction false} ModeAfterAppend(mode: Mode, a: string, b: string)
    ensures ModeAfter(mode, a + b) == ModeAfter(ModeAfter(mode, a), b)
    decreases |a|
  {
    if a == "" {
      assert a + b == b;
    } else {
      assert (a + b)[1..] == a[1..] + b;
      ModeAfterAppend(Step(mode, a[0]), a[1..], b);
    }
  }

  lemma {:induction false} RewriteAppend(mode: Mode, a: string, b: string)
    ensures RewriteFrom(mode, a + b) == RewriteFrom(mode, a) + RewriteFrom(ModeAfter(mode, a), b)
    decreases |a|
  {
    if a == "" {
      assert a + b == b;
    } else {
      assert (a + b)[1..] == a[1..] + b;
      RewriteAppend(Step(mode, a[0]), a[1..], b);
    }
  }

  // ---------- Stripping commutes with rewriting ----------

  lemma {:induction false} LeftStripRewrite(s: string)
    ensures Rewrite(LeftStrip(s)) == LeftStrip(Rewrite(s))
  {
    if s != "" {
      if IsSpace(s[0]) {
        LeftStripRewrite(s[1..]);
        assert Rewrite(s) == [s[0]] + Rewrite(s[1..]);
        assert Rewrite(s)[1..] == Rewrite(s[1..]);
      }
    }
  }

  lemma {:induction false} RightStripRewrite(mode: Mode, s: string)
    ensures RewriteFrom(mode, RightStrip(s)) == RightStrip(RewriteFrom(mode, s))
    decreases |s|
  {
    if s != "" {
      var t, c := s[..|s| - 1], s[|s| - 1];
      assert s == t + [c];
      RewriteAppend(mode, t, [c]);
      var last := RewriteFrom(ModeAfter(mode, t), [c]);
      assert last == if ModeAfter(mode, t) == Plain && c == '?' then "%s" else [c];
      var r := RewriteFrom(mode, s);
      assert r[|r| - 1] == last[|last| - 1];
      if IsSpace(c) {
        assert r[..|r| - 1] == RewriteFrom(mode, t);
        RightStripRewrite(mode, t);
      }
    }
  }

  lemma StripRewrite(s: string)
    ensures Rewrite(Strip(s)) == Strip(Rewrite(s))
  {
    RightStripRewrite(Plain, LeftStrip(s));
    LeftStripRewrite(s);
  }

  // ---------- Splitting commutes with rewriting ----------

  function RewriteAll(statements: seq<string>): seq<string> {
    seq(|statements|, i requires 0 <= i < |statements| => Rewrite(statements[i]))
  }

  lemma FlushRewrite(current: string)
    ensures Flush(Rewrite(current)) == RewriteAll(Flush(current))
  {
    StripRewrite(current);
    assert Strip(current) == "" <==> Rewrite(Strip(current)) == "";
  }

  lemma RewriteAllAppend(a: seq<string>, b: seq<string>)
    ensures RewriteAll(a + b) == RewriteAll(a) + RewriteAll(b)
  {
  }

  lemma {:induction false} SplitRewriteFrom(mode: Mode, current: string, s: string)
    requires ModeAfter(Plain, current) == mode
    ensures SplitFrom(mode, Rewrite(current), RewriteFrom(mode, s)) == RewriteAll(SplitFrom(mode, current, s))
    decreases |s|
  {
    FlushRewrite(current);
    if s != "" {
      var c, rest := s[0], s[1..];
      var out := RewriteFrom(Step(mode, c), rest);
      if mode == Plain && c == ';' {
        SplitRewriteFrom(Plain, "", rest);
        assert RewriteFrom(mode, s)[1..] == out;
        RewriteAllAppend(Flush(current), SplitFrom(Plain, "", rest));
      } else {
        ModeAfterAppend(Plain, current, [c]);
        RewriteAppend(Plain, current, [c]);
        SplitRewriteFrom(Step(mode, c), current + [c], rest);
        assert RewriteFrom(mode, [c]) == Emit(mode, c);
        EmitScans(mode, c);
        SplitOver(mode, Rewrite(current), Emit(mode, c), out);
      }
    }
  }

  lemma EmitScans(mode: Mode, c: char)
    requires !(mode == Plain && c == ';')
    ensures Unbroken(mode, Emit(mode, c)) && ModeAfter(mode, Emit(mode, c)) == Step(mode, c)
  {
    if mode == Plain && c == '?' {
      assert "%s"[1..] == "s" && "s"[1..] == "";
    } else {
      assert [c][1..] == "";
    }
  }

  /** No statement ends inside this text. */
  predicate Unbroken(mode: Mode, s: string)
    decreases |s|
  {
    s == "" || (!(mode == Plain && s[0] == ';') && Unbroken(Step(mode, s[0]), s[1..]))
  }

  lemma {:induction false} SplitOver(mode: Mode, current: string, s: string, rest: string)
    requires Unbroken(mode, s)
    ensures SplitFrom(mode, current, s + rest) == SplitFrom(ModeAfter(mode, s), current + s, rest)
    decreases |s|
  {
    if s == "" {
      assert s + rest == rest && current + s == current;
    } else {
      assert (s + rest)[1..] == s[1..] + rest;
      assert current + [s[0]] + s[1..] == current + s;
      SplitOver(Step(mode, s[0]), current + [s[0]], s[1..], rest);
    }
  }

  /**
   Rewriting a whole script and splitting it gives the same statements as splitting it and rewriting
   each piece, so `executescript` may do the latter.
   */
  lemma SplitRewriteCommute(script: string)
    ensures Split(Rewrite(script)) == RewriteAll(Split(script))
  {
    SplitRewriteFrom(Plain, "", script);
  }

  // ---------- Splitting the joined pieces again ----------

  /** One statement as the splitter produces it. */
  predicate IsStatement(s: string) {
    s != "" && Strip(s) == s && Unbroken(Plain, s)
  }

  /** Only the last statement can leave a quote open. */
  predicate AreStatements(statements: seq<string>) {
    && (forall s <- statements :: IsStatement(s))
    && (forall i :: 0 <= i < |statements| - 1 ==> ModeAfter(Plain, statements[i]) == Plain)
  }

  lemma {:induction false} UnbrokenAppend(mode: Mode, a: string, b: string)
    ensures Unbroken(mode, a + b) <==> Unbroken(mode, a) && Unbroken(ModeAfter(mode, a), b)
    decreases |a|
  {
    if a == "" {
      assert a + b == b;
    } else {
      assert (a + b)[1..] == a[1..] + b;
      UnbrokenAppend(Step(mode, a[0]), a[1..], b);
    }
  }

  lemma {:induction false} LeftStripScans(s: string)
    requires Unbroken(Plain, s)
    ensures Unbroken(Plain, LeftStrip(s)) && ModeAfter(Plain, LeftStrip(s)) == ModeAfter(Plain, s)
    ensures LeftStrip(s) != "" ==> !IsSpace(LeftStrip(s)[0])
  {
    if s != "" && IsSpace(s[0]) {
      LeftStripScans(s[1..]);
    }
  }

  lemma {:induction false} RightStripScans(s: string)
    requires Unbroken(Plain, s)
    ensures Unbroken(Plain, RightStrip(s)) && ModeAfter(Plain, RightStrip(s)) == ModeAfter(Plain, s)
    ensures RightStrip(s) <= s
    ensures RightStrip(s) != "" ==> !IsSpace(RightStrip(s)[|RightStrip(s)| - 1])
    decreases |s|
  {
    if s != "" && IsSpace(s[|s| - 1]) {
      var t := s[..|s| - 1];
      assert s == t + [s[|s| - 1]];
      UnbrokenAppend(Plain, t, [s[|s| - 1]]);
      ModeAfterAppend(Plain, t, [s[|s| - 1]]);
      assert ModeAfter(ModeAfter(Plain, t), [s[|s| - 1]]) == ModeAfter(Plain, t);
      RightStripScans(t);
    }
  }

  lemma FlushStatement(current: string)
    requires Unbroken(Plain, current)
    ensures Flush(current) != [] ==> IsStatement(Strip(current)) && ModeAfter(Plain, Strip(current)) == ModeAfter(Plain, current)
  {
    LeftStripScans(current);
    RightStripScans(LeftStrip(current));
    var s := Strip(current);
    if s != "" {
      assert s[0] == LeftStrip(current)[0];
      assert LeftStrip(s) == s && RightStrip(s) == s;
    }
  }

  lemma {:induction false} SplitGivesStatements(mode: Mode, current: string, s: string)
    requires Unbroken(Plain, current) && ModeAfter(Plain, current) == mode
    ensures AreStatements(SplitFrom(mode, current, s))
    decreases |s|
  {
    FlushStatement(current);
    if s != "" {
      if mode == Plain && s[0] == ';' {
        SplitGivesStatements(Plain, "", s[1..]);
      } else {
        ModeAfterAppend(Plain, current, [s[0]]);
        UnbrokenAppend(Plain, current, [s[0]]);
        assert [s[0]][1..] == "";
        SplitGivesStatements(Step(mode, s[0]), current + [s[0]], s[1..]);
      }
    }
  }

  lemma {:induction false} SplitJoin(statements: seq<string>)
    requires AreStatements(statements)
    ensures Split(Join(statements, ";")) == statements
  {
    if statements != [] {
      var first, rest := statements[0], statements[1..];
      assert IsStatement(first);
      var tail := if |statements| == 1 then "" else ";" + Join(rest, ";");
      assert Join(statements, ";") == first + tail;
      SplitOver(Plain, "", first, tail);
      assert "" + first == first;
      if |statements| > 1 {
        assert tail[1..] == Join(rest, ";");
        SplitJoin(rest);
      } else {
        assert statements == [first];
      }
    }
  }

  /** Joining the pieces of a script with semicolons and splitting again gives the same pieces. */
  lemma ResplitSame(script: string)
    ensures Split(Join(Split(script), ";")) == Split(script)
  {
    SplitGivesStatements(Plain, "", script);
    SplitJoin(Split(script));
  }

  // ---------- What rewriting does to the text ----------

  /** The quoted parts of a text, quotes included. */
  function Quoted(mode: Mode, s: string): string
    decreases |s|
  {
    if s == "" then ""
    else (if mode == Plain && Step(mode, s[0]) == Plain then "" else [s[0]]) + Quoted(Step(mode, s[0]), s[1..])
  }

  function Unquoted(mode: Mode, s: string): string
    decreases |s|
  {
    if s == "" then ""
    else (if mode == Plain && Step(mode, s[0]) == Plain then [s[0]] else "") + Unquoted(Step(mode, s[0]), s[1..])
  }

  /** Plain textual replacement, as `str.replace("?", "%s")`. */
  function ReplaceAll(s: string): string {
    if s == "" then "" else (if s[0] == '?' then "%s" else [s[0]]) + ReplaceAll(s[1..])
  }

  function Count(s: string, c: char): nat {
    if s == "" then 0 else (if s[0] == c then 1 else 0) + Count(s[1..], c)
  }

  lemma ScanHead(mode: Mode, c: char, rest: string)
    ensures Quoted(mode, [c] + rest)
         == (if mode == Plain && Step(mode, c) == Plain then "" else [c]) + Quoted(Step(mode, c), rest)
    ensures Unquoted(mode, [c] + rest)
         == (if mode == Plain && Step(mode, c) == Plain then [c] else "") + Unquoted(Step(mode, c), rest)
  {
    assert ([c] + rest)[1..] == rest;
  }

  lemma ReplaceHead(c: char, rest: string)
    ensures ReplaceAll([c] + rest) == (if c == '?' then "%s" else [c]) + ReplaceAll(rest)
    ensures Count([c] + rest, '?') == (if c == '?' then 1 else 0) + Count(rest, '?')
  {
    assert ([c] + rest)[1..] == rest;
  }

  lemma PlaceholderQuotes(rest: string)
    ensures Quoted(Plain, "%s" + rest) == Quoted(Plain, rest)
    ensures Unquoted(Plain, "%s" + rest) == "%s" + Unquoted(Plain, rest)
  {
    assert "%s" + rest == ['%'] + (['s'] + rest);
    ScanHead(Plain, '%', ['s'] + rest);
    ScanHead(Plain, 's', rest);
    assert "%s" + Unquoted(Plain, rest) == ['%'] + (['s'] + Unquoted(Plain, rest));
  }

  lemma {:induction false} RewriteKeepsQuotes(mode: Mode, s: string)
    ensures Quoted(mode, RewriteFrom(mode, s)) == Quoted(mode, s)
    ensures Unquoted(mode, RewriteFrom(mode, s)) == ReplaceAll(Unquoted(mode, s))
    ensures |RewriteFrom(mode, s)| == |s| + Count(Unquoted(mode, s), '?')
    decreases |s|
  {
    if s != "" {
      var c, next := s[0], Step(mode, s[0]);
      var rest := RewriteFrom(next, s[1..]);
      RewriteKeepsQuotes(next, s[1..]);
      assert RewriteFrom(mode, s) == Emit(mode, c) + rest;
      hide RewriteFrom, Quoted, Unquoted, ReplaceAll, Count;
      assert s == [c] + s[1..];
      ScanHead(mode, c, s[1..]);
      ReplaceHead(c, Unquoted(next, s[1..]));
      if mode == Plain && c == '?' {
        PlaceholderQuotes(rest);
      } else {
        ScanHead(mode, c, rest);
        assert "" + Unquoted(next, s[1..]) == Unquoted(next, s[1..]);
        assert "" + Unquoted(next, rest) == Unquoted(next, rest);
      }
    }
  }

  lemma {:induction false} RewriteTwiceFrom(mode: Mode, s: string)
    ensures RewriteFrom(mode, RewriteFrom(mode, s)) == RewriteFrom(mode, s)
    decreases |s|
  {
    if s != "" {
      var rest := RewriteFrom(Step(mode, s[0]), s[1..]);
      RewriteTwiceFrom(Step(mode, s[0]), s[1..]);
      if mode == Plain && s[0] == '?' {
        assert RewriteFrom(mode, s)[1..] == "s" + rest && RewriteFrom(mode, s)[1..][1..] == rest;
      } else {
        assert RewriteFrom(mode, s)[1..] == rest;
      }
    }
  }
}
