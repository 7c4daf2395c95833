/**
 `rewrite_postgres_sql` of app/db_backend.py: from the SQLite dialect of the call sites to PostgreSQL.

 The regular expressions are spelled out as matchers.  `isWord` stands for `\w`; nothing depends on
 how it classifies characters outside the ones named.
 */
module SqlRewrite {
  import opened Common
  import opened SqlScanner

  /** A letter of a pattern compiled with IGNORECASE; the pattern letter is upper case. */
  predicate SameLetter(c: char, letter: char)
    requires 'A' <= letter <= 'Z'
  {
    || c == letter || c as int == letter as int + 32
    || (letter == 'I' && (c as int == 0x130 || c as int == 0x131))
    || (letter == 'S' && c as int == 0x17F)
    || (letter == 'K' && c as int == 0x212A)
  }

  ghost predicate UpperCase(word: string) {
    forall i :: 0 <= i < |word| ==> 'A' <= word[i] <= 'Z'
  }

  /** The text behind `word` when the text begins with it. */
  function AfterWord(s: string, word: string): (r: Option<string>)
    requires UpperCase(word)
    ensures r.Some? ==> |word| <= |s| && r.value == s[|word|..]
  {
    if word == "" then Some(s)
    else if s == "" || !SameLetter(s[0], word[0]) then None
    else AfterWord(s[1..], word[1..])
  }

  /** The text behind one or more white space characters. */
  function AfterSpaces(s: string): Option<string> {
    if s != "" && IsSpace(s[0]) then Some(LeftStrip(s)) else None
  }

  /** Words with white space between them and after the last one. */
  function AfterPhrase(s: string, words: seq<string>): Option<string>
    requires forall w <- words :: UpperCase(w)
    decreases |words|
  {
    if words == [] then Some(s)
    else
      match AfterWord(s, words[0])
      case None => None
      case Some(t) =>
        match AfterSpaces(t)
        case None => None
        case Some(u) => AfterPhrase(u, words[1..])
  }

  /** `^\s*BEGIN\s+IMMEDIATE\s*;?\s*$` */
  predicate IsBeginImmediate(s: string) {
    match AfterPhrase(LeftStrip(s), ["BEGIN"])
    case None => false
    case Some(t) =>
      match AfterWord(t, "IMMEDIATE")
      case None => false
      case Some(u) =>
        var v := LeftStrip(u);
        LeftStrip(if v != "" && v[0] == ';' then v[1..] else v) == ""
  }

  const INSERT_OR_IGNORE: seq<string> := ["INSERT", "OR", "IGNORE", "INTO"]

  /** The text behind a match of `^\s*INSERT\s+OR\s+IGNORE\s+INTO\s+`. */
  function AfterInsertOrIgnore(s: string): Option<string> {
    AfterPhrase(LeftStrip(s), INSERT_OR_IGNORE)
  }

  /** `\bON\s+CONFLICT\b` matches at position `i`. */
  predicate OnConflictAt(s: string, i: nat, isWord: char -> bool)
    requires i <= |s|
  {
    && (i == 0 || !isWord(s[i - 1]))
    && match AfterPhrase(s[i..], ["ON"])
       case None => false
       case Some(t) =>
         match AfterWord(t, "CONFLICT")
         case None => false
         case Some(u) => u == "" || !isWord(u[0])
  }

  predicate HasOnConflict(s: string, isWord: char -> bool) {
    exists i :: 0 <= i <= |s| && OnConflictAt(s, i, isWord)
  }

  const DO_NOTHING: string := " ON CONFLICT DO NOTHING"

  function AppendOnConflictDoNothing(sql: string, isWord: char -> bool): string {
    if HasOnConflict(sql, isWord) then sql
    else
      var stripped := RightStrip(sql);
      if stripped != "" && stripped[|stripped| - 1] == ';' then
        RightStrip(stripped[..|stripped| - 1]) + DO_NOTHING + ";"
      else stripped + DO_NOTHING
  }

  function RewritePostgresSql(sql: string, isWord: char -> bool): string {
    if sql == "" then sql
    else if IsBeginImmediate(sql) then "BEGIN"
    else
      match AfterInsertOrIgnore(Rewrite(sql))
      case None => Rewrite(sql)
      case Some(rest) => AppendOnConflictDoNothing("INSERT INTO " + rest, isWord)
  }

  // ---------- Text without placeholders ----------

  /** No unquoted question mark. */
  predicate Clean(mode: Mode, s: string)
    decreases |s|
  {
    s == "" || (!(mode == Plain && s[0] == '?') && Clean(Step(mode, s[0]), s[1..]))
  }

  lemma {:induction false} RewriteIsClean(mode: Mode, s: string)
    ensures Clean(mode, RewriteFrom(mode, s))
    decreases |s|
  {
    if s != "" {
      var rest := RewriteFrom(Step(mode, s[0]), s[1..]);
      RewriteIsClean(Step(mode, s[0]), s[1..]);
      if mode == Plain && s[0] == '?' {
        assert RewriteFrom(mode, s)[1..] == "s" + rest && RewriteFrom(mode, s)[1..][1..] == rest;
      } else {
        assert RewriteFrom(mode, s)[1..] == rest;
      }
    }
  }

  /** Clean text is exactly what rewriting leaves alone. */
  lemma {:induction false} CleanIffFixed(mode: Mode, s: string)
    ensures Clean(mode, s) <==> RewriteFrom(mode, s) == s
    ensures !Clean(mode, s) ==> '%' in RewriteFrom(mode, s)
    decreases |s|
  {
    if s != "" {
      var rest := RewriteFrom(Step(mode, s[0]), s[1..]);
      CleanIffFixed(Step(mode, s[0]), s[1..]);
      if mode == Plain && s[0] == '?' {
        assert RewriteFrom(mode, s)[0] == '%';
      } else {
        assert RewriteFrom(mode, s)[1..] == rest;
        assert s == [s[0]] + s[1..];
      }
    }
  }

  lemma {:induction false} CleanAppend(mode: Mode, a: string, b: string)
    ensures Clean(mode, a + b) <==> Clean(mode, a) && Clean(ModeAfter(mode, a), b)
    decreases |a|
  {
    if a == "" {
      assert a + b == b;
    } else {
      assert (a + b)[1..] == a[1..] + b;
      CleanAppend(Step(mode, a[0]), a[1..], b);
    }
  }

  /** Characters that change no mode and are no placeholder. */
  ghost predicate Harmless(s: string) {
    forall i :: 0 <= i < |s| ==> s[i] != '\'' && s[i] != '"' && s[i] != '?'
  }

  lemma {:induction false} HarmlessScans(mode: Mode, s: string)
    requires Harmless(s)
    ensures Clean(mode, s) && ModeAfter(mode, s) == mode
    decreases |s|
  {
    if s != "" {
      assert Step(mode, s[0]) == mode;
      HarmlessScans(mode, s[1..]);
    }
  }

  // ---------- What the matchers consume ----------

  /** Letters of a keyword and white space. */
  ghost predicate Consumed(s: string, rest: string) {
    exists p :: s == p + rest && Harmless(p) && '%' !in p
  }

  lemma ConsumedChain(s: string, t: string, u: string)
    requires Consumed(s, t) && Consumed(t, u)
    ensures Consumed(s, u)
  {
    var p :| s == p + t && Harmless(p) && '%' !in p;
    var q :| t == q + u && Harmless(q) && '%' !in q;
    assert s == (p + q) + u;
  }

  lemma ConsumedNothing(s: string)
    ensures Consumed(s, s)
  {
    assert s == "" + s;
  }

  lemma ConsumedOne(s: string)
    requires s != "" && s[0] !in "'\"?%"
    ensures Consumed(s, s[1..])
  {
    assert s == [s[0]] + s[1..];
    assert Harmless([s[0]]);
  }

  lemma {:induction false} LeftStripConsumes(s: string)
    ensures Consumed(s, LeftStrip(s))
    ensures LeftStrip(s) != "" ==> !IsSpace(LeftStrip(s)[0])
  {
    if s != "" && IsSpace(s[0]) {
      LeftStripConsumes(s[1..]);
      ConsumedOne(s);
      ConsumedChain(s, s[1..], LeftStrip(s));
    } else {
      ConsumedNothing(s);
    }
  }

  lemma {:induction false} AfterWordConsumes(s: string, word: string)
    requires UpperCase(word) && AfterWord(s, word).Some?
    ensures Consumed(s, AfterWord(s, word).value)
    decreases |word|
  {
    if word == "" {
      ConsumedNothing(s);
    } else {
      ConsumedOne(s);
      AfterWordConsumes(s[1..], word[1..]);
      ConsumedChain(s, s[1..], AfterWord(s, word).value);
    }
  }

  lemma {:induction false} AfterPhraseConsumes(s: string, words: seq<string>)
    requires forall w <- words :: UpperCase(w)
    requires AfterPhrase(s, words).Some?
    ensures Consumed(s, AfterPhrase(s, words).value)
    decreases |words|
  {
    if words == [] {
      ConsumedNothing(s);
    } else {
      var t := AfterWord(s, words[0]).value;
      AfterWordConsumes(s, words[0]);
      LeftStripConsumes(t);
      ConsumedChain(s, t, LeftStrip(t));
      AfterPhraseConsumes(LeftStrip(t), words[1..]);
      ConsumedChain(s, LeftStrip(t), AfterPhrase(s, words).value);
    }
  }

  lemma ConsumedIsClean(s: string, rest: string)
    requires Consumed(s, rest) && Clean(Plain, s)
    ensures Clean(Plain, rest)
  {
    var p :| s == p + rest && Harmless(p) && '%' !in p;
    HarmlessScans(Plain, p);
    CleanAppend(Plain, p, rest);
  }

  // ---------- Idempotence ----------

  lemma ConsumedAll(s: string)
    requires Consumed(s, "")
    ensures '%' !in s
  {
    var p :| s == p + "" && Harmless(p) && '%' !in p;
    assert s == p;
  }

  /** White space and at most one semicolon. */
  lemma TrailerConsumes(u: string)
    requires var v := LeftStrip(u); LeftStrip(if v != "" && v[0] == ';' then v[1..] else v) == ""
    ensures Consumed(u, "")
  {
    var v := LeftStrip(u);
    LeftStripConsumes(u);
    if v != "" && v[0] == ';' {
      ConsumedOne(v);
      LeftStripConsumes(v[1..]);
      ConsumedChain(v, v[1..], "");
    } else {
      LeftStripConsumes(v);
    }
    ConsumedChain(u, v, "");
  }

  lemma BeginImmediateHasNoPercent(s: string)
    requires IsBeginImmediate(s)
    ensures '%' !in s
  {
    hide AfterPhrase, AfterWord, LeftStrip, Consumed;
    LeftStripConsumes(s);
    AfterPhraseConsumes(LeftStrip(s), ["BEGIN"]);
    var t := AfterPhrase(LeftStrip(s), ["BEGIN"]).value;
    ConsumedChain(s, LeftStrip(s), t);
    AfterWordConsumes(t, "IMMEDIATE");
    var u := AfterWord(t, "IMMEDIATE").value;
    ConsumedChain(s, t, u);
    TrailerConsumes(u);
    ConsumedChain(s, u, "");
    ConsumedAll(s);
  }

  lemma {:induction false} RightStripIsPrefix(s: string)
    ensures RightStrip(s) <= s
    decreases |s|
  {
    if s != "" && IsSpace(s[|s| - 1]) {
      RightStripIsPrefix(s[..|s| - 1]);
    }
  }

  lemma CleanPrefix(s: string, p: string)
    requires Clean(Plain, s) && p <= s
    ensures Clean(Plain, p)
  {
    assert s == p + s[|p|..];
    CleanAppend(Plain, p, s[|p|..]);
  }

  /** Where the clause goes: `sql` without trailing space and semicolon, and what follows it. */
  function Body(sql: string): string {
    var stripped := RightStrip(sql);
    if stripped != "" && stripped[|stripped| - 1] == ';' then RightStrip(stripped[..|stripped| - 1]) else stripped
  }

  function Tail(sql: string): string {
    var stripped := RightStrip(sql);
    if stripped != "" && stripped[|stripped| - 1] == ';' then ";" else ""
  }

  lemma AppendShape(sql: string, isWord: char -> bool)
    ensures AppendOnConflictDoNothing(sql, isWord)
         == if HasOnConflict(sql, isWord) then sql else Body(sql) + DO_NOTHING + Tail(sql)
    ensures Body(sql) <= sql
  {
    var stripped := RightStrip(sql);
    RightStripIsPrefix(sql);
    if stripped != "" && stripped[|stripped| - 1] == ';' {
      RightStripIsPrefix(stripped[..|stripped| - 1]);
    } else {
      assert stripped + DO_NOTHING + "" == stripped + DO_NOTHING;
    }
  }

  lemma BodyKeeps(sql: string, p: string)
    requires p <= sql && p != "" && !IsSpace(p[|p| - 1]) && p[|p| - 1] != ';'
    ensures p <= Body(sql)
  {
    RightStripKeeps(sql, p);
    var stripped := RightStrip(sql);
    if stripped[|stripped| - 1] == ';' {
      RightStripKeeps(stripped[..|stripped| - 1], p);
    }
  }

  /** The appended clause leaves the beginning of the statement alone and brings no placeholder. */
  lemma AppendKeepsClean(sql: string, isWord: char -> bool)
    requires Clean(Plain, sql) && "INSERT INTO" <= sql
    ensures Clean(Plain, AppendOnConflictDoNothing(sql, isWord))
    ensures "INSERT INTO" <= AppendOnConflictDoNothing(sql, isWord)
  {
    hide AppendOnConflictDoNothing, HasOnConflict, Body;
    AppendShape(sql, isWord);
    BodyKeeps(sql, "INSERT INTO");
    CleanPrefix(sql, Body(sql));
    CleanWithClause(Body(sql), Tail(sql));
  }

  lemma HarmlessAppend(mode: Mode, body: string, more: string)
    requires Clean(mode, body) && Harmless(more)
    ensures Clean(mode, body + more)
  {
    HarmlessScans(ModeAfter(mode, body), more);
    CleanAppend(mode, body, more);
  }

  lemma CleanWithClause(body: string, tail: string)
    requires Clean(Plain, body) && tail in ["", ";"]
    ensures Clean(Plain, body + DO_NOTHING + tail)
  {
    HarmlessAppend(Plain, body, DO_NOTHING);
    HarmlessAppend(Plain, body + DO_NOTHING, tail);
  }

  lemma {:induction false} RightStripKeeps(s: string, p: string)
    requires p <= s && p != "" && !IsSpace(p[|p| - 1])
    ensures p <= RightStrip(s)
    decreases |s|
  {
    if IsSpace(s[|s| - 1]) {
      RightStripKeeps(s[..|s| - 1], p);
    }
  }

  lemma {:induction false} WordMatches(word: string, rest: string)
    requires UpperCase(word)
    ensures AfterWord(word + rest, word) == Some(rest)
    decreases |word|
  {
    if word == "" {
      assert word + rest == rest;
    } else {
      assert (word + rest)[1..] == word[1..] + rest;
      WordMatches(word[1..], rest);
    }
  }

  lemma SpaceMatches(rest: string)
    requires rest != "" && !IsSpace(rest[0])
    ensures AfterSpaces(" " + rest) == Some(rest)
  {
    var s := " " + rest;
    assert s[0] == ' ' && IsSpace(s[0]);
    assert s[1..] == rest;
    assert LeftStrip(s) == LeftStrip(rest) == rest;
  }

  /** A statement that begins with INSERT INTO matches neither pattern. */
  lemma InsertIntoUnmatched(s: string)
    requires "INSERT INTO" <= s
    ensures !IsBeginImmediate(s) && AfterInsertOrIgnore(s) == None
  {
    assert LeftStrip(s) == s && s[0] == 'I';
    var into := "INTO" + s[11..];
    assert s == "INSERT" + (" " + into);
    WordMatches("INSERT", " " + into);
    SpaceMatches(into);
    assert into[0] == 'I' && AfterWord(into, "OR") == None;
    assert INSERT_OR_IGNORE[1..][0] == "OR";
    assert AfterPhrase(into, INSERT_OR_IGNORE[1..]) == None;
  }

  lemma BeginIsClean()
    ensures Rewrite("BEGIN") == "BEGIN"
  {
    hide Clean, RewriteFrom, ModeAfter;
    HarmlessScans(Plain, "BEGIN");
    CleanIffFixed(Plain, "BEGIN");
  }

  lemma BeginUnmatched()
    ensures !IsBeginImmediate("BEGIN") && AfterInsertOrIgnore("BEGIN") == None && Rewrite("BEGIN") == "BEGIN"
  {
    BeginIsClean();
    hide Rewrite;
    var s := "BEGIN";
    assert LeftStrip(s) == s;
    assert AfterWord(s, "INSERT") == None;
    assert s == "BEGIN" + "";
    WordMatches("BEGIN", "");
  }

  lemma InsertIntoClean()
    ensures Clean(Plain, "INSERT INTO ") && ModeAfter(Plain, "INSERT INTO ") == Plain
  {
    hide Clean, ModeAfter;
    HarmlessScans(Plain, "INSERT INTO ");
  }

  lemma InsertStaysClean(text: string)
    requires Clean(Plain, text) && AfterInsertOrIgnore(text).Some?
    ensures Clean(Plain, "INSERT INTO " + AfterInsertOrIgnore(text).value)
  {
    hide AfterPhrase, LeftStrip, Clean, ModeAfter, Consumed;
    var rest := AfterInsertOrIgnore(text).value;
    LeftStripConsumes(text);
    AfterPhraseConsumes(LeftStrip(text), INSERT_OR_IGNORE);
    ConsumedChain(text, LeftStrip(text), rest);
    ConsumedIsClean(text, rest);
    InsertIntoClean();
    CleanAppend(Plain, "INSERT INTO ", rest);
  }

  /** Rewriting an already rewritten query changes nothing. */
  lemma RewritePostgresTwice(sql: string, isWord: char -> bool)
    ensures RewritePostgresSql(RewritePostgresSql(sql, isWord), isWord) == RewritePostgresSql(sql, isWord)
  {
    hide IsBeginImmediate, AfterInsertOrIgnore, AppendOnConflictDoNothing;
    if sql == "" {
    } else if IsBeginImmediate(sql) {
      BeginUnmatched();
    } else {
      var text := Rewrite(sql);
      RewriteIsClean(Plain, sql);
      CleanIffFixed(Plain, sql);
      CleanIffFixed(Plain, text);
      match AfterInsertOrIgnore(text)
      case None =>
        if IsBeginImmediate(text) {
          BeginImmediateHasNoPercent(text);
        }
      case Some(rest) =>
        InsertStaysClean(text);
        var insert := "INSERT INTO " + rest;
        assert insert[..11] == "INSERT INTO";
        AppendKeepsClean(insert, isWord);
        var once := AppendOnConflictDoNothing(insert, isWord);
        CleanIffFixed(Plain, once);
        InsertIntoUnmatched(once);
    }
  }

  // ---------- The clause is there ----------

  lemma ClauseMatches(a: string, b: string, isWord: char -> bool)
    requires !isWord(' ')
    ensures HasOnConflict(a + DO_NOTHING + b, isWord)
  {
    var s := a + DO_NOTHING + b;
    var after := " DO NOTHING" + b;
    var clause := "CONFLICT" + after;
    assert s[|a| + 1..] == "ON" + (" " + clause);
    WordMatches("ON", " " + clause);
    SpaceMatches(clause);
    assert ["ON"][1..] == [];
    assert AfterPhrase(s[|a| + 1..], ["ON"]) == Some(clause);
    WordMatches("CONFLICT", after);
    assert OnConflictAt(s, |a| + 1, isWord);
  }

  /** An INSERT OR IGNORE always comes out with a conflict clause. */
  lemma InsertOrIgnoreGetsClause(sql: string, isWord: char -> bool)
    requires sql != "" && !IsBeginImmediate(sql) && AfterInsertOrIgnore(Rewrite(sql)).Some?
    requires !isWord(' ')
    ensures HasOnConflict(RewritePostgresSql(sql, isWord), isWord)
  {
    hide IsBeginImmediate, AfterInsertOrIgnore, AppendOnConflictDoNothing, HasOnConflict;
    var insert := "INSERT INTO " + AfterInsertOrIgnore(Rewrite(sql)).value;
    AppendShape(insert, isWord);
    ClauseMatches(Body(insert), Tail(insert), isWord);
  }
}
