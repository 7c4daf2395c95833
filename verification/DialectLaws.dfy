/**
 What the patterns of `rewrite_postgres_sql` match, read off the regular expressions of
 app/db_backend.py, and what a query becomes accordingly.
 */
module DialectLaws {
  import opened Common
  import opened SqlScanner
  import opened SqlRewrite
  import opened SqlLaws

  /** The text spells the upper-case word in any mixture of cases. */
  ghost predicate Spells(w: string, word: string)
    requires UpperCase(word)
  {
    |w| == |word| && forall i :: 0 <= i < |w| ==> SameLetter(w[i], word[i])
  }

  /** One or more white space characters with none behind them. */
  ghost predicate Gap(b: string, rest: string) {
    b != "" && AllSpace(b) && (rest == "" || !IsSpace(rest[0]))
  }

  lemma {:induction false} WordExact(s: string, word: string, rest: string)
    requires UpperCase(word)
    ensures AfterWord(s, word) == Some(rest) <==> exists w :: Spells(w, word) && s == w + rest
    decreases |word|
  {
    if AfterWord(s, word) == Some(rest) {
      WordFound(s, word);
      assert s == s[..|word|] + rest;
    }
    forall w | Spells(w, word) && s == w + rest
      ensures AfterWord(s, word) == Some(rest)
    {
      WordSpelled(w, word, rest);
    }
  }

  lemma {:induction false} WordFound(s: string, word: string)
    requires UpperCase(word) && AfterWord(s, word).Some?
    ensures |word| <= |s| && Spells(s[..|word|], word)
    decreases |word|
  {
    if word != "" {
      WordFound(s[1..], word[1..]);
      assert s[..|word|] == [s[0]] + s[1..][..|word| - 1];
    }
  }

  lemma {:induction false} WordSpelled(w: string, word: string, rest: string)
    requires UpperCase(word) && Spells(w, word)
    ensures AfterWord(w + rest, word) == Some(rest)
    decreases |word|
  {
    if word == "" {
      assert w + rest == rest;
    } else {
      assert (w + rest)[1..] == w[1..] + rest;
      WordSpelled(w[1..], word[1..], rest);
    }
  }

  /** A run of white space is taken whole. */
  lemma {:induction false} StripOver(b: string, rest: string)
    requires AllSpace(b) && (rest == "" || !IsSpace(rest[0]))
    ensures LeftStrip(b + rest) == rest
  {
    if b == "" {
      assert b + rest == rest;
    } else {
      assert (b + rest)[1..] == b[1..] + rest;
      StripOver(b[1..], rest);
    }
  }

  lemma GapExact(s: string, rest: string)
    ensures AfterSpaces(s) == Some(rest) <==> exists b :: Gap(b, rest) && s == b + rest
  {
    if AfterSpaces(s) == Some(rest) {
      var b := LeftStripExact(s);
      assert b == "" ==> b + rest == rest;
      assert Gap(b, rest);
    }
    forall b | Gap(b, rest) && s == b + rest
      ensures AfterSpaces(s) == Some(rest)
    {
      assert s[0] == b[0];
      StripOver(b, rest);
    }
  }

  /** `s` is the words, each with a gap behind it, and then `rest`. */
  ghost predicate SpellsPhrase(s: string, words: seq<string>, rest: string)
    requires forall w <- words :: UpperCase(w)
    decreases |words|
  {
    if words == [] then s == rest
    else exists w, b, t :: Spells(w, words[0]) && Gap(b, t) && s == w + (b + t) && SpellsPhrase(t, words[1..], rest)
  }

  lemma {:induction false} PhraseExact(s: string, words: seq<string>, rest: string)
    requires forall w <- words :: UpperCase(w)
    ensures AfterPhrase(s, words) == Some(rest) <==> SpellsPhrase(s, words, rest)
    decreases |words|
  {
    if words != [] {
      if AfterPhrase(s, words) == Some(rest) {
        var t := AfterWord(s, words[0]).value;
        var u := AfterSpaces(t).value;
        WordExact(s, words[0], t);
        GapExact(t, u);
        PhraseExact(u, words[1..], rest);
        var w :| Spells(w, words[0]) && s == w + t;
        var b :| Gap(b, u) && t == b + u;
        assert Spells(w, words[0]) && Gap(b, u) && s == w + (b + u) && SpellsPhrase(u, words[1..], rest);
      }
      if SpellsPhrase(s, words, rest) {
        var w, b, t :| Spells(w, words[0]) && Gap(b, t) && s == w + (b + t) && SpellsPhrase(t, words[1..], rest);
        WordExact(s, words[0], b + t);
        GapExact(b + t, t);
        PhraseExact(t, words[1..], rest);
      }
    }
  }

  // ---------- The three patterns ----------

  /** `^\s*INSERT\s+OR\s+IGNORE\s+INTO\s+` matches, and `rest` is what follows. */
  ghost predicate SpellsInsertOrIgnore(s: string, rest: string) {
    exists a, t :: AllSpace(a) && s == a + t && SpellsPhrase(t, ["INSERT", "OR", "IGNORE", "INTO"], rest)
  }

  lemma FirstLetterNoSpace(t: string, word: string, rest: string)
    requires UpperCase(word) && word != "" && exists w :: Spells(w, word) && t == w + rest
    ensures t != "" && !IsSpace(t[0])
  {
    var w :| Spells(w, word) && t == w + rest;
    assert t[0] == w[0] && SameLetter(w[0], word[0]);
  }

  lemma PhraseNoSpace(t: string, words: seq<string>, rest: string)
    requires forall w <- words :: UpperCase(w)
    requires words != [] && words[0] != "" && SpellsPhrase(t, words, rest)
    ensures t != "" && !IsSpace(t[0])
  {
    var w, b, u :| Spells(w, words[0]) && Gap(b, u) && t == w + (b + u) && SpellsPhrase(u, words[1..], rest);
    FirstLetterNoSpace(t, words[0], b + u);
  }

  lemma InsertOrIgnoreExact(s: string, rest: string)
    ensures AfterInsertOrIgnore(s) == Some(rest) <==> SpellsInsertOrIgnore(s, rest)
  {
    hide SpellsPhrase, AfterPhrase;
    var words := ["INSERT", "OR", "IGNORE", "INTO"];
    assert words == INSERT_OR_IGNORE;
    if AfterInsertOrIgnore(s) == Some(rest) {
      PhraseExact(LeftStrip(s), words, rest);
      var a := LeftStripExact(s);
      assert AllSpace(a) && s == a + LeftStrip(s);
    }
    forall a, t | AllSpace(a) && s == a + t && SpellsPhrase(t, words, rest)
      ensures AfterInsertOrIgnore(s) == Some(rest)
    {
      PhraseNoSpace(t, words, rest);
      StripOver(a, t);
      PhraseExact(t, words, rest);
    }
  }

  /** White space, at most one semicolon, white space. */
  ghost predicate Trailer(u: string) {
    exists b, d, c :: AllSpace(b) && AllSpace(c) && d in ["", ";"] && u == b + d + c
  }

  lemma {:induction false} StripAll(s: string)
    ensures LeftStrip(s) == "" <==> AllSpace(s)
  {
    if s != "" && IsSpace(s[0]) {
      StripAll(s[1..]);
      assert AllSpace(s[1..]) ==> AllSpace(s) by {
        assert forall i :: 1 <= i < |s| ==> s[i] == s[1..][i - 1];
      }
    }
  }

  function AfterSemicolon(v: string): string {
    if v != "" && v[0] == ';' then v[1..] else v
  }

  lemma TrailerSpelled(b: string, d: string, c: string)
    requires AllSpace(b) && AllSpace(c) && d in ["", ";"]
    ensures AllSpace(AfterSemicolon(LeftStrip(b + d + c)))
  {
    if d == ";" {
      assert b + d + c == b + (";" + c) && (";" + c)[0] == ';' && !IsSpace(';');
      StripOver(b, ";" + c);
      assert (";" + c)[1..] == c;
    } else {
      assert b + d + c == b + c;
      StripAll(b + c);
    }
  }

  lemma TrailerExact(u: string)
    ensures LeftStrip(AfterSemicolon(LeftStrip(u))) == "" <==> Trailer(u)
  {
    hide IsSpace, LeftStrip, AllSpace;
    var v := LeftStrip(u);
    StripAll(AfterSemicolon(v));
    var b := LeftStripExact(u);
    if AllSpace(AfterSemicolon(v)) {
      var d := if v != "" && v[0] == ';' then ";" else "";
      assert u == b + d + AfterSemicolon(v);
    }
    forall b, d, c | AllSpace(b) && AllSpace(c) && d in ["", ";"] && u == b + d + c
      ensures AllSpace(AfterSemicolon(v))
    {
      TrailerSpelled(b, d, c);
    }
  }

  /** `^\s*BEGIN\s+IMMEDIATE\s*;?\s*$` matches. */
  ghost predicate SpellsBeginImmediate(s: string) {
    exists a, t, w, u ::
      AllSpace(a) && s == a + t && Spells(w, "IMMEDIATE") && SpellsPhrase(t, ["BEGIN"], w + u) && Trailer(u)
  }

  lemma BeginImmediateExact(s: string)
    ensures IsBeginImmediate(s) <==> SpellsBeginImmediate(s)
  {
    hide SpellsPhrase, AfterPhrase, Trailer, AfterWord, LeftStrip;
    if IsBeginImmediate(s) {
      var t := AfterPhrase(LeftStrip(s), ["BEGIN"]).value;
      var u := AfterWord(t, "IMMEDIATE").value;
      PhraseExact(LeftStrip(s), ["BEGIN"], t);
      WordExact(t, "IMMEDIATE", u);
      TrailerExact(u);
      var w :| Spells(w, "IMMEDIATE") && t == w + u;
      var a := LeftStripExact(s);
      assert AllSpace(a) && s == a + LeftStrip(s);
    }
    forall a, t, w, u |
      AllSpace(a) && s == a + t && Spells(w, "IMMEDIATE") && SpellsPhrase(t, ["BEGIN"], w + u) && Trailer(u)
      ensures IsBeginImmediate(s)
    {
      PhraseNoSpace(t, ["BEGIN"], w + u);
      StripOver(a, t);
      PhraseExact(t, ["BEGIN"], w + u);
      WordExact(w + u, "IMMEDIATE", u);
      TrailerExact(u);
    }
  }

  /** The pattern without the condition on the character before it. */
  ghost predicate ClauseAt(t: string, isWord: char -> bool) {
    exists w, u :: Spells(w, "CONFLICT") && SpellsPhrase(t, ["ON"], w + u) && (u == "" || !isWord(u[0]))
  }

  /** `\bON\s+CONFLICT\b` matches somewhere. */
  ghost predicate SpellsOnConflict(s: string, isWord: char -> bool) {
    exists a, t :: s == a + t && (a == "" || !isWord(a[|a| - 1])) && ClauseAt(t, isWord)
  }

  lemma ClauseAtExact(s: string, i: nat, isWord: char -> bool)
    requires i <= |s|
    ensures OnConflictAt(s, i, isWord) <==> (i == 0 || !isWord(s[i - 1])) && ClauseAt(s[i..], isWord)
  {
    hide SpellsPhrase, AfterPhrase, AfterWord, Spells;
    var t := s[i..];
    if AfterPhrase(t, ["ON"]).Some? {
      var r := AfterPhrase(t, ["ON"]).value;
      PhraseExact(t, ["ON"], r);
      if AfterWord(r, "CONFLICT").Some? {
        WordExact(r, "CONFLICT", AfterWord(r, "CONFLICT").value);
      }
    }
    forall w, u | Spells(w, "CONFLICT") && SpellsPhrase(t, ["ON"], w + u)
      ensures AfterPhrase(t, ["ON"]) == Some(w + u) && AfterWord(w + u, "CONFLICT") == Some(u)
    {
      PhraseExact(t, ["ON"], w + u);
      WordExact(w + u, "CONFLICT", u);
    }
  }

  lemma OnConflictExact(s: string, isWord: char -> bool)
    ensures HasOnConflict(s, isWord) <==> SpellsOnConflict(s, isWord)
  {
    hide OnConflictAt, ClauseAt;
    forall i | 0 <= i <= |s|
      ensures OnConflictAt(s, i, isWord) <==> (i == 0 || !isWord(s[i - 1])) && ClauseAt(s[i..], isWord)
    {
      ClauseAtExact(s, i, isWord);
    }
    if HasOnConflict(s, isWord) {
      var i :| 0 <= i <= |s| && OnConflictAt(s, i, isWord);
      assert s == s[..i] + s[i..];
    }
    forall a, t | s == a + t && (a == "" || !isWord(a[|a| - 1])) && ClauseAt(t, isWord)
      ensures HasOnConflict(s, isWord)
    {
      assert s[|a|..] == t && OnConflictAt(s, |a|, isWord);
    }
  }

  // ---------- The rewritten query ----------

  /** `out` is `sql` with the clause before its final semicolon, white space around that removed. */
  ghost predicate ClauseAppended(sql: string, out: string) {
    exists body, b, d, c ::
      && sql == body + b + d + c && AllSpace(b) && AllSpace(c) && d in ["", ";"]
      && (body == "" || !IsSpace(body[|body| - 1])) && (d == "" ==> b == "" && (body == "" || body[|body| - 1] != ';'))
      && out == body + " ON CONFLICT DO NOTHING" + d
  }

  lemma ClauseAtEnd(sql: string, body: string, c: string)
    requires sql == body + c && AllSpace(c)
    requires body == "" || (!IsSpace(body[|body| - 1]) && body[|body| - 1] != ';')
    ensures ClauseAppended(sql, body + " ON CONFLICT DO NOTHING")
  {
    assert sql == body + "" + "" + c && AllSpace("");
    assert body + " ON CONFLICT DO NOTHING" == body + " ON CONFLICT DO NOTHING" + "";
  }

  lemma ClauseBeforeSemicolon(sql: string, body: string, b: string, c: string)
    requires sql == body + b + ";" + c && AllSpace(b) && AllSpace(c)
    requires body == "" || !IsSpace(body[|body| - 1])
    ensures ClauseAppended(sql, body + " ON CONFLICT DO NOTHING" + ";")
  {
  }

  lemma AppendExact(sql: string, isWord: char -> bool)
    requires !SpellsOnConflict(sql, isWord)
    ensures ClauseAppended(sql, AppendOnConflictDoNothing(sql, isWord))
  {
    hide SpellsOnConflict, HasOnConflict, ClauseAppended, AllSpace, RightStrip;
    OnConflictExact(sql, isWord);
    var stripped := RightStrip(sql);
    var c := RightStripExact(sql);
    if stripped != "" && stripped[|stripped| - 1] == ';' {
      var head := stripped[..|stripped| - 1];
      var b := RightStripExact(head);
      assert stripped == head + ";";
      ClauseBeforeSemicolon(sql, RightStrip(head), b, c);
    } else {
      ClauseAtEnd(sql, stripped, c);
    }
  }

  /**
   What becomes of a query: BEGIN IMMEDIATE loses its mode; an INSERT OR IGNORE becomes an INSERT with
   a conflict clause, unless it has one; every other query only has its placeholders replaced.
   */
  lemma RewriteExact(sql: string, isWord: char -> bool)
    requires sql != ""
    ensures var out, text := RewritePostgresSql(sql, isWord), Rewrite(sql);
            && (SpellsBeginImmediate(sql) ==> out == "BEGIN")
            && (!SpellsBeginImmediate(sql) && (forall rest :: !SpellsInsertOrIgnore(text, rest)) ==> out == text)
            && (forall rest :: !SpellsBeginImmediate(sql) && SpellsInsertOrIgnore(text, rest) ==>
                  var insert := "INSERT INTO " + rest;
                  if SpellsOnConflict(insert, isWord) then out == insert else ClauseAppended(insert, out))
  {
    hide SpellsBeginImmediate, SpellsInsertOrIgnore, SpellsOnConflict, ClauseAppended, IsBeginImmediate,
      AfterInsertOrIgnore, HasOnConflict;
    var text := Rewrite(sql);
    BeginImmediateExact(sql);
    forall rest
      ensures AfterInsertOrIgnore(text) == Some(rest) <==> SpellsInsertOrIgnore(text, rest)
    {
      InsertOrIgnoreExact(text, rest);
    }
    if AfterInsertOrIgnore(text).Some? {
      var rest := AfterInsertOrIgnore(text).value;
      assert SpellsInsertOrIgnore(text, rest);
      var insert := "INSERT INTO " + rest;
      OnConflictExact(insert, isWord);
      if !SpellsOnConflict(insert, isWord) {
        AppendExact(insert, isWord);
      }
    }
  }
}
