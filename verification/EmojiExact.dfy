/**
 Exactly which texts survive the emoji codec.

 Text that spells a token is disturbed by decoding.  Whether the whole text can come back all the same is
 not obvious, since one match may shorten it and another lengthen it: a match that takes the underscores of a
 following token leaves that token undecoded.  It never does come back, unless the match decodes to itself.
 */
module EmojiExact {
  import opened Common
  import opened EmojiCodec

  /** What becomes of a text on its way through the database. */
  function Stored(s: Text): Text {
    Substitute(Encode(s))
  }

  lemma StoredIsDecoded(s: Text)
    ensures Stored(s) == Decode(Encode(s))
  {
    if !Contains(Encode(s), MARKER) {
      SubstituteUnmarked(Encode(s));
    }
  }

  function SpelledValue(s: Text, len: nat): nat
    requires 19 <= len <= |s| && forall i :: 13 <= i < len - 2 ==> IsHex(s[i])
  {
    var digits := s[13..len - 2];
    assert forall c <- digits :: IsHex(c);
    HexValue(digits)
  }

  /**
   Reading from the left, every match that begins at an original character lies within original text and
   names no code point, so that the decoder leaves it alone.
   */
  predicate Undisturbed(s: Text)
    decreases |s|
  {
    if s == [] then true
    else if !Representable(s[0]) then Undisturbed(s[1..])
    else
      match MatchLength(Encode(s))
      case None => Undisturbed(s[1..])
      case Some(len) =>
        len <= RepresentableRun(s) && SpelledValue(Encode(s), len) >= 0x110000 && Undisturbed(s[len..])
  }

  // ---------- One step of the decoder ----------

  /** The text that a match consists of. */
  ghost predicate Spelled(s: Text, len: nat) {
    && 19 <= len <= 23 && len <= |s| && MARKER <= s
    && (forall i :: 13 <= i < len - 2 ==> IsHex(s[i]))
    && s[len - 2] == UNDERSCORE && s[len - 1] == UNDERSCORE
  }

  lemma MatchIsSpelled(e: Text, len: nat)
    requires MatchLength(e) == Some(len)
    ensures Spelled(e, len)
  {
  }

  lemma RunEncodes(s: Text, m: nat)
    requires m <= RepresentableRun(s)
    ensures m <= |s| && Encode(s) == s[..m] + Encode(s[m..])
  {
    EncodeSplit(s, m);
  }

  lemma TokenFirst(s: Text)
    requires s != [] && !Representable(s[0])
    ensures Encode(s) == Token(s[0]) + Encode(s[1..]) && MARKER <= Encode(s)
  {
    hide Encode, Representable;
    assert EncodeChar(s[0]) == Token(s[0]) && Encode(s) == EncodeChar(s[0]) + Encode(s[1..]) by {
      EncodeUnfold(s);
    }
    assert MARKER <= Token(s[0]);
  }

  lemma EncodeUnfold(s: Text)
    requires s != [] && !Representable(s[0])
    ensures EncodeChar(s[0]) == Token(s[0]) && Encode(s) == EncodeChar(s[0]) + Encode(s[1..])
  {
  }

  /** A match over original text and what follows it. */
  lemma SpelledAcross(text: Text, tail: Text, len: nat)
    requires text != [] && Spelled(text + tail, len) && (tail == [] || MARKER <= tail)
    ensures 13 <= |text| && text[..13] == MARKER
    ensures len > |text| ==> tail != [] && len - 2 <= |text|
  {
    var e := text + tail;
    if tail == [] {
      assert e == text;
    } else {
      if |text| < 13 {
        NoMarkerAcross(text, tail);
      }
      assert e[|text|] == tail[0] == UNDERSCORE;
      assert text[..13] == e[..13] == MARKER;
    }
  }

  lemma RunFacts(s: Text)
    requires s != [] && Representable(s[0])
    ensures 1 <= RepresentableRun(s) <= |s| && Encode([]) == []
    ensures RepresentableRun(s) < |s| ==> !Representable(s[RepresentableRun(s)])
  {
  }

  /** A match that does not lie within original text takes one or two underscores of the next token. */
  lemma MatchReach(s: Text, len: nat)
    requires s != [] && Representable(s[0]) && MatchLength(Encode(s)) == Some(len)
    ensures var m := RepresentableRun(s);
            && 13 <= m <= |s| && s[..13] == MARKER
            && (len > m ==> m < |s| && len - 2 <= m)
  {
    hide *;
    var m := RepresentableRun(s);
    RunFacts(s);
    MatchIsSpelled(Encode(s), len);
    RunEncodes(s, m);
    if m < |s| {
      TokenFirst(s[m..]);
    } else {
      assert s[m..] == [];
    }
    SpelledAcross(s[..m], Encode(s[m..]), len);
    assert s[..m][..13] == s[..13];
  }

  lemma StepEmoji(s: Text)
    requires s != [] && !Representable(s[0])
    ensures Stored(s) == [s[0]] + Stored(s[1..])
  {
    var rest := Encode(s[1..]);
    TokenMatches(s[0], rest);
    assert Encode(s)[..23] == Token(s[0]) && Encode(s)[23..] == rest;
  }

  lemma StepPlain(s: Text)
    requires s != [] && Representable(s[0]) && MatchLength(Encode(s)) == None
    ensures Stored(s) == [s[0]] + Stored(s[1..])
  {
    assert Encode(s)[1..] == Encode(s[1..]);
  }

  lemma SpelledPrefix(e: Text, s: Text, len: nat)
    requires Spelled(e, len) && len <= |s| && e[..len] == s[..len]
    ensures Spelled(s, len) && SpelledValue(s, len) == SpelledValue(e, len)
    ensures Replacement(e[..len]) == if SpelledValue(e, len) < 0x110000 then [SpelledValue(e, len)] else s[..len]
  {
    assert forall i :: 0 <= i < len ==> e[i] == e[..len][i] == s[..len][i] == s[i];
    assert s[13..len - 2] == e[13..len - 2] == e[..len][13..len - 2];
    assert MARKER == e[..13] == s[..13];
  }

  lemma StepMatch(e: Text, len: nat)
    requires MatchLength(e) == Some(len)
    ensures Spelled(e, len) && Substitute(e) == Replacement(e[..len]) + Substitute(e[len..])
  {
    MatchIsSpelled(e, len);
  }

  lemma StepWhole(s: Text, len: nat)
    requires s != [] && Representable(s[0]) && MatchLength(Encode(s)) == Some(len) && len <= RepresentableRun(s)
    ensures Spelled(s, len) && SpelledValue(s, len) == SpelledValue(Encode(s), len)
    ensures Stored(s) == (if SpelledValue(s, len) < 0x110000 then [SpelledValue(s, len)] else s[..len]) + Stored(s[len..])
  {
    RunEncodes(s, len);
    StepMatch(Encode(s), len);
    hide Representable, MatchLength, Spelled, Encode, Substitute, SpelledValue, Replacement;
    assert Encode(s)[..len] == s[..len] && Encode(s)[len..] == Encode(s[len..]);
    SpelledPrefix(Encode(s), s, len);
  }

  /** No match begins inside a token that lost its first underscore. */
  lemma {:induction false} TokenCopied(c: CodePoint, j: nat, rest: Text)
    requires 1 <= j <= 21
    ensures Token(c)[j..21] <= Substitute(Token(c)[j..] + rest)
    decreases 21 - j
  {
    hide Token, Substitute;
    TokenSize(c);
    if j < 21 {
      NoMarkerInside(c, j);
      var s := Token(c)[j..] + rest;
      assert s[0] == Token(c)[j] && s[1] == Token(c)[j + 1];
      assert s[1..] == Token(c)[j + 1..] + rest;
      NoMatchHere(s);
      TokenCopied(c, j + 1, rest);
      assert Token(c)[j..21] == [Token(c)[j]] + Token(c)[j + 1..21];
    }
  }

  lemma NoMatchHere(s: Text)
    requires |s| > 1 && (s[0] != UNDERSCORE || s[1] != UNDERSCORE)
    ensures Substitute(s) == [s[0]] + Substitute(s[1..])
  {
    assert MARKER[0] == UNDERSCORE && MARKER[1] == UNDERSCORE;
  }

  lemma NoMarkerInside(c: CodePoint, j: nat)
    requires 1 <= j < 21
    ensures Token(c)[j] != UNDERSCORE || Token(c)[j + 1] != UNDERSCORE
  {
    if j < 13 {
      assert Token(c)[j] == MARKER[j];
    } else {
      assert Token(c)[j] == Hex(c, 8)[j - 13] && IsHex(Hex(c, 8)[j - 13]);
    }
  }

  /** A token whose underscores were taken comes out as text. */
  lemma StepStolen(s: Text, len: nat)
    requires s != [] && Representable(s[0]) && MatchLength(Encode(s)) == Some(len) && len > RepresentableRun(s)
    ensures var m := RepresentableRun(s);
            && m < |s| && len - 2 <= m && Spelled(Encode(s), len)
            && (if SpelledValue(Encode(s), len) < 0x110000 then [SpelledValue(Encode(s), len)] else Encode(s)[..len])
               + Token(s[m])[len - m..21]
               <= Stored(s)
  {
    hide *;
    var m, e := RepresentableRun(s), Encode(s);
    RunFacts(s);
    MatchReach(s, len);
    RunEncodes(s, m);
    TokenFirst(s[m..]);
    StepMatch(e, len);
    var token, rest := Token(s[m]), Encode(s[m..][1..]);
    TokenSize(s[m]);
    SplitInToken(s[..m], token, rest, len);
    SpelledPrefix(e, e, len);
    TokenCopied(s[m], len - m, rest);
    StoredUnfold(s);
    PrefixAfter(Replacement(e[..len]), token[len - m..21], Substitute(e[len..]));
  }

  lemma StoredUnfold(s: Text)
    ensures Stored(s) == Substitute(Encode(s))
  {
  }

  lemma TokenSize(c: CodePoint)
    ensures |Token(c)| == 23
  {
  }

  lemma SplitInToken(text: Text, token: Text, rest: Text, len: nat)
    requires |text| < len <= |text| + |token|
    ensures (text + (token + rest))[len..] == token[len - |text|..] + rest
  {
  }

  lemma PrefixAfter(a: Text, b: Text, c: Text)
    requires b <= c
    ensures a + b <= a + c
  {
  }

  // ---------- A text behind a disturbed place ----------

  // Suppose a match decodes to an underscore and all the rest comes back.  From then on what has been decoded,
  // `s[..q]`, lags behind what has been read, `s[..p]`, and everything read has been decoded before or spells
  // such a character.  So it holds no digits of a character that the database cannot hold, the decoder finds no
  // token to open up, and the lag never shrinks.

  const LETTER_U: CodePoint := 0x75

  ghost predicate AllHex(s: Text) {
    forall i :: 0 <= i < |s| ==> IsHex(s[i])
  }

  ghost function Digits(s: Text): nat
    requires AllHex(s)
  {
    assert forall c <- s :: IsHex(c);
    HexValue(s)
  }

  /** Hexadecimal digits after position `j` name a small number. */
  ghost predicate Small(s: Text, j: nat, r: nat)
    requires j + 1 + r <= |s|
  {
    AllHex(s[j + 1..j + 1 + r]) ==> Digits(s[j + 1..j + 1 + r]) < 0x80
  }

  /** What was read up to `p` is plain, and after each `u` come no digits of a large number. */
  ghost predicate Tame(s: Text, p: nat) {
    && p <= |s|
    && (forall j :: 0 <= j < p ==> s[j] < 0x80)
    && (forall j, r :: 0 <= j && 0 <= r <= 8 && j + 1 + r <= p && s[j] == LETTER_U ==> Small(s, j, r))
  }

  /** The last `m` characters read are those last decoded, and before them a match ended. */
  ghost predicate Lagging(s: Text, q: nat, p: nat, m: nat) {
    && m <= q && m < p && q + 18 <= p && Tame(s, p)
    && s[p - m - 1] == UNDERSCORE
    && (forall x {:trigger s[x]} :: p - m <= x < p ==> s[x] == s[x - (p - q)])
  }

  /** Digits that a match interrupts are not digits. */
  lemma HexAhead(s: Text, p: nat, u: nat, k: nat)
    requires Tame(s, p) && u < p < |s| && s[p] == UNDERSCORE
    requires s[u] == LETTER_U && k <= 8 && u + 1 + k <= |s|
    ensures Small(s, u, k)
  {
    if u + 1 + k > p {
      assert s[u + 1..u + 1 + k][p - u - 1] == s[p];
    }
  }

  lemma LagPlain(s: Text, q: nat, p: nat, m: nat)
    requires Lagging(s, q, p, m) && p < |s| && s[p] == s[q]
    ensures Lagging(s, q + 1, p + 1, m + 1)
  {
    forall j, r | 0 <= j && 0 <= r <= 8 && j + 1 + r <= p + 1 && s[j] == LETTER_U
      ensures Small(s, j, r)
    {
      if j + 1 + r > p && r > 0 {
        PlainDigits(s, q, p, m, j, r);
      }
    }
  }

  /** Digits read as plain characters were decoded before, after the same letter. */
  lemma PlainDigits(s: Text, q: nat, p: nat, m: nat, j: nat, r: nat)
    requires Lagging(s, q, p, m) && p < |s| && s[p] == s[q]
    requires 0 < r <= 8 && j + 1 + r == p + 1 && s[j] == LETTER_U
    ensures Small(s, j, r)
  {
    assert j != p - m - 1;
    if j < p - m - 1 {
      assert s[j + 1..j + 1 + r][p - m - 1 - (j + 1)] == UNDERSCORE;
    } else {
      var i := j - (p - q);
      assert s[j] == s[i];
      assert Small(s, i, r);
      var a, c := s[i + 1..i + 1 + r], s[j + 1..j + 1 + r];
      forall x | 0 <= x < r
        ensures a[x] == c[x]
      {
        assert s[j + 1 + x] == s[j + 1 + x - (p - q)];
      }
      SameDigits(s, i, j, r);
    }
  }

  lemma SameDigits(s: Text, i: nat, j: nat, r: nat)
    requires i + 1 + r <= |s| && j + 1 + r <= |s| && Small(s, i, r)
    requires s[i + 1..i + 1 + r] == s[j + 1..j + 1 + r]
    ensures Small(s, j, r)
  {
  }

  lemma {:induction false} DigitsPrefix(h: Text, r: nat)
    requires AllHex(h) && r <= |h|
    ensures AllHex(h[..r]) && Digits(h[..r]) <= Digits(h)
    decreases |h|
  {
    if r == |h| {
      assert h[..r] == h;
    } else {
      var t := h[..|h| - 1];
      DigitsPrefix(t, r);
      assert t[..r] == h[..r];
      assert Digits(h) == Digits(t) * 16 + DigitValue(h[|h| - 1]);
    }
  }

  /** A whole match that names a plain character, read at position `p`. */
  ghost predicate PlainMatch(s: Text, p: nat, len: nat) {
    p <= |s| && Spelled(s[p..], len) && SpelledValue(s[p..], len) < 0x80
  }

  lemma TameMatch(s: Text, p: nat, len: nat)
    requires Tame(s, p) && PlainMatch(s, p, len)
    ensures p + len <= |s| && s[p + len - 1] == UNDERSCORE && Tame(s, p + len)
  {
    var t := s[p..];
    assert forall x :: 0 <= x < len ==> s[p + x] == t[x];
    assert forall x :: 0 <= x < 13 ==> t[x] == t[..13][x] == MARKER[x];
    forall j | 0 <= j < p + len
      ensures s[j] < 0x80
    {
      if j >= p {
        assert t[j - p] == s[j];
      }
    }
    forall j, r | 0 <= j && 0 <= r <= 8 && j + 1 + r <= p + len && s[j] == LETTER_U
      ensures Small(s, j, r)
    {
      if j + 1 + r > p && r > 0 {
        if j < p {
          assert s[j + 1..j + 1 + r][p - j - 1] == s[p] == t[0] == UNDERSCORE;
        } else {
          MatchDigits(s, p, len, j - p, r);
        }
      }
    }
  }

  lemma MatchDigits(s: Text, p: nat, len: nat, x: nat, r: nat)
    requires PlainMatch(s, p, len) && 0 < r <= 8 && x + 1 + r <= len && p + len <= |s|
    requires s[p + x] == LETTER_U
    ensures Small(s, p + x, r)
  {
    var t, d := s[p..], s[p + x + 1..p + x + 1 + r];
    assert t[x] == LETTER_U && t[..13] == MARKER && d[0] == t[x + 1];
    assert x <= 12;
    if x < 12 {
      assert t[x] == MARKER[x] && t[x + 1] == MARKER[x + 1];
    } else {
      var h := t[13..len - 2];
      if r > |h| {
        assert d[|h|] == t[len - 2] == UNDERSCORE;
      } else {
        forall i | 0 <= i < r
          ensures d[i] == h[i]
        {
          assert d[i] == s[p + 13 + i] == t[13 + i] == h[i];
        }
        assert d == h[..r];
        DigitsPrefix(h, r);
      }
    }
  }

  lemma LagMatch(s: Text, q: nat, p: nat, m: nat, len: nat)
    requires Lagging(s, q, p, m) && PlainMatch(s, p, len)
    ensures Lagging(s, q + 1, p + len, 0)
  {
    TameMatch(s, p, len);
  }

  /** A character that the database cannot hold has not been read yet. */
  lemma LagEmoji(s: Text, q: nat, p: nat, m: nat)
    requires Lagging(s, q, p, m) && p < |s| && !Representable(s[p])
    ensures Stored(s[p..]) != s[q..]
  {
    StepEmoji(s[p..]);
    assert s[q..][0] == s[q] < 0x80;
  }

  lemma PrefixAt(a: Text, s: Text, q: nat, i: nat)
    requires q <= |s| && a <= s[q..] && i < |a|
    ensures q + i < |s| && s[q + i] == a[i]
  {
    assert s[q..][i] == a[i];
  }

  /** Text that spells no code point has not been decoded yet. */
  lemma LagSpelled(s: Text, q: nat, p: nat, m: nat, e: Text, len: nat)
    requires Lagging(s, q, p, m) && p < |s| && s[p] == UNDERSCORE
    requires Spelled(e, len) && e[..len] <= s[q..]
    ensures SpelledValue(e, len) < 0x80
  {
    var u, d := q + 12, e[13..len - 2];
    forall i | 0 <= i < len
      ensures q + i < |s| && s[q + i] == e[i]
    {
      PrefixAt(e[..len], s, q, i);
    }
    assert e[..13] == MARKER && e[12] == MARKER[12] == LETTER_U;
    assert s[u + 1..u + 1 + |d|] == d;
    HexAhead(s, p, u, |d|);
  }

  lemma LagNoCodePoint(s: Text, q: nat, p: nat, m: nat, len: nat)
    requires Lagging(s, q, p, m) && p < |s| && Representable(s[p])
    requires MatchLength(Encode(s[p..])) == Some(len) && len <= RepresentableRun(s[p..])
    requires SpelledValue(Encode(s[p..]), len) >= 0x110000
    ensures Stored(s[p..]) != s[q..]
  {
    var t := s[p..];
    StepWhole(t, len);
    assert s[p] == t[0] == t[..13][0] == UNDERSCORE;
    if Stored(t) == s[q..] {
      assert t[..len] <= s[q..];
      LagSpelled(s, q, p, m, t, len);
    }
  }

  lemma LagStolen(s: Text, q: nat, p: nat, m: nat, len: nat)
    requires Lagging(s, q, p, m) && p < |s| && Representable(s[p])
    requires MatchLength(Encode(s[p..])) == Some(len) && len > RepresentableRun(s[p..])
    ensures Stored(s[p..]) != s[q..]
  {
    var t, e := s[p..], Encode(s[p..]);
    StepStolen(t, len);
    MatchReach(t, len);
    var run := RepresentableRun(t);
    assert s[p] == t[0] == t[..13][0] == UNDERSCORE;
    if Stored(t) == s[q..] {
      var token := Token(t[run])[len - run..21];
      if SpelledValue(e, len) >= 0x110000 {
        assert e[..len] <= e[..len] + token;
        LagSpelled(s, q, p, m, e, len);
      } else {
        LagToken(s, q, p, m, SpelledValue(e, len), t[run], len - run);
      }
    }
  }

  /** Nor has the text of a token. */
  lemma LagToken(s: Text, q: nat, p: nat, m: nat, v: CodePoint, c: CodePoint, d: nat)
    requires Lagging(s, q, p, m) && p < |s| && s[p] == UNDERSCORE && 1 <= d <= 2
    requires [v] + Token(c)[d..21] <= s[q..]
    ensures c < 0x80
  {
    TokenParts(c);
    hide Token;
    var a := [v] + Token(c)[d..21];
    forall i | d <= i < 21
      ensures q + 1 + i - d < |s| && s[q + 1 + i - d] == Token(c)[i]
    {
      PrefixAt(a, s, q, 1 + i - d);
    }
    var u := q + 13 - d;
    assert s[u] == Token(c)[12] == LETTER_U;
    forall i | 0 <= i < 8
      ensures s[u + 1..u + 9][i] == Hex(c, 8)[i]
    {
      assert s[u + 1 + i] == s[q + 1 + (13 + i) - d] == Token(c)[13 + i] == Token(c)[13..21][i];
    }
    assert s[u + 1..u + 9] == Hex(c, 8);
    HexAhead(s, p, u, 8);
    hide Tame, Lagging;
    assert Pow16(8) == 0x1_0000_0000;
    HexRoundTrip(c, 8);
  }

  lemma NextPlain(s: Text, q: nat, p: nat, m: nat)
    requires Lagging(s, q, p, m) && p < |s| && Representable(s[p])
    requires MatchLength(Encode(s[p..])) == None && Stored(s[p..]) == s[q..]
    ensures Lagging(s, q + 1, p + 1, m + 1) && Stored(s[p + 1..]) == s[q + 1..]
  {
    var t := s[p..];
    StepPlain(t);
    assert t[1..] == s[p + 1..];
    hide Lagging, Stored;
    HeadOf(t[0], Stored(s[p + 1..]), s, q);
    LagPlain(s, q, p, m);
  }

  lemma NextMatch(s: Text, q: nat, p: nat, m: nat, len: nat)
    requires Lagging(s, q, p, m) && p < |s| && Representable(s[p])
    requires MatchLength(Encode(s[p..])) == Some(len) && Stored(s[p..]) == s[q..]
    ensures Lagging(s, q + 1, p + len, 0) && p + len <= |s| && Stored(s[p + len..]) == s[q + 1..]
  {
    var t := s[p..];
    if len > RepresentableRun(t) {
      LagStolen(s, q, p, m, len);
    } else {
      StepWhole(t, len);
      if SpelledValue(Encode(t), len) >= 0x110000 {
        LagNoCodePoint(s, q, p, m, len);
      } else {
        assert t[len..] == s[p + len..];
        assert s[q] < 0x80;
        hide Lagging, Stored;
        HeadOf(SpelledValue(t, len), Stored(s[p + len..]), s, q);
        LagMatch(s, q, p, m, len);
      }
    }
  }

  /** The decoder cannot catch up. */
  lemma {:induction false} NeverCatchesUp(s: Text, q: nat, p: nat, m: nat)
    requires Lagging(s, q, p, m) && p <= |s|
    ensures Stored(s[p..]) != s[q..]
    decreases |s| - p
  {
    hide *;
    LagIsBehind(s, q, p, m);
    if p == |s| {
      assert s[p..] == [];
      StoredEmpty();
    } else if !Representable(s[p]) {
      LagEmoji(s, q, p, m);
    } else if Stored(s[p..]) == s[q..] {
      match MatchLength(Encode(s[p..]))
      case None =>
        NextPlain(s, q, p, m);
        NeverCatchesUp(s, q + 1, p + 1, m + 1);
      case Some(len) =>
        NextMatch(s, q, p, m, len);
        LongMatch(Encode(s[p..]), len);
        NeverCatchesUp(s, q + 1, p + len, 0);
    }
  }

  lemma LagIsBehind(s: Text, q: nat, p: nat, m: nat)
    requires Lagging(s, q, p, m)
    ensures q < p <= |s|
  {
  }

  lemma LongMatch(e: Text, len: nat)
    requires MatchLength(e) == Some(len)
    ensures len >= 19
  {
  }

  lemma StoredEmpty()
    ensures Stored([]) == []
  {
  }

  lemma HeadOf(c: CodePoint, rest: Text, s: Text, q: nat)
    requires q <= |s| && [c] + rest == s[q..]
    ensures q < |s| && c == s[q] && rest == s[q + 1..]
  {
    assert ([c] + rest)[0] == c && ([c] + rest)[1..] == rest;
    assert s[q..][0] == s[q] && s[q..][1..] == s[q + 1..];
  }

  // ---------- Exactly the undisturbed texts survive ----------

  /** A match that decodes to another character, or takes underscores of a token, shows at once or later. */
  lemma MatchDisturbs(s: Text, len: nat)
    requires s != [] && Representable(s[0]) && MatchLength(Encode(s)) == Some(len)
    requires len > RepresentableRun(s) || SpelledValue(Encode(s), len) < 0x110000
    ensures Stored(s) != s
  {
    if len > RepresentableRun(s) {
      StolenShows(s, len);
    } else {
      StepWhole(s, len);
      var v := SpelledValue(s, len);
      assert s[0] == s[..13][0] == UNDERSCORE;
      if Stored(s) == s {
        assert s[0..] == s;
        HeadOf(v, Stored(s[len..]), s, 0);
        assert Tame(s, 0);
        TameMatch(s, 0, len);
        assert Lagging(s, 1, len, 0);
        NeverCatchesUp(s, 1, len, 0);
      }
    }
  }

  lemma UnderscoreNext(s: Text)
    requires s != [] && Representable(s[0]) && RepresentableRun(s) < |s|
    ensures var m, e := RepresentableRun(s), Encode(s);
            |e| > m && e[..m] == s[..m] && e[m] == UNDERSCORE && !Representable(s[m])
  {
    hide *;
    var m := RepresentableRun(s);
    RunFacts(s);
    RunEncodes(s, m);
    TokenFirst(s[m..]);
    MarkerFirst(Encode(s[m..]));
  }

  lemma MarkerFirst(e: Text)
    requires MARKER <= e
    ensures |e| >= 13 && e[0] == UNDERSCORE
  {
  }

  /** The taken underscore stands where the text has the character itself. */
  lemma NoCodePointShows(s: Text, len: nat, a: Text)
    requires s != [] && Representable(s[0]) && RepresentableRun(s) < |s| && RepresentableRun(s) < len <= |Encode(s)|
    ensures !(Encode(s)[..len] + a <= s)
  {
    var m, b := RepresentableRun(s), Encode(s)[..len] + a;
    UnderscoreNext(s);
    assert b[m] == UNDERSCORE != s[m];
  }

  /** With both underscores gone the second character differs. */
  lemma BothTakenShows(s: Text, v: CodePoint, c: CodePoint)
    requires |s| >= 13 && s[..13] == MARKER
    ensures !([v] + Token(c)[2..21] <= s)
  {
    var b := [v] + Token(c)[2..21];
    assert b[1] == Token(c)[2] == MARKER[2];
    assert s[1] == s[..13][1] == MARKER[1];
  }

  lemma TokenParts(c: CodePoint)
    ensures |Token(c)| == 23 && Token(c)[..13] == MARKER && Token(c)[13..21] == Hex(c, 8)
    ensures Token(c)[12] == LETTER_U
  {
    assert Token(c)[12] == MARKER[12];
  }

  lemma SpelledSize(e: Text, len: nat)
    requires Spelled(e, len)
    ensures 19 <= len <= |e|
  {
  }

  lemma TokenHex(c: CodePoint, i: nat)
    requires 13 <= i
    ensures i < 21 ==> IsHex(Token(c)[i])
  {
    if i < 21 {
      assert Token(c)[i] == Hex(c, 8)[i - 13];
    }
  }

  /** With one underscore gone the digits differ, or what the match decodes to. */
  lemma OneTakenShows(s: Text, e: Text, len: nat, c: CodePoint)
    requires Spelled(e, len) && SpelledValue(e, len) < 0x110000 && !Representable(c)
    requires len - 1 <= |s| && e[..len - 1] == s[..len - 1]
    ensures !([SpelledValue(e, len)] + Token(c)[1..21] <= s)
  {
    var v := SpelledValue(e, len);
    var b := [v] + Token(c)[1..21];
    forall i | 0 <= i < len - 1
      ensures s[i] == e[i]
    {
      assert e[i] == e[..len - 1][i] == s[..len - 1][i];
    }
    assert s[0] == e[..13][0] == UNDERSCORE;
    assert s[len - 2] == e[len - 2] == UNDERSCORE;
    TokenHex(c, len - 2);
    if b <= s {
      assert v == b[0] == s[0];
      forall i | 1 <= i < 21
        ensures s[i] == Token(c)[i]
      {
        assert b[i] == Token(c)[i];
      }
      if len == 23 {
        assert e[13..21] == Token(c)[13..21] == Hex(c, 8);
        assert Pow16(8) == 0x1_0000_0000;
        HexRoundTrip(c, 8);
      }
    }
  }

  /** A token without its underscores does not look like the text before it. */
  lemma StolenShows(s: Text, len: nat)
    requires s != [] && Representable(s[0]) && MatchLength(Encode(s)) == Some(len) && len > RepresentableRun(s)
    ensures Stored(s) != s
  {
    hide *;
    var m, e := RepresentableRun(s), Encode(s);
    StepStolen(s, len);
    MatchReach(s, len);
    UnderscoreNext(s);
    MatchIsSpelled(e, len);
    SpelledSize(e, len);
    TokenSize(s[m]);
    if SpelledValue(e, len) >= 0x110000 {
      NoCodePointShows(s, len, Token(s[m])[len - m..21]);
    } else if len == m + 2 {
      BothTakenShows(s, SpelledValue(e, len), s[m]);
    } else {
      assert len - 1 == m;
      OneTakenShows(s, e, len, s[m]);
    }
  }

  /** A text survives encoding and decoding if and only if it is undisturbed. */
  lemma {:induction false} RoundTripExactly(s: Text)
    ensures Decode(Encode(s)) == s <==> Undisturbed(s)
    decreases |s|
  {
    StoredIsDecoded(s);
    if s == [] {
      StoredEmpty();
    } else if !Representable(s[0]) {
      StepEmoji(s);
      RestDecides([s[0]], s);
    } else {
      match MatchLength(Encode(s))
      case None =>
        StepPlain(s);
        RestDecides([s[0]], s);
      case Some(len) =>
        LongMatch(Encode(s), len);
        if len > RepresentableRun(s) || SpelledValue(Encode(s), len) < 0x110000 {
          MatchDisturbs(s, len);
        } else {
          StepWhole(s, len);
          RestDecides(s[..len], s);
        }
    }
  }

  lemma RestDecides(a: Text, s: Text)
    requires a != [] && a <= s && Stored(s) == a + Stored(s[|a|..])
    ensures Stored(s) == s <==> Undisturbed(s[|a|..])
    decreases |s|, 0
  {
    hide *;
    var rest := s[|a|..];
    StoredIsDecoded(rest);
    RoundTripExactly(rest);
    assert s == a + rest;
    if Stored(s) == s {
      assert Stored(s)[|a|..] == Stored(rest);
    }
  }

  // ---------- In particular ----------

  /** When no match begins at an original character the text survives. */
  lemma {:induction false} NoMatchSurvives(s: Text)
    requires forall i :: 0 <= i < |s| && Representable(s[i]) ==> MatchLength(Encode(s[i..])) == None
    ensures Decode(Encode(s)) == s
    decreases |s|
  {
    NoMatchUndisturbed(s);
    RoundTripExactly(s);
  }

  lemma {:induction false} NoMatchUndisturbed(s: Text)
    requires forall i :: 0 <= i < |s| && Representable(s[i]) ==> MatchLength(Encode(s[i..])) == None
    ensures Undisturbed(s)
    decreases |s|
  {
    if s != [] {
      assert s[0..] == s;
      forall i | 0 <= i < |s[1..]| && Representable(s[1..][i])
        ensures MatchLength(Encode(s[1..][i..])) == None
      {
        assert s[1..][i] == s[i + 1] && s[1..][i..] == s[i + 1..];
      }
      hide Representable, MatchLength, Encode;
      NoMatchUndisturbed(s[1..]);
    }
  }

  /** A token up to its underscores fits the database. */
  lemma CutTokenFits(v: CodePoint)
    ensures var a := MARKER + Hex(v, 8);
            |a| == 21 && a[0] == UNDERSCORE && forall i :: 0 <= i < 21 ==> Representable(a[i])
  {
    var a := MARKER + Hex(v, 8);
    forall i | 0 <= i < 21
      ensures Representable(a[i])
    {
      if i >= 13 {
        assert a[i] == Hex(v, 8)[i - 13] && IsHex(Hex(v, 8)[i - 13]);
      }
    }
  }

  lemma RunBefore(a: Text, c: CodePoint, t: Text)
    requires (forall i :: 0 <= i < |a| ==> Representable(a[i])) && !Representable(c)
    ensures RepresentableRun(a + ([c] + t)) == |a|
  {
    var s := a + ([c] + t);
    assert s[|a|] == c && forall i :: 0 <= i < |a| ==> s[i] == a[i];
  }

  lemma Regroup(a: Text, u: Text, token: Text, e: Text)
    requires u <= token
    ensures a + (token + e) == (a + u) + (token[|u|..] + e)
  {
    assert token == u + token[|u|..];
  }

  lemma TokenEnds(v: CodePoint)
    ensures Token(v) == MARKER + Hex(v, 8) + [UNDERSCORE, UNDERSCORE] && [UNDERSCORE, UNDERSCORE] <= Token(v)
  {
  }

  /** Before a character with a token of its own it encodes to a whole token and the rest of that one. */
  lemma CutTokenCompleted(v: CodePoint, c: CodePoint, t: Text)
    requires !Representable(c)
    ensures var s := MARKER + Hex(v, 8) + ([c] + t);
            RepresentableRun(s) == 21 && Encode(s) == Token(v) + (Token(c)[2..] + Encode(t))
  {
    hide *;
    var a := MARKER + Hex(v, 8);
    CutTokenFits(v);
    RunBefore(a, c, t);
    RunEncodes(a + ([c] + t), 21);
    assert (a + ([c] + t))[..21] == a && (a + ([c] + t))[21..] == [c] + t && ([c] + t)[1..] == t;
    TokenFirst([c] + t);
    TokenEnds(v);
    TokenEnds(c);
    Regroup(a, [UNDERSCORE, UNDERSCORE], Token(c), Encode(t));
  }

  /** Text that spells a token up to its underscores is lost when the underscores of a token follow. */
  lemma CutTokenIsLost(v: CodePoint, c: CodePoint, t: Text)
    requires !Representable(c)
    ensures var s := MARKER + Hex(v, 8) + ([c] + t); Decode(Encode(s)) != s
  {
    var s := MARKER + Hex(v, 8) + ([c] + t);
    CutTokenFits(v);
    CutTokenCompleted(v, c, t);
    TokenMatches(v, Token(c)[2..] + Encode(t));
    assert s[0] == (MARKER + Hex(v, 8))[0];
    hide Token, Hex, Encode, Representable, RepresentableRun;
    RoundTripExactly(s);
  }
}
