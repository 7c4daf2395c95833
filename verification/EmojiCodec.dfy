/**
 The emoji codec of app/db_backend.py: characters that Windows-1251 cannot hold are stored as tokens
 `__sun_emoji_u0001F600__` and decoded again by a regular expression.

 Text is a sequence of code points, surrogates included, as in Python.
 */
module EmojiCodec {
  import opened Common

  type CodePoint = c: int | 0 <= c < 0x110000
  type Text = seq<CodePoint>

  const UNDERSCORE: CodePoint := 0x5F

  /** `__sun_emoji_u` */
  const MARKER: Text := [0x5F, 0x5F, 0x73, 0x75, 0x6E, 0x5F, 0x65, 0x6D, 0x6F, 0x6A, 0x69, 0x5F, 0x75]

  /** The rows 8x to Bx of Python's cp1251 codec; the rows Cx to Fx are the Russian alphabet. */
  const ROW_8: set<int> := {
    0x0402, 0x0403, 0x201A, 0x0453, 0x201E, 0x2026, 0x2020, 0x2021, 0x20AC, 0x2030, 0x0409, 0x2039, 0x040A, 0x040C, 0x040B, 0x040F }
  const ROW_9: set<int> := {
    0x0452, 0x2018, 0x2019, 0x201C, 0x201D, 0x2022, 0x2013, 0x2014, 0x2122, 0x0459, 0x203A, 0x045A, 0x045C, 0x045B, 0x045F }
  const ROW_A: set<int> := {
    0x00A0, 0x040E, 0x045E, 0x0408, 0x00A4, 0x0490, 0x00A6, 0x00A7, 0x0401, 0x00A9, 0x0404, 0x00AB, 0x00AC, 0x00AD, 0x00AE, 0x0407 }
  const ROW_B: set<int> := {
    0x00B0, 0x00B1, 0x0406, 0x0456, 0x0491, 0x00B5, 0x00B6, 0x00B7, 0x0451, 0x2116, 0x0454, 0x00BB, 0x0458, 0x0405, 0x0455, 0x0457 }

  predicate Representable(c: CodePoint) {
    c < 0x80 || 0x0410 <= c <= 0x044F || c in ROW_8 || c in ROW_9 || c in ROW_A || c in ROW_B
  }

  // ---------- Hexadecimal ----------

  function HexDigit(d: int): CodePoint
    requires 0 <= d < 16
  {
    if d < 10 then 0x30 + d else 0x41 + d - 10
  }

  predicate IsHex(c: CodePoint) {
    0x30 <= c <= 0x39 || 0x41 <= c <= 0x46
  }

  function DigitValue(c: CodePoint): (d: int)
    requires IsHex(c)
    ensures 0 <= d < 16 && HexDigit(d) == c
  {
    if c <= 0x39 then c - 0x30 else c - 0x41 + 10
  }

  /** The last `width` hexadecimal digits of `n`. */
  function Hex(n: nat, width: nat): (h: Text)
    ensures |h| == width && forall c <- h :: IsHex(c)
  {
    if width == 0 then [] else Hex(n / 16, width - 1) + [HexDigit(n % 16)]
  }

  function HexValue(h: Text): nat
    requires forall c <- h :: IsHex(c)
  {
    if h == [] then 0 else HexValue(h[..|h| - 1]) * 16 + DigitValue(h[|h| - 1])
  }

  function Pow16(k: nat): nat {
    if k == 0 then 1 else 16 * Pow16(k - 1)
  }

  lemma {:induction false} HexRoundTrip(n: nat, width: nat)
    requires n < Pow16(width)
    ensures HexValue(Hex(n, width)) == n
  {
    if width > 0 {
      var h := Hex(n, width);
      assert h[..|h| - 1] == Hex(n / 16, width - 1);
      HexRoundTrip(n / 16, width - 1);
      assert DigitValue(HexDigit(n % 16)) == n % 16;
    }
  }

  // ---------- Encoding ----------

  function Token(c: CodePoint): Text {
    MARKER + Hex(c, 8) + [UNDERSCORE, UNDERSCORE]
  }

  function EncodeChar(c: CodePoint): Text {
    if Representable(c) then [c] else Token(c)
  }

  function Encode(s: Text): Text {
    if s == [] then [] else EncodeChar(s[0]) + Encode(s[1..])
  }

  lemma {:induction false} EncodeAppend(a: Text, b: Text)
    ensures Encode(a + b) == Encode(a) + Encode(b)
  {
    hide EncodeChar;
    if a == [] {
      assert a + b == b;
    } else {
      assert (a + b)[1..] == a[1..] + b;
      EncodeAppend(a[1..], b);
      assert Encode(a + b) == EncodeChar(a[0]) + (Encode(a[1..]) + Encode(b));
    }
  }

  lemma {:induction false} RepresentableFixed(s: Text)
    requires forall c <- s :: Representable(c)
    ensures Encode(s) == s
  {
    if s != [] {
      RepresentableFixed(s[1..]);
    }
  }

  method EncodeUnrepresentable(text: Text) returns (r: Text)
    ensures r == Encode(text)
  {
    if text == [] {
      return text;
    }
    var escaped: Text, changed := [], false;
    for i := 0 to |text|
      invariant escaped == Encode(text[..i])
      invariant !changed ==> forall j :: 0 <= j < i ==> Representable(text[j])
    {
      assert text[..i + 1] == text[..i] + [text[i]];
      EncodeAppend(text[..i], [text[i]]);
      if Representable(text[i]) {
        escaped := escaped + [text[i]];
      } else {
        escaped := escaped + Token(text[i]);
        changed := true;
      }
    }
    assert text[..|text|] == text;
    if !changed {
      RepresentableFixed(text);
      return text;
    }
    r := escaped;
  }

  // ---------- Decoding ----------

  /** Number of hexadecimal digits at the start, counting no further than `limit`. */
  function HexRun(s: Text, limit: nat): (k: nat)
    ensures k <= limit && k <= |s| && forall i :: 0 <= i < k ==> IsHex(s[i])
  {
    if limit == 0 || s == [] || !IsHex(s[0]) then 0 else 1 + HexRun(s[1..], limit - 1)
  }

  /** The length of a match of `__sun_emoji_u([0-9A-F]{4,8})__` at the start of the text. */
  function MatchLength(s: Text): (r: Option<nat>)
    ensures r.Some? ==> MARKER <= s && 19 <= r.value <= |s|
    ensures r.Some? ==> forall i :: 13 <= i < r.value - 2 ==> IsHex(s[i])
  {
    if !(MARKER <= s) then None
    else
      var k := HexRun(s[13..], 8);
      if k >= 4 && 15 + k <= |s| && s[13 + k] == UNDERSCORE && s[14 + k] == UNDERSCORE then Some(15 + k) else None
  }

  /** The code point the digits name; a number beyond Unicode leaves the match as it is. */
  function Replacement(token: Text): Text
    requires |token| >= 15 && forall i :: 13 <= i < |token| - 2 ==> IsHex(token[i])
  {
    var digits := token[13..|token| - 2];
    assert forall c <- digits :: IsHex(c);
    var v := HexValue(digits);
    if v < 0x110000 then [v] else token
  }

  /** `re.sub`: leftmost matches, none overlapping. */
  function Substitute(s: Text): Text
    decreases |s|
  {
    if s == [] then []
    else
      match MatchLength(s)
      case Some(len) => Replacement(s[..len]) + Substitute(s[len..])
      case None => [s[0]] + Substitute(s[1..])
  }

  predicate Contains(s: Text, part: Text) {
    exists i :: 0 <= i <= |s| && part <= s[i..]
  }

  function Decode(s: Text): Text {
    if !Contains(s, MARKER) then s else Substitute(s)
  }

  // ---------- Matches cannot straddle a token ----------

  /** The marker has no border: no proper prefix of it is also a suffix. */
  lemma NoBorder(m: nat)
    requires 1 <= m < 13
    ensures MARKER[m..] != MARKER[..13 - m]
  {
    var tail, head := MARKER[m..], MARKER[..13 - m];
    // The last character of the marker occurs in it only once more, after `__s`.
    if m != 9 {
      assert tail[|tail| - 1] == 0x75 && head[|head| - 1] != 0x75;
    } else {
      assert tail[0] != head[0];
    }
  }

  lemma ContainsLater(s: Text)
    requires s != [] && !Contains(s, MARKER)
    ensures !Contains(s[1..], MARKER)
  {
    assert forall i :: 0 <= i <= |s[1..]| ==> s[1..][i..] == s[i + 1..];
  }

  lemma {:induction false} EncodeSplit(s: Text, m: nat)
    requires m <= |s| && forall i :: 0 <= i < m ==> Representable(s[i])
    ensures Encode(s) == s[..m] + Encode(s[m..])
  {
    assert s == s[..m] + s[m..];
    EncodeAppend(s[..m], s[m..]);
    RepresentableFixed(s[..m]);
  }

  /** Length of the representable start of a text. */
  function RepresentableRun(s: Text): (m: nat)
    ensures m <= |s| && (forall i :: 0 <= i < m ==> Representable(s[i]))
    ensures m < |s| ==> !Representable(s[m])
  {
    if s == [] || !Representable(s[0]) then 0 else 1 + RepresentableRun(s[1..])
  }

  lemma StartsWithMarker(s: Text)
    requires MARKER <= s
    ensures Contains(s, MARKER)
  {
    assert s[0..] == s;
  }

  /** A marker that starts in original text would have to share a border with the next token's. */
  lemma NoMarkerAcross(text: Text, rest: Text)
    requires 1 <= |text| < 13 && MARKER <= rest
    ensures !(MARKER <= text + rest)
  {
    var m := |text|;
    if MARKER <= text + rest {
      assert MARKER[m..] == (text + rest)[m..13] == rest[..13 - m];
      assert rest[..13 - m] == MARKER[..13 - m];
      NoBorder(m);
      assert false;
    }
  }

  /** In the encoding of marker-free text no match begins at an original character. */
  lemma NoMatchInText(s: Text)
    requires s != [] && Representable(s[0]) && !Contains(s, MARKER)
    ensures MatchLength(Encode(s)) == None
  {
    var m := RepresentableRun(s);
    assert m >= 1;
    hide Representable;
    EncodeSplit(s, m);
    if m == |s| {
      assert Encode(s) == s;
      if MARKER <= s { StartsWithMarker(s); }
    } else if m >= 13 {
      if MARKER <= Encode(s) {
        assert MARKER == Encode(s)[..13] == s[..13];
        StartsWithMarker(s);
      }
    } else {
      assert Encode(s[m..]) == Token(s[m]) + Encode(s[m..][1..]);
      NoMarkerAcross(s[..m], Encode(s[m..]));
    }
  }

  lemma {:induction false} HexRunStops(h: Text, c: CodePoint, rest: Text)
    requires (forall x <- h :: IsHex(x)) && !IsHex(c)
    ensures HexRun(h + [c] + rest, |h|) == |h|
  {
    if h != [] {
      assert (h + [c] + rest)[1..] == h[1..] + [c] + rest;
      HexRunStops(h[1..], c, rest);
    }
  }

  /** A token is matched as a whole and decodes to the character it was made for. */
  lemma TokenMatches(c: CodePoint, rest: Text)
    ensures MatchLength(Token(c) + rest) == Some(23) && Replacement(Token(c)) == [c]
  {
    var s := Token(c) + rest;
    assert s[13..] == Hex(c, 8) + [UNDERSCORE] + ([UNDERSCORE] + rest);
    HexRunStops(Hex(c, 8), UNDERSCORE, [UNDERSCORE] + rest);
    assert MARKER <= s;
    assert s[21] == UNDERSCORE && s[22] == UNDERSCORE;
    assert Token(c)[13..21] == Hex(c, 8);
    assert Pow16(8) == 0x1_0000_0000;
    HexRoundTrip(c, 8);
  }

  lemma {:induction false} SubstituteEncode(s: Text)
    requires !Contains(s, MARKER)
    ensures Substitute(Encode(s)) == s
  {
    if s != [] {
      ContainsLater(s);
      SubstituteEncode(s[1..]);
      var rest := Encode(s[1..]);
      if Representable(s[0]) {
        NoMatchInText(s);
        assert Encode(s)[1..] == rest;
      } else {
        TokenMatches(s[0], rest);
        assert Encode(s)[..23] == Token(s[0]) && Encode(s)[23..] == rest;
      }
    }
  }

  lemma {:induction false} SubstituteUnmarked(s: Text)
    requires !Contains(s, MARKER)
    ensures Substitute(s) == s
  {
    if s != [] {
      ContainsLater(s);
      SubstituteUnmarked(s[1..]);
      if MARKER <= s { StartsWithMarker(s); }
    }
  }

  /** Decoding undoes encoding on every text that does not contain the marker. */
  lemma DecodeEncode(s: Text)
    requires !Contains(s, MARKER)
    ensures Decode(Encode(s)) == s
  {
    SubstituteEncode(s);
    if !Contains(Encode(s), MARKER) {
      SubstituteUnmarked(Encode(s));
    }
  }

  lemma {:induction false} EncodeIsRepresentable(s: Text)
    ensures forall c <- Encode(s) :: Representable(c)
  {
    if s != [] {
      EncodeIsRepresentable(s[1..]);
    }
  }

  /** Encoding an encoded text changes nothing, and the database can hold the result. */
  lemma EncodeTwice(s: Text)
    ensures Encode(Encode(s)) == Encode(s)
    ensures forall c <- Encode(s) :: Representable(c)
  {
    EncodeIsRepresentable(s);
    RepresentableFixed(Encode(s));
  }

  /** The condition is needed: text that spells a token is taken for one. */
  lemma SpelledTokenIsDecoded(c: CodePoint)
    ensures Decode(Encode(Token(c))) == [c] != Token(c)
  {
    var t := Token(c);
    assert forall x <- t :: Representable(x);
    hide Representable;
    RepresentableFixed(t);
    TokenMatches(c, []);
    StartsWithMarker(t);
    assert t + [] == t && |t| == 23;
    hide Token, MatchLength, Replacement;
    assert t[..23] == t && t[23..] == [];
    assert Substitute(t) == [c] + Substitute([]);
  }

  /** ASCII or a letter of the Russian alphabet. */
  predicate IsRussian(c: CodePoint) {
    c < 0x80 || 0x0410 <= c <= 0x044F || c == 0x0401 || c == 0x0451
  }

  lemma RussianFits(c: CodePoint)
    requires IsRussian(c)
    ensures Representable(c)
  {
  }

  /** Text of plain characters and Russian letters is stored as it is. */
  lemma RussianKept(s: Text)
    requires forall i :: 0 <= i < |s| ==> IsRussian(s[i])
    ensures Encode(s) == s
  {
    hide *;
    forall i | 0 <= i < |s|
      ensures Representable(s[i])
    {
      RussianFits(s[i]);
    }
    RepresentableFixed(s);
  }

  lemma NotRepresentable(c: CodePoint)
    requires c >= 0x2200
    ensures EncodeChar(c) == Token(c) && |Token(c)| == 23
  {
  }

  /** Text of emoji is stored as tokens alone. */
  lemma {:induction false} TokensLength(s: Text)
    requires forall i :: 0 <= i < |s| ==> s[i] >= 0x2200
    ensures |Encode(s)| == 23 * |s|
  {
    if s != [] {
      hide EncodeChar, Token;
      NotRepresentable(s[0]);
      TokensLength(s[1..]);
    }
  }
}
