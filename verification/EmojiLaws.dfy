/**
 What the decoder matches and what it puts there, read off the regular expression and `int(…, 16)`.
 */
module EmojiLaws {
  import opened Common
  import opened EmojiCodec

  /** The text begins with `__sun_emoji_u`, four to eight of the digits 0-9 and A-F, and `__`. */
  ghost predicate IsMatch(s: Text, len: nat) {
    && 19 <= len <= 23 && len <= |s|
    && s[..13] == [0x5F, 0x5F, 0x73, 0x75, 0x6E, 0x5F, 0x65, 0x6D, 0x6F, 0x6A, 0x69, 0x5F, 0x75]
    && (forall i :: 13 <= i < len - 2 ==> 0x30 <= s[i] <= 0x39 || 0x41 <= s[i] <= 0x46)
    && s[len - 2] == 0x5F && s[len - 1] == 0x5F
  }

  lemma {:induction false} HexRunFinds(s: Text, k: nat, limit: nat)
    requires k <= limit && k < |s| && !IsHex(s[k]) && forall i :: 0 <= i < k ==> IsHex(s[i])
    ensures HexRun(s, limit) == k
  {
    if k > 0 {
      HexRunFinds(s[1..], k - 1, limit - 1);
    }
  }

  /** The matcher accepts what the pattern describes, and nothing else. */
  lemma MatchExact(s: Text, len: nat)
    ensures MatchLength(s) == Some(len) <==> IsMatch(s, len)
  {
    if IsMatch(s, len) {
      assert s[..13] == MARKER;
      var t, k := s[13..], len - 15;
      assert t[k] == s[len - 2] && forall i :: 0 <= i < k ==> t[i] == s[13 + i];
      HexRunFinds(t, k, 8);
    }
    if MatchLength(s) == Some(len) {
      assert s[..13] == MARKER;
      assert HexRun(s[13..], 8) == len - 15;
    }
  }

  /** 0-9, then A-F. */
  function ValueOf(c: int): int {
    if c <= 0x39 then c - 0x30 else c - 0x37
  }

  function DigitValues(h: Text): (v: seq<int>)
    ensures |v| == |h|
  {
    seq(|h|, i requires 0 <= i < |h| => ValueOf(h[i]))
  }

  lemma {:induction false} HexIsNumber(h: Text)
    requires forall c <- h :: IsHex(c)
    ensures HexValue(h) == Number(DigitValues(h), 16)
    decreases |h|
  {
    if h != [] {
      var t := h[..|h| - 1];
      HexIsNumber(t);
      assert DigitValues(h)[..|h| - 1] == DigitValues(t);
      assert h[|h| - 1] in h;
    }
  }

  /** A match is replaced by the character its digits number, if there is one. */
  lemma ReplacementExact(s: Text, len: nat)
    requires IsMatch(s, len)
    ensures var n := Number(DigitValues(s[13..len - 2]), 16);
            n >= 0 && Replacement(s[..len]) == if n < 0x110000 then [n] else s[..len]
  {
    var token, digits := s[..len], s[13..len - 2];
    assert token[13..len - 2] == digits;
    assert forall c <- digits :: IsHex(c);
    HexIsNumber(digits);
  }

  lemma NoMatchCopies(s: Text)
    requires s != [] && MatchLength(s) == None
    ensures Substitute(s) == [s[0]] + Substitute(s[1..])
  {
  }

  /** Text in which no match begins is copied, whatever follows it. */
  lemma {:induction false} CopiedBefore(a: Text, s: Text)
    requires forall i :: 0 <= i < |a| ==> MatchLength(a[i..] + s) == None
    ensures Substitute(a + s) == a + Substitute(s)
    decreases |a|
  {
    hide *;
    if a == [] {
      assert a + s == s;
    } else {
      assert a[0..] == a && (a + s)[1..] == a[1..] + s;
      assert forall i :: 0 <= i < |a[1..]| ==> a[1..][i..] == a[i + 1..];
      CopiedBefore(a[1..], s);
      NoMatchCopies(a + s);
      assert a == [a[0]] + a[1..];
    }
  }

  /** A match is replaced, and the text behind it decoded on its own. */
  lemma MatchReplaced(token: Text, rest: Text)
    requires IsMatch(token + rest, |token|)
    ensures var n := Number(DigitValues(token[13..|token| - 2]), 16);
            n >= 0 && Substitute(token + rest) == (if n < 0x110000 then [n] else token) + Substitute(rest)
  {
    var s := token + rest;
    MatchExact(s, |token|);
    ReplacementExact(s, |token|);
    assert s[..|token|] == token && s[|token|..] == rest && s[13..|token| - 2] == token[13..|token| - 2];
  }

  /** Looking for the marker first makes no difference. */
  lemma DecodeIsSubstitution(s: Text)
    ensures Decode(s) == Substitute(s)
  {
    if !Contains(s, MARKER) {
      SubstituteUnmarked(s);
    }
  }
}
