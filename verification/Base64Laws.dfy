/**
 The base64url text as a number: its characters are digits to the base 64 of the alphabet in section 5 of
 RFC 4648, and together they stand for the bytes, filled up with zero bits.
 */
module Base64Laws {
  import opened Common
  import opened Base64Url

  /** The digit that a character of the URL-safe alphabet stands for. */
  function Digit64(c: char): int {
    if 'A' <= c <= 'Z' then c as int - 'A' as int
    else if 'a' <= c <= 'z' then 26 + c as int - 'a' as int
    else if '0' <= c <= '9' then 52 + c as int - '0' as int
    else if c == '-' then 62
    else if c == '_' then 63
    else -1
  }

  function Digits64(s: string): (v: seq<int>)
    ensures |v| == |s|
  {
    seq(|s|, i requires 0 <= i < |s| => Digit64(s[i]))
  }

  /** Two or four zero bits behind the last byte make up whole digits. */
  function Fill(n: nat): nat {
    if n % 3 == 0 then 1 else if n % 3 == 1 then 16 else 4
  }

  lemma UrlDigit(v: int)
    requires 0 <= v < 64
    ensures Digit64(ToUrl(Char(v))) == v
  {
  }

  lemma Four(a: int, b: int, c: int, d: int, radix: nat)
    ensures Number([a], radix) == a && Number([a, b], radix) == a * radix + b
    ensures Number([a, b, c], radix) == (a * radix + b) * radix + c
    ensures Number([a, b, c, d], radix) == ((a * radix + b) * radix + c) * radix + d
  {
    assert [a][..0] == [] && [a, b][..1] == [a] && [a, b, c][..2] == [a, b] && [a, b, c, d][..3] == [a, b, c];
  }

  function Joined(b0: int, b1: int, b2: int): int {
    (b0 * 256 + b1) * 256 + b2
  }

  lemma GroupNumber(b0: Byte, b1: Byte, b2: Byte)
    ensures Number(Values(Group(b0, b1, b2)), 64) == Joined(b0, b1, b2)
  {
    hide Char, ToUrl, Digit64, Map, Number;
    var v0, v1, v2, v3 := b0 / 4, b0 % 4 * 16 + b1 / 16, b1 % 16 * 4 + b2 / 64, b2 % 64;
    UrlDigit(v0);
    UrlDigit(v1);
    UrlDigit(v2);
    UrlDigit(v3);
    assert Digits64(Map(Group(b0, b1, b2), ToUrl)) == [v0, v1, v2, v3];
    Four(v0, v1, v2, v3, 64);
  }

  lemma OneNumber(b0: Byte)
    ensures Number(Digits64(Map(Digits([b0]), ToUrl)), 64) == Number([b0], 256) * 16
  {
    hide Char, ToUrl, Digit64, Map, Number;
    var v0, v1 := b0 / 4, b0 % 4 * 16;
    UrlDigit(v0);
    UrlDigit(v1);
    assert Digits([b0]) == [Char(v0), Char(v1)];
    assert Digits64(Map([Char(v0), Char(v1)], ToUrl)) == [v0, v1];
    Four(v0, v1, 0, 0, 64);
    Four(b0, 0, 0, 0, 256);
  }

  lemma TwoNumber(b0: Byte, b1: Byte)
    ensures Number(Digits64(Map(Digits([b0, b1]), ToUrl)), 64) == Number([b0, b1], 256) * 4
  {
    hide Char, ToUrl, Digit64, Map, Number;
    var v0, v1, v2 := b0 / 4, b0 % 4 * 16 + b1 / 16, b1 % 16 * 4;
    UrlDigit(v0);
    UrlDigit(v1);
    UrlDigit(v2);
    assert Digits([b0, b1]) == [Char(v0), Char(v1), Char(v2)];
    assert Digits64(Map([Char(v0), Char(v1), Char(v2)], ToUrl)) == [v0, v1, v2];
    Four(v0, v1, v2, 0, 64);
    Four(b0, b1, 0, 0, 256);
  }

  lemma ShortNumber(bytes: seq<Byte>)
    requires |bytes| < 3
    ensures Number(Digits64(Map(Digits(bytes), ToUrl)), 64) == Number(bytes, 256) * Fill(|bytes|)
  {
    hide Char, ToUrl, Digit64, Digits, Number;
    if |bytes| == 1 {
      assert bytes == [bytes[0]];
      OneNumber(bytes[0]);
    } else if |bytes| == 2 {
      assert bytes == [bytes[0], bytes[1]];
      TwoNumber(bytes[0], bytes[1]);
    } else {
      assert bytes == [];
      NothingNumber();
    }
  }

  lemma NothingNumber()
    ensures Number(Digits64(Map(Digits([]), ToUrl)), 64) == Number([], 64) == Number([], 256) == 0
  {
  }

  lemma Powers()
    ensures Power(64, 2) == 4096 && Power(64, 3) == 262_144 && Power(256, 1) == 256 && Power(256, 2) == 65_536
  {
    assert Power(64, 1) == 64 && Power(256, 1) == 256 * Power(256, 0);
  }

  lemma PowerFour(k: nat)
    ensures Power(64, k + 4) == Power(64, k) * 16_777_216 && Power(256, k + 3) == Power(256, k) * 16_777_216
  {
    assert Power(64, k + 4) == 64 * Power(64, k + 3) == 64 * (64 * Power(64, k + 2));
    assert Power(64, k + 2) == 64 * Power(64, k + 1) == 64 * (64 * Power(64, k));
    assert Power(256, k + 3) == 256 * Power(256, k + 2) == 256 * (256 * Power(256, k + 1));
  }

  /** The digits have room for the bytes and the filling. */
  lemma {:induction false} DigitsPower(bytes: seq<Byte>)
    ensures Power(64, |Digits(bytes)|) == Power(256, |bytes|) * Fill(|bytes|)
    decreases |bytes|
  {
    if |bytes| >= 3 {
      hide *;
      var rest := bytes[3..];
      DigitsPower(rest);
      PowerFour(|Digits(rest)|);
      PowerFour(|rest|);
      DigitsLonger(bytes);
      SameFill(|bytes|);
      MoveFactor(Power(256, |rest|), Fill(|rest|), 16_777_216);
    } else {
      hide Group, Char;
      Powers();
    }
  }

  lemma DigitsLonger(bytes: seq<Byte>)
    requires |bytes| >= 3
    ensures |Digits(bytes)| == |Digits(bytes[3..])| + 4
  {
    hide Group;
  }

  lemma MoveFactor(x: int, y: int, z: int)
    ensures x * y * z == x * z * y
  {
  }

  lemma Digits64Append(a: string, b: string)
    ensures Digits64(a + b) == Digits64(a) + Digits64(b)
  {
    hide Digit64;
  }

  function Values(s: string): (v: seq<int>)
    ensures |v| == |s|
  {
    Digits64(Map(s, ToUrl))
  }

  lemma ValuesSplit(bytes: seq<Byte>)
    requires |bytes| >= 3
    ensures Values(Digits(bytes)) == Values(Group(bytes[0], bytes[1], bytes[2])) + Values(Digits(bytes[3..]))
  {
    hide Group, Map, Digits64, ToUrl;
    var g := Group(bytes[0], bytes[1], bytes[2]);
    MapAppend(g, Digits(bytes[3..]), ToUrl);
    Digits64Append(Map(g, ToUrl), Map(Digits(bytes[3..]), ToUrl));
  }

  lemma BytesSplit(bytes: seq<Byte>)
    requires |bytes| >= 3
    ensures Number(bytes, 256)
         == Joined(bytes[0], bytes[1], bytes[2]) * Power(256, |bytes[3..]|) + Number(bytes[3..], 256)
  {
    hide Number, Power;
    Four(bytes[0], bytes[1], bytes[2], 0, 256);
    assert bytes == [bytes[0], bytes[1], bytes[2]] + bytes[3..];
    NumberAppend([bytes[0], bytes[1], bytes[2]], bytes[3..], 256);
  }

  lemma {:induction false} DigitsNumber(bytes: seq<Byte>)
    ensures Number(Values(Digits(bytes)), 64) == Number(bytes, 256) * Fill(|bytes|)
    decreases |bytes|
  {
    if |bytes| < 3 {
      ShortNumber(bytes);
    } else {
      hide *;
      var rest := bytes[3..];
      var x, y := Values(Group(bytes[0], bytes[1], bytes[2])), Values(Digits(rest));
      var g := Joined(bytes[0], bytes[1], bytes[2]);
      DigitsNumber(rest);
      DigitsPower(rest);
      ValuesSplit(bytes);
      NumberAppend(x, y, 64);
      GroupNumber(bytes[0], bytes[1], bytes[2]);
      BytesSplit(bytes);
      SameFill(|bytes|);
      Combine(g, Power(256, |rest|), Number(rest, 256), Fill(|rest|), Number(bytes, 256),
              Power(64, |y|), Number(y, 64), Number(x + y, 64));
    }
  }

  lemma SameFill(n: nat)
    requires n >= 3
    ensures Fill(n) == Fill(n - 3)
  {
  }

  lemma Combine(g: int, p: int, r: int, f: int, whole: int, p': int, r': int, whole': int)
    requires whole == g * p + r && p' == p * f && r' == r * f && whole' == g * p' + r'
    ensures whole' == whole * f
  {
    assert g * (p * f) == (g * p) * f;
  }

  /** The encoded text, read as a number, is the bytes read as a number, with the filling behind them. */
  lemma EncodeNumber(bytes: seq<Byte>)
    ensures Number(Digits64(Encode(bytes)), 64) == Number(bytes, 256) * Fill(|bytes|)
    ensures |Encode(bytes)| == (4 * |bytes| + 2) / 3
    ensures forall c <- Encode(bytes) :: 0 <= Digit64(c) < 64
  {
    hide Number, Digits64, Encode, Digits;
    EncodeIsDigits(bytes);
    DigitsNumber(bytes);
    DigitsCount(bytes);
    EncodeIsUrlSafe(bytes);
  }

  lemma {:induction false} DigitsCount(bytes: seq<Byte>)
    ensures |Digits(bytes)| == (4 * |bytes| + 2) / 3
    decreases |bytes|
  {
    hide Group;
    if |bytes| >= 3 {
      DigitsCount(bytes[3..]);
    }
  }

  // ---------- Decoding any text ----------

  /** A character that decoding accepts: of the URL-safe or of the standard alphabet. */
  predicate IsDigit64(c: char) {
    Digit64(c) >= 0 || c == '+' || c == '/'
  }

  function Loose64(c: char): int {
    if c == '+' then 62 else if c == '/' then 63 else Digit64(c)
  }

  function LooseValues(s: string): (v: seq<int>)
    ensures |v| == |s|
  {
    seq(|s|, i requires 0 <= i < |s| => Loose64(s[i]))
  }

  lemma FromUrlDigit(c: char)
    ensures InAlphabet(FromUrl(c)) <==> IsDigit64(c)
    ensures IsDigit64(c) ==> Value(FromUrl(c)) == Loose64(c)
    ensures c != '=' && !IsAsciiSpace(c) ==> FromUrl(c) != '=' && !IsAsciiSpace(FromUrl(c))
  {
  }

  /** White space and padding are not looked at here. */
  predicate Bare(s: string) {
    forall i :: 0 <= i < |s| ==> s[i] != '=' && !IsAsciiSpace(s[i])
  }

  lemma {:induction false} RemoveNothing(s: string, tail: string)
    requires Bare(s) && tail in ["", "=", "==", "==="]
    ensures RemoveSpaces(s + tail) == s + tail
  {
    assert forall i :: 0 <= i < |s + tail| ==> !IsAsciiSpace((s + tail)[i]);
    NoSpacesToRemove(s + tail);
  }

  lemma UnpadBare(s: string)
    requires Bare(s)
    ensures Unpad(RemoveSpaces(Pad(s))) == if |s| % 4 == 1 then s + "=" else s
  {
    var tail := match |s| % 4 { case 0 => "" case 1 => "===" case 2 => "==" case _ => "=" };
    RemoveNothing(s, tail);
    assert Pad(s) == s + tail;
    if |s| % 4 == 1 {
      assert (s + tail)[..|s + tail| - 2] == s + "=";
    } else {
      UnpadPad(s);
    }
  }

  /** The one kind of text that fails: a wrong length or a character outside the alphabets. */
  lemma DecodeFails(s: string)
    requires Bare(s)
    ensures Decode(s) == None <==> |s| % 4 == 1 || exists i :: 0 <= i < |s| && !IsDigit64(s[i])
  {
    var m := Map(s, FromUrl);
    forall i | 0 <= i < |s|
      ensures (InAlphabet(m[i]) <==> IsDigit64(s[i])) && m[i] != '=' && !IsAsciiSpace(m[i])
    {
      FromUrlDigit(s[i]);
    }
    hide InAlphabet, IsDigit64, Pad, Unpad, RemoveSpaces, Map, FromUrl;
    UnpadBare(m);
    if |s| % 4 != 1 && exists i :: 0 <= i < |s| && !IsDigit64(s[i]) {
      var i :| 0 <= i < |s| && !IsDigit64(s[i]);
      assert !InAlphabet(m[i]);
    }
    if |s| % 4 == 1 {
      assert !InAlphabet('=') by { EqualsSign(); }
      assert (m + "=")[|m|] == '=';
    }
  }

  lemma EqualsSign()
    ensures !InAlphabet('=')
  {
  }

  function AlphabetValues(t: string): (v: seq<int>)
    requires AllInAlphabet(t)
    ensures |v| == |t|
  {
    seq(|t|, i requires 0 <= i < |t| => Value(t[i]))
  }

  /** The text, as a number, is the bytes and fewer than `Fill` more. */
  ghost predicate Holds(t: string)
    requires AllInAlphabet(t)
  {
    var spare := Number(AlphabetValues(t), 64) - Number(Bytes(t), 256) * Fill(|Bytes(t)|);
    && 0 <= spare < Fill(|Bytes(t)|)
    && |Bytes(t)| == 3 * |t| / 4
    && Power(64, |t|) == Power(256, |Bytes(t)|) * Fill(|Bytes(t)|)
  }

  lemma TwoHold(c0: char, c1: char)
    requires AllInAlphabet([c0, c1])
    ensures Holds([c0, c1])
  {
    hide Value, Number, Power;
    Powers();
    assert [c0, c1][0] == c0 && [c0, c1][1] == c1;
    var v0, v1 := Value(c0), Value(c1);
    assert Bytes([c0, c1]) == [v0 * 4 + v1 / 16];
    assert AlphabetValues([c0, c1]) == [v0, v1];
    Four(v0, v1, 0, 0, 64);
    Four(v0 * 4 + v1 / 16, 0, 0, 0, 256);
  }

  lemma ThreeHold(c0: char, c1: char, c2: char)
    requires AllInAlphabet([c0, c1, c2])
    ensures Holds([c0, c1, c2])
  {
    hide Value, Number, Power;
    Powers();
    var t := [c0, c1, c2];
    assert t[0] == c0 && t[1] == c1 && t[2] == c2;
    var v0, v1, v2 := Value(c0), Value(c1), Value(c2);
    assert Bytes([c0, c1, c2]) == [v0 * 4 + v1 / 16, v1 % 16 * 16 + v2 / 4];
    assert AlphabetValues([c0, c1, c2]) == [v0, v1, v2];
    Four(v0, v1, v2, 0, 64);
    Four(v0 * 4 + v1 / 16, v1 % 16 * 16 + v2 / 4, 0, 0, 256);
  }

  lemma ShortHolds(t: string)
    requires AllInAlphabet(t) && |t| < 4 && |t| != 1
    ensures Holds(t)
  {
    if |t| == 2 {
      assert t == [t[0], t[1]];
      TwoHold(t[0], t[1]);
    } else if |t| == 3 {
      assert t == [t[0], t[1], t[2]];
      ThreeHold(t[0], t[1], t[2]);
    } else {
      NothingNumber();
      assert t == "" && AlphabetValues("") == [] && Bytes("") == [] && Power(64, 0) == Power(256, 0) == 1;
    }
  }

  /** The three bytes that four digits make. */
  lemma FourJoined(v0: int, v1: int, v2: int, v3: int)
    requires 0 <= v0 < 64 && 0 <= v1 < 64 && 0 <= v2 < 64 && 0 <= v3 < 64
    ensures ((v0 * 64 + v1) * 64 + v2) * 64 + v3
         == Joined(v0 * 4 + v1 / 16, v1 % 16 * 16 + v2 / 4, v2 % 4 * 64 + v3)
  {
  }

  /** Products as terms of their own. */
  function Times(x: int, y: int): int {
    x * y
  }

  lemma TimesMoves(x: int, z: int, y: int)
    ensures Times(x * z, y) == Times(x, y) * z
  {
  }

  lemma LongParts(t: string)
    requires AllInAlphabet(t) && |t| >= 4
    ensures AllInAlphabet(t[4..])
    ensures |Bytes(t)| == 3 + |Bytes(t[4..])|
    ensures var v := AlphabetValues(t);
            var g := ((v[0] * 64 + v[1]) * 64 + v[2]) * 64 + v[3];
            && Number(v, 64) == Times(g, Power(64, |t[4..]|)) + Number(AlphabetValues(t[4..]), 64)
            && Number(Bytes(t), 256) == Times(g, Power(256, |Bytes(t[4..])|)) + Number(Bytes(t[4..]), 256)
  {
    hide Value, Number, Power, Joined;
    var v, rest := AlphabetValues(t), t[4..];
    var b := [v[0] * 4 + v[1] / 16, v[1] % 16 * 16 + v[2] / 4, v[2] % 4 * 64 + v[3]];
    assert Bytes(t) == b + Bytes(rest);
    assert v == [v[0], v[1], v[2], v[3]] + AlphabetValues(rest);
    hide Bytes, AlphabetValues, AllInAlphabet;
    NumberAppend([v[0], v[1], v[2], v[3]], AlphabetValues(rest), 64);
    NumberAppend(b, Bytes(rest), 256);
    Four(v[0], v[1], v[2], v[3], 64);
    Four(b[0], b[1], b[2], 0, 256);
    FourJoined(v[0], v[1], v[2], v[3]);
    assert Joined(b[0], b[1], b[2]) == (b[0] * 256 + b[1]) * 256 + b[2] by { JoinedIs(b[0], b[1], b[2]); }
  }

  lemma JoinedIs(b0: int, b1: int, b2: int)
    ensures Joined(b0, b1, b2) == (b0 * 256 + b1) * 256 + b2
  {
  }

  lemma CombineSpare(g: int, p: int, r: int, f: int, spare: int, whole: int, p': int, r': int, whole': int)
    requires whole == Times(g, p) + r && p' == Times(p, f) && r' == Times(r, f) + spare && whole' == Times(g, p') + r'
    ensures whole' == Times(whole, f) + spare
  {
    assert g * (p * f) == (g * p) * f;
  }

  lemma HoldsGives(t: string)
    requires AllInAlphabet(t) && Holds(t)
    ensures var f := Fill(|Bytes(t)|);
            var spare := Number(AlphabetValues(t), 64) - Times(Number(Bytes(t), 256), f);
            && 0 <= spare < f && |Bytes(t)| == 3 * |t| / 4 && Power(64, |t|) == Times(Power(256, |Bytes(t)|), f)
  {
    hide Number, Bytes, AlphabetValues, AllInAlphabet, Power, Fill;
  }

  lemma HoldsIf(t: string, f: int, spare: int)
    requires AllInAlphabet(t) && f == Fill(|Bytes(t)|) && 0 <= spare < f
    requires Number(AlphabetValues(t), 64) == Times(Number(Bytes(t), 256), f) + spare
    requires |Bytes(t)| == 3 * |t| / 4 && Power(64, |t|) == Times(Power(256, |Bytes(t)|), f)
    ensures Holds(t)
  {
    hide Number, Bytes, AlphabetValues, AllInAlphabet, Power, Fill;
  }

  function Spare(t: string): int
    requires AllInAlphabet(t)
  {
    Number(AlphabetValues(t), 64) - Times(Number(Bytes(t), 256), Fill(|Bytes(t)|))
  }

  lemma StepSpare(t: string)
    requires AllInAlphabet(t) && |t| >= 4 && AllInAlphabet(t[4..])
    requires Power(64, |t[4..]|) == Times(Power(256, |Bytes(t[4..])|), Fill(|Bytes(t[4..])|))
    ensures Spare(t) == Spare(t[4..]) && Fill(|Bytes(t)|) == Fill(|Bytes(t[4..])|)
  {
    hide Number, Bytes, AlphabetValues, Power, Fill, Times, Value, InAlphabet;
    LongParts(t);
    var rest, v := t[4..], AlphabetValues(t);
    SameFill(|Bytes(t)|);
    CombineSpare(((v[0] * 64 + v[1]) * 64 + v[2]) * 64 + v[3], Power(256, |Bytes(rest)|), Number(Bytes(rest), 256),
                 Fill(|Bytes(rest)|), Spare(rest), Number(Bytes(t), 256), Power(64, |rest|),
                 Number(AlphabetValues(rest), 64), Number(v, 64));
  }

  lemma StepPower(t: string)
    requires AllInAlphabet(t) && |t| >= 4 && AllInAlphabet(t[4..])
    requires Power(64, |t[4..]|) == Times(Power(256, |Bytes(t[4..])|), Fill(|Bytes(t[4..])|))
    ensures Power(64, |t|) == Times(Power(256, |Bytes(t)|), Fill(|Bytes(t)|))
    ensures |Bytes(t)| == |Bytes(t[4..])| + 3
  {
    hide Number, Bytes, AlphabetValues, Power, Fill, Times, Value, InAlphabet;
    LongParts(t);
    var rest := t[4..];
    SameFill(|Bytes(t)|);
    PowerFour(|rest|);
    PowerFour(|Bytes(rest)|);
    TimesMoves(Power(256, |Bytes(rest)|), 16_777_216, Fill(|Bytes(rest)|));
  }

  lemma {:induction false} BytesHold(t: string)
    requires AllInAlphabet(t) && |t| % 4 != 1
    ensures Holds(t)
    decreases |t|
  {
    if |t| < 4 {
      ShortHolds(t);
    } else {
      var rest := t[4..];
      assert AllInAlphabet(rest);
      hide Number, Bytes, AlphabetValues, Power, Fill, Holds, Times, InAlphabet;
      BytesHold(rest);
      HoldsGives(rest);
      StepPower(t);
      StepSpare(t);
      HoldsIf(t, Fill(|Bytes(t)|), Spare(t));
    }
  }

  /**
   Every other text decodes to the bytes whose number is that of the text without the spare bits at its
   end, whatever these are.
   */
  lemma DecodeNumber(s: string)
    requires Bare(s) && |s| % 4 != 1 && forall i :: 0 <= i < |s| ==> IsDigit64(s[i])
    ensures Decode(s).Some?
    ensures var bytes := Decode(s).value;
            && |bytes| == 3 * |s| / 4
            && 0 <= Number(LooseValues(s), 64) - Number(bytes, 256) * Fill(|bytes|) < Fill(|bytes|)
  {
    var m := Map(s, FromUrl);
    forall i | 0 <= i < |s|
      ensures InAlphabet(m[i]) && Value(m[i]) == Loose64(s[i]) && m[i] != '=' && !IsAsciiSpace(m[i])
    {
      FromUrlDigit(s[i]);
    }
    assert AlphabetValues(m) == LooseValues(s);
    hide InAlphabet, IsDigit64, Pad, Unpad, RemoveSpaces, Map, FromUrl, Bytes, AlphabetValues, Number, Power, Value;
    UnpadBare(m);
    BytesHold(m);
  }
}
