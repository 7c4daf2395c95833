/**
 `b64uEncode` and `b64uDecode` of static/crypto-v2.js over the browser's `btoa` and `atob`.

 See sections 4 and 5 of RFC 4648; `atob` follows the forgiving-base64 decode algorithm.
 */
module Base64Url {
  import opened Common

  type Byte = b: int | 0 <= b < 256

  /** A-Z, a-z, 0-9, '+' and '/', in this order. */
  function Char(v: int): char
    requires 0 <= v < 64
  {
    if v < 26 then (v + 65) as char
    else if v < 52 then (v + 71) as char
    else if v < 62 then (v - 4) as char
    else if v == 62 then '+'
    else '/'
  }

  predicate InAlphabet(c: char) {
    'A' <= c <= 'Z' || 'a' <= c <= 'z' || '0' <= c <= '9' || c == '+' || c == '/'
  }

  function Value(c: char): (v: int)
    requires InAlphabet(c)
    ensures 0 <= v < 64
  {
    if 'A' <= c <= 'Z' then c as int - 'A' as int
    else if 'a' <= c <= 'z' then c as int - 'a' as int + 26
    else if '0' <= c <= '9' then c as int - '0' as int + 52
    else if c == '+' then 62
    else 63
  }

  // ---------- btoa and atob ----------

  /** Three bytes as four characters. */
  function Group(b0: Byte, b1: Byte, b2: Byte): (g: string)
    ensures |g| == 4
  {
    [Char(b0 / 4), Char(b0 % 4 * 16 + b1 / 16), Char(b1 % 16 * 4 + b2 / 64), Char(b2 % 64)]
  }

  /** The characters of the base64 form, without padding. */
  function Digits(bytes: seq<Byte>): string {
    if |bytes| >= 3 then Group(bytes[0], bytes[1], bytes[2]) + Digits(bytes[3..])
    else if |bytes| == 2 then Group(bytes[0], bytes[1], 0)[..3]
    else if |bytes| == 1 then Group(bytes[0], 0, 0)[..2]
    else ""
  }

  function Btoa(bytes: seq<Byte>): string {
    Digits(bytes) + (if |bytes| % 3 == 0 then "" else if |bytes| % 3 == 1 then "==" else "=")
  }

  /** Decodes characters of the alphabet; bits that fill no byte are dropped. */
  function Bytes(s: string): seq<Byte>
    requires forall i :: 0 <= i < |s| ==> InAlphabet(s[i])
  {
    if |s| < 2 then []
    else
      var b0 := Value(s[0]) * 4 + Value(s[1]) / 16;
      if |s| == 2 then [b0]
      else
        var b1 := Value(s[1]) % 16 * 16 + Value(s[2]) / 4;
        if |s| == 3 then [b0, b1]
        else [b0, b1, Value(s[2]) % 4 * 64 + Value(s[3])] + Bytes(s[4..])
  }

  predicate IsAsciiSpace(c: char) {
    c == ' ' || c == '\t' || c == '\n' || c as int == 0x0C || c == '\r'
  }

  function RemoveSpaces(s: string): string {
    if s == "" then "" else (if IsAsciiSpace(s[0]) then "" else [s[0]]) + RemoveSpaces(s[1..])
  }

  function Unpad(s: string): string {
    if |s| % 4 != 0 || s == "" || s[|s| - 1] != '=' then s
    else if s[|s| - 2] == '=' then s[..|s| - 2]
    else s[..|s| - 1]
  }

  /** None is the exception. */
  function Atob(s: string): Option<seq<Byte>> {
    var data := Unpad(RemoveSpaces(s));
    if |data| % 4 == 1 || exists i :: 0 <= i < |data| && !InAlphabet(data[i]) then None
    else Some(Bytes(data))
  }

  // ---------- The URL-safe form ----------

  function Map(s: string, f: char -> char): (r: string)
    ensures |r| == |s| && forall i :: 0 <= i < |s| ==> r[i] == f(s[i])
  {
    if s == "" then "" else [f(s[0])] + Map(s[1..], f)
  }

  function RemovePadding(s: string): string {
    if s == "" then "" else (if s[0] == '=' then "" else [s[0]]) + RemovePadding(s[1..])
  }

  function ToUrl(c: char): char {
    if c == '+' then '-' else if c == '/' then '_' else c
  }

  function FromUrl(c: char): char {
    if c == '-' then '+' else if c == '_' then '/' else c
  }

  function Encode(bytes: seq<Byte>): string {
    RemovePadding(Map(Btoa(bytes), ToUrl))
  }

  function Pad(s: string): string {
    s + match |s| % 4 { case 0 => "" case 1 => "===" case 2 => "==" case _ => "=" }
  }

  function Decode(s: string): Option<seq<Byte>> {
    Atob(Pad(Map(s, FromUrl)))
  }

  method B64uEncode(bytes: array<Byte>) returns (r: string)
    ensures r == Encode(bytes[..])
  {
    var str: seq<Byte> := [];
    for i := 0 to bytes.Length
      invariant str == bytes[..i]
    {
      str := str + [bytes[i]];
    }
    assert bytes[..bytes.Length] == bytes[..];
    r := RemovePadding(Map(Btoa(str), ToUrl));
  }

  lemma PadStep(s: string)
    requires |s| % 4 != 0
    ensures Pad(s + "=") == Pad(s)
  {
    assert |s + "="| % 4 == (|s| % 4 + 1) % 4;
    assert "=" + "==" == "===" && "=" + "=" == "==";
    if |s| % 4 == 1 {
      assert s + "===" == (s + "=") + "==";
    } else if |s| % 4 == 2 {
      assert s + "==" == (s + "=") + "=";
    } else {
      assert (s + "=") + "" == s + "=";
    }
  }

  method B64uDecode(str: string) returns (r: Option<array<Byte>>)
    ensures r.None? <==> Decode(str).None?
    ensures r.Some? ==> fresh(r.value) && Some(r.value[..]) == Decode(str)
  {
    hide Atob;
    var s := Map(str, FromUrl);
    while |s| % 4 != 0
      invariant |str| <= |s| && Pad(s) == Pad(Map(str, FromUrl))
      decreases (4 - |s| % 4) % 4
    {
      PadStep(s);
      s := s + "=";
    }
    assert Pad(s) == s;
    var binary := Atob(s);
    if binary.None? {
      return None;
    }
    var bytes := new Byte[|binary.value|];
    for i := 0 to |binary.value|
      invariant bytes[..i] == binary.value[..i]
    {
      bytes[i] := binary.value[i];
    }
    assert bytes[..] == binary.value;
    r := Some(bytes);
  }

  // ---------- Decoding inverts encoding ----------

  lemma CharValue(v: int)
    requires 0 <= v < 64
    ensures InAlphabet(Char(v)) && Value(Char(v)) == v
  {
  }

  /** Three bytes survive being cut into four groups of six bits. */
  lemma SextetsRejoin(b0: Byte, b1: Byte, b2: Byte)
    ensures b0 / 4 * 4 + (b0 % 4 * 16 + b1 / 16) / 16 == b0
    ensures (b0 % 4 * 16 + b1 / 16) % 16 * 16 + (b1 % 16 * 4 + b2 / 64) / 4 == b1
    ensures (b1 % 16 * 4 + b2 / 64) % 4 * 64 + b2 % 64 == b2
  {
  }

  predicate AllInAlphabet(s: string) {
    forall i :: 0 <= i < |s| ==> InAlphabet(s[i])
  }

  lemma CharsDecode(v0: int, v1: int, v2: int)
    requires 0 <= v0 < 64 && 0 <= v1 < 64 && 0 <= v2 < 64
    ensures var s := [Char(v0), Char(v1), Char(v2)];
            && AllInAlphabet(s[..2]) && Bytes(s[..2]) == [v0 * 4 + v1 / 16]
            && AllInAlphabet(s) && Bytes(s) == [v0 * 4 + v1 / 16, v1 % 16 * 16 + v2 / 4]
  {
    CharValue(v0);
    CharValue(v1);
    CharValue(v2);
    hide Char, Value, InAlphabet;
  }

  lemma OneByteDecode(b0: Byte)
    ensures AllInAlphabet(Digits([b0])) && Bytes(Digits([b0])) == [b0] && |Digits([b0])| == 2
  {
    hide Bytes, AllInAlphabet, Char;
    CharsDecode(b0 / 4, b0 % 4 * 16, 0);
    assert Digits([b0]) == [Char(b0 / 4), Char(b0 % 4 * 16), Char(0)][..2];
    SextetsRejoin(b0, 0, 0);
  }

  lemma TwoBytesDecode(b0: Byte, b1: Byte)
    ensures AllInAlphabet(Digits([b0, b1])) && Bytes(Digits([b0, b1])) == [b0, b1] && |Digits([b0, b1])| == 3
  {
    hide Bytes, AllInAlphabet, Char;
    CharsDecode(b0 / 4, b0 % 4 * 16 + b1 / 16, b1 % 16 * 4);
    assert Digits([b0, b1]) == [Char(b0 / 4), Char(b0 % 4 * 16 + b1 / 16), Char(b1 % 16 * 4)];
    SextetsRejoin(b0, b1, 0);
  }

  /** The last, possibly shorter, group. */
  lemma ShortDigitsDecode(bytes: seq<Byte>)
    requires |bytes| < 3
    ensures AllInAlphabet(Digits(bytes)) && Bytes(Digits(bytes)) == bytes
    ensures |Digits(bytes)| == (if |bytes| == 0 then 0 else |bytes| + 1)
  {
    if |bytes| == 1 {
      OneByteDecode(bytes[0]);
      assert bytes == [bytes[0]];
    } else if |bytes| == 2 {
      TwoBytesDecode(bytes[0], bytes[1]);
      assert bytes == [bytes[0], bytes[1]];
    }
  }

  lemma FourCharsDecode(v0: int, v1: int, v2: int, v3: int, rest: string)
    requires 0 <= v0 < 64 && 0 <= v1 < 64 && 0 <= v2 < 64 && 0 <= v3 < 64 && AllInAlphabet(rest)
    ensures var s := [Char(v0), Char(v1), Char(v2), Char(v3)] + rest;
            AllInAlphabet(s)
            && Bytes(s) == [v0 * 4 + v1 / 16, v1 % 16 * 16 + v2 / 4, v2 % 4 * 64 + v3] + Bytes(rest)
  {
    CharValue(v0);
    CharValue(v1);
    CharValue(v2);
    CharValue(v3);
    hide Char, Value, InAlphabet;
    assert ([Char(v0), Char(v1), Char(v2), Char(v3)] + rest)[4..] == rest;
  }

  lemma GroupDecode(b0: Byte, b1: Byte, b2: Byte, rest: string)
    requires AllInAlphabet(rest)
    ensures AllInAlphabet(Group(b0, b1, b2) + rest)
    ensures Bytes(Group(b0, b1, b2) + rest) == [b0, b1, b2] + Bytes(rest)
  {
    hide Bytes, AllInAlphabet, Char;
    FourCharsDecode(b0 / 4, b0 % 4 * 16 + b1 / 16, b1 % 16 * 4 + b2 / 64, b2 % 64, rest);
    SextetsRejoin(b0, b1, b2);
  }

  lemma {:induction false} DigitsLength(bytes: seq<Byte>)
    ensures |Digits(bytes)| % 4 == (if |bytes| % 3 == 0 then 0 else |bytes| % 3 + 1)
    decreases |bytes|
  {
    hide Group;
    if |bytes| >= 3 {
      DigitsLength(bytes[3..]);
      assert |bytes| % 3 == |bytes[3..]| % 3;
    }
  }

  lemma {:induction false} DigitsDecode(bytes: seq<Byte>)
    ensures AllInAlphabet(Digits(bytes)) && Bytes(Digits(bytes)) == bytes
    decreases |bytes|
  {
    if |bytes| < 3 {
      ShortDigitsDecode(bytes);
    } else {
      hide Char, Value, Bytes, Group;
      var rest := bytes[3..];
      DigitsDecode(rest);
      GroupDecode(bytes[0], bytes[1], bytes[2], Digits(rest));
      assert Digits(bytes) == Group(bytes[0], bytes[1], bytes[2]) + Digits(rest);
      assert bytes == [bytes[0], bytes[1], bytes[2]] + rest;
    }
  }

  lemma {:induction false} RemovePaddingAppend(a: string, b: string)
    ensures RemovePadding(a + b) == RemovePadding(a) + RemovePadding(b)
  {
    if a == "" {
      assert a + b == b;
    } else {
      assert (a + b)[1..] == a[1..] + b;
      RemovePaddingAppend(a[1..], b);
    }
  }

  lemma {:induction false} NothingToRemove(s: string)
    requires forall i :: 0 <= i < |s| ==> s[i] != '='
    ensures RemovePadding(s) == s
  {
    if s != "" {
      NothingToRemove(s[1..]);
    }
  }

  lemma {:induction false} NoSpacesToRemove(s: string)
    requires forall i :: 0 <= i < |s| ==> !IsAsciiSpace(s[i])
    ensures RemoveSpaces(s) == s
  {
    if s != "" {
      NoSpacesToRemove(s[1..]);
    }
  }

  lemma MapAppend(a: string, b: string, f: char -> char)
    ensures Map(a + b, f) == Map(a, f) + Map(b, f)
  {
  }

  lemma EncodeIsDigits(bytes: seq<Byte>)
    ensures Encode(bytes) == Map(Digits(bytes), ToUrl)
  {
    var pad := if |bytes| % 3 == 0 then "" else if |bytes| % 3 == 1 then "==" else "=";
    DigitsDecode(bytes);
    hide Digits;
    var d := Map(Digits(bytes), ToUrl);
    assert forall i :: 0 <= i < |d| ==> d[i] != '=';
    NothingToRemove(d);
    hide InAlphabet;
    MapAppend(Digits(bytes), pad, ToUrl);
    PaddingDisappears(pad);
    RemovePaddingAppend(d, pad);
  }

  lemma PaddingDisappears(pad: string)
    requires pad == "" || pad == "=" || pad == "=="
    ensures Map(pad, ToUrl) == pad && RemovePadding(pad) == ""
  {
    assert "=="[1..] == "=" && "="[1..] == "";
  }

  lemma UnpadPad(s: string)
    requires |s| % 4 != 1 && forall i :: 0 <= i < |s| ==> s[i] != '='
    ensures Unpad(Pad(s)) == s
  {
    var p := Pad(s);
    if |s| % 4 == 0 {
      assert p == s;
    } else if |s| % 4 == 2 {
      assert |p| % 4 == 0 && p[|p| - 1] == '=' && p[|p| - 2] == '=';
    } else {
      assert |p| % 4 == 0 && p[|p| - 1] == '=' && p[|p| - 2] == s[|s| - 1];
    }
  }

  /** Every byte string survives the round trip. */
  lemma DecodeEncode(bytes: seq<Byte>)
    ensures Decode(Encode(bytes)) == Some(bytes)
  {
    EncodeIsDigits(bytes);
    DigitsDecode(bytes);
    DigitsLength(bytes);
    hide Digits, Bytes, Encode;
    var d := Digits(bytes);
    assert Map(Encode(bytes), FromUrl) == d;
    assert forall i :: 0 <= i < |d| ==> d[i] != '=' && !IsAsciiSpace(d[i]);
    NoSpacesToRemove(Pad(d));
    UnpadPad(d);
  }

  /** The encoded form needs no escaping in a URL, a JSON string or a composite key. */
  lemma EncodeIsUrlSafe(bytes: seq<Byte>)
    ensures forall c <- Encode(bytes) :: 'A' <= c <= 'Z' || 'a' <= c <= 'z' || '0' <= c <= '9' || c == '-' || c == '_'
    ensures bytes != [] ==> Encode(bytes) != ""
  {
    EncodeIsDigits(bytes);
    DigitsDecode(bytes);
    var r := Encode(bytes);
    assert forall i :: 0 <= i < |r| ==> r[i] == ToUrl(Digits(bytes)[i]);
  }
}
