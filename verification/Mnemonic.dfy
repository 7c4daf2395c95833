/**
 The recovery phrase of static/mnemonic.js (BIP-39, "Generating the mnemonic").

 `sha` stands for the first byte of SHA-256, `lower` for the lower-case mapping of one character and
 `list` for the word list; entropy is a parameter in place of the random source.
 */
module Mnemonic {
  import opened Common
  import opened Bits

  type Byte = b: nat | b < 256

  predicate IsWord(w: string) {
    w != "" && forall i :: 0 <= i < |w| ==> 'a' <= w[i] <= 'z'
  }

  ghost predicate IsWordList(list: seq<string>) {
    && |list| == 2048
    && (forall i :: 0 <= i < |list| ==> IsWord(list[i]))
    && (forall i, j :: 0 <= i < j < |list| ==> list[i] != list[j])
  }

  /** Lower-casing leaves lower-case letters and the blank alone. */
  ghost predicate IsLowerCasing(lower: char -> string) {
    forall c :: 'a' <= c <= 'z' || c == ' ' ==> lower(c) == [c]
  }

  // ---------- From entropy to words ----------

  function EntropyBits(entropy: seq<Byte>): (bits: string)
    ensures |bits| == |entropy| * 8 && IsBits(bits)
  {
    Concat(entropy, 8)
  }

  function Checksum(entropy: seq<Byte>, sha: seq<Byte> -> Byte): (bits: string)
    requires |entropy| <= 32
    ensures |bits| == |entropy| / 4 && IsBits(bits)
  {
    Fixed(sha(entropy), 8)[..|entropy| / 4]
  }

  function AllBits(entropy: seq<Byte>, sha: seq<Byte> -> Byte): (bits: string)
    requires |entropy| <= 32
    ensures IsBits(bits)
  {
    EntropyBits(entropy) + Checksum(entropy, sha)
  }

  predicate IsEntropy(entropy: seq<Byte>) {
    |entropy| == 16 || |entropy| == 32
  }

  function Indices(entropy: seq<Byte>, sha: seq<Byte> -> Byte): seq<nat>
    requires IsEntropy(entropy)
  {
    Chunks(AllBits(entropy, sha), 11)
  }

  ghost function WordsAt(indices: seq<nat>, list: seq<string>): seq<string>
    requires forall i :: 0 <= i < |indices| ==> indices[i] < |list|
  {
    seq(|indices|, i requires 0 <= i < |indices| => list[indices[i]])
  }

  lemma IndicesShape(entropy: seq<Byte>, sha: seq<Byte> -> Byte)
    requires IsEntropy(entropy)
    ensures |AllBits(entropy, sha)| == |entropy| / 4 * 3 * 11
    ensures |Indices(entropy, sha)| == |entropy| / 4 * 3
    ensures forall i :: 0 <= i < |Indices(entropy, sha)| ==> Indices(entropy, sha)[i] < 2048
    ensures Concat(Indices(entropy, sha), 11) == AllBits(entropy, sha)
  {
    ConcatChunks(AllBits(entropy, sha), 11, |entropy| / 4 * 3);
    assert Pow2(11) == 2048;
  }

  ghost function WordsOf(entropy: seq<Byte>, sha: seq<Byte> -> Byte, list: seq<string>): seq<string>
    requires IsEntropy(entropy) && |list| == 2048
  {
    IndicesShape(entropy, sha);
    WordsAt(Indices(entropy, sha), list)
  }

  /** The phrase belonging to an entropy. */
  ghost function Phrase(entropy: seq<Byte>, sha: seq<Byte> -> Byte, list: seq<string>): string
    requires IsEntropy(entropy) && |list| == 2048
  {
    Join(WordsOf(entropy, sha, list), " ")
  }

  /** The word that a slice of the bit string selects. */
  lemma WordAt(entropy: seq<Byte>, sha: seq<Byte> -> Byte, list: seq<string>, i: nat)
    requires IsEntropy(entropy) && |list| == 2048 && i < |entropy| / 4 * 3
    ensures (i + 1) * 11 <= |AllBits(entropy, sha)|
    ensures Parse(AllBits(entropy, sha)[i * 11..(i + 1) * 11]) < 2048
    ensures |WordsOf(entropy, sha, list)| == |entropy| / 4 * 3
    ensures WordsOf(entropy, sha, list)[i] == list[Parse(AllBits(entropy, sha)[i * 11..(i + 1) * 11])]
  {
    IndicesShape(entropy, sha);
    ChunkAt(AllBits(entropy, sha), 11, |entropy| / 4 * 3, i);
    assert (i + 1) * 11 == i * 11 + 11;
  }

  method GenerateMnemonic(wordCount: int, entropy: seq<Byte>, sha: seq<Byte> -> Byte, list: seq<string>)
    returns (phrase: string)
    requires |entropy| == (if wordCount == 24 then 32 else 16) && |list| == 2048
    ensures phrase == Phrase(entropy, sha, list)
  {
    hide Parse, Fixed, Pow2, Binary, PadStart, Chunks, Concat, WordsOf;
    Pow2Values();
    var wordsCount := if wordCount == 24 then 24 else 12;
    var checksumBitsLength := |entropy| * 8 / 32;
    var bits := "";
    assert entropy[..0] == [] && Concat([], 8) == "";
    for i := 0 to |entropy|
      invariant bits == Concat(entropy[..i], 8)
    {
      AppendGroup(entropy, i, 8);
      bits := bits + PadStart(Binary(entropy[i]), 8);
    }
    assert entropy[..|entropy|] == entropy;
    PadBinary(sha(entropy), 8);
    bits := bits + PadStart(Binary(sha(entropy)), 8)[..checksumBitsLength];
    assert bits == AllBits(entropy, sha);

    ghost var all := WordsOf(entropy, sha, list);
    WordAt(entropy, sha, list, 0);
    var words := [];
    for i := 0 to wordsCount
      invariant words == all[..i]
    {
      WordAt(entropy, sha, list, i);
      var index := Parse(bits[i * 11..(i + 1) * 11]);
      words := words + [list[index]];
    }
    assert all[..wordsCount] == all;
    phrase := Join(words, " ");
  }

  // ---------- Normalisation ----------

  /** `\s` of a JavaScript regular expression, which is also what `trim` removes. */
  predicate IsJsSpace(c: char) {
    var u := c as int;
    || 0x09 <= u <= 0x0D || u == 0x20 || u == 0xA0 || u == 0x1680 || 0x2000 <= u <= 0x200A
    || u == 0x2028 || u == 0x2029 || u == 0x202F || u == 0x205F || u == 0x3000 || u == 0xFEFF
  }

  function ToLowerCase(s: string, lower: char -> string): string {
    if s == "" then "" else lower(s[0]) + ToLowerCase(s[1..], lower)
  }

  function TrimStart(s: string): string {
    if s != "" && IsJsSpace(s[0]) then TrimStart(s[1..]) else s
  }

  function TrimEnd(s: string): string {
    if s != "" && IsJsSpace(s[|s| - 1]) then TrimEnd(s[..|s| - 1]) else s
  }

  /** `s.split(/\s+/)`, with the text since the last separator in `current`. */
  function SplitSpaces(current: string, s: string): seq<string>
    decreases |s|
  {
    if s == "" then [current]
    else if IsJsSpace(s[0]) then [current] + SplitSpaces("", DropSpaces(s[1..]))
    else SplitSpaces(current + [s[0]], s[1..])
  }

  function DropSpaces(s: string): (r: string)
    ensures |r| <= |s|
  {
    if s != "" && IsJsSpace(s[0]) then DropSpaces(s[1..]) else s
  }

  function NonEmpty(parts: seq<string>): seq<string> {
    if parts == [] then [] else (if parts[0] == "" then [] else [parts[0]]) + NonEmpty(parts[1..])
  }

  function Normalize(mnemonic: string, lower: char -> string): seq<string> {
    NonEmpty(SplitSpaces("", TrimEnd(TrimStart(ToLowerCase(mnemonic, lower)))))
  }

  // ---------- From words to entropy ----------

  /** `list.indexOf(word)`, where `|list|` stands for -1. */
  function IndexOf(list: seq<string>, word: string): (i: nat)
    ensures i <= |list| && (i < |list| ==> list[i] == word)
    ensures forall j :: 0 <= j < i ==> list[j] != word
  {
    if list == [] || list[0] == word then 0 else 1 + IndexOf(list[1..], word)
  }

  function IndicesOf(words: seq<string>, list: seq<string>): (r: seq<nat>)
    ensures |r| == |words| && forall i :: 0 <= i < |r| ==> r[i] == IndexOf(list, words[i])
  {
    if words == [] then [] else [IndexOf(list, words[0])] + IndicesOf(words[1..], list)
  }

  function EntropyLength(words: nat): nat {
    if words == 24 then 32 else 16
  }

  /** The entropy packed into 12 or 24 indices. */
  function Unpack(indices: seq<nat>): (e: seq<Byte>)
    requires |indices| == 12 || |indices| == 24
    ensures |e| == EntropyLength(|indices|)
  {
    var bits := Concat(indices, 11);
    var n := EntropyLength(|indices|);
    ConcatChunks(bits[..n * 8], 8, n);
    assert Pow2(8) == 256;
    Chunks(bits[..n * 8], 8)
  }

  ghost predicate IsValid(words: seq<string>, sha: seq<Byte> -> Byte, list: seq<string>) {
    && (|words| == 12 || |words| == 24)
    && (forall w <- words :: IndexOf(list, w) < |list|)
    && var indices := IndicesOf(words, list);
       var entropy := Unpack(indices);
       Concat(indices, 11)[|entropy| * 8..] == Checksum(entropy, sha)
  }

  /** The entropy byte that a slice of the bit string holds. */
  lemma ByteAt(indices: seq<nat>, i: nat)
    requires (|indices| == 12 || |indices| == 24) && i < EntropyLength(|indices|)
    ensures (i + 1) * 8 <= EntropyLength(|indices|) * 8 <= |Concat(indices, 11)|
    ensures Parse(Concat(indices, 11)[..EntropyLength(|indices|) * 8][i * 8..(i + 1) * 8]) == Unpack(indices)[i]
  {
    var n := EntropyLength(|indices|);
    ChunkAt(Concat(indices, 11)[..n * 8], 8, n, i);
    assert (i + 1) * 8 == i * 8 + 8;
  }

  method ValidateMnemonic(mnemonic: string, sha: seq<Byte> -> Byte, list: seq<string>, lower: char -> string)
    returns (valid: bool)
    requires |list| == 2048
    ensures valid == IsValid(Normalize(mnemonic, lower), sha, list)
  {
    hide Parse, Fixed, Pow2, Binary, PadStart, Chunks, Concat, Unpack, Normalize;
    Pow2Values();
    var words := Normalize(mnemonic, lower);
    if |words| != 12 && |words| != 24 {
      return false;
    }
    ghost var indices := IndicesOf(words, list);
    var bits := "";
    assert indices[..0] == [] && Concat([], 11) == "";
    for i := 0 to |words|
      invariant bits == Concat(indices[..i], 11)
      invariant forall j :: 0 <= j < i ==> IndexOf(list, words[j]) < |list|
    {
      var index := IndexOf(list, words[i]);
      if index == |list| {
        assert words[i] in words;
        return false;
      }
      AppendGroup(indices, i, 11);
      bits := bits + PadStart(Binary(index), 11);
    }
    assert indices[..|words|] == indices;

    var entropyBitsLength := if |words| == 24 then 256 else 128;
    var entropyBytes := entropyBitsLength / 8;
    var checksumBitsLength := entropyBitsLength / 32;
    var entropyBits := bits[..entropyBitsLength];
    var checksumBits := bits[entropyBitsLength..];
    var entropy: seq<Byte> := [];
    for i := 0 to entropyBytes
      invariant entropy == Unpack(indices)[..i]
    {
      ByteAt(indices, i);
      assert IsBits(entropyBits) && IsBits(entropyBits[i * 8..(i + 1) * 8]);
      entropy := entropy + [Parse(entropyBits[i * 8..(i + 1) * 8])];
    }
    assert Unpack(indices)[..entropyBytes] == Unpack(indices);
    PadBinary(sha(entropy), 8);
    var actualChecksum := PadStart(Binary(sha(entropy)), 8)[..checksumBitsLength];
    valid := actualChecksum == checksumBits;
  }

  // ---------- The bijection ----------

  lemma IndexOfAt(list: seq<string>, i: nat)
    requires i < |list| && forall j, k :: 0 <= j < k < |list| ==> list[j] != list[k]
    ensures IndexOf(list, list[i]) == i
  {
  }

  lemma IndicesRoundTrip(indices: seq<nat>, list: seq<string>)
    requires IsWordList(list) && forall i :: 0 <= i < |indices| ==> indices[i] < 2048
    ensures IndicesOf(WordsAt(indices, list), list) == indices
  {
    forall i | 0 <= i < |indices|
      ensures IndexOf(list, list[indices[i]]) == indices[i]
    {
      IndexOfAt(list, indices[i]);
    }
  }

  lemma WordsRoundTrip(words: seq<string>, list: seq<string>)
    requires forall w <- words :: IndexOf(list, w) < |list|
    ensures forall i :: 0 <= i < |words| ==> IndicesOf(words, list)[i] < |list|
    ensures WordsAt(IndicesOf(words, list), list) == words
  {
  }

  /** Cutting the bits of an entropy into word indices and unpacking them recovers the entropy. */
  lemma UnpackIndices(entropy: seq<Byte>, sha: seq<Byte> -> Byte)
    requires IsEntropy(entropy)
    ensures |Indices(entropy, sha)| == |entropy| / 4 * 3
    ensures Unpack(Indices(entropy, sha)) == entropy
    ensures Concat(Indices(entropy, sha), 11)[|entropy| * 8..] == Checksum(entropy, sha)
  {
    IndicesShape(entropy, sha);
    var bits := AllBits(entropy, sha);
    assert bits[..|entropy| * 8] == EntropyBits(entropy);
    Pow2Values();
    ChunksConcat(entropy, 8);
  }

  /** Indices with a fitting checksum are those of the entropy they hold. */
  lemma IndicesUnpack(indices: seq<nat>, sha: seq<Byte> -> Byte)
    requires (|indices| == 12 || |indices| == 24) && forall i :: 0 <= i < |indices| ==> indices[i] < 2048
    requires Concat(indices, 11)[|Unpack(indices)| * 8..] == Checksum(Unpack(indices), sha)
    ensures Indices(Unpack(indices), sha) == indices
  {
    var bits, n := Concat(indices, 11), EntropyLength(|indices|);
    ConcatChunks(bits[..n * 8], 8, n);
    assert EntropyBits(Unpack(indices)) == bits[..n * 8];
    assert AllBits(Unpack(indices), sha) == bits[..n * 8] + bits[n * 8..] == bits;
    Pow2Values();
    ChunksConcat(indices, 11);
  }

  /** Valid word sequences are exactly those generated from some entropy. */
  lemma ValidIffGenerated(words: seq<string>, sha: seq<Byte> -> Byte, list: seq<string>)
    requires IsWordList(list)
    ensures IsValid(words, sha, list) <==> exists e :: IsEntropy(e) && words == WordsOf(e, sha, list)
    ensures IsValid(words, sha, list) ==> words == WordsOf(Unpack(IndicesOf(words, list)), sha, list)
  {
    if IsValid(words, sha, list) {
      var indices := IndicesOf(words, list);
      assert forall i :: 0 <= i < |words| ==> words[i] in words;
      IndicesUnpack(indices, sha);
      WordsRoundTrip(words, list);
      var e := Unpack(indices);
      assert IsEntropy(e) && words == WordsOf(e, sha, list);
    }
    forall e | IsEntropy(e) && words == WordsOf(e, sha, list)
      ensures IsValid(words, sha, list)
    {
      GeneratedIsValid(e, sha, list);
    }
  }

  lemma GeneratedIsValid(e: seq<Byte>, sha: seq<Byte> -> Byte, list: seq<string>)
    requires IsEntropy(e) && IsWordList(list)
    ensures IsValid(WordsOf(e, sha, list), sha, list)
    ensures Unpack(IndicesOf(WordsOf(e, sha, list), list)) == e
  {
    IndicesShape(e, sha);
    IndicesRoundTrip(Indices(e, sha), list);
    UnpackIndices(e, sha);
    hide Indices, Unpack, Concat, Checksum;
    var words := WordsOf(e, sha, list);
    forall w | w in words
      ensures IndexOf(list, w) < |list|
    {
      var i :| 0 <= i < |words| && words[i] == w;
      assert IndexOf(list, words[i]) == IndicesOf(words, list)[i];
    }
  }

  // ---------- Normalising a phrase ----------

  lemma {:induction false} LowerFixed(s: string, lower: char -> string)
    requires IsLowerCasing(lower) && forall i :: 0 <= i < |s| ==> 'a' <= s[i] <= 'z' || s[i] == ' '
    ensures ToLowerCase(s, lower) == s
  {
    if s != "" {
      assert 'a' <= s[0] <= 'z' || s[0] == ' ';
      LowerFixed(s[1..], lower);
    }
  }

  lemma {:induction false} SplitWord(current: string, w: string, rest: string)
    requires forall i :: 0 <= i < |w| ==> 'a' <= w[i] <= 'z'
    ensures SplitSpaces(current, w + rest) == SplitSpaces(current + w, rest)
    decreases |w|
  {
    if w == "" {
      assert w + rest == rest && current + w == current;
    } else {
      assert (w + rest)[1..] == w[1..] + rest;
      assert current + [w[0]] + w[1..] == current + w;
      SplitWord(current + [w[0]], w[1..], rest);
    }
  }

  lemma {:induction false} SplitJoin(words: seq<string>)
    requires words != [] && forall i :: 0 <= i < |words| ==> IsWord(words[i])
    ensures SplitSpaces("", Join(words, " ")) == words
    ensures NonEmpty(words) == words
  {
    var tail := if |words| == 1 then "" else " " + Join(words[1..], " ");
    assert Join(words, " ") == words[0] + tail;
    SplitWord("", words[0], tail);
    assert "" + words[0] == words[0];
    if |words| > 1 {
      var rest := Join(words[1..], " ");
      assert tail[1..] == rest;
      assert IsWord(words[1]) && rest[0] == words[1][0];
      assert DropSpaces(rest) == rest;
      SplitJoin(words[1..]);
    } else {
      assert words == [words[0]] && NonEmpty(words[1..]) == [];
    }
  }

  lemma {:induction false} JoinedText(words: seq<string>)
    requires words != [] && forall i :: 0 <= i < |words| ==> IsWord(words[i])
    ensures var s := Join(words, " ");
            && s != "" && 'a' <= s[0] <= 'z' && 'a' <= s[|s| - 1] <= 'z'
            && forall i :: 0 <= i < |s| ==> 'a' <= s[i] <= 'z' || s[i] == ' '
  {
    assert IsWord(words[0]);
    if |words| > 1 {
      JoinedText(words[1..]);
      assert Join(words, " ") == words[0] + " " + Join(words[1..], " ");
    }
  }

  lemma NothingToTrim(s: string)
    requires s != "" && 'a' <= s[0] <= 'z' && 'a' <= s[|s| - 1] <= 'z'
    ensures TrimEnd(TrimStart(s)) == s
  {
  }

  lemma NormalizeJoined(words: seq<string>, lower: char -> string)
    requires words != [] && (forall i :: 0 <= i < |words| ==> IsWord(words[i])) && IsLowerCasing(lower)
    ensures Normalize(Join(words, " "), lower) == words
  {
    hide Join, SplitSpaces, NonEmpty, TrimStart, TrimEnd, ToLowerCase, IsWord;
    JoinedText(words);
    SplitJoin(words);
    LowerFixed(Join(words, " "), lower);
    NothingToTrim(Join(words, " "));
  }

  // ---------- Main results ----------

  /** Every generated phrase validates, and the entropy can be read back from it. */
  lemma GeneratedPhraseValidates(e: seq<Byte>, sha: seq<Byte> -> Byte, list: seq<string>, lower: char -> string)
    requires IsEntropy(e) && IsWordList(list) && IsLowerCasing(lower)
    ensures Normalize(Phrase(e, sha, list), lower) == WordsOf(e, sha, list)
    ensures IsValid(Normalize(Phrase(e, sha, list), lower), sha, list)
    ensures Unpack(IndicesOf(Normalize(Phrase(e, sha, list), lower), list)) == e
  {
    IndicesShape(e, sha);
    var words := WordsOf(e, sha, list);
    assert |words| > 0;
    assert forall i :: 0 <= i < |words| ==> IsWord(words[i]);
    NormalizeJoined(words, lower);
    GeneratedIsValid(e, sha, list);
  }

  /** Every phrase that validates is, once normalised, the phrase of the entropy it unpacks to. */
  lemma ValidatingPhraseIsGenerated(mnemonic: string, sha: seq<Byte> -> Byte, list: seq<string>, lower: char -> string)
    requires IsWordList(list) && IsValid(Normalize(mnemonic, lower), sha, list)
    ensures Join(Normalize(mnemonic, lower), " ")
         == Phrase(Unpack(IndicesOf(Normalize(mnemonic, lower), list)), sha, list)
  {
    ValidIffGenerated(Normalize(mnemonic, lower), sha, list);
  }
}
