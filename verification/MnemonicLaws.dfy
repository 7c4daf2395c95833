/**
 The recovery phrase without bit strings: as numbers, its words are its entropy followed by the
 checksum; and what typing a phrase may vary.
 */
module MnemonicLaws {
  import opened Common
  import opened Bits
  import opened Mnemonic

  // ---------- Numbers ----------

  lemma {:induction false} ParseAppend(a: string, b: string)
    requires IsBits(a) && IsBits(b)
    ensures IsBits(a + b) && Parse(a + b) == Parse(a) * Pow2(|b|) + Parse(b)
    decreases |b|
  {
    if b == "" {
      assert a + b == a;
    } else {
      var t, d := b[..|b| - 1], b[|b| - 1];
      assert (a + b)[..|a + b| - 1] == a + t;
      ParseAppend(a, t);
      ShiftAdds(Parse(a), Pow2(|t|), Parse(t), if d == '1' then 1 else 0);
    }
  }

  lemma ShiftAdds(x: nat, p: nat, y: nat, d: nat)
    ensures 2 * (x * p + y) + d == x * (2 * p) + (2 * y + d)
  {
    assert x * (2 * p) == 2 * (x * p);
  }

  lemma {:induction false} ConcatNumber(ns: seq<nat>, width: nat)
    requires forall i :: 0 <= i < |ns| ==> ns[i] < Pow2(width)
    ensures IsBits(Concat(ns, width)) && Parse(Concat(ns, width)) == Number(ns, Pow2(width))
  {
    if ns != [] {
      var init, last := ns[..|ns| - 1], ns[|ns| - 1];
      assert init + [last] == ns;
      ConcatNumber(init, width);
      ConcatLast(init, last, width);
      ParseAppend(Concat(init, width), Fixed(last, width));
      ParseFixed(last, width);
    }
  }

  lemma {:induction false} ConcatLast(ns: seq<nat>, n: nat, width: nat)
    ensures Concat(ns + [n], width) == Concat(ns, width) + Fixed(n, width)
  {
    if ns == [] {
      assert [] + [n] == [n] && [n][1..] == [];
      assert Concat([n], width) == Fixed(n, width) + "";
    } else {
      assert (ns + [n])[1..] == ns[1..] + [n];
      ConcatLast(ns[1..], n, width);
    }
  }

  lemma TopHalf(n: Byte)
    ensures Fixed(n, 8)[..4] == Fixed(n / 16, 4) && Fixed(n, 8)[..8] == Fixed(n, 8)
  {
    assert n / 2 / 2 / 2 / 2 == n / 16;
    var f7, f6, f5 := Fixed(n / 2, 7), Fixed(n / 2 / 2, 6), Fixed(n / 2 / 2 / 2, 5);
    assert Fixed(n, 8)[..4] == f7[..4] == f6[..4] == f5[..4];
    assert f5[..4] == Fixed(n / 2 / 2 / 2 / 2, 4);
  }

  /** What the checksum bits are worth: the upper half of the hash byte for 12 words, all of it for 24. */
  lemma ChecksumNumber(e: seq<Byte>, sha: seq<Byte> -> Byte)
    requires IsEntropy(e)
    ensures Parse(Checksum(e, sha)) == if |e| == 16 then sha(e) / 16 else sha(e)
    ensures Pow2(|Checksum(e, sha)|) == if |e| == 16 then 16 else 256
  {
    TopHalf(sha(e));
    assert Pow2(4) == 16 && Pow2(8) == 256;
    if |e| == 16 {
      ParseFixed(sha(e) / 16, 4);
    } else {
      ParseFixed(sha(e), 8);
    }
  }

  /** Read as one number to the base 2048, the words are the entropy followed by the checksum. */
  lemma PhraseNumber(e: seq<Byte>, sha: seq<Byte> -> Byte)
    requires IsEntropy(e)
    ensures Number(Indices(e, sha), 2048)
         == if |e| == 16 then Number(e, 256) * 16 + sha(e) / 16 else Number(e, 256) * 256 + sha(e)
  {
    hide Number, Concat, Parse, Fixed, Chunks, Checksum;
    Pow2Values();
    IndicesShape(e, sha);
    ConcatNumber(Indices(e, sha), 11);
    ConcatNumber(e, 8);
    ParseAppend(EntropyBits(e), Checksum(e, sha));
    ChecksumNumber(e, sha);
  }

  /** The number of a phrase that validates is its entropy followed by the checksum of that entropy. */
  lemma ValidNumber(words: seq<string>, sha: seq<Byte> -> Byte, list: seq<string>)
    requires IsWordList(list) && IsValid(words, sha, list)
    ensures var e := Unpack(IndicesOf(words, list));
            Number(IndicesOf(words, list), 2048)
            == if |words| == 12 then Number(e, 256) * 16 + sha(e) / 16 else Number(e, 256) * 256 + sha(e)
  {
    hide Number, Concat, Checksum;
    var indices := IndicesOf(words, list);
    assert forall i :: 0 <= i < |words| ==> words[i] in words;
    IndicesUnpack(indices, sha);
    PhraseNumber(Unpack(indices), sha);
  }

  // ---------- Typing ----------

  /** The words of the text, in order: its maximal stretches without white space. */
  ghost predicate Spelled(s: string, words: seq<string>)
    decreases |s|
  {
    if s == "" then words == []
    else if IsJsSpace(s[0]) then Spelled(s[1..], words)
    else
      && words != []
      && exists rest :: |rest| < |s| && s == words[0] + rest && NoSpace(words[0]) && (rest == "" || IsJsSpace(rest[0]))
                        && Spelled(rest, words[1..])
  }

  ghost predicate NoSpace(w: string) {
    forall i :: 0 <= i < |w| ==> !IsJsSpace(w[i])
  }

  lemma {:induction false} SplitThroughWord(current: string, w: string, rest: string)
    requires NoSpace(w)
    ensures SplitSpaces(current, w + rest) == SplitSpaces(current + w, rest)
    decreases |w|
  {
    if w == "" {
      assert w + rest == rest && current + w == current;
    } else {
      assert (w + rest)[1..] == w[1..] + rest && current + [w[0]] + w[1..] == current + w;
      SplitThroughWord(current + [w[0]], w[1..], rest);
    }
  }

  lemma {:induction false} DropSpelled(s: string, words: seq<string>)
    ensures Spelled(DropSpaces(s), words) <==> Spelled(s, words)
    ensures TrimStart(s) == DropSpaces(s)
  {
    if s != "" && IsJsSpace(s[0]) {
      DropSpelled(s[1..], words);
    }
  }

  /** Splitting finds exactly these words, whatever white space there is. */
  lemma {:induction false} SplitFindsWords(s: string, words: seq<string>)
    requires Spelled(s, words)
    ensures NonEmpty(SplitSpaces("", s)) == words
    decreases |s|
  {
    if s == "" {
      assert NonEmpty([""]) == NonEmpty([""][1..]);
    } else if IsJsSpace(s[0]) {
      DropSpelled(s[1..], words);
      SplitFindsWords(DropSpaces(s[1..]), words);
      var parts := SplitSpaces("", DropSpaces(s[1..]));
      assert SplitSpaces("", s) == [""] + parts && ([""] + parts)[1..] == parts;
    } else {
      var rest :| |rest| < |s| && s == words[0] + rest && NoSpace(words[0]) && (rest == "" || IsJsSpace(rest[0]))
                  && Spelled(rest, words[1..]);
      SplitThroughWord("", words[0], rest);
      assert "" + words[0] == words[0] && words[0] != "";
      WordThenRest(words[0], rest, words[1..]);
      assert words == [words[0]] + words[1..];
    }
  }

  lemma WordThenRest(w: string, rest: string, words: seq<string>)
    requires w != "" && (rest == "" || IsJsSpace(rest[0])) && Spelled(rest, words)
    ensures NonEmpty(SplitSpaces(w, rest)) == [w] + words
    decreases |rest|, 1
  {
    if rest == "" {
      assert [w][1..] == [];
    } else {
      var next := DropSpaces(rest[1..]);
      DropSpelled(rest[1..], words);
      var parts := SplitSpaces("", next);
      assert SplitSpaces(w, rest) == [w] + parts && ([w] + parts)[1..] == parts;
      SplitFindsWords(next, words);
    }
  }

  /** Trimming the end takes no word away. */
  lemma {:induction false} TrimEndSpelled(s: string, words: seq<string>)
    requires Spelled(s, words)
    ensures Spelled(TrimEnd(s), words)
    decreases |s|
  {
    if s != "" && IsJsSpace(s[|s| - 1]) {
      LastSpaceSpelled(s, words);
      TrimEndSpelled(s[..|s| - 1], words);
    }
  }

  lemma {:induction false} LastSpaceSpelled(s: string, words: seq<string>)
    requires s != "" && IsJsSpace(s[|s| - 1]) && Spelled(s, words)
    ensures Spelled(s[..|s| - 1], words)
    decreases |s|
  {
    var t := s[..|s| - 1];
    if IsJsSpace(s[0]) {
      if |s| > 1 {
        assert t[1..] == s[1..][..|s| - 2];
        LastSpaceSpelled(s[1..], words);
      }
    } else {
      var rest :| |rest| < |s| && s == words[0] + rest && NoSpace(words[0]) && (rest == "" || IsJsSpace(rest[0]))
                  && Spelled(rest, words[1..]);
      assert rest != "";
      LastSpaceSpelled(rest, words[1..]);
      var r := rest[..|rest| - 1];
      assert t == words[0] + r && |r| < |t|;
    }
  }

  /**
   However a phrase is typed, in whatever case and with whatever white space, it normalises to the
   words it spells once it is in lower case.
   */
  lemma NormalizeTyped(mnemonic: string, lower: char -> string, words: seq<string>)
    requires Spelled(ToLowerCase(mnemonic, lower), words)
    ensures Normalize(mnemonic, lower) == words
  {
    var s := ToLowerCase(mnemonic, lower);
    DropSpelled(s, words);
    TrimEndSpelled(TrimStart(s), words);
    SplitFindsWords(TrimEnd(TrimStart(s)), words);
  }

  /** Every text spells some words, so that the normalised words are always those of the text. */
  lemma {:induction false} AlwaysSpelled(s: string, lower: char -> string, mnemonic: string)
    requires s == ToLowerCase(mnemonic, lower)
    ensures Spelled(s, Normalize(mnemonic, lower))
  {
    var words := SpellOut(s);
    NormalizeTyped(mnemonic, lower, words);
  }

  lemma {:induction false} SpellOut(s: string) returns (words: seq<string>)
    ensures Spelled(s, words)
    decreases |s|
  {
    if s == "" {
      words := [];
    } else if IsJsSpace(s[0]) {
      words := SpellOut(s[1..]);
    } else {
      var w, rest := FirstWord(s);
      var others := SpellOut(rest);
      words := [w] + others;
      assert words[0] == w && words[1..] == others;
    }
  }

  lemma {:induction false} FirstWord(s: string) returns (w: string, rest: string)
    requires s != "" && !IsJsSpace(s[0])
    ensures s == w + rest && |rest| < |s| && NoSpace(w) && (rest == "" || IsJsSpace(rest[0]))
    decreases |s|
  {
    if |s| == 1 || IsJsSpace(s[1]) {
      w, rest := [s[0]], s[1..];
    } else {
      w, rest := FirstWord(s[1..]);
      w := [s[0]] + w;
      assert s == [s[0]] + s[1..];
    }
  }

  /** A generated phrase validates in whatever case and with whatever white space it is typed. */
  lemma TypedPhraseValidates(
    typed: string, e: seq<Byte>, sha: seq<Byte> -> Byte, list: seq<string>, lower: char -> string)
    requires IsEntropy(e) && IsWordList(list) && Spelled(ToLowerCase(typed, lower), WordsOf(e, sha, list))
    ensures IsValid(Normalize(typed, lower), sha, list)
    ensures Unpack(IndicesOf(Normalize(typed, lower), list)) == e
  {
    NormalizeTyped(typed, lower, WordsOf(e, sha, list));
    GeneratedIsValid(e, sha, list);
  }
}
