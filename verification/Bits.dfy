/**
 Numbers as strings of binary digits, cut into groups of equal width.
 */
module Bits {

  function Pow2(k: nat): (p: nat)
    ensures p >= 1
  {
    if k == 0 then 1 else 2 * Pow2(k - 1)
  }

  predicate IsBits(s: string) {
    forall i :: 0 <= i < |s| ==> s[i] == '0' || s[i] == '1'
  }

  function Digit(d: int): char
    requires 0 <= d < 2
  {
    if d == 0 then '0' else '1'
  }

  /** `n.toString(2)` */
  function Binary(n: nat): string {
    if n < 2 then [Digit(n)] else Binary(n / 2) + [Digit(n % 2)]
  }

  function Zeros(k: nat): string {
    if k == 0 then "" else "0" + Zeros(k - 1)
  }

  /** `s.padStart(width, '0')` */
  function PadStart(s: string, width: nat): string {
    if |s| >= width then s else Zeros(width - |s|) + s
  }

  /** `parseInt(s, 2)` */
  function Parse(s: string): nat
    requires IsBits(s)
  {
    if s == "" then 0 else 2 * Parse(s[..|s| - 1]) + (if s[|s| - 1] == '1' then 1 else 0)
  }

  /** The last `width` binary digits of `n`. */
  function Fixed(n: nat, width: nat): (s: string)
    ensures |s| == width && IsBits(s)
  {
    if width == 0 then "" else Fixed(n / 2, width - 1) + [Digit(n % 2)]
  }

  lemma {:induction false} ZerosAppend(k: nat)
    ensures Zeros(k) + "0" == Zeros(k + 1)
  {
    if k > 0 {
      ZerosAppend(k - 1);
      assert Zeros(k) + "0" == "0" + (Zeros(k - 1) + "0");
    } else {
      assert Zeros(1) == "0" + "";
    }
  }

  lemma {:induction false} FixedZero(width: nat)
    ensures Fixed(0, width) == Zeros(width)
  {
    if width > 0 {
      FixedZero(width - 1);
      ZerosAppend(width - 1);
    }
  }

  /** Printing and padding give exactly the fixed-width form. */
  lemma {:induction false} PadBinary(n: nat, width: nat)
    requires n < Pow2(width) && width >= 1
    ensures PadStart(Binary(n), width) == Fixed(n, width)
    ensures |Binary(n)| <= width
    decreases width
  {
    if n < 2 {
      FixedZero(width - 1);
      assert Fixed(n, width) == Zeros(width - 1) + [Digit(n)];
      if width == 1 {
        assert Zeros(0) + [Digit(n)] == [Digit(n)];
      }
    } else {
      assert width >= 2 by { assert Pow2(1) == 2; }
      PadBinary(n / 2, width - 1);
      var half := Binary(n / 2);
      if |half| < width - 1 {
        assert Zeros(width - 1 - |half|) + half + [Digit(n % 2)] == Zeros(width - 1 - |half|) + (half + [Digit(n % 2)]);
      }
    }
  }

  lemma {:induction false} ParseFixed(n: nat, width: nat)
    requires n < Pow2(width)
    ensures Parse(Fixed(n, width)) == n
  {
    if width > 0 {
      var s := Fixed(n, width);
      assert s[..|s| - 1] == Fixed(n / 2, width - 1);
      ParseFixed(n / 2, width - 1);
    }
  }

  lemma {:induction false} FixedParse(s: string)
    requires IsBits(s)
    ensures Parse(s) < Pow2(|s|) && Fixed(Parse(s), |s|) == s
    decreases |s|
  {
    if s != "" {
      var t := s[..|s| - 1];
      FixedParse(t);
      assert Parse(s) / 2 == Parse(t);
      assert s == t + [s[|s| - 1]];
    }
  }

  // ---------- Groups ----------

  /** The groups of `width` bits, as numbers. */
  function Chunks(bits: string, width: nat): seq<nat>
    requires width >= 1 && IsBits(bits)
  {
    if |bits| < width then [] else [Parse(bits[..width])] + Chunks(bits[width..], width)
  }

  function Concat(values: seq<nat>, width: nat): (bits: string)
    ensures |bits| == |values| * width && IsBits(bits)
  {
    if values == [] then "" else Fixed(values[0], width) + Concat(values[1..], width)
  }

  lemma {:induction false} ChunksConcat(values: seq<nat>, width: nat)
    requires width >= 1 && forall i :: 0 <= i < |values| ==> values[i] < Pow2(width)
    ensures Chunks(Concat(values, width), width) == values
  {
    if values != [] {
      var bits := Concat(values, width);
      ParseFixed(values[0], width);
      ChunksConcat(values[1..], width);
      assert bits[..width] == Fixed(values[0], width) && bits[width..] == Concat(values[1..], width);
    }
  }

  lemma MulStep(k: nat, width: nat)
    requires k > 0
    ensures k * width == width + (k - 1) * width
  {
  }

  lemma {:induction false} ConcatChunks(bits: string, width: nat, k: nat)
    requires width >= 1 && IsBits(bits) && |bits| == k * width
    ensures |Chunks(bits, width)| == k && Concat(Chunks(bits, width), width) == bits
    ensures forall i :: 0 <= i < k ==> Chunks(bits, width)[i] < Pow2(width)
    decreases k
  {
    if k > 0 {
      MulStep(k, width);
      var head, rest := bits[..width], bits[width..];
      assert |rest| == (k - 1) * width;
      hide Parse, Fixed, Pow2;
      FixedParse(head);
      ConcatChunks(rest, width, k - 1);
      assert Chunks(bits, width) == [Parse(head)] + Chunks(rest, width);
      assert Chunks(bits, width)[1..] == Chunks(rest, width);
      assert bits == head + rest;
    }
  }

  lemma {:induction false} ConcatAppend(a: seq<nat>, b: seq<nat>, width: nat)
    ensures Concat(a + b, width) == Concat(a, width) + Concat(b, width)
  {
    if a == [] {
      assert a + b == b;
    } else {
      assert (a + b)[1..] == a[1..] + b;
      ConcatAppend(a[1..], b, width);
    }
  }

  /** Printing one more number appends its padded binary form. */
  lemma AppendGroup(values: seq<nat>, i: nat, width: nat)
    requires i < |values| && width >= 1 && values[i] < Pow2(width)
    ensures Concat(values[..i + 1], width) == Concat(values[..i], width) + PadStart(Binary(values[i]), width)
  {
    PadBinary(values[i], width);
    assert values[..i + 1] == values[..i] + [values[i]];
    ConcatAppend(values[..i], [values[i]], width);
    assert Concat([values[i]], width) == Fixed(values[i], width) + "" by {
      hide Fixed;
      assert [values[i]][1..] == [];
    }
  }

  lemma Pow2Values()
    ensures Pow2(8) == 256 && Pow2(11) == 2048
  {
  }

  /** Group `i` is found where `slice(i * width, (i + 1) * width)` cuts. */
  lemma {:induction false} ChunkAt(bits: string, width: nat, k: nat, i: nat)
    requires width >= 1 && IsBits(bits) && |bits| == k * width && i < k
    ensures i * width + width <= |bits|
    ensures i < |Chunks(bits, width)| && Chunks(bits, width)[i] == Parse(bits[i * width..i * width + width])
    decreases k
  {
    MulStep(k, width);
    hide Parse;
    if i == 0 {
      assert bits[0..width] == bits[..width];
    } else {
      MulStep(i, width);
      var rest, from := bits[width..], (i - 1) * width;
      ChunkAt(rest, width, k - 1, i - 1);
      assert rest[from..from + width] == bits[i * width..i * width + width];
      assert Chunks(bits, width)[i] == Chunks(rest, width)[i - 1];
    }
  }
}
