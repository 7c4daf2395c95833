/** Small definitions shared by the models. */
module Common {

  datatype Option<+T> = None | Some(value: T)

  datatype Result<+T, +E> = Ok(value: T) | Err(error: E)

  /** `separator.join(parts)` */
  function Join(parts: seq<string>, separator: string): string {
    if parts == [] then ""
    else if |parts| == 1 then parts[0]
    else parts[0] + separator + Join(parts[1..], separator)
  }

  /** No character of the text is `c`. */
  ghost predicate Lacks(s: string, c: char) {
    forall i :: 0 <= i < |s| ==> s[i] != c
  }

  ghost predicate Parts(a: seq<string>, c: char) {
    forall i :: 0 <= i < |a| ==> a[i] != "" && Lacks(a[i], c)
  }

  lemma PartsRest(a: seq<string>, c: char)
    requires Parts(a, c) && a != []
    ensures a[0] != "" && Lacks(a[0], c) && Parts(a[1..], c)
  {
    assert forall i :: 0 <= i < |a[1..]| ==> a[1..][i] == a[i + 1];
  }

  /** A join is its first part and, if there are more, the separator and the join of the rest. */
  function Behind(parts: seq<string>, c: char): string
    requires parts != []
  {
    if |parts| == 1 then "" else [c] + Join(parts[1..], [c])
  }

  lemma JoinHead(parts: seq<string>, c: char)
    requires parts != []
    ensures Join(parts, [c]) == parts[0] + Behind(parts, c)
    ensures Behind(parts, c) == "" <==> |parts| == 1
    ensures |parts| > 1 ==> Behind(parts, c)[0] == c && Behind(parts, c)[1..] == Join(parts[1..], [c])
  {
    if |parts| == 1 {
      assert parts[0] + "" == parts[0];
    } else {
      HeadFirst(parts[0], c, Join(parts[1..], [c]));
    }
  }

  lemma HeadFirst(a: string, c: char, rest: string)
    ensures a + [c] + rest == a + ([c] + rest) && ([c] + rest)[1..] == rest
  {
  }

  lemma HeadAndRest<T>(a: seq<T>, b: seq<T>)
    requires a != [] && b != [] && a[0] == b[0] && a[1..] == b[1..]
    ensures a == b
  {
    assert a == [a[0]] + a[1..] && b == [b[0]] + b[1..];
  }

  /** Joining with a character that occurs in no part, and no part being empty, loses nothing. */
  lemma {:induction false} JoinInjective(a: seq<string>, b: seq<string>, c: char)
    requires Parts(a, c) && Parts(b, c)
    requires Join(a, [c]) == Join(b, [c])
    ensures a == b
  {
    if a == [] || b == [] {
      JoinEmpty(a, c);
      JoinEmpty(b, c);
    } else {
      hide *;
      PartsRest(a, c);
      JoinHead(a, c);
      PartsRest(b, c);
      JoinHead(b, c);
      HeadsEqual(a[0], Behind(a, c), b[0], Behind(b, c), c);
      if |a| > 1 {
        JoinInjective(a[1..], b[1..], c);
      } else {
        assert a[1..] == b[1..] == [];
      }
      HeadAndRest(a, b);
    }
  }

  lemma JoinEmpty(a: seq<string>, c: char)
    requires Parts(a, c)
    ensures Join(a, [c]) == "" <==> a == []
  {
    if a != [] {
      PartsRest(a, c);
    }
  }

  lemma HeadsEqual(a: string, x: string, b: string, y: string, c: char)
    requires Lacks(a, c) && Lacks(b, c) && a + x == b + y
    requires (x == "" || x[0] == c) && (y == "" || y[0] == c)
    ensures a == b && x == y
  {
    assert forall i :: 0 <= i < |a| ==> (a + x)[i] == a[i];
    assert forall i :: 0 <= i < |b| ==> (b + y)[i] == b[i];
    assert x != "" ==> (a + x)[|a|] == x[0];
    assert y != "" ==> (b + y)[|b|] == y[0];
    assert |a| == |b|;
    assert a == (a + x)[..|a|] && b == (b + y)[..|b|];
    assert x == (a + x)[|a|..] && y == (b + y)[|b|..];
  }

  // ---------- Numbers ----------

  /** The value of digits, the most significant first. */
  function Number(digits: seq<int>, radix: nat): int {
    if digits == [] then 0 else Number(digits[..|digits| - 1], radix) * radix + digits[|digits| - 1]
  }

  function Power(radix: nat, k: nat): nat {
    if k == 0 then 1 else radix * Power(radix, k - 1)
  }

  lemma {:induction false} NumberAppend(a: seq<int>, b: seq<int>, radix: nat)
    ensures Number(a + b, radix) == Number(a, radix) * Power(radix, |b|) + Number(b, radix)
    decreases |b|
  {
    if b == [] {
      assert a + b == a;
    } else {
      var t := b[..|b| - 1];
      assert (a + b)[..|a + b| - 1] == a + t;
      NumberAppend(a, t, radix);
      ShiftNumber(Number(a, radix), Power(radix, |t|), Number(t, radix), radix, b[|b| - 1]);
    }
  }

  lemma ShiftNumber(x: int, p: nat, y: int, radix: nat, d: int)
    ensures (x * p + y) * radix + d == x * (radix * p) + (y * radix + d)
  {
    assert (x * p) * radix == x * (radix * p);
  }
}
