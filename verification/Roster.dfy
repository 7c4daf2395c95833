/**
 The canonical text of a group roster (static/mls-client.js): the identity keys, sorted and joined.
 */
module Roster {
  import opened Common

  // ---------- Order of strings ----------

  /** JavaScript's default order: by code units, a prefix before its extensions. */
  predicate LessEq(a: string, b: string) {
    a == "" || (b != "" && (a[0] < b[0] || (a[0] == b[0] && LessEq(a[1..], b[1..]))))
  }

  lemma {:induction false} Total(a: string, b: string)
    ensures LessEq(a, b) || LessEq(b, a)
  {
    if a != "" && b != "" && a[0] == b[0] {
      Total(a[1..], b[1..]);
    }
  }

  lemma {:induction false} Antisymmetric(a: string, b: string)
    requires LessEq(a, b) && LessEq(b, a)
    ensures a == b
  {
    if a != "" {
      Antisymmetric(a[1..], b[1..]);
      assert a == [a[0]] + a[1..] && b == [b[0]] + b[1..];
    }
  }

  lemma {:induction false} Transitive(a: string, b: string, c: string)
    requires LessEq(a, b) && LessEq(b, c)
    ensures LessEq(a, c)
  {
    if a != "" && a[0] == b[0] == c[0] {
      Transitive(a[1..], b[1..], c[1..]);
    }
  }

  // ---------- Sorting ----------

  function Insert(x: string, s: seq<string>): seq<string> {
    if s == [] || LessEq(x, s[0]) then [x] + s else [s[0]] + Insert(x, s[1..])
  }

  /** `[...keys].sort()` */
  function Sort(s: seq<string>): seq<string> {
    if s == [] then [] else Insert(s[0], Sort(s[1..]))
  }

  predicate Sorted(s: seq<string>) {
    |s| <= 1 || (LessEq(s[0], s[1]) && Sorted(s[1..]))
  }

  lemma {:induction false} InsertSorted(x: string, s: seq<string>)
    requires Sorted(s)
    ensures Sorted(Insert(x, s)) && multiset(Insert(x, s)) == multiset(s) + multiset{x}
  {
    if s == [] {
    } else if LessEq(x, s[0]) {
      assert ([x] + s)[1..] == s;
    } else {
      Total(x, s[0]);
      InsertSorted(x, s[1..]);
      hide LessEq;
      assert s == [s[0]] + s[1..];
      assert Insert(x, s)[1..] == Insert(x, s[1..]);
    }
  }

  lemma {:induction false} SortCorrect(s: seq<string>)
    ensures Sorted(Sort(s)) && multiset(Sort(s)) == multiset(s)
  {
    if s == [] {
      assert Sorted(Sort(s));
    } else {
      hide Insert, Sorted;
      SortCorrect(s[1..]);
      InsertSorted(s[0], Sort(s[1..]));
      assert s == [s[0]] + s[1..];
    }
  }

  lemma {:induction false} HeadIsLeast(s: seq<string>, x: string)
    requires Sorted(s) && x in s
    ensures LessEq(s[0], x)
  {
    if x == s[0] {
      Total(x, x);
    } else {
      assert x in s[1..];
      HeadIsLeast(s[1..], x);
      Transitive(s[0], s[1], x);
    }
  }

  lemma {:induction false} SortedUnique(a: seq<string>, b: seq<string>)
    requires Sorted(a) && Sorted(b) && multiset(a) == multiset(b)
    ensures a == b
  {
    assert |multiset(a)| == |a| && |multiset(b)| == |b|;
    if a != [] {
      assert a[0] in multiset(b) && b[0] in multiset(a);
      HeadIsLeast(a, b[0]);
      HeadIsLeast(b, a[0]);
      Antisymmetric(a[0], b[0]);
      assert a == [a[0]] + a[1..] && b == [b[0]] + b[1..];
      assert multiset(a[1..]) == multiset(a) - multiset{a[0]};
      assert multiset(b[1..]) == multiset(b) - multiset{b[0]};
      SortedUnique(a[1..], b[1..]);
    }
  }

  // ---------- The canonical text ----------

  function RosterText(members: seq<string>): string {
    Join(Sort(members), "|")
  }

  /** A non-empty base64url text. */
  predicate IsKey(key: string) {
    key != "" && forall i :: 0 <= i < |key| ==>
      'A' <= key[i] <= 'Z' || 'a' <= key[i] <= 'z' || '0' <= key[i] <= '9' || key[i] == '-' || key[i] == '_'
  }

  predicate IsRoster(members: seq<string>) {
    forall key <- members :: IsKey(key)
  }

  /** Sorting loses no key and brings none, so the sorted keys can be joined without loss. */
  lemma SortedKeys(members: seq<string>)
    requires IsRoster(members)
    ensures Parts(Sort(members), '|')
  {
    SortCorrect(members);
    forall i | 0 <= i < |Sort(members)|
      ensures IsKey(Sort(members)[i])
    {
      assert Sort(members)[i] in multiset(Sort(members));
    }
  }

  /** The hashed text determines the roster up to order, and order does not matter. */
  lemma Canonical(a: seq<string>, b: seq<string>)
    requires IsRoster(a) && IsRoster(b)
    ensures RosterText(a) == RosterText(b) <==> multiset(a) == multiset(b)
  {
    SortCorrect(a);
    SortCorrect(b);
    SortedKeys(a);
    SortedKeys(b);
    hide Sort, Sorted, Join, Parts;
    if multiset(a) == multiset(b) {
      SortedUnique(Sort(a), Sort(b));
    }
    if RosterText(a) == RosterText(b) {
      JoinInjective(Sort(a), Sort(b), '|');
    }
  }

  lemma SortOne(x: string)
    ensures Sort([x]) == [x]
  {
    assert [x][1..] == [];
    assert Sort([x]) == Insert(x, Sort([])) == Insert(x, []);
  }

  /** The text of one and of two members, spelled out. */
  lemma RosterTextPair(a: string, b: string)
    ensures RosterText([a]) == a
    ensures RosterText([a, b]) == if LessEq(a, b) then a + "|" + b else b + "|" + a
  {
    hide LessEq;
    SortOne(a);
    SortOne(b);
    assert [a, b][1..] == [b];
    var s := Sort([a, b]);
    assert s == Insert(a, [b]);
    if LessEq(a, b) {
      assert s == [a, b];
    } else {
      assert [b][1..] == [] && Insert(a, []) == [a];
      assert s == [b, a];
    }
    assert s[1..] == [s[1]] && Join(s, "|") == s[0] + "|" + Join([s[1]], "|");
  }
}
