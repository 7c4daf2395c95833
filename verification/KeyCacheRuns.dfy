/**
 Runs of the key cache: lookups, stores and sweeps in any order, under any clock. An import is a
 lookup and, if that misses and the browser accepts the PEM, a store; other imports may come between.
 */
module KeyCacheRuns {
  import opened Common
  import opened KeyCache

  /** `now` is the reading compared with expiry times, `stamp` the one new expiry times start from. */
  datatype Step =
    | Lookup(u: Use, pem: string, now: int, stamp: int)
    | Store(u: Use, pem: string, now: int, stamp: int)
    | Clean(slot: Slot, now: int)

  function Next<V>(c: Caches<V>, s: Step, imp: Importer<V>): Caches<V> {
    match s
    case Lookup(u, pem, now, stamp) =>
      With(c, SlotOf(u), CacheGet(At(c, SlotOf(u)), KeyFor(u, pem), now, stamp).0)
    case Store(u, pem, now, stamp) =>
      var k := imp(u, pem);
      if k.None? then c
      else With(c, SlotOf(u), CacheSet(At(c, SlotOf(u)), KeyFor(u, pem), k.value, now, stamp))
    case Clean(slot, now) => With(c, slot, Sweep(At(c, slot), now))
  }

  function Run<V>(steps: seq<Step>, imp: Importer<V>): Caches<V>
    decreases |steps|
  {
    if steps == [] then Caches([], [], [], [])
    else Next(Run(steps[..|steps| - 1], imp), steps[|steps| - 1], imp)
  }

  /** What a lookup after these steps finds. */
  function Hit<V>(steps: seq<Step>, imp: Importer<V>, u: Use, pem: string, now: int): Option<V> {
    CacheGet(At(Run(steps, imp), SlotOf(u)), KeyFor(u, pem), now, now).1
  }

  // ---- where an entry comes from ----

  ghost predicate StoredBy<V>(s: Step, imp: Importer<V>, slot: Slot, e: Entry<V>) {
    s.Store? && SlotOf(s.u) == slot && KeyFor(s.u, s.pem) == e.key && imp(s.u, s.pem) == Some(e.value)
  }

  ghost predicate Touched(s: Step, slot: Slot, key: string, expiresAt: int) {
    && !s.Clean?
    && SlotOf(s.u) == slot && KeyFor(s.u, s.pem) == key && expiresAt == s.stamp + KEY_CACHE_TTL_MS
  }

  ghost predicate Explained<V>(steps: seq<Step>, imp: Importer<V>, slot: Slot, e: Entry<V>) {
    && (exists j :: 0 <= j < |steps| && StoredBy(steps[j], imp, slot, e))
    && (exists j :: 0 <= j < |steps| && Touched(steps[j], slot, e.key, e.expiresAt))
  }

  ghost predicate AllExplained<V>(steps: seq<Step>, imp: Importer<V>, slot: Slot, m: Cache<V>) {
    forall i :: 0 <= i < |m| ==> Explained(steps, imp, slot, m[i])
  }

  ghost predicate Inv<V>(steps: seq<Step>, imp: Importer<V>, c: Caches<V>) {
    forall slot :: Distinct(At(c, slot)) && AllExplained(steps, imp, slot, At(c, slot))
  }

  // ---- what the map operations do to entries ----

  lemma {:induction false} LiveMembers<V>(m: Cache<V>, now: int)
    ensures forall e :: e in Live(m, now) ==> e in m && now < e.expiresAt
    ensures forall e :: e in m && now < e.expiresAt ==> e in Live(m, now)
  {
    if m != [] {
      LiveMembers(m[1..], now);
      assert m == [m[0]] + m[1..];
    }
  }

  lemma {:induction false} LiveDistinct<V>(m: Cache<V>, now: int)
    requires Distinct(m)
    ensures Distinct(Live(m, now))
  {
    if m != [] {
      assert forall i :: 0 <= i < |m[1..]| ==> m[1..][i] == m[i + 1];
      LiveDistinct(m[1..], now);
      LiveMembers(m[1..], now);
      var rest := Live(m[1..], now);
      forall j | 0 <= j < |rest|
        ensures rest[j].key != m[0].key
      {
        assert rest[j] in rest;
      }
    }
  }

  lemma LiveIsPart<V>(m: Cache<V>, now: int)
    requires Distinct(m)
    ensures Distinct(Live(m, now))
    ensures forall e :: e in Live(m, now) ==> e in m && now < e.expiresAt
    ensures forall e :: e in m && now < e.expiresAt ==> e in Live(m, now)
  {
    LiveDistinct(m, now);
    LiveMembers(m, now);
  }

  lemma {:induction false} TrimIsSuffix<V>(m: Cache<V>)
    ensures exists n :: 0 <= n <= |m| && Trim(m) == m[n..]
                        && (n > 0 ==> |m| - n >= KEY_CACHE_MAX_ENTRIES)
                        && (|m| - n <= KEY_CACHE_MAX_ENTRIES || m[n].key == "")
  {
    if |m| <= KEY_CACHE_MAX_ENTRIES || m[0].key == "" {
      assert m == m[0..];
    } else {
      TrimIsSuffix(m[1..]);
      var n :| 0 <= n <= |m| - 1 && Trim(m[1..]) == m[1..][n..]
               && (n > 0 ==> |m| - 1 - n >= KEY_CACHE_MAX_ENTRIES)
               && (|m| - 1 - n <= KEY_CACHE_MAX_ENTRIES || m[1..][n].key == "");
      assert m[1..][n..] == m[n + 1..];
    }
  }

  /**
   A sweep keeps the newest entries that have not expired, at most `KEY_CACHE_MAX_ENTRIES` of them,
   exactly when no empty key stands among those it has to drop: first in, first out, however recently
   they were used.
   */
  lemma SweepKeepsNewest<V>(m: Cache<V>, now: int)
    ensures var live := Live(m, now);
            var drop := if |live| <= KEY_CACHE_MAX_ENTRIES then 0 else |live| - KEY_CACHE_MAX_ENTRIES;
            Sweep(m, now) == live[drop..] <==> forall i :: 0 <= i < drop ==> live[i].key != ""
  {
    TrimPassesNamed(Live(m, now));
  }

  lemma SuffixDistinct<V>(m: Cache<V>, n: nat)
    requires Distinct(m) && n <= |m|
    ensures Distinct(m[n..])
  {
    assert forall i :: 0 <= i < |m[n..]| ==> m[n..][i] == m[n + i];
  }

  lemma SweepIsPart<V>(m: Cache<V>, now: int)
    requires Distinct(m)
    ensures Distinct(Sweep(m, now))
    ensures forall e :: e in Sweep(m, now) ==> e in m && now < e.expiresAt
  {
    LiveIsPart(m, now);
    var live := Live(m, now);
    TrimIsSuffix(live);
    var n :| 0 <= n <= |live| && Trim(live) == live[n..]
             && (n > 0 ==> |live| - n >= KEY_CACHE_MAX_ENTRIES)
             && (|live| - n <= KEY_CACHE_MAX_ENTRIES || live[n].key == "");
    hide Trim, Live, Distinct;
    SuffixDistinct(live, n);
    forall e | e in Sweep(m, now)
      ensures e in live
    {
      assert e in live[n..];
    }
  }

  lemma {:induction false} TrimPassesNamed<V>(m: Cache<V>)
    ensures var drop := if |m| <= KEY_CACHE_MAX_ENTRIES then 0 else |m| - KEY_CACHE_MAX_ENTRIES;
            Trim(m) == m[drop..] <==> forall i :: 0 <= i < drop ==> m[i].key != ""
  {
    if |m| > KEY_CACHE_MAX_ENTRIES {
      var drop := |m| - KEY_CACHE_MAX_ENTRIES;
      if m[0].key == "" {
        assert |Trim(m)| != |m[drop..]|;
      } else {
        TrimPassesNamed(m[1..]);
        assert m[1..][drop - 1..] == m[drop..];
        forall i | 0 <= i < drop - 1
          ensures m[1..][i] == m[i + 1]
        {
        }
        assert (forall i :: 0 <= i < drop ==> m[i].key != "") <==> (forall i :: 0 <= i < drop - 1 ==> m[1..][i].key != "") by {
          if forall i :: 0 <= i < drop - 1 ==> m[1..][i].key != "" {
            forall i | 0 <= i < drop
              ensures m[i].key != ""
            {
              if i > 0 {
                assert m[1..][i - 1] == m[i];
              }
            }
          }
        }
      }
    } else {
      assert m[0..] == m;
    }
  }

  // ---- every reachable cache ----

  lemma ExplainedLater<V>(steps: seq<Step>, s: Step, imp: Importer<V>, slot: Slot, e: Entry<V>)
    requires Explained(steps, imp, slot, e)
    ensures Explained(steps + [s], imp, slot, e)
  {
    var j :| 0 <= j < |steps| && StoredBy(steps[j], imp, slot, e);
    var k :| 0 <= k < |steps| && Touched(steps[k], slot, e.key, e.expiresAt);
    assert (steps + [s])[j] == steps[j] && (steps + [s])[k] == steps[k];
  }

  lemma RemovedKeeps<V>(steps: seq<Step>, imp: Importer<V>, slot: Slot, m: Cache<V>, i: nat)
    requires i < |m| && Distinct(m) && AllExplained(steps, imp, slot, m)
    ensures Distinct(Removed(m, i)) && AllExplained(steps, imp, slot, Removed(m, i))
  {
    hide Explained;
    var r := Removed(m, i);
    assert forall k :: 0 <= k < |r| ==> r[k] == m[if k < i then k else k + 1];
  }

  lemma ReplacedKeeps<V>(steps: seq<Step>, imp: Importer<V>, slot: Slot, m: Cache<V>, i: nat, e: Entry<V>)
    requires i < |m| && Distinct(m) && AllExplained(steps, imp, slot, m)
    requires e.key == m[i].key && Explained(steps, imp, slot, e)
    ensures Distinct(m[i := e]) && AllExplained(steps, imp, slot, m[i := e])
  {
    hide Explained;
  }

  lemma AppendedKeeps<V>(steps: seq<Step>, imp: Importer<V>, slot: Slot, m: Cache<V>, e: Entry<V>)
    requires Distinct(m) && AllExplained(steps, imp, slot, m) && Explained(steps, imp, slot, e)
    requires forall k :: 0 <= k < |m| ==> m[k].key != e.key
    ensures Distinct(m + [e]) && AllExplained(steps, imp, slot, m + [e])
  {
    hide Explained;
  }

  lemma RefreshExplained<V>(steps: seq<Step>, s: Step, imp: Importer<V>, e: Entry<V>)
    requires s.Lookup? && Explained(steps, imp, SlotOf(s.u), e) && e.key == KeyFor(s.u, s.pem)
    ensures Explained(steps + [s], imp, SlotOf(s.u), e.(expiresAt := s.stamp + KEY_CACHE_TTL_MS))
  {
    var r := e.(expiresAt := s.stamp + KEY_CACHE_TTL_MS);
    var j :| 0 <= j < |steps| && StoredBy(steps[j], imp, SlotOf(s.u), e);
    assert StoredBy((steps + [s])[j], imp, SlotOf(s.u), r);
    assert Touched((steps + [s])[|steps|], SlotOf(s.u), r.key, r.expiresAt);
  }

  lemma GetKeeps<V>(steps: seq<Step>, s: Step, imp: Importer<V>, m: Cache<V>)
    requires s.Lookup? && Distinct(m) && AllExplained(steps, imp, SlotOf(s.u), m)
    ensures var r := CacheGet(m, KeyFor(s.u, s.pem), s.now, s.stamp).0;
            Distinct(r) && AllExplained(steps + [s], imp, SlotOf(s.u), r) && |r| <= |m|
  {
    hide Explained, Distinct, AllExplained;
    var slot, key := SlotOf(s.u), KeyFor(s.u, s.pem);
    OthersExplained(steps, s, imp, slot, m);
    var f := Find(m, key);
    if f.Some? {
      var i := f.value;
      if m[i].expiresAt <= s.now {
        RemovedKeeps(steps + [s], imp, slot, m, i);
      } else {
        ExplainedAt(steps, imp, slot, m, i);
        RefreshExplained(steps, s, imp, m[i]);
        ReplacedKeeps(steps + [s], imp, slot, m, i, m[i].(expiresAt := s.stamp + KEY_CACHE_TTL_MS));
      }
    }
  }

  lemma ExplainedAt<V>(steps: seq<Step>, imp: Importer<V>, slot: Slot, m: Cache<V>, i: nat)
    requires AllExplained(steps, imp, slot, m) && i < |m|
    ensures Explained(steps, imp, slot, m[i])
  {
  }

  lemma StoreExplained<V>(steps: seq<Step>, s: Step, imp: Importer<V>)
    requires s.Store? && imp(s.u, s.pem).Some?
    ensures Explained(steps + [s], imp, SlotOf(s.u),
                      Entry(KeyFor(s.u, s.pem), imp(s.u, s.pem).value, s.stamp + KEY_CACHE_TTL_MS))
  {
    var e := Entry(KeyFor(s.u, s.pem), imp(s.u, s.pem).value, s.stamp + KEY_CACHE_TTL_MS);
    assert StoredBy((steps + [s])[|steps|], imp, SlotOf(s.u), e);
    assert Touched((steps + [s])[|steps|], SlotOf(s.u), e.key, e.expiresAt);
  }

  lemma SetKeeps<V>(steps: seq<Step>, s: Step, imp: Importer<V>, m: Cache<V>)
    requires s.Store? && imp(s.u, s.pem).Some? && Distinct(m) && AllExplained(steps, imp, SlotOf(s.u), m)
    ensures var r := CacheSet(m, KeyFor(s.u, s.pem), imp(s.u, s.pem).value, s.now, s.stamp);
            Distinct(r) && AllExplained(steps + [s], imp, SlotOf(s.u), r)
  {
    hide Explained, Distinct, AllExplained, Sweep;
    var slot, key := SlotOf(s.u), KeyFor(s.u, s.pem);
    var e := Entry(key, imp(s.u, s.pem).value, s.stamp + KEY_CACHE_TTL_MS);
    StoreExplained(steps, s, imp);
    SweepKeeps(steps, s, imp, slot, m, s.now);
    var swept := Sweep(m, s.now);
    var f := Find(swept, key);
    if f.None? {
      AppendedKeeps(steps + [s], imp, slot, swept, e);
    } else {
      ReplacedKeeps(steps + [s], imp, slot, swept, f.value, e);
    }
  }

  lemma SweepKeeps<V>(steps: seq<Step>, s: Step, imp: Importer<V>, slot: Slot, m: Cache<V>, now: int)
    requires Distinct(m) && AllExplained(steps, imp, slot, m)
    ensures Distinct(Sweep(m, now)) && AllExplained(steps + [s], imp, slot, Sweep(m, now))
  {
    SweepIsPart(m, now);
    forall i | 0 <= i < |Sweep(m, now)|
      ensures Explained(steps + [s], imp, slot, Sweep(m, now)[i])
    {
      var e := Sweep(m, now)[i];
      assert e in m;
      ExplainedLater(steps, s, imp, slot, e);
    }
  }

  lemma OthersExplained<V>(steps: seq<Step>, s: Step, imp: Importer<V>, slot: Slot, m: Cache<V>)
    requires AllExplained(steps, imp, slot, m)
    ensures AllExplained(steps + [s], imp, slot, m)
  {
    forall i | 0 <= i < |m|
      ensures Explained(steps + [s], imp, slot, m[i])
    {
      ExplainedLater(steps, s, imp, slot, m[i]);
    }
  }

  lemma StepKeepsInv<V>(steps: seq<Step>, s: Step, imp: Importer<V>, c: Caches<V>)
    requires Inv(steps, imp, c)
    ensures Inv(steps + [s], imp, Next(c, s, imp))
  {
    hide Explained, AllExplained, Distinct, CacheGet, CacheSet, Sweep;
    forall slot
      ensures Distinct(At(Next(c, s, imp), slot))
      ensures AllExplained(steps + [s], imp, slot, At(Next(c, s, imp), slot))
    {
      assert Distinct(At(c, slot)) && AllExplained(steps, imp, slot, At(c, slot));
      OthersExplained(steps, s, imp, slot, At(c, slot));
      match s
      case Lookup(u, _, _, _) =>
        if SlotOf(u) == slot {
          GetKeeps(steps, s, imp, At(c, slot));
        }
      case Store(u, pem, _, _) =>
        if SlotOf(u) == slot && imp(u, pem).Some? {
          SetKeeps(steps, s, imp, At(c, slot));
        }
      case Clean(cleaned, now) =>
        SweepKeeps(steps, s, imp, slot, At(c, slot), now);
    }
  }

  lemma EmptyInv<V>(imp: Importer<V>)
    ensures Inv([], imp, Caches([], [], [], []))
  {
  }

  lemma {:induction false} RunKeepsInv<V>(steps: seq<Step>, imp: Importer<V>)
    ensures Inv(steps, imp, Run(steps, imp))
    decreases |steps|
  {
    hide Inv, Next;
    if steps == [] {
      EmptyInv(imp);
    } else {
      var before, s := steps[..|steps| - 1], steps[|steps| - 1];
      RunKeepsInv(before, imp);
      StepKeepsInv(before, s, imp, Run(before, imp));
      assert steps == before + [s];
    }
  }

  // ---- the theorems ----

  /** A hit was stored by an import into the same slot, and used or stored less than a TTL ago. */
  lemma HitIsExplained<V>(steps: seq<Step>, imp: Importer<V>, u: Use, pem: string, now: int)
    requires Hit(steps, imp, u, pem, now).Some?
    ensures var v := Hit(steps, imp, u, pem, now).value;
            && (exists j :: 0 <= j < |steps| && steps[j].Store? && SlotOf(steps[j].u) == SlotOf(u)
                            && KeyFor(steps[j].u, steps[j].pem) == KeyFor(u, pem)
                            && imp(steps[j].u, steps[j].pem) == Some(v))
            && (exists j :: 0 <= j < |steps| && !steps[j].Clean? && SlotOf(steps[j].u) == SlotOf(u)
                            && KeyFor(steps[j].u, steps[j].pem) == KeyFor(u, pem)
                            && now < steps[j].stamp + KEY_CACHE_TTL_MS)
  {
    RunKeepsInv(steps, imp);
    var m := At(Run(steps, imp), SlotOf(u));
    var e := m[Find(m, KeyFor(u, pem)).value];
    assert Explained(steps, imp, SlotOf(u), e);
    var j :| 0 <= j < |steps| && StoredBy(steps[j], imp, SlotOf(u), e);
    var k :| 0 <= k < |steps| && Touched(steps[k], SlotOf(u), e.key, e.expiresAt);
  }

  predicate Plain(pem: string) {
    !("pss:" <= pem)
  }

  /** Two different imports share an entry exactly when one is PSS and the other's PEM spells its key. */
  lemma SharedEntries(u: Use, pem: string, u': Use, pem': string)
    ensures SlotOf(u) == SlotOf(u') && KeyFor(u, pem) == KeyFor(u', pem') <==>
              || (u == u' && pem == pem')
              || (SlotOf(u) == SlotOf(u') && IsPss(u) && !IsPss(u') && pem' == "pss:" + pem)
              || (SlotOf(u) == SlotOf(u') && IsPss(u') && !IsPss(u) && pem == "pss:" + pem')
  {
    if KeyFor(u, pem) == KeyFor(u', pem') && IsPss(u) && IsPss(u') {
      assert ("pss:" + pem)[4..] == pem && ("pss:" + pem')[4..] == pem';
    }
  }

  /** No entry that another import could store answers this call. */
  predicate Safe(u: Use, pem: string) {
    u.Encryption? || u.Decryption? || (!IsPss(u) && Plain(pem))
  }

  /** Whatever else was imported, a hit of a safe call is what the import itself would have given. */
  lemma SafeIsTransparent<V>(steps: seq<Step>, imp: Importer<V>, u: Use, pem: string, now: int)
    requires Safe(u, pem) && Hit(steps, imp, u, pem, now).Some?
    ensures Hit(steps, imp, u, pem, now) == imp(u, pem)
  {
    HitIsExplained(steps, imp, u, pem, now);
    var j :| 0 <= j < |steps| && steps[j].Store? && SlotOf(steps[j].u) == SlotOf(u)
             && KeyFor(steps[j].u, steps[j].pem) == KeyFor(u, pem)
             && imp(steps[j].u, steps[j].pem) == Some(Hit(steps, imp, u, pem, now).value);
    SharedEntries(steps[j].u, steps[j].pem, u, pem);
  }

  /** The import that shares the call's entry. */
  function Rival(u: Use, pem: string): (Use, string)
    requires !Safe(u, pem)
  {
    if IsPss(u) then (if u.PssSigning? then Signing else Verification, "pss:" + pem)
    else (if u.Signing? then PssSigning else PssVerification, pem[4..])
  }

  /** An importer that tells PSS keys from the others. */
  function PaddingOf(u: Use, pem: string): Option<bool> {
    Some(IsPss(u))
  }

  /**
   Exactly the safe calls are right in every run: each other one is answered wrongly after the browser
   accepted its rival's PEM.
   */
  lemma SafeExactly(u: Use, pem: string)
    ensures Safe(u, pem) <==>
              forall imp: Importer<bool>, steps: seq<Step>, now ::
                Hit(steps, imp, u, pem, now).Some? ==> Hit(steps, imp, u, pem, now) == imp(u, pem)
  {
    if Safe(u, pem) {
      forall imp: Importer<bool>, steps: seq<Step>, now | Hit(steps, imp, u, pem, now).Some?
        ensures Hit(steps, imp, u, pem, now) == imp(u, pem)
      {
        SafeIsTransparent(steps, imp, u, pem, now);
      }
    } else {
      UnsafeShows(u, pem);
    }
  }

  lemma UnsafeShows(u: Use, pem: string)
    requires !Safe(u, pem)
    ensures exists imp: Importer<bool>, steps: seq<Step>, now ::
              Hit(steps, imp, u, pem, now).Some? && Hit(steps, imp, u, pem, now) != imp(u, pem)
  {
    var imp: Importer<bool> := PaddingOf;
    var (u', pem') := Rival(u, pem);
    assert "pss:" <= pem ==> pem == "pss:" + pem[4..];
    hide Hit;
    OneStore(imp, u', pem', u, pem);
    var steps := [Store(u', pem', 0, 0)];
    assert Hit(steps, imp, u, pem, 0).Some? && Hit(steps, imp, u, pem, 0) != imp(u, pem);
  }

  ghost predicate PlainSteps(steps: seq<Step>) {
    forall j :: 0 <= j < |steps| && steps[j].Store? ==> Plain(steps[j].pem)
  }

  /** For PSS calls it is enough that no PEM spelled "pss:..." was imported before. */
  lemma PlainIsTransparent<V>(steps: seq<Step>, imp: Importer<V>, u: Use, pem: string, now: int)
    requires Safe(u, pem) || (IsPss(u) && PlainSteps(steps))
    requires Hit(steps, imp, u, pem, now).Some?
    ensures Hit(steps, imp, u, pem, now) == imp(u, pem)
  {
    if Safe(u, pem) {
      SafeIsTransparent(steps, imp, u, pem, now);
    } else {
      HitIsExplained(steps, imp, u, pem, now);
      var j :| 0 <= j < |steps| && steps[j].Store? && SlotOf(steps[j].u) == SlotOf(u)
               && KeyFor(steps[j].u, steps[j].pem) == KeyFor(u, pem)
               && imp(steps[j].u, steps[j].pem) == Some(Hit(steps, imp, u, pem, now).value);
      SharedEntries(steps[j].u, steps[j].pem, u, pem);
    }
  }

  ghost predicate Transparent<V>(imp: Importer<V>) {
    forall steps: seq<Step>, u, pem, now ::
      Hit(steps, imp, u, pem, now).Some? ==> Hit(steps, imp, u, pem, now) == imp(u, pem)
  }

  /** A PEM spelled "pss:..." imports, plainly or by PSS, like the rest of it does the other way. */
  ghost predicate Agrees<V>(imp: Importer<V>) {
    forall pem: string ::
      && imp(Signing, "pss:" + pem) == imp(PssSigning, pem)
      && imp(Verification, "pss:" + pem) == imp(PssVerification, pem)
  }

  lemma OneStore<V>(imp: Importer<V>, u: Use, pem: string, u': Use, pem': string)
    requires SlotOf(u) == SlotOf(u') && KeyFor(u, pem) == KeyFor(u', pem') && imp(u, pem).Some?
    ensures Hit([Store(u, pem, 0, 0)], imp, u', pem', 0) == imp(u, pem)
  {
    var steps := [Store(u, pem, 0, 0)];
    assert steps[..0] == [];
    assert Run([], imp) == Caches([], [], [], []);
    var m: Cache<V> := [];
    assert Sweep(m, 0) == [];
    assert At(Run(steps, imp), SlotOf(u)) == [Entry(KeyFor(u, pem), imp(u, pem).value, KEY_CACHE_TTL_MS)];
  }

  /** A hit of a colliding import is what the import itself would have given, when the two agree. */
  lemma AgreeingHit<V>(steps: seq<Step>, imp: Importer<V>, u: Use, pem: string, now: int)
    requires Agrees(imp) && Hit(steps, imp, u, pem, now).Some?
    ensures Hit(steps, imp, u, pem, now) == imp(u, pem)
  {
    HitIsExplained(steps, imp, u, pem, now);
    var j :| 0 <= j < |steps| && steps[j].Store? && SlotOf(steps[j].u) == SlotOf(u)
             && KeyFor(steps[j].u, steps[j].pem) == KeyFor(u, pem)
             && imp(steps[j].u, steps[j].pem) == Some(Hit(steps, imp, u, pem, now).value);
    SharedEntries(steps[j].u, steps[j].pem, u, pem);
  }

  /** A run that stores one of two colliding imports and asks for the other. */
  lemma CollisionShows<V>(imp: Importer<V>, pss: Use, plain: Use, pem: string)
    requires Transparent(imp) && IsPss(pss) && !IsPss(plain) && SlotOf(pss) == SlotOf(plain)
    ensures imp(plain, "pss:" + pem) == imp(pss, pem)
  {
    if imp(pss, pem).Some? {
      OneStore(imp, pss, pem, plain, "pss:" + pem);
    }
    if imp(plain, "pss:" + pem).Some? {
      OneStore(imp, plain, "pss:" + pem, pss, pem);
    }
  }

  /** Over all runs the cache cannot be told from no cache exactly when the colliding imports agree. */
  lemma TransparentExactly<V>(imp: Importer<V>)
    ensures Transparent(imp) <==> Agrees(imp)
  {
    hide Hit;
    if Agrees(imp) {
      forall steps: seq<Step>, u, pem, now | Hit(steps, imp, u, pem, now).Some?
        ensures Hit(steps, imp, u, pem, now) == imp(u, pem)
      {
        AgreeingHit(steps, imp, u, pem, now);
      }
    }
    if Transparent(imp) {
      forall pem: string
        ensures imp(Signing, "pss:" + pem) == imp(PssSigning, pem)
        ensures imp(Verification, "pss:" + pem) == imp(PssVerification, pem)
      {
        CollisionShows(imp, PssSigning, Signing, pem);
        CollisionShows(imp, PssVerification, Verification, pem);
      }
    }
  }

  /** Once an empty PEM does not import, no map ever holds more than one entry over the limit. */
  lemma {:induction false} SizeBounded<V>(steps: seq<Step>, imp: Importer<V>, slot: Slot)
    requires forall u :: imp(u, "").None?
    ensures |At(Run(steps, imp), slot)| <= 65
    decreases |steps|
  {
    if steps != [] {
      var before, s := steps[..|steps| - 1], steps[|steps| - 1];
      SizeBounded(before, imp, slot);
      RunKeepsInv(before, imp);
      hide Next;
      SizeAfter(before, s, imp, Run(before, imp), slot);
    }
  }

  lemma SizeAfter<V>(steps: seq<Step>, s: Step, imp: Importer<V>, c: Caches<V>, slot: Slot)
    requires Inv(steps, imp, c) && forall u :: imp(u, "").None?
    requires |At(c, slot)| <= 65
    ensures |At(Next(c, s, imp), slot)| <= 65
  {
    hide Inv, Distinct, AllExplained, Sweep, CacheGet, CacheSet;
    var m := At(c, slot);
    InvAt(steps, imp, c, slot);
    NoEmptyKey(steps, imp, slot, m);
    match s
    case Lookup(u, pem, now, stamp) => GetSize(m, KeyFor(u, pem), now, stamp);
    case Store(u, pem, now, stamp) =>
      if imp(u, pem).Some? {
        SweptSize(m, now);
        SetSize(m, KeyFor(u, pem), imp(u, pem).value, now, stamp);
      }
    case Clean(_, now) => SweptSize(m, now);
  }

  lemma InvAt<V>(steps: seq<Step>, imp: Importer<V>, c: Caches<V>, slot: Slot)
    requires Inv(steps, imp, c)
    ensures Distinct(At(c, slot)) && AllExplained(steps, imp, slot, At(c, slot))
  {
  }

  lemma GetSize<V>(m: Cache<V>, key: string, now: int, stamp: int)
    ensures |CacheGet(m, key, now, stamp).0| <= |m|
  {
  }

  lemma SetSize<V>(m: Cache<V>, key: string, value: V, now: int, stamp: int)
    ensures |CacheSet(m, key, value, now, stamp)| <= |Sweep(m, now)| + 1
  {
    hide Sweep;
  }

  lemma NoEmptyKey<V>(steps: seq<Step>, imp: Importer<V>, slot: Slot, m: Cache<V>)
    requires AllExplained(steps, imp, slot, m) && forall u :: imp(u, "").None?
    ensures forall i :: 0 <= i < |m| ==> m[i].key != ""
  {
    forall i | 0 <= i < |m|
      ensures m[i].key != ""
    {
      assert Explained(steps, imp, slot, m[i]);
      var j :| 0 <= j < |steps| && StoredBy(steps[j], imp, slot, m[i]);
    }
  }

  lemma SweptSize<V>(m: Cache<V>, now: int)
    requires Distinct(m) && forall i :: 0 <= i < |m| ==> m[i].key != ""
    ensures |Sweep(m, now)| <= KEY_CACHE_MAX_ENTRIES
  {
    LiveIsPart(m, now);
    var live := Live(m, now);
    TrimIsSuffix(live);
    forall i | 0 <= i < |live|
      ensures live[i].key != ""
    {
      assert live[i] in live;
      assert live[i] in m;
    }
  }

  // ---- how long an entry lives ----

  lemma FoundFirst<V>(m: Cache<V>, key: string, i: nat)
    requires Distinct(m) && i < |m| && m[i].key == key
    ensures Find(m, key) == Some(i)
  {
    var j := Find(m, key).value;
    assert m[j].key == m[i].key;
  }

  lemma AbsentNotFound<V>(m: Cache<V>, key: string)
    requires forall k :: 0 <= k < |m| ==> m[k].key != key
    ensures Find(m, key) == None
  {
  }

  /** A hit makes the entry live for ten minutes more; a miss removes the entry if it was there. */
  lemma GetRefreshes<V>(m: Cache<V>, key: string, now: int, stamp: int, later: int, stamp': int)
    requires Distinct(m)
    ensures var (m', hit) := CacheGet(m, key, now, stamp);
            && CacheGet(m', key, later, stamp').1 == (if hit.Some? && later < stamp + 600_000 then hit else None)
            && forall other :: other != key ==> CacheGet(m', other, later, stamp').1 == CacheGet(m, other, later, stamp').1
  {
    match Find(m, key)
    case None =>
    case Some(i) =>
      var m' := CacheGet(m, key, now, stamp).0;
      if m[i].expiresAt <= now {
        RemovedKeys(m, i);
        AbsentNotFound(m', key);
        forall other | other != key
          ensures CacheGet(m', other, later, stamp').1 == CacheGet(m, other, later, stamp').1
        {
          RemovedOther(m, i, other);
        }
      } else {
        assert forall k :: 0 <= k < |m'| ==> m'[k].key == m[k].key;
        FoundFirst(m', key, i);
        forall other | other != key
          ensures CacheGet(m', other, later, stamp').1 == CacheGet(m, other, later, stamp').1
        {
          SameKeysFound(m, m', other);
        }
      }
  }

  lemma SameKeysFound<V>(m: Cache<V>, m': Cache<V>, key: string)
    requires Distinct(m) && |m'| == |m| && forall k :: 0 <= k < |m| ==> m'[k].key == m[k].key
    ensures Find(m', key) == Find(m, key)
  {
    if Find(m, key).Some? {
      FoundFirst(m', key, Find(m, key).value);
    } else {
      AbsentNotFound(m', key);
    }
  }

  lemma RemovedKeys<V>(m: Cache<V>, i: nat)
    requires Distinct(m) && i < |m|
    ensures Distinct(Removed(m, i)) && forall k :: 0 <= k < |Removed(m, i)| ==> Removed(m, i)[k].key != m[i].key
  {
  }

  lemma RemovedOther<V>(m: Cache<V>, i: nat, key: string)
    requires Distinct(m) && i < |m| && key != m[i].key
    ensures match Find(m, key)
            case None => Find(Removed(m, i), key) == None
            case Some(j) => Find(Removed(m, i), key).Some? && Removed(m, i)[Find(Removed(m, i), key).value] == m[j]
  {
    RemovedKeys(m, i);
    if Find(m, key).Some? {
      var j := Find(m, key).value;
      FoundFirst(Removed(m, i), key, if j < i then j else j - 1);
    } else {
      AbsentNotFound(Removed(m, i), key);
    }
  }

  /** What was just stored is found for ten minutes, and no longer. */
  lemma SetThenGet<V>(m: Cache<V>, key: string, value: V, now: int, stamp: int, later: int, stamp': int)
    requires Distinct(m)
    ensures CacheGet(CacheSet(m, key, value, now, stamp), key, later, stamp').1
         == if later < stamp + 600_000 then Some(value) else None
  {
    var swept := Sweep(m, now);
    var m' := CacheSet(m, key, value, now, stamp);
    SweepIsPart(m, now);
    match Find(swept, key)
    case None => FoundFirst(m', key, |swept|);
    case Some(i) =>
      assert forall k :: 0 <= k < |m'| ==> m'[k].key == swept[k].key;
      FoundFirst(m', key, i);
  }
}
