/**
 The cache of imported keys in static/crypto.js: four insertion-ordered maps whose entries expire,
 and the six import functions built on them.
 */
module KeyCache {
  import opened Common

  const KEY_CACHE_TTL_MS: int := 10 * 60 * 1000
  const KEY_CACHE_MAX_ENTRIES: nat := 64

  // ---- one map ----

  datatype Entry<V> = Entry(key: string, value: V, expiresAt: int)

  /** A JavaScript Map: entries in insertion order, keys distinct. */
  type Cache<V> = seq<Entry<V>>

  ghost predicate Distinct<V>(m: Cache<V>) {
    forall i, j :: 0 <= i < j < |m| ==> m[i].key != m[j].key
  }

  function Find<V>(m: Cache<V>, key: string): (i: Option<nat>)
    ensures i.Some? ==> i.value < |m| && m[i.value].key == key
    ensures i.None? <==> forall k :: 0 <= k < |m| ==> m[k].key != key
  {
    if m == [] then None
    else if m[0].key == key then Some(0)
    else match Find(m[1..], key) {
      case None => assert forall k :: 0 < k < |m| ==> m[k] == m[1..][k - 1]; None
      case Some(i) => Some(i + 1)
    }
  }

  function Live<V>(m: Cache<V>, now: int): (r: Cache<V>)
    ensures |r| <= |m|
  {
    if m == [] then []
    else if m[0].expiresAt <= now then Live(m[1..], now)
    else [m[0]] + Live(m[1..], now)
  }

  /** The trimming loop gives up on an empty key, which is falsy. */
  function Trim<V>(m: Cache<V>): Cache<V> {
    if |m| <= KEY_CACHE_MAX_ENTRIES || m[0].key == "" then m else Trim(m[1..])
  }

  function Sweep<V>(m: Cache<V>, now: int): Cache<V> {
    Trim(Live(m, now))
  }

  function Removed<V>(m: Cache<V>, i: nat): Cache<V>
    requires i < |m|
  {
    m[..i] + m[i + 1..]
  }

  function CacheGet<V>(m: Cache<V>, key: string, now: int, stamp: int): (Cache<V>, Option<V>) {
    match Find(m, key)
    case None => (m, None)
    case Some(i) =>
      if m[i].expiresAt <= now then (Removed(m, i), None)
      else (m[i := m[i].(expiresAt := stamp + KEY_CACHE_TTL_MS)], Some(m[i].value))
  }

  function CacheSet<V>(m: Cache<V>, key: string, value: V, now: int, stamp: int): Cache<V> {
    var swept := Sweep(m, now);
    var e := Entry(key, value, stamp + KEY_CACHE_TTL_MS);
    match Find(swept, key)
    case None => swept + [e]
    case Some(i) => swept[i := e]
  }

  /** The first `k` entries of `m` were looked at, and `current` keeps the live ones as its first `i`. */
  ghost predicate SweptSoFar<V>(m: Cache<V>, k: int, current: Cache<V>, i: int, now: int) {
    && 0 <= k <= |m| && 0 <= i <= |current|
    && current[i..] == m[k..]
    && current[..i] + Live(m[k..], now) == Live(m, now)
  }

  lemma SweptAtFirst<V>(m: Cache<V>, now: int)
    ensures SweptSoFar(m, 0, m, 0, now)
  {
    assert m[0..] == m && m[..0] == [];
  }

  lemma SweptAtLast<V>(m: Cache<V>, k: int, current: Cache<V>, now: int)
    requires SweptSoFar(m, k, current, |current|, now)
    ensures current == Live(m, now)
  {
    assert m[k..] == [] && current[..|current|] == current;
    assert current + [] == current;
  }

  lemma SweepOn<V>(m: Cache<V>, k: int, current: Cache<V>, i: int, now: int)
    requires SweptSoFar(m, k, current, i, now) && i < |current|
    ensures if current[i].expiresAt <= now then SweptSoFar(m, k + 1, Removed(current, i), i, now)
            else SweptSoFar(m, k + 1, current, i + 1, now)
  {
    var rest := m[k..];
    assert current[i] == current[i..][0] == rest[0];
    assert rest[1..] == m[k + 1..] == current[i + 1..];
    if current[i].expiresAt <= now {
      var r := Removed(current, i);
      assert r[i..] == current[i + 1..] && r[..i] == current[..i];
    } else {
      assert current[..i + 1] == current[..i] + [current[i]];
      assert current[..i] + ([rest[0]] + Live(rest[1..], now)) == current[..i + 1] + Live(rest[1..], now);
    }
  }

  lemma TrimUnfold<V>(m: Cache<V>)
    ensures Trim(m) == if |m| <= KEY_CACHE_MAX_ENTRIES || m[0].key == "" then m else Trim(m[1..])
  {
  }

  class ExpiringMap<V> {
    var entries: Cache<V>

    constructor ()
      ensures entries == []
    {
      entries := [];
    }

    method CacheSweep(now: int)
      modifies this
      ensures entries == Sweep(old(entries), now)
    {
      hide Live, Trim;
      var i := 0;
      ghost var k := 0;
      SweptAtFirst(entries, now);
      while i < |entries|
        invariant SweptSoFar(old(entries), k, entries, i, now)
        decreases |entries| - i
      {
        SweepOn(old(entries), k, entries, i, now);
        if entries[i].expiresAt <= now {
          entries := Removed(entries, i);
        } else {
          i := i + 1;
        }
        k := k + 1;
      }
      SweptAtLast(old(entries), k, entries, now);
      while |entries| > KEY_CACHE_MAX_ENTRIES
        invariant Trim(entries) == Sweep(old(entries), now)
        decreases |entries|
      {
        TrimUnfold(entries);
        if entries[0].key == "" { return; }
        entries := entries[1..];
      }
      TrimUnfold(entries);
    }

    method Get(key: string, now: int, stamp: int) returns (value: Option<V>)
      modifies this
      ensures (entries, value) == CacheGet(old(entries), key, now, stamp)
    {
      var i := Find(entries, key);
      if i.None? { return None; }
      if entries[i.value].expiresAt <= now {
        entries := Removed(entries, i.value);
        return None;
      }
      value := Some(entries[i.value].value);
      entries := entries[i.value := entries[i.value].(expiresAt := stamp + KEY_CACHE_TTL_MS)];
    }

    method Set(key: string, value: V, now: int, stamp: int)
      modifies this
      ensures entries == CacheSet(old(entries), key, value, now, stamp)
    {
      CacheSweep(now);
      var i := Find(entries, key);
      var e := Entry(key, value, stamp + KEY_CACHE_TTL_MS);
      if i.None? {
        entries := entries + [e];
      } else {
        entries := entries[i.value := e];
      }
    }
  }

  // ---- the import functions ----

  /** Which import function is called. */
  datatype Use = Encryption | Verification | PssVerification | Decryption | Signing | PssSigning

  datatype Slot = Public | PublicVerify | PrivateDec | PrivateSign

  function SlotOf(u: Use): Slot {
    match u
    case Encryption => Public
    case Verification => PublicVerify
    case PssVerification => PublicVerify
    case Decryption => PrivateDec
    case Signing => PrivateSign
    case PssSigning => PrivateSign
  }

  predicate IsPss(u: Use) {
    u.PssVerification? || u.PssSigning?
  }

  function KeyFor(u: Use, pem: string): string {
    if IsPss(u) then "pss:" + pem else pem
  }

  datatype Caches<V> = Caches(pub: Cache<V>, verify: Cache<V>, dec: Cache<V>, sign: Cache<V>)

  function At<V>(c: Caches<V>, s: Slot): Cache<V> {
    match s
    case Public => c.pub
    case PublicVerify => c.verify
    case PrivateDec => c.dec
    case PrivateSign => c.sign
  }

  function With<V>(c: Caches<V>, s: Slot, m: Cache<V>): (r: Caches<V>)
    ensures forall t :: At(r, t) == if t == s then m else At(c, t)
  {
    match s
    case Public => c.(pub := m)
    case PublicVerify => c.(verify := m)
    case PrivateDec => c.(dec := m)
    case PrivateSign => c.(sign := m)
  }

  /** What the import of a PEM gives without the cache, or None when it throws. */
  type Importer<!V> = (Use, string) -> Option<V>

  class KeyStore<V> {
    const pub: ExpiringMap<V>
    const verify: ExpiringMap<V>
    const dec: ExpiringMap<V>
    const sign: ExpiringMap<V>

    ghost predicate Valid()
      reads this
    {
      pub != verify && pub != dec && pub != sign && verify != dec && verify != sign && dec != sign
    }

    ghost function View(): Caches<V>
      reads this, pub, verify, dec, sign
    {
      Caches(pub.entries, verify.entries, dec.entries, sign.entries)
    }

    constructor ()
      ensures Valid() && fresh(pub) && fresh(verify) && fresh(dec) && fresh(sign)
      ensures View() == Caches([], [], [], [])
    {
      pub := new ExpiringMap();
      verify := new ExpiringMap();
      dec := new ExpiringMap();
      sign := new ExpiringMap();
    }

    function MapOf(s: Slot): ExpiringMap<V> {
      match s
      case Public => pub
      case PublicVerify => verify
      case PrivateDec => dec
      case PrivateSign => sign
    }

    /** An import that nothing else runs into while it waits for the browser. */
    method Import(u: Use, pem: string, imp: Importer<V>, now: int, stamp: int) returns (value: Option<V>)
      requires Valid()
      modifies pub, verify, dec, sign
      ensures var (before, hit) := CacheGet(old(At(View(), SlotOf(u))), KeyFor(u, pem), now, stamp);
              && value == (if hit.Some? then hit else imp(u, pem))
              && View() == With(old(View()), SlotOf(u),
                             if hit.None? && value.Some? then CacheSet(before, KeyFor(u, pem), value.value, now, stamp)
                             else before)
    {
      var m := MapOf(SlotOf(u));
      value := m.Get(KeyFor(u, pem), now, stamp);
      if value.None? {
        value := imp(u, pem);
        if value.Some? {
          m.Set(KeyFor(u, pem), value.value, now, stamp);
        }
      }
    }
  }
}
