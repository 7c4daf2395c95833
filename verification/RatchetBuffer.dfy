/**
 The skipped-key buffer of one session, for any state and any headers: which of its own keys a call
 evicts.
 */
module RatchetBuffer {
  import opened Common
  import opened Crypto
  import opened DoubleRatchet
  import opened RatchetHistory
  import opened RatchetChannel

  /** No key of this chain from `from` to `until - 1` is in the buffer yet. */
  ghost predicate FreshKeys(d: Dict, dh: PublicKey, from: nat, until: nat) {
    forall i, n :: 0 <= i < |d| && from <= n < until ==> d[i].key != SkipKey(dh, n)
  }

  /** The keys `from` to `until - 1` of a chain whose current key is `chain`. */
  ghost function NewEntries(dh: PublicKey, chain: Secret, from: nat, until: nat): (d: Dict)
    requires from <= until
    ensures |d| == until - from
    ensures forall i :: 0 <= i < |d| ==> d[i] == Entry(SkipKey(dh, from + i), MessageKey(Advance(chain, i)))
  {
    seq(until - from, i requires 0 <= i => Entry(SkipKey(dh, from + i), MessageKey(Advance(chain, i))))
  }

  // ---------- Dictionaries ----------

  lemma {:induction false} LookupAbsent(d: Dict, key: SkipKey)
    ensures Lookup(d, key).None? <==> forall i :: 0 <= i < |d| ==> d[i].key != key
  {
    if d != [] {
      LookupAbsent(d[1..], key);
      assert forall i :: 0 < i < |d| ==> d[i] == d[1..][i - 1];
      assert forall i :: 0 <= i < |d[1..]| ==> d[1..][i] == d[i + 1];
    }
  }

  lemma {:induction false} LookupAt(d: Dict, j: nat)
    requires j < |d| && forall i :: 0 <= i < j ==> d[i].key != d[j].key
    ensures Lookup(d, d[j].key) == Some(d[j].mk)
  {
    if j > 0 {
      assert d[0].key != d[j].key && d[1..][j - 1] == d[j];
      assert forall i :: 0 <= i < j - 1 ==> d[1..][i] == d[i + 1];
      LookupAt(d[1..], j - 1);
    }
  }

  /** An entry with a key of its own is found after eviction exactly when it is among the last ones. */
  lemma LookupRecent(d: Dict, j: nat)
    requires j < |d| && forall i :: 0 <= i < |d| && i != j ==> d[i].key != d[j].key
    ensures Lookup(Recent(d), d[j].key) == if |d| - (j + 1) < DR_MAX_SKIP then Some(d[j].mk) else None
  {
    var r := Recent(d);
    var from := |d| - |r|;
    assert forall i :: 0 <= i < |r| ==> r[i] == d[from + i];
    if j >= from {
      LookupAt(r, j - from);
    } else {
      LookupAbsent(r, d[j].key);
    }
  }

  /** Every key of `own` is different from all others of the two dictionaries. */
  ghost predicate NewKeys(d: Dict, own: Dict) {
    && (forall i, j :: 0 <= i < |d| && 0 <= j < |own| ==> d[i].key != own[j].key)
    && (forall i, j :: 0 <= i < j < |own| ==> own[i].key != own[j].key)
  }

  /** After eviction, exactly the last `DR_MAX_SKIP` of the appended keys are there. */
  lemma OwnFound(d: Dict, own: Dict, j: nat)
    requires NewKeys(d, own) && j < |own|
    ensures Lookup(Recent(d + own), own[j].key) == if |own| - (j + 1) < DR_MAX_SKIP then Some(own[j].mk) else None
  {
    hide Recent, Lookup;
    assert (d + own)[|d| + j] == own[j];
    LookupRecent(d + own, |d| + j);
  }

  // ---------- One skip ----------

  lemma {:induction false} AdvanceShift(chain: Secret, n: nat)
    ensures Advance(NextChain(chain), n) == Advance(chain, n + 1)
  {
    if n > 0 {
      AdvanceShift(chain, n - 1);
    }
  }

  lemma NewEntriesHead(dh: PublicKey, chain: Secret, from: nat, until: nat)
    requires from < until
    ensures NewEntries(dh, chain, from, until)
         == [Entry(SkipKey(dh, from), MessageKey(chain))] + NewEntries(dh, NextChain(chain), from + 1, until)
  {
    forall i | 0 <= i < until - from - 1
      ensures Advance(NextChain(chain), i) == Advance(chain, i + 1)
    {
      AdvanceShift(chain, i);
    }
  }

  /** The skip loop appends the keys of its chain when none of them is in the buffer. */
  lemma {:induction false} SkipLoopAppends(st: State, until: nat)
    requires st.CKr.Some? && st.DHr.Some? && st.Nr <= until
    requires FreshKeys(st.MKSKIPPED, st.DHr.value, st.Nr, until)
    ensures SkipLoop(st, until)
         == st.(Nr := until, CKr := Some(Advance(st.CKr.value, until - st.Nr)),
                MKSKIPPED := st.MKSKIPPED + NewEntries(st.DHr.value, st.CKr.value, st.Nr, until))
    decreases until - st.Nr
  {
    var chain, dh := st.CKr.value, st.DHr.value;
    if st.Nr == until {
      assert st.MKSKIPPED + NewEntries(dh, chain, until, until) == st.MKSKIPPED;
    } else {
      var e := Entry(SkipKey(dh, st.Nr), MessageKey(chain));
      LookupAbsent(st.MKSKIPPED, e.key);
      StoreAppends(st.MKSKIPPED, e.key, e.mk);
      var next := st.(CKr := Some(NextChain(chain)), Nr := st.Nr + 1, MKSKIPPED := st.MKSKIPPED + [e]);
      assert SkipLoop(st, until) == SkipLoop(next, until);
      SkipLoopAppends(next, until);
      NewEntriesHead(dh, chain, st.Nr, until);
      AdvanceShift(chain, until - st.Nr - 1);
      assert st.MKSKIPPED + [e] + NewEntries(dh, NextChain(chain), st.Nr + 1, until)
          == st.MKSKIPPED + NewEntries(dh, chain, st.Nr, until);
    }
  }

  /** What `_skipMessageKeys` puts into the buffer; nothing without a chain or when already past. */
  ghost function Skipped(st: State, until: nat): Dict
    requires st.CKr.Some? ==> st.DHr.Some?
  {
    if st.CKr.None? || st.Nr > until then []
    else NewEntries(st.DHr.value, st.CKr.value, st.Nr, until)
  }

  ghost predicate FreshSkip(st: State, until: nat)
    requires st.CKr.Some? ==> st.DHr.Some?
  {
    st.CKr.Some? && st.Nr <= until ==> FreshKeys(st.MKSKIPPED, st.DHr.value, st.Nr, until)
  }

  lemma SkipBuffer(st: State, until: nat)
    requires WellFormed(st) && SkipAllowed(st, until) && FreshSkip(st, until)
    ensures Skip(st, until).MKSKIPPED == Recent(st.MKSKIPPED + Skipped(st, until))
    ensures |Skipped(st, until)| <= DR_MAX_SKIP
    ensures st.CKr.Some? && st.Nr <= until ==>
              Skip(st, until).Nr == until && Skip(st, until).CKr == Some(Advance(st.CKr.value, until - st.Nr))
  {
    if st.CKr.Some? && st.Nr <= until {
      SkipLoopAppends(st, until);
    } else {
      assert st.MKSKIPPED + [] == st.MKSKIPPED;
    }
  }

  lemma SkippedKeys(st: State, until: nat, n: nat)
    requires st.CKr.Some? && st.DHr.Some? && FreshSkip(st, until) && st.Nr <= n < until
    ensures NewKeys(st.MKSKIPPED, Skipped(st, until)) && |Skipped(st, until)| == until - st.Nr
    ensures Skipped(st, until)[n - st.Nr]
         == Entry(SkipKey(st.DHr.value, n), MessageKey(Advance(st.CKr.value, n - st.Nr)))
  {
  }

  /** A single skip over fresh keys never evicts a key that it has just stored. */
  lemma SkipKeepsOwn(st: State, until: nat, n: nat)
    requires WellFormed(st) && SkipAllowed(st, until) && FreshSkip(st, until)
    requires st.CKr.Some? && st.Nr <= n < until
    ensures Lookup(Skip(st, until).MKSKIPPED, SkipKey(st.DHr.value, n))
         == Some(MessageKey(Advance(st.CKr.value, n - st.Nr)))
  {
    hide Skip, Lookup, Recent, NewKeys, Skipped, FreshSkip, Advance;
    SkippedKeys(st, until, n);
    SkipBuffer(st, until);
    OwnFound(st.MKSKIPPED, Skipped(st, until), n - st.Nr);
  }

  // ---------- One call of `decrypt` ----------

  /** A message with a new key that the session neither refuses nor finds in the buffer. */
  ghost predicate StartsRatchet(st: State, msg: Message) {
    && WellFormed(st) && NeedsRatchet(st, msg.header.dh)
    && Lookup(st.MKSKIPPED, SkipKey(msg.header.dh, msg.header.n)).None?
    && SkipAllowed(st, msg.header.pn) && msg.header.n <= DR_MAX_SKIP
    && FreshSkip(st, msg.header.pn) && FreshKeys(st.MKSKIPPED, msg.header.dh, 0, msg.header.n)
  }

  /** The start of the receiving chain that the message's key leads to. */
  ghost function NewChain(st: State, msg: Message): Secret {
    ChainOf(st.RK, Dh(st.DHs, msg.header.dh))
  }

  /** Everything one `decrypt` stores: the rest of the old chain, then the new chain up to the message. */
  ghost function Own(st: State, msg: Message): Dict
    requires WellFormed(st)
  {
    Skipped(st, msg.header.pn) + NewEntries(msg.header.dh, NewChain(st, msg), 0, msg.header.n)
  }

  lemma FreshAfterSkip(st: State, until: nat, dh: PublicKey, n: nat)
    requires WellFormed(st) && SkipAllowed(st, until) && FreshSkip(st, until)
    requires NeedsRatchet(st, dh) && FreshKeys(st.MKSKIPPED, dh, 0, n)
    ensures FreshKeys(Skip(st, until).MKSKIPPED, dh, 0, n)
  {
    SkipBuffer(st, until);
    var all := st.MKSKIPPED + Skipped(st, until);
    var r := Recent(all);
    forall i, x | 0 <= i < |r| && 0 <= x < n
      ensures r[i].key != SkipKey(dh, x)
    {
      assert r[i] == all[|all| - |r| + i];
    }
  }

  /** Two skips in one call add up before the last eviction. */
  lemma DecryptBuffer(st: State, msg: Message, newKey: nat)
    requires StartsRatchet(st, msg)
    ensures Decrypt(st, msg, newKey).0.MKSKIPPED == Recent(st.MKSKIPPED + Own(st, msg))
  {
    var pn, n, dh := msg.header.pn, msg.header.n, msg.header.dh;
    var r := Ratchet(Skip(st, pn), dh, newKey);
    DecryptFresh(st, msg, newKey);
    assert r.CKr == Some(NewChain(st, msg)) && r.Nr == 0 && r.DHr == Some(dh) && r.MKSKIPPED == Skip(st, pn).MKSKIPPED;
    assert WellFormed(r) && SkipAllowed(r, n);
    FreshAfterSkip(st, pn, dh, n);
    assert Receive(r, msg).0.MKSKIPPED == Skip(r, n).MKSKIPPED;
    hide Skip, Decrypt, Receive, Ratchet, Recent;
    SkipBuffer(st, pn);
    SkipBuffer(r, n);
    RecentAppend(st.MKSKIPPED + Skipped(st, pn), Skipped(r, n));
    AppendAssociates(st.MKSKIPPED, Skipped(st, pn), Skipped(r, n));
  }

  lemma AppendAssociates(a: Dict, b: Dict, c: Dict)
    ensures a + b + c == a + (b + c)
  {
  }

  lemma OwnKeysNew(st: State, msg: Message)
    requires StartsRatchet(st, msg)
    ensures NewKeys(st.MKSKIPPED, Own(st, msg))
  {
  }

  /** Of the keys a call stores, exactly the last `DR_MAX_SKIP` are there when it returns. */
  lemma DecryptKeepsLast(st: State, msg: Message, newKey: nat, j: nat)
    requires StartsRatchet(st, msg) && j < |Own(st, msg)|
    ensures Lookup(Decrypt(st, msg, newKey).0.MKSKIPPED, Own(st, msg)[j].key)
         == if |Own(st, msg)| - (j + 1) < 100 then Some(Own(st, msg)[j].mk) else None
  {
    assert WellFormed(st);
    hide Decrypt, StartsRatchet, Own, Lookup, Recent, WellFormed, NewKeys;
    DecryptBuffer(st, msg, newKey);
    OwnKeysNew(st, msg);
    OwnFound(st.MKSKIPPED, Own(st, msg), j);
  }

  ghost predicate KeepsOwn(st: State, msg: Message, newKey: nat)
    requires WellFormed(st)
  {
    forall j :: 0 <= j < |Own(st, msg)| ==>
      Lookup(Decrypt(st, msg, newKey).0.MKSKIPPED, Own(st, msg)[j].key) == Some(Own(st, msg)[j].mk)
  }

  /** What the call has to skip on the old chain. */
  ghost function OldGap(st: State, msg: Message): nat {
    if st.CKr.None? || st.Nr > msg.header.pn then 0 else msg.header.pn - st.Nr
  }

  /**
   A call whose two gaps are each within the limit can still evict keys of its own: it keeps all of
   them exactly when the gaps together are within the limit.
   */
  lemma DecryptKeepsOwnExactly(st: State, msg: Message, newKey: nat)
    requires StartsRatchet(st, msg)
    ensures |Own(st, msg)| == OldGap(st, msg) + msg.header.n
    ensures KeepsOwn(st, msg, newKey) <==> OldGap(st, msg) + msg.header.n <= 100
  {
    assert |Own(st, msg)| == OldGap(st, msg) + msg.header.n;
    assert WellFormed(st);
    hide Decrypt, StartsRatchet, Own, Lookup, OldGap, WellFormed;
    forall j | 0 <= j < |Own(st, msg)|
      ensures Lookup(Decrypt(st, msg, newKey).0.MKSKIPPED, Own(st, msg)[j].key)
           == if |Own(st, msg)| - (j + 1) < DR_MAX_SKIP then Some(Own(st, msg)[j].mk) else None
    {
      DecryptKeepsLast(st, msg, newKey, j);
    }
    if KeepsOwn(st, msg, newKey) && |Own(st, msg)| > 0 {
      assert Lookup(Decrypt(st, msg, newKey).0.MKSKIPPED, Own(st, msg)[0].key) == Some(Own(st, msg)[0].mk);
    }
  }
}
