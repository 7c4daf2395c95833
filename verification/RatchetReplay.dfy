/**
 Messages delivered again after their key is gone: what such a delivery does to the session, given
 that `decrypt` moves its chains before it looks at the ciphertext.
 */
module RatchetReplay {
  import opened Common
  import opened Crypto
  import opened DoubleRatchet
  import opened RatchetHistory
  import opened RatchetChannel
  import opened RatchetTheorems

  // ---------- On the current chain ----------

  /**
   A passed message of the current chain takes the key of the next one.  The session stays aligned
   exactly when that next message was already sent, and then it is the one that gets lost.
   */
  lemma ReplaySpendsNext(h: History, e: End, id: MsgId, newKey: nat)
    requires h.Valid() && Aligned(h, e) && Addressed(h, e, id) && h.InSchedule(id) && WellFormed(e.st)
    requires id !in Recent(e.stored) && id.chain + 1 == e.index && id.n < e.st.Nr
    ensures e.st.CKr.Some?
    ensures var after := e.st.(CKr := Some(NextChain(e.st.CKr.value)), Nr := e.st.Nr + 1);
            var next := MsgId(id.chain, e.st.Nr);
            && Decrypt(e.st, h.Packet(id), newKey) == (after, Unreadable)
            && (Aligned(h, e.(st := after)) <==> h.WasSent(next))
            && (h.WasSent(next) && newKey !in h.keys ==>
                  && Decrypt(e.st, h.Packet(next), newKey).1 == Plain(h.TextOf(next))
                  && Decrypt(after, h.Packet(next), newKey).1 == Unreadable)
  {
    var next := MsgId(id.chain, e.st.Nr);
    var after := e.(st := e.st.(CKr := Some(NextChain(e.st.CKr.value)), Nr := e.st.Nr + 1));
    assert e.st.CKr.Some? && h.InSchedule(next);
    ReplayStep(h, e, id, newKey);
    StoredNotNext(h, e, next);
    assert Aligned(h, after) ==> e.st.Nr < h.Len(id.chain);
    if h.WasSent(next) && newKey !in h.keys {
      hide Aligned, Decrypt, Recent;
      TakeAligned(h, e);
      DeliveryExact(h, e, next, newKey);
      PassedInChainFails(h, after, next, newKey);
    } else if h.WasSent(next) {
      TakeAligned(h, e);
    }
  }

  lemma ReplayStep(h: History, e: End, id: MsgId, newKey: nat)
    requires h.Valid() && Aligned(h, e) && Addressed(h, e, id) && h.InSchedule(id) && WellFormed(e.st)
    requires id !in Recent(e.stored) && id.chain + 1 == e.index && id.n < e.st.Nr && e.st.CKr.Some?
    ensures Decrypt(e.st, h.Packet(id), newKey)
         == (e.st.(CKr := Some(NextChain(e.st.CKr.value)), Nr := e.st.Nr + 1), Unreadable)
  {
    hide Aligned, Recent;
    PassedInChainFails(h, e, id, newKey);
    MessageFacts(h, e, id);
  }

  lemma StoredNotNext(h: History, e: End, next: MsgId)
    requires h.Valid() && Aligned(h, e) && next.chain + 1 == e.index && next.n == e.st.Nr
    ensures next !in Recent(e.stored) && !Passed(h, e, next)
  {
    RecentSubset(e.stored);
    assert forall x <- Recent(e.stored) :: Passed(h, e, x);
  }

  // ---------- On an older chain ----------

  /** The start of the chain that a chain key belongs to. */
  function ChainStart(chain: Secret): Secret {
    if chain.NextChain? then ChainStart(chain.chain) else chain
  }

  lemma {:induction false} StartOfAdvanced(chain: Secret, n: nat)
    ensures ChainStart(Advance(chain, n)) == ChainStart(chain)
  {
    if n > 0 {
      StartOfAdvanced(chain, n - 1);
    }
  }

  /** The chain key does not belong to the chain that the conversation has for this public key. */
  ghost predicate OffChain(h: History, dh: PublicKey, chain: Secret) {
    && ChainStart(chain).ChainOf?
    && forall c :: 1 <= c < |h.keys| && dh == PublicKey(h.keys[c]) ==>
         Depth(ChainStart(chain).root) != Depth(h.root) + c - 1
  }

  lemma OffChainKey(h: History, chain: Secret, x: MsgId)
    requires h.InSchedule(x) && OffChain(h, PublicKey(h.keys[x.chain]), chain)
    ensures MessageKey(chain) != h.KeyOf(x)
  {
    StartOfAdvanced(Chain(h.root, h.keys, x.chain), x.n);
    RootDepth(h.root, h.keys, x.chain - 1);
  }

  /** An entry that is no key of the conversation. */
  ghost predicate Foreign(h: History, entry: Entry) {
    forall x: MsgId :: h.InSchedule(x) && entry.key == SkipKey(PublicKey(h.keys[x.chain]), x.n) ==>
      entry.mk != h.KeyOf(x)
  }

  /** Whatever is in the buffer and was not there before is no key of the conversation. */
  ghost predicate OnlyForeignAdded(h: History, before: Dict, d: Dict) {
    forall i :: 0 <= i < |d| ==> d[i] in before || Foreign(h, d[i])
  }

  /**
   The session has left the conversation: its receiving chain is not the one that belongs to the
   header key, and its root key lies beyond every root key of the conversation.
   */
  ghost predicate Astray(h: History, st: State, before: Dict) {
    && WellFormed(st)
    && st.CKr.Some? && OffChain(h, st.DHr.value, st.CKr.value)
    && Depth(st.RK) >= Depth(h.root) + |h.keys|
    && OnlyForeignAdded(h, before, st.MKSKIPPED)
  }

  lemma {:induction false} LookupMember(d: Dict, key: SkipKey)
    ensures match Lookup(d, key)
            case None => true
            case Some(mk) => Entry(key, mk) in d
  {
    if d != [] && d[0].key != key {
      LookupMember(d[1..], key);
    }
  }

  /** Storing puts in one entry and removes at most the old one. */
  lemma {:induction false} StoreMembers(d: Dict, key: SkipKey, mk: Secret)
    ensures forall i :: 0 <= i < |Store(d, key, mk)| ==> Store(d, key, mk)[i] in d + [Entry(key, mk)]
  {
    if d != [] && d[0].key != key {
      StoreMembers(d[1..], key, mk);
    }
  }

  lemma StoreForeign(h: History, before: Dict, d: Dict, dh: PublicKey, n: nat, chain: Secret)
    requires OnlyForeignAdded(h, before, d) && OffChain(h, dh, chain)
    ensures OnlyForeignAdded(h, before, Store(d, SkipKey(dh, n), MessageKey(chain)))
  {
    var entry := Entry(SkipKey(dh, n), MessageKey(chain));
    forall x: MsgId | h.InSchedule(x) && entry.key == SkipKey(PublicKey(h.keys[x.chain]), x.n)
      ensures entry.mk != h.KeyOf(x)
    {
      OffChainKey(h, chain, x);
    }
    assert Foreign(h, entry);
    var s := Store(d, entry.key, entry.mk);
    StoreMembers(d, entry.key, entry.mk);
    hide Foreign, OffChain, Store;
    forall i | 0 <= i < |s|
      ensures s[i] in before || Foreign(h, s[i])
    {
      if s[i] != entry {
        assert s[i] in d;
      }
    }
  }

  lemma RecentForeign(h: History, before: Dict, d: Dict)
    requires OnlyForeignAdded(h, before, d)
    ensures OnlyForeignAdded(h, before, Recent(d))
  {
    hide Foreign;
  }

  /** A state of the skip loop, where the buffer may be larger than it will be. */
  ghost predicate Strays(h: History, st: State, before: Dict) {
    && st.CKr.Some? && st.DHr.Some? && OffChain(h, st.DHr.value, st.CKr.value)
    && OnlyForeignAdded(h, before, st.MKSKIPPED)
  }

  lemma {:induction false} SkipLoopStrays(h: History, st: State, before: Dict, until: nat)
    requires Strays(h, st, before)
    ensures Strays(h, SkipLoop(st, until), before)
    decreases until - st.Nr
  {
    if st.Nr < until {
      var chain := st.CKr.value;
      StoreForeign(h, before, st.MKSKIPPED, st.DHr.value, st.Nr, chain);
      assert OffChain(h, st.DHr.value, NextChain(chain));
      hide OffChain, OnlyForeignAdded;
      var next := st.(CKr := Some(NextChain(chain)), Nr := st.Nr + 1,
                      MKSKIPPED := Store(st.MKSKIPPED, SkipKey(st.DHr.value, st.Nr), MessageKey(chain)));
      SkipLoopStrays(h, next, before, until);
    }
  }

  lemma SkipAstray(h: History, st: State, before: Dict, until: nat)
    requires Astray(h, st, before) && SkipAllowed(st, until)
    ensures Astray(h, Skip(st, until), before)
  {
    hide OffChain, OnlyForeignAdded;
    if st.Nr <= until {
      SkipLoopStrays(h, st, before, until);
      RecentForeign(h, before, SkipLoop(st, until).MKSKIPPED);
    }
  }

  lemma RatchetAstray(h: History, st: State, before: Dict, dh: PublicKey, newKey: nat)
    requires Astray(h, st, before)
    ensures Astray(h, Ratchet(st, dh, newKey), before)
  {
  }

  /** Receiving stays astray and opens no message of the conversation. */
  lemma ReceiveAstray(h: History, st: State, before: Dict, msg: Message)
    requires Astray(h, st, before)
    ensures Astray(h, Receive(st, msg).0, before)
    ensures forall x: MsgId :: h.InSchedule(x) && h.WasSent(x) && msg == h.Packet(x) && st.DHr == Some(msg.header.dh) ==>
              Receive(st, msg).1 == Unreadable || Receive(st, msg).1.TooManySkipped?
  {
    if SkipAllowed(st, msg.header.n) {
      SkipAstray(h, st, before, msg.header.n);
      var s := Skip(st, msg.header.n);
      assert OffChain(h, s.DHr.value, NextChain(s.CKr.value));
      forall x: MsgId | h.InSchedule(x) && h.WasSent(x) && msg == h.Packet(x) && st.DHr == Some(msg.header.dh)
        ensures Receive(st, msg).1 == Unreadable
      {
        OffChainKey(h, s.CKr.value, x);
      }
    }
  }

  lemma DecryptAstray(h: History, st: State, before: Dict, msg: Message, newKey: nat)
    requires Astray(h, st, before)
    ensures Astray(h, Decrypt(st, msg, newKey).0, before)
  {
    hide Astray, Ratchet, Skip, Receive, Lookup;
    assert WellFormed(st) by { StaysWellFormed(h, st, before); }
    if Lookup(st.MKSKIPPED, SkipKey(msg.header.dh, msg.header.n)) == None {
      if !NeedsRatchet(st, msg.header.dh) {
        ReceiveAstray(h, st, before, msg);
      } else if SkipAllowed(st, msg.header.pn) {
        SkipAstray(h, st, before, msg.header.pn);
        RatchetAstray(h, Skip(st, msg.header.pn), before, msg.header.dh, newKey);
        ReceiveAstray(h, Ratchet(Skip(st, msg.header.pn), msg.header.dh, newKey), before, msg);
      }
    }
  }

  lemma StaysWellFormed(h: History, st: State, before: Dict)
    requires Astray(h, st, before)
    ensures WellFormed(st)
  {
  }

  /** A session astray reads right only what was in its buffer before. */
  lemma AstrayReads(h: History, st: State, before: Dict, x: MsgId, newKey: nat)
    requires Astray(h, st, before) && h.InSchedule(x) && h.WasSent(x)
    requires Decrypt(st, h.Packet(x), newKey).1 == Plain(h.TextOf(x))
    ensures h.EntryOf(x) in before
  {
    var msg := h.Packet(x);
    var key := SkipKey(msg.header.dh, msg.header.n);
    match Lookup(st.MKSKIPPED, key)
    case Some(mk) =>
      LookupMember(st.MKSKIPPED, key);
      assert mk == h.KeyOf(x);
      EntryWasThere(h, before, st.MKSKIPPED, x);
    case None =>
      hide Astray, Ratchet, Skip, Lookup;
      StaysWellFormed(h, st, before);
      if !NeedsRatchet(st, msg.header.dh) {
        ReceiveAstray(h, st, before, msg);
      } else if SkipAllowed(st, msg.header.pn) {
        SkipAstray(h, st, before, msg.header.pn);
        var r := Ratchet(Skip(st, msg.header.pn), msg.header.dh, newKey);
        RatchetAstray(h, Skip(st, msg.header.pn), before, msg.header.dh, newKey);
        RatchetTakesHeader(Skip(st, msg.header.pn), msg.header.dh, newKey);
        ReceiveAstray(h, r, before, msg);
      }
  }

  lemma RatchetTakesHeader(st: State, dh: PublicKey, newKey: nat)
    ensures Ratchet(st, dh, newKey).DHr == Some(dh)
  {
  }

  lemma EntryWasThere(h: History, before: Dict, d: Dict, x: MsgId)
    requires OnlyForeignAdded(h, before, d) && h.InSchedule(x) && h.EntryOf(x) in d
    ensures h.EntryOf(x) in before
  {
    var i :| 0 <= i < |d| && d[i] == h.EntryOf(x);
    assert d[i].mk == h.KeyOf(x);
  }

  lemma {:induction false} CallsAstray(h: History, st: State, before: Dict, calls: seq<Call>)
    requires Astray(h, st, before)
    ensures WellFormed(st) && Astray(h, Calls(st, calls), before)
    decreases |calls|
  {
    StaysWellFormed(h, st, before);
    if calls != [] {
      match calls[0]
      case Encrypting(text, iv) =>
        assert Astray(h, Encrypt(st, text, iv).0, before);
        CallsAstray(h, Encrypt(st, text, iv).0, before, calls[1..]);
      case Decrypting(msg, newKey) =>
        hide Astray, Decrypt;
        DecryptAstray(h, st, before, msg, newKey);
        CallsAstray(h, Decrypt(st, msg, newKey).0, before, calls[1..]);
    }
  }

  /**
   A passed message of an older chain leads the session astray, unless it is refused before the
   ratchet, and then nothing changes.
   */
  lemma OldChainStrays(h: History, e: End, id: MsgId, newKey: nat)
    requires h.Valid() && Aligned(h, e) && Addressed(h, e, id) && WellFormed(e.st) && h.InSchedule(id)
    requires id !in Recent(e.stored) && id.chain + 1 < e.index
    ensures var after := Decrypt(e.st, h.Packet(id), newKey).0;
            if SkipAllowed(e.st, h.Len(id.chain - 2)) then Astray(h, after, after.MKSKIPPED) && after.RK != e.st.RK
            else after == e.st
  {
    hide Aligned, Astray, Decrypt, Receive, Skip, Ratchet, Recent, Lookup, Depth, Root, WellFormed, SkipAllowed;
    AlignedRoot(h, e);
    MessageFacts(h, e, id);
    var msg := h.Packet(id);
    if SkipAllowed(e.st, msg.header.pn) {
      DecryptFresh(e.st, msg, newKey);
      var st := Skip(e.st, msg.header.pn);
      RatchetStrays(h, st, e.index, id.chain, newKey);
      RootGrows(st, msg.header.dh, newKey);
      ReceiveLeaves(h, Ratchet(st, msg.header.dh, newKey), msg);
    } else {
      DecryptRefused(e.st, msg, newKey);
    }
  }

  lemma AlignedRoot(h: History, e: End)
    requires h.Valid() && Aligned(h, e)
    ensures e.index < |h.keys| <= e.index + 2 && e.st.RK == Root(h.root, h.keys, e.index)
  {
  }

  lemma DecryptRefused(st: State, msg: Message, newKey: nat)
    requires WellFormed(st) && NeedsRatchet(st, msg.header.dh) && !SkipAllowed(st, msg.header.pn)
    ensures Decrypt(st, msg, newKey).0 == st
  {
  }

  lemma RootGrows(st: State, dh: PublicKey, newKey: nat)
    ensures Depth(Ratchet(st, dh, newKey).RK) == Depth(st.RK) + 2
  {
  }

  lemma RatchetStrays(h: History, st: State, index: nat, chain: nat, newKey: nat)
    requires h.Valid() && WellFormed(st) && 1 <= chain < index < |h.keys| <= index + 2
    requires st.RK == Root(h.root, h.keys, index)
    ensures var r := Ratchet(st, PublicKey(h.keys[chain]), newKey);
            Astray(h, r, r.MKSKIPPED)
  {
    var r := Ratchet(st, PublicKey(h.keys[chain]), newKey);
    RootDepth(h.root, h.keys, index);
    HeaderNamesChain(h, chain);
    assert r.CKr.Some? && r.DHr == Some(PublicKey(h.keys[chain])) && ChainStart(r.CKr.value).root == st.RK;
    assert OffChain(h, r.DHr.value, r.CKr.value);
    assert Depth(r.RK) == Depth(st.RK) + 2;
    hide Foreign;
    assert OnlyForeignAdded(h, r.MKSKIPPED, r.MKSKIPPED);
  }

  lemma HeaderNamesChain(h: History, c: nat)
    requires h.Valid() && c < |h.keys|
    ensures forall b :: 1 <= b < |h.keys| && PublicKey(h.keys[c]) == PublicKey(h.keys[b]) ==> b == c
  {
  }

  /** With the buffer it leaves as the reference, whatever it had added itself counts as there. */
  lemma ReceiveLeaves(h: History, st: State, msg: Message)
    requires Astray(h, st, st.MKSKIPPED)
    ensures var after := Receive(st, msg).0; Astray(h, after, after.MKSKIPPED) && after.RK == st.RK
  {
    hide OffChain, Skip;
    ReceiveAstray(h, st, st.MKSKIPPED, msg);
  }

  /**
   And it never comes back: after any further calls, with any messages, the only messages of the
   conversation it reads are those whose keys were in the buffer when it went astray.  The peer may
   have gone on sending on its chain.
   */
  lemma NeverComesBack(
    h: History, e: End, id: MsgId, newKey: nat, calls: seq<Call>, later: History, x: MsgId, key: nat)
    requires h.Valid() && Aligned(h, e) && Addressed(h, e, id) && WellFormed(e.st) && h.InSchedule(id)
    requires id !in Recent(e.stored) && id.chain + 1 < e.index
    requires SkipAllowed(e.st, h.Len(id.chain - 2))
    requires later.root == h.root && later.keys == h.keys && later.InSchedule(x) && later.WasSent(x)
    ensures var after := Decrypt(e.st, h.Packet(id), newKey).0;
            && WellFormed(Calls(after, calls))
            && (Decrypt(Calls(after, calls), later.Packet(x), key).1 == Plain(later.TextOf(x)) ==>
                  later.EntryOf(x) in after.MKSKIPPED)
  {
    hide Aligned, Decrypt, Calls, Astray;
    var after := Decrypt(e.st, h.Packet(id), newKey).0;
    OldChainStrays(h, e, id, newKey);
    CallsAstray(h, after, after.MKSKIPPED, calls);
    var st := Calls(after, calls);
    SameSchedule(h, later, st, after.MKSKIPPED);
    StaysWellFormed(h, st, after.MKSKIPPED);
    if Decrypt(st, later.Packet(x), key).1 == Plain(later.TextOf(x)) {
      AstrayReads(later, st, after.MKSKIPPED, x, key);
    }
  }

  lemma SameSchedule(h: History, later: History, st: State, before: Dict)
    requires Astray(h, st, before) && later.root == h.root && later.keys == h.keys
    ensures Astray(later, st, before)
  {
    forall i | 0 <= i < |st.MKSKIPPED|
      ensures st.MKSKIPPED[i] in before || Foreign(later, st.MKSKIPPED[i])
    {
      if Foreign(h, st.MKSKIPPED[i]) {
        SameForeign(h, later, st.MKSKIPPED[i]);
      }
    }
  }

  lemma SameForeign(h: History, later: History, entry: Entry)
    requires Foreign(h, entry) && later.root == h.root && later.keys == h.keys
    ensures Foreign(later, entry)
  {
    forall x: MsgId | later.InSchedule(x) && entry.key == SkipKey(PublicKey(later.keys[x.chain]), x.n)
      ensures entry.mk != later.KeyOf(x)
    {
      assert h.InSchedule(x) && later.KeyOf(x) == h.KeyOf(x);
    }
  }
}
