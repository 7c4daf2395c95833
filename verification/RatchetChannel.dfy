/**
 Every step of a conversation keeps both ends aligned with the ideal key schedule.
 */
module RatchetChannel {
  import opened Common
  import opened Crypto
  import opened DoubleRatchet
  import opened RatchetHistory

  // ---------- The key schedule does not depend on later keys ----------

  lemma {:induction false} RootStable(root: Secret, keys: seq<nat>, more: seq<nat>, i: nat)
    requires i < |keys|
    ensures Root(root, keys + more, i) == Root(root, keys, i)
  {
    if i > 0 {
      RootStable(root, keys, more, i - 1);
    }
  }

  lemma ChainStable(root: Secret, keys: seq<nat>, more: seq<nat>, i: nat)
    requires 1 <= i < |keys|
    ensures Chain(root, keys + more, i) == Chain(root, keys, i)
  {
    RootStable(root, keys, more, i - 1);
  }

  lemma EntriesStable(h: History, key: nat, ids: seq<MsgId>)
    requires forall id <- ids :: h.InSchedule(id)
    ensures forall id <- ids :: h.Extend(key).InSchedule(id)
    ensures h.Extend(key).Entries(ids) == h.Entries(ids)
  {
    forall id | id in ids
      ensures h.InSchedule(id) && h.Extend(key).InSchedule(id)
      ensures h.Extend(key).EntryOf(id) == h.EntryOf(id)
    {
      ChainStable(h.root, h.keys, [key], id.chain);
    }
  }

  lemma ExtendValid(h: History, key: nat)
    requires h.Valid() && key !in h.keys
    ensures h.Extend(key).Valid()
  {
  }

  // ---------- The skipped-key buffer ----------

  lemma RecentAppend<T>(a: seq<T>, b: seq<T>)
    ensures Recent(Recent(a) + b) == Recent(a + b)
  {
  }

  lemma RecentSubset<T>(s: seq<T>)
    ensures forall x <- Recent(s) :: x in s
  {
  }

  lemma EntriesRecent(h: History, a: seq<MsgId>)
    requires forall id <- a :: h.InSchedule(id)
    ensures forall id <- Recent(a) :: h.InSchedule(id)
    ensures h.Entries(Recent(a)) == Recent(h.Entries(a))
  {
  }

  /** The buffer's string keys tell messages apart, because key pairs are different. */
  lemma EntryKeysDiffer(h: History, a: MsgId, b: MsgId)
    requires h.Valid() && h.InSchedule(a) && h.InSchedule(b) && a != b
    ensures h.EntryOf(a).key != SkipKey(PublicKey(h.keys[b.chain]), b.n)
  {
    if a.chain < b.chain {
      assert h.keys[a.chain] != h.keys[b.chain];
    } else if b.chain < a.chain {
      assert h.keys[b.chain] != h.keys[a.chain];
    }
  }

  /** A lookup finds exactly the messages whose keys are in the buffer. */
  lemma {:induction false} LookupEntries(h: History, ids: seq<MsgId>, id: MsgId)
    requires h.Valid() && h.InSchedule(id)
    requires forall x <- ids :: h.InSchedule(x)
    ensures Lookup(h.Entries(ids), SkipKey(PublicKey(h.keys[id.chain]), id.n))
         == if id in ids then Some(h.KeyOf(id)) else None
  {
    if ids != [] {
      LookupEntries(h, ids[1..], id);
      assert h.Entries(ids)[1..] == h.Entries(ids[1..]);
      assert id in ids <==> id == ids[0] || id in ids[1..];
      if ids[0] != id {
        EntryKeysDiffer(h, ids[0], id);
      }
    }
  }

  lemma StoreOne(h: History, ids: seq<MsgId>, id: MsgId)
    requires h.Valid() && h.InSchedule(id) && id !in ids
    requires forall x <- ids :: h.InSchedule(x)
    ensures forall x <- ids + [id] :: h.InSchedule(x)
    ensures Store(h.Entries(ids), SkipKey(PublicKey(h.keys[id.chain]), id.n), h.KeyOf(id)) == h.Entries(ids + [id])
  {
    LookupEntries(h, ids, id);
    StoreAppends(h.Entries(ids), SkipKey(PublicKey(h.keys[id.chain]), id.n), h.KeyOf(id));
  }

  /** The skip loop stores the ideal keys of the skipped messages, in order, at the end. */
  lemma {:induction false} SkipLoopStores(h: History, st: State, ids: seq<MsgId>, c: nat, until: nat)
    requires h.Valid() && 1 <= c < |h.keys| && st.Nr <= until
    requires st.DHr == Some(PublicKey(h.keys[c]))
    requires st.CKr == Some(Advance(Chain(h.root, h.keys, c), st.Nr))
    requires forall x <- ids :: h.InSchedule(x)
    requires st.MKSKIPPED == h.Entries(ids)
    requires forall x <- ids :: x.chain == c ==> x.n < st.Nr
    ensures forall x <- ids + Ids(c, st.Nr, until) :: h.InSchedule(x)
    ensures SkipLoop(st, until)
         == st.(CKr := Some(Advance(Chain(h.root, h.keys, c), until)), Nr := until,
                MKSKIPPED := h.Entries(ids + Ids(c, st.Nr, until)))
    decreases until - st.Nr
  {
    if st.Nr == until {
      assert ids + Ids(c, st.Nr, until) == ids;
    } else {
      hide Chain, Root, History.Entries, Store;
      var id := MsgId(c, st.Nr);
      StoreOne(h, ids, id);
      var next := st.(CKr := Some(NextChain(st.CKr.value)), Nr := st.Nr + 1, MKSKIPPED := h.Entries(ids + [id]));
      assert SkipLoop(st, until) == SkipLoop(next, until);
      assert next.CKr == Some(Advance(Chain(h.root, h.keys, c), next.Nr));
      SkipLoopStores(h, next, ids + [id], c, until);
      assert ids + [id] + Ids(c, st.Nr + 1, until) == ids + Ids(c, st.Nr, until);
    }
  }

  // ---------- Receiving keeps the alignment ----------

  lemma StoredGrows(h: History, e: End, st: State, until: nat)
    requires StoredValid(h, e) && e.index >= 2 && e.st.Nr <= until == st.Nr
    ensures StoredValid(h, End(e.index, st, e.stored + Ids(e.index - 1, e.st.Nr, until)))
  {
    var e' := End(e.index, st, e.stored + Ids(e.index - 1, e.st.Nr, until));
    forall i | 0 <= i < |e'.stored|
      ensures Passed(h, e', e'.stored[i])
    {
      if i < |e.stored| {
        assert Passed(h, e, e.stored[i]);
      }
    }
  }

  lemma SkipValue(h: History, e: End, until: nat)
    requires h.Valid() && Aligned(h, e) && e.index >= 2
    requires e.st.Nr <= until && SkipAllowed(e.st, until)
    ensures forall x <- Recent(e.stored + Ids(e.index - 1, e.st.Nr, until)) :: h.InSchedule(x)
    ensures Skip(e.st, until)
         == e.st.(CKr := Some(Advance(Chain(h.root, h.keys, e.index - 1), until)), Nr := until,
                  MKSKIPPED := h.Entries(Recent(e.stored + Ids(e.index - 1, e.st.Nr, until))))
  {
    var c := e.index - 1;
    var more := Ids(c, e.st.Nr, until);
    RecentSubset(e.stored);
    assert forall x <- Recent(e.stored) :: Passed(h, e, x);
    SkipLoopStores(h, e.st, Recent(e.stored), c, until);
    EntriesRecent(h, Recent(e.stored) + more);
    RecentAppend(e.stored, more);
  }

  lemma SkipAligned(h: History, e: End, until: nat)
    requires h.Valid() && Aligned(h, e) && e.index >= 2
    requires e.st.Nr <= until <= h.Len(e.index - 1) && SkipAllowed(e.st, until)
    ensures Skip(e.st, until).CKr == Some(Advance(Chain(h.root, h.keys, e.index - 1), until))
    ensures Skip(e.st, until).Nr == until
    ensures Aligned(h, End(e.index, Skip(e.st, until), e.stored + Ids(e.index - 1, e.st.Nr, until)))
  {
    hide Skip, SkipAllowed, Recent, StoredValid, Root, Chain, Advance, History.Entries;
    SkipValue(h, e, until);
    StoredGrows(h, e, Skip(e.st, until), until);
  }

  /** Taking the next key of the receiving chain. */
  lemma TakeAligned(h: History, e: End)
    requires h.Valid() && Aligned(h, e) && e.index >= 2 && e.st.Nr < h.Len(e.index - 1)
    ensures e.st.CKr.Some?
    ensures Aligned(h, e.(st := e.st.(CKr := Some(NextChain(e.st.CKr.value)), Nr := e.st.Nr + 1)))
  {
    var e' := e.(st := e.st.(CKr := Some(NextChain(e.st.CKr.value)), Nr := e.st.Nr + 1));
    StoredStays(h, e, e');
    hide StoredValid, Recent, Root, Chain, History.Entries;
  }

  lemma StoredStays(h: History, e: End, e': End)
    requires StoredValid(h, e) && e'.index == e.index && e'.stored == e.stored && e.st.Nr <= e'.st.Nr
    ensures StoredValid(h, e')
  {
    forall i | 0 <= i < |e.stored|
      ensures Passed(h, e', e.stored[i])
    {
      assert Passed(h, e, e.stored[i]);
    }
  }

  lemma StoredAfterRatchet(h: History, e: End, key: nat, st: State)
    requires h.Valid() && StoredValid(h, e) && e.st.Nr <= h.Len(e.index - 1)
    ensures StoredValid(h.Extend(key), End(e.index + 2, st, e.stored))
  {
    forall i | 0 <= i < |e.stored|
      ensures Passed(h.Extend(key), End(e.index + 2, st, e.stored), e.stored[i])
    {
      assert Passed(h, e, e.stored[i]);
    }
  }

  lemma StoredScheduled(h: History, e: End)
    requires h.Valid() && Aligned(h, e)
    ensures forall x <- Recent(e.stored) :: h.InSchedule(x)
  {
    RecentSubset(e.stored);
    assert forall x <- Recent(e.stored) :: Passed(h, e, x);
  }

  /** From the header key alone the receiver gets the sender's root key and chain start. */
  lemma RatchetKeys(h: History, e: End, newKey: nat)
    requires h.Valid() && Aligned(h, e) && |h.keys| == e.index + 2
    ensures var h', st := h.Extend(newKey), Ratchet(e.st, PublicKey(h.keys[e.index + 1]), newKey);
            && st.CKr == Some(Chain(h'.root, h'.keys, e.index + 1))
            && st.RK == Root(h'.root, h'.keys, e.index + 2)
            && st.CKs == Some(Chain(h'.root, h'.keys, e.index + 2))
  {
    var h' := h.Extend(newKey);
    assert e.st.RK == Root(h.root, h.keys, e.index) && e.st.DHs == h.keys[e.index];
    hide Aligned;
    RootStable(h.root, h.keys, [newKey], e.index);
    DhCommutes(e.st.DHs, h.keys[e.index + 1]);
    assert Root(h'.root, h'.keys, e.index + 1)
        == RootOf(Root(h.root, h.keys, e.index), Dh(h.keys[e.index + 1], PublicKey(e.st.DHs)));
  }

  /**
   The DH ratchet: from the public key in the header alone the receiver reproduces the sender's root
   key and chain start, and then runs one step ahead with a key pair of its own.
   */
  lemma RatchetAligned(h: History, e: End, newKey: nat)
    requires h.Valid() && Aligned(h, e) && |h.keys| == e.index + 2 && newKey !in h.keys
    requires e.st.Nr == h.Len(e.index - 1)
    ensures h.Extend(newKey).Valid()
    ensures Aligned(h.Extend(newKey),
                    End(e.index + 2, Ratchet(e.st, PublicKey(h.keys[e.index + 1]), newKey), e.stored))
  {
    ExtendValid(h, newKey);
    RatchetKeys(h, e, newKey);
    StoredScheduled(h, e);
    EntriesStable(h, newKey, Recent(e.stored));
    StoredAfterRatchet(h, e, newKey, Ratchet(e.st, PublicKey(h.keys[e.index + 1]), newKey));
    hide StoredValid, Recent, Root, Chain, History.Entries;
  }

  // ---------- Delivery ----------

  /** What alignment says about an end's place in the schedule. */
  lemma AlignedShape(h: History, e: End)
    requires h.Valid() && Aligned(h, e)
    ensures WellFormed(e.st) && e.index < |h.keys| == |h.notes| <= e.index + 2
    ensures e.index <= 1 ==> e.st.CKr == None && e.st.Nr == 0
    ensures e.index >= 2 ==> e.st.CKr.Some?
  {
  }

  lemma ReceiveAligned(h: History, e: End, id: MsgId)
    requires h.Valid() && Aligned(h, e) && Addressed(h, e, id)
    requires id.chain + 1 == e.index && id.n >= e.st.Nr
    ensures WellFormed(e.st)
    ensures var msg := h.Packet(id);
            var r := Receive(e.st, msg);
            if id.n <= e.st.Nr + DR_MAX_SKIP then
              && r.1 == Plain(h.TextOf(id))
              && r.0.Nr == id.n + 1 && r.0.DHs == e.st.DHs
              && Aligned(h, End(e.index, r.0, e.stored + Ids(e.index - 1, e.st.Nr, id.n)))
            else r.0 == e.st && r.1.TooManySkipped?
  {
    hide Aligned, Skip, WellFormed;
    AlignedShape(h, e);
    if id.n <= e.st.Nr + DR_MAX_SKIP {
      SkipAligned(h, e, id.n);
      var skipped := End(e.index, Skip(e.st, id.n), e.stored + Ids(e.index - 1, e.st.Nr, id.n));
      TakeAligned(h, skipped);
      assert Receive(e.st, h.Packet(id)).1 == Reveal(h.KeyOf(id), h.Packet(id));
    }
  }

  lemma AdvanceEnd(h: History, e: End, id: MsgId)
    requires h.Valid() && Aligned(h, e) && Addressed(h, e, id) && e.index >= 1
    requires id.chain == e.index + 1
    requires h.Len(e.index - 1) <= e.st.Nr + DR_MAX_SKIP
    ensures SkipAllowed(e.st, h.Len(e.index - 1))
    ensures var st := Skip(e.st, h.Len(e.index - 1));
            && st.Nr == h.Len(e.index - 1)
            && Aligned(h, End(e.index, st, e.stored + Ids(e.index - 1, e.st.Nr, h.Len(e.index - 1))))
  {
    if e.index >= 2 {
      SkipAligned(h, e, h.Len(e.index - 1));
    } else {
      assert e.stored + Ids(e.index - 1, e.st.Nr, h.Len(e.index - 1)) == e.stored;
    }
  }

  /** The receiver right after its DH ratchet, before it takes any key of the new chain. */
  ghost function AfterRatchet(h: History, e: End, id: MsgId, newKey: nat): End
    requires h.WasSent(id) && h.InSchedule(id) && WellFormed(e.st)
    requires SkipAllowed(e.st, h.Len(e.index - 1))
  {
    var more := if e.index == 0 then [] else Ids(e.index - 1, e.st.Nr, h.Len(e.index - 1));
    End(e.index + 2, Ratchet(Skip(e.st, h.Len(e.index - 1)), PublicKey(h.keys[id.chain]), newKey), e.stored + more)
  }

  lemma SkipNothing(st: State, until: nat)
    requires st.CKr.None?
    ensures SkipAllowed(st, until) && Skip(st, until) == st
  {
  }

  /** A message of the peer's new chain: skip to the end of the old one, ratchet, receive. */
  lemma RatchetDelivery(h: History, e: End, id: MsgId, newKey: nat)
    requires h.Valid() && Aligned(h, e) && Addressed(h, e, id) && newKey !in h.keys
    requires id.chain == e.index + 1
    requires h.Len(e.index - 1) <= e.st.Nr + DR_MAX_SKIP
    ensures SkipAllowed(e.st, h.Len(e.index - 1)) && WellFormed(e.st)
    ensures h.Extend(newKey).Valid()
    ensures Aligned(h.Extend(newKey), AfterRatchet(h, e, id, newKey))
  {
    hide Aligned, Ratchet, Skip, SkipAllowed, WellFormed;
    AlignedShape(h, e);
    if e.index >= 1 {
      AdvanceEnd(h, e, id);
      var more := Ids(e.index - 1, e.st.Nr, h.Len(e.index - 1));
      RatchetAligned(h, End(e.index, Skip(e.st, h.Len(e.index - 1)), e.stored + more), newKey);
    } else {
      assert e.stored + [] == e.stored;
      SkipNothing(e.st, h.Len(e.index - 1));
      RatchetAligned(h, e, newKey);
    }
  }

  /** What the receiver finds out about an honest message before it touches any key. */
  lemma MessageFacts(h: History, e: End, id: MsgId)
    requires h.Valid() && Aligned(h, e) && Addressed(h, e, id)
    ensures h.InSchedule(id) && id.chain <= e.index + 1 && WellFormed(e.st)
    ensures e.st.DHs in h.keys
    ensures SkipAllowed(e.st, h.Len(e.index - 1)) <==> h.Len(e.index - 1) <= e.st.Nr + DR_MAX_SKIP
    ensures NeedsRatchet(e.st, h.Packet(id).header.dh) <==> id.chain + 1 != e.index
    ensures Lookup(e.st.MKSKIPPED, SkipKey(PublicKey(h.keys[id.chain]), id.n))
         == if id in Recent(e.stored) then Some(h.KeyOf(id)) else None
    ensures forall key :: Reveal(key, h.Packet(id)) == if key == h.KeyOf(id) then Plain(h.TextOf(id)) else Unreadable
  {
    RecentSubset(e.stored);
    assert forall x <- Recent(e.stored) :: Passed(h, e, x);
    LookupEntries(h, Recent(e.stored), id);
  }

  lemma PacketStable(h: History, key: nat, id: MsgId)
    requires h.Valid() && h.InSchedule(id) && h.WasSent(id)
    ensures h.Extend(key).InSchedule(id) && h.Extend(key).WasSent(id)
    ensures h.Extend(key).Packet(id) == h.Packet(id)
    ensures h.Extend(key).TextOf(id) == h.TextOf(id)
  {
    ChainStable(h.root, h.keys, [key], id.chain);
  }

  lemma DecryptFresh(st: State, msg: Message, newKey: nat)
    requires WellFormed(st) && SkipAllowed(st, msg.header.pn) && NeedsRatchet(st, msg.header.dh)
    requires Lookup(st.MKSKIPPED, SkipKey(msg.header.dh, msg.header.n)) == None
    ensures Decrypt(st, msg, newKey) == Receive(Ratchet(Skip(st, msg.header.pn), msg.header.dh, newKey), msg)
  {
  }

  ghost function AfterFresh(h: History, e: End, id: MsgId, newKey: nat, st: State): End
    requires h.WasSent(id) && h.InSchedule(id) && WellFormed(e.st)
    requires SkipAllowed(e.st, h.Len(e.index - 1))
  {
    var reached := if st.Nr == 0 then 0 else st.Nr - 1;
    End(e.index + 2, st, AfterRatchet(h, e, id, newKey).stored + Ids(e.index + 1, 0, reached))
  }

  lemma DeliverRatcheted(h: History, e: End, id: MsgId, newKey: nat, r: (State, Outcome))
    requires h.WasSent(id) && h.InSchedule(id) && WellFormed(e.st) && SkipAllowed(e.st, h.Len(e.index - 1))
    requires h.Packet(id).header.pn == h.Len(e.index - 1)
    requires Decrypt(e.st, h.Packet(id), newKey) == r
    requires r.0.DHs == newKey != e.st.DHs
    ensures Deliver(h, e, h.Packet(id), newKey) == (h.Extend(newKey), AfterFresh(h, e, id, newKey, r.0), r.1)
  {
  }

  lemma ReceiveFresh(h: History, e: End, id: MsgId, newKey: nat)
    requires h.Valid() && Aligned(h, e) && Addressed(h, e, id) && newKey !in h.keys
    requires id.chain == e.index + 1
    requires h.Len(e.index - 1) <= e.st.Nr + DR_MAX_SKIP
    ensures WellFormed(e.st) && SkipAllowed(e.st, h.Len(e.index - 1))
    ensures h.Extend(newKey).Valid()
    ensures var e1 := AfterRatchet(h, e, id, newKey);
            var r := Receive(e1.st, h.Packet(id));
            && r.0.DHs == newKey != e.st.DHs
            && Aligned(h.Extend(newKey), AfterFresh(h, e, id, newKey, r.0))
            && if id.n <= DR_MAX_SKIP then r.1 == Plain(h.TextOf(id)) && r.0.Nr == id.n + 1
               else r.1.TooManySkipped?
  {
    hide Aligned;
    MessageFacts(h, e, id);
    RatchetDelivery(h, e, id, newKey);
    PacketStable(h, newKey, id);
    var e1 := AfterRatchet(h, e, id, newKey);
    ReceiveAligned(h.Extend(newKey), e1, id);
    assert e1.stored + Ids(e.index + 1, 0, 0) == e1.stored;
  }

  lemma DeliverFresh(h: History, e: End, id: MsgId, newKey: nat)
    requires h.Valid() && Aligned(h, e) && Addressed(h, e, id) && newKey !in h.keys
    requires id !in Recent(e.stored) && id.chain == e.index + 1
    requires h.Len(e.index - 1) <= e.st.Nr + DR_MAX_SKIP
    ensures WellFormed(e.st) && DeliveredWell(h, e, id, Deliver(h, e, h.Packet(id), newKey))
    ensures Moved(h, e, id, newKey, Deliver(h, e, h.Packet(id), newKey))
  {
    hide Aligned;
    MessageFacts(h, e, id);
    ReceiveFresh(h, e, id, newKey);
    DecryptFresh(e.st, h.Packet(id), newKey);
    DeliverRatcheted(h, e, id, newKey, Receive(AfterRatchet(h, e, id, newKey).st, h.Packet(id)));
  }

  /** The peer's old chain has too many unread messages: the exception leaves the session as it was. */
  lemma DeliverRefused(h: History, e: End, id: MsgId, newKey: nat)
    requires h.Valid() && Aligned(h, e) && Addressed(h, e, id)
    requires id !in Recent(e.stored) && id.chain == e.index + 1
    requires h.Len(e.index - 1) > e.st.Nr + DR_MAX_SKIP
    ensures WellFormed(e.st) && DeliveredWell(h, e, id, Deliver(h, e, h.Packet(id), newKey))
    ensures Moved(h, e, id, newKey, Deliver(h, e, h.Packet(id), newKey))
  {
    hide Aligned;
    MessageFacts(h, e, id);
  }

  /** A message of the current chain that the chain has not reached. */
  lemma DeliverNext(h: History, e: End, id: MsgId, newKey: nat)
    requires h.Valid() && Aligned(h, e) && Addressed(h, e, id)
    requires id !in Recent(e.stored) && id.chain + 1 == e.index && id.n >= e.st.Nr
    ensures WellFormed(e.st) && DeliveredWell(h, e, id, Deliver(h, e, h.Packet(id), newKey))
    ensures Moved(h, e, id, newKey, Deliver(h, e, h.Packet(id), newKey))
  {
    hide Aligned;
    MessageFacts(h, e, id);
    ReceiveAligned(h, e, id);
  }

  /** A message whose key is waiting in the buffer: nothing changes. */
  lemma DeliverStored(h: History, e: End, id: MsgId, newKey: nat)
    requires h.Valid() && Aligned(h, e) && Addressed(h, e, id)
    requires id in Recent(e.stored)
    ensures WellFormed(e.st) && DeliveredWell(h, e, id, Deliver(h, e, h.Packet(id), newKey))
    ensures Moved(h, e, id, newKey, Deliver(h, e, h.Packet(id), newKey))
  {
    RecentSubset(e.stored);
    var i :| 0 <= i < |e.stored| && e.stored[i] == id;
    assert Passed(h, e, e.stored[i]);
    hide Aligned;
    MessageFacts(h, e, id);
  }

  lemma DeliverKeepsAligned(h: History, e: End, id: MsgId, newKey: nat)
    requires h.Valid() && Aligned(h, e) && Addressed(h, e, id) && newKey !in h.keys
    requires Available(h, e, id)
    ensures WellFormed(e.st) && DeliveredWell(h, e, id, Deliver(h, e, h.Packet(id), newKey))
    ensures Moved(h, e, id, newKey, Deliver(h, e, h.Packet(id), newKey))
  {
    hide Aligned;
    MessageFacts(h, e, id);
    if id in Recent(e.stored) {
      DeliverStored(h, e, id, newKey);
    } else if id.chain != e.index + 1 {
      DeliverNext(h, e, id, newKey);
    } else if h.Len(e.index - 1) <= e.st.Nr + DR_MAX_SKIP {
      DeliverFresh(h, e, id, newKey);
    } else {
      DeliverRefused(h, e, id, newKey);
    }
  }
}
