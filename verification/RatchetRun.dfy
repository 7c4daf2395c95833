/**
 Whole conversations: any interleaving of sends and deliveries, messages delivered in any order.
 */
module RatchetRun {
  import opened Common
  import opened Crypto
  import opened DoubleRatchet
  import opened RatchetHistory
  import opened RatchetChannel

  // ---------- The system ----------

  datatype Receipt = Receipt(id: MsgId, outcome: Outcome)

  /**
   `ends[0]` is the responder and `ends[1]` the initiator.  `network` holds the packets that
   `encrypt` returned; `h` records what it was given.
   */
  datatype World = World(
    h: History,
    ends: seq<End>,
    network: map<MsgId, Message>,
    delivered: set<MsgId>,
    receipts: seq<Receipt>)

  datatype Step =
    | Send(party: nat, note: Note)
    | DeliverTo(id: MsgId, newKey: nat)

  function Receiver(id: MsgId): nat {
    if id.chain % 2 == 0 then 1 else 0
  }

  ghost function Start(master: Secret, prekey: nat, first: nat): World {
    World(
      History(RootSeed(master), [prekey, first], [[], []]),
      [End(0, InitReceiver(master, prekey), []),
       End(1, InitSender(master, PublicKey(prekey), first), [])],
      map[], {}, [])
  }

  ghost predicate Sound(w: World) {
    && |w.ends| == 2
    && (forall e <- w.ends :: WellFormed(e.st) && e.index < |w.h.notes|)
  }

  /**
   Anybody may call `encrypt` at any time.  A message may be delivered while its key is in the
   buffer or still ahead on its chain, and a newly generated key pair is new.
   */
  ghost predicate Enabled(w: World, step: Step)
    requires Sound(w)
  {
    match step
    case Send(party, _) => party < 2
    case DeliverTo(id, newKey) =>
      id in w.network && newKey !in w.h.keys && Available(w.h, w.ends[Receiver(id)], id)
  }

  ghost function Next(w: World, step: Step): World
    requires Sound(w) && Enabled(w, step)
  {
    match step
    case Send(party, note) =>
      var e := w.ends[party];
      (match Encrypt(e.st, note.text, note.iv)
       case (_, None) => w
       case (st, Some(msg)) =>
         w.(h := w.h.Append(e.index, note),
            ends := w.ends[party := e.(st := st)],
            network := w.network[MsgId(e.index, w.h.Len(e.index)) := msg]))
    case DeliverTo(id, newKey) =>
      var (h, e, outcome) := Deliver(w.h, w.ends[Receiver(id)], w.network[id], newKey);
      w.(h := h,
         ends := w.ends[Receiver(id) := e],
         delivered := if outcome.Plain? then w.delivered + {id} else w.delivered,
         receipts := w.receipts + [Receipt(id, outcome)])
  }

  ghost predicate ValidRun(w: World, steps: seq<Step>)
    decreases |steps|
  {
    steps != [] ==> Sound(w) && Enabled(w, steps[0]) && ValidRun(Next(w, steps[0]), steps[1..])
  }

  ghost function Run(w: World, steps: seq<Step>): World
    requires ValidRun(w, steps)
    decreases |steps|
  {
    if steps == [] then w else Run(Next(w, steps[0]), steps[1..])
  }

  // ---------- Invariant ----------

  ghost predicate PacketsHonest(w: World) {
    && (forall id: MsgId :: id in w.network <==> w.h.WasSent(id))
    && (forall id <- w.network :: w.h.InSchedule(id) && w.network[id] == w.h.Packet(id))
  }

  /** Whatever a receiver has moved past was delivered or had its key stored. */
  ghost predicate Accounted(w: World)
    requires |w.ends| == 2
  {
    forall id <- w.network :: Passed(w.h, w.ends[Receiver(id)], id) ==>
      id in w.delivered || id in w.ends[Receiver(id)].stored
  }

  /** Every plaintext handed to the application is the one that was sent. */
  ghost predicate ReceiptsCorrect(w: World) {
    forall r <- w.receipts :: w.h.WasSent(r.id) && (r.outcome == Plain(w.h.TextOf(r.id)) || r.outcome.TooManySkipped?)
  }

  ghost predicate Inv(w: World) {
    && w.h.Valid()
    && |w.ends| == 2 && w.ends[0].index % 2 == 0 && w.ends[1].index % 2 == 1
    && Aligned(w.h, w.ends[0]) && Aligned(w.h, w.ends[1])
    && PacketsHonest(w)
    && Accounted(w)
    && ReceiptsCorrect(w)
  }

  lemma StartInv(master: Secret, prekey: nat, first: nat)
    requires prekey != first
    ensures Inv(Start(master, prekey, first))
  {
    DhCommutes(first, prekey);
  }

  lemma AlignedSound(h: History, e: End)
    requires h.Valid() && Aligned(h, e)
    ensures WellFormed(e.st) && e.index < |h.notes| == |h.keys| <= e.index + 2
  {
  }

  lemma InvSound(w: World)
    requires Inv(w)
    ensures Sound(w)
  {
    AlignedSound(w.h, w.ends[0]);
    AlignedSound(w.h, w.ends[1]);
  }

  // ---------- Sending ----------

  lemma SendLen(h: History, c: nat, note: Note, i: int)
    requires c < |h.notes|
    ensures h.Append(c, note).Len(i) == h.Len(i) + (if i == c then 1 else 0)
  {
  }

  /** A sender's own chain is none of those it receives on. */
  lemma SendStoredOwn(h: History, e: End, st: State, note: Note)
    requires h.Valid() && StoredValid(h, e) && e.index < |h.keys| && st.Nr == e.st.Nr
    ensures StoredValid(h.Append(e.index, note), e.(st := st))
  {
    forall i | 0 <= i < |e.stored|
      ensures Passed(h.Append(e.index, note), e.(st := st), e.stored[i])
    {
      assert Passed(h, e, e.stored[i]);
      SendLen(h, e.index, note, e.stored[i].chain);
    }
  }

  lemma EntriesAfterSend(h: History, c: nat, note: Note, ids: seq<MsgId>)
    requires h.Valid() && 1 <= c < |h.keys| && forall x <- ids :: h.InSchedule(x)
    ensures forall x <- ids :: h.Append(c, note).InSchedule(x)
    ensures h.Append(c, note).Entries(ids) == h.Entries(ids)
  {
  }

  lemma SendAligned(h: History, e: End, note: Note)
    requires h.Valid() && Aligned(h, e) && e.index >= 1
    ensures h.Append(e.index, note).Valid()
    ensures var (st, msg) := Encrypt(e.st, note.text, note.iv);
            var h' := h.Append(e.index, note);
            && Aligned(h', e.(st := st))
            && msg == Some(h'.Packet(MsgId(e.index, h.Len(e.index))))
  {
    var (st, msg) := Encrypt(e.st, note.text, note.iv);
    StoredScheduled(h, e);
    EntriesAfterSend(h, e.index, note, Recent(e.stored));
    SendStoredOwn(h, e, st, note);
    SendLen(h, e.index, note, e.index);
    SendLen(h, e.index, note, e.index - 1);
    SendLen(h, e.index, note, e.index - 2);
    hide StoredValid, Recent, Root, Chain, History.Entries;
  }

  lemma SendPassed(h: History, c: nat, note: Note, peer: End, x: MsgId)
    requires h.Valid() && 1 <= c < |h.keys| && c % 2 != peer.index % 2
    ensures x != MsgId(c, h.Len(c)) ==> (Passed(h.Append(c, note), peer, x) <==> Passed(h, peer, x))
  {
  }

  lemma SendStored(h: History, c: nat, note: Note, peer: End)
    requires h.Valid() && 1 <= c < |h.keys| && c % 2 != peer.index % 2 && StoredValid(h, peer)
    requires peer.st.Nr <= h.Len(peer.index - 1)
    ensures StoredValid(h.Append(c, note), peer)
  {
    forall i | 0 <= i < |peer.stored|
      ensures Passed(h.Append(c, note), peer, peer.stored[i])
    {
      assert Passed(h, peer, peer.stored[i]);
      assert peer.stored[i] != MsgId(c, h.Len(c));
      SendPassed(h, c, note, peer, peer.stored[i]);
    }
  }

  /** Alignment looks at the lengths of two chains only, at the keys and at the buffer. */
  lemma AlignedWithout(h: History, c: nat, note: Note, peer: End)
    requires h.Valid() && Aligned(h, peer) && c < |h.notes|
    requires h.Append(c, note).Valid() && c != peer.index && c != peer.index - 2
    requires StoredValid(h.Append(c, note), peer)
    requires forall x <- Recent(peer.stored) :: h.InSchedule(x) && h.Append(c, note).InSchedule(x)
    requires h.Append(c, note).Entries(Recent(peer.stored)) == h.Entries(Recent(peer.stored))
    ensures Aligned(h.Append(c, note), peer)
  {
    hide StoredValid, Recent, Root, Chain, Advance, History.Entries;
    SendLen(h, c, note, peer.index);
    SendLen(h, c, note, peer.index - 1);
    SendLen(h, c, note, peer.index - 2);
  }

  /** The other end does not notice. */
  lemma SendPeerAligned(h: History, c: nat, note: Note, peer: End)
    requires h.Valid() && Aligned(h, peer) && 1 <= c < |h.keys| && c % 2 != peer.index % 2
    ensures h.Append(c, note).Valid() && Aligned(h.Append(c, note), peer)
  {
    AlignedShape(h, peer);
    StoredScheduled(h, peer);
    assert StoredValid(h, peer) && peer.st.Nr <= h.Len(peer.index - 1);
    hide StoredValid, Recent, Aligned;
    SendStored(h, c, note, peer);
    EntriesAfterSend(h, c, note, Recent(peer.stored));
    AlignedWithout(h, c, note, peer);
  }

  lemma AlignedReached(h: History, e: End)
    requires h.Valid() && Aligned(h, e)
    ensures e.st.Nr <= h.Len(e.index - 1)
  {
  }

  lemma SendPeerPassed(h: History, c: nat, note: Note, peer: End, x: MsgId)
    requires h.Valid() && Aligned(h, peer) && 1 <= c < |h.keys| <= c + 2 && c % 2 != peer.index % 2
    ensures Passed(h.Append(c, note), peer, x) <==> x != MsgId(c, h.Len(c)) && Passed(h, peer, x)
  {
    hide Aligned;
    AlignedShape(h, peer);
    AlignedReached(h, peer);
    SendPassed(h, c, note, peer, x);
  }

  lemma PacketsAppend(w: World, c: nat, note: Note, id: MsgId)
    requires w.h.Valid() && PacketsHonest(w) && 1 <= c < |w.h.keys| <= c + 2 && w.h.WasSent(id)
    ensures w.h.Append(c, note).InSchedule(id) && w.h.Append(c, note).Packet(id) == w.h.Packet(id)
    ensures w.h.Append(c, note).TextOf(id) == w.h.TextOf(id)
  {
  }

  lemma SendEffect(w: World, party: nat, note: Note)
    requires Inv(w) && party < 2 && w.ends[party].index >= 1
    ensures Sound(w)
    ensures var c := w.ends[party].index;
            var w' := Next(w, Send(party, note));
            && c < |w.h.notes| == |w.h.keys| <= c + 2
            && w'.h == w.h.Append(c, note) && w'.h.Valid()
            && |w'.ends| == 2 && w'.ends[1 - party] == w.ends[1 - party]
            && w'.ends[party].index == c && w'.ends[party].stored == w.ends[party].stored
            && w'.ends[party].st.Nr == w.ends[party].st.Nr
            && Aligned(w'.h, w'.ends[party]) && Aligned(w'.h, w'.ends[1 - party])
            && w'.h.InSchedule(MsgId(c, w.h.Len(c)))
            && w'.network == w.network[MsgId(c, w.h.Len(c)) := w'.h.Packet(MsgId(c, w.h.Len(c)))]
            && w'.delivered == w.delivered && w'.receipts == w.receipts
  {
    hide Aligned, PacketsHonest, Accounted, ReceiptsCorrect;
    InvSound(w);
    AlignedSound(w.h, w.ends[party]);
    SendAligned(w.h, w.ends[party], note);
    SendPeerAligned(w.h, w.ends[party].index, note, w.ends[1 - party]);
  }

  lemma SendPackets(w: World, party: nat, note: Note)
    requires Inv(w) && party < 2 && w.ends[party].index >= 1
    ensures Sound(w) && PacketsHonest(Next(w, Send(party, note))) && ReceiptsCorrect(Next(w, Send(party, note)))
  {
    hide Aligned;
    SendEffect(w, party, note);
    var w' := Next(w, Send(party, note));
    var c := w.ends[party].index;
    forall x | w.h.WasSent(x) && (x in w.network || w.h.InSchedule(x))
      ensures w'.h.InSchedule(x) && w'.h.Packet(x) == w.h.Packet(x) && w'.h.TextOf(x) == w.h.TextOf(x)
    {
      PacketsAppend(w, c, note, x);
    }
    forall r | r in w'.receipts
      ensures w'.h.WasSent(r.id) && w'.h.TextOf(r.id) == w.h.TextOf(r.id)
    {
      PacketsAppend(w, c, note, r.id);
    }
  }

  lemma SendAccounted(w: World, party: nat, note: Note)
    requires Inv(w) && party < 2 && w.ends[party].index >= 1
    ensures Sound(w) && |Next(w, Send(party, note)).ends| == 2 && Accounted(Next(w, Send(party, note)))
  {
    hide Aligned;
    SendEffect(w, party, note);
    var c := w.ends[party].index;
    var w' := Next(w, Send(party, note));
    forall x | x in w'.network && Passed(w'.h, w'.ends[Receiver(x)], x)
      ensures x in w'.delivered || x in w'.ends[Receiver(x)].stored
    {
      assert Receiver(x) == 1 - party || Receiver(x) == party;
      if Receiver(x) == 1 - party {
        SendPeerPassed(w.h, c, note, w.ends[1 - party], x);
      } else {
        SendLen(w.h, c, note, x.chain);
      }
      assert x in w.network && Passed(w.h, w.ends[Receiver(x)], x);
    }
  }

  lemma SendKeepsInv(w: World, party: nat, note: Note)
    requires Inv(w) && party < 2
    ensures Sound(w) && Inv(Next(w, Send(party, note)))
  {
    InvSound(w);
    if w.ends[party].index == 0 {
      assert w.ends[party].st.CKs == None;
    } else {
      hide Aligned;
      SendEffect(w, party, note);
      SendPackets(w, party, note);
      SendAccounted(w, party, note);
    }
  }

  // ---------- Delivering ----------

  lemma ExtendPassed(h: History, key: nat, e: End)
    ensures forall x: MsgId :: Passed(h.Extend(key), e, x) <==> Passed(h, e, x)
    ensures StoredValid(h, e) ==> StoredValid(h.Extend(key), e)
  {
    assert forall i :: h.Extend(key).Len(i) == h.Len(i);
    hide History.Len;
    assert forall x: MsgId :: Passed(h.Extend(key), e, x) <==> Passed(h, e, x);
    if StoredValid(h, e) {
      forall i | 0 <= i < |e.stored|
        ensures Passed(h.Extend(key), e, e.stored[i])
      {
        assert Passed(h, e, e.stored[i]);
      }
    }
  }

  /** The sender of a new chain is not affected by the receiver's answering key pair. */
  lemma ExtendPeerAligned(h: History, key: nat, peer: End)
    requires h.Valid() && Aligned(h, peer) && key !in h.keys && |h.keys| <= peer.index + 1
    ensures h.Extend(key).Valid() && Aligned(h.Extend(key), peer)
    ensures forall x: MsgId :: Passed(h.Extend(key), peer, x) <==> Passed(h, peer, x)
  {
    ExtendValid(h, key);
    ExtendPassed(h, key, peer);
    StoredScheduled(h, peer);
    EntriesStable(h, key, Recent(peer.stored));
    AlignedShape(h, peer);
    RootStable(h.root, h.keys, [key], peer.index);
    if peer.index >= 1 {
      ChainStable(h.root, h.keys, [key], peer.index);
    }
    if peer.index >= 2 {
      ChainStable(h.root, h.keys, [key], peer.index - 1);
    }
    hide StoredValid, Recent, Root, Chain, History.Entries, Passed;
  }

  lemma IdsMember(c: nat, from: nat, until: nat, x: MsgId)
    ensures x in Ids(c, from, until) <==> x.chain == c && from <= x.n < until
  {
    if x.chain == c && from <= x.n < until {
      assert Ids(c, from, until)[x.n - from] == x;
    }
  }

  /** Moving past a message means delivering it or storing its key. */
  lemma MovedAccounts(h: History, e: End, id: MsgId, newKey: nat, r: (History, End, Outcome), x: MsgId)
    requires |h.keys| == |h.notes| && e.index < |h.keys| && Moved(h, e, id, newKey, r)
    requires e.index <= 1 ==> e.st.Nr == 0
    requires Passed(r.0, r.1, x)
    ensures Passed(h, e, x) || x in r.1.stored || (x == id && r.2.Plain?)
    ensures forall y <- e.stored :: y in r.1.stored
  {
    if r.0 != h {
      if e.index >= 1 {
        IdsMember(e.index - 1, e.st.Nr, h.Len(e.index - 1), x);
      }
      IdsMember(e.index + 1, 0, if r.2.Plain? then id.n else 0, x);
    } else if r.1 != e {
      IdsMember(e.index - 1, e.st.Nr, id.n, x);
    }
  }

  lemma PacketFacts(w: World, id: MsgId)
    requires PacketsHonest(w) && id in w.network
    ensures w.h.WasSent(id) && w.h.InSchedule(id) && w.network[id] == w.h.Packet(id)
  {
    assert w.h.WasSent(id);
  }

  lemma ReceiverFacts(w: World, id: MsgId)
    requires Inv(w) && id in w.network
    ensures var p := Receiver(id);
            && w.h.Valid() && w.h.WasSent(id) && w.h.InSchedule(id) && w.network[id] == w.h.Packet(id)
            && Addressed(w.h, w.ends[p], id)
            && Aligned(w.h, w.ends[p]) && Aligned(w.h, w.ends[1 - p])
            && WellFormed(w.ends[p].st)
            && w.ends[p].index % 2 == p && w.ends[1 - p].index % 2 == 1 - p
            && (w.ends[p].index <= 1 ==> w.ends[p].st.Nr == 0)
            && w.ends[p].index < |w.h.notes| == |w.h.keys|
            && (id.chain == w.ends[p].index + 1 ==> |w.h.keys| <= w.ends[1 - p].index + 1)
  {
    hide Aligned, Accounted, ReceiptsCorrect, PacketsHonest, WellFormed, History.Packet;
    AlignedShape(w.h, w.ends[0]);
    AlignedShape(w.h, w.ends[1]);
    PacketFacts(w, id);
    TurnsAlternate(w.ends[Receiver(id)].index, w.ends[1 - Receiver(id)].index, id.chain, |w.h.keys|);
  }

  /** Key pairs are used in turn: the end that has not used the newest one is the other end. */
  lemma TurnsAlternate(mine: nat, theirs: nat, chain: nat, keys: nat)
    requires mine % 2 != theirs % 2 && chain < keys && theirs < keys <= theirs + 2 && keys <= mine + 2
    ensures chain == mine + 1 ==> keys <= theirs + 1
  {
  }

  lemma DeliverEffect(w: World, id: MsgId, newKey: nat)
    requires Inv(w) && Sound(w) && Enabled(w, DeliverTo(id, newKey))
    ensures var p := Receiver(id);
            var r := Deliver(w.h, w.ends[p], w.network[id], newKey);
            && w.h.WasSent(id)
            && DeliveredWell(w.h, w.ends[p], id, r) && Moved(w.h, w.ends[p], id, newKey, r)
            && r.0.Valid() && Aligned(r.0, r.1) && Aligned(r.0, w.ends[1 - p])
            && r.1.index % 2 == p
            && (forall x: MsgId {:trigger Passed(r.0, w.ends[1 - p], x)} ::
                  Passed(r.0, w.ends[1 - p], x) <==> Passed(w.h, w.ends[1 - p], x))
  {
    hide Aligned, Deliver, Inv;
    ReceiverFacts(w, id);
    var p := Receiver(id);
    DeliverKeepsAligned(w.h, w.ends[p], id, newKey);
    if Deliver(w.h, w.ends[p], w.network[id], newKey).0 != w.h {
      ExtendPeerAligned(w.h, newKey, w.ends[1 - p]);
    }
  }

  lemma DeliverAccounted(w: World, id: MsgId, newKey: nat)
    requires Inv(w) && Sound(w) && Enabled(w, DeliverTo(id, newKey))
    ensures |Next(w, DeliverTo(id, newKey)).ends| == 2 && Accounted(Next(w, DeliverTo(id, newKey)))
  {
    hide Aligned, Deliver, Passed, Moved, DeliveredWell, PacketsHonest, ReceiptsCorrect, WellFormed, Available;
    ReceiverFacts(w, id);
    DeliverEffect(w, id, newKey);
    var p := Receiver(id);
    var r := Deliver(w.h, w.ends[p], w.network[id], newKey);
    var w' := Next(w, DeliverTo(id, newKey));
    forall x | x in w'.network && Passed(w'.h, w'.ends[Receiver(x)], x)
      ensures x in w'.delivered || x in w'.ends[Receiver(x)].stored
    {
      if Receiver(x) == p {
        MovedAccounts(w.h, w.ends[p], id, newKey, r, x);
      }
    }
  }

  lemma DeliverPackets(w: World, id: MsgId, newKey: nat)
    requires Inv(w) && Sound(w) && Enabled(w, DeliverTo(id, newKey))
    ensures PacketsHonest(Next(w, DeliverTo(id, newKey))) && ReceiptsCorrect(Next(w, DeliverTo(id, newKey)))
  {
    hide Aligned, Deliver;
    DeliverEffect(w, id, newKey);
    var w' := Next(w, DeliverTo(id, newKey));
    forall x | w.h.WasSent(x) && w.h.InSchedule(x)
      ensures w'.h.WasSent(x) && w'.h.InSchedule(x) && w'.h.Packet(x) == w.h.Packet(x)
    {
      PacketStable(w.h, newKey, x);
    }
    forall x: MsgId | w.h.WasSent(x)
      ensures w'.h.WasSent(x) && w'.h.TextOf(x) == w.h.TextOf(x)
    {
    }
  }

  lemma DeliverKeepsInv(w: World, id: MsgId, newKey: nat)
    requires Inv(w) && Sound(w) && Enabled(w, DeliverTo(id, newKey))
    ensures Inv(Next(w, DeliverTo(id, newKey)))
  {
    hide Aligned, Deliver, Available;
    DeliverEffect(w, id, newKey);
    DeliverPackets(w, id, newKey);
    DeliverAccounted(w, id, newKey);
    hide PacketsHonest, Accounted, ReceiptsCorrect, Passed, DeliveredWell, Moved;
  }

  lemma StepKeepsInv(w: World, step: Step)
    requires Inv(w) && Sound(w) && Enabled(w, step)
    ensures Inv(Next(w, step))
  {
    hide Inv, Next;
    match step
    case Send(party, note) => SendKeepsInv(w, party, note);
    case DeliverTo(id, newKey) => DeliverKeepsInv(w, id, newKey);
  }

  /** Alignment of both ends, and correctness of every receipt, over whole conversations. */
  lemma {:induction false} RunKeepsInv(w: World, steps: seq<Step>)
    requires Inv(w) && ValidRun(w, steps)
    ensures Inv(Run(w, steps))
    decreases |steps|
  {
    hide Aligned, Deliver;
    if steps != [] {
      StepKeepsInv(w, steps[0]);
      RunKeepsInv(Next(w, steps[0]), steps[1..]);
    }
  }
}
