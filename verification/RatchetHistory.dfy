/**
 Two Double Ratchet sessions exchanging messages in any order.

 Key pairs are numbered in the order in which the conversation uses them: 0 is the responder's
 prekey, 1 the initiator's first key, and every ratchet step adds the next one.  Even numbers
 belong to the responder and odd ones to the initiator.  Chain `j` (from 1 on) is the sending chain
 of key pair `j`, and a message is named by its chain and its place in that chain.
 */
module RatchetHistory {
  import opened Common
  import opened Crypto
  import opened DoubleRatchet

  // ---------- Ideal key schedule ----------

  function Root(root: Secret, keys: seq<nat>, i: nat): Secret
    requires i < |keys|
  {
    if i == 0 then root else RootOf(Root(root, keys, i - 1), Dh(keys[i], PublicKey(keys[i - 1])))
  }

  function Chain(root: Secret, keys: seq<nat>, i: nat): Secret
    requires 1 <= i < |keys|
  {
    ChainOf(Root(root, keys, i - 1), Dh(keys[i], PublicKey(keys[i - 1])))
  }

  function Advance(chain: Secret, n: nat): Secret {
    if n == 0 then chain else NextChain(Advance(chain, n - 1))
  }

  datatype MsgId = MsgId(chain: nat, n: nat)

  // ---------- History of a conversation ----------

  /** What was given to `encrypt`, with the nonce that was drawn for it. */
  datatype Note = Note(text: string, iv: nat)

  /** `notes[c][n]` is the message sent as number `n` of chain `c`. */
  datatype History = History(root: Secret, keys: seq<nat>, notes: seq<seq<Note>>) {

    ghost predicate InSchedule(id: MsgId) {
      1 <= id.chain < |keys|
    }

    ghost function KeyOf(id: MsgId): Secret
      requires InSchedule(id)
    {
      MessageKey(Advance(Chain(root, keys, id.chain), id.n))
    }

    ghost function EntryOf(id: MsgId): Entry
      requires InSchedule(id)
    {
      Entry(SkipKey(PublicKey(keys[id.chain]), id.n), KeyOf(id))
    }

    ghost function Entries(ids: seq<MsgId>): (d: Dict)
      requires forall id <- ids :: InSchedule(id)
      ensures |d| == |ids|
    {
      seq(|ids|, i requires 0 <= i < |ids| => EntryOf(ids[i]))
    }

    /** Length of chain `i`; chains that never existed are empty. */
    ghost function Len(i: int): nat {
      if 0 <= i < |notes| then |notes[i]| else 0
    }

    ghost predicate WasSent(id: MsgId) {
      id.chain < |notes| && id.n < |notes[id.chain]|
    }

    /** The packet an honest sender makes of a note. */
    ghost function Packet(id: MsgId): Message
      requires WasSent(id) && InSchedule(id)
    {
      var note := notes[id.chain][id.n];
      Message(Header(PublicKey(keys[id.chain]), Len(id.chain - 2), id.n),
              Sealed(KeyOf(id), note.iv, note.text),
              note.iv)
    }

    ghost function TextOf(id: MsgId): string
      requires WasSent(id)
    {
      notes[id.chain][id.n].text
    }

    ghost predicate Valid() {
      && |keys| == |notes| >= 2
      && (forall i, j :: 0 <= i < j < |keys| ==> keys[i] != keys[j])
      && notes[0] == []
    }

    /** A new key pair opens a new, empty chain. */
    ghost function Extend(key: nat): History {
      History(root, keys + [key], notes + [[]])
    }

    ghost function Append(c: nat, note: Note): History
      requires c < |notes|
    {
      History(root, keys, notes[c := notes[c] + [note]])
    }
  }

  // ---------- One end of the conversation ----------

  /**
   `index` is the number of the end's current key pair, `stored` every skipped-message key the end
   ever put into its buffer, oldest first.
   */
  datatype End = End(index: nat, st: State, stored: seq<MsgId>)

  /** The end has already moved its receiving chain past this message. */
  ghost predicate Passed(h: History, e: End, id: MsgId) {
    && 1 <= id.chain && id.chain % 2 != e.index % 2
    && ((id.chain + 1 < e.index && id.n < h.Len(id.chain))
        || (id.chain + 1 == e.index && id.n < e.st.Nr))
  }

  ghost predicate StoredValid(h: History, e: End) {
    && (forall i :: 0 <= i < |e.stored| ==> Passed(h, e, e.stored[i]))
    && (forall i, j :: 0 <= i < j < |e.stored| ==> e.stored[i] != e.stored[j])
  }

  /** Alignment of one end with the ideal key schedule. */
  ghost predicate Aligned(h: History, e: End)
    requires h.Valid()
  {
    match e
    case End(index, st, stored) =>
      && index < |h.keys| <= index + 2
      && st.DHs == h.keys[index]
      && st.RK == Root(h.root, h.keys, index)
      && st.Ns == h.Len(index)
      && st.PN == h.Len(index - 2)
      && (index == 0 ==> st.DHr == None && st.CKs == None)
      && (index >= 1 ==>
        && st.DHr == Some(PublicKey(h.keys[index - 1]))
        && st.CKs == Some(Advance(Chain(h.root, h.keys, index), st.Ns)))
      && (index <= 1 ==> st.CKr == None && st.Nr == 0)
      && (index >= 2 ==>
        && st.CKr == Some(Advance(Chain(h.root, h.keys, index - 1), st.Nr))
        && st.Nr <= h.Len(index - 1))
      && StoredValid(h, e)
      && st.MKSKIPPED == h.Entries(Recent(stored))
  }

  /** Messages `from` to `until - 1` of a chain. */
  ghost function Ids(c: nat, from: nat, until: nat): (r: seq<MsgId>)
    ensures from <= until ==> |r| == until - from
    ensures from >= until ==> r == []
    ensures forall i :: 0 <= i < |r| ==> r[i] == MsgId(c, from + i)
  {
    if from >= until then [] else seq(until - from, i requires 0 <= i => MsgId(c, from + i))
  }

  // ---------- Delivery ----------

  /** Nothing the receiver would have to skip exceeds the limit. */
  ghost predicate GapsAllowed(h: History, e: End, id: MsgId) {
    if id.chain + 1 == e.index then id.n <= e.st.Nr + 100
    else h.Len(e.index - 1) <= e.st.Nr + 100 && id.n <= 100
  }

  /** The message's key is in the buffer, or the receiving chain has not reached it yet. */
  ghost predicate Available(h: History, e: End, id: MsgId) {
    id in Recent(e.stored) || !Passed(h, e, id)
  }

  ghost predicate Addressed(h: History, e: End, id: MsgId) {
    h.WasSent(id) && 1 <= id.chain && id.chain % 2 != e.index % 2
  }

  /** Bookkeeping for one delivery: the session decides, the history follows. */
  ghost function Deliver(h: History, e: End, msg: Message, newKey: nat): (History, End, Outcome)
    requires WellFormed(e.st)
  {
    var (st, outcome) := Decrypt(e.st, msg, newKey);
    var reached := if st.Nr == 0 then 0 else st.Nr - 1;
    if st == e.st then (h, e, outcome)
    else if st.DHs == e.st.DHs then
      (h, End(e.index, st, e.stored + (if e.index == 0 then [] else Ids(e.index - 1, e.st.Nr, reached))), outcome)
    else
      (h.Extend(newKey),
       End(e.index + 2, st,
           e.stored + (if e.index == 0 then [] else Ids(e.index - 1, e.st.Nr, msg.header.pn))
                    + Ids(e.index + 1, 0, reached)),
       outcome)
  }

  /** What a delivery of message `id` has to achieve. */
  ghost predicate DeliveredWell(h: History, e: End, id: MsgId, r: (History, End, Outcome))
    requires h.Valid() && h.WasSent(id)
  {
    && r.0.Valid() && Aligned(r.0, r.1)
    && (r.2 == Plain(h.TextOf(id)) <==> id in Recent(e.stored) || GapsAllowed(h, e, id))
    && (r.2 != Plain(h.TextOf(id)) ==> r.2.TooManySkipped?)
  }

  /** How a delivery moves the receiver: not at all, along its chain, or over a DH ratchet. */
  ghost predicate Moved(h: History, e: End, id: MsgId, newKey: nat, r: (History, End, Outcome)) {
    if r.0 != h then
      && r.0 == h.Extend(newKey) && r.1.index == e.index + 2 && id.chain == e.index + 1
      && r.1.st.Nr == (if r.2.Plain? then id.n + 1 else 0)
      && r.1.stored == e.stored
                     + (if e.index == 0 then [] else Ids(e.index - 1, e.st.Nr, h.Len(e.index - 1)))
                     + Ids(e.index + 1, 0, if r.2.Plain? then id.n else 0)
    else if r.1 != e then
      && e.index == r.1.index == id.chain + 1 && r.2.Plain?
      && r.1.st.Nr == id.n + 1 > e.st.Nr
      && r.1.stored == e.stored + Ids(e.index - 1, e.st.Nr, id.n)
    else r.2.Plain? ==> id in e.stored
  }
}
