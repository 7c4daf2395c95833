/**
 What the two ends of a conversation can rely on.
 */
module RatchetTheorems {
  import opened Common
  import opened Crypto
  import opened DoubleRatchet
  import opened RatchetHistory
  import opened RatchetChannel
  import opened RatchetRun

  // ---------- Different derivations give different keys ----------

  function Depth(s: Secret): nat {
    match s
    case Shared(_, _) => 0
    case Master(_) => 0
    case RootSeed(m) => 0
    case RootOf(r, _) => Depth(r) + 1
    case ChainOf(r, _) => 0
    case NextChain(c) => Depth(c) + 1
    case MessageKey(c) => 0
  }

  lemma {:induction false} AdvanceDepth(chain: Secret, n: nat)
    ensures Depth(Advance(chain, n)) == Depth(chain) + n
  {
    if n > 0 {
      AdvanceDepth(chain, n - 1);
    }
  }

  lemma {:induction false} AdvanceInjective(a: Secret, b: Secret, n: nat)
    requires Advance(a, n) == Advance(b, n)
    ensures a == b
  {
    if n > 0 {
      AdvanceInjective(a, b, n - 1);
    }
  }

  lemma {:induction false} RootDepth(root: Secret, keys: seq<nat>, i: nat)
    requires i < |keys|
    ensures Depth(Root(root, keys, i)) == Depth(root) + i
  {
    if i > 0 {
      RootDepth(root, keys, i - 1);
    }
  }

  lemma {:induction false} SkipLoopAdvances(st: State, chain: Secret, until: nat)
    requires st.DHr.Some? && st.Nr <= until && st.CKr == Some(Advance(chain, st.Nr))
    ensures SkipLoop(st, until).CKr == Some(Advance(chain, until))
    decreases until - st.Nr
  {
    if st.Nr < until {
      var next := st.(CKr := Some(NextChain(st.CKr.value)), Nr := st.Nr + 1,
                      MKSKIPPED := Store(st.MKSKIPPED, SkipKey(st.DHr.value, st.Nr), MessageKey(st.CKr.value)));
      SkipLoopAdvances(next, chain, until);
    }
  }

  // ---------- Exactly which deliveries succeed ----------

  /** A passed message of the current chain meets a key further down that chain. */
  lemma PassedInChainFails(h: History, e: End, id: MsgId, newKey: nat)
    requires h.Valid() && Aligned(h, e) && Addressed(h, e, id) && WellFormed(e.st) && h.InSchedule(id)
    requires id !in Recent(e.stored) && id.chain + 1 == e.index && id.n < e.st.Nr
    ensures Decrypt(e.st, h.Packet(id), newKey).1 == Unreadable
  {
    assert e.st.CKr == Some(Advance(Chain(h.root, h.keys, id.chain), e.st.Nr));
    AdvanceDepth(Chain(h.root, h.keys, id.chain), e.st.Nr);
    AdvanceDepth(Chain(h.root, h.keys, id.chain), id.n);
    hide Aligned;
    MessageFacts(h, e, id);
  }

  /** A message of an older chain starts a ratchet that cannot reproduce its chain. */
  lemma PassedChainFails(h: History, e: End, id: MsgId, newKey: nat)
    requires h.Valid() && Aligned(h, e) && Addressed(h, e, id) && WellFormed(e.st) && h.InSchedule(id)
    requires id !in Recent(e.stored) && id.chain + 1 < e.index
    ensures var outcome := Decrypt(e.st, h.Packet(id), newKey).1;
            outcome == Unreadable || outcome.TooManySkipped?
  {
    assert e.st.RK == Root(h.root, h.keys, e.index) && e.index < |h.keys|;
    hide Aligned;
    MessageFacts(h, e, id);
    var msg := h.Packet(id);
    if SkipAllowed(e.st, msg.header.pn) && id.n <= DR_MAX_SKIP {
      var chain := ChainOf(e.st.RK, Dh(e.st.DHs, msg.header.dh));
      var st := Ratchet(Skip(e.st, msg.header.pn), msg.header.dh, newKey);
      DecryptFresh(e.st, msg, newKey);
      assert st.CKr == Some(Advance(chain, 0));
      SkipLoopAdvances(st, chain, id.n);
      RootDepth(h.root, h.keys, e.index);
      RootDepth(h.root, h.keys, id.chain - 1);
      if Advance(chain, id.n) == Advance(Chain(h.root, h.keys, id.chain), id.n) {
        AdvanceInjective(chain, Chain(h.root, h.keys, id.chain), id.n);
        assert false;
      }
    }
  }

  /**
   An honest message decrypts to its text exactly when its key is still in the buffer, or the
   receiver has not moved past it and would not have to skip more than the limit.
   */
  lemma DeliveryExact(h: History, e: End, id: MsgId, newKey: nat)
    requires h.Valid() && Aligned(h, e) && Addressed(h, e, id) && newKey !in h.keys
    ensures h.InSchedule(id) && WellFormed(e.st)
    ensures Decrypt(e.st, h.Packet(id), newKey).1 == Plain(h.TextOf(id))
       <==> id in Recent(e.stored) || (!Passed(h, e, id) && GapsAllowed(h, e, id))
  {
    hide Aligned;
    MessageFacts(h, e, id);
    if Available(h, e, id) {
      DeliverKeepsAligned(h, e, id, newKey);
    } else if id.chain + 1 == e.index {
      PassedInChainFails(h, e, id, newKey);
    } else {
      PassedChainFails(h, e, id, newKey);
    }
  }

  // ---------- The channel theorem ----------

  /** A hundred keys were stored after this one. */
  ghost predicate Evicted(e: End, id: MsgId) {
    id in e.stored && id !in Recent(e.stored)
  }

  /**
   From one master secret and a matching prekey, after any run, an undelivered message decrypts to
   the text given to `encrypt` if and only if its key was not evicted and nothing to be skipped
   exceeds the limit; everything received so far is what was sent.
   */
  lemma ReliableChannel(master: Secret, prekey: nat, first: nat, steps: seq<Step>, id: MsgId, newKey: nat)
    requires prekey != first && ValidRun(Start(master, prekey, first), steps)
    requires var w := Run(Start(master, prekey, first), steps);
             id in w.network && id !in w.delivered && newKey !in w.h.keys
    ensures var w := Run(Start(master, prekey, first), steps);
            && Sound(w) && ReceiptsCorrect(w) && w.h.WasSent(id)
            && var e := w.ends[Receiver(id)];
               var readable := !Evicted(e, id) && (id in e.stored || GapsAllowed(w.h, e, id));
               Decrypt(e.st, w.network[id], newKey).1 == Plain(w.h.TextOf(id)) <==> readable
  {
    hide Aligned, Passed;
    StartInv(master, prekey, first);
    RunKeepsInv(Start(master, prekey, first), steps);
    var w := Run(Start(master, prekey, first), steps);
    InvSound(w);
    ReceiverFacts(w, id);
    var e := w.ends[Receiver(id)];
    DeliveryExact(w.h, e, id, newKey);
    if id in e.stored {
      StoredPassed(w.h, e, id);
    }
  }

  lemma RecentPlace(h: History, e: End, i: nat)
    requires StoredValid(h, e) && i < |e.stored|
    ensures e.stored[i] in Recent(e.stored) <==> |e.stored| - (i + 1) < DR_MAX_SKIP
  {
    var recent := Recent(e.stored);
    var from := |e.stored| - |recent|;
    if i >= from {
      assert recent[i - from] == e.stored[i];
    }
  }

  /**
   What a lookup gives for the key an end stored as its `i`-th: the sender's key while fewer than
   `DR_MAX_SKIP` more were stored, and nothing from then on.
   */
  lemma StoredKeyFound(h: History, e: End, i: nat)
    requires h.Valid() && Aligned(h, e) && i < |e.stored|
    ensures h.InSchedule(e.stored[i])
    ensures Lookup(e.st.MKSKIPPED, SkipKey(PublicKey(h.keys[e.stored[i].chain]), e.stored[i].n))
         == if |e.stored| - (i + 1) < DR_MAX_SKIP then Some(h.KeyOf(e.stored[i])) else None
  {
    StoredPassed(h, e, e.stored[i]);
    assert h.InSchedule(e.stored[i]) && e.st.MKSKIPPED == h.Entries(Recent(e.stored));
    StoredScheduled(h, e);
    RecentPlace(h, e, i);
    hide Aligned, Lookup, Recent, History.Entries;
    LookupEntries(h, Recent(e.stored), e.stored[i]);
  }

  /** In every run a stored key is found until `DR_MAX_SKIP` later ones were stored, and no longer. */
  lemma EvictedExactly(master: Secret, prekey: nat, first: nat, steps: seq<Step>, p: nat, i: nat)
    requires prekey != first && ValidRun(Start(master, prekey, first), steps) && p < 2
    requires var w := Run(Start(master, prekey, first), steps); p < |w.ends| && i < |w.ends[p].stored|
    ensures var w := Run(Start(master, prekey, first), steps);
            var e := w.ends[p];
            && w.h.InSchedule(e.stored[i])
            && Lookup(e.st.MKSKIPPED, SkipKey(PublicKey(w.h.keys[e.stored[i].chain]), e.stored[i].n))
               == if |e.stored| - (i + 1) < 100 then Some(w.h.KeyOf(e.stored[i])) else None
  {
    hide Aligned, Lookup;
    StartInv(master, prekey, first);
    RunKeepsInv(Start(master, prekey, first), steps);
    var w := Run(Start(master, prekey, first), steps);
    StoredKeyFound(w.h, w.ends[p], i);
  }

  lemma StoredPassed(h: History, e: End, id: MsgId)
    requires h.Valid() && Aligned(h, e) && id in e.stored
    ensures Passed(h, e, id)
  {
    var i :| 0 <= i < |e.stored| && e.stored[i] == id;
    assert Passed(h, e, e.stored[i]);
  }

  /** The two ends are never more than one DH step apart. */
  lemma OneStepApart(w: World)
    requires Inv(w)
    ensures w.ends[0].index == w.ends[1].index + 1 || w.ends[1].index == w.ends[0].index + 1
    ensures |w.h.keys| == 1 + if w.ends[0].index > w.ends[1].index then w.ends[0].index else w.ends[1].index
  {
    AlignedSound(w.h, w.ends[0]);
    AlignedSound(w.h, w.ends[1]);
  }

  /**
   The end that is behind computes, from the public key of the other's next header, the other's
   root key and the start of its sending chain.
   */
  lemma HeaderSynchronises(w: World, p: nat)
    requires Inv(w) && p < 2 && w.ends[1 - p].index == w.ends[p].index + 1
    ensures var behind, ahead := w.ends[p].st, w.ends[1 - p].st;
            var dh := Dh(behind.DHs, PublicKey(ahead.DHs));
            && RootOf(behind.RK, dh) == ahead.RK
            && ahead.CKs == Some(Advance(ChainOf(behind.RK, dh), ahead.Ns))
  {
    DhCommutes(w.ends[p].st.DHs, w.ends[1 - p].st.DHs);
  }

  // ---------- The buffer, for any messages at all ----------

  datatype Call = Encrypting(text: string, iv: nat) | Decrypting(msg: Message, newKey: nat)

  function Calls(st: State, calls: seq<Call>): State
    requires WellFormed(st)
    decreases |calls|
  {
    if calls == [] then st
    else
      match calls[0]
      case Encrypting(text, iv) => Calls(Encrypt(st, text, iv).0, calls[1..])
      case Decrypting(msg, newKey) => Calls(Decrypt(st, msg, newKey).0, calls[1..])
  }

  /** No sequence of calls, honest or not, grows the buffer beyond the limit. */
  lemma {:induction false} BufferBounded(st: State, calls: seq<Call>)
    requires WellFormed(st)
    ensures WellFormed(Calls(st, calls)) && |Calls(st, calls).MKSKIPPED| <= 100
    decreases |calls|
  {
    if calls != [] {
      match calls[0]
      case Encrypting(text, iv) => BufferBounded(Encrypt(st, text, iv).0, calls[1..]);
      case Decrypting(msg, newKey) => BufferBounded(Decrypt(st, msg, newKey).0, calls[1..]);
    }
  }
}
