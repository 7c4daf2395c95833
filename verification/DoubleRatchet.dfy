/**
 The Double Ratchet session of static/double-ratchet.js.

 `State` is the value of a session and the functions on it say what each operation does.  `Session`
 is the mutable session object; each of its methods is proved to take the state where the function
 of the same name takes it.
 */
module DoubleRatchet {
  import opened Common
  import opened Crypto

  const DR_MAX_SKIP: nat := 100

  // ---------- Skipped-key dictionary ----------

  datatype SkipKey = SkipKey(dh: PublicKey, n: nat)
  datatype Entry = Entry(key: SkipKey, mk: Secret)

  /** A JavaScript object with string keys: its entries in insertion order. */
  type Dict = seq<Entry>

  function Lookup(d: Dict, key: SkipKey): Option<Secret> {
    if d == [] then None
    else if d[0].key == key then Some(d[0].mk)
    else Lookup(d[1..], key)
  }

  /** Assignment `d[key] = mk`: an existing key keeps its place, a new one goes last. */
  function Store(d: Dict, key: SkipKey, mk: Secret): Dict {
    if d == [] then [Entry(key, mk)]
    else if d[0].key == key then [Entry(key, mk)] + d[1..]
    else [d[0]] + Store(d[1..], key, mk)
  }

  function Delete(d: Dict, key: SkipKey): Dict {
    if d == [] then []
    else if d[0].key == key then d[1..]
    else [d[0]] + Delete(d[1..], key)
  }

  /** The last `DR_MAX_SKIP` elements. */
  function Recent<T>(s: seq<T>): (r: seq<T>)
    ensures |r| <= DR_MAX_SKIP
  {
    if |s| > DR_MAX_SKIP then s[|s| - DR_MAX_SKIP..] else s
  }

  // ---------- Session state ----------

  datatype Header = Header(dh: PublicKey, pn: nat, n: nat)
  datatype Message = Message(header: Header, ciphertext: Ciphertext, iv: nat)

  datatype State = State(
    DHs: nat,
    DHr: Option<PublicKey>,
    RK: Secret,
    CKs: Option<Secret>,
    CKr: Option<Secret>,
    Ns: nat,
    Nr: nat,
    PN: nat,
    MKSKIPPED: Dict)

  /** What every session satisfies, whatever messages it was given. */
  ghost predicate WellFormed(st: State) {
    && (st.CKr.Some? ==> st.DHr.Some?)
    && |st.MKSKIPPED| <= DR_MAX_SKIP
  }

  datatype Outcome =
    | Plain(text: string)
    | Unreadable                      // the localised "could not decrypt" text
    | TooManySkipped(count: nat)      // exception thrown by the skip limit
    | NoReceivingChain                // exception: a null chain key reached the KDF

  function Reveal(key: Secret, msg: Message): Outcome {
    match Open(key, msg.ciphertext, msg.iv)
    case Some(text) => Plain(text)
    case None => Unreadable
  }

  function InitSender(master: Secret, recipient: PublicKey, newKey: nat): State {
    var root := RootSeed(master);
    var dh := Dh(newKey, recipient);
    State(newKey, Some(recipient), RootOf(root, dh), Some(ChainOf(root, dh)), None, 0, 0, 0, [])
  }

  function InitReceiver(master: Secret, own: nat): State {
    State(own, None, RootSeed(master), None, None, 0, 0, 0, [])
  }

  function Encrypt(st: State, text: string, iv: nat): (State, Option<Message>) {
    match st.CKs
    case None => (st, None)
    case Some(chain) =>
      (st.(CKs := Some(NextChain(chain)), Ns := st.Ns + 1),
       Some(Message(Header(PublicKey(st.DHs), st.PN, st.Ns), Sealed(MessageKey(chain), iv, text), iv)))
  }

  /** Derive and store keys until `Nr` reaches `until`. */
  function SkipLoop(st: State, until: nat): (r: State)
    requires st.CKr.Some? && st.DHr.Some?
    ensures r.CKr.Some? && r.DHr == st.DHr && r.DHs == st.DHs && r.RK == st.RK
    decreases until - st.Nr
  {
    if st.Nr >= until then st
    else
      var chain := st.CKr.value;
      SkipLoop(
        st.(CKr := Some(NextChain(chain)),
            Nr := st.Nr + 1,
            MKSKIPPED := Store(st.MKSKIPPED, SkipKey(st.DHr.value, st.Nr), MessageKey(chain))),
        until)
  }

  predicate SkipAllowed(st: State, until: nat) {
    st.CKr.None? || st.Nr > until || until - st.Nr <= DR_MAX_SKIP
  }

  function Skip(st: State, until: nat): (r: State)
    requires st.CKr.Some? ==> st.DHr.Some?
    requires SkipAllowed(st, until)
    ensures r.CKr.Some? == st.CKr.Some? && r.DHr == st.DHr && r.DHs == st.DHs && r.RK == st.RK
    ensures WellFormed(st) ==> WellFormed(r)
  {
    if st.CKr.None? || st.Nr > until then st
    else
      var s := SkipLoop(st, until);
      s.(MKSKIPPED := Recent(s.MKSKIPPED))
  }

  /** The DH ratchet step: two root KDF applications around a newKey key pair. */
  function Ratchet(st: State, dh: PublicKey, newKey: nat): State {
    var dh1 := Dh(st.DHs, dh);
    var root1 := RootOf(st.RK, dh1);
    var dh2 := Dh(newKey, dh);
    st.(PN := st.Ns, Ns := 0, Nr := 0, DHr := Some(dh), DHs := newKey,
        CKr := Some(ChainOf(st.RK, dh1)),
        CKs := Some(ChainOf(root1, dh2)),
        RK := RootOf(root1, dh2))
  }

  predicate NeedsRatchet(st: State, dh: PublicKey) {
    st.DHr != Some(dh)
  }

  /** The part of decryption that follows the ratchet decision. */
  function Receive(st: State, msg: Message): (r: (State, Outcome))
    requires WellFormed(st)
    ensures WellFormed(r.0)
  {
    if !SkipAllowed(st, msg.header.n) then (st, TooManySkipped(msg.header.n - st.Nr))
    else
      var s := Skip(st, msg.header.n);
      match s.CKr
      case None => (s, NoReceivingChain)
      case Some(chain) =>
        (s.(CKr := Some(NextChain(chain)), Nr := s.Nr + 1), Reveal(MessageKey(chain), msg))
  }

  /** `newKey` is the scalar of the key pair generated when the message carries a new DH key. */
  function Decrypt(st: State, msg: Message, newKey: nat): (r: (State, Outcome))
    requires WellFormed(st)
    ensures WellFormed(r.0)
  {
    match Lookup(st.MKSKIPPED, SkipKey(msg.header.dh, msg.header.n))
    case Some(mk) => (st, Reveal(mk, msg))
    case None =>
      if !NeedsRatchet(st, msg.header.dh) then Receive(st, msg)
      else if !SkipAllowed(st, msg.header.pn) then (st, TooManySkipped(msg.header.pn - st.Nr))
      else Receive(Ratchet(Skip(st, msg.header.pn), msg.header.dh, newKey), msg)
  }

  // ---------- Dictionary facts ----------

  lemma StoreAppends(d: Dict, key: SkipKey, mk: Secret)
    requires Lookup(d, key).None?
    ensures Store(d, key, mk) == d + [Entry(key, mk)]
  {
    if d != [] {
      StoreAppends(d[1..], key, mk);
    }
  }

  // ---------- The session object ----------

  class Session {
    var DHs: nat
    var DHr: Option<PublicKey>
    var RK: Secret
    var CKs: Option<Secret>
    var CKr: Option<Secret>
    var Ns: nat
    var Nr: nat
    var PN: nat
    var MKSKIPPED: Dict

    ghost function View(): State
      reads this
    {
      State(DHs, DHr, RK, CKs, CKr, Ns, Nr, PN, MKSKIPPED)
    }

    constructor Sender(master: Secret, recipient: PublicKey, newKey: nat)
      ensures View() == InitSender(master, recipient, newKey) && WellFormed(View())
    {
      DHs, DHr := newKey, Some(recipient);
      CKr, Ns, Nr, PN, MKSKIPPED := None, 0, 0, 0, [];
      var root := RootSeed(master);
      var dhOut := Dh(newKey, recipient);
      RK, CKs := RootOf(root, dhOut), Some(ChainOf(root, dhOut));
    }

    constructor Receiver(master: Secret, own: nat)
      ensures View() == InitReceiver(master, own) && WellFormed(View())
    {
      DHs, DHr, RK := own, None, RootSeed(master);
      CKs, CKr, Ns, Nr, PN, MKSKIPPED := None, None, 0, 0, 0, [];
    }

    method EncryptMessage(text: string, iv: nat) returns (msg: Option<Message>)
      modifies this
      ensures (View(), msg) == Encrypt(old(View()), text, iv)
    {
      if CKs.None? {
        return None;
      }
      var mk := MessageKey(CKs.value);
      CKs := Some(NextChain(CKs.value));
      msg := Some(Message(Header(PublicKey(DHs), PN, Ns), Sealed(mk, iv, text), iv));
      Ns := Ns + 1;
    }

    /** Returns the number of keys asked for when that exceeds the limit. */
    method SkipMessageKeys(until: nat) returns (excess: Option<nat>)
      requires WellFormed(View())
      modifies this
      ensures excess.None? <==> SkipAllowed(old(View()), until)
      ensures excess.None? ==> View() == Skip(old(View()), until)
      ensures excess.Some? ==> View() == old(View()) && excess.value == until - old(Nr)
      ensures WellFormed(View())
    {
      if CKr.None? || Nr > until {
        return None;
      }
      var toSkip := until - Nr;
      if toSkip > DR_MAX_SKIP {
        return Some(toSkip);
      }
      ghost var start := View();
      while Nr < until
        invariant Nr <= until && CKr.Some? && DHr.Some?
        invariant SkipLoop(View(), until) == SkipLoop(start, until)
      {
        var mk := MessageKey(CKr.value);
        CKr := Some(NextChain(CKr.value));
        MKSKIPPED := Store(MKSKIPPED, SkipKey(DHr.value, Nr), mk);
        Nr := Nr + 1;
      }
      ghost var full := MKSKIPPED;
      if |MKSKIPPED| > DR_MAX_SKIP {
        var surplus := MKSKIPPED[..|MKSKIPPED| - DR_MAX_SKIP];
        for i := 0 to |surplus|
          invariant MKSKIPPED == full[i..]
          invariant View() == SkipLoop(start, until).(MKSKIPPED := full[i..])
        {
          MKSKIPPED := Delete(MKSKIPPED, surplus[i].key);
        }
      }
      excess := None;
    }

    method DhRatchet(dh: PublicKey, newKey: nat)
      modifies this
      ensures View() == Ratchet(old(View()), dh, newKey)
    {
      PN, Ns, Nr, DHr := Ns, 0, 0, Some(dh);

      var dhOut1 := Dh(DHs, dh);
      RK, CKr := RootOf(RK, dhOut1), Some(ChainOf(RK, dhOut1));

      DHs := newKey;
      var dhOut2 := Dh(DHs, dh);
      RK, CKs := RootOf(RK, dhOut2), Some(ChainOf(RK, dhOut2));
    }

    method ReceiveMessage(msg: Message) returns (outcome: Outcome)
      requires WellFormed(View())
      modifies this
      ensures (View(), outcome) == Receive(old(View()), msg)
    {
      var excess := SkipMessageKeys(msg.header.n);
      if excess.Some? {
        return TooManySkipped(excess.value);
      }
      if CKr.None? {
        return NoReceivingChain;
      }
      var mk := MessageKey(CKr.value);
      CKr := Some(NextChain(CKr.value));
      Nr := Nr + 1;
      outcome := Reveal(mk, msg);
    }

    method DecryptMessage(msg: Message, newKey: nat) returns (outcome: Outcome)
      requires WellFormed(View())
      modifies this
      ensures (View(), outcome) == Decrypt(old(View()), msg, newKey)
    {
      var skipped := Lookup(MKSKIPPED, SkipKey(msg.header.dh, msg.header.n));
      if skipped.Some? {
        return Reveal(skipped.value, msg);
      }
      if DHr.None? || msg.header.dh != DHr.value {
        ghost var start := View();
        if CKr.Some? {
          var excess := SkipMessageKeys(msg.header.pn);
          if excess.Some? {
            return TooManySkipped(excess.value);
          }
        }
        SkipTwice(start, msg.header.pn);
        var again := SkipMessageKeys(msg.header.pn);
        assert again.None?;
        DhRatchet(msg.header.dh, newKey);
      }
      outcome := ReceiveMessage(msg);
    }
  }

  /** The second of the two skips before a ratchet never does anything. */
  lemma SkipTwice(st: State, until: nat)
    requires WellFormed(st) && SkipAllowed(st, until)
    ensures SkipAllowed(Skip(st, until), until)
    ensures Skip(Skip(st, until), until) == Skip(st, until)
  {
    if st.CKr.Some? && st.Nr <= until {
      SkipLoopReaches(st, until);
    }
  }

  lemma SkipLoopReaches(st: State, until: nat)
    requires st.CKr.Some? && st.DHr.Some? && st.Nr <= until
    ensures SkipLoop(st, until).Nr == until
    decreases until - st.Nr
  {
  }
}
