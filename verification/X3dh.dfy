/**
 X3DH key agreement of static/crypto-v2.js and how it opens a Double Ratchet conversation.
 */
module X3dh {
  import opened Common
  import opened Crypto
  import DoubleRatchet
  import RatchetRun

  /** The responder's published keys. */
  datatype Bundle = Bundle(identityKey: PublicKey, signedPrekey: PublicKey, oneTimePrekey: Option<PublicKey>)

  function InitiatorSecret(identity: nat, ephemeral: nat, bundle: Bundle): Secret {
    var dh1 := Dh(identity, bundle.signedPrekey);
    var dh2 := Dh(ephemeral, bundle.identityKey);
    var dh3 := Dh(ephemeral, bundle.signedPrekey);
    var ikm := [dh1] + [dh2] + [dh3];
    match bundle.oneTimePrekey
    case None => Master(ikm)
    case Some(opk) => Master(ikm + [Dh(ephemeral, opk)])
  }

  function ResponderSecret(
    identity: nat, signedPrekey: nat,
    peerIdentity: PublicKey, peerEphemeral: PublicKey,
    oneTimePrekey: Option<nat>): Secret
  {
    var dh1 := Dh(signedPrekey, peerIdentity);
    var dh2 := Dh(identity, peerEphemeral);
    var dh3 := Dh(signedPrekey, peerEphemeral);
    var ikm := [dh1] + [dh2] + [dh3];
    match oneTimePrekey
    case None => Master(ikm)
    case Some(opk) => Master(ikm + [Dh(opk, peerEphemeral)])
  }

  /** The responder uses the one-time prekey the initiator was given, or none if there was none. */
  predicate SameOneTimePrekey(offered: Option<PublicKey>, used: Option<nat>) {
    match (offered, used)
    case (None, None) => true
    case (Some(pub), Some(priv)) => pub == PublicKey(priv)
    case _ => false
  }

  /** Both sides derive the same secret exactly when they agree on the one-time prekey. */
  lemma Agreement(
    aliceIdentity: nat, aliceEphemeral: nat, bobIdentity: nat, bobSigned: nat,
    offered: Option<PublicKey>, used: Option<nat>)
    ensures InitiatorSecret(aliceIdentity, aliceEphemeral, Bundle(PublicKey(bobIdentity), PublicKey(bobSigned), offered))
         == ResponderSecret(bobIdentity, bobSigned, PublicKey(aliceIdentity), PublicKey(aliceEphemeral), used)
       <==> SameOneTimePrekey(offered, used)
  {
    DhCommutes(aliceIdentity, bobSigned);
    DhCommutes(aliceEphemeral, bobIdentity);
    DhCommutes(aliceEphemeral, bobSigned);
    var ikm := [Dh(bobSigned, PublicKey(aliceIdentity))] + [Dh(bobIdentity, PublicKey(aliceEphemeral))]
             + [Dh(bobSigned, PublicKey(aliceEphemeral))];
    if offered.Some? && used.Some? {
      DhCommutes(aliceEphemeral, offered.value.scalar);
      var a := ikm + [Dh(aliceEphemeral, offered.value)];
      var b := ikm + [Dh(used.value, PublicKey(aliceEphemeral))];
      assert a == b <==> a[3] == b[3];
    } else if offered.Some? {
      assert |ikm + [Dh(aliceEphemeral, offered.value)]| != |ikm|;
    } else if used.Some? {
      assert |ikm + [Dh(used.value, PublicKey(aliceEphemeral))]| != |ikm|;
    }
  }

  /** The secret is made of the three or four products of section 3.3 of the X3DH specification, and of no others. */
  lemma SecretExact(a: nat, e: nat, bundle: Bundle, a': nat, e': nat, bundle': Bundle)
    ensures InitiatorSecret(a, e, bundle) == InitiatorSecret(a', e', bundle') <==>
              && Dh(a, bundle.signedPrekey) == Dh(a', bundle'.signedPrekey)
              && Dh(e, bundle.identityKey) == Dh(e', bundle'.identityKey)
              && Dh(e, bundle.signedPrekey) == Dh(e', bundle'.signedPrekey)
              && (bundle.oneTimePrekey.Some? <==> bundle'.oneTimePrekey.Some?)
              && (bundle.oneTimePrekey.Some? ==>
                    Dh(e, bundle.oneTimePrekey.value) == Dh(e', bundle'.oneTimePrekey.value))
  {
    hide Dh;
    var ikm := [Dh(a, bundle.signedPrekey)] + [Dh(e, bundle.identityKey)] + [Dh(e, bundle.signedPrekey)];
    var ikm' := [Dh(a', bundle'.signedPrekey)] + [Dh(e', bundle'.identityKey)] + [Dh(e', bundle'.signedPrekey)];
    assert ikm == ikm' <==> ikm[0] == ikm'[0] && ikm[1] == ikm'[1] && ikm[2] == ikm'[2];
    if bundle.oneTimePrekey.Some? && bundle'.oneTimePrekey.Some? {
      var all := ikm + [Dh(e, bundle.oneTimePrekey.value)];
      var all' := ikm' + [Dh(e', bundle'.oneTimePrekey.value)];
      assert all[..3] == ikm && all'[..3] == ikm';
      assert all == all' <==> all[..3] == all'[..3] && all[3] == all'[3];
    } else if bundle.oneTimePrekey.Some? {
      assert |ikm + [Dh(e, bundle.oneTimePrekey.value)]| != |ikm'|;
    } else if bundle'.oneTimePrekey.Some? {
      assert |ikm' + [Dh(e', bundle'.oneTimePrekey.value)]| != |ikm|;
    }
  }

  lemma DhBinds(a: nat, b: nat, p: PublicKey, q: PublicKey)
    ensures Dh(a, p) == Dh(b, p) <==> a == b
    ensures Dh(a, p) == Dh(a, q) <==> p == q
  {
  }

  /** So each side is bound to every key of the other. */
  lemma SecretBinds(a: nat, e: nat, bundle: Bundle, a': nat, e': nat, bundle': Bundle)
    ensures InitiatorSecret(a, e, bundle) == InitiatorSecret(a', e', bundle) <==> a == a' && e == e'
    ensures InitiatorSecret(a, e, bundle) == InitiatorSecret(a, e, bundle') <==> bundle == bundle'
  {
    hide InitiatorSecret, Dh;
    SecretExact(a, e, bundle, a', e', bundle);
    SecretExact(a, e, bundle, a, e, bundle');
    DhBinds(a, a', bundle.signedPrekey, bundle'.signedPrekey);
    DhBinds(e, e', bundle.identityKey, bundle'.identityKey);
    if bundle.oneTimePrekey.Some? && bundle'.oneTimePrekey.Some? {
      DhBinds(e, e', bundle.oneTimePrekey.value, bundle'.oneTimePrekey.value);
    }
  }

  /** After X3DH the two sessions are the two ends of one conversation. */
  lemma OpensConversation(
    aliceIdentity: nat, aliceEphemeral: nat, aliceFirst: nat, bobIdentity: nat, bobSigned: nat,
    offered: Option<PublicKey>, used: Option<nat>)
    requires SameOneTimePrekey(offered, used) && aliceFirst != bobSigned
    ensures var bundle := Bundle(PublicKey(bobIdentity), PublicKey(bobSigned), offered);
            var aliceMaster := InitiatorSecret(aliceIdentity, aliceEphemeral, bundle);
            var bobMaster := ResponderSecret(bobIdentity, bobSigned, PublicKey(aliceIdentity), PublicKey(aliceEphemeral), used);
            var w := RatchetRun.Start(aliceMaster, bobSigned, aliceFirst);
            && w.ends[0].st == DoubleRatchet.InitReceiver(bobMaster, bobSigned)
            && w.ends[1].st == DoubleRatchet.InitSender(aliceMaster, bundle.signedPrekey, aliceFirst)
            && RatchetRun.Inv(w)
  {
    Agreement(aliceIdentity, aliceEphemeral, bobIdentity, bobSigned, offered, used);
    var bundle := Bundle(PublicKey(bobIdentity), PublicKey(bobSigned), offered);
    RatchetRun.StartInv(InitiatorSecret(aliceIdentity, aliceEphemeral, bundle), bobSigned, aliceFirst);
  }
}
