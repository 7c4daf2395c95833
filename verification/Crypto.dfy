/**
 Symbolic cryptography shared by the protocol models.

 Key material is a term of a free algebra: two secrets are equal exactly when they were derived
 in the same way.  The only equation is commutativity of Diffie-Hellman, which holds because a
 shared secret records its two scalars in ascending order.  Symmetric encryption opens under the
 key and nonce it was sealed with and under no other.
 */
module Crypto {
  import opened Common

  /** An X25519 public key is named by the scalar it belongs to. */
  datatype PublicKey = PublicKey(scalar: nat)

  datatype Secret =
    | Shared(low: nat, high: nat)                 // X25519 output
    | Master(parts: seq<Secret>)                  // HKDF of concatenated X25519 outputs (X3DH)
    | RootSeed(master: Secret)                    // first 32 bytes of the master secret
    | RootOf(root: Secret, dh: Secret)            // first half of the root KDF
    | ChainOf(root: Secret, dh: Secret)           // second half of the root KDF
    | NextChain(chain: Secret)                    // chain KDF, next chain key
    | MessageKey(chain: Secret)                   // chain KDF, message key

  datatype Ciphertext = Sealed(key: Secret, iv: nat, text: string)

  function Dh(priv: nat, pub: PublicKey): Secret {
    if priv <= pub.scalar then Shared(priv, pub.scalar) else Shared(pub.scalar, priv)
  }

  function Open(key: Secret, ciphertext: Ciphertext, iv: nat): Option<string> {
    if ciphertext.key == key && ciphertext.iv == iv then Some(ciphertext.text) else None
  }

  lemma DhCommutes(a: nat, b: nat)
    ensures Dh(a, PublicKey(b)) == Dh(b, PublicKey(a))
  {
  }
}
