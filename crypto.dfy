/**
 * The cryptography the relay calls into (ElGamal unwrap, AES-CBC, ECDH,
 * SHA3-256, Base64). These are foreign library calls, so the model takes
 * them as a suite of function values that each relay is built with; every
 * call that can throw returns an `Option`.
 */
module Crypto {
  import opened Wrappers
  import opened Cells

  type Bytes = seq<bv8>

  /** The relay's fresh EC key pair for one handshake: the Base64 public value gY and the private half. */
  datatype KeyPair = KeyPair(pub: string, priv: Bytes)

  datatype Suite = Suite(
    /** `decryptHybrid(encryptedSymKey, gX)` with the relay's long-term private key. */
    decryptHybrid: (string, string) -> Option<Bytes>,
    /** X.509-decode the peer's gX and run ECDH with our private key; `None` where either throws. */
    agree: (Bytes, Bytes) -> Option<Bytes>,
    /** Base64 of SHA3-256(sharedSecret || "handshake"). */
    confirm: Bytes -> string,
    /** Base64 decoding of an IV string. */
    decodeIV: string -> Option<Bytes>,
    /** `encryptSymmetric`: AES-CBC of a serialised RelaySecret under a key and raw IV, Base64 encoded. */
    encrypt: (RelaySecret, Bytes, Bytes) -> Option<string>,
    /** `decryptCBC` followed by parsing the plaintext as a RelaySecret. */
    decrypt: (string, Bytes, string) -> Option<RelaySecret>
  )

  /** AES-CBC round trip: what was encrypted under a key and IV decrypts back under the same key and IV. */
  ghost predicate RoundTrips(cs: Suite) {
    forall secret, key, iv, raw ::
      cs.decodeIV(iv) == Some(raw) && cs.encrypt(secret, key, raw).Some? ==>
        cs.decrypt(cs.encrypt(secret, key, raw).value, key, iv) == Some(secret)
  }
}
