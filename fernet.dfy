/**
 * Fernet authenticated encryption, modelled symbolically.
 *
 * A token is the term `Sealed(key, nonce, message)`: it records which key it
 * was sealed under and the per-token randomness (IV and timestamp) Fernet
 * draws, and the only way the model reads a message back is `Decrypt` with
 * that same key. Decryption under any other key is idealised as always
 * failing; the real check fails only with overwhelming probability. The token
 * format and the decoding and validation of the key string are not modelled.
 */
module Fernet {
  import opened Wrappers

  /**
   * The 32 bytes of key material `Fernet(...)` decodes from the base64 string
   * it is given. Different strings can decode to the same key material; the
   * model starts from the decoded bytes.
   */
  type Key = k: seq<bv8> | |k| == 32 witness seq(32, i => 0 as bv8)

  /** The randomness Fernet draws for one token (its IV and timestamp). */
  type Nonce = nat

  datatype Token = Sealed(sealedUnder: Key, nonce: Nonce, message: string)

  /** `Fernet(key).encrypt(message)`: decrypting under the same key gives the message back. */
  function Encrypt(key: Key, nonce: Nonce, message: string): (t: Token)
    ensures Decrypt(key, t) == Some(message)
    ensures forall other :: other != key ==> Decrypt(other, t) == None
  {
    Sealed(key, nonce, message)
  }

  /**
   * `Fernet(key).decrypt(token)`: `None` stands for the `InvalidToken` error
   * Fernet raises when the token was not made under `key`.
   */
  function Decrypt(key: Key, t: Token): (r: Option<string>)
  {
    if t.sealedUnder == key then Some(t.message) else None
  }

}
