/**
 * The cryptography, kept abstract: the cipher pair and the searchable digest are
 * function values, and the laws the proofs need are stated as a predicate on them.
 */
module Cipher {
  import opened Json
  import opened Config

  /** The helper draws 16 random bytes and hex-encodes them. */
  const IvLength := 32

  type Iv = s: string | |s| == IvLength witness "00000000000000000000000000000000"

  /** `encrypt(salt, algorithm, iv, plaintext)` returns hex ciphertext;
      `decrypt(salt, algorithm, iv, ciphertext)` returns the plaintext;
      `digest(text)` is the base64 SHA-256 of the text. */
  datatype Crypto = Crypto(
    encrypt: (string, string, string, string) -> string,
    decrypt: (string, string, string, string) -> string,
    digest: string -> string)

  /** Decryption with the encryption's IV inverts it, and AES never yields an empty
      ciphertext for a non-empty plaintext. */
  ghost predicate Lawful(c: Crypto) {
    && (forall salt, alg, iv, p :: |iv| == IvLength ==>
          c.decrypt(salt, alg, iv, c.encrypt(salt, alg, iv, p)) == p)
    && (forall salt, alg, iv, p :: p != "" ==> c.encrypt(salt, alg, iv, p) != "")
  }

  /** `encryptField` with the IV it drew. */
  function Seal(c: Crypto, o: Options, iv: Iv, text: string): string {
    c.encrypt(o.salt, EffectiveAlgorithm(o), iv, text)
  }

  function Unseal(c: Crypto, o: Options, iv: string, cipherText: string): string {
    c.decrypt(o.salt, EffectiveAlgorithm(o), iv, cipherText)
  }

  /** `decryptField`: only a string stored value with an IV of full length is decrypted;
      anything else comes back as it was stored. */
  function DecryptField(c: Crypto, o: Options, iv: string, stored: Value): (r: Value)
    ensures !stored.Str? ==> r == stored
    ensures JsLength(iv) < IvLength ==> r == stored
    ensures r != stored ==> stored.Str? && JsLength(iv) >= IvLength && r.Str?
  {
    if !stored.Str? then stored
    else if JsLength(iv) < IvLength then stored
    else Str(Unseal(c, o, iv, stored.s))
  }

  /** A field sealed under an IV is recovered by `decryptField` with that IV. */
  lemma DecryptFieldRoundTrip(c: Crypto, o: Options, iv: Iv, text: string)
    requires Lawful(c)
    ensures DecryptField(c, o, iv, Str(Seal(c, o, iv, text))) == Str(text)
  {
  }

  /** A non-empty plaintext seals to a truthy string, so the read side does not skip it. */
  lemma SealTruthy(c: Crypto, o: Options, iv: Iv, text: string)
    requires Lawful(c)
    requires text != ""
    ensures Truthy(Str(Seal(c, o, iv, text)))
  {
  }

  /** The identity cipher satisfies the laws, so they are not contradictory. */
  lemma LawsSatisfiable()
    ensures Lawful(Crypto((s, a, iv, p) => p, (s, a, iv, x) => x, t => t))
  {
  }
}
