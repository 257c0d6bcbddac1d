/**
 * The cryptography the chain relies on, seen only through its interface.
 *
 * SHA-256 (`sha256::digest`, FIPS 180-4), the derivation of an RSA public
 * key from its private key, and PKCS#1 v1.5 signing and verification over
 * SHA-256 (section 8.2 of RFC 8017) are not modelled: a `Provider` carries
 * them as arbitrary total functions, and every statement of the model holds
 * for every provider. The facts that real cryptography is expected to give
 * are stated as predicates on the provider and appear as explicit
 * hypotheses of the lemmas that need them.
 */
module Crypto {

  newtype byte = x: int | 0 <= x < 256

  /** A key in its PEM text encoding (PKCS#8 for private, SubjectPublicKeyInfo for public). */
  type Pem = string

  type Signature = seq<byte>

  datatype Provider = Provider(
    /** SHA-256 of a text, as a lower-case hex string. */
    digest: string -> string,
    /** The PEM of the public key that belongs to a private key. */
    derivePublic: Pem -> Pem,
    /** PKCS#1 v1.5 signature of the SHA-256 of a message, with a private key. */
    sign: (Pem, string) -> Signature,
    /** Whether a signature is valid for a message under a public key. */
    verify: (Pem, string, Signature) -> bool)

  /** Signing then verifying with the matching public key always succeeds. */
  ghost predicate SignaturesVerify(p: Provider) {
    forall priv: Pem, msg: string :: p.verify(p.derivePublic(priv), msg, p.sign(priv, msg))
  }

  /** Collision freedom of the digest; used only where stated. */
  ghost predicate DigestInjective(p: Provider) {
    forall a: string, b: string :: p.digest(a) == p.digest(b) ==> a == b
  }

  /**
   * A signer: one key pair in encoded form. Cheap to copy; the two halves
   * are not checked against each other when built from raw buffers.
   */
  datatype KeyManager = KeyManager(privateKey: Pem, publicKey: Pem)

  /** The two halves belong together, as they do after generation or after loading a private key. */
  ghost predicate Paired(p: Provider, km: KeyManager) {
    km.publicKey == p.derivePublic(km.privateKey)
  }

  function Sign(p: Provider, km: KeyManager, msg: string): Signature {
    p.sign(km.privateKey, msg)
  }

  function Verify(p: Provider, km: KeyManager, msg: string, sig: Signature): bool {
    p.verify(km.publicKey, msg, sig)
  }

  /** The signer's identity: the SHA-256 of its public key text. */
  function PublicKeyHash(p: Provider, km: KeyManager): string {
    p.digest(km.publicKey)
  }

  /** A key pair whose public half is derived from its private half verifies what it signs. */
  lemma SignThenVerify(p: Provider, km: KeyManager, msg: string)
    requires SignaturesVerify(p) && Paired(p, km)
    ensures Verify(p, km, msg, Sign(p, km, msg))
  {
  }
}
