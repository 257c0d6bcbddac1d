/**
 * Block: metadata, the payload, and a detached signature over the
 * metadata's canonical serialisation. Two independent read-only checks:
 * the signature against a candidate key, and the stored hash against the
 * payload.
 */
module Blocks {
  import opened Wrappers
  import opened Crypto
  import opened Metadata

  /** The message of a failed signature check. */
  function SignatureError(metadataJson: string): string {
    "Can't validate signature of block " + metadataJson
  }

  /** The message of a failed hash check. */
  function HashError(metadataJson: string): string {
    "Can't validate hash of block " + metadataJson
  }

  datatype Block = Block(metadata: BlockMetadata, data: string, signature: Signature)
  {
    /** `verify_signature`: passes exactly when `km` accepts the signature over the metadata text. */
    function VerifySignature(p: Provider, km: KeyManager): (r: Outcome<string>)
      ensures r.Pass? <==> Verify(p, km, metadata.ToJson(), signature)
      ensures r.Fail? ==> r.error == SignatureError(metadata.ToJson())
    {
      var metadataJson := metadata.ToJson();
      if Verify(p, km, metadataJson, signature) then Pass else Fail(SignatureError(metadataJson))
    }

    /** `verify_hash`: passes exactly when the stored hash is the hash of the stored payload. */
    function VerifyHash(p: Provider): (r: Outcome<string>)
      ensures r.Pass? <==> metadata.hash == metadata.GenerateHashFor(p, data)
      ensures r.Fail? ==> r.error == HashError(metadata.ToJson())
    {
      var metadataJson := metadata.ToJson();
      if metadata.hash == metadata.GenerateHashFor(p, data) then Pass else Fail(HashError(metadataJson))
    }
  }

  /**
   * `Block::new` with the clock reading passed in as `date`. The block
   * records the signer's fingerprint, signs its metadata text with the
   * signer's private key, and passes both of its own checks.
   */
  function New(p: Provider, id: i32, date: u64, previousHash: string, km: KeyManager, data: string): (b: Block)
    ensures b.metadata.id == id && b.metadata.date == date && b.metadata.previousHash == previousHash
    ensures b.metadata.hashKey == PublicKeyHash(p, km) && b.data == data
    ensures b.signature == Sign(p, km, b.metadata.ToJson())
    ensures b.VerifyHash(p) == Pass
    ensures SignaturesVerify(p) && Paired(p, km) ==> b.VerifySignature(p, km) == Pass
  {
    var metadata := Metadata.New(p, id, date, previousHash, PublicKeyHash(p, km), data);
    Block(metadata, data, Sign(p, km, metadata.ToJson()))
  }

  /**
   * The signature covers neither the payload nor the stored hash: replacing
   * either leaves the outcome of `VerifySignature` unchanged for every key.
   */
  lemma SignatureIgnoresPayload(p: Provider, b: Block, km: KeyManager, data: string, hash: string)
    ensures b.(data := data, metadata := b.metadata.(hash := hash)).VerifySignature(p, km) == b.VerifySignature(p, km)
  {
  }

  /**
   * With a collision-free digest, a block that passed its hash check fails
   * it once its payload is replaced by any other text.
   */
  lemma TamperedPayloadFailsHash(p: Provider, b: Block, data: string)
    requires DigestInjective(p)
    requires b.VerifyHash(p).Pass?
    requires data != b.data
    ensures b.(data := data).VerifyHash(p) == Fail(HashError(b.metadata.ToJson()))
  {
    var m := b.metadata;
    if m.GenerateHashFor(p, data) == m.GenerateHashFor(p, b.data) {
      HashInputInjective(m.id, m.date, m.previousHash, m.hashKey, data, m.id, m.date, m.previousHash, m.hashKey, b.data);
    }
  }

  /**
   * The documented gap: after the payload of a fresh block is edited, the
   * hash check reports the edit but the signature check still passes.
   */
  lemma PayloadEditKeepsSignature(p: Provider, id: i32, date: u64, previousHash: string, km: KeyManager, data: string, edited: string)
    requires SignaturesVerify(p) && Paired(p, km) && DigestInjective(p)
    requires edited != data
    ensures New(p, id, date, previousHash, km, data).(data := edited).VerifySignature(p, km) == Pass
    ensures New(p, id, date, previousHash, km, data).(data := edited).VerifyHash(p).Fail?
  {
    var b := New(p, id, date, previousHash, km, data);
    SignatureIgnoresPayload(p, b, km, edited, b.metadata.hash);
    TamperedPayloadFailsHash(p, b, edited);
  }

  /**
   * The same gap for any block that passed its hash check and carries its
   * signer's signature, such as every block of a chain built by `add_block`.
   */
  lemma EditedBlockDetected(p: Provider, b: Block, km: KeyManager, edited: string)
    requires SignaturesVerify(p) && Paired(p, km) && DigestInjective(p)
    requires b.signature == Sign(p, km, b.metadata.ToJson())
    requires b.VerifyHash(p) == Pass
    requires edited != b.data
    ensures b.(data := edited).VerifySignature(p, km) == Pass
    ensures b.(data := edited).VerifyHash(p).Fail?
  {
    SignThenVerify(p, km, b.metadata.ToJson());
    SignatureIgnoresPayload(p, b, km, edited, b.metadata.hash);
    TamperedPayloadFailsHash(p, b, edited);
  }

  /**
   * Rewriting the payload and the stored hash together needs no private
   * key and passes both checks: neither check alone, nor both together,
   * binds the payload to the signer.
   */
  lemma RehashedForgeryPassesBoth(p: Provider, b: Block, km: KeyManager, data: string)
    requires b.VerifySignature(p, km).Pass?
    ensures b.(data := data, metadata := b.metadata.(hash := b.metadata.GenerateHashFor(p, data))).VerifySignature(p, km) == Pass
    ensures b.(data := data, metadata := b.metadata.(hash := b.metadata.GenerateHashFor(p, data))).VerifyHash(p) == Pass
  {
    SignatureIgnoresPayload(p, b, km, data, b.metadata.GenerateHashFor(p, data));
  }
}
