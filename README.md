# signedchain in Dafny

A model of the core of *signedchain*: an append-only chain of blocks. Each
block records its position (`id`), a date, the hash of the block before it
(`previous_hash`), the fingerprint of its signer's public key (`hash_key`) and
a `hash`. That hash is the SHA-256 of the canonical JSON of those four fields
with the payload appended. A detached RSA signature covers the same canonical
JSON. The chain offers two independent passes:

- `verify_with_keys` accepts a block when **any** key of a trust set verifies
  its signature, and stops at the first block no key verifies;
- `verify_with_hashes` recomputes every block's hash from its stored payload.

The model has one module per source file and three supporting modules:

- `Wrappers` (`wrappers.dfy`): `Option` and `Outcome` (Rust's `Result<(), E>`).
- `Json` (`json.dfy`): the canonical text. It is a concrete serializer for flat
  JSON objects (RFC 8259) with numbers and strings, escaped the way serde_json's
  compact writer escapes. A parser is its partner, and `Json.RoundTrip` and
  `Json.PrefixRoundTrip` prove the two are inverse. Every injectivity fact used
  below follows from that round trip.
- `Crypto` (`crypto.dfy`): the cryptography, seen only through its interface.
  A `Provider` value holds four total functions: the digest, public-key
  derivation, signing and verification. Every result holds for every provider.
  Two properties that real cryptography is expected to have are written as
  predicates and used only as explicit hypotheses:
  - `SignaturesVerify`: verifying what the matching private key signed succeeds
    (PKCS#1 v1.5, section 8.2 of RFC 8017).
  - `DigestInjective`: the digest (SHA-256, FIPS 180-4) is collision-free.
  `KeyManager` is a pair of PEM texts. `Sign`, `Verify` and `PublicKeyHash`
  are thin wrappers over the provider.
- `Metadata` (`block_metadata.dfy`): `BlockMetadata`, `new`, `generate_hash`,
  `to_json`. Ids are an `i32` newtype and dates a `u64` newtype.
- `Blocks` (`block.dfy`): `Block`, `new`, `verify_signature`, `verify_hash`.
- `Chains` (`chain.dfy`): the class `Chain`. Its field `blocks: seq<Block>`
  is reassigned by `AddBlock`. Its ghost field `signers` records the key that
  added each block. `Valid()` is the chain invariant: linkage, `id == index`,
  every hash check passing, and every block signed by its recorded signer.
  Both verification passes are loops proved against a verdict predicate.

Inputs that the source reads from the environment are parameters here:

- the clock reading in `Block::new` is the `date` argument;
- the cryptographic primitives are the `Provider`, fixed per chain by the
  constructor of `Chain`.

Where the source, as written, disagrees with itself, the model follows evident
intent:

- `KeyManager::verify` returns `()` and aborts on failure
  (src/key_manager.rs:123-134), yet `verify_signature` matches on its result.
  Verification is a `bool` here.
- `generate_hash` is declared with five arguments, yet it is invoked with the
  payload only (src/block.rs:47). The model gives both forms: `GenerateHash`
  takes five arguments, and `BlockMetadata.GenerateHashFor` uses the stored four
  fields plus the payload.
- The metadata fields are private, yet the chain reads them. Here they are
  readable.
- The aborts in the two chain passes (src/chain.rs:67, src/chain.rs:91) are
  `Fail(BlockFailure(index, metadataJson, message))`. The message is the one the
  source would abort with.
- The overflow abort of `try_into().unwrap()` in `add_block`
  (src/chain.rs:33) is a `false` result that leaves the chain unchanged.

Key order in the canonical JSON follows the order the source writes
(`id`, `date`, `previous_hash`, `hash_key`). serde_json's default map sorts
keys, and the crate's feature set is not part of this model. Every property
proved here depends only on the serialisation being a fixed, readable function
of the four fields. It does not depend on the exact byte order.

## Model

| member | source | states |
|---|---|---|
| `Metadata.FieldsObject` | src/block_metadata.rs:48-53 | the canonical object has exactly the keys id, date, previous_hash, hash_key in that order, and no `hash` key |
| `Metadata.New` | src/block_metadata.rs:15-29 | `new` stores id, date, previous_hash and hash_key as given, and a hash equal to `generate_hash` of those stored fields with `data` |
| `Metadata.BlockMetadata.ToJson` | src/block_metadata.rs:47-55 | `to_json` is the canonical text of exactly id, date, previous_hash and hash_key: it parses back as those four fields under those four keys, so the stored hash never shows in it |
| `Metadata.ToJsonIgnoresHash` | src/block_metadata.rs:47-55 | two metadata values that differ only in `hash` have the same `to_json` |
| `Metadata.ToJsonInjective` | src/block_metadata.rs:47-55 | equal `to_json` texts mean equal id, date, previous_hash and hash_key |
| `Metadata.HashInput` | src/block_metadata.rs:38-44 | the hashed text is the canonical JSON of the four fields with `data` appended verbatim: reading one object off its front gives the four fields and leaves exactly `data` |
| `Metadata.GenerateHash` | src/block_metadata.rs:31-45 | `generate_hash` is the digest of that text; with a collision-free digest no other payload gives the same hash for the same four fields |
| `Metadata.BlockMetadata.GenerateHashFor` | src/block.rs:47 | the method-call form `self.metadata.generate_hash(&self.data)`: the digest of the very text `to_json` produces, followed by the payload, computed from the four stored fields |
| `Metadata.OtherPayloadOtherInput` | src/block_metadata.rs:31-45 | for fixed fields, two different payloads are never hashed as the same text |
| `Metadata.HashInputInjective` | src/block_metadata.rs:31-45 | two different tuples of (four fields, payload) are never hashed as the same text |
| `Metadata.NewDiffersOnlyInHash` | src/block_metadata.rs:22-27 | metadata from the same four fields but different data differs only in `hash`; with a collision-free digest it does differ there |
| `Json.Serialize` | src/block_metadata.rs:48-54 | the compact serializer `serde_json::to_string` of a flat object; its text is `{}` exactly for the empty object, and `Json.RoundTrip` is its inverse |
| `Json.RoundTrip` | src/block_metadata.rs:48-54 | the parser inverts the canonical serializer on every flat object |
| `Json.PrefixRoundTrip` | src/block_metadata.rs:38-44 | reading an object off the front of its serialization followed by any text returns the object and that text |
| `Json.SerializeInjective` | src/block_metadata.rs:48-54 | distinct objects have distinct canonical texts |
| `Json.StringBodyRoundTrip` | src/block_metadata.rs:41-42 | a string survives escaping into a JSON literal and reading back, whatever it contains |
| `Json.IntRoundTrip` | src/block_metadata.rs:39-40 | the decimal text of an id or date reads back as the same number |
| `Crypto.SignThenVerify` | src/key_manager.rs:109-134 | under the round-trip hypothesis, a key pair whose public half is derived from its private half verifies what it signs |
| `Blocks.New` | src/block.rs:15-32 | `Block::new` sets id, date, previous_hash, data, hash_key = fingerprint of the signer's public key, signature = Sign(private key, to_json); the fresh block passes `verify_hash`, and passes `verify_signature` with its own key under the round-trip hypothesis |
| `Blocks.Block.VerifySignature` | src/block.rs:34-43 | passes iff the key accepts the signature over `to_json`; on failure the error carries the metadata JSON |
| `Blocks.Block.VerifyHash` | src/block.rs:45-51 | passes iff the stored hash equals `generate_hash` of the stored payload; on failure the error carries the metadata JSON |
| `Blocks.SignatureIgnoresPayload` | src/block.rs:34-43 | replacing `data` or `metadata.hash` never changes the outcome of `verify_signature`, for any key |
| `Blocks.TamperedPayloadFailsHash` | src/block.rs:45-51 | with a collision-free digest, a block that passed `verify_hash` fails it once `data` is replaced by any other text |
| `Blocks.PayloadEditKeepsSignature` | src/block.rs:34-51 | the documented gap: editing a fresh block's payload makes `verify_hash` fail while `verify_signature` still passes |
| `Blocks.EditedBlockDetected` | src/block.rs:34-51 | for any block carrying its signer's signature and passing `verify_hash`, replacing `data` by other text fails `verify_hash` and still passes `verify_signature` |
| `Blocks.RehashedForgeryPassesBoth` | src/block.rs:34-51 | rewriting `data` and `hash` together, without any private key, keeps both checks passing |
| `Chains.Chain.constructor` | src/chain.rs:13-15 | a new chain has no blocks and satisfies the chain invariant |
| `Chains.Chain.AddBlock` | src/chain.rs:26-39 | appends exactly one block, leaving earlier blocks unchanged; its id is the old length, its previous_hash the last block's hash or `""`; the invariant (id == index, linkage, hashes valid, signed by its adder) is preserved; with 2^31 blocks already, it fails and changes nothing |
| `Chains.LastHash` | src/chain.rs:27-31 | the previous_hash `add_block` gives the next block: the last block's hash, or `""` when the chain is empty |
| `Chains.AppendKeepsInvariant` | src/chain.rs:26-39 | appending a block with id = length, previous_hash = last hash, a passing hash check and its signer's signature keeps the chain invariant: linked, hashes valid, every block signed by its recorded signer |
| `Chains.KeyTrusts` | src/chain.rs:55-62 | a block that some key of the list verifies counts as trusted, which is what ends the inner loop of `verify_with_keys` |
| `Chains.NoKeyTrusts` | src/chain.rs:55-68 | a block that every key of the list rejects is not trusted, which is what makes `verify_with_keys` stop at it |
| `Chains.AppendKeepsLinked` | src/chain.rs:27-38 | appending a block with id = length and previous_hash = last hash keeps `blocks[i].id == i`, `blocks[0].previous_hash == ""` and `blocks[i].previous_hash == blocks[i-1].hash` |
| `Chains.Chain.VerifyWithKeys` | src/chain.rs:53-71 | passes iff every block is verified by some key of the list; otherwise reports the lowest-index block that no key verifies, with its metadata JSON |
| `Chains.Chain.VerifyWithHashes` | src/chain.rs:86-95 | passes iff every block passes `verify_hash`, otherwise reports the lowest-index failing block and its error; a chain built by `AddBlock` always passes |
| `Chains.SignatureVerdictUnique` | src/chain.rs:53-71 | the description of the key pass's outcome determines a single result |
| `Chains.HashVerdictUnique` | src/chain.rs:86-95 | the description of the hash pass's outcome determines a single result |
| `Chains.KeyOrderIrrelevant` | src/chain.rs:55-66 | permuting or repeating the keys does not change the outcome of the key pass |
| `Chains.SignatureVerdictEdgeCases` | src/chain.rs:53-71 | the empty chain passes with any key list; a non-empty chain with no keys fails at block 0 |
| `Chains.SignedChainPasses` | src/chain.rs:53-71 | a chain every block of which was signed by a trusted, correctly paired key passes the key pass |
| `Chains.TwoBlockScenario` | src/chain.rs:26-95 | for any dates and payloads, two blocks added with one paired key pass both passes; editing the second payload then fails `verify_hash` but not `verify_signature` |

## Left out

- src/key_manager.rs is not modelled beyond the interface in `Crypto`. Left out: RSA-2048 key generation, PEM encoding and decoding and their failures, the SHA-256 inside signing, and key file I/O. These are foreign libraries and the file system.
- SHA-256 and RSA themselves are left uninterpreted as fields of `Provider`. Collision freedom and the sign/verify round trip are hypotheses, never assumed globally.
- A key other than the signer failing to verify a block is not proved. Nothing states that a signature is rejected under a foreign key, and no such hypothesis is added.
- `Blocks.New`: a signing failure (an undecodable private key) is not modelled. Signing is a total function of the provider.
- `Json.ParseEscape`: `\u` escapes that form a surrogate pair are rejected rather than combined. The serializer never writes a `\u` escape above U+001F.
- Strings are sequences of Unicode scalar values. The UTF-8 encoding of the signed text (`as_bytes`) is folded into the provider's `sign` and `verify`.
- The clock read `SystemTime::now()` in `Block::new` is a parameter. So is the choice of crypto provider given to the `Chain` constructor.
- `Metadata.FieldsObject`: the keys are written in the order the source lists them (id, date, previous_hash, hash_key). serde_json's default map sorts keys, so the program's text is `{"date":…,"hash_key":…,"id":…,"previous_hash":…}`. The byte order of the canonical text is therefore not modelled, only that it is a fixed, readable function of the four fields.
- src/main.rs is demonstration wiring and is not modelled.
- The `fmt::Debug` implementations are formatting only and are not modelled.
- Purity of `generate_hash` (equal inputs give equal hashes) holds because it is a Dafny function. No lemma states it.
