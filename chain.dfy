/**
 * Chain: an append-only sequence of blocks, each linked to its
 * predecessor's hash, with the two verification passes over it.
 */
module Chains {
  import opened Wrappers
  import opened Crypto
  import opened Metadata
  import opened Blocks

  /** The largest block count whose next id still fits an `i32`. */
  const MaxBlocks: nat := 0x8000_0000

  /** A failed pass: the offending block's index, its metadata text and the message. */
  datatype BlockFailure = BlockFailure(index: nat, metadataJson: string, message: string)

  /** The message of a block that no trusted key verifies. */
  function UntrustedError(metadataJson: string): string {
    "Can't verify signature of block " + metadataJson
  }

  /** The hash the next block links to: the last block's, or the empty string. */
  function LastHash(blocks: seq<Block>): (h: string)
    ensures blocks == [] ==> h == ""
    ensures blocks != [] ==> h == blocks[|blocks| - 1].metadata.hash
  {
    if blocks == [] then "" else blocks[|blocks| - 1].metadata.hash
  }

  /** Position is identity, and every block links to the hash of the one before it. */
  ghost predicate Linked(blocks: seq<Block>) {
    && (forall i :: 0 <= i < |blocks| ==> blocks[i].metadata.id as int == i)
    && (|blocks| > 0 ==> blocks[0].metadata.previousHash == "")
    && (forall i :: 0 < i < |blocks| ==> blocks[i].metadata.previousHash == blocks[i - 1].metadata.hash)
  }

  /** Block `b` carries a signature by `km` over its metadata, and `km`'s fingerprint. */
  ghost predicate SignedBy(p: Provider, b: Block, km: KeyManager) {
    b.signature == Sign(p, km, b.metadata.ToJson()) && b.metadata.hashKey == PublicKeyHash(p, km)
  }

  /** OR-trust: some key of the trust set verifies the block. */
  ghost predicate Trusted(p: Provider, b: Block, keys: seq<KeyManager>) {
    exists k :: k in keys && b.VerifySignature(p, k).Pass?
  }

  /**
   * What `verify_with_keys` reports: success when every block is trusted;
   * otherwise the lowest-index untrusted block, with its metadata text.
   */
  ghost predicate IsSignatureVerdict(p: Provider, blocks: seq<Block>, keys: seq<KeyManager>, r: Outcome<BlockFailure>) {
    match r
    case Pass => forall i :: 0 <= i < |blocks| ==> Trusted(p, blocks[i], keys)
    case Fail(f) =>
      && f.index < |blocks|
      && !Trusted(p, blocks[f.index], keys)
      && (forall j :: 0 <= j < f.index ==> Trusted(p, blocks[j], keys))
      && f.metadataJson == blocks[f.index].metadata.ToJson()
      && f.message == UntrustedError(f.metadataJson)
  }

  /**
   * What `verify_with_hashes` reports: success when every block passes its
   * hash check; otherwise the lowest-index failing block and its message.
   */
  ghost predicate IsHashVerdict(p: Provider, blocks: seq<Block>, r: Outcome<BlockFailure>) {
    match r
    case Pass => forall i :: 0 <= i < |blocks| ==> blocks[i].VerifyHash(p).Pass?
    case Fail(f) =>
      && f.index < |blocks|
      && blocks[f.index].VerifyHash(p).Fail?
      && (forall j :: 0 <= j < f.index ==> blocks[j].VerifyHash(p).Pass?)
      && f.metadataJson == blocks[f.index].metadata.ToJson()
      && f.message == blocks[f.index].VerifyHash(p).error
  }

  /**
   * Linked, every block passing its hash check, and every block signed by
   * the key recorded for it.
   */
  ghost predicate ChainInvariant(p: Provider, blocks: seq<Block>, signers: seq<KeyManager>) {
    && Linked(blocks)
    && (forall i :: 0 <= i < |blocks| ==> blocks[i].VerifyHash(p) == Pass)
    && |signers| == |blocks|
    && (forall i :: 0 <= i < |blocks| ==> SignedBy(p, blocks[i], signers[i]))
  }

  class Chain {
    /** The digest and signature primitives every block of this chain is built and checked with. */
    const crypto: Provider
    var blocks: seq<Block>
    /** The key that added each block. */
    ghost var signers: seq<KeyManager>

    /**
     * The invariant of every chain built by the constructor and `AddBlock`:
     * linked, every block passing its hash check, and every block signed
     * by the key that added it.
     */
    ghost predicate Valid()
      reads this
    {
      ChainInvariant(crypto, blocks, signers)
    }

    /** `Chain::new`: no blocks. */
    constructor (crypto: Provider)
      ensures Valid()
      ensures this.crypto == crypto
      ensures blocks == [] && signers == []
    {
      this.crypto := crypto;
      blocks := [];
      signers := [];
    }

    /**
     * `add_block`, with the clock reading passed in as `date`. The new block
     * gets id = current length and links to the last block's hash. Fails,
     * changing nothing, when the length does not fit an `i32`.
     */
    method AddBlock(data: string, km: KeyManager, date: u64) returns (added: bool)
      requires Valid()
      modifies this
      ensures Valid()
      ensures added <==> old(|blocks|) < MaxBlocks
      ensures added ==> blocks == old(blocks) + [Blocks.New(crypto, old(|blocks|) as i32, date, LastHash(old(blocks)), km, data)]
      ensures added ==> signers == old(signers) + [km]
      ensures !added ==> blocks == old(blocks) && signers == old(signers)
    {
      var chainBlock := |blocks|;
      var previousHash := "";
      if chainBlock != 0 {
        previousHash := blocks[chainBlock - 1].metadata.hash;
      }
      if chainBlock >= MaxBlocks {
        return false;
      }
      var block := Blocks.New(crypto, chainBlock as i32, date, previousHash, km, data);
      AppendKeepsInvariant(crypto, blocks, signers, block, km);
      blocks := blocks + [block];
      signers := signers + [km];
      return true;
    }

    /**
     * `verify_with_keys`: each block is tried against the keys in order
     * until one verifies it; the pass stops at the first block none does.
     */
    method VerifyWithKeys(keys: seq<KeyManager>) returns (r: Outcome<BlockFailure>)
      ensures IsSignatureVerdict(crypto, blocks, keys, r)
    {
      var i := 0;
      while i < |blocks|
        invariant 0 <= i <= |blocks|
        invariant forall j :: 0 <= j < i ==> Trusted(crypto, blocks[j], keys)
      {
        var block := blocks[i];
        var trusted := false;
        var k := 0;
        while k < |keys|
          invariant 0 <= k <= |keys|
          invariant !trusted
          invariant forall j :: 0 <= j < k ==> block.VerifySignature(crypto, keys[j]).Fail?
        {
          if block.VerifySignature(crypto, keys[k]).Pass? {
            KeyTrusts(crypto, block, keys, k);
            trusted := true;
            break;
          }
          k := k + 1;
        }
        if !trusted {
          NoKeyTrusts(crypto, block, keys);
          var metadataJson := block.metadata.ToJson();
          return Fail(BlockFailure(i, metadataJson, UntrustedError(metadataJson)));
        }
        i := i + 1;
      }
      return Pass;
    }

    /**
     * `verify_with_hashes`: every block's hash check in order, stopping at
     * the first failure. A chain built by `AddBlock` always passes.
     */
    method VerifyWithHashes() returns (r: Outcome<BlockFailure>)
      ensures IsHashVerdict(crypto, blocks, r)
      ensures Valid() ==> r == Pass
    {
      var i := 0;
      while i < |blocks|
        invariant 0 <= i <= |blocks|
        invariant forall j :: 0 <= j < i ==> blocks[j].VerifyHash(crypto).Pass?
      {
        var outcome := blocks[i].VerifyHash(crypto);
        if outcome.Fail? {
          return Fail(BlockFailure(i, blocks[i].metadata.ToJson(), outcome.error));
        }
        i := i + 1;
      }
      return Pass;
    }
  }

  /** A block that some key of the list accepts is trusted by the list. */
  lemma KeyTrusts(p: Provider, b: Block, keys: seq<KeyManager>, k: nat)
    requires k < |keys| && b.VerifySignature(p, keys[k]).Pass?
    ensures Trusted(p, b, keys)
  {
    assert keys[k] in keys;
  }

  /** A block that every key of the list rejects is not trusted by the list. */
  lemma NoKeyTrusts(p: Provider, b: Block, keys: seq<KeyManager>)
    requires forall j :: 0 <= j < |keys| ==> b.VerifySignature(p, keys[j]).Fail?
    ensures !Trusted(p, b, keys)
  {
    forall key | key in keys
      ensures b.VerifySignature(p, key).Fail?
    {
      var j :| 0 <= j < |keys| && keys[j] == key;
    }
  }

  /** Appending a block built by `Block::new` at the end keeps the chain invariant. */
  lemma AppendKeepsInvariant(p: Provider, blocks: seq<Block>, signers: seq<KeyManager>, b: Block, km: KeyManager)
    requires ChainInvariant(p, blocks, signers)
    requires b.metadata.id as int == |blocks|
    requires b.metadata.previousHash == LastHash(blocks)
    requires b.VerifyHash(p) == Pass && SignedBy(p, b, km)
    ensures ChainInvariant(p, blocks + [b], signers + [km])
  {
    AppendKeepsLinked(blocks, b);
    var bs, ks := blocks + [b], signers + [km];
    forall i | 0 <= i < |bs|
      ensures bs[i].VerifyHash(p) == Pass && SignedBy(p, bs[i], ks[i])
    {
      if i < |blocks| {
        assert bs[i] == blocks[i] && ks[i] == signers[i];
      }
    }
  }

  /** Appending the block `add_block` builds keeps a chain linked. */
  lemma AppendKeepsLinked(blocks: seq<Block>, b: Block)
    requires Linked(blocks)
    requires b.metadata.id as int == |blocks|
    requires b.metadata.previousHash == LastHash(blocks)
    ensures Linked(blocks + [b])
  {
    var bs := blocks + [b];
    forall i | 0 < i < |bs|
      ensures bs[i].metadata.previousHash == bs[i - 1].metadata.hash
    {
      if i < |blocks| {
        assert bs[i] == blocks[i] && bs[i - 1] == blocks[i - 1];
      }
    }
  }

  /** The verdict of each pass is determined: two results meeting its description are equal. */
  lemma SignatureVerdictUnique(p: Provider, blocks: seq<Block>, keys: seq<KeyManager>, r1: Outcome<BlockFailure>, r2: Outcome<BlockFailure>)
    requires IsSignatureVerdict(p, blocks, keys, r1) && IsSignatureVerdict(p, blocks, keys, r2)
    ensures r1 == r2
  {
  }

  lemma HashVerdictUnique(p: Provider, blocks: seq<Block>, r1: Outcome<BlockFailure>, r2: Outcome<BlockFailure>)
    requires IsHashVerdict(p, blocks, r1) && IsHashVerdict(p, blocks, r2)
    ensures r1 == r2
  {
  }

  /** Only the set of trusted keys matters: not their order, not repetitions. */
  lemma KeyOrderIrrelevant(p: Provider, blocks: seq<Block>, keys1: seq<KeyManager>, keys2: seq<KeyManager>, r: Outcome<BlockFailure>)
    requires forall k :: k in keys1 <==> k in keys2
    requires IsSignatureVerdict(p, blocks, keys1, r)
    ensures IsSignatureVerdict(p, blocks, keys2, r)
  {
    forall b: Block
      ensures Trusted(p, b, keys1) == Trusted(p, b, keys2)
    {
      if Trusted(p, b, keys1) {
        var k :| k in keys1 && b.VerifySignature(p, k).Pass?;
        assert k in keys2;
      }
      if Trusted(p, b, keys2) {
        var k :| k in keys2 && b.VerifySignature(p, k).Pass?;
        assert k in keys1;
      }
    }
  }

  /** The empty chain passes with any keys; a non-empty one fails at block 0 with no keys. */
  lemma SignatureVerdictEdgeCases(p: Provider, blocks: seq<Block>, keys: seq<KeyManager>, r: Outcome<BlockFailure>)
    requires IsSignatureVerdict(p, blocks, keys, r)
    ensures blocks == [] ==> r == Pass
    ensures blocks != [] && keys == [] ==>
              r == Fail(BlockFailure(0, blocks[0].metadata.ToJson(), UntrustedError(blocks[0].metadata.ToJson())))
  {
    if blocks != [] && keys == [] {
      assert !Trusted(p, blocks[0], keys);
    }
  }

  /**
   * A chain each of whose blocks was signed by a key of the trust set,
   * with that key's own public half, passes `verify_with_keys`.
   */
  lemma SignedChainPasses(p: Provider, blocks: seq<Block>, signers: seq<KeyManager>, keys: seq<KeyManager>, r: Outcome<BlockFailure>)
    requires SignaturesVerify(p)
    requires |signers| == |blocks|
    requires forall i :: 0 <= i < |blocks| ==> SignedBy(p, blocks[i], signers[i])
    requires forall i :: 0 <= i < |signers| ==> signers[i] in keys && Paired(p, signers[i])
    requires IsSignatureVerdict(p, blocks, keys, r)
    ensures r == Pass
  {
    forall i | 0 <= i < |blocks|
      ensures Trusted(p, blocks[i], keys)
    {
      SignThenVerify(p, signers[i], blocks[i].metadata.ToJson());
      assert blocks[i].VerifySignature(p, signers[i]).Pass?;
    }
    SignatureVerdictUnique(p, blocks, keys, r, Pass);
  }

  /**
   * Two blocks signed by one key pass both passes; then the payload of the
   * second is edited: its hash check fails while its signature check still
   * passes.
   */
  method TwoBlockScenario(p: Provider, a: KeyManager, date1: u64, date2: u64, data1: string, data2: string, edited: string)
    returns (byKeys: Outcome<BlockFailure>, byHashes: Outcome<BlockFailure>,
             editedHash: Outcome<string>, editedSignature: Outcome<string>)
    requires SignaturesVerify(p) && DigestInjective(p) && Paired(p, a)
    requires edited != data2
    ensures byKeys == Pass && byHashes == Pass
    ensures editedHash.Fail? && editedSignature == Pass
  {
    var chain := new Chain(p);
    var added1 := chain.AddBlock(data1, a, date1);
    var added2 := chain.AddBlock(data2, a, date2);
    assert |chain.blocks| == 2 && chain.signers == [a, a];
    assert chain.blocks[1].data == data2;
    byKeys := chain.VerifyWithKeys([a]);
    SignedChainPasses(p, chain.blocks, chain.signers, [a], byKeys);
    byHashes := chain.VerifyWithHashes();
    EditedBlockDetected(p, chain.blocks[1], a, edited);
    var tampered := chain.blocks[1].(data := edited);
    editedHash := tampered.VerifyHash(p);
    editedSignature := tampered.VerifySignature(p, a);
  }
}
