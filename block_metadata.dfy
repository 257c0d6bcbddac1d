/**
 * BlockMetadata: a block's position, date, link to its predecessor and
 * signer identity, plus the hash that binds those four fields to the
 * block's payload. The hash is computed once, when the metadata is built.
 */
module Metadata {
  import opened Wrappers
  import Json
  import opened Crypto

  /** Rust's `i32`, the type of a block id. */
  newtype i32 = x: int | -0x8000_0000 <= x < 0x8000_0000

  /** Rust's `u64`, the type of a block date (seconds since the Unix epoch). */
  newtype u64 = x: int | 0 <= x < 0x1_0000_0000_0000_0000

  /** The keys of the canonical metadata object, in the order they are written. */
  const FieldKeys: seq<string> := ["id", "date", "previous_hash", "hash_key"]

  /** The four fields as the JSON object both the hash and the signature are computed over. */
  function FieldsObject(id: i32, date: u64, previousHash: string, hashKey: string): (o: Json.Object)
    ensures Json.Keys(o) == FieldKeys
    ensures "hash" !in Json.Keys(o)
  {
    [("id", Json.Num(id as int)),
     ("date", Json.Num(date as int)),
     ("previous_hash", Json.Str(previousHash)),
     ("hash_key", Json.Str(hashKey))]
  }

  /** The canonical text of the four fields. */
  function FieldsJson(id: i32, date: u64, previousHash: string, hashKey: string): string
  {
    Json.Serialize(FieldsObject(id, date, previousHash, hashKey))
  }

  /**
   * The text that is hashed: the canonical JSON of the four fields with the
   * payload appended verbatim, neither escaped nor wrapped. Reading one
   * object off its front gives the four fields back and leaves exactly the
   * payload.
   */
  function HashInput(id: i32, date: u64, previousHash: string, hashKey: string, data: string): (r: string)
    ensures Json.PrefixReadsBackAs(r, FieldsObject(id, date, previousHash, hashKey), data)
  {
    Json.PrefixRoundTrip(FieldsObject(id, date, previousHash, hashKey), data);
    FieldsJson(id, date, previousHash, hashKey) + data
  }

  /**
   * The associated function `generate_hash`: SHA-256 of the hash input.
   * With a collision-free digest, no other payload gives the same hash for
   * the same four fields.
   */
  function GenerateHash(p: Provider, id: i32, date: u64, previousHash: string, hashKey: string, data: string): (r: string)
    ensures DigestInjective(p) ==>
              forall other :: other != data ==> p.digest(HashInput(id, date, previousHash, hashKey, other)) != r
  {
    OtherPayloadOtherInput(id, date, previousHash, hashKey, data);
    p.digest(HashInput(id, date, previousHash, hashKey, data))
  }

  datatype BlockMetadata = BlockMetadata(
    id: i32,
    date: u64,
    previousHash: string,
    hashKey: string,
    hash: string)
  {
    /**
     * The canonical serialisation used for signing: a JSON object with
     * exactly the keys id, date, previous_hash and hash_key, never the
     * stored hash.
     */
    function ToJson(): (r: string)
      ensures Json.ReadsBackAs(r, FieldsObject(id, date, previousHash, hashKey))
    {
      Json.RoundTrip(FieldsObject(id, date, previousHash, hashKey));
      FieldsJson(id, date, previousHash, hashKey)
    }

    /**
     * The method-call form of `generate_hash`: the hash these four stored
     * fields give for the payload `data`. What it hashes is the very text
     * `to_json` produces, followed by the payload.
     */
    function GenerateHashFor(p: Provider, data: string): (r: string)
      ensures r == p.digest(ToJson() + data)
    {
      GenerateHash(p, id, date, previousHash, hashKey, data)
    }
  }

  /** `BlockMetadata::new`: the four fields as given, and the hash computed from them and `data`. */
  function New(p: Provider, id: i32, date: u64, previousHash: string, hashKey: string, data: string): (m: BlockMetadata)
    ensures m.id == id && m.date == date && m.previousHash == previousHash && m.hashKey == hashKey
    ensures m.hash == m.GenerateHashFor(p, data)
  {
    BlockMetadata(id, date, previousHash, hashKey, GenerateHash(p, id, date, previousHash, hashKey, data))
  }

  /** The serialisation depends on the four fields only: the stored hash never shows in it. */
  lemma ToJsonIgnoresHash(m: BlockMetadata, hash: string)
    ensures m.(hash := hash).ToJson() == m.ToJson()
  {
  }

  /** Equal serialisations mean equal fields: the signed text determines all four. */
  lemma ToJsonInjective(m1: BlockMetadata, m2: BlockMetadata)
    requires m1.ToJson() == m2.ToJson()
    ensures m1.id == m2.id && m1.date == m2.date
    ensures m1.previousHash == m2.previousHash && m1.hashKey == m2.hashKey
  {
    var o1 := FieldsObject(m1.id, m1.date, m1.previousHash, m1.hashKey);
    var o2 := FieldsObject(m2.id, m2.date, m2.previousHash, m2.hashKey);
    assert Json.Parse(m1.ToJson()) == Some(o1) && Json.Parse(m2.ToJson()) == Some(o2);
    assert o1[0].1 == o2[0].1 && o1[1].1 == o2[1].1;
    assert o1[2].1 == o2[2].1 && o1[3].1 == o2[3].1;
  }

  /** Distinct field values or payloads are never hashed as the same text. */
  lemma HashInputInjective(
    id1: i32, date1: u64, previousHash1: string, hashKey1: string, data1: string,
    id2: i32, date2: u64, previousHash2: string, hashKey2: string, data2: string)
    requires HashInput(id1, date1, previousHash1, hashKey1, data1) == HashInput(id2, date2, previousHash2, hashKey2, data2)
    ensures id1 == id2 && date1 == date2 && previousHash1 == previousHash2 && hashKey1 == hashKey2
    ensures data1 == data2
  {
    var o1 := FieldsObject(id1, date1, previousHash1, hashKey1);
    var o2 := FieldsObject(id2, date2, previousHash2, hashKey2);
    assert Json.ParsePrefix(HashInput(id1, date1, previousHash1, hashKey1, data1)) == Some((o1, data1));
    assert Json.ParsePrefix(HashInput(id2, date2, previousHash2, hashKey2, data2)) == Some((o2, data2));
    assert o1[0].1 == o2[0].1 && o1[1].1 == o2[1].1;
    assert o1[2].1 == o2[2].1 && o1[3].1 == o2[3].1;
  }

  /** For fixed fields, distinct payloads give distinct hash inputs. */
  lemma OtherPayloadOtherInput(id: i32, date: u64, previousHash: string, hashKey: string, data: string)
    ensures forall other :: other != data ==>
              HashInput(id, date, previousHash, hashKey, other) != HashInput(id, date, previousHash, hashKey, data)
  {
    forall other | other != data
      ensures HashInput(id, date, previousHash, hashKey, other) != HashInput(id, date, previousHash, hashKey, data)
    {
      if HashInput(id, date, previousHash, hashKey, other) == HashInput(id, date, previousHash, hashKey, data) {
        HashInputInjective(id, date, previousHash, hashKey, other, id, date, previousHash, hashKey, data);
      }
    }
  }

  /**
   * Metadata built from the same four fields and different payloads differs
   * in the hash alone, and with a collision-free digest it does differ there.
   */
  lemma NewDiffersOnlyInHash(p: Provider, id: i32, date: u64, previousHash: string, hashKey: string, data1: string, data2: string)
    ensures New(p, id, date, previousHash, hashKey, data2)
         == New(p, id, date, previousHash, hashKey, data1).(hash := New(p, id, date, previousHash, hashKey, data2).hash)
    ensures DigestInjective(p) && data1 != data2 ==>
              New(p, id, date, previousHash, hashKey, data1).hash != New(p, id, date, previousHash, hashKey, data2).hash
  {
    if DigestInjective(p) && data1 != data2 {
      if GenerateHash(p, id, date, previousHash, hashKey, data1) == GenerateHash(p, id, date, previousHash, hashKey, data2) {
        HashInputInjective(id, date, previousHash, hashKey, data1, id, date, previousHash, hashKey, data2);
      }
    }
  }
}
