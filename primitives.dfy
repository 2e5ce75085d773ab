/**
 * Types of the primitives crate (and of near_crypto) that the challenge
 * evidence refers to but does not define.  Each one is carried as an opaque
 * value: the structured types are represented by their canonical bytes, so
 * that equality is the byte-exact equality the Rust derives give them.
 */
module Primitives {

  type Byte = bv8
  type Bytes = seq<Byte>

  /** The 32 bytes of a content hash. */
  type Digest = s: Bytes | |s| == 32 witness seq(32, _ => 0 as bv8)

  /** `CryptoHash`, a fixed-size digest; `AsRef` is its byte view. */
  datatype CryptoHash = CryptoHash(digest: Digest) {
    function AsRef(): (b: Bytes)
      ensures |b| == 32
    {
      digest
    }
  }

  /** `CryptoHash::default()`: all 32 bytes zero. */
  function DefaultHash(): (h: CryptoHash)
    ensures forall i :: 0 <= i < |h.digest| ==> h.digest[i] == 0
  {
    CryptoHash(seq(32, _ => 0 as bv8))
  }

  /** An account name; its validation rules are not part of this model. */
  type AccountId = string

  /** A signature of the external signature scheme, as its encoded bytes. */
  datatype Signature = Signature(bytes: Bytes)

  /** One level of a Merkle inclusion proof: the sibling hash and its side. */
  datatype Direction = Left | Right
  datatype MerklePathItem = MerklePathItem(hash: CryptoHash, direction: Direction)
  type MerklePath = seq<MerklePathItem>

  /** Chunk types of the sharding module, as opaque encodings. */
  datatype EncodedShardChunk = EncodedShardChunk(bytes: Bytes)
  datatype ShardChunk = ShardChunk(bytes: Bytes)
  datatype ShardChunkHeader = ShardChunkHeader(bytes: Bytes)

  /**
   * `ValidatorSigner` as the capability the challenge code uses: an identity
   * (`validator_id`) and a function that signs bytes (`sign_bytes`).
   */
  datatype ValidatorSigner = ValidatorSigner(validatorId: AccountId, signBytes: Bytes -> Signature)
}
