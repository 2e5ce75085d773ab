/**
 * The challenge (fraud proof) evidence: the three kinds of disputed fact, the
 * signed envelope around them, and the record of an account to slash.
 *
 * The content hash of a body (`CryptoHash::hash_borsh`) is passed in as a
 * function `hashBorsh`; the code here relies only on it being a function of
 * the body.
 */
module Challenge {
  import opened Primitives
  import opened PartialStates

  /** Two encoded block headers signed by one author for conflicting positions. */
  datatype BlockDoubleSign = BlockDoubleSign(leftBlockHeader: Bytes, rightBlockHeader: Bytes)

  /** The disputed chunk, in the form it can be attached in. */
  datatype MaybeEncodedShardChunk =
    | Encoded(encoded: EncodedShardChunk)
    | Decoded(decoded: ShardChunk)

  /** An invalid chunk together with the proof that its block includes it. */
  datatype ChunkProofs = ChunkProofs(
    blockHeader: Bytes,
    merkleProof: MerklePath,
    chunk: MaybeEncodedShardChunk)

  /** A chunk whose claimed post-state does not follow from applying the previous chunk. */
  datatype ChunkState = ChunkState(
    prevBlockHeader: Bytes,
    blockHeader: Bytes,
    prevMerkleProof: MerklePath,
    prevChunk: ShardChunk,
    merkleProof: MerklePath,
    chunkHeader: ShardChunkHeader,
    partialState: PartialState)

  /** The closed set of faults a challenge can claim. */
  datatype ChallengeBody =
    | BlockDoubleSign(blockDoubleSign: BlockDoubleSign)
    | ChunkProofs(chunkProofs: ChunkProofs)
    | ChunkState(chunkState: ChunkState)

  /** Content hash of a body, standing for `CryptoHash::hash_borsh`. */
  type BodyHasher = ChallengeBody -> CryptoHash

  /**
   * What the Borsh encoding of a `Challenge` carries: body, account and
   * signature, in that order.  The `hash` field is skipped.
   */
  datatype ChallengeWire = ChallengeWire(body: ChallengeBody, accountId: AccountId, signature: Signature)

  /** The signed envelope.  All four fields are public and can be reassigned. */
  class Challenge {
    var body: ChallengeBody
    var accountId: AccountId
    var signature: Signature
    var hash: CryptoHash

    /** A struct literal: the four fields as given, whether or not `hash` matches `body`. */
    constructor (body: ChallengeBody, accountId: AccountId, signature: Signature, hash: CryptoHash)
      ensures this.body == body && this.accountId == accountId
      ensures this.signature == signature && this.hash == hash
    {
      this.body := body;
      this.accountId := accountId;
      this.signature := signature;
      this.hash := hash;
    }

    /** The envelope's invariant: `hash` is the content hash of `body` alone. */
    predicate HashConsistent(hashBorsh: BodyHasher)
      reads this
    {
      hash == hashBorsh(body)
    }

    /**
     * `produce`: hash the body, sign the hash's bytes with the signer, and
     * attribute the challenge to the signer's validator id.
     */
    constructor Produce(body: ChallengeBody, signer: ValidatorSigner, hashBorsh: BodyHasher)
      ensures this.body == body
      ensures hash == hashBorsh(body)
      ensures signature == signer.signBytes(hashBorsh(body).AsRef())
      ensures accountId == signer.validatorId
      ensures HashConsistent(hashBorsh)
    {
      var h := hashBorsh(body);
      this.body := body;
      this.accountId := signer.validatorId;
      this.signature := signer.signBytes(h.AsRef());
      this.hash := h;
    }

    /**
     * `init`: recompute `hash` from `body` in place.  Only `hash` changes;
     * on a challenge that already satisfies the invariant nothing changes,
     * so a second `Init` (or an `Init` after `Produce`) is a no-op.
     */
    method Init(hashBorsh: BodyHasher)
      modifies this`hash
      ensures hash == hashBorsh(body)
      ensures HashConsistent(hashBorsh)
      ensures body == old(body) && accountId == old(accountId) && signature == old(signature)
      ensures old(HashConsistent(hashBorsh)) ==> hash == old(hash)
    {
      hash := hashBorsh(body);
    }

    /** The wire form: every field except `hash`. */
    function Encode(): (w: ChallengeWire)
      reads this
      ensures w.body == body && w.accountId == accountId && w.signature == signature
    {
      ChallengeWire(body, accountId, signature)
    }

    /** The derived `PartialEq`: field by field, `hash` included. */
    function Equals(other: Challenge): (eq: bool)
      reads this, other
      ensures eq <==> Encode() == other.Encode() && hash == other.hash
    {
      body == other.body && accountId == other.accountId
      && signature == other.signature && hash == other.hash
    }

    /**
     * Borsh decoding: build the struct from the wire fields with the skipped
     * `hash` at its default value, then run `init` on it.
     */
    static method Decode(w: ChallengeWire, hashBorsh: BodyHasher) returns (c: Challenge)
      ensures fresh(c)
      ensures c.Encode() == w
      ensures c.HashConsistent(hashBorsh)
    {
      c := new Challenge(w.body, w.accountId, w.signature, DefaultHash());
      c.Init(hashBorsh);
    }
  }

  /** Two challenges encode alike exactly when they differ at most in `hash`. */
  lemma EncodeIgnoresHash(a: Challenge, b: Challenge)
    ensures a.Encode() == b.Encode()
            <==> a.body == b.body && a.accountId == b.accountId && a.signature == b.signature
  {
  }

  /**
   * Among challenges that satisfy the invariant, derived equality is equality
   * of wire forms: the skipped `hash` adds nothing once it is re-derived.
   */
  lemma ConsistentEqualsIffSameWire(a: Challenge, b: Challenge, hashBorsh: BodyHasher)
    requires a.HashConsistent(hashBorsh) && b.HashConsistent(hashBorsh)
    ensures a.Equals(b) <==> a.Encode() == b.Encode()
  {
  }

  /**
   * Two challenges that satisfy the invariant carry the same hash exactly
   * when they carry the same body, provided their two bodies do not collide
   * under the content hash.  Without that proviso, equal bodies still give
   * equal hashes, and different hashes still mean different bodies.
   */
  lemma HashBindsBody(a: Challenge, b: Challenge, hashBorsh: BodyHasher)
    requires hashBorsh(a.body) == hashBorsh(b.body) ==> a.body == b.body
    requires a.HashConsistent(hashBorsh) && b.HashConsistent(hashBorsh)
    ensures a.hash == b.hash <==> a.body == b.body
  {
  }

  /**
   * Decoding the encoding of any challenge gives back its body, account and
   * signature with `hash` re-derived from the body, whatever `hash` held
   * before; a challenge that satisfied the invariant comes back equal.
   */
  method DecodeEncode(c: Challenge, hashBorsh: BodyHasher) returns (d: Challenge)
    ensures fresh(d)
    ensures d.body == c.body && d.accountId == c.accountId && d.signature == c.signature
    ensures d.hash == hashBorsh(c.body)
    ensures c.HashConsistent(hashBorsh) ==> d.Equals(c)
  {
    d := Challenge.Decode(c.Encode(), hashBorsh);
  }

  /** `Challenges`: a list of envelopes. */
  type Challenges = seq<Challenge>

  /** An account to penalise, and whether the penalty is for double signing. */
  datatype SlashedValidator = SlashedValidator(accountId: AccountId, isDoubleSign: bool) {

    /** `SlashedValidator::new`. */
    static function New(accountId: AccountId, isDoubleSign: bool): (v: SlashedValidator)
      ensures v.accountId == accountId && v.isDoubleSign == isDoubleSign
    {
      SlashedValidator(accountId, isDoubleSign)
    }
  }

  /** `ChallengesResult`: the accounts to slash, in evaluation order. */
  type ChallengesResult = seq<SlashedValidator>
}
