# Challenge evidence model

A Dafny model of the challenge (fraud proof) evidence containers of a sharded
blockchain's primitives crate, `core/primitives/src/challenge.rs`:

- `PartialState`, the state witness a `ChunkState` challenge carries. It holds
  a sequence of opaque trie blobs and has an empty default, a `len`, and a
  debug rendering that shows only the count.
- The closed sum types `ChallengeBody` and `MaybeEncodedShardChunk`, and their
  records `BlockDoubleSign`, `ChunkProofs` and `ChunkState`.
- The `Challenge` envelope: `produce` hashes and signs a body. `init`
  recomputes the cached `hash` in place. The wire form leaves `hash` out, and
  decoding re-derives it.
- `SlashedValidator` and its constructor `new`.

Files:

- `primitives.dfy` (module `Primitives`): the foreign types, carried opaquely.
  These are `CryptoHash`, `AccountId`, `Signature`, `MerklePath`, the chunk
  types and `ValidatorSigner`.
- `fmt.dfy` (module `Fmt`): the decimal rendering of an unsigned count, which
  is what `{}` does in the debug output. The module also has its inverse and
  proves the rendering is a bijection onto canonical numerals.
- `partial_state.dfy` (module `PartialStates`): `PartialState`.
- `challenge.dfy` (module `Challenge`): the bodies, the envelope class, its
  wire form and `SlashedValidator`.

The envelope is a class because `init` takes `&mut self` and updates one field
in place. For the same reason `produce`, which returns a new `Challenge`, is a
named constructor. The content hash `CryptoHash::hash_borsh` of a body is a
function parameter `hashBorsh: ChallengeBody -> CryptoHash`. The signer is a
value holding a validator id and a byte-signing function. The central
invariant is `HashConsistent(hashBorsh)`, meaning `hash == hashBorsh(body)`.
`Produce`, `Init` and `Decode` each establish it.

## Model

| member | source | states |
|---|---|---|
| `Fmt.ShowNat` | core/primitives/src/challenge.rs:34 | the `{}` rendering of a count is a canonical decimal numeral: non-empty, digits only, starting with '0' exactly when the count is 0, and one digit exactly below 10 |
| `Fmt.ParseShowNat` | core/primitives/src/challenge.rs:34 | reading the rendered numeral back in base ten gives the count |
| `Fmt.ShowParseDecimal` | core/primitives/src/challenge.rs:34 | every canonical numeral is the rendering of the number it denotes, so the rendering is onto the canonical numerals |
| `Fmt.ShowNatInjective` | core/primitives/src/challenge.rs:34 | two counts render alike if and only if they are equal |
| `PartialStates.PartialState.Default` | core/primitives/src/challenge.rs:22-26 | the default witness is `TrieValues` of the empty sequence, and its `len` is 0 |
| `PartialStates.PartialState.Len` | core/primitives/src/challenge.rs:41-44 | `len` is the number of trie values held; it is a pure function on an immutable value, so the state is not modified |
| `PartialStates.PartialState.DebugString` | core/primitives/src/challenge.rs:30-37 | the debug text ends in " trie values"; what comes before is a canonical numeral denoting `len`, so no blob bytes appear |
| `PartialStates.DebugStringDeterminedByLen` | core/primitives/src/challenge.rs:30-44 | two witnesses have the same debug text if and only if they have the same `len`, whatever their blob contents |
| `PartialStates.DefaultDebugString` | core/primitives/src/challenge.rs:22-37 | the default witness renders as "0 trie values" |
| `Challenge.Challenge.constructor` | core/primitives/src/challenge.rs:112-119 | a struct literal sets all four public fields as given, including a `hash` that may not match `body` |
| `Challenge.Challenge.Produce` | core/primitives/src/challenge.rs:126-130 | `produce` keeps the body unchanged, sets `hash` to the hash of the body, and signs that hash's 32 bytes with the signer; `account_id` is the signer's validator id and the invariant holds |
| `Challenge.Challenge.Init` | core/primitives/src/challenge.rs:122-124 | `init` changes only `hash` and sets it to the hash of the body, leaving body, account and signature unchanged; on a challenge that already satisfies the invariant (a second `init`, or `init` after `produce`) the hash keeps its value, so nothing changes |
| `Challenge.Challenge.Encode` | core/primitives/src/challenge.rs:110-119 | the wire form carries body, account id and signature, and skips `hash` |
| `Challenge.Challenge.Equals` | core/primitives/src/challenge.rs:110-119 | derived equality holds if and only if the wire forms are equal and the hashes are equal |
| `Challenge.Challenge.Decode` | core/primitives/src/challenge.rs:111-124 | decoding builds a fresh challenge whose encoding is the decoded wire form, with `hash` re-derived by `init` from the body instead of read from the wire |
| `Challenge.EncodeIgnoresHash` | core/primitives/src/challenge.rs:112-118 | two challenges encode identically if and only if they agree on body, account and signature, so differing only in `hash` never shows on the wire |
| `Challenge.ConsistentEqualsIffSameWire` | core/primitives/src/challenge.rs:110-124 | for two challenges that satisfy the invariant, derived equality holds if and only if their wire forms are equal |
| `Challenge.HashBindsBody` | core/primitives/src/challenge.rs:122-127 | two challenges that satisfy the invariant, and whose two bodies do not collide under the content hash, have equal hashes if and only if they have equal bodies |
| `Challenge.DecodeEncode` | core/primitives/src/challenge.rs:111-124 | decoding the encoding of any challenge gives its body, account and signature with `hash` equal to the hash of the body, whatever `hash` was before; a challenge that satisfied the invariant comes back equal to itself |
| `Challenge.SlashedValidator.New` | core/primitives/src/challenge.rs:151-154 | `new(a, d)` has `account_id == a` and `is_double_sign == d` |
| `Primitives.CryptoHash.AsRef` | core/primitives/src/challenge.rs:128 | `hash.as_ref()`, the bytes that get signed, is exactly 32 bytes long: the digest itself |
| `Primitives.DefaultHash` | core/primitives/src/challenge.rs:117-118 | the default value Borsh puts into the skipped `hash` before `init` runs has all 32 bytes zero |

## Left out

- Borsh's byte layout is generated by a macro and is not part of this model. The wire form is a projection that drops `hash` (`ChallengeWire`). Because no bytes are involved, decoding cannot fail here, and malformed input is not modelled. The same applies to the encodings of `ChallengeBody`, `PartialState` and `SlashedValidator`.
- `CryptoHash::hash_borsh` is a cryptographic call into another crate. It is a function parameter, and the properties use only that it is a function of the body. A function from bodies to 32-byte digests cannot be collision-free on all bodies. So `HashBindsBody` assumes only that its own two bodies do not collide, as a `requires`.
- The signature scheme (`sign_bytes`, `Signature`) is represented by the signer's byte-signing function. Signature verification is not in this file.
- `CryptoHash`, `AccountId`, `Signature`, `MerklePath`, `EncodedShardChunk`, `ShardChunk` and `ShardChunkHeader` are defined in other files. They are opaque: their bytes, or a hash/direction list for the Merkle path. Account-id validation is not modelled.
- `TrieValue` is `Arc<[u8]>`. The reference counting is a memory-management detail, so a trie value is its bytes.
- `PartialState.Len`: a `usize` count is modelled as an unbounded `nat`. A vector cannot exceed the platform's address space, so no wrap-around is possible.
- `PartialStates.PartialState.DebugString` gives the text `Debug::fmt` writes. The `Formatter` sink, and the error it reports if writing fails, are not modelled.
- The `Display` impl of `BlockDoubleSign` only forwards to the derived `Debug`, and is not modelled.
- The envelope `Challenge` is a class, so it has reference semantics. In the model two names can alias one envelope, and a `Challenges` sequence holds references. In the source, `Vec<Challenge>` owns separate values. The model's `==` on envelopes compares references, and `Challenge.Challenge.Equals` stands for the derived `PartialEq`.
- The `serde` and `ProtocolSchema` derives and `Clone` are not modelled.
- Challenge verification, Merkle checks, chunk replay and the choice of accounts to slash are done by other code. So is any structural check on a body, such as non-empty headers: the file builds bodies without validating them, and the model does the same. `Challenges` and `ChallengesResult` are type aliases only.
