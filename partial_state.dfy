/**
 * `PartialState`: the state witness attached to a `ChunkState` challenge, the
 * trie nodes and state values that replaying one chunk dereferences.
 */
module PartialStates {
  import opened Primitives
  import Fmt

  /** A serialized trie node (with its subtree size) or a state value. */
  type TrieValue = Bytes

  /** The text that follows the count in the debug rendering. */
  const TrieValuesSuffix: string := " trie values"

  /** The single variant `TrieValues` holds the witness blobs in order. */
  datatype PartialState = TrieValues(values: seq<TrieValue>) {

    /** `PartialState::default()`: the empty witness. */
    static function Default(): (p: PartialState)
      ensures p.Len() == 0
      ensures p.values == []
    {
      TrieValues([])
    }

    /** `len`: how many trie values the witness holds. */
    function Len(): (n: nat)
      ensures n == |values|
    {
      |values|
    }

    /**
     * The `Debug` rendering: the count in decimal followed by " trie values".
     * The part before the suffix is a canonical numeral that denotes `Len()`,
     * so none of the blobs' bytes reach the output.
     */
    function DebugString(): (s: string)
      ensures |s| > |TrieValuesSuffix|
      ensures s[|s| - |TrieValuesSuffix|..] == TrieValuesSuffix
      ensures Fmt.IsCanonicalDecimal(s[..|s| - |TrieValuesSuffix|])
      ensures Fmt.ParseDecimal(s[..|s| - |TrieValuesSuffix|]) == Len()
    {
      var count := Fmt.ShowNat(Len());
      Fmt.ParseShowNat(Len());
      assert (count + TrieValuesSuffix)[..|count|] == count;
      count + TrieValuesSuffix
    }
  }

  /** Two witnesses render alike exactly when they hold the same number of values. */
  lemma DebugStringDeterminedByLen(p: PartialState, q: PartialState)
    ensures p.DebugString() == q.DebugString() <==> p.Len() == q.Len()
  {
  }

  /** The empty witness renders as "0 trie values". */
  lemma DefaultDebugString()
    ensures PartialState.Default().DebugString() == "0 trie values"
  {
  }
}
