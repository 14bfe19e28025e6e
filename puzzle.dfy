/**
 * The proof-of-work puzzle of `Blockchain.valid_proof`: the texts of the
 * last proof and the candidate are concatenated, hashed (`sha256` is the
 * hex digest of the UTF-8 encoding of a text, a parameter of the model) and
 * the first four characters of the digest are compared with "0000".
 */
module Puzzle {
  import opened DecimalText

  /** The four leading zeros the digest must start with. */
  const Target: string := "0000"

  /** `f'{last_proof}{proof}'`: the two decimal texts with no separator. */
  function Guess(lastProof: int, proof: int): (text: string) {
    IntText(lastProof) + IntText(proof)
  }

  /** Python's slice `s[:k]`, which is the whole of `s` when `s` is shorter than `k`. */
  function SlicePrefix(s: string, k: nat): (r: string)
    ensures |r| == if |s| < k then |s| else k
    ensures r == s[..|r|]
  {
    if |s| <= k then s else s[..k]
  }

  /** `Blockchain.valid_proof(last_proof, proof)`. */
  predicate ValidProof(sha256: string -> string, lastProof: int, proof: int) {
    SlicePrefix(sha256(Guess(lastProof, proof)), |Target|) == Target
  }

  /** `proof` is the first non-negative integer that solves the puzzle for `lastProof`. */
  ghost predicate IsLeastWitness(sha256: string -> string, lastProof: int, proof: int) {
    && 0 <= proof
    && ValidProof(sha256, lastProof, proof)
    && forall q :: 0 <= q < proof ==> !ValidProof(sha256, lastProof, q)
  }

  /** A proof is valid exactly when the digest is at least four characters long and starts with four '0's. */
  lemma ValidProofMeaning(sha256: string -> string, lastProof: int, proof: int)
    ensures ValidProof(sha256, lastProof, proof) <==>
      var h := sha256(Guess(lastProof, proof));
      |h| >= 4 && h[0] == '0' && h[1] == '0' && h[2] == '0' && h[3] == '0'
  {
  }

  /** For a fixed last proof, distinct candidates are hashed from distinct texts. */
  lemma GuessInjectiveInProof(lastProof: int, p: int, q: int)
    ensures Guess(lastProof, p) == Guess(lastProof, q) <==> p == q
  {
    var a := IntText(lastProof);
    if Guess(lastProof, p) == Guess(lastProof, q) {
      assert IntText(p) == Guess(lastProof, p)[|a|..];
      assert IntText(q) == Guess(lastProof, q)[|a|..];
      IntTextInjective(p, q);
    }
  }

  /**
   * Without a separator, different pairs can share a text: the pair (1, 23)
   * and the pair (12, 3) are both hashed as "123", so one of them is valid
   * exactly when the other is.
   */
  lemma GuessAmbiguous(sha256: string -> string)
    ensures Guess(1, 23) == Guess(12, 3) == "123"
    ensures ValidProof(sha256, 1, 23) == ValidProof(sha256, 12, 3)
  {
  }
}
