/** Short proofs of membership: the hashes beside the way from a leaf to the root are enough to compute the root. */
module MerkleLaws {
  import opened Bytes
  import opened Merkle

  /** From the hash x at place i of its level up, with one hash beside it for each level. */
  function Climb(pair: PairHash, x: bytes, i: nat, beside: seq<bytes>): bytes
    decreases |beside|
  {
    if beside == [] then x
    else Climb(pair, if i % 2 == 0 then pair(x, beside[0]) else pair(beside[0], x), i / 2, beside[1..])
  }

  /** Every leaf has such a proof, with one hash for each level. */
  lemma {:induction false} LeafProof(pair: PairHash, hs: seq<bytes>, i: nat) returns (beside: seq<bytes>)
    requires i < |hs|
    ensures |beside| == Height(|hs|) && Climb(pair, hs[i], i, beside) == RootOf(pair, hs)
    decreases |hs|
  {
    beside := [];
    if |hs| > 1 {
      var up := PairUp(pair, hs);
      var sibling := if i % 2 == 1 then hs[i - 1] else if i + 1 < |hs| then hs[i + 1] else hs[i];
      assert up[i / 2] == if i % 2 == 0 then pair(hs[i], sibling) else pair(sibling, hs[i]);
      var rest := LeafProof(pair, up, i / 2);
      beside := [sibling] + rest;
      assert beside[1..] == rest;
    }
  }

  /** With an injective pair hash a proof that leads to the root has the leaf that is there. */
  lemma {:induction false} ProofIsSound(pair: PairHash, hs: seq<bytes>, i: nat, x: bytes, beside: seq<bytes>)
    requires Injective(pair) && i < |hs| && |beside| == Height(|hs|)
    requires Climb(pair, x, i, beside) == RootOf(pair, hs)
    ensures x == hs[i]
    decreases |hs|
  {
    if |hs| > 1 {
      var up := PairUp(pair, hs);
      var y := if i % 2 == 0 then pair(x, beside[0]) else pair(beside[0], x);
      ProofIsSound(pair, up, i / 2, y, beside[1..]);
      var sibling := if i % 2 == 1 then hs[i - 1] else if i + 1 < |hs| then hs[i + 1] else hs[i];
      assert up[i / 2] == if i % 2 == 0 then pair(hs[i], sibling) else pair(sibling, hs[i]);
      if i % 2 == 0 {
        SamePair(pair, hs[i], sibling, x, beside[0]);
      } else {
        SamePair(pair, sibling, hs[i], beside[0], x);
      }
    }
  }
}
