/** Small facts about sequences that the proofs of the loops use. */
module Seqs {

  lemma AppendAssociative<T>(a: seq<T>, b: seq<T>, c: seq<T>)
    ensures a + b + c == a + (b + c)
  {
  }

  lemma SliceSnoc<T>(s: seq<T>, i: nat)
    requires i < |s|
    ensures s[..i + 1] == s[..i] + [s[i]]
  {
  }

  lemma SliceAll<T>(s: seq<T>)
    ensures s[..|s|] == s
  {
  }
}
