/** Facts about sequences that several modules' proofs by induction on the last element use. */
module Seqs {
  /** A sequence with one element appended splits back into its parts. */
  lemma SnocParts<T>(s: seq<T>, x: T)
    ensures |s + [x]| == |s| + 1
    ensures (s + [x])[..|s|] == s && (s + [x])[|s|] == x
  {
  }
}
