/**
 A way to state a fact folded: `forall k {:trigger Unfold(k)} :: Unfold(k) ==> Fact` can be passed along as it is, and
 gives Fact to the proofs that mention Unfold(KEY).  Open does the same for facts inside such facts.
 */
module Folding {

  datatype Key = KEY

  predicate Unfold(k: Key) { k == KEY }

  predicate Open(k: Key) { k == KEY }
}
