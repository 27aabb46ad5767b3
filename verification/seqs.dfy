/**
 Facts about sequence concatenation, stated once so that proofs about traces
 can use them as equations instead of rediscovering them element by element.
 */
module Seqs {
  lemma AppendAssoc<X>(a: seq<X>, b: seq<X>, c: seq<X>)
    ensures a + (b + c) == (a + b) + c
  {
  }

  lemma AppendEmpty<X>(a: seq<X>)
    ensures [] + a == a && a + [] == a
  {
  }

  lemma NotInAppend<X>(x: X, a: seq<X>, b: seq<X>)
    requires x !in a && x !in b
    ensures x !in a + b
  {
  }
}
