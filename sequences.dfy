/**
 * Order-preserving selection from a sequence, the shape of Swift's `filter`,
 * and the regrouping of concatenations used by the proofs about it.
 */
module Sequences {

  /**
   * `a` can be obtained from `b` by deleting elements: matched greedily from
   * the front, which is complete for subsequences.
   */
  predicate IsSubsequence<T(==)>(a: seq<T>, b: seq<T>)
    decreases |b|
  {
    if a == [] then true
    else if b == [] then false
    else if a[0] == b[0] then IsSubsequence(a[1..], b[1..])
    else IsSubsequence(a, b[1..])
  }

  lemma {:induction false} IsSubsequenceShorter<T>(a: seq<T>, b: seq<T>)
    requires IsSubsequence(a, b)
    ensures |a| <= |b|
    decreases |b|
  {
    if a != [] && b != [] {
      if a[0] == b[0] { IsSubsequenceShorter(a[1..], b[1..]); }
      else { IsSubsequenceShorter(a, b[1..]); }
    }
  }

  /** Regrouping concatenations, stated once over plain variables so that it stays cheap. */
  lemma Regroup<T>(p: seq<T>, x: seq<T>, u: seq<T>, c: seq<T>)
    ensures p + x + (u + c) == p + (x + u) + c
  {
  }

  lemma AppendAssoc<T>(p: seq<T>, x: seq<T>, y: seq<T>)
    ensures p + (x + y) == p + x + y
  {
  }
}
