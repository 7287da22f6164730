// Permutations, as the lists of their images.
module Permutations {

  // A permutation of 0..n-1.
  ghost predicate IsPermutation(m: seq<int>, n: nat) {
    && |m| == n
    && (forall i :: 0 <= i < n ==> 0 <= m[i] < n)
    && (forall i, j :: 0 <= i < j < n ==> m[i] != m[j])
    && (forall k :: 0 <= k < n ==> Hits(m, k))
  }

  ghost predicate Hits(m: seq<int>, k: int) {
    exists i :: 0 <= i < |m| && m[i] == k
  }

  // Different places hold different images.
  lemma SameImageSamePlace(m: seq<int>, i: nat, j: nat)
    requires IsPermutation(m, |m|) && i < |m| && j < |m| && m[i] == m[j]
    ensures i == j
  {
    assert !(i < j) && !(j < i);
  }

  lemma PlaceOf(m: seq<int>, k: nat) returns (i: nat)
    requires IsPermutation(m, |m|) && k < |m|
    ensures i < |m| && m[i] == k
  {
    assert Hits(m, k);
    i :| 0 <= i < |m| && m[i] == k;
  }
}
