/** Order facts about sequences shared by the three filters of the storefront. */
module Seqs {

  /** `a` can be obtained from `b` by deleting elements, keeping the order of the rest
      (greedy matching, which finds an embedding whenever one exists). */
  predicate IsSubsequence<T(==)>(a: seq<T>, b: seq<T>)
    decreases |b|
  {
    if a == [] then true
    else if b == [] then false
    else if a[0] == b[0] then IsSubsequence(a[1..], b[1..])
    else IsSubsequence(a, b[1..])
  }

  /** Index of the first occurrence of `x` in `s`. */
  function FirstIndex<T(==)>(s: seq<T>, x: T): (i: nat)
    requires x in s
    ensures i < |s| && s[i] == x
  {
    if s[0] == x then 0 else 1 + FirstIndex(s[1..], x)
  }

  /** No occurrence of `x` comes before FirstIndex(s, x). */
  lemma {:induction false} FirstIndexIsFirst<T>(s: seq<T>, x: T)
    requires x in s
    ensures forall j :: 0 <= j < FirstIndex(s, x) ==> s[j] != x
  {
    if s[0] != x {
      FirstIndexIsFirst(s[1..], x);
      forall j | 0 < j < FirstIndex(s, x) ensures s[j] != x {
        assert s[j] == s[1..][j - 1];
      }
    }
  }

  /** The first occurrence of an element of a prefix lies in that prefix. */
  lemma {:induction false} FirstIndexOfPrefix<T>(s: seq<T>, k: nat, x: T)
    requires k <= |s| && x in s[..k]
    ensures FirstIndex(s, x) == FirstIndex(s[..k], x)
  {
    var i := FirstIndex(s[..k], x);
    FirstIndexIsFirst(s, x);
    FirstIndexIsFirst(s[..k], x);
    assert s[i] == x;
  }

  /** A value that first shows up in the last position has its first occurrence there. */
  lemma FirstIndexOfNewLast<T>(s: seq<T>)
    requires s != [] && s[|s| - 1] !in s[..|s| - 1]
    ensures FirstIndex(s, s[|s| - 1]) == |s| - 1
  {
    forall j | 0 <= j < |s| - 1 ensures s[j] != s[|s| - 1] {
      assert s[j] == s[..|s| - 1][j];
    }
  }

  /** Every sequence is a subsequence of itself. */
  lemma {:induction false} SubsequenceReflexive<T>(s: seq<T>)
    ensures IsSubsequence(s, s)
    decreases |s|
  {
    if s != [] {
      SubsequenceReflexive(s[1..]);
    }
  }
}
