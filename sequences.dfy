/** The two list shapes the registries are built from: first-match lookup
    over a list of keys, and order-preserving filtering. */
module Sequences {

  /** Index of the first occurrence of `k` in `keys`, or `|keys|` if there is none:
      what a for-each loop with an early `return` on the first equal key finds. */
  function FirstIndex<K(==)>(keys: seq<K>, k: K): (i: nat)
    ensures i <= |keys|
    ensures forall j :: 0 <= j < i ==> keys[j] != k
    ensures i < |keys| ==> keys[i] == k
    ensures i == |keys| <==> k !in keys
  {
    if keys == [] then 0
    else if keys[0] == k then 0
    else 1 + FirstIndex(keys[1..], k)
  }

  /** No key occurs twice. */
  predicate Unique<K(==)>(keys: seq<K>) {
    forall i, j :: 0 <= i < j < |keys| ==> keys[i] != keys[j]
  }

  /** With unique keys, the first occurrence of a key is its only one. */
  lemma FirstIndexOfUnique<K>(keys: seq<K>, j: nat)
    requires Unique(keys) && j < |keys|
    ensures FirstIndex(keys, keys[j]) == j
  {
  }

  /** The elements of `s` whose flag in `keep` is set, in their order in `s`. */
  function Select<T>(s: seq<T>, keep: seq<bool>): (r: seq<T>)
    requires |keep| == |s|
    ensures |r| <= |s|
    decreases |s|
  {
    if s == [] then []
    else Select(s[..|s| - 1], keep[..|s| - 1]) + (if keep[|s| - 1] then [s[|s| - 1]] else [])
  }

  /** One more step of an accumulating loop: the filter of a longer prefix. */
  lemma SelectStep<T>(s: seq<T>, keep: seq<bool>, i: nat)
    requires |keep| == |s| && i < |s|
    ensures Select(s[..i + 1], keep[..i + 1])
         == Select(s[..i], keep[..i]) + (if keep[i] then [s[i]] else [])
  {
    assert s[..i + 1][..i] == s[..i];
    assert keep[..i + 1][..i] == keep[..i];
  }

  /** An element is selected exactly when it sits at a position whose flag is set. */
  lemma {:induction false} SelectMembers<T>(s: seq<T>, keep: seq<bool>, x: T)
    requires |keep| == |s|
    ensures x in Select(s, keep) <==> exists i :: 0 <= i < |s| && keep[i] && s[i] == x
    decreases |s|
  {
    if s != [] {
      var n := |s| - 1;
      SelectMembers(s[..n], keep[..n], x);
      if x in Select(s[..n], keep[..n]) {
        var i :| 0 <= i < n && keep[..n][i] && s[..n][i] == x;
        assert keep[i] && s[i] == x;
      }
      if exists i :: 0 <= i < |s| && keep[i] && s[i] == x {
        var i :| 0 <= i < |s| && keep[i] && s[i] == x;
        if i < n {
          assert keep[..n][i] && s[..n][i] == x;
        }
      }
    }
  }
}
