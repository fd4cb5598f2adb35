/**
 * `items.sort((e1, e2) => key(e2) - key(e1))`: an in-place sort into non-increasing key order,
 * as an insertion sort that only ever swaps neighbours.
 */
module Sorting {
  /** Keys never increase from left to right. */
  predicate Descending<T>(s: seq<T>, key: T -> int) {
    forall i, j :: 0 <= i < j < |s| ==> key(s[i]) >= key(s[j])
  }

  /** Swapping neighbours keeps the elements. */
  method SwapNeighbours<T>(a: array<T>, j: int)
    requires 0 < j < a.Length
    modifies a
    ensures a[..] == old(a[..])[j - 1 := old(a[j])][j := old(a[j - 1])]
    ensures multiset(a[..]) == multiset(old(a[..]))
  {
    ghost var s := a[..];
    a[j - 1], a[j] := a[j], a[j - 1];
    assert a[..] == s[..j - 1] + [s[j], s[j - 1]] + s[j + 1..];
    assert s == s[..j - 1] + [s[j - 1], s[j]] + s[j + 1..];
  }

  /** Moves `a[i]` left into the sorted prefix `a[..i]`. */
  method InsertAt<T>(a: array<T>, i: int, key: T -> int)
    requires 0 < i < a.Length
    requires Descending(a[..i], key)
    modifies a
    ensures Descending(a[..i + 1], key)
    ensures a[i + 1..] == old(a[i + 1..])
    ensures multiset(a[..]) == multiset(old(a[..]))
  {
    var j := i;
    while j > 0 && key(a[j - 1]) < key(a[j])
      invariant 0 <= j <= i
      invariant forall p, q :: 0 <= p < q <= i && p != j && q != j ==> key(a[p]) >= key(a[q])
      invariant forall q :: j < q <= i ==> key(a[q]) < key(a[j])
      invariant a[i + 1..] == old(a[i + 1..])
      invariant multiset(a[..]) == multiset(old(a[..]))
    {
      SwapNeighbours(a, j);
      j := j - 1;
    }
  }

  method SortDescending<T>(a: array<T>, key: T -> int)
    modifies a
    ensures Descending(a[..], key)
    ensures multiset(a[..]) == multiset(old(a[..]))
  {
    if a.Length == 0 {
      return;
    }
    var i := 1;
    while i < a.Length
      invariant 1 <= i <= a.Length
      invariant Descending(a[..i], key)
      invariant multiset(a[..]) == multiset(old(a[..]))
    {
      InsertAt(a, i, key);
      i := i + 1;
    }
    assert a[..i] == a[..];
  }
}
