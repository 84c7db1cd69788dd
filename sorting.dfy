/**
  The in-place sort behind Go's `sort.Sort` and `sort.Slice`: an array is
  reordered so that `le` holds between every earlier and later element, and
  its contents are a permutation of what they were. Like Go's sorts, it
  promises nothing about the relative order of elements `le` ranks equal.
*/
module Sorting {

  ghost predicate TotalPreorder<T(!new)>(le: (T, T) -> bool)
  {
    (forall x, y :: le(x, y) || le(y, x)) &&
    (forall x, y, z :: le(x, y) && le(y, z) ==> le(x, z))
  }

  ghost predicate SortedBy<T>(s: seq<T>, le: (T, T) -> bool)
  {
    forall p, q :: 0 <= p < q < |s| ==> le(s[p], s[q])
  }

  /** Insertion sort by adjacent swaps. */
  method SortBy<T(!new)>(a: array<T>, le: (T, T) -> bool)
    requires TotalPreorder(le)
    modifies a
    ensures SortedBy(a[..], le)
    ensures multiset(a[..]) == multiset(old(a[..]))
  {
    var i := 0;
    while i < a.Length
      invariant 0 <= i <= a.Length
      invariant forall p, q :: 0 <= p < q < i ==> le(a[p], a[q])
      invariant multiset(a[..]) == multiset(old(a[..]))
    {
      InsertLast(a, i, le);
      i := i + 1;
    }
  }

  /** One pass of the insertion sort: `a[i]` sinks into the sorted prefix `a[..i]`. */
  method InsertLast<T(!new)>(a: array<T>, i: nat, le: (T, T) -> bool)
    requires TotalPreorder(le)
    requires i < a.Length
    requires forall p, q :: 0 <= p < q < i ==> le(a[p], a[q])
    modifies a
    ensures forall p, q :: 0 <= p < q <= i ==> le(a[p], a[q])
    ensures multiset(a[..]) == multiset(old(a[..]))
  {
    var j := i;
    while j > 0 && !le(a[j - 1], a[j])
      invariant 0 <= j <= i
      invariant forall p, q :: 0 <= p < q <= i && p != j && q != j ==> le(a[p], a[q])
      invariant forall p, q :: 0 <= p < j < q <= i ==> le(a[p], a[q])
      invariant forall q :: j < q <= i ==> le(a[j], a[q])
      invariant multiset(a[..]) == multiset(old(a[..]))
    {
      a[j - 1], a[j] := a[j], a[j - 1];
      j := j - 1;
    }
  }
}
