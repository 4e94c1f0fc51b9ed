/**
  How a `find().sort(spec)` result is specified: MongoDB returns the documents
  of the collection in an order that agrees with the sort specification. The
  model computes one such order with an insertion sort by a comparator and
  proves that the result is sorted and is a permutation of the collection.
 */
module Sorting {

  /** `leq` is total and transitive: a sort specification built from field comparisons. */
  ghost predicate TotalPreorder<T(!new)>(leq: (T, T) -> bool)
  {
    && (forall a, b :: leq(a, b) || leq(b, a))
    && (forall a, b, c :: leq(a, b) && leq(b, c) ==> leq(a, c))
  }

  ghost predicate SortedBy<T>(s: seq<T>, leq: (T, T) -> bool)
  {
    forall i, j :: 0 <= i < j < |s| ==> leq(s[i], s[j])
  }

  /** `x` placed before the first element it is `leq` to. */
  function Insert<T>(x: T, s: seq<T>, leq: (T, T) -> bool): (r: seq<T>)
    ensures multiset(r) == multiset(s) + multiset{x}
    ensures |r| == |s| + 1
  {
    if s == [] then [x]
    else if leq(x, s[0]) then [x] + s
    else
      assert s == [s[0]] + s[1..];
      [s[0]] + Insert(x, s[1..], leq)
  }

  lemma {:induction false} InsertSorted<T(!new)>(x: T, s: seq<T>, leq: (T, T) -> bool)
    requires TotalPreorder(leq)
    requires SortedBy(s, leq)
    ensures SortedBy(Insert(x, s, leq), leq)
  {
    if s != [] && !leq(x, s[0]) {
      InsertSorted(x, s[1..], leq);
      HeadBelowInsert(x, s, leq);
      SortedCons(s[0], Insert(x, s[1..], leq), leq);
    }
  }

  /** The head of `s` is below everything in the insertion into its tail. */
  lemma HeadBelowInsert<T(!new)>(x: T, s: seq<T>, leq: (T, T) -> bool)
    requires TotalPreorder(leq)
    requires SortedBy(s, leq) && s != [] && !leq(x, s[0])
    ensures forall k :: 0 <= k < |Insert(x, s[1..], leq)| ==> leq(s[0], Insert(x, s[1..], leq)[k])
  {
    var tail := s[1..];
    var t := Insert(x, tail, leq);
    assert leq(s[0], x);
    forall k | 0 <= k < |t|
      ensures leq(s[0], t[k])
    {
      assert t[k] in multiset(t);
      if t[k] != x {
        assert t[k] in multiset(tail);
        var m :| 0 <= m < |tail| && tail[m] == t[k];
        assert s[m + 1] == tail[m];
      }
    }
  }

  lemma SortedCons<T>(y: T, t: seq<T>, leq: (T, T) -> bool)
    requires SortedBy(t, leq)
    requires forall k :: 0 <= k < |t| ==> leq(y, t[k])
    ensures SortedBy([y] + t, leq)
  {
    var r := [y] + t;
    forall i, j | 0 <= i < j < |r|
      ensures leq(r[i], r[j])
    {
      assert r[j] == t[j - 1];
      if i > 0 {
        assert r[i] == t[i - 1];
      }
    }
  }

  /** Insertion sort: a stable order of `s` that agrees with `leq`. */
  function SortBy<T>(s: seq<T>, leq: (T, T) -> bool): (r: seq<T>)
    ensures multiset(r) == multiset(s)
    ensures |r| == |s|
  {
    if s == [] then []
    else
      assert s == [s[0]] + s[1..];
      Insert(s[0], SortBy(s[1..], leq), leq)
  }

  lemma {:induction false} SortBySorted<T(!new)>(s: seq<T>, leq: (T, T) -> bool)
    requires TotalPreorder(leq)
    ensures SortedBy(SortBy(s, leq), leq)
  {
    if s != [] {
      SortBySorted(s[1..], leq);
      InsertSorted(s[0], SortBy(s[1..], leq), leq);
    }
  }
}
