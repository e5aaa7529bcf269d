/** Stable sorting by a key order: the model of Python's `list.sort(key=...)`
    and JavaScript's `Array.prototype.sort` wherever the code relies on them. */
module Sorting {

  ghost predicate TotalPreorder<T(!new)>(leq: (T, T) -> bool) {
    && (forall a, b :: leq(a, b) || leq(b, a))
    && (forall a, b, c :: leq(a, b) && leq(b, c) ==> leq(a, c))
  }

  ghost predicate SortedBy<T>(s: seq<T>, leq: (T, T) -> bool) {
    forall i, j :: 0 <= i < j < |s| ==> leq(s[i], s[j])
  }

  /** Inserts `x` before the first element that is not smaller, so that equal
      keys keep their input order. */
  function InsertBy<T>(x: T, s: seq<T>, leq: (T, T) -> bool): (r: seq<T>)
    ensures multiset(r) == multiset(s) + multiset{x}
    ensures |r| == |s| + 1
  {
    if s == [] || leq(x, s[0]) then
      [x] + s
    else
      assert s == [s[0]] + s[1..];
      [s[0]] + InsertBy(x, s[1..], leq)
  }

  function SortBy<T>(s: seq<T>, leq: (T, T) -> bool): (r: seq<T>)
    ensures multiset(r) == multiset(s)
    ensures |r| == |s|
  {
    if s == [] then [] else
      assert s == [s[0]] + s[1..];
      InsertBy(s[0], SortBy(s[1..], leq), leq)
  }

  lemma {:induction false} InsertKeepsOrder<T(!new)>(x: T, s: seq<T>, leq: (T, T) -> bool)
    requires TotalPreorder(leq) && SortedBy(s, leq)
    ensures SortedBy(InsertBy(x, s, leq), leq)
  {
    if s == [] || leq(x, s[0]) {
    } else {
      InsertKeepsOrder(x, s[1..], leq);
      var r := InsertBy(x, s[1..], leq);
      forall k | 0 <= k < |r|
        ensures leq(s[0], r[k])
      {
        assert r[k] in multiset(r);
        assert r[k] in multiset(s[1..]) || r[k] == x;
        if r[k] != x {
          assert r[k] in s[1..];
        }
      }
    }
  }

  lemma {:induction false} SortByIsSorted<T(!new)>(s: seq<T>, leq: (T, T) -> bool)
    requires TotalPreorder(leq)
    ensures SortedBy(SortBy(s, leq), leq)
  {
    if s != [] {
      SortByIsSorted(s[1..], leq);
      InsertKeepsOrder(s[0], SortBy(s[1..], leq), leq);
    }
  }

  lemma SortByMembers<T>(s: seq<T>, leq: (T, T) -> bool)
    ensures forall x :: x in SortBy(s, leq) <==> x in s
  {
    forall x
      ensures x in SortBy(s, leq) <==> x in s
    {
      assert x in SortBy(s, leq) <==> x in multiset(SortBy(s, leq));
      assert x in s <==> x in multiset(s);
    }
  }

  ghost predicate Distinct<T>(s: seq<T>) {
    forall i, j :: 0 <= i < j < |s| ==> s[i] != s[j]
  }

  /** The distinct elements of `s`, in the order of their first occurrence. */
  function Deduped<T(==, !new)>(s: seq<T>): (r: seq<T>)
    ensures forall x :: x in r <==> x in s
    ensures Distinct(r)
  {
    if s == [] then [] else
      var front := Deduped(s[..|s| - 1]);
      var last := s[|s| - 1];
      assert s == s[..|s| - 1] + [last];
      if last in front then front else front + [last]
  }

  lemma {:induction false} InsertKeepsDistinct<T>(x: T, s: seq<T>, leq: (T, T) -> bool)
    requires Distinct(s) && x !in s
    ensures Distinct(InsertBy(x, s, leq))
  {
    if s != [] && !leq(x, s[0]) {
      InsertKeepsDistinct(x, s[1..], leq);
      var r := InsertBy(x, s[1..], leq);
      assert s[0] !in r by {
        assert s[0] in r <==> s[0] in multiset(r);
      }
    }
  }

  lemma {:induction false} SortKeepsDistinct<T>(s: seq<T>, leq: (T, T) -> bool)
    requires Distinct(s)
    ensures Distinct(SortBy(s, leq))
  {
    if s != [] {
      SortKeepsDistinct(s[1..], leq);
      SortByMembers(s[1..], leq);
      InsertKeepsDistinct(s[0], SortBy(s[1..], leq), leq);
    }
  }

  /** Sorting a sorted list changes nothing. */
  lemma {:induction false} SortedIsFixpoint<T>(s: seq<T>, leq: (T, T) -> bool)
    requires SortedBy(s, leq)
    ensures SortBy(s, leq) == s
  {
    if s != [] {
      SortedIsFixpoint(s[1..], leq);
      assert s == [s[0]] + s[1..];
    }
  }

  ghost predicate StrictlyIncreasing(s: seq<int>) {
    forall i, j :: 0 <= i < j < |s| ==> s[i] < s[j]
  }

  /** `sorted(set(s))`: strictly increasing, same elements. */
  function SortedSet(s: seq<int>): (r: seq<int>)
    ensures StrictlyIncreasing(r)
    ensures forall x :: x in r <==> x in s
  {
    if s == [] then [] else InsertUnique(s[0], SortedSet(s[1..]))
  }

  function InsertUnique(x: int, s: seq<int>): (r: seq<int>)
    requires StrictlyIncreasing(s)
    ensures StrictlyIncreasing(r)
    ensures forall y :: y in r <==> y == x || y in s
  {
    if s == [] || x < s[0] then [x] + s
    else if x == s[0] then s
    else
      var rest := InsertUnique(x, s[1..]);
      assert s == [s[0]] + s[1..];
      assert forall k :: 0 <= k < |rest| ==> rest[k] in rest;
      [s[0]] + rest
  }

  /** The elements after the first of an increasing list. */
  lemma RestOfIncreasing(a: seq<int>, x: int)
    requires StrictlyIncreasing(a) && a != []
    ensures x in a[1..] <==> x in a && x != a[0]
    ensures x in a ==> a[0] <= x
  {
    assert a == [a[0]] + a[1..];
  }

  /** A strictly increasing list is determined by the set of its elements. */
  lemma {:induction false} IncreasingIsCanonical(a: seq<int>, b: seq<int>)
    requires StrictlyIncreasing(a) && StrictlyIncreasing(b)
    requires forall x :: x in a <==> x in b
    ensures a == b
  {
    assert a != [] ==> a[0] in a;
    assert b != [] ==> b[0] in b;
    if a != [] && b != [] {
      RestOfIncreasing(a, b[0]);
      RestOfIncreasing(b, a[0]);
      forall x
        ensures x in a[1..] <==> x in b[1..]
      {
        RestOfIncreasing(a, x);
        RestOfIncreasing(b, x);
      }
      IncreasingIsCanonical(a[1..], b[1..]);
      assert a == [a[0]] + a[1..] && b == [b[0]] + b[1..];
    }
  }
}
