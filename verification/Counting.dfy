/** Sums over the elements of a sequence. */
module Counting {

  function Total<T>(s: seq<T>, f: T -> nat): nat {
    if s == [] then 0 else f(s[0]) + Total(s[1..], f)
  }

  lemma {:induction false} TotalUpdated<T>(s: seq<T>, i: nat, x: T, f: T -> nat)
    requires i < |s|
    ensures Total(s[i := x], f) == Total(s, f) - f(s[i]) + f(x)
  {
    if i > 0 {
      TotalUpdated(s[1..], i - 1, x, f);
      assert s[i := x][1..] == s[1..][i - 1 := x];
    } else {
      assert s[i := x][1..] == s[1..];
    }
  }

  lemma {:induction false} TotalBounded<T(!new)>(s: seq<T>, f: T -> nat, max: nat)
    requires forall x :: f(x) <= max
    ensures Total(s, f) <= max * |s|
  {
    if s != [] {
      TotalBounded(s[1..], f, max);
      assert max * |s| == max + max * (|s| - 1);
    }
  }

  lemma {:induction false} TotalOfNone<T>(s: seq<T>, f: T -> nat)
    requires forall i :: 0 <= i < |s| ==> f(s[i]) == 0
    ensures Total(s, f) == 0
  {
    if s != [] {
      TotalOfNone(s[1..], f);
    }
  }

  lemma {:induction false} TotalAppended<T>(s: seq<T>, x: T, f: T -> nat)
    ensures Total(s + [x], f) == Total(s, f) + f(x)
  {
    if s != [] {
      TotalAppended(s[1..], x, f);
      assert (s + [x])[1..] == s[1..] + [x];
    } else {
      assert (s + [x])[1..] == [];
    }
  }
}
