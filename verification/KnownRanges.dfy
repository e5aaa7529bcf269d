/** Acceptance of externally supplied function ranges (app/code_detail/source_reader.py). */
module KnownRanges {
  import opened Options
  import opened Sorting
  import opened FunctionLookup

  /** One supplied range: unreadable, or a pair of line numbers. */
  datatype Supplied = Malformed | Supplied(start: int, end: int)

  predicate WellFormed(known: seq<Supplied>, total: int) {
    forall k :: k in known ==> k.Supplied? && 1 <= k.start <= k.end <= total
  }

  predicate Nested(inner: FunctionRange, outer: FunctionRange) {
    outer.start <= inner.start && inner.end <= outer.end
  }

  predicate Crossing(a: FunctionRange, b: FunctionRange) {
    a.start < b.start <= a.end < b.end
  }

  ghost predicate IsSupplied(known: seq<Supplied>, r: FunctionRange) {
    Supplied.Supplied(r.start, r.end) in known
  }

  /** No other supplied range contains `r`. */
  ghost predicate Maximal(known: seq<Supplied>, r: FunctionRange) {
    IsSupplied(known, r) && forall o :: IsSupplied(known, o) && Nested(r, o) ==> o == r
  }

  ghost predicate HasCrossing(known: seq<Supplied>) {
    exists a, b :: Maximal(known, a) && Maximal(known, b) && Crossing(a, b)
  }

  predicate WidestFirst(a: FunctionRange, b: FunctionRange) {
    a.start < b.start || (a.start == b.start && a.end >= b.end)
  }

  ghost predicate HeldBy(x: FunctionRange, outermost: seq<FunctionRange>) {
    exists i :: 0 <= i < |outermost| && Nested(x, outermost[i])
  }

  /** The outermost ranges found in `done`: ordered, disjoint, and holding all of `done`. */
  ghost predicate Outermost(done: seq<FunctionRange>, outermost: seq<FunctionRange>) {
    && PairwiseDisjoint(outermost)
    && (forall i :: 0 <= i < |outermost| ==> outermost[i] in done)
    && (forall x {:trigger HeldBy(x, outermost)} :: x in done ==> HeldBy(x, outermost))
  }

  /** The supplied ranges in the order in which they are examined. */
  ghost predicate Ordered(known: seq<Supplied>, total: int, ordered: seq<FunctionRange>) {
    && (forall r :: r in ordered <==> IsSupplied(known, r))
    && (forall r :: r in ordered ==> 1 <= r.start <= r.end <= total)
    && SortedBy(ordered, WidestFirst)
    && Distinct(ordered)
  }

  /** A range not inside an earlier outermost one is inside no other supplied range. */
  lemma FreshIsMaximal(known: seq<Supplied>, total: int, ordered: seq<FunctionRange>, k: nat,
                       outermost: seq<FunctionRange>)
    requires Ordered(known, total, ordered) && k < |ordered|
    requires Outermost(ordered[..k], outermost)
    requires forall i :: 0 <= i < |outermost| ==> !Nested(ordered[k], outermost[i])
    ensures Maximal(known, ordered[k])
  {
    forall j | 0 <= j < k
      ensures !Nested(ordered[k], ordered[j])
    {
      assert ordered[j] in ordered[..k] && HeldBy(ordered[j], outermost);
      var i :| 0 <= i < |outermost| && Nested(ordered[j], outermost[i]);
      assert !Nested(ordered[k], outermost[i]);
    }
    forall o | IsSupplied(known, o) && Nested(ordered[k], o)
      ensures o == ordered[k]
    {
      assert o in ordered;
      var j :| 0 <= j < |ordered| && ordered[j] == o;
      assert WidestFirst(ordered[k], o) || j <= k;
    }
  }

  /** Every supplied range is accounted for, so the outermost ones are the maximal ones. */
  lemma OutermostAreMaximal(known: seq<Supplied>, total: int, ordered: seq<FunctionRange>,
                            outermost: seq<FunctionRange>)
    requires Ordered(known, total, ordered) && Outermost(ordered, outermost)
    requires forall i :: 0 <= i < |outermost| ==> Maximal(known, outermost[i])
    ensures forall r :: r in outermost <==> Maximal(known, r)
    ensures !HasCrossing(known)
  {
    forall r | Maximal(known, r)
      ensures r in outermost
    {
      assert r in ordered && HeldBy(r, outermost);
      var i :| 0 <= i < |outermost| && Nested(r, outermost[i]);
      assert IsSupplied(known, outermost[i]);
    }
    forall a, b | a in outermost && b in outermost
      ensures !Crossing(a, b)
    {
      var i :| 0 <= i < |outermost| && outermost[i] == a;
      var j :| 0 <= j < |outermost| && outermost[j] == b;
      assert i < j ==> outermost[i].end < outermost[j].start;
      assert j < i ==> outermost[j].end < outermost[i].start;
    }
  }

  /** _validated_known_function_ranges: supplied ranges are trusted iff they are readable,
      lie in the file and no two maximal ones cross; then the maximal ones are returned,
      in order and disjoint.  None asks for the source-based fallback. */
  method ValidatedKnownRanges(known: seq<Supplied>, total: int) returns (r: Option<seq<FunctionRange>>)
    ensures r.Some? <==> known != [] && WellFormed(known, total) && !HasCrossing(known)
    ensures r.Some? ==> r.value != [] && PairwiseDisjoint(r.value)
    ensures r.Some? ==> forall x :: x in r.value <==> Maximal(known, x)
  {
    if known == [] {
      return None;
    }
    var ranges: seq<FunctionRange> := [];
    for i := 0 to |known|
      invariant WellFormed(known[..i], total)
      invariant forall x :: x in ranges <==> IsSupplied(known[..i], x)
    {
      assert known[..i + 1] == known[..i] + [known[i]];
      if known[i].Malformed? || known[i].start < 1 || known[i].start > known[i].end || known[i].end > total {
        assert known[i] in known;
        return None;
      }
      ranges := ranges + [FunctionRange(known[i].start, known[i].end)];
    }
    assert known[..|known|] == known;
    var ordered := SortBy(Deduped(ranges), WidestFirst);
    assert Ordered(known, total, ordered) by {
      SortByIsSorted(Deduped(ranges), WidestFirst);
      SortByMembers(Deduped(ranges), WidestFirst);
      SortKeepsDistinct(Deduped(ranges), WidestFirst);
    }
    r := KeepOutermost(known, total, ordered);
    assert known[0].Supplied? && IsSupplied(known, FunctionRange(known[0].start, known[0].end));
  }

  method KeepOutermost(ghost known: seq<Supplied>, ghost total: int, ordered: seq<FunctionRange>)
    returns (r: Option<seq<FunctionRange>>)
    requires Ordered(known, total, ordered)
    ensures r.Some? <==> ordered != [] && !HasCrossing(known)
    ensures r.Some? ==> r.value != [] && PairwiseDisjoint(r.value)
    ensures r.Some? ==> forall x :: x in r.value <==> Maximal(known, x)
  {
    hide Maximal, HasCrossing;
    var outermost: seq<FunctionRange> := [];
    for k := 0 to |ordered|
      invariant Outermost(ordered[..k], outermost)
      invariant forall i :: 0 <= i < |outermost| ==> Maximal(known, outermost[i])
      invariant k > 0 ==> outermost != []
    {
      var item := ordered[k];
      var isNested := false;
      var m := 0;
      while m < |outermost| && !isNested
        invariant 0 <= m <= |outermost|
        invariant isNested ==> HeldBy(item, outermost)
        invariant !isNested ==> forall i :: 0 <= i < m ==> outermost[i].end < item.start
      {
        var existing := outermost[m];
        EarlierStartsFirst(known, total, ordered, k, existing);
        if Nested(item, existing) {
          isNested := true;
        } else if Crossing(item, existing) || Crossing(existing, item) {
          CrossingIsFresh(outermost, m, item);
          FreshIsMaximal(known, total, ordered, k, outermost);
          CrossingFound(known, existing, item);
          return None;
        }
        m := m + 1;
      }
      assert ordered[k] in ordered;
      if !isNested {
        FreshIsMaximal(known, total, ordered, k, outermost);
        OutermostGrows(ordered[..k], outermost, item);
        outermost := outermost + [item];
      } else {
        OutermostHolds(ordered[..k], outermost, item);
      }
      assert ordered[..k + 1] == ordered[..k] + [item];
    }
    assert ordered[..|ordered|] == ordered;
    OutermostAreMaximal(known, total, ordered, outermost);
    assert outermost != [] ==> outermost[0] in ordered;
    r := if outermost == [] then None else Some(outermost);
  }

  lemma CrossingFound(known: seq<Supplied>, a: FunctionRange, b: FunctionRange)
    requires Maximal(known, a) && Maximal(known, b) && (Crossing(a, b) || Crossing(b, a))
    ensures HasCrossing(known)
  {
  }

  lemma CrossingIsFresh(outermost: seq<FunctionRange>, m: nat, item: FunctionRange)
    requires PairwiseDisjoint(outermost) && m < |outermost| && item.start <= item.end
    requires forall i :: 0 <= i < m ==> outermost[i].end < item.start
    requires outermost[m].start <= item.start <= outermost[m].end < item.end
    ensures forall i :: 0 <= i < |outermost| ==> !Nested(item, outermost[i])
  {
    assert forall i :: m < i < |outermost| ==> outermost[m].end < outermost[i].start;
  }

  lemma OutermostGrows(done: seq<FunctionRange>, outermost: seq<FunctionRange>, item: FunctionRange)
    requires Outermost(done, outermost)
    requires forall i :: 0 <= i < |outermost| ==> outermost[i].end < item.start
    ensures Outermost(done + [item], outermost + [item])
  {
    var grown := outermost + [item];
    forall x | x in done + [item]
      ensures HeldBy(x, grown)
    {
      if x in done {
        assert HeldBy(x, outermost);
        var i :| 0 <= i < |outermost| && Nested(x, outermost[i]);
        assert Nested(x, grown[i]);
      } else {
        assert Nested(x, grown[|outermost|]);
      }
    }
  }

  lemma OutermostHolds(done: seq<FunctionRange>, outermost: seq<FunctionRange>, item: FunctionRange)
    requires Outermost(done, outermost) && HeldBy(item, outermost)
    ensures Outermost(done + [item], outermost)
  {
    forall x | x in done + [item]
      ensures HeldBy(x, outermost)
    {
    }
  }

  lemma EarlierStartsFirst(known: seq<Supplied>, total: int, ordered: seq<FunctionRange>, k: nat, r: FunctionRange)
    requires Ordered(known, total, ordered) && k < |ordered| && r in ordered[..k]
    ensures WidestFirst(r, ordered[k]) && 1 <= r.start <= r.end && ordered[k].start <= ordered[k].end
  {
    var j :| 0 <= j < k && ordered[..k][j] == r;
    assert ordered[j] == r;
    assert r in ordered && ordered[k] in ordered;
  }
}
