/** The canonical range key of the analysis overlay cache (app/code_detail/vnext_service.py). */
module OverlayRanges {
  import opened Sorting
  import opened CodeRegions

  function NonEmpty(ranges: seq<Range>): (r: seq<Range>)
    ensures forall x :: x in r <==> x in ranges && x.start <= x.end
  {
    if ranges == [] then [] else
      (if ranges[0].start <= ranges[0].end then [ranges[0]] else []) + NonEmpty(ranges[1..])
  }

  /** The nonempty requested ranges, sorted, without duplicates. */
  function Normalized(ranges: seq<Range>): seq<Range> {
    SortBy(Deduped(NonEmpty(ranges)), ByRange)
  }

  function OverlayKey(ranges: seq<Range>): seq<Range> {
    MergeAll(Normalized(ranges), 0)
  }

  method ComputeOverlayKey(ranges: seq<Range>) returns (merged: seq<Range>)
    ensures merged == OverlayKey(ranges)
  {
    merged := MergeTouching(Normalized(ranges));
  }

  method MergeTouching(normalized: seq<Range>) returns (merged: seq<Range>)
    ensures merged == MergeAll(normalized, 0)
  {
    merged := [];
    for k := 0 to |normalized|
      invariant merged == MergeAll(normalized[..k], 0)
    {
      assert normalized[..k + 1][..k] == normalized[..k];
      var cur := normalized[k];
      if merged != [] && cur.start <= merged[|merged| - 1].end + 1 {
        var prev := merged[|merged| - 1];
        merged := merged[|merged| - 1 := Range(prev.start, if prev.end < cur.end then cur.end else prev.end)];
      } else {
        merged := merged + [cur];
      }
    }
    assert normalized[..|normalized|] == normalized;
  }

  /** The set of lines a list of ranges denotes; an inverted range denotes none. */
  ghost function LinesOf(ranges: seq<Range>): iset<int> {
    iset x | InSome(ranges, x)
  }

  lemma InSomeIsMembership(ranges: seq<Range>, x: int)
    ensures InSome(ranges, x) <==> exists r :: r in ranges && r.Contains(x)
  {
    if exists r :: r in ranges && r.Contains(x) {
      var r :| r in ranges && r.Contains(x);
      var i :| 0 <= i < |ranges| && ranges[i] == r;
    }
  }

  lemma NormalizedLines(ranges: seq<Range>)
    ensures SortedRanges(Normalized(ranges))
    ensures LinesOf(Normalized(ranges)) == LinesOf(ranges)
  {
    var distinct := Deduped(NonEmpty(ranges));
    var normalized := Normalized(ranges);
    SortByIsSorted(distinct, ByRange);
    SortByMembers(distinct, ByRange);
    assert SortedBy(normalized, ByRange);
    assert SortedRanges(normalized) by {
      forall i | 0 <= i < |normalized|
        ensures normalized[i].start <= normalized[i].end
      {
        assert normalized[i] in normalized;
      }
    }
    forall x
      ensures x in LinesOf(normalized) <==> x in LinesOf(ranges)
    {
      InSomeIsMembership(normalized, x);
      InSomeIsMembership(ranges, x);
    }
  }

  /** The key: sorted, pairwise non-adjacent intervals that denote the requested lines. */
  lemma KeyDenotesTheLines(ranges: seq<Range>)
    ensures Separated(OverlayKey(ranges), 0)
    ensures LinesOf(OverlayKey(ranges)) == LinesOf(ranges)
  {
    var normalized := Normalized(ranges);
    NormalizedLines(ranges);
    MergedRanges(normalized, 0);
    forall x
      ensures x in LinesOf(OverlayKey(ranges)) <==> x in LinesOf(ranges)
    {
      assert x in LinesOf(normalized) <==> InSome(normalized, x);
      assert GapClosed(Covered(normalized), 0, x) <==> x in Covered(normalized);
    }
  }

  lemma FirstLine(a: seq<Range>, x: int)
    requires Separated(a, 0) && a != [] && InSome(a, x)
    ensures a[0].start <= x && InSome(a, a[0].start)
    ensures x > a[0].end ==> InSome(a[1..], x)
  {
    assert a[0].Contains(a[0].start);
    var i :| 0 <= i < |a| && a[i].Contains(x);
    if i > 0 {
      assert a[i].start - a[0].end - 1 > 0;
      assert a[1..][i - 1].Contains(x);
    }
  }

  /** Of two separated lists with the same lines, neither first interval is longer. */
  lemma FirstEnd(a: seq<Range>, b: seq<Range>)
    requires Separated(a, 0) && Separated(b, 0) && a != [] && b != []
    requires forall x :: InSome(a, x) <==> InSome(b, x)
    requires a[0].start == b[0].start
    ensures a[0].end <= b[0].end
  {
    var x := b[0].end + 1;
    assert a[0].Contains(x) ==> InSome(a, x);
  }

  lemma {:induction false} SeparatedIsCanonical(a: seq<Range>, b: seq<Range>)
    requires Separated(a, 0) && Separated(b, 0)
    requires forall x :: InSome(a, x) <==> InSome(b, x)
    ensures a == b
  {
    assert a != [] ==> a[0].Contains(a[0].start) && InSome(a, a[0].start);
    assert b != [] ==> b[0].Contains(b[0].start) && InSome(b, b[0].start);
    hide InSome;
    if a != [] && b != [] {
      FirstLine(a, b[0].start);
      FirstLine(b, a[0].start);
      FirstEnd(a, b);
      FirstEnd(b, a);
      assert a == [a[0]] + a[1..] && b == [b[0]] + b[1..];
      forall x
        ensures InSome(a[1..], x) <==> InSome(b[1..], x)
      {
        RestLines(a, x);
        RestLines(b, x);
      }
      SeparatedIsCanonical(a[1..], b[1..]);
    }
  }

  lemma RestLines(a: seq<Range>, x: int)
    requires Separated(a, 0) && a != []
    ensures InSome(a[1..], x) <==> InSome(a, x) && x > a[0].end
  {
    if InSome(a[1..], x) {
      var i :| 0 <= i < |a[1..]| && a[1..][i].Contains(x);
      assert a[i + 1].Contains(x) && a[i + 1].start - a[0].end - 1 > 0;
    }
    if InSome(a, x) {
      FirstLine(a, x);
    }
  }

  /** Two requests share a cache key exactly when they ask for the same lines. */
  lemma SameKeyIffSameLines(a: seq<Range>, b: seq<Range>)
    ensures OverlayKey(a) == OverlayKey(b) <==> LinesOf(a) == LinesOf(b)
  {
    KeyDenotesTheLines(a);
    KeyDenotesTheLines(b);
    if LinesOf(a) == LinesOf(b) {
      forall x
        ensures InSome(OverlayKey(a), x) <==> InSome(OverlayKey(b), x)
      {
        assert x in LinesOf(OverlayKey(a)) <==> x in LinesOf(OverlayKey(b));
      }
      SeparatedIsCanonical(OverlayKey(a), OverlayKey(b));
    }
  }
}
