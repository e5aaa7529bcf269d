/** Function ranges of a source file and the three ways the code looks a line up in them. */
module FunctionLookup {
  import opened Options
  import opened Sorting

  datatype FunctionRange = FunctionRange(start: int, end: int) {
    predicate Contains(line: int) {
      start <= line <= end
    }

    predicate IsValid(total: Option<int>) {
      && start > 0 && end > 0
      && start <= end
      && (total.Some? ==> start <= total.value)
    }
  }

  predicate ByStartEnd(a: FunctionRange, b: FunctionRange) {
    a.start < b.start || (a.start == b.start && a.end <= b.end)
  }

  ghost predicate SortedByStart(fns: seq<FunctionRange>) {
    forall i, j :: 0 <= i < j < |fns| ==> fns[i].start <= fns[j].start
  }

  ghost predicate PairwiseDisjoint(fns: seq<FunctionRange>) {
    forall i, j :: 0 <= i < j < |fns| ==> fns[i].end < fns[j].start
  }

  /** The end a range is clipped to: a missing or zero file length clips nothing. */
  function ClippedEnd(fn: FunctionRange, total: Option<int>): int {
    if total.Some? && total.value != 0 && total.value < fn.end then total.value else fn.end
  }

  function Kept(fns: seq<FunctionRange>, total: Option<int>): (r: seq<FunctionRange>) {
    if fns == [] then []
    else
      var fn := fns[0];
      var end := ClippedEnd(fn, total);
      (if fn.IsValid(total) && end >= fn.start then [FunctionRange(fn.start, end)] else [])
      + Kept(fns[1..], total)
  }

  function Sanitized(fns: seq<FunctionRange>, total: Option<int>): seq<FunctionRange> {
    SortBy(Kept(fns, total), ByStartEnd)
  }

  lemma {:induction false} KeptAppend(fns: seq<FunctionRange>, fn: FunctionRange, total: Option<int>)
    ensures Kept(fns + [fn], total) == Kept(fns, total) + Kept([fn], total)
  {
    if fns != [] {
      assert (fns + [fn])[1..] == fns[1..] + [fn];
      KeptAppend(fns[1..], fn, total);
    } else {
      assert fns + [fn] == [fn];
    }
  }

  method SanitizeFunctionRanges(fns: seq<FunctionRange>, total: Option<int>) returns (r: seq<FunctionRange>)
    ensures r == Sanitized(fns, total)
  {
    var valid: seq<FunctionRange> := [];
    for i := 0 to |fns|
      invariant valid == Kept(fns[..i], total)
    {
      assert fns[..i + 1] == fns[..i] + [fns[i]];
      KeptAppend(fns[..i], fns[i], total);
      if fns[i].IsValid(total) {
        var clippedEnd := ClippedEnd(fns[i], total);
        if clippedEnd >= fns[i].start {
          valid := valid + [FunctionRange(fns[i].start, clippedEnd)];
        }
      }
    }
    assert fns[..|fns|] == fns;
    r := SortBy(valid, ByStartEnd);
  }

  /** `r` is what sanitising leaves of `fn`. */
  predicate ClipsTo(fn: FunctionRange, total: Option<int>, r: FunctionRange) {
    && fn.IsValid(total)
    && ClippedEnd(fn, total) >= fn.start
    && r == FunctionRange(fn.start, ClippedEnd(fn, total))
  }

  lemma {:induction false} KeptMembers(fns: seq<FunctionRange>, total: Option<int>, r: FunctionRange)
    ensures r in Kept(fns, total) <==> exists fn :: fn in fns && ClipsTo(fn, total, r)
  {
    if fns != [] {
      KeptMembers(fns[1..], total, r);
      assert forall fn :: fn in fns <==> fn == fns[0] || fn in fns[1..];
      assert Kept(fns, total) == Kept(fns[..1], total) + Kept(fns[1..], total) by {
        assert fns[..1][1..] == [];
      }
      assert r in Kept(fns[..1], total) <==> ClipsTo(fns[0], total, r);
    }
  }

  /** Sanitising keeps exactly the valid ranges, clipped to the file, in start order;
      in a file of `total` lines every kept range is a nonempty part of 1..total. */
  lemma SanitizedRanges(fns: seq<FunctionRange>, total: int)
    requires total > 0
    ensures SortedByStart(Sanitized(fns, Some(total)))
    ensures forall r :: r in Sanitized(fns, Some(total)) ==> 1 <= r.start <= r.end <= total
    ensures forall r :: r in Sanitized(fns, Some(total)) <==>
              exists fn :: fn in fns && ClipsTo(fn, Some(total), r)
    ensures forall r :: r in Sanitized(fns, Some(total)) <==>
              1 <= r.start <= r.end <= total
              && exists fn :: fn in fns && fn.start == r.start && r.end == if total < fn.end then total else fn.end
  {
    var kept := Kept(fns, Some(total));
    var r := Sanitized(fns, Some(total));
    assert SortedBy(r, ByStartEnd) by { SortByIsSorted(kept, ByStartEnd); }
    assert SortedByStart(r);
    SortByMembers(kept, ByStartEnd);
    forall x
      ensures x in r <==> exists fn :: fn in fns && ClipsTo(fn, Some(total), x)
    {
      KeptMembers(fns, Some(total), x);
    }
  }

  /** For every file length, known or not: the ranges that remain are sorted by start and end, and
      are the inputs that begin in the file, cut off at its last line. */
  lemma SanitizedForAnyLength(fns: seq<FunctionRange>, total: Option<int>)
    ensures forall r :: r in Sanitized(fns, total) <==>
              exists fn :: && fn in fns && 0 < fn.start <= fn.end && r.start == fn.start
                           && (total.Some? ==> fn.start <= total.value)
                           && r.end == if total.Some? && total.value < fn.end then total.value else fn.end
    ensures var s := Sanitized(fns, total);
      forall i, j :: 0 <= i < j < |s| ==> s[i].start < s[j].start || (s[i].start == s[j].start && s[i].end <= s[j].end)
  {
    var kept := Kept(fns, total);
    SortByIsSorted(kept, ByStartEnd);
    SortByMembers(kept, ByStartEnd);
    forall r
      ensures r in Sanitized(fns, total) <==> exists fn :: fn in fns && ClipsTo(fn, total, r)
    {
      KeptMembers(fns, total, r);
    }
    var s := Sanitized(fns, total);
    forall i, j | 0 <= i < j < |s|
      ensures ByStartEnd(s[i], s[j])
    {
    }
  }

  predicate Apart(a: FunctionRange, b: FunctionRange) {
    a.end < b.start || b.end < a.start
  }

  ghost predicate NoneOverlap(fns: seq<FunctionRange>) {
    forall i, j :: 0 <= i < j < |fns| ==> Apart(fns[i], fns[j])
  }

  predicate Survives(fn: FunctionRange, total: Option<int>) {
    fn.IsValid(total) && ClippedEnd(fn, total) >= fn.start
  }

  function Clipped(fn: FunctionRange, total: Option<int>): FunctionRange {
    FunctionRange(fn.start, ClippedEnd(fn, total))
  }

  /** No two inputs that survive overlap inside the file. */
  ghost predicate InputsApart(fns: seq<FunctionRange>, total: Option<int>) {
    forall i, j :: 0 <= i < j < |fns| && Survives(fns[i], total) && Survives(fns[j], total) ==>
      Apart(Clipped(fns[i], total), Clipped(fns[j], total))
  }

  ghost predicate ApartFromAll(x: FunctionRange, fns: seq<FunctionRange>) {
    forall y :: y in fns ==> Apart(x, y)
  }

  lemma NoneOverlapFirst(fns: seq<FunctionRange>)
    requires fns != []
    ensures NoneOverlap(fns) <==> NoneOverlap(fns[1..]) && ApartFromAll(fns[0], fns[1..])
  {
    assert forall j :: 0 < j < |fns| ==> fns[j] == fns[1..][j - 1] && fns[j] in fns[1..];
    assert forall i, j :: 0 <= i < j < |fns[1..]| ==> fns[1..][i] == fns[i + 1] && fns[1..][j] == fns[j + 1];
  }

  lemma InsertMembers(x: FunctionRange, fns: seq<FunctionRange>)
    ensures forall y :: y in InsertBy(x, fns, ByStartEnd) <==> y == x || y in fns
  {
    var r := InsertBy(x, fns, ByStartEnd);
    forall y
      ensures y in r <==> y == x || y in fns
    {
      assert y in r <==> y in multiset(r);
      assert y in fns <==> y in multiset(fns);
    }
  }

  lemma ApartFirst(x: FunctionRange, fns: seq<FunctionRange>)
    requires fns != []
    ensures ApartFromAll(x, fns) <==> Apart(x, fns[0]) && ApartFromAll(x, fns[1..])
  {
    assert fns == [fns[0]] + fns[1..];
  }

  lemma {:induction false} InsertOverlap(x: FunctionRange, fns: seq<FunctionRange>)
    ensures NoneOverlap(InsertBy(x, fns, ByStartEnd)) <==> NoneOverlap(fns) && ApartFromAll(x, fns)
  {
    var r := InsertBy(x, fns, ByStartEnd);
    NoneOverlapFirst(r);
    if fns == [] || ByStartEnd(x, fns[0]) {
      assert r[1..] == fns;
    } else {
      InsertOverlap(x, fns[1..]);
      InsertMembers(x, fns[1..]);
      NoneOverlapFirst(fns);
      assert r[1..] == InsertBy(x, fns[1..], ByStartEnd);
      hide NoneOverlap;
      assert fns == [fns[0]] + fns[1..];
      assert ApartFromAll(fns[0], r[1..]) <==> ApartFromAll(fns[0], fns[1..]) && Apart(fns[0], x);
      ApartFirst(x, fns);
    }
  }

  lemma {:induction false} SortOverlap(fns: seq<FunctionRange>)
    ensures NoneOverlap(SortBy(fns, ByStartEnd)) <==> NoneOverlap(fns)
  {
    if fns != [] {
      var rest := SortBy(fns[1..], ByStartEnd);
      SortOverlap(fns[1..]);
      InsertOverlap(fns[0], rest);
      hide NoneOverlap;
      SortByMembers(fns[1..], ByStartEnd);
      NoneOverlapFirst(fns);
    }
  }

  lemma {:induction false} KeptOverlap(fns: seq<FunctionRange>, total: Option<int>)
    ensures NoneOverlap(Kept(fns, total)) <==> InputsApart(fns, total)
  {
    if fns != [] {
      var rest := fns[1..];
      KeptOverlap(rest, total);
      InputsApartFirst(fns, total);
      if Survives(fns[0], total) {
        var kept := Kept(fns, total);
        assert kept[0] == Clipped(fns[0], total) && kept[1..] == Kept(rest, total);
        NoneOverlapFirst(kept);
        forall y
          ensures y in Kept(rest, total) <==> exists fn :: fn in rest && ClipsTo(fn, total, y)
        {
          KeptMembers(rest, total, y);
        }
        forall fn | fn in rest && Survives(fn, total)
          ensures ClipsTo(fn, total, Clipped(fn, total)) && Clipped(fn, total) in Kept(rest, total)
        {
        }
      } else {
        assert Kept(fns, total) == Kept(rest, total);
      }
    }
  }

  lemma InputsApartFirst(fns: seq<FunctionRange>, total: Option<int>)
    requires fns != []
    ensures InputsApart(fns, total) <==>
              && InputsApart(fns[1..], total)
              && (Survives(fns[0], total) ==>
                    forall fn :: fn in fns[1..] && Survives(fn, total) ==> Apart(Clipped(fns[0], total), Clipped(fn, total)))
  {
    assert forall j :: 0 < j < |fns| ==> fns[j] == fns[1..][j - 1] && fns[j] in fns[1..];
    assert forall i, j :: 0 <= i < j < |fns[1..]| ==> fns[1..][i] == fns[i + 1] && fns[1..][j] == fns[j + 1];
  }

  /** Sanitising does not separate overlapping functions: the result is pairwise disjoint exactly
      if no two surviving inputs overlap inside the file. */
  lemma SanitizedAreDisjoint(fns: seq<FunctionRange>, total: int)
    requires total > 0
    ensures PairwiseDisjoint(Sanitized(fns, Some(total))) <==> InputsApart(fns, Some(total))
  {
    var kept := Kept(fns, Some(total));
    var r := Sanitized(fns, Some(total));
    KeptOverlap(fns, Some(total));
    SortOverlap(kept);
    SanitizedRanges(fns, total);
    forall i, j | 0 <= i < j < |r|
      ensures r[i].end < r[j].start <==> Apart(r[i], r[j])
    {
      assert r[i] in r && r[j] in r;
    }
  }

  /** Two overlapping functions: both survive, still overlapping. */
  lemma OverlapSurvives()
    ensures var fns := [FunctionRange(1, 10), FunctionRange(5, 15)];
      Sanitized(fns, Some(20)) == fns && !PairwiseDisjoint(fns)
  {
    var fns := [FunctionRange(1, 10), FunctionRange(5, 15)];
    assert fns[1..] == [FunctionRange(5, 15)] && fns[1..][1..] == [];
    assert Kept(fns[1..], Some(20)) == [FunctionRange(5, 15)];
    assert Kept(fns, Some(20)) == fns;
    SortedIsFixpoint(fns, ByStartEnd);
    assert fns[0].end >= fns[1].start;
  }

  /** Python's `bisect_right` on the start lines. */
  function BisectRight(fns: seq<FunctionRange>, line: int): (idx: nat)
    requires SortedByStart(fns)
    ensures idx <= |fns|
    ensures forall k :: 0 <= k < idx ==> fns[k].start <= line
    ensures forall k :: idx <= k < |fns| ==> fns[k].start > line
  {
    if fns == [] then 0
    else if fns[|fns| - 1].start <= line then |fns|
    else BisectRight(fns[..|fns| - 1], line)
  }

  function FindFunctionContainingLine(line: int, fns: seq<FunctionRange>): (r: Option<FunctionRange>)
    requires SortedByStart(fns)
    ensures r.Some? ==> r.value in fns && r.value.Contains(line)
    ensures forall k :: 0 <= k < |fns| && fns[k].start <= line && (k + 1 < |fns| ==> fns[k + 1].start > line) ==>
              r == if fns[k].Contains(line) then Some(fns[k]) else None
    ensures (forall k :: 0 <= k < |fns| ==> fns[k].start > line) ==> r == None
  {
    var idx := BisectRight(fns, line);
    if idx == 0 then None
    else if fns[idx - 1].Contains(line) then Some(fns[idx - 1])
    else None
  }

  /** The two-pointer sweep over ascending lines (build_code_regions and the
      function-name pass of the parser) finds what the bisect lookup finds, for every
      sorted list of ranges, overlapping or not. */
  method SweepFunctions(lines: seq<int>, fns: seq<FunctionRange>) returns (matched: seq<Option<FunctionRange>>)
    requires forall i, j :: 0 <= i < j < |lines| ==> lines[i] <= lines[j]
    requires SortedByStart(fns)
    ensures |matched| == |lines|
    ensures forall i :: 0 <= i < |lines| ==> matched[i] == FindFunctionContainingLine(lines[i], fns)
  {
    matched := [];
    var fnIdx := 0;
    for i := 0 to |lines|
      invariant |matched| == i
      invariant 0 <= fnIdx && (fns != [] ==> fnIdx < |fns|)
      invariant fnIdx > 0 ==> i > 0 && fns != [] && fns[fnIdx].start <= lines[i - 1]
      invariant forall k :: 0 <= k < i ==> matched[k] == FindFunctionContainingLine(lines[k], fns)
    {
      while fnIdx + 1 < |fns| && fns[fnIdx + 1].start <= lines[i]
        invariant 0 <= fnIdx && (fns != [] ==> fnIdx < |fns|)
        invariant fnIdx > 0 ==> fns != [] && fns[fnIdx].start <= lines[i]
      {
        fnIdx := fnIdx + 1;
      }
      var found: Option<FunctionRange> := None;
      if |fns| > 0 {
        if fns[fnIdx].Contains(lines[i]) {
          found := Some(fns[fnIdx]);
        }
        assert fns[fnIdx].start <= lines[i] ==> BisectRight(fns, lines[i]) == fnIdx + 1;
      }
      matched := matched + [found];
    }
  }

  /** On ordered, disjoint ranges the lookup returns the one range that contains
      the line, and nothing exactly when no range does. */
  lemma LookupFindsTheUniqueFunction(line: int, fns: seq<FunctionRange>)
    requires PairwiseDisjoint(fns)
    requires forall i :: 0 <= i < |fns| ==> fns[i].start <= fns[i].end
    ensures SortedByStart(fns)
    ensures forall f :: FindFunctionContainingLine(line, fns) == Some(f) <==> f in fns && f.Contains(line)
    ensures FindFunctionContainingLine(line, fns).None? <==> forall f :: f in fns ==> !f.Contains(line)
    ensures forall i, j :: 0 <= i < |fns| && 0 <= j < |fns| && fns[i].Contains(line) && fns[j].Contains(line) ==> i == j
  {
    assert SortedByStart(fns) by {
      forall i, j | 0 <= i < j < |fns|
        ensures fns[i].start <= fns[j].start
      {
        assert fns[i].end < fns[j].start;
      }
    }
    var idx: int := BisectRight(fns, line);
    assert forall k: int :: 0 <= k < idx - 1 ==> fns[k].end < fns[idx - 1].start;
  }
}
