/** The region layout of app/code_detail/code_region.py: pending lines become expanded
    ranges, close ranges are merged, and the rest of the file is collapsed. */
module CodeRegions {
  import opened Options
  import opened Sorting
  import opened FunctionLookup

  datatype Range = Range(start: int, end: int) {
    predicate Contains(x: int) {
      start <= x <= end
    }
  }

  datatype State = Expanded | Collapsed
  datatype Region = Region(start: int, end: int, state: State)

  predicate ByRange(a: Range, b: Range) {
    a.start < b.start || (a.start == b.start && a.end <= b.end)
  }

  // ---------------------------------------------------------------- what a layout is

  /** The regions cover 1..total exactly once, in order. */
  ghost predicate Tiles(regions: seq<Region>, total: int) {
    && regions != []
    && regions[0].start == 1
    && regions[|regions| - 1].end == total
    && (forall i :: 0 <= i < |regions| ==> regions[i].start <= regions[i].end)
    && (forall i :: 0 <= i < |regions| - 1 ==> regions[i + 1].start == regions[i].end + 1)
  }

  ghost predicate Alternates(regions: seq<Region>) {
    forall i :: 0 <= i < |regions| - 1 ==> regions[i].state != regions[i + 1].state
  }

  ghost predicate InExpanded(regions: seq<Region>, x: int) {
    exists i :: 0 <= i < |regions| && regions[i].state.Expanded? && regions[i].start <= x <= regions[i].end
  }

  /** What one pending line asks to see: its function, or its neighbourhood. */
  function RawRange(line: int, fns: seq<FunctionRange>, total: int, context: nat): (r: Range)
    requires SortedByStart(fns)
    ensures 1 <= line <= total ==> r.Contains(line)
    ensures 1 <= line <= total && (forall f :: f in fns ==> 1 <= f.start <= f.end <= total) ==>
              1 <= r.start <= r.end <= total
  {
    match FindFunctionContainingLine(line, fns)
    case Some(fn) => Range(fn.start, fn.end)
    case None =>
      Range(if line - context < 1 then 1 else line - context,
            if total < line + context then total else line + context)
  }

  /** Pending line `line` asks to see x: as a line of its own function, or, if it lies in none, as a
      line of the file at most `context` lines away. */
  ghost predicate AsksFor(line: int, functions: seq<FunctionRange>, total: int, context: nat, x: int)
    requires SortedByStart(functions)
  {
    match FindFunctionContainingLine(line, functions)
    case Some(fn) => fn.start <= x <= fn.end
    case None => 1 <= x <= total && line - context <= x <= line + context
  }

  lemma RawRangeIsAsked(line: int, functions: seq<FunctionRange>, total: int, context: nat, x: int)
    requires SortedByStart(functions)
    ensures RawRange(line, functions, total, context).Contains(x) <==> AsksFor(line, functions, total, context, x)
  {
  }

  /** The lines some pending line asks to see, stated on the set of pending lines. */
  ghost function Wanted(total: int, pending: iset<int>, fns: seq<FunctionRange>, context: nat): iset<int>
    requires total > 0
    ensures SortedByStart(Sanitized(fns, Some(total)))
  {
    SanitizedRanges(fns, total);
    iset x | WantedBy(total, pending, Sanitized(fns, Some(total)), context, x)
  }

  ghost predicate WantedBy(total: int, pending: iset<int>, functions: seq<FunctionRange>, context: nat, x: int)
    requires SortedByStart(functions)
  {
    exists l :: l in pending && 1 <= l <= total && AsksFor(l, functions, total, context, x)
  }

  /** `a` and `b` are the nearest members of `lines` around `x`, at most `gap` lines apart. */
  ghost predicate Bridges(lines: iset<int>, gap: nat, a: int, x: int, b: int) {
    && a < x < b
    && a in lines && b in lines
    && (forall y :: a < y < b ==> y !in lines)
    && b - a - 1 <= gap
  }

  ghost predicate GapClosed(lines: iset<int>, gap: nat, x: int) {
    x in lines || exists a, b :: Bridges(lines, gap, a, x, b)
  }

  // ---------------------------------------------------------------- merging

  ghost predicate InSome(ranges: seq<Range>, x: int) {
    exists i :: 0 <= i < |ranges| && ranges[i].Contains(x)
  }

  ghost function Covered(raw: seq<Range>): iset<int> {
    iset x | InSome(raw, x)
  }

  ghost predicate Separated(merged: seq<Range>, gap: nat) {
    && (forall i :: 0 <= i < |merged| ==> merged[i].start <= merged[i].end)
    && (forall i, j :: 0 <= i < j < |merged| ==> merged[j].start - merged[i].end - 1 > gap)
  }

  /** A line is covered, or bridged before `bound`. */
  ghost predicate Reached(lines: iset<int>, gap: nat, bound: int, x: int) {
    x in lines || exists a, b :: Bridges(lines, gap, a, x, b) && b <= bound
  }

  function Last(s: seq<Range>): Range
    requires s != []
  {
    s[|s| - 1]
  }

  ghost predicate CoversAll(merged: seq<Range>, lines: iset<int>) {
    forall x {:trigger InSome(merged, x)} :: x in lines ==> InSome(merged, x)
  }

  ghost predicate EndsIn(merged: seq<Range>, lines: iset<int>) {
    forall i :: 0 <= i < |merged| ==> merged[i].start in lines && merged[i].end in lines
  }

  ghost predicate AllReached(merged: seq<Range>, lines: iset<int>, gap: nat, bound: int) {
    forall x {:trigger Reached(lines, gap, bound, x)} :: InSome(merged, x) ==> Reached(lines, gap, bound, x)
  }

  ghost predicate MergeInvariant(raw: seq<Range>, lines: iset<int>, merged: seq<Range>, gap: nat) {
    && (raw == [] <==> merged == [])
    && Separated(merged, gap)
    && CoversAll(merged, lines)
    && EndsIn(merged, lines)
    && (raw != [] ==> Last(merged).start <= Last(raw).start && AllReached(merged, lines, gap, Last(raw).start))
  }

  function MergeStep(merged: seq<Range>, cur: Range, gap: nat): seq<Range> {
    if merged == [] then [cur]
    else if cur.start - Last(merged).end - 1 <= gap then
      merged[|merged| - 1 := Range(Last(merged).start, if Last(merged).end < cur.end then cur.end else Last(merged).end)]
    else
      merged + [cur]
  }

  lemma InSomeAppend(s: seq<Range>, cur: Range, x: int)
    ensures InSome(s + [cur], x) <==> InSome(s, x) || cur.Contains(x)
  {
    var all := s + [cur];
    assert all[|s|] == cur;
    assert forall k :: 0 <= k < |s| ==> all[k] == s[k];
  }

  lemma LastIsLargest(merged: seq<Range>, gap: nat, x: int)
    requires Separated(merged, gap) && InSome(merged, x)
    ensures merged != [] && x <= Last(merged).end
  {
    var i :| 0 <= i < |merged| && merged[i].Contains(x);
    assert i < |merged| - 1 ==> Last(merged).start - merged[i].end - 1 > gap;
  }

  /** Merging adds the new range and, when it is close, the lines up to it. */
  lemma MergeStepMembers(merged: seq<Range>, cur: Range, gap: nat, x: int)
    requires Separated(merged, gap) && cur.start <= cur.end
    requires merged != [] ==> Last(merged).start <= cur.start
    ensures InSome(MergeStep(merged, cur, gap), x) <==>
              || InSome(merged, x)
              || cur.Contains(x)
              || (merged != [] && cur.start - Last(merged).end - 1 <= gap && Last(merged).end < x < cur.start)
  {
    if merged != [] && cur.start - Last(merged).end - 1 <= gap {
      var front, next := merged[..|merged| - 1], MergeStep(merged, cur, gap);
      assert merged == front + [Last(merged)];
      InSomeAppend(front, Last(merged), x);
      assert next == front + [Last(next)];
      InSomeAppend(front, Last(next), x);
    } else {
      assert merged == [] ==> [] + [cur] == [cur];
      InSomeAppend(merged, cur, x);
    }
  }

  lemma MergeStepSeparated(merged: seq<Range>, cur: Range, gap: nat)
    requires Separated(merged, gap) && cur.start <= cur.end
    requires merged != [] ==> Last(merged).start <= cur.start
    ensures Separated(MergeStep(merged, cur, gap), gap)
  {
    var next := MergeStep(merged, cur, gap);
    forall i, j | 0 <= i < j < |next|
      ensures next[j].start - next[i].end - 1 > gap
    {
      if j == |merged| && i < |merged| - 1 {
        assert merged[|merged| - 1].start - merged[i].end - 1 > gap;
      }
    }
  }

  lemma MergeStepReaches(raw: seq<Range>, lines: iset<int>, merged: seq<Range>, cur: Range, gap: nat,
                         after: iset<int>, x: int)
    requires MergeInvariant(raw, lines, merged, gap)
    requires cur.start <= cur.end
    requires raw != [] ==> Last(raw).start <= cur.start
    requires forall y :: y in after <==> y in lines || cur.Contains(y)
    requires InSome(MergeStep(merged, cur, gap), x)
    ensures Reached(after, gap, cur.start, x)
  {
    MergeStepMembers(merged, cur, gap, x);
    if InSome(merged, x) {
      assert Reached(lines, gap, Last(raw).start, x);
      if x !in lines {
        var a, b :| Bridges(lines, gap, a, x, b) && b <= Last(raw).start;
        assert Bridges(after, gap, a, x, b);
      }
    } else if x !in after {
      var a := Last(merged).end;
      forall y | a < y < cur.start
        ensures y !in after
      {
        if y in lines {
          assert InSome(merged, y);
          LastIsLargest(merged, gap, y);
        }
      }
      assert Bridges(after, gap, a, x, cur.start);
    }
  }

  lemma MergeStepKeepsInvariant(raw: seq<Range>, lines: iset<int>, merged: seq<Range>, cur: Range, gap: nat,
                                after: iset<int>)
    requires MergeInvariant(raw, lines, merged, gap)
    requires cur.start <= cur.end
    requires raw != [] ==> Last(raw).start <= cur.start
    requires forall y :: y in after <==> y in lines || cur.Contains(y)
    ensures MergeInvariant(raw + [cur], after, MergeStep(merged, cur, gap), gap)
  {
    var next := MergeStep(merged, cur, gap);
    MergeStepSeparated(merged, cur, gap);
    assert CoversAll(next, after) by {
      forall x | x in after
        ensures InSome(next, x)
      {
        assert x in lines ==> InSome(merged, x);
        MergeStepMembers(merged, cur, gap, x);
      }
    }
    assert AllReached(next, after, gap, cur.start) by {
      forall x | InSome(next, x)
        ensures Reached(after, gap, cur.start, x)
      {
        MergeStepReaches(raw, lines, merged, cur, gap, after, x);
      }
    }
    assert EndsIn(next, after);
    assert Last(raw + [cur]) == cur;
  }

  /** A bridge never spans two merged ranges. */
  lemma BridgeStaysInside(raw: seq<Range>, lines: iset<int>, merged: seq<Range>, gap: nat, a: int, x: int, b: int)
    requires MergeInvariant(raw, lines, merged, gap)
    requires Bridges(lines, gap, a, x, b)
    ensures InSome(merged, x)
  {
    assert InSome(merged, a) && InSome(merged, b);
    var i :| 0 <= i < |merged| && merged[i].Contains(a);
    var j :| 0 <= j < |merged| && merged[j].Contains(b);
    assert i == j;
    assert merged[i].Contains(x);
  }

  /** Merging is gap closure: a line lies in a merged range iff a raw range holds it, or
      its nearest covered lines on both sides are at most `gap` lines apart. */
  lemma MergedIsGapClosure(raw: seq<Range>, lines: iset<int>, merged: seq<Range>, gap: nat)
    requires MergeInvariant(raw, lines, merged, gap)
    ensures forall x :: InSome(merged, x) <==> GapClosed(lines, gap, x)
  {
    forall x
      ensures InSome(merged, x) <==> GapClosed(lines, gap, x)
    {
      if InSome(merged, x) {
        assert Reached(lines, gap, Last(raw).start, x);
      }
      if GapClosed(lines, gap, x) && x !in lines {
        var a, b :| Bridges(lines, gap, a, x, b);
        BridgeStaysInside(raw, lines, merged, gap, a, x, b);
      }
    }
  }

  ghost predicate SortedRanges(raw: seq<Range>) {
    && (forall i :: 0 <= i < |raw| ==> raw[i].start <= raw[i].end)
    && (forall i, j :: 0 <= i < j < |raw| ==> raw[i].start <= raw[j].start)
  }

  /** Merging one range after another. */
  function MergeAll(raw: seq<Range>, gap: nat): (merged: seq<Range>) {
    if raw == [] then [] else MergeStep(MergeAll(raw[..|raw| - 1], gap), raw[|raw| - 1], gap)
  }

  lemma {:induction false} MergeAllInvariant(raw: seq<Range>, gap: nat)
    requires SortedRanges(raw)
    ensures MergeInvariant(raw, Covered(raw), MergeAll(raw, gap), gap)
  {
    if raw != [] {
      var front, cur := raw[..|raw| - 1], raw[|raw| - 1];
      assert raw == front + [cur];
      assert front != [] ==> Last(front) == raw[|raw| - 2];
      MergeAllInvariant(front, gap);
      forall y
        ensures y in Covered(raw) <==> y in Covered(front) || cur.Contains(y)
      {
        InSomeAppend(front, cur, y);
      }
      MergeStepKeepsInvariant(front, Covered(front), MergeAll(front, gap), cur, gap, Covered(raw));
    }
  }

  /** What merging sorted ranges yields: ordered ranges more than `gap` lines apart, holding
      the gap closure of the input lines and beginning and ending on input lines. */
  lemma MergedRanges(raw: seq<Range>, gap: nat)
    requires SortedRanges(raw)
    ensures Separated(MergeAll(raw, gap), gap)
    ensures forall x :: InSome(MergeAll(raw, gap), x) <==> GapClosed(Covered(raw), gap, x)
    ensures forall m :: m in MergeAll(raw, gap) ==> InSome(raw, m.start) && InSome(raw, m.end)
    ensures raw != [] ==> MergeAll(raw, gap) != []
  {
    MergeAllInvariant(raw, gap);
    MergedIsGapClosure(raw, Covered(raw), MergeAll(raw, gap), gap);
  }

  method MergeClose(raw: seq<Range>, gap: nat) returns (merged: seq<Range>)
    ensures merged == MergeAll(raw, gap)
  {
    merged := [];
    for k := 0 to |raw|
      invariant merged == MergeAll(raw[..k], gap)
    {
      assert raw[..k + 1][..k] == raw[..k];
      if merged == [] {
        merged := [raw[k]];
      } else {
        var prev := merged[|merged| - 1];
        if raw[k].start - prev.end - 1 <= gap {
          var newEnd := if prev.end < raw[k].end then raw[k].end else prev.end;
          merged := merged[|merged| - 1 := Range(prev.start, newEnd)];
        } else {
          merged := merged + [raw[k]];
        }
      }
    }
    assert raw[..|raw|] == raw;
  }

  // ---------------------------------------------------------------- tiling

  /** The regions built so far end just before `cursor`. */
  ghost predicate TilesUpTo(regions: seq<Region>, cursor: int) {
    && (regions == [] ==> cursor == 1)
    && (regions != [] ==> Tiles(regions, cursor - 1))
  }

  /** The layout of the lines before `cursor`, just after an expanded region. */
  ghost predicate FillInvariant(regions: seq<Region>, cursor: int, gap: nat) {
    && TilesUpTo(regions, cursor)
    && Alternates(regions)
    && (regions != [] ==> regions[|regions| - 1].state.Expanded?)
    && WideGaps(regions, gap)
  }

  ghost predicate WideGaps(regions: seq<Region>, gap: nat) {
    forall i :: 0 < i < |regions| && regions[i].state.Collapsed? ==> regions[i].end - regions[i].start + 1 > gap
  }

  lemma FillStep(regions: seq<Region>, cursor: int, gap: nat, exp: Range, middle: seq<Region>)
    requires FillInvariant(regions, cursor, gap)
    requires cursor <= exp.start <= exp.end
    requires regions != [] ==> exp.start - cursor > gap
    requires middle == if cursor < exp.start then regions + [Region(cursor, exp.start - 1, Collapsed)] else regions
    ensures FillInvariant(middle + [Region(exp.start, exp.end, Expanded)], exp.end + 1, gap)
  {
  }

  lemma FillStepMembers(regions: seq<Region>, middle: seq<Region>, exp: Range, x: int)
    requires middle == regions
          || (|middle| == |regions| + 1 && middle[..|regions|] == regions && middle[|regions|].state.Collapsed?)
    ensures InExpanded(middle, x) <==> InExpanded(regions, x)
    ensures InExpanded(middle + [Region(exp.start, exp.end, Expanded)], x) <==> InExpanded(regions, x) || exp.Contains(x)
  {
    assert forall i :: 0 <= i < |regions| ==> middle[i] == regions[i];
    var after := middle + [Region(exp.start, exp.end, Expanded)];
    assert after[|middle|] == Region(exp.start, exp.end, Expanded);
    assert forall i :: 0 <= i < |middle| ==> after[i] == middle[i];
  }

  /** Fills the lines between expanded ranges with collapsed regions. */
  method FillCollapsed(merged: seq<Range>, total: int, gap: nat) returns (regions: seq<Region>)
    requires total > 0
    requires Separated(merged, gap)
    requires merged != [] && 1 <= merged[0].start && merged[|merged| - 1].end <= total
    ensures Tiles(regions, total) && Alternates(regions)
    ensures forall x :: InExpanded(regions, x) <==> InSome(merged, x)
    ensures forall i :: 0 < i < |regions| - 1 && regions[i].state.Collapsed? ==>
              regions[i].end - regions[i].start + 1 > gap
  {
    regions := [];
    var cursor := 1;
    for k := 0 to |merged|
      invariant FillInvariant(regions, cursor, gap)
      invariant k == 0 <==> regions == []
      invariant k > 0 ==> cursor == merged[k - 1].end + 1
      invariant forall x :: InExpanded(regions, x) <==> InSome(merged[..k], x)
    {
      ghost var before, beforeCursor := regions, cursor;
      var exp := merged[k];
      if exp.start > cursor {
        regions := regions + [Region(cursor, exp.start - 1, Collapsed)];
      }
      ghost var middle := regions;
      regions := regions + [Region(exp.start, exp.end, Expanded)];
      cursor := exp.end + 1;
      FillStep(before, beforeCursor, gap, exp, middle);
      assert merged[..k + 1] == merged[..k] + [exp];
      forall x
        ensures InExpanded(regions, x) <==> InSome(merged[..k + 1], x)
      {
        FillStepMembers(before, middle, exp, x);
        InSomeAppend(merged[..k], exp, x);
      }
    }
    assert merged[..|merged|] == merged;
    if cursor <= total {
      ghost var before := regions;
      regions := regions + [Region(cursor, total, Collapsed)];
      forall x
        ensures InExpanded(regions, x) <==> InExpanded(before, x)
      {
        FillStepMembers(before, regions, merged[0], x);
      }
    }
  }

  // ---------------------------------------------------------------- the builder

  ghost function ElementsOf(s: seq<int>): iset<int> {
    iset x | x in s
  }

  function ValidPending(pending: seq<int>, total: int): (r: seq<int>)
    ensures StrictlyIncreasing(r)
    ensures forall x :: x in r <==> x in pending && 1 <= x <= total
  {
    SortedSet(InFile(pending, total))
  }

  function InFile(pending: seq<int>, total: int): (r: seq<int>)
    ensures forall x :: x in r <==> x in pending && 1 <= x <= total
  {
    if pending == [] then [] else
      (if 1 <= pending[0] <= total then [pending[0]] else []) + InFile(pending[1..], total)
  }

  /** build_code_regions: for every input the result tiles the file, alternates, and its
      expanded lines are exactly the gap closure of the lines that pending lines want. */
  method BuildCodeRegions(total: int, pending: seq<int>, fns: seq<FunctionRange>, context: nat, gap: nat)
    returns (regions: seq<Region>)
    ensures total <= 0 ==> regions == []
    ensures total > 0 ==> IsLayout(regions, total, ElementsOf(pending), fns, context, gap)
    ensures total > 0 ==> ShowsWhatIsAsked(regions, total, pending, fns, context)
    ensures forall i :: 0 < i < |regions| - 1 && regions[i].state.Collapsed? ==>
              regions[i].end - regions[i].start + 1 > gap
  {
    if total <= 0 {
      return [];
    }
    var valid := ValidPending(pending, total);
    if valid == [] {
      regions := [Region(1, total, Collapsed)];
      NothingWanted(total, pending, fns, context, gap);
      LayoutShowsWhatIsAsked(regions, total, pending, fns, context, gap);
      return;
    }
    var functions := SanitizeFunctionRanges(fns, Some(total));
    SanitizedRanges(fns, total);
    var raw := MapPendingLines(valid, functions, total, context);
    RawRangesCover(total, pending, fns, context, raw);
    SortedRawRanges(raw);
    var sorted := SortBy(raw, ByRange);
    MergedRanges(sorted, gap);
    var merged := MergeClose(sorted, gap);
    WithinFile(sorted, merged, total);
    regions := FillCollapsed(merged, total, gap);
    LayoutShowsWhatIsAsked(regions, total, pending, fns, context, gap);
  }

  /** Every line that a pending line of the file asks for is expanded. */
  ghost predicate ShowsWhatIsAsked(regions: seq<Region>, total: int, pending: seq<int>, fns: seq<FunctionRange>, context: nat) {
    var functions := Sanitized(fns, Some(total));
    SortedByStart(functions) &&
    forall l, x :: l in pending && 1 <= l <= total && AsksFor(l, functions, total, context, x) ==> InExpanded(regions, x)
  }

  lemma LayoutShowsWhatIsAsked(regions: seq<Region>, total: int, pending: seq<int>, fns: seq<FunctionRange>,
                               context: nat, gap: nat)
    requires total > 0 && IsLayout(regions, total, ElementsOf(pending), fns, context, gap)
    ensures ShowsWhatIsAsked(regions, total, pending, fns, context)
  {
    hide AsksFor, Tiles, Alternates, Sanitized;
    SanitizedRanges(fns, total);
    forall l, x | l in pending && 1 <= l <= total && AsksFor(l, Sanitized(fns, Some(total)), total, context, x)
      ensures InExpanded(regions, x)
    {
      assert l in ElementsOf(pending);
      assert x in Wanted(total, ElementsOf(pending), fns, context);
    }
  }

  lemma WithinFile(sorted: seq<Range>, merged: seq<Range>, total: int)
    requires forall r :: r in sorted ==> 1 <= r.start <= r.end <= total
    requires forall m :: m in merged ==> InSome(sorted, m.start) && InSome(sorted, m.end)
    ensures merged != [] ==> 1 <= merged[0].start && Last(merged).end <= total
  {
    if merged != [] {
      assert InSome(sorted, merged[0].start) && InSome(sorted, Last(merged).end);
    }
  }

  method MapPendingLines(valid: seq<int>, functions: seq<FunctionRange>, total: int, context: nat)
    returns (raw: seq<Range>)
    requires StrictlyIncreasing(valid) && SortedByStart(functions)
    ensures RawOf(raw, valid, functions, total, context)
    ensures forall i, x {:trigger raw[i].Contains(x)} :: 0 <= i < |raw| ==>
              (raw[i].Contains(x) <==> AsksFor(valid[i], functions, total, context, x))
  {
    var matched := SweepFunctions(valid, functions);
    raw := [];
    for i := 0 to |valid|
      invariant |raw| == i
      invariant forall k :: 0 <= k < i ==> raw[k] == RawRange(valid[k], functions, total, context)
    {
      match matched[i] {
        case Some(fn) =>
          raw := raw + [Range(fn.start, fn.end)];
        case None =>
          var first := if valid[i] - context < 1 then 1 else valid[i] - context;
          var last := if total < valid[i] + context then total else valid[i] + context;
          raw := raw + [Range(first, last)];
      }
    }
  }

  ghost predicate IsLayout(regions: seq<Region>, total: int, pending: iset<int>, fns: seq<FunctionRange>,
                           context: nat, gap: nat)
    requires total > 0
  {
    && Tiles(regions, total)
    && Alternates(regions)
    && forall x :: InExpanded(regions, x) <==> GapClosed(Wanted(total, pending, fns, context), gap, x)
  }

  lemma NothingWanted(total: int, pending: seq<int>, fns: seq<FunctionRange>, context: nat, gap: nat)
    requires total > 0 && ValidPending(pending, total) == []
    ensures IsLayout([Region(1, total, Collapsed)], total, ElementsOf(pending), fns, context, gap)
  {
    assert forall l :: l in pending && 1 <= l <= total <==> l in ValidPending(pending, total);
    assert Wanted(total, ElementsOf(pending), fns, context) == iset{};
  }

  ghost predicate RawOf(raw: seq<Range>, valid: seq<int>, functions: seq<FunctionRange>, total: int, context: nat)
    requires SortedByStart(functions)
  {
    && |raw| == |valid|
    && forall k :: 0 <= k < |raw| ==> raw[k] == RawRange(valid[k], functions, total, context)
  }

  lemma RawRangeCoverLine(total: int, pending: seq<int>, functions: seq<FunctionRange>, context: nat,
                          raw: seq<Range>, x: int)
    requires SortedByStart(functions)
    requires RawOf(raw, ValidPending(pending, total), functions, total, context)
    ensures InSome(raw, x) <==> WantedBy(total, ElementsOf(pending), functions, context, x)
  {
    var valid := ValidPending(pending, total);
    if InSome(raw, x) {
      var k :| 0 <= k < |raw| && raw[k].Contains(x);
      assert valid[k] in valid;
      assert valid[k] in ElementsOf(pending);
      RawRangeIsAsked(valid[k], functions, total, context, x);
    }
    if WantedBy(total, ElementsOf(pending), functions, context, x) {
      var l :| l in ElementsOf(pending) && 1 <= l <= total && AsksFor(l, functions, total, context, x);
      RawRangeIsAsked(l, functions, total, context, x);
      assert l in valid;
      var k :| 0 <= k < |valid| && valid[k] == l;
      assert raw[k].Contains(x);
    }
  }

  lemma SortedRawRanges(raw: seq<Range>)
    ensures forall x :: InSome(SortBy(raw, ByRange), x) <==> InSome(raw, x)
    ensures forall i, j :: 0 <= i < j < |raw| ==> SortBy(raw, ByRange)[i].start <= SortBy(raw, ByRange)[j].start
    ensures forall r :: r in SortBy(raw, ByRange) <==> r in raw
  {
    var sorted := SortBy(raw, ByRange);
    assert SortedBy(sorted, ByRange) by { SortByIsSorted(raw, ByRange); }
    SortByMembers(raw, ByRange);
    forall x
      ensures InSome(sorted, x) <==> InSome(raw, x)
    {
      assert InSome(sorted, x) <==> exists r :: r in sorted && r.Contains(x);
      assert InSome(raw, x) <==> exists r :: r in raw && r.Contains(x);
    }
  }

  lemma RawRangesInFile(total: int, pending: seq<int>, fns: seq<FunctionRange>, context: nat, raw: seq<Range>)
    requires total > 0
    requires SortedByStart(Sanitized(fns, Some(total)))
    requires RawOf(raw, ValidPending(pending, total), Sanitized(fns, Some(total)), total, context)
    ensures forall r :: r in raw ==> 1 <= r.start <= r.end <= total
  {
    SanitizedRanges(fns, total);
    var valid := ValidPending(pending, total);
    forall r | r in raw
      ensures 1 <= r.start <= r.end <= total
    {
      var k :| 0 <= k < |raw| && raw[k] == r;
      assert valid[k] in valid;
    }
  }

  lemma RawRangesCover(total: int, pending: seq<int>, fns: seq<FunctionRange>, context: nat, raw: seq<Range>)
    requires total > 0
    requires SortedByStart(Sanitized(fns, Some(total)))
    requires RawOf(raw, ValidPending(pending, total), Sanitized(fns, Some(total)), total, context)
    ensures Covered(SortBy(raw, ByRange)) == Wanted(total, ElementsOf(pending), fns, context)
    ensures forall r :: r in SortBy(raw, ByRange) ==> 1 <= r.start <= r.end <= total
  {
    hide RawRange, SortBy;
    SortedRawRanges(raw);
    RawRangesInFile(total, pending, fns, context, raw);
    var functions := Sanitized(fns, Some(total));
    forall x
      ensures x in Covered(SortBy(raw, ByRange)) <==> x in Wanted(total, ElementsOf(pending), fns, context)
    {
      RawRangeCoverLine(total, pending, functions, context, raw, x);
    }
  }

  // ---------------------------------------------------------------- consequences

  /** Every pending line of the file is shown in an expanded region. */
  lemma PendingLinesAreExpanded(regions: seq<Region>, total: int, pending: iset<int>, fns: seq<FunctionRange>,
                                context: nat, gap: nat, line: int)
    requires total > 0 && IsLayout(regions, total, pending, fns, context, gap)
    requires line in pending && 1 <= line <= total
    ensures InExpanded(regions, line)
  {
    SanitizedRanges(fns, total);
    assert AsksFor(line, Sanitized(fns, Some(total)), total, context, line);
    assert line in Wanted(total, pending, fns, context);
  }

  lemma {:induction false} PrefixDetermined(a: seq<Region>, b: seq<Region>, total: int, k: nat)
    requires Tiles(a, total) && Tiles(b, total) && Alternates(a) && Alternates(b)
    requires forall x :: InExpanded(a, x) <==> InExpanded(b, x)
    requires k <= |a| && k <= |b|
    ensures a[..k] == b[..k]
  {
    if k > 0 {
      PrefixDetermined(a, b, total, k - 1);
      var i := k - 1;
      if i > 0 {
        assert a[i - 1] == a[..i][i - 1] == b[..i][i - 1] == b[i - 1];
      }
      assert a[i].start == b[i].start;
      StateAt(a, total, i, a[i].start);
      StateAt(b, total, i, b[i].start);
      EndNotBefore(a, b, total, i);
      EndNotBefore(b, a, total, i);
      assert a[..k] == a[..i] + [a[i]] && b[..k] == b[..i] + [b[i]];
    }
  }

  lemma {:induction false} Ordered(a: seq<Region>, total: int, i: nat, j: nat)
    requires Tiles(a, total) && i < j < |a|
    ensures a[i].end < a[j].start
    decreases j
  {
    if i < j - 1 {
      Ordered(a, total, i, j - 1);
    }
    assert a[(j - 1) + 1].start == a[j - 1].end + 1;
  }

  /** In a tiling, the state of a line is the state of the region that holds it. */
  lemma StateAt(a: seq<Region>, total: int, i: nat, x: int)
    requires Tiles(a, total) && i < |a| && a[i].start <= x <= a[i].end
    ensures InExpanded(a, x) <==> a[i].state.Expanded?
  {
    if InExpanded(a, x) {
      var j :| 0 <= j < |a| && a[j].state.Expanded? && a[j].start <= x <= a[j].end;
      if i < j {
        Ordered(a, total, i, j);
      } else if j < i {
        Ordered(a, total, j, i);
      }
    }
  }

  lemma EndNotBefore(a: seq<Region>, b: seq<Region>, total: int, i: nat)
    requires Tiles(a, total) && Tiles(b, total) && Alternates(a)
    requires forall x :: InExpanded(a, x) <==> InExpanded(b, x)
    requires i < |a| && i < |b| && a[i].start == b[i].start && a[i].state == b[i].state
    ensures a[i].end >= b[i].end
  {
    if a[i].end < b[i].end {
      if i + 1 < |a| {
        StateAt(a, total, i + 1, a[i + 1].start);
        StateAt(b, total, i, a[i + 1].start);
      } else if i < |b| - 1 {
        Ordered(b, total, i, |b| - 1);
      }
    }
  }

  /** The contract of the builder leaves no freedom: two layouts of the same pending-line
      set are the same list of regions.  In particular the order and the multiplicity of
      the pending lines do not matter. */
  lemma LayoutIsUnique(a: seq<Region>, b: seq<Region>, total: int, pending: iset<int>, fns: seq<FunctionRange>,
                       context: nat, gap: nat)
    requires total > 0
    requires IsLayout(a, total, pending, fns, context, gap)
    requires IsLayout(b, total, pending, fns, context, gap)
    ensures a == b
  {
    if |a| < |b| {
      PrefixDetermined(a, b, total, |a|);
      assert a[|a| - 1] == b[..|a|][|a| - 1];
      Ordered(b, total, |a| - 1, |b| - 1);
    } else if |b| < |a| {
      PrefixDetermined(a, b, total, |b|);
      assert b[|b| - 1] == a[..|b|][|b| - 1];
      Ordered(a, total, |b| - 1, |a| - 1);
    } else {
      PrefixDetermined(a, b, total, |a|);
      assert a[..|a|] == a && b[..|a|] == b;
    }
  }
}
