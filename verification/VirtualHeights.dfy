/** The variable-height index of a virtualised region and the window rendered from it
    (coverage_enhance.js, CodeRegionController).  Heights are reals. */
module VirtualHeights {
  import opened Sorting

  const VIRTUAL_OVERSCAN_LINES := 300
  const VIRTUAL_LINE_HEIGHT := 24.0

  /** A measured row; the measured rows are a map in insertion order, no index twice. */
  datatype Measured = Measured(index: nat, height: real)

  datatype Break = Break(index: nat, cumulativeDelta: real)

  function Max(a: real, b: real): real {
    if a < b then b else a
  }

  function Min(a: real, b: real): real {
    if a < b then a else b
  }

  /** The height of an unmeasured row. */
  function Base(lineHeight: real): (r: real)
    ensures r >= 16.0 && (lineHeight >= 16.0 ==> r == lineHeight)
    ensures lineHeight < 16.0 ==> r == if lineHeight == 0.0 then VIRTUAL_LINE_HEIGHT else 16.0
  {
    Max(16.0, if lineHeight == 0.0 then VIRTUAL_LINE_HEIGHT else lineHeight)
  }

  // ---------------------------------------------------------------- the plain sum

  ghost predicate OnePerIndex(rows: seq<Measured>) {
    forall i, j :: 0 <= i < j < |rows| ==> rows[i].index != rows[j].index
  }

  /** The measured height of a row, at least 1, or the base height. */
  function HeightAt(rows: seq<Measured>, base: real, index: nat): real {
    if rows == [] then base
    else if rows[0].index == index then Max(1.0, rows[0].height)
    else HeightAt(rows[1..], base, index)
  }

  /** The sum of the heights of rows first..k. */
  function Heights(rows: seq<Measured>, base: real, first: nat, k: nat): real
    decreases k
  {
    if k <= first then 0.0 else Heights(rows, base, first, k - 1) + HeightAt(rows, base, k - 1)
  }

  function SumHeights(rows: seq<Measured>, base: real, k: nat): real {
    Heights(rows, base, 0, k)
  }

  lemma {:induction false} HeightIsPositive(rows: seq<Measured>, base: real, index: nat)
    requires base >= 16.0
    ensures HeightAt(rows, base, index) >= 1.0
  {
    if rows != [] && rows[0].index != index {
      HeightIsPositive(rows[1..], base, index);
    }
  }

  lemma {:induction false} SumsIncrease(rows: seq<Measured>, base: real, j: nat, k: nat)
    requires base >= 16.0 && j <= k
    ensures 0.0 <= SumHeights(rows, base, j) <= SumHeights(rows, base, k)
    ensures j < k ==> SumHeights(rows, base, j) < SumHeights(rows, base, k)
    decreases k
  {
    if j < k {
      HeightIsPositive(rows, base, k - 1);
      SumsIncrease(rows, base, j, k - 1);
    } else if k > 0 {
      HeightIsPositive(rows, base, k - 1);
      SumsIncrease(rows, base, k - 1, k - 1);
    }
  }

  lemma {:induction false} SumsSplit(rows: seq<Measured>, base: real, first: nat, k: nat)
    requires first <= k
    ensures SumHeights(rows, base, k) == SumHeights(rows, base, first) + Heights(rows, base, first, k)
    decreases k
  {
    if first < k {
      SumsSplit(rows, base, first, k - 1);
    }
  }

  // ---------------------------------------------------------------- the breaks

  const BY_INDEX := (a: Measured, b: Measured) => a.index <= b.index

  function Delta(row: Measured, base: real): real {
    Max(1.0, row.height) - base
  }

  /** The running sums of what the measured rows add to the base height. */
  function Breaks(sorted: seq<Measured>, base: real): (r: seq<Break>)
    ensures |r| == |sorted|
  {
    if sorted == [] then []
    else
      var before := Breaks(sorted[..|sorted| - 1], base);
      var row := sorted[|sorted| - 1];
      before + [Break(row.index, (if before == [] then 0.0 else before[|before| - 1].cumulativeDelta) + Delta(row, base))]
  }

  function BreaksOf(rows: seq<Measured>, base: real): seq<Break> {
    Breaks(SortBy(rows, BY_INDEX), base)
  }

  ghost predicate ByIndex(sorted: seq<Measured>) {
    forall i, j :: 0 <= i < j < |sorted| ==> sorted[i].index < sorted[j].index
  }

  /** What the first m measured rows add. */
  function DeltaOf(sorted: seq<Measured>, base: real, m: nat): real
    requires m <= |sorted|
  {
    if m == 0 then 0.0 else DeltaOf(sorted, base, m - 1) + Delta(sorted[m - 1], base)
  }

  lemma {:induction false} BreakAt(sorted: seq<Measured>, base: real, m: nat)
    requires m < |sorted|
    ensures Breaks(sorted, base)[m] == Break(sorted[m].index, DeltaOf(sorted, base, m + 1))
    decreases |sorted|
  {
    var front := sorted[..|sorted| - 1];
    if m < |front| {
      BreakAt(front, base, m);
      DeltaOfPrefix(sorted, base, m + 1, |front|);
    } else if m > 0 {
      BreakAt(front, base, m - 1);
      DeltaOfPrefix(sorted, base, m, |front|);
    }
  }

  lemma {:induction false} DeltaOfPrefix(sorted: seq<Measured>, base: real, m: nat, k: nat)
    requires m <= k <= |sorted|
    ensures DeltaOf(sorted[..k], base, m) == DeltaOf(sorted, base, m)
  {
    if m > 0 {
      DeltaOfPrefix(sorted, base, m - 1, k);
    }
  }

  lemma {:induction false} HeightIn(rows: seq<Measured>, base: real, i: nat)
    requires OnePerIndex(rows) && i < |rows|
    ensures HeightAt(rows, base, rows[i].index) == Max(1.0, rows[i].height)
  {
    if i > 0 {
      HeightIn(rows[1..], base, i - 1);
    }
  }

  lemma {:induction false} HeightOutside(rows: seq<Measured>, base: real, index: nat)
    requires forall i :: 0 <= i < |rows| ==> rows[i].index != index
    ensures HeightAt(rows, base, index) == base
  {
    if rows != [] {
      HeightOutside(rows[1..], base, index);
    }
  }

  /** Row heights do not depend on the order in which rows were measured. */
  lemma HeightSorted(rows: seq<Measured>, base: real, index: nat)
    requires OnePerIndex(rows)
    ensures var sorted := SortBy(rows, BY_INDEX);
      ByIndex(sorted) && HeightAt(sorted, base, index) == HeightAt(rows, base, index)
  {
    var sorted := SortBy(rows, BY_INDEX);
    SortedIsByIndex(rows);
    SortByMembers(rows, BY_INDEX);
    if i :| 0 <= i < |rows| && rows[i].index == index {
      HeightIn(rows, base, i);
      assert rows[i] in sorted;
      var j :| 0 <= j < |sorted| && sorted[j] == rows[i];
      HeightIn(sorted, base, j);
    } else {
      HeightOutside(rows, base, index);
      forall j | 0 <= j < |sorted|
        ensures sorted[j].index != index
      {
        assert sorted[j] in sorted;
        assert sorted[j] in rows;
      }
      HeightOutside(sorted, base, index);
    }
  }

  lemma SortedIsByIndex(rows: seq<Measured>)
    requires OnePerIndex(rows)
    ensures ByIndex(SortBy(rows, BY_INDEX))
  {
    var sorted := SortBy(rows, BY_INDEX);
    SortByIsSorted(rows, BY_INDEX);
    SortByMembers(rows, BY_INDEX);
    assert Distinct(rows);
    SortKeepsDistinct(rows, BY_INDEX);
    forall i, j | 0 <= i < j < |sorted|
      ensures sorted[i].index < sorted[j].index
    {
      assert BY_INDEX(sorted[i], sorted[j]) && sorted[i] != sorted[j];
      assert sorted[i] in sorted && sorted[j] in sorted;
      var a :| 0 <= a < |rows| && rows[a] == sorted[i];
      var b :| 0 <= b < |rows| && rows[b] == sorted[j];
    }
  }

  /** The number of measured rows above row k. */
  ghost predicate CountsBelow(sorted: seq<Measured>, k: nat, m: nat) {
    && m <= |sorted|
    && (forall i :: 0 <= i < m ==> sorted[i].index < k)
    && (forall i :: m <= i < |sorted| ==> sorted[i].index >= k)
  }

  function Times(k: nat, base: real): real {
    k as real * base
  }

  lemma OneMore(k: nat, base: real)
    ensures Times(0, base) == 0.0
    ensures Times(k + 1, base) == Times(k, base) + base
  {
  }

  /** Going one row up, one measured row is passed exactly if that row is measured. */
  lemma RowAbove(sorted: seq<Measured>, base: real, k: nat, m: nat) returns (rest: nat)
    requires ByIndex(sorted) && CountsBelow(sorted, k + 1, m)
    ensures rest <= m && CountsBelow(sorted, k, rest)
    ensures HeightAt(sorted, base, k) == base + DeltaOf(sorted, base, m) - DeltaOf(sorted, base, rest)
  {
    if m > 0 && sorted[m - 1].index == k {
      HeightIn(sorted, base, m - 1);
      rest := m - 1;
    } else {
      assert m > 0 ==> forall i :: 0 <= i < m - 1 ==> sorted[i].index < sorted[m - 1].index;
      HeightOutside(sorted, base, k);
      rest := m;
    }
  }

  lemma {:induction false} IndexIsSum(sorted: seq<Measured>, base: real, k: nat, m: nat)
    requires ByIndex(sorted) && CountsBelow(sorted, k, m)
    ensures SumHeights(sorted, base, k) == Times(k, base) + DeltaOf(sorted, base, m)
    decreases k
  {
    if k > 0 {
      OneMore(k - 1, base);
      var rest := RowAbove(sorted, base, k - 1, m);
      hide Times, DeltaOf, HeightAt, CountsBelow, ByIndex;
      IndexIsSum(sorted, base, k - 1, rest);
    } else {
      OneMore(0, base);
    }
  }

  lemma {:induction false} SumsAgree(rows: seq<Measured>, base: real, first: nat, k: nat)
    requires OnePerIndex(rows)
    ensures Heights(SortBy(rows, BY_INDEX), base, first, k) == Heights(rows, base, first, k)
    decreases k
  {
    hide SortBy, HeightAt, OnePerIndex;
    if k > first {
      HeightSorted(rows, base, k - 1);
      SumsAgree(rows, base, first, k - 1);
    }
  }

  lemma BreaksIncrease(rows: seq<Measured>, base: real)
    requires OnePerIndex(rows)
    ensures var breaks := BreaksOf(rows, base);
      forall i, j :: 0 <= i < j < |breaks| ==> breaks[i].index < breaks[j].index
  {
    var sorted := SortBy(rows, BY_INDEX);
    SortedIsByIndex(rows);
    forall i, j | 0 <= i < j < |sorted|
      ensures Breaks(sorted, base)[i].index < Breaks(sorted, base)[j].index
    {
      BreakAt(sorted, base, i);
      BreakAt(sorted, base, j);
    }
  }

  /** The break before row k holds what all measured rows above it add to the base heights. */
  lemma BreaksGiveSum(rows: seq<Measured>, base: real, k: nat, low: nat)
    requires OnePerIndex(rows) && base >= 16.0 && low <= |BreaksOf(rows, base)|
    requires forall i :: 0 <= i < low ==> BreaksOf(rows, base)[i].index < k
    requires forall i :: low <= i < |BreaksOf(rows, base)| ==> BreaksOf(rows, base)[i].index >= k
    ensures var delta := if low > 0 then BreaksOf(rows, base)[low - 1].cumulativeDelta else 0.0;
      k as real * base + delta == SumHeights(rows, base, k) && SumHeights(rows, base, k) >= 0.0
  {
    var sorted := SortBy(rows, BY_INDEX);
    SortedIsByIndex(rows);
    forall i | 0 <= i < |sorted|
      ensures Breaks(sorted, base)[i] == Break(sorted[i].index, DeltaOf(sorted, base, i + 1))
    {
      BreakAt(sorted, base, i);
    }
    hide SortBy, Breaks, ByIndex, OnePerIndex, Heights;
    IndexIsSum(sorted, base, k, low);
    SumsAgree(rows, base, 0, k);
    SumsIncrease(rows, base, 0, k);
  }

  // ---------------------------------------------------------------- rows and offsets

  /** The row that contains an offset; every offset behind the last row belongs to the last. */
  ghost predicate RowHolds(rows: seq<Measured>, base: real, total: nat, offset: real, row: nat) {
    && row < total
    && SumHeights(rows, base, row) <= offset
    && (row < total - 1 ==> offset < SumHeights(rows, base, row + 1))
  }

  lemma RowIsUnique(rows: seq<Measured>, base: real, total: nat, offset: real, r: nat, t: nat)
    requires base >= 16.0 && RowHolds(rows, base, total, offset, r) && RowHolds(rows, base, total, offset, t)
    ensures r == t
  {
    if r < t {
      SumsIncrease(rows, base, r + 1, t);
    } else if t < r {
      SumsIncrease(rows, base, t + 1, r);
    }
  }

  // ---------------------------------------------------------------- the scheduled window

  datatype Window = Window(start: int, end: int)

  /** The rows that fit into the viewport at the base height, at least one. */
  function VisibleRows(viewport: real, base: real): (v: nat)
    requires base >= 16.0
    ensures v >= 1
  {
    var rows := -((-(viewport / base)).Floor);
    if rows < 1 then 1 else rows
  }

  /** They fill the viewport, and one row less would not. */
  lemma VisibleRowsFill(viewport: real, base: real, v: nat)
    requires base >= 16.0 && v == VisibleRows(viewport, base)
    ensures v as real * base >= viewport && (v > 1 ==> v as real * base < viewport + base)
  {
    CeilingOf(viewport, base);
    hide VisibleRows, Max, Min;
    RatioTimesBase(viewport, base);
    RowsFill(v as real, viewport / base, base, viewport);
  }

  lemma RowsFill(v: real, ratio: real, base: real, viewport: real)
    requires base > 0.0 && ratio * base == viewport && v >= ratio
    ensures v * base >= viewport
    ensures v < ratio + 1.0 ==> v * base < viewport + base
  {
    var more := v - ratio;
    PartOfBase(more, base);
    var rest := more * base;
    assert v * base == viewport + rest by {
      assert v * base == ratio * base + more * base;
    }
  }

  lemma PartOfBase(part: real, base: real)
    requires base > 0.0 && part >= 0.0
    ensures part * base >= 0.0 && (part < 1.0 ==> part * base < base)
  {
    if part < 1.0 {
      assert (1.0 - part) * base > 0.0;
    }
  }

  lemma RatioTimesBase(viewport: real, base: real)
    requires base > 0.0
    ensures viewport / base * base == viewport
  {
  }

  lemma CeilingOf(viewport: real, base: real)
    requires base >= 16.0
    ensures var v := VisibleRows(viewport, base);
      v as real >= viewport / base && (v > 1 ==> v as real < viewport / base + 1.0)
  {
  }

  /** virtualWindowBounds around a forced row. */
  function ForcedWindow(total: nat, visibleRows: nat, forcedStart: int): Window {
    var centered := visibleRows / 2;
    var wanted := forcedStart - centered - VIRTUAL_OVERSCAN_LINES;
    var start := if wanted < 0 then 0 else if wanted > total then total else wanted;
    var end := start + visibleRows + VIRTUAL_OVERSCAN_LINES * 2;
    Window(start, if end > total then total else end)
  }

  /** virtualWindowBounds while scrolling: around the rows at the viewport's top and bottom. */
  function RowsWindow(total: nat, first: nat, last: nat): Window {
    var end := last + 1 + VIRTUAL_OVERSCAN_LINES * 2;
    Window(if first < VIRTUAL_OVERSCAN_LINES then 0 else first - VIRTUAL_OVERSCAN_LINES, if end > total then total else end)
  }

  ghost predicate IsScrollWindow(rows: seq<Measured>, base: real, total: nat, top: real, viewport: real, w: Window) {
    if total == 0 then w == RowsWindow(0, 0, 0)
    else exists first: nat, last: nat ::
           RowHolds(rows, base, total, top, first) && RowHolds(rows, base, total, top + viewport, last)
           && w == RowsWindow(total, first, last)
  }

  predicate Inside(inner: Window, outer: Window) {
    outer.start <= inner.start && inner.end <= outer.end
  }

  /** The row at an offset is m or a later one exactly if the first m rows are no higher. */
  lemma RowAtLeast(rows: seq<Measured>, base: real, total: nat, offset: real, row: nat, m: nat)
    requires base >= 16.0 && RowHolds(rows, base, total, offset, row) && m < total
    ensures row >= m <==> SumHeights(rows, base, m) <= offset
  {
    if row >= m {
      SumsIncrease(rows, base, m, row);
    } else {
      SumsIncrease(rows, base, row + 1, m);
    }
  }

  /** The viewport's top lies in the first 301 rows. */
  ghost predicate NearTop(rows: seq<Measured>, base: real, total: nat, top: real) {
    total <= VIRTUAL_OVERSCAN_LINES + 1 || top < SumHeights(rows, base, VIRTUAL_OVERSCAN_LINES + 1)
  }

  /** The rows above the last of `visibleRows` rows, or above the last 601 rows, end in the viewport
      or before it. */
  ghost predicate RowsReach(rows: seq<Measured>, base: real, total: nat, visibleRows: nat, bottom: real) {
    var m := if visibleRows < total - 2 * VIRTUAL_OVERSCAN_LINES then visibleRows - 1 else total - 2 * VIRTUAL_OVERSCAN_LINES - 1;
    m <= 0 || SumHeights(rows, base, m) <= bottom
  }

  /** A scroll loads one window and then forces the render at that window's first row, which
      centres it again.  With unchanged heights, what is drawn lies inside what was loaded exactly
      if the loaded window begins at the first row and is long enough, that is, if the viewport is
      near the top and holds no rows so high that it shows fewer than it would at the base height. */
  lemma RenderedInsideLoaded(rows: seq<Measured>, base: real, total: nat, top: real, viewport: real, loaded: Window)
    requires base >= 16.0 && top >= 0.0 && viewport >= 0.0
    requires IsScrollWindow(rows, base, total, top, viewport, loaded)
    ensures var visibleRows := VisibleRows(viewport, base);
      var rendered := ForcedWindow(total, visibleRows, loaded.start);
      && (Inside(rendered, loaded) <==>
            loaded.start == 0
            && (if total < visibleRows + 2 * VIRTUAL_OVERSCAN_LINES then total else visibleRows + 2 * VIRTUAL_OVERSCAN_LINES)
               <= loaded.end)
      && (Inside(rendered, loaded) <==>
            NearTop(rows, base, total, top) && RowsReach(rows, base, total, visibleRows, top + viewport))
  {
    var visibleRows := VisibleRows(viewport, base);
    hide VisibleRows, SumHeights;
    if total > 0 {
      var first: nat, last: nat :|
        RowHolds(rows, base, total, top, first) && RowHolds(rows, base, total, top + viewport, last)
        && loaded == RowsWindow(total, first, last);
      if total > VIRTUAL_OVERSCAN_LINES + 1 {
        RowAtLeast(rows, base, total, top, first, VIRTUAL_OVERSCAN_LINES + 1);
      }
      var m := if visibleRows < total - 2 * VIRTUAL_OVERSCAN_LINES then visibleRows - 1 else total - 2 * VIRTUAL_OVERSCAN_LINES - 1;
      if m > 0 {
        RowAtLeast(rows, base, total, top + viewport, last, m);
      }
    }
  }

  /** A row of 1000 pixels at the top: rows 0 to 600 are loaded, rows 0 to 633 are drawn. */
  lemma OpenPanelOutgrowsLoadedWindow()
    ensures var rows := [Measured(0, 1000.0)];
      && IsScrollWindow(rows, 24.0, 20000, 0.0, 800.0, Window(0, 601))
      && ForcedWindow(20000, VisibleRows(800.0, 24.0), 0) == Window(0, 634)
  {
    var rows := [Measured(0, 1000.0)];
    assert SumHeights(rows, 24.0, 0) == 0.0;
    assert SumHeights(rows, 24.0, 1) == 1000.0;
    assert RowHolds(rows, 24.0, 20000, 0.0, 0) && RowHolds(rows, 24.0, 20000, 0.0 + 800.0, 0);
    assert RowsWindow(20000, 0, 0) == Window(0, 601);
    assert VisibleRows(800.0, 24.0) == 34;
  }

  // ---------------------------------------------------------------- measuring

  function SetHeight(rows: seq<Measured>, index: nat, height: real): seq<Measured> {
    if rows == [] then [Measured(index, height)]
    else if rows[0].index == index then [Measured(index, height)] + rows[1..]
    else [rows[0]] + SetHeight(rows[1..], index, height)
  }

  lemma {:induction false} SetHeightIndexes(rows: seq<Measured>, index: nat, height: real)
    requires OnePerIndex(rows)
    ensures var r := SetHeight(rows, index, height);
      OnePerIndex(r) && forall i :: 0 <= i < |r| ==> r[i].index == index || exists j :: 0 <= j < |rows| && rows[j].index == r[i].index
  {
    if rows != [] && rows[0].index != index {
      SetHeightIndexes(rows[1..], index, height);
      var rest := SetHeight(rows[1..], index, height);
      forall i | 0 <= i < |rest|
        ensures rest[i].index == index || exists j :: 1 <= j < |rows| && rows[j].index == rest[i].index
      {
        if rest[i].index != index {
          var j :| 0 <= j < |rows[1..]| && rows[1..][j].index == rest[i].index;
          assert rows[j + 1].index == rest[i].index;
        }
      }
    }
  }

  lemma {:induction false} HeightAfterSet(rows: seq<Measured>, base: real, index: nat, height: real, other: nat)
    ensures HeightAt(SetHeight(rows, index, height), base, other)
            == if other == index then Max(1.0, height) else HeightAt(rows, base, other)
  {
    if rows != [] && rows[0].index != index {
      HeightAfterSet(rows[1..], base, index, height, other);
      assert SetHeight(rows, index, height)[1..] == SetHeight(rows[1..], index, height);
    } else if rows != [] {
      assert SetHeight(rows, index, height)[1..] == rows[1..];
    } else {
      assert SetHeight(rows, index, height)[1..] == [];
    }
  }

  /** A rendered row is measured if the browser gives it a height. */
  predicate Measures(present: seq<bool>, dom: nat -> real, index: nat) {
    index < |present| && present[index] && dom(index) > 0.0
  }

  function MeasureAll(rows: seq<Measured>, present: seq<bool>, dom: nat -> real, first: nat, k: nat): seq<Measured>
    decreases k
  {
    if k <= first then rows
    else
      var r := MeasureAll(rows, present, dom, first, k - 1);
      if Measures(present, dom, k - 1) then SetHeight(r, k - 1, dom(k - 1)) else r
  }

  function HeightsSeen(present: seq<bool>, dom: nat -> real, first: nat, k: nat): seq<real>
    decreases k
  {
    if k <= first then []
    else HeightsSeen(present, dom, first, k - 1) + (if Measures(present, dom, k - 1) then [dom(k - 1)] else [])
  }

  lemma {:induction false} MeasureAllIndexes(rows: seq<Measured>, present: seq<bool>, dom: nat -> real, first: nat, k: nat)
    requires OnePerIndex(rows)
    ensures OnePerIndex(MeasureAll(rows, present, dom, first, k))
    decreases k
  {
    if k > first {
      MeasureAllIndexes(rows, present, dom, first, k - 1);
      SetHeightIndexes(MeasureAll(rows, present, dom, first, k - 1), k - 1, dom(k - 1));
    }
  }

  lemma {:induction false} HeightMeasured(rows: seq<Measured>, base: real, present: seq<bool>, dom: nat -> real,
                                          first: nat, k: nat, index: nat)
    ensures HeightAt(MeasureAll(rows, present, dom, first, k), base, index)
            == if first <= index < k && Measures(present, dom, index) then Max(1.0, dom(index)) else HeightAt(rows, base, index)
    decreases k
  {
    if k > first {
      HeightMeasured(rows, base, present, dom, first, k - 1, index);
      HeightAfterSet(MeasureAll(rows, present, dom, first, k - 1), base, k - 1, dom(k - 1), index);
    }
  }

  /** What the rendered rows take up on the screen. */
  function DomHeights(dom: nat -> real, first: nat, k: nat): real
    decreases k
  {
    if k <= first then 0.0 else DomHeights(dom, first, k - 1) + dom(k - 1)
  }

  ghost predicate AllMeasured(present: seq<bool>, dom: nat -> real, first: nat, k: nat) {
    forall i: nat :: first <= i < k ==> Measures(present, dom, i)
  }

  ghost predicate NoneTiny(dom: nat -> real, first: nat, k: nat) {
    forall i: nat :: first <= i < k ==> dom(i) >= 1.0
  }

  lemma {:induction false} WindowHeights(rows: seq<Measured>, base: real, present: seq<bool>, dom: nat -> real,
                                         first: nat, k: nat, end: nat)
    requires first <= k <= end && AllMeasured(present, dom, first, end)
    ensures var sum := Heights(MeasureAll(rows, present, dom, first, end), base, first, k);
      DomHeights(dom, first, k) <= sum && (DomHeights(dom, first, k) == sum <==> NoneTiny(dom, first, k))
    decreases k
  {
    if k > first {
      WindowHeights(rows, base, present, dom, first, k - 1, end);
      HeightMeasured(rows, base, present, dom, first, end, k - 1);
      assert Measures(present, dom, k - 1);
      assert NoneTiny(dom, first, k) <==> NoneTiny(dom, first, k - 1) && dom(k - 1) >= 1.0;
    }
  }

  // ---------------------------------------------------------------- the region

  const BY_HEIGHT := (a: real, b: real) => a <= b

  function Median(heights: seq<real>): real
    requires heights != []
  {
    var sorted := SortBy(heights, BY_HEIGHT);
    var middle := |sorted| / 2;
    if |sorted| % 2 != 0 then sorted[middle] else (sorted[middle - 1] + sorted[middle]) / 2.0
  }

  /** The median: as many heights lie below the middle one or two as above, and it is their mean. */
  lemma MedianIsMiddle(heights: seq<real>) returns (low: seq<real>, middle: seq<real>, high: seq<real>)
    requires heights != []
    ensures multiset(heights) == multiset(low) + multiset(middle) + multiset(high) && |low| == |high|
    ensures forall x, m :: x in low && m in middle ==> x <= m
    ensures forall m, x :: m in middle && x in high ==> m <= x
    ensures if |middle| == 1 then Median(heights) == middle[0]
            else |middle| == 2 && Median(heights) == (middle[0] + middle[1]) / 2.0
  {
    var sorted := SortBy(heights, BY_HEIGHT);
    SortByIsSorted(heights, BY_HEIGHT);
    var half := |sorted| / 2;
    var start := if |sorted| % 2 != 0 then half else half - 1;
    low, middle, high := sorted[..start], sorted[start..half + 1], sorted[half + 1..];
    assert sorted == low + middle + high;
    hide SortBy, SortedBy;
    PartsInOrder(sorted, start, half + 1);
  }

  lemma PartsInOrder(sorted: seq<real>, start: nat, end: nat)
    requires SortedBy(sorted, BY_HEIGHT) && start <= end <= |sorted|
    ensures forall x, m :: x in sorted[..start] && m in sorted[start..end] ==> x <= m
    ensures forall m, x :: m in sorted[start..end] && x in sorted[end..] ==> m <= x
  {
    forall x, m | x in sorted[..start] && m in sorted[start..end]
      ensures x <= m
    {
      var i :| 0 <= i < start && sorted[i] == x;
      var j :| start <= j < end && sorted[j] == m;
      assert BY_HEIGHT(sorted[i], sorted[j]);
    }
    forall m, x | m in sorted[start..end] && x in sorted[end..]
      ensures m <= x
    {
      var i :| start <= i < end && sorted[i] == m;
      var j :| end <= j < |sorted| && sorted[j] == x;
      assert BY_HEIGHT(sorted[i], sorted[j]);
    }
  }

  /** The heights seen are those of the rows rendered and given a height, top to bottom. */
  lemma {:induction false} HeightsSeenAre(present: seq<bool>, dom: nat -> real, first: nat, k: nat) returns (at: seq<nat>)
    ensures HeightsSeen(present, dom, first, k) == seq(|at|, i requires 0 <= i < |at| => dom(at[i]))
    ensures RenderedRows(present, dom, first, k, at)
    decreases k
  {
    if k <= first {
      at := [];
    } else {
      var before := HeightsSeenAre(present, dom, first, k - 1);
      at := before;
      if Measures(present, dom, k - 1) {
        at := before + [k - 1];
      }
      RenderedOneMore(present, dom, first, k, before);
    }
  }

  /** Exactly the rows first .. k - 1 that are there and have a height, in order. */
  ghost predicate RenderedRows(present: seq<bool>, dom: nat -> real, first: nat, k: nat, at: seq<nat>) {
    && (forall i, j :: 0 <= i < j < |at| ==> at[i] < at[j])
    && (forall i: nat :: i in at <==> first <= i < k && i < |present| && present[i] && dom(i) > 0.0)
  }

  lemma RenderedOneMore(present: seq<bool>, dom: nat -> real, first: nat, k: nat, before: seq<nat>)
    requires k > first && RenderedRows(present, dom, first, k - 1, before)
    ensures RenderedRows(present, dom, first, k, if Measures(present, dom, k - 1) then before + [k - 1] else before)
  {
    if Measures(present, dom, k - 1) {
      forall i | 0 <= i < |before|
        ensures before[i] < k - 1
      {
        assert before[i] in before;
      }
    }
  }

  function LineHeightAfter(heights: seq<real>, before: real): real {
    if heights == [] then before else Max(16.0, Min(160.0, Median(heights)))
  }

  function AtLeastZero(index: int): nat {
    if index < 0 then 0 else index
  }

  class VirtualRegion {
    var lineCount: nat
    var present: seq<bool>
    var lineHeight: real
    var measured: seq<Measured>
    var breaks: seq<Break>
    var topSpacer: real
    var bottomSpacer: real

    ghost predicate Valid()
      reads this
    {
      OnePerIndex(measured) && breaks == BreaksOf(measured, Base(lineHeight))
    }

    constructor (lineCount: nat)
      ensures Valid() && this.lineCount == lineCount && present == []
    {
      this.lineCount, present, lineHeight := lineCount, [], VIRTUAL_LINE_HEIGHT;
      measured, breaks, topSpacer, bottomSpacer := [], [], 0.0, 0.0;
    }

    /** The index as a function: the sum of the heights of the rows above. */
    ghost function Offset(k: nat): real
      reads this
    {
      SumHeights(measured, Base(lineHeight), k)
    }

    function Rows(): nat
      reads this
    {
      if lineCount < |present| then |present| else lineCount
    }

    method RebuildHeightIndex()
      requires OnePerIndex(measured)
      modifies this`breaks
      ensures Valid()
    {
      var base := Base(lineHeight);
      var entries := SortBy(measured, BY_INDEX);
      var cumulativeDelta := 0.0;
      breaks := [];
      for i := 0 to |entries|
        invariant breaks == Breaks(entries[..i], base)
        invariant cumulativeDelta == if breaks == [] then 0.0 else breaks[|breaks| - 1].cumulativeDelta
      {
        assert entries[..i + 1][..i] == entries[..i];
        cumulativeDelta := cumulativeDelta + (Max(1.0, entries[i].height) - base);
        breaks := breaks + [Break(entries[i].index, cumulativeDelta)];
      }
      assert entries[..|entries|] == entries;
    }

    /** Binary search in the breaks: equals the plain sum of the heights above the row. */
    method OffsetForIndex(index: int) returns (offset: real)
      requires Valid()
      ensures offset == Offset(AtLeastZero(index))
    {
      var target := AtLeastZero(index);
      var base := Base(lineHeight);
      BreaksIncrease(measured, base);
      var low, high := 0, |breaks|;
      while low < high
        invariant low <= high <= |breaks|
        invariant forall i :: 0 <= i < low ==> breaks[i].index < target
        invariant forall i :: high <= i < |breaks| ==> breaks[i].index >= target
      {
        var middle := (low + high) / 2;
        if breaks[middle].index < target {
          low := middle + 1;
        } else {
          high := middle;
        }
      }
      var cumulativeDelta := if low > 0 then breaks[low - 1].cumulativeDelta else 0.0;
      BreaksGiveSum(measured, base, target, low);
      offset := Max(0.0, target as real * base + cumulativeDelta);
    }

    method IndexAtOffset(offset: real) returns (row: nat)
      requires Valid()
      ensures if Rows() == 0 then row == 0
              else RowHolds(measured, Base(lineHeight), Rows(), Max(0.0, offset), row)
    {
      var total := Rows();
      if total == 0 {
        return 0;
      }
      var target := Max(0.0, offset);
      ghost var base := Base(lineHeight);
      var low: nat, high: nat := 0, total;
      while low < high
        invariant low <= high <= total
        invariant Offset(low) <= target
        invariant high < total ==> target < Offset(high + 1)
      {
        var middle := (low + high) / 2;
        var end := OffsetForIndex(middle + 1);
        if end <= target {
          low := middle + 1;
        } else {
          high := middle;
        }
      }
      SumsIncrease(measured, base, total - 1, total);
      row := if low == total then total - 1 else low;
    }

    /** virtualWindowBounds without a forced row; `top` and `viewport` are the viewport's position
        in the region and its height. */
    method ScrollWindowBounds(top: real, viewport: real) returns (w: Window)
      requires Valid() && top >= 0.0 && viewport >= 0.0
      ensures IsScrollWindow(measured, Base(lineHeight), Rows(), top, viewport, w)
    {
      var firstVisible := IndexAtOffset(top);
      var lastVisible := IndexAtOffset(top + viewport);
      w := RowsWindow(Rows(), firstVisible, lastVisible);
    }

    /** Renders rows start..end as far as they are there, measures them and sets the spacers. */
    method RenderWindow(start: nat, end: nat, dom: nat -> real) returns (availableEnd: nat)
      requires Valid()
      modifies this`measured, this`lineHeight, this`breaks, this`topSpacer, this`bottomSpacer
      ensures Valid()
      ensures availableEnd == if end < |present| then end else |present|
      ensures measured == MeasureAll(old(measured), present, dom, start, availableEnd)
      ensures lineHeight == LineHeightAfter(HeightsSeen(present, dom, start, availableEnd), old(lineHeight))
      ensures topSpacer == Offset(start) && bottomSpacer == Offset(Rows()) - Offset(availableEnd)
      ensures bottomSpacer >= 0.0
      ensures start <= availableEnd && AllMeasured(present, dom, start, availableEnd) ==>
                (topSpacer + DomHeights(dom, start, availableEnd) + bottomSpacer == Offset(Rows())
                 <==> NoneTiny(dom, start, availableEnd))
    {
      hide MeasureAll, HeightsSeen, LineHeightAfter, BreaksOf, OnePerIndex, Heights, AllMeasured, NoneTiny, DomHeights;
      availableEnd := if end < |present| then end else |present|;
      MeasureRows(start, availableEnd, dom);
      RebuildHeightIndex();
      topSpacer := OffsetForIndex(start);
      var totalHeight := OffsetForIndex(Rows());
      var above := OffsetForIndex(availableEnd);
      SumsIncrease(measured, Base(lineHeight), availableEnd, Rows());
      bottomSpacer := Max(0.0, totalHeight - above);
      if start <= availableEnd && AllMeasured(present, dom, start, availableEnd) {
        WindowHeights(old(measured), Base(lineHeight), present, dom, start, availableEnd, availableEnd);
        SumsSplit(measured, Base(lineHeight), start, availableEnd);
      }
    }

    method MeasureRows(start: nat, end: nat, dom: nat -> real)
      requires OnePerIndex(measured)
      modifies this`measured, this`lineHeight
      ensures OnePerIndex(measured) && measured == MeasureAll(old(measured), present, dom, start, end)
      ensures lineHeight == LineHeightAfter(HeightsSeen(present, dom, start, end), old(lineHeight))
    {
      var heights := [];
      var index := start;
      while index < end
        invariant start <= index && (start <= end ==> index <= end) && (start > end ==> index == start)
        invariant measured == MeasureAll(old(measured), present, dom, start, index)
        invariant heights == HeightsSeen(present, dom, start, index) && lineHeight == old(lineHeight)
      {
        if Measures(present, dom, index) {
          measured := SetHeight(measured, index, dom(index));
          heights := heights + [dom(index)];
        }
        index := index + 1;
      }
      MeasureAllIndexes(old(measured), present, dom, start, index);
      lineHeight := LineHeightAfter(heights, lineHeight);
    }
  }
}
