/** The code-detail layout by two routes: from stored metadata (fast) and by refreshing every
    line of the full source context (slow); app/code_detail/service.py, overlay_cache.py and
    vnext_service.py. */
module Layout {
  import opened Options
  import opened Sorting
  import opened FunctionLookup
  import opened CodeRegions

  const CONTEXT: nat := 20
  const MERGE_GAP: nat := 20

  datatype Coverage = Covered | Uncovered | Ignored
  datatype Status = Blank | Unconfirmed | Coverable | Uncoverable | Redundant | Other(text: string)
  datatype Record = Record(line: int, status: Status, draft: bool)

  predicate IsConclusive(s: Status) {
    s.Coverable? || s.Uncoverable? || s.Redundant?
  }

  // ---------------------------------------------------------------- overlay

  /** The last record of a positive line number wins. */
  function LastRecord(records: seq<Record>, line: int): (r: Option<Record>)
    ensures r.Some? ==> r.value in records && r.value.line == line && line > 0
  {
    if records == [] then None
    else if records[|records| - 1].line == line && line > 0 then Some(records[|records| - 1])
    else LastRecord(records[..|records| - 1], line)
  }

  /** The k-th record is the last one of the line; k past the end: the line has none. */
  lemma {:induction false} LastRecordIs(records: seq<Record>, line: int, k: nat)
    requires k <= |records| && (k < |records| ==> records[k].line == line)
    requires forall j :: k < j < |records| ==> records[j].line != line
    requires k == |records| ==> forall j :: 0 <= j < |records| ==> records[j].line != line
    ensures LastRecord(records, line) == if k < |records| && line > 0 then Some(records[k]) else None
  {
    var n := |records| - 1;
    if line <= 0 {
    } else if k < n {
      LastRecordIs(records[..n], line, k);
    } else if k == |records| && records != [] {
      LastRecordIs(records[..n], line, n);
    }
  }

  type Overlay = map<int, Record>

  function RecordAt(overlay: Option<Overlay>, line: int): Option<Record> {
    if overlay.Some? && line in overlay.value then Some(overlay.value[line]) else None
  }

  method BuildOverlay(records: seq<Record>) returns (byLine: Overlay)
    ensures forall n :: RecordAt(Some(byLine), n) == LastRecord(records, n)
  {
    byLine := map[];
    for i := 0 to |records|
      invariant forall n :: RecordAt(Some(byLine), n) == LastRecord(records[..i], n)
    {
      assert records[..i + 1][..i] == records[..i];
      if records[i].line > 0 {
        byLine := byLine[records[i].line := records[i]];
      }
    }
    assert records[..|records|] == records;
  }

  /** is_line_pending_analysis: see PendingOrConfirmed for what it means under an overlay. */
  predicate IsPendingAnalysis(coverage: Coverage, state: Status, draft: bool, filled: bool) {
    if !coverage.Uncovered? then false
    else if draft then true
    else if !filled then true
    else !IsConclusive(state)
  }

  // ---------------------------------------------------------------- full context

  /** The stored, static facts of one line. */
  datatype Stored = Stored(no: int, coverage: Coverage, state: Status, draft: bool)

  /** The review state a line shows under an overlay. */
  function ShownState(rec: Option<Record>): Status {
    if rec.Some? && !rec.value.status.Blank? then rec.value.status else Unconfirmed
  }

  function ShownDraft(rec: Option<Record>): bool {
    rec.Some? && rec.value.draft
  }

  /** What a line shows: its record's status and draft mark, or unconfirmed if it has no record or
      a blank one. */
  ghost predicate ShowsRecord(state: Status, draft: bool, overlay: Option<Overlay>, no: int) {
    if overlay.Some? && no in overlay.value then
      var rec := overlay.value[no];
      draft == rec.draft && state == if rec.status.Blank? then Unconfirmed else rec.status
    else state == Unconfirmed && !draft
  }

  predicate PendingUnder(line: Stored, overlay: Option<Overlay>) {
    var rec := RecordAt(overlay, line.no);
    IsPendingAnalysis(line.coverage, ShownState(rec), ShownDraft(rec), rec.Some? && !rec.value.status.Blank?)
  }

  predicate ConfirmedUnder(line: Stored, overlay: Option<Overlay>) {
    var rec := RecordAt(overlay, line.no);
    line.coverage.Uncovered? && IsConclusive(ShownState(rec)) && !ShownDraft(rec)
  }

  function PendingLines(lines: seq<Stored>, overlay: Option<Overlay>): seq<int> {
    if lines == [] then []
    else
      PendingLines(lines[..|lines| - 1], overlay)
      + (if PendingUnder(lines[|lines| - 1], overlay) then [lines[|lines| - 1].no] else [])
  }

  function ConfirmedCount(lines: seq<Stored>, overlay: Option<Overlay>): nat {
    if lines == [] then 0
    else
      var last := lines[|lines| - 1];
      ConfirmedCount(lines[..|lines| - 1], overlay)
      + (if !PendingUnder(last, overlay) && ConfirmedUnder(last, overlay) then 1 else 0)
  }

  /** What the stored lines themselves say, without an overlay. */
  function StoredConfirmed(lines: seq<Stored>): nat {
    if lines == [] then 0
    else
      var last := lines[|lines| - 1];
      StoredConfirmed(lines[..|lines| - 1])
      + (if last.coverage.Uncovered? && !last.draft && IsConclusive(last.state) then 1 else 0)
  }

  class LineDto {
    const no: int
    const coverage: Coverage
    var state: Status
    var draft: bool
    var pending: bool

    constructor (no: int, coverage: Coverage, state: Status, draft: bool)
      ensures this.no == no && this.coverage == coverage && this.state == state && this.draft == draft
    {
      this.no, this.coverage, this.state, this.draft := no, coverage, state, draft;
      pending := false;
    }

    /** One line of _refresh_analysis_records. */
    method Refresh(ghost stored: Stored, overlay: Option<Overlay>)
      requires no == stored.no && coverage == stored.coverage
      modifies this
      ensures state == ShownState(RecordAt(overlay, no)) && draft == ShownDraft(RecordAt(overlay, no))
      ensures pending == PendingUnder(stored, overlay)
    {
      var rec := RecordAt(overlay, no);
      if rec.Some? {
        state := if rec.value.status.Blank? then Unconfirmed else rec.value.status;
        draft := rec.value.draft;
      } else {
        state := Unconfirmed;
        draft := false;
      }
      pending := IsPendingAnalysis(coverage, state, draft, rec.Some? && !rec.value.status.Blank?);
    }
  }

  class SourceContext {
    var lines: seq<LineDto>
    var pendingLines: seq<int>
    var confirmedCount: nat

    ghost predicate Valid()
      reads this
    {
      forall i, j :: 0 <= i < j < |lines| ==> lines[i] != lines[j]
    }

    /** The static facts behind the context's lines. */
    ghost predicate Shows(stored: seq<Stored>)
      reads this
    {
      && |lines| == |stored|
      && forall i :: 0 <= i < |lines| ==> lines[i].no == stored[i].no && lines[i].coverage == stored[i].coverage
    }

    /** A context rebuilt from a sidecar: no stored pending list, confirmed lines counted. */
    constructor (stored: seq<Stored>)
      ensures Valid() && Shows(stored) && fresh(this) && fresh(lines)
      ensures pendingLines == [] && confirmedCount == StoredConfirmed(stored)
    {
      lines, pendingLines, confirmedCount := [], [], 0;
      new;
      for i := 0 to |stored|
        invariant Valid() && Shows(stored[..i]) && fresh(lines) && |lines| == i
        invariant pendingLines == [] && confirmedCount == StoredConfirmed(stored[..i])
      {
        assert stored[..i + 1][..i] == stored[..i];
        var dto := new LineDto(stored[i].no, stored[i].coverage, stored[i].state, stored[i].draft);
        lines := lines + [dto];
        if stored[i].coverage.Uncovered? && !stored[i].draft && IsConclusive(stored[i].state) {
          confirmedCount := confirmedCount + 1;
        }
      }
      assert stored[..|stored|] == stored;
    }

    /** _refresh_analysis_records: rewrites the review state of every line in place. */
    method RefreshAnalysisRecords(ghost stored: seq<Stored>, overlay: Option<Overlay>)
      requires Valid() && Shows(stored)
      modifies this`pendingLines, this`confirmedCount, lines
      ensures Valid() && Shows(stored)
      ensures overlay.None? ==> pendingLines == old(pendingLines) && confirmedCount == old(confirmedCount)
      ensures overlay.None? ==> forall i :: 0 <= i < |lines| ==> unchanged(lines[i])
      ensures overlay.Some? ==> pendingLines == PendingLines(stored, overlay)
      ensures overlay.Some? ==> confirmedCount == ConfirmedCount(stored, overlay)
      ensures overlay.Some? ==> forall i :: 0 <= i < |lines| ==>
                && lines[i].state == ShownState(RecordAt(overlay, stored[i].no))
                && lines[i].draft == ShownDraft(RecordAt(overlay, stored[i].no))
                && lines[i].pending == PendingUnder(stored[i], overlay)
      ensures overlay.Some? ==> forall i :: 0 <= i < |lines| ==> ShowsRecord(lines[i].state, lines[i].draft, overlay, stored[i].no)
    {
      if overlay.None? {
        return;
      }
      var pending: seq<int> := [];
      var confirmed: nat := 0;
      for i := 0 to |lines|
        invariant Valid() && Shows(stored)
        invariant pending == PendingLines(stored[..i], overlay)
        invariant confirmed == ConfirmedCount(stored[..i], overlay)
        invariant forall k :: 0 <= k < i ==>
                    && lines[k].state == ShownState(RecordAt(overlay, stored[k].no))
                    && lines[k].draft == ShownDraft(RecordAt(overlay, stored[k].no))
                    && lines[k].pending == PendingUnder(stored[k], overlay)
      {
        assert stored[..i + 1][..i] == stored[..i];
        var line := lines[i];
        line.Refresh(stored[i], overlay);
        if line.pending {
          pending := pending + [line.no];
        } else if line.coverage.Uncovered? && IsConclusive(line.state) && !line.draft {
          confirmed := confirmed + 1;
        }
      }
      assert stored[..|lines|] == stored;
      pendingLines := pending;
      confirmedCount := confirmed;
    }
  }

  // ---------------------------------------------------------------- the two routes

  datatype LayoutAnswer = LayoutAnswer(total: int, uncovered: nat, pending: nat, confirmed: nat, regions: seq<Region>)

  /** Sidecar metadata: the static facts only. */
  datatype Meta = Meta(total: int, uncovered: seq<int>, fns: seq<FunctionRange>)

  function UncoveredLines(lines: seq<Stored>): seq<int> {
    if lines == [] then []
    else
      UncoveredLines(lines[..|lines| - 1])
      + (if lines[|lines| - 1].coverage.Uncovered? then [lines[|lines| - 1].no] else [])
  }

  function MetaOf(lines: seq<Stored>, fns: seq<FunctionRange>): Meta {
    Meta(|lines|, UncoveredLines(lines), fns)
  }

  ghost predicate Numbered(lines: seq<Stored>) {
    forall i :: 0 <= i < |lines| ==> lines[i].no == i + 1
  }

  ghost predicate RegionsFor(regions: seq<Region>, total: int, pending: iset<int>, fns: seq<FunctionRange>) {
    if total <= 0 then regions == [] else IsLayout(regions, total, pending, fns, CONTEXT, MERGE_GAP)
  }

  /** The uncovered lines that still need a conclusion. */
  function StillPending(uncovered: seq<int>, overlay: Option<Overlay>): (r: set<int>)
  {
    StillIn(AsSet(uncovered), overlay)
  }

  function StillIn(lines: set<int>, overlay: Option<Overlay>): (r: set<int>)
    ensures forall n :: n in r <==> n in lines && !Concluded(overlay, n)
  {
    set n | n in lines && !Concluded(overlay, n)
  }

  ghost function Lifted(s: set<int>): iset<int> {
    iset n | n in s
  }

  predicate Concluded(overlay: Option<Overlay>, n: int) {
    var rec := RecordAt(overlay, n);
    rec.Some? && !rec.value.draft && IsConclusive(rec.value.status)
  }

  /** Whatever the records before it, the last record of a line decides alone: an uncovered line
      is confirmed if that record is conclusive and no draft, and pending otherwise; a line that
      is not uncovered is neither. */
  lemma PendingOrConfirmed(records: seq<Record>, overlay: Overlay, line: Stored)
    requires forall n :: RecordAt(Some(overlay), n) == LastRecord(records, n)
    ensures PendingUnder(line, Some(overlay)) <==> line.coverage.Uncovered? && !LastConcludes(records, line.no)
    ensures ConfirmedUnder(line, Some(overlay)) <==> line.coverage.Uncovered? && LastConcludes(records, line.no)
  {
    LastConcluding(records, line.no);
  }

  /** Some record concludes the line and no later record of the line follows it. */
  ghost predicate LastConcludes(records: seq<Record>, line: int) {
    exists i :: 0 <= i < |records| && records[i].line == line && line > 0
                && !records[i].draft && IsConclusive(records[i].status)
                && forall j :: i < j < |records| ==> records[j].line != line
  }

  lemma {:induction false} LastConcluding(records: seq<Record>, line: int)
    ensures LastConcludes(records, line)
       <==> LastRecord(records, line).Some? && !LastRecord(records, line).value.draft
            && IsConclusive(LastRecord(records, line).value.status)
  {
    if records != [] {
      var last := records[|records| - 1];
      if last.line == line && line > 0 {
        OwnRecordDecides(records, line);
      } else {
        hide LastConcludes, IsConclusive;
        LastConcluding(records[..|records| - 1], line);
        OtherRecordKeeps(records, line);
      }
    }
  }

  lemma OwnRecordDecides(records: seq<Record>, line: int)
    requires records != [] && line > 0 && records[|records| - 1].line == line
    ensures LastConcludes(records, line)
       <==> !records[|records| - 1].draft && IsConclusive(records[|records| - 1].status)
  {
    hide IsConclusive;
    var n := |records| - 1;
    if !records[n].draft && IsConclusive(records[n].status) {
      assert records[n].line == line;
    }
  }

  lemma OtherRecordKeeps(records: seq<Record>, line: int)
    requires records != [] && !(records[|records| - 1].line == line && line > 0)
    ensures LastConcludes(records, line) <==> LastConcludes(records[..|records| - 1], line)
  {
    hide IsConclusive;
    var front := records[..|records| - 1];
    assert forall j :: 0 <= j < |front| ==> front[j] == records[j];
    if LastConcludes(front, line) {
      var i :| 0 <= i < |front| && front[i].line == line && line > 0 && !front[i].draft
               && IsConclusive(front[i].status) && forall j :: i < j < |front| ==> front[j].line != line;
      assert records[i].line == line;
    }
  }

  function AsSet(s: seq<int>): (r: set<int>)
    ensures forall n :: n in r <==> n in s
  {
    set n | n in s
  }

  ghost predicate FastAnswer(meta: Meta, overlay: Option<Overlay>, a: LayoutAnswer) {
    && a.total == meta.total
    && a.uncovered == |meta.uncovered|
    && a.pending == |StillPending(meta.uncovered, overlay)|
    && a.confirmed == |AsSet(meta.uncovered)| - a.pending
    && RegionsFor(a.regions, meta.total, Lifted(StillPending(meta.uncovered, overlay)), meta.fns)
  }

  ghost predicate SlowAnswer(lines: seq<Stored>, fns: seq<FunctionRange>, overlay: Option<Overlay>, a: LayoutAnswer) {
    var pending := if overlay.Some? then PendingLines(lines, overlay) else [];
    && a.total == |lines|
    && a.uncovered == |UncoveredLines(lines)|
    && a.pending == |pending|
    && a.confirmed == (if overlay.Some? then ConfirmedCount(lines, overlay) else StoredConfirmed(lines))
    && RegionsFor(a.regions, |lines|, ElementsOf(pending), fns)
  }

  /** The metadata route walks the set of uncovered lines in any order. */
  method SplitUncovered(uncovered: set<int>, overlay: Option<Overlay>) returns (pending: seq<int>, confirmed: nat)
    ensures forall n :: n in pending <==> n in StillIn(uncovered, overlay)
    ensures |pending| == |StillIn(uncovered, overlay)|
    ensures confirmed + |pending| == |uncovered|
  {
    var rest := uncovered;
    pending, confirmed := [], 0;
    while rest != {}
      invariant rest <= uncovered
      invariant forall n :: n in pending <==> n in StillIn(uncovered, overlay) && n !in rest
      invariant |pending| + |StillIn(rest, overlay)| == |StillIn(uncovered, overlay)|
      invariant confirmed + |pending| + |rest| == |uncovered|
      decreases |rest|
    {
      var line :| line in rest;
      ghost var before := rest;
      rest := rest - {line};
      assert StillIn(before, overlay) == StillIn(rest, overlay) + (if Concluded(overlay, line) then {} else {line});
      var rec := RecordAt(overlay, line);
      var status := if rec.Some? then rec.value.status else Unconfirmed;
      var draft := rec.Some? && rec.value.draft;
      if !draft && IsConclusive(status) {
        confirmed := confirmed + 1;
      } else {
        pending := pending + [line];
      }
    }
  }

  lemma SameElements(list: seq<int>, elements: set<int>)
    requires forall n :: n in list <==> n in elements
    ensures ElementsOf(list) == Lifted(elements)
  {
    forall n
      ensures n in ElementsOf(list) <==> n in Lifted(elements)
    {
      assert n in ElementsOf(list) <==> n in list;
    }
  }

  method FastLayout(meta: Meta, overlay: Option<Overlay>) returns (a: LayoutAnswer)
    ensures FastAnswer(meta, overlay, a)
  {
    var pending, confirmed := SplitUncovered(AsSet(meta.uncovered), overlay);
    hide StillIn, IsLayout, Concluded;
    var regions := BuildCodeRegions(meta.total, pending, meta.fns, CONTEXT, MERGE_GAP);
    SameElements(pending, StillPending(meta.uncovered, overlay));
    a := LayoutAnswer(meta.total, |meta.uncovered|, |pending|, confirmed, regions);
  }

  function ListPending(uncovered: seq<int>, overlay: Option<Overlay>): seq<int> {
    if uncovered == [] then []
    else
      var last := uncovered[|uncovered| - 1];
      ListPending(uncovered[..|uncovered| - 1], overlay) + (if Concluded(overlay, last) then [] else [last])
  }

  lemma {:induction false} ListPendingMembers(uncovered: seq<int>, overlay: Option<Overlay>)
    ensures forall n :: n in ListPending(uncovered, overlay) <==> n in StillPending(uncovered, overlay)
  {
    if uncovered != [] {
      var front, last := uncovered[..|uncovered| - 1], uncovered[|uncovered| - 1];
      ListPendingMembers(front, overlay);
      assert uncovered == front + [last];
    }
  }

  lemma {:induction false} ListPendingCounts(uncovered: seq<int>, overlay: Option<Overlay>)
    requires Distinct(uncovered)
    ensures |AsSet(uncovered)| == |uncovered|
    ensures |ListPending(uncovered, overlay)| == |StillPending(uncovered, overlay)|
  {
    if uncovered != [] {
      var front, last := uncovered[..|uncovered| - 1], uncovered[|uncovered| - 1];
      ListPendingCounts(front, overlay);
      assert forall k :: 0 <= k < |front| ==> front[k] == uncovered[k];
      GrowSet(AsSet(front), last, overlay);
      assert AsSet(uncovered) == AsSet(front) + {last};
    }
  }

  lemma GrowSet(lines: set<int>, n: int, overlay: Option<Overlay>)
    requires n !in lines
    ensures |lines + {n}| == |lines| + 1
    ensures |StillIn(lines + {n}, overlay)| == |StillIn(lines, overlay)| + (if Concluded(overlay, n) then 0 else 1)
  {
    assert StillIn(lines + {n}, overlay) == StillIn(lines, overlay) + (if Concluded(overlay, n) then {} else {n});
  }

  /** The versioned service walks the stored list itself; on a list without repetitions it
      gives the metadata route's answer. */
  method VNextLayout(meta: Meta, overlay: Overlay) returns (a: LayoutAnswer)
    ensures Distinct(meta.uncovered) ==> FastAnswer(meta, Some(overlay), a)
  {
    var pending, confirmed := ListUncovered(meta.uncovered, overlay);
    hide ListPending, IsLayout, Concluded;
    ListPendingMembers(meta.uncovered, Some(overlay));
    if Distinct(meta.uncovered) {
      ListPendingCounts(meta.uncovered, Some(overlay));
    }
    var regions := BuildCodeRegions(meta.total, pending, meta.fns, CONTEXT, MERGE_GAP);
    SameElements(pending, StillPending(meta.uncovered, Some(overlay)));
    a := LayoutAnswer(meta.total, |meta.uncovered|, |pending|, confirmed, regions);
  }

  method ListUncovered(uncovered: seq<int>, overlay: Overlay) returns (pending: seq<int>, confirmed: nat)
    ensures pending == ListPending(uncovered, Some(overlay)) && confirmed + |pending| == |uncovered|
  {
    pending, confirmed := [], 0;
    for i := 0 to |uncovered|
      invariant pending == ListPending(uncovered[..i], Some(overlay)) && confirmed + |pending| == i
    {
      assert uncovered[..i + 1][..i] == uncovered[..i];
      var rec := RecordAt(Some(overlay), uncovered[i]);
      if rec.Some? && !rec.value.draft && IsConclusive(rec.value.status) {
        confirmed := confirmed + 1;
      } else {
        pending := pending + [uncovered[i]];
      }
    }
    assert uncovered[..|uncovered|] == uncovered;
  }

  /** Full-context route. */
  method SlowLayout(stored: seq<Stored>, fns: seq<FunctionRange>, overlay: Option<Overlay>) returns (a: LayoutAnswer)
    ensures SlowAnswer(stored, fns, overlay, a)
  {
    var context := new SourceContext(stored);
    context.RefreshAnalysisRecords(stored, overlay);
    var regions := BuildCodeRegions(|context.lines|, context.pendingLines, fns, CONTEXT, MERGE_GAP);
    a := LayoutAnswer(|context.lines|, |UncoveredLines(stored)|, |context.pendingLines|, context.confirmedCount, regions);
  }

  // ---------------------------------------------------------------- agreement

  lemma {:induction false} UncoveredMembers(lines: seq<Stored>)
    requires Numbered(lines)
    ensures |AsSet(UncoveredLines(lines))| == |UncoveredLines(lines)|
    ensures forall n :: n in UncoveredLines(lines) <==> 1 <= n <= |lines| && lines[n - 1].coverage.Uncovered?
  {
    if lines != [] {
      var front := lines[..|lines| - 1];
      UncoveredMembers(front);
      if lines[|lines| - 1].coverage.Uncovered? {
        assert AsSet(UncoveredLines(lines)) == AsSet(UncoveredLines(front)) + {|lines|};
      } else {
        assert UncoveredLines(lines) == UncoveredLines(front);
      }
    }
  }

  lemma {:induction false} UncoveredDistinct(lines: seq<Stored>)
    requires Numbered(lines)
    ensures Distinct(UncoveredLines(lines))
    ensures forall i :: 0 <= i < |UncoveredLines(lines)| ==> 1 <= UncoveredLines(lines)[i] <= |lines|
  {
    if lines != [] {
      UncoveredDistinct(lines[..|lines| - 1]);
    }
  }

  /** In a file with lines 1..N the pending lines are listed from top to bottom, each once. */
  lemma {:induction false} PendingLinesInOrder(lines: seq<Stored>, overlay: Option<Overlay>)
    requires Numbered(lines)
    ensures StrictlyIncreasing(PendingLines(lines, overlay))
    ensures forall n :: n in PendingLines(lines, overlay) <==> 1 <= n <= |lines| && PendingUnder(lines[n - 1], overlay)
  {
    if lines != [] {
      hide PendingUnder;
      var front := lines[..|lines| - 1];
      PendingLinesInOrder(front, overlay);
      var before := PendingLines(front, overlay);
      forall i | 0 <= i < |before|
        ensures before[i] < |lines|
      {
        assert before[i] in before;
      }
    }
  }

  /** The confirmed count of stored lines counts the uncovered lines with a conclusive state and no
      draft. */
  lemma {:induction false} StoredConfirmedCounts(lines: seq<Stored>)
    ensures StoredConfirmed(lines) == |ConfirmedAt(lines)|
  {
    if lines != [] {
      var n := |lines| - 1;
      StoredConfirmedCounts(lines[..n]);
      hide IsConclusive;
      if lines[n].coverage.Uncovered? && !lines[n].draft && IsConclusive(lines[n].state) {
        assert ConfirmedAt(lines) == ConfirmedAt(lines[..n]) + {n};
      } else {
        assert ConfirmedAt(lines) == ConfirmedAt(lines[..n]);
      }
    }
  }

  function ConfirmedAt(lines: seq<Stored>): set<nat> {
    set i: nat | i < |lines| && lines[i].coverage.Uncovered? && !lines[i].draft
                 && (lines[i].state.Coverable? || lines[i].state.Uncoverable? || lines[i].state.Redundant?)
  }

  /** Line by line: pending, or concluded, or not uncovered at all. */
  lemma {:induction false} PendingIsListed(lines: seq<Stored>, overlay: Option<Overlay>)
    ensures PendingLines(lines, overlay) == ListPending(UncoveredLines(lines), overlay)
    ensures ConfirmedCount(lines, overlay) + |PendingLines(lines, overlay)| == |UncoveredLines(lines)|
  {
    if lines != [] {
      var front, last := lines[..|lines| - 1], lines[|lines| - 1];
      PendingIsListed(front, overlay);
      assert PendingUnder(last, overlay) <==> last.coverage.Uncovered? && !Concluded(overlay, last.no);
      if last.coverage.Uncovered? {
        assert UncoveredLines(lines)[..|UncoveredLines(lines)| - 1] == UncoveredLines(front);
      } else {
        assert UncoveredLines(lines) == UncoveredLines(front);
      }
    }
  }

  /** The line-by-line counts are those of the set of uncovered lines. */
  lemma CountsAgree(lines: seq<Stored>, overlay: Option<Overlay>)
    requires Numbered(lines)
    ensures forall n :: n in PendingLines(lines, overlay) <==> n in StillPending(UncoveredLines(lines), overlay)
    ensures |PendingLines(lines, overlay)| == |StillPending(UncoveredLines(lines), overlay)|
    ensures ConfirmedCount(lines, overlay) + |PendingLines(lines, overlay)| == |UncoveredLines(lines)|
  {
    hide UncoveredLines, PendingLines, ConfirmedCount, ListPending, StillIn;
    UncoveredDistinct(lines);
    PendingIsListed(lines, overlay);
    ListPendingMembers(UncoveredLines(lines), overlay);
    ListPendingCounts(UncoveredLines(lines), overlay);
  }

  lemma {:induction false} NoneUncovered(lines: seq<Stored>)
    requires UncoveredLines(lines) == []
    ensures StoredConfirmed(lines) == 0
  {
    if lines != [] {
      NoneUncovered(lines[..|lines| - 1]);
    }
  }

  /** For a file with lines 1..N the two routes give the same answer exactly when an overlay
      is available or nothing is uncovered.  Without an overlay the slow route reports no
      pending line at all. */
  lemma LayoutsAgree(lines: seq<Stored>, fns: seq<FunctionRange>, overlay: Option<Overlay>,
                     fast: LayoutAnswer, slow: LayoutAnswer)
    requires Numbered(lines)
    requires FastAnswer(MetaOf(lines, fns), overlay, fast)
    requires SlowAnswer(lines, fns, overlay, slow)
    ensures fast == slow <==> overlay.Some? || UncoveredLines(lines) == []
  {
    hide IsLayout, PendingLines, ConfirmedCount, UncoveredLines, StoredConfirmed;
    var meta := MetaOf(lines, fns);
    UncoveredMembers(lines);
    CountsAgree(lines, overlay);
    var still := Lifted(StillPending(meta.uncovered, overlay));
    if overlay.Some? {
      assert ElementsOf(PendingLines(lines, overlay)) == still;
    } else if UncoveredLines(lines) == [] {
      NoneUncovered(lines);
      assert StillPending(meta.uncovered, overlay) == {};
      assert ElementsOf([]) == still;
    } else {
      assert UncoveredLines(lines)[0] in StillPending(meta.uncovered, overlay);
    }
    if overlay.Some? || UncoveredLines(lines) == [] {
      if |lines| > 0 {
        LayoutIsUnique(fast.regions, slow.regions, |lines|, still, fns, CONTEXT, MERGE_GAP);
      }
    }
  }

  /** One uncovered line and no overlay: one pending line by the fast route, none by the slow one. */
  lemma RoutesDisagreeWithoutOverlay(fast: LayoutAnswer, slow: LayoutAnswer)
    requires FastAnswer(MetaOf([Stored(1, Uncovered, Unconfirmed, false)], []), None, fast)
    requires SlowAnswer([Stored(1, Uncovered, Unconfirmed, false)], [], None, slow)
    ensures fast.pending == 1 && slow.pending == 0
  {
    hide RegionsFor;
    var lines := [Stored(1, Uncovered, Unconfirmed, false)];
    assert UncoveredLines(lines) == [1] by {
      assert lines[..0] == [];
    }
    assert StillPending([1], None) == {1};
  }
}
