/** The browser's complete read of one file's pending lines (pending_snapshot.js) against the
    paged server (app/api/application.py), whose state may change between any two requests. */
module PendingSnapshot {
  import opened KeysetPaging
  import opened Options
  import opened Sorting

  const MAX_SAFE := 9007199254740991
  const MAX_PAGES := 100000

  datatype Request = Request(scan: nat, version: nat, file: nat, repository: string, path: string,
                             pageSize: int, maxRestarts: nat)

  function Q(req: Request): Query {
    PendingLines(req.scan, req.file)
  }

  function PageSize(req: Request): (size: int)
    ensures 1 <= size <= 500 && (1 <= req.pageSize <= 500 ==> size == req.pageSize)
  {
    if req.pageSize <= 0 then 200 else if req.pageSize > 500 then 500 else req.pageSize
  }

  // ---------------------------------------------------------------- replies

  /** Error codes: PAGINATION_CURSOR_STALE, PENDING_SNAPSHOT_CONTRACT_ERROR, REQUEST_GENERATION_STALE,
      PENDING_SNAPSHOT_STALE, and everything else a server may answer. */
  datatype Code = CursorStaleCode | ContractCode | CancelledCode | ChangingCode | OtherCode(text: string)

  datatype NextField = Null | Malformed | Next(cursor: Cursor)

  /** A page as the client reads it: numbers that are not plain decimals read as None. */
  datatype PageReply =
    | Failure(code: Code)
    | Payload(complete: bool, wellTyped: bool, project: bool, scan: Option<nat>, version: Option<nat>, file: Option<nat>,
              repository: string, path: string, total: Option<nat>, lines: seq<int>, hasMore: bool, next: NextField)


  datatype Verdict = Fine(next: Option<Cursor>) | Wrong(code: Code)

  /** The checks before the line numbers are read. */
  function EnvelopeVerdict(req: Request, reply: PageReply, expected: Option<nat>): (code: Option<Code>)
  {
    if reply.Failure? then Some(reply.code)
    else if !reply.complete then Some(ContractCode)
    else if !reply.project || reply.scan != Some(req.scan) || reply.version != Some(req.version)
            || reply.file != Some(req.file) then Some(CursorStaleCode)
    else if reply.total.None? || !reply.wellTyped then Some(ContractCode)
    else if reply.repository != req.repository || (req.path != "" && reply.path != req.path) then Some(CursorStaleCode)
    else if expected.Some? && expected != reply.total then Some(CursorStaleCode)
    else None
  }

  /** The checks after them: there is a cursor exactly when there are more pages. */
  function CursorVerdict(reply: PageReply): Verdict
    requires reply.Payload?
  {
    match reply.next
    case Malformed => Wrong(ContractCode)
    case Null => if reply.hasMore then Wrong(ContractCode) else Fine(None)
    case Next(cursor) => if cursor.NoCursor? || !reply.hasMore then Wrong(ContractCode) else Fine(Some(cursor))
  }

  predicate LineOk(line: int) {
    0 < line <= MAX_SAFE
  }

  ghost predicate LinesOk(lines: seq<int>) {
    Distinct(lines) && forall i :: 0 <= i < |lines| ==> LineOk(lines[i])
  }

  // ---------------------------------------------------------------- the server

  datatype FileState = FileState(scan: nat, repository: string, path: string, rows: seq<Row>)
  datatype ProjectState = ProjectState(version: nat, files: map<nat, FileState>)

  predicate Shown(state: ProjectState, req: Request) {
    req.file in state.files && state.files[req.file].scan == req.scan
  }

  function LineNumbers(rows: seq<Row>): (r: seq<int>)
    ensures |r| == |rows|
  {
    seq(|rows|, i requires 0 <= i < |rows| => if rows[i].at.ByLine? then rows[i].at.line else 0)
  }

  /** One page request: the version, the total and the rows are read in one database snapshot. */
  function Respond(state: ProjectState, req: Request, cursor: Cursor): PageReply {
    if !Shown(state, req) then Failure(OtherCode("INVALID_SCAN_IDENTITY"))
    else
      var file := state.files[req.file];
      if req.repository != "" && file.repository != req.repository then Failure(OtherCode("INVALID_SCAN_IDENTITY"))
      else
        match Handle(Snapshot(state.version, file.rows), Q(req), cursor, PageSize(req))
        case CursorStale => Failure(CursorStaleCode)
        case Answer(version, items, hasMore, next) =>
          Payload(true, true, true, Some(req.scan), Some(state.version), Some(req.file), file.repository, file.path,
                  Some(|Matching(file.rows, Q(req))|), LineNumbers(items), hasMore,
                  if next.NoCursor? then Null else Next(next))
  }

  /** Whatever the moment, the n-th request is answered from the n-th state. */
  ghost predicate KeysetServer(server: (nat, Cursor) -> PageReply, states: nat -> ProjectState, req: Request) {
    forall n: nat, cursor: Cursor :: server(n, cursor) == Respond(states(n), req, cursor)
  }

  /** All states of the requested version hold the same rows for the file. */
  ghost predicate VersionBound(states: nat -> ProjectState, req: Request, rows: seq<Row>) {
    && Pageable(Snapshot(req.version, rows), Q(req))
    && forall n: nat :: states(n).version == req.version && Shown(states(n), req) ==> states(n).files[req.file].rows == rows
  }

  /** The requested version is current from the m-th request on. */
  ghost predicate SteadyFrom(states: nat -> ProjectState, req: Request, m: nat) {
    forall n: nat :: n >= m ==>
      && states(n).version == req.version && Shown(states(n), req)
      && states(n).files[req.file].repository == req.repository
      && (req.path == "" || states(n).files[req.file].path == req.path)
  }

  /** The requested version stays current. */
  ghost predicate Steady(states: nat -> ProjectState, req: Request) {
    SteadyFrom(states, req, 0)
  }

  // ---------------------------------------------------------------- one page of the walk

  function CursorBefore(req: Request, rows: seq<Row>, k: nat): Cursor
    requires k <= |rows|
  {
    if k == 0 then NoCursor else Token(rows[k - 1].at, req.scan, req.version, FilterKey(Q(req)))
  }

  /** A page the client accepts from the keyset server was read at the requested version and
      holds the next rows. */
  lemma AcceptedPage(state: ProjectState, req: Request, rows: seq<Row>, k: nat, expected: Option<nat>)
    requires Pageable(Snapshot(req.version, rows), Q(req)) && k <= |Matching(rows, Q(req))|
    requires state.version == req.version && Shown(state, req) ==> state.files[req.file].rows == rows
    requires EnvelopeVerdict(req, Respond(state, req, CursorBefore(req, Matching(rows, Q(req)), k)), expected).None?
    ensures var all := Matching(rows, Q(req));
      var reply := Respond(state, req, CursorBefore(req, all, k));
      var size := PageSize(req);
      && state.version == req.version && Shown(state, req)
      && reply.Payload? && reply.total == Some(|all|)
      && reply.lines == LineNumbers(Take(all[k..], size))
      && reply.hasMore == (k + size < |all|)
      && CursorVerdict(reply) == Fine(if k + size < |all| then Some(CursorBefore(req, all, k + size)) else None)
  {
    var all := Matching(rows, Q(req));
    PageFrom(req, rows, k);
  }

  lemma PageFrom(req: Request, rows: seq<Row>, k: nat)
    requires Pageable(Snapshot(req.version, rows), Q(req)) && k <= |Matching(rows, Q(req))|
    ensures var all := Matching(rows, Q(req));
      var size := PageSize(req);
      Handle(Snapshot(req.version, rows), Q(req), CursorBefore(req, all, k), size)
      == Answer(req.version, Take(all[k..], size), k + size < |all|,
                if k + size < |all| then CursorBefore(req, all, k + size) else NoCursor)
  {
    hide FilterKey, Matching, Handle, Beyond, Take, Ordered, Less, Clamp, PageSize, PositionsFit;
    var all := Matching(rows, Q(req));
    var state := Snapshot(req.version, rows);
    MatchingIsPageable(state, Q(req));
    if k > 0 {
      BeyondRow(all, k - 1);
    } else {
      BeyondAll(all);
    }
    var after := if k == 0 then None else Some(all[k - 1].at);
    var j := HandledPage(state, Q(req), after, PageSize(req));
    assert |all[j..]| == |all[k..]|;
  }

  lemma BeyondAll(rows: seq<Row>)
    ensures Beyond(rows, None) == rows[0..]
  {
  }

  // ---------------------------------------------------------------- the client's state

  datatype Progress = Progress(lines: seq<int>, cursor: Cursor, pages: nat, expected: Option<nat>, cursors: set<Cursor>)

  datatype Consumed = More(progress: Progress) | Complete(lines: seq<int>, total: nat) | Bad(code: Code)

  const BEGIN := Progress([], NoCursor, 0, None, {})

  /** What reading one page does. */
  ghost function Consume(req: Request, reply: PageReply, p: Progress): Consumed {
    var envelope := EnvelopeVerdict(req, reply, p.expected);
    if envelope.Some? then Bad(envelope.value)
    else if !LinesOk(p.lines + reply.lines) then Bad(ContractCode)
    else
      match CursorVerdict(reply)
      case Wrong(code) => Bad(code)
      case Fine(next) =>
        var lines := p.lines + reply.lines;
        if next.None? then
          if |lines| != reply.total.value then Bad(ContractCode) else Complete(lines, reply.total.value)
        else if next.value in p.cursors then Bad(CursorStaleCode)
        else More(Progress(lines, next.value, p.pages + 1, reply.total, p.cursors + {next.value}))
  }

  /** The page comes from the requested project, scan, version and file. */
  ghost predicate SameIdentity(req: Request, reply: PageReply)
    requires reply.Payload?
  {
    reply.project && reply.scan == Some(req.scan) && reply.version == Some(req.version) && reply.file == Some(req.file)
  }

  /** The page comes from the requested path and announces the same total as the pages before. */
  ghost predicate SameFile(req: Request, reply: PageReply, p: Progress)
    requires reply.Payload?
  {
    && reply.repository == req.repository && (req.path != "" ==> reply.path == req.path)
    && (p.expected.Some? ==> reply.total == p.expected)
  }

  /** Its new lines are distinct from all before, positive and safe. */
  ghost predicate NewLines(p: Progress, lines: seq<int>) {
    var all := p.lines + lines;
    && (forall i, j :: 0 <= i < j < |all| ==> all[i] != all[j])
    && (forall i :: 0 <= i < |all| ==> 0 < all[i] <= MAX_SAFE)
  }

  /** There is a cursor if, and only if, there are more pages. */
  ghost predicate CursorFits(reply: PageReply)
    requires reply.Payload?
  {
    if reply.hasMore then reply.next.Next? && !reply.next.cursor.NoCursor? else reply.next.Null?
  }

  /** A page is accepted exactly if it is whole and of the right type, has the requested identity
      and path, an unchanged total, new lines and a cursor that fits and has not been seen, and the
      last page completes the total.  It starts the read over exactly if the server says that the
      cursor is stale, or the identity, the path or the total has changed, or a cursor comes again. */
  lemma PageVerdicts(req: Request, reply: PageReply, p: Progress)
    ensures var r := Consume(req, reply, p);
      !r.Bad? <==>
        && reply.Payload? && reply.complete && reply.wellTyped && reply.total.Some?
        && SameIdentity(req, reply) && SameFile(req, reply, p) && NewLines(p, reply.lines) && CursorFits(reply)
        && (if reply.hasMore then reply.next.cursor !in p.cursors else |p.lines| + |reply.lines| == reply.total.value)
    ensures Consume(req, reply, p) == Bad(CursorStaleCode) <==>
        || reply == Failure(CursorStaleCode)
        || (reply.Payload? && reply.complete
            && (|| !SameIdentity(req, reply)
                || (reply.total.Some? && reply.wellTyped
                    && (|| !SameFile(req, reply, p)
                        || (NewLines(p, reply.lines) && CursorFits(reply) && reply.hasMore
                            && reply.next.cursor in p.cursors)))))
  {
    assert reply.Payload? ==> (LinesOk(p.lines + reply.lines) <==> NewLines(p, reply.lines));
    hide LinesOk, NewLines;
  }

  ghost predicate Seen(seen: set<int>, lines: seq<int>) {
    forall x :: x in seen <==> x in lines
  }

  lemma LinesGrow(lines: seq<int>, line: int, seen: set<int>)
    requires LinesOk(lines) && Seen(seen, lines)
    ensures LinesOk(lines + [line]) <==> LineOk(line) && line !in seen
  {
    var longer := lines + [line];
    assert longer[|lines|] == line;
    forall i | 0 <= i < |lines| && lines[i] == line
      ensures !Distinct(longer)
    {
      assert longer[i] == longer[|lines|];
    }
  }

  lemma LinesOkPrefix(lines: seq<int>, more: seq<int>)
    requires LinesOk(lines + more)
    ensures LinesOk(lines)
  {
    assert forall i :: 0 <= i < |lines| ==> (lines + more)[i] == lines[i];
  }

  /** The duplicate and range check of one page's line numbers. */
  method ReadLines(lines: seq<int>, seen: set<int>, page: seq<int>) returns (ok: bool, all: seq<int>, marked: set<int>)
    requires LinesOk(lines) && Seen(seen, lines)
    ensures ok <==> LinesOk(lines + page)
    ensures ok ==> all == lines + page && Seen(marked, all)
  {
    ok, all, marked := true, lines, seen;
    assert lines + page[..0] == lines;
    for i := 0 to |page|
      invariant LinesOk(all) && Seen(marked, all) && all == lines + page[..i]
    {
      assert lines + page[..i + 1] == all + [page[i]];
      assert lines + page == (all + [page[i]]) + page[i + 1..];
      LinesGrow(all, page[i], marked);
      if !LineOk(page[i]) || page[i] in marked {
        if LinesOk(lines + page) {
          LinesOkPrefix(all + [page[i]], page[i + 1..]);
        }
        return false, all, marked;
      }
      all, marked := all + [page[i]], marked + {page[i]};
    }
    assert page[..|page|] == page;
  }

  method ConsumePage(req: Request, reply: PageReply, p: Progress, seen: set<int>)
    returns (r: Consumed, marked: set<int>)
    requires LinesOk(p.lines) && Seen(seen, p.lines)
    ensures r == Consume(req, reply, p)
    ensures r.More? ==> LinesOk(r.progress.lines) && Seen(marked, r.progress.lines) && r.progress.pages == p.pages + 1
    ensures r.Complete? ==> LinesOk(r.lines) && |r.lines| == r.total
  {
    marked := seen;
    var envelope := EnvelopeVerdict(req, reply, p.expected);
    if envelope.Some? {
      return Bad(envelope.value), marked;
    }
    var ok, lines, all := ReadLines(p.lines, seen, reply.lines);
    if !ok {
      return Bad(ContractCode), marked;
    }
    marked := all;
    var verdict := CursorVerdict(reply);
    if verdict.Wrong? {
      return Bad(verdict.code), marked;
    }
    if verdict.next.None? {
      if |lines| != reply.total.value {
        return Bad(ContractCode), marked;
      }
      return Complete(lines, reply.total.value), marked;
    }
    if verdict.next.value in p.cursors {
      return Bad(CursorStaleCode), marked;
    }
    r := More(Progress(lines, verdict.next.value, p.pages + 1, reply.total, p.cursors + {verdict.next.value}));
  }

  // ---------------------------------------------------------------- progress on an honest server

  /** The client has read exactly the first k rows, in full pages. */
  ghost predicate ReadUpTo(req: Request, all: seq<Row>, p: Progress, k: nat) {
    && k <= |all| && k == p.pages * PageSize(req)
    && p.lines == LineNumbers(all[..k]) && p.cursor == CursorBefore(req, all, k)
    && p.expected == (if p.pages == 0 then None else Some(|all|))
    && (p.pages > 0 ==> k < |all|)
    && (forall c :: c in p.cursors ==> exists j :: 0 < j <= k && c == CursorBefore(req, all, j))
  }

  lemma LineNumbersSplit(all: seq<Row>, k: nat, size: nat)
    requires k <= |all|
    ensures var end := if k + size < |all| then k + size else |all|;
      LineNumbers(all[..k]) + LineNumbers(Take(all[k..], size)) == LineNumbers(all[..end])
  {
    var end := if k + size < |all| then k + size else |all|;
    var l, r := LineNumbers(all[..k]) + LineNumbers(Take(all[k..], size)), LineNumbers(all[..end]);
    assert |l| == |r|;
    forall i | 0 <= i < |l|
      ensures l[i] == r[i]
    {
    }
  }

  lemma NewCursor(req: Request, all: seq<Row>, p: Progress, k: nat, next: nat)
    requires Ordered(all) && ReadUpTo(req, all, p, k) && k < next <= |all|
    ensures CursorBefore(req, all, next) !in p.cursors
    ensures forall c :: c in p.cursors + {CursorBefore(req, all, next)} ==>
              exists j :: 0 < j <= next && c == CursorBefore(req, all, j)
  {
    forall j | 0 < j <= k
      ensures CursorBefore(req, all, next) != CursorBefore(req, all, j)
    {
      assert Less(all[j - 1].at, all[next - 1].at);
    }
  }

  /** One accepted page moves the client one page further, or finishes with every row. */
  lemma HonestPage(state: ProjectState, req: Request, rows: seq<Row>, p: Progress, k: nat)
    requires Pageable(Snapshot(req.version, rows), Q(req)) && ReadUpTo(req, Matching(rows, Q(req)), p, k)
    requires state.version == req.version && Shown(state, req) ==> state.files[req.file].rows == rows
    ensures var all := Matching(rows, Q(req));
      var r := Consume(req, Respond(state, req, p.cursor), p);
      && (r.More? ==> r.progress.pages == p.pages + 1 && state.version == req.version && ReadUpTo(req, all, r.progress, k + PageSize(req)))
      && (r.Complete? ==> state.version == req.version && r.lines == LineNumbers(all) && r.total == |all|
                          && |all| <= (p.pages + 1) * PageSize(req))
  {
    hide Matching, FilterKey, Respond, EnvelopeVerdict, LinesOk, Ordered;
    var all := Matching(rows, Q(req));
    var reply := Respond(state, req, p.cursor);
    if EnvelopeVerdict(req, reply, p.expected).None? {
      AcceptedPage(state, req, rows, k, p.expected);
      LineNumbersSplit(all, k, PageSize(req));
      assert (p.pages + 1) * PageSize(req) == p.pages * PageSize(req) + PageSize(req);
      if k + PageSize(req) < |all| {
        MatchingIsPageable(Snapshot(req.version, rows), Q(req));
        NewCursor(req, all, p, k, k + PageSize(req));
      } else {
        assert all[..|all|] == all;
      }
    }
  }

  lemma NextLinesOk(all: seq<Row>, k: nat, size: nat)
    requires k <= |all| && LinesOk(LineNumbers(all))
    ensures LinesOk(LineNumbers(all[..k]) + LineNumbers(Take(all[k..], size)))
    ensures k + size >= |all| ==> |LineNumbers(all[..k]) + LineNumbers(Take(all[k..], size))| == |all|
  {
    LineNumbersSplit(all, k, size);
    var end := if k + size < |all| then k + size else |all|;
    assert LineNumbers(all) == LineNumbers(all[..end]) + LineNumbers(all[end..]);
    LinesOkPrefix(LineNumbers(all[..end]), LineNumbers(all[end..]));
  }

  /** While the requested version stays current only the line numbers themselves can be wrong. */
  lemma SteadyPage(state: ProjectState, req: Request, rows: seq<Row>, p: Progress, k: nat)
    requires Pageable(Snapshot(req.version, rows), Q(req)) && ReadUpTo(req, Matching(rows, Q(req)), p, k)
    requires state.version == req.version && Shown(state, req) && state.files[req.file].rows == rows
    requires state.files[req.file].repository == req.repository
    requires req.path == "" || state.files[req.file].path == req.path
    requires LinesOk(LineNumbers(Matching(rows, Q(req))))
    ensures !Consume(req, Respond(state, req, p.cursor), p).Bad?
  {
    var all := Matching(rows, Q(req));
    SteadyEnvelope(state, req, rows, p, k);
    AcceptedPage(state, req, rows, k, p.expected);
    hide Matching, FilterKey, Respond, EnvelopeVerdict, Ordered;
    NextLinesOk(all, k, PageSize(req));
    hide LinesOk;
    if k + PageSize(req) < |all| {
      MatchingIsPageable(Snapshot(req.version, rows), Q(req));
      NewCursor(req, all, p, k, k + PageSize(req));
    } else {
      assert all[..|all|] == all;
    }
  }

  lemma SteadyEnvelope(state: ProjectState, req: Request, rows: seq<Row>, p: Progress, k: nat)
    requires Pageable(Snapshot(req.version, rows), Q(req)) && ReadUpTo(req, Matching(rows, Q(req)), p, k)
    requires state.version == req.version && Shown(state, req) && state.files[req.file].rows == rows
    requires state.files[req.file].repository == req.repository
    requires req.path == "" || state.files[req.file].path == req.path
    ensures EnvelopeVerdict(req, Respond(state, req, p.cursor), p.expected).None?
  {
    hide Matching, FilterKey, Handle, Ordered;
    PageFrom(req, rows, k);
  }

  // ---------------------------------------------------------------- the client

  const BY_NUMBER := (a: int, b: int) => a <= b

  function SortedNumbers(lines: seq<int>): seq<int> {
    SortBy(lines, BY_NUMBER)
  }

  lemma SortedLines(lines: seq<int>)
    requires LinesOk(lines)
    ensures StrictlyIncreasing(SortedNumbers(lines)) && LinesOk(SortedNumbers(lines))
    ensures |SortedNumbers(lines)| == |lines|
  {
    var sorted := SortBy(lines, BY_NUMBER);
    SortByIsSorted(lines, BY_NUMBER);
    SortKeepsDistinct(lines, BY_NUMBER);
    SortByMembers(lines, BY_NUMBER);
    assert forall i, j :: 0 <= i < j < |sorted| ==> BY_NUMBER(sorted[i], sorted[j]) && sorted[i] != sorted[j];
    assert forall i :: 0 <= i < |sorted| ==> sorted[i] in sorted;
  }

  /** Rows in ORDER BY order need no sorting. */
  lemma OrderedLinesStay(req: Request, rows: seq<Row>)
    requires Pageable(Snapshot(req.version, rows), Q(req))
    ensures var lines := LineNumbers(Matching(rows, Q(req))); SortedNumbers(lines) == lines
  {
    var all := Matching(rows, Q(req));
    var lines := LineNumbers(all);
    MatchingIsPageable(Snapshot(req.version, rows), Q(req));
    hide Matching;
    forall i, j | 0 <= i < j < |lines|
      ensures BY_NUMBER(lines[i], lines[j])
    {
      assert Less(all[i].at, all[j].at);
    }
    SortedIsFixpoint(lines, BY_NUMBER);
  }

  /** A keyset server whose states of one version agree. */
  ghost predicate Honest(server: (nat, Cursor) -> PageReply, states: nat -> ProjectState, req: Request, rows: seq<Row>) {
    KeysetServer(server, states, req) && VersionBound(states, req, rows)
  }

  /** The rows fit into the pages one attempt may read. */
  ghost predicate Fits(req: Request, all: seq<Row>) {
    |all| <= (MAX_PAGES + 1) * PageSize(req)
  }

  ghost predicate Readable(req: Request, all: seq<Row>) {
    LinesOk(LineNumbers(all)) && Fits(req, all)
  }

  /** The request is not cancelled before or after any of the requests first..end. */
  ghost predicate StaysCurrent(current: (nat, bool) -> bool, first: nat, end: nat) {
    forall m: nat :: first <= m < end ==> current(m, false) && current(m, true)
  }

  ghost predicate PagesRead(req: Request, all: seq<Row>, p: Progress) {
    ReadUpTo(req, all, p, p.pages * PageSize(req))
  }

  /** What the next page of an honest server does to the client. */
  lemma NextPage(server: (nat, Cursor) -> PageReply, states: nat -> ProjectState, req: Request, rows: seq<Row>,
                 p: Progress, n: nat)
    requires Honest(server, states, req, rows) && PagesRead(req, Matching(rows, Q(req)), p)
    ensures var all := Matching(rows, Q(req));
      var r := Consume(req, server(n, p.cursor), p);
      && (r.More? ==> PagesRead(req, all, r.progress))
      && (r.Complete? ==> states(n).version == req.version && r.lines == LineNumbers(all))
      && (r.Complete? && p.pages <= MAX_PAGES ==> Fits(req, all))
      && (SteadyFrom(states, req, n) && LinesOk(LineNumbers(all)) ==> !r.Bad?)
  {
    hide Respond, LinesOk, Pageable, Matching, FilterKey, CursorBefore, LineNumbers, PageSize, Consume;
    PageSizes(req);
    PagesGrow(p.pages, PageSize(req));
    assert p.pages > 0 ==> p.pages * PageSize(req) < |Matching(rows, Q(req))|;
    assert server(n, p.cursor) == Respond(states(n), req, p.cursor);
    hide ReadUpTo, KeysetServer;
    HonestPage(states(n), req, rows, p, p.pages * PageSize(req));
    if SteadyFrom(states, req, n) && LinesOk(LineNumbers(Matching(rows, Q(req)))) {
      SteadyPage(states(n), req, rows, p, p.pages * PageSize(req));
    }
  }

  lemma PageSizes(req: Request)
    ensures 1 <= PageSize(req) <= 500
  {
  }

  lemma PagesGrow(pages: nat, size: nat)
    requires size >= 1
    ensures (pages + 1) * size == pages * size + size
    ensures pages <= MAX_PAGES ==> (pages + 1) * size <= (MAX_PAGES + 1) * size
    ensures pages > MAX_PAGES ==> pages * size >= (MAX_PAGES + 1) * size
  {
    if pages <= MAX_PAGES {
      assert (MAX_PAGES - pages) * size >= 0;
    } else {
      assert (pages - MAX_PAGES - 1) * size >= 0;
    }
  }

  /** One page, with what it means on an honest server. */
  method ReadPage(req: Request, server: (nat, Cursor) -> PageReply, n: nat, p: Progress, seen: set<int>,
                  ghost states: nat -> ProjectState, ghost rows: seq<Row>) returns (r: Consumed, marked: set<int>)
    requires LinesOk(p.lines) && Seen(seen, p.lines) && p.pages <= MAX_PAGES
    ensures r.More? ==> LinesOk(r.progress.lines) && Seen(marked, r.progress.lines) && r.progress.pages == p.pages + 1
    ensures r.Complete? ==> LinesOk(r.lines) && |r.lines| == r.total
    ensures Honest(server, states, req, rows) && PagesRead(req, Matching(rows, Q(req)), p) ==>
              var all := Matching(rows, Q(req));
              && (r.More? ==> PagesRead(req, all, r.progress))
              && (r.Complete? ==> states(n).version == req.version && r.lines == LineNumbers(all) && Fits(req, all))
              && (r.Bad? && SteadyFrom(states, req, n) ==> !LinesOk(LineNumbers(all)))
    ensures r == Consume(req, server(n, p.cursor), p)
  {
    r, marked := ConsumePage(req, server(n, p.cursor), p, seen);
    hide Consume, Respond, LinesOk, Seen, Pageable, Matching, FilterKey, LineNumbers, Fits, PagesRead, Honest, SteadyFrom;
    if Honest(server, states, req, rows) && PagesRead(req, Matching(rows, Q(req)), p) {
      NextPage(server, states, req, rows, p, n);
    }
  }

  datatype Outcome = Read(lines: seq<int>, total: nat, pages: nat) | Stopped(code: Code)

  /** One attempt: the number of its first request, the client's state before each page, how it
      ended and the number of requests made by then. */
  datatype Try = Try(first: nat, states: seq<Progress>, outcome: Outcome, end: nat)

  /** Page after page is read without a fault and without being cancelled. */
  ghost predicate ReadsOn(req: Request, server: (nat, Cursor) -> PageReply, current: (nat, bool) -> bool,
                          first: nat, ps: seq<Progress>) {
    && ps != [] && ps[0] == BEGIN
    && forall k :: 0 <= k < |ps| - 1 ==> ReadsOne(req, server, current, first, ps, k)
  }

  /** The k-th page of the attempt is read and another one is to follow. */
  ghost predicate ReadsOne(req: Request, server: (nat, Cursor) -> PageReply, current: (nat, bool) -> bool,
                           first: nat, ps: seq<Progress>, k: nat)
    requires k < |ps| - 1
  {
    && current(first + k, false) && current(first + k, true)
    && Consume(req, server(first + k, ps[k].cursor), ps[k]) == More(ps[k + 1])
  }

  /** How an attempt ends: cancelled, too long, at a page that fails a check, or at the last page. */
  ghost predicate EndsAs(req: Request, server: (nat, Cursor) -> PageReply, current: (nat, bool) -> bool, t: Try) {
    && ReadsOn(req, server, current, t.first, t.states)
    && var p := t.states[|t.states| - 1];
       var m := t.first + |t.states| - 1;
       if !current(m, false) then t.outcome == Stopped(CancelledCode) && t.end == m
       else if |t.states| > MAX_PAGES + 1 then t.outcome == Stopped(CursorStaleCode) && t.end == m
       else
         && t.end == m + 1
         && if !current(m, true) then t.outcome == Stopped(CancelledCode)
            else
              match Consume(req, server(m, p.cursor), p)
              case More(_) => false
              case Bad(code) => t.outcome == Stopped(code)
              case Complete(lines, total) => t.outcome == Read(SortedNumbers(lines), total, |t.states|)
  }

  /** One attempt: page after page until the last one, or until a check fails.  The n-th
      request of the whole read is server(n, ...). */
  method Attempt(req: Request, server: (nat, Cursor) -> PageReply, current: (nat, bool) -> bool, first: nat,
                 ghost states: nat -> ProjectState, ghost rows: seq<Row>) returns (o: Outcome, n: nat, ghost ps: seq<Progress>)
    ensures first <= n <= first + MAX_PAGES + 1
    ensures EndsAs(req, server, current, Try(first, ps, o, n))
    ensures o == Stopped(CursorStaleCode) ==> n > first
    ensures o.Read? ==> StrictlyIncreasing(o.lines) && LinesOk(o.lines) && |o.lines| == o.total
                        && o.pages == n - first && n > first && StaysCurrent(current, first, n)
    ensures o.Read? && Honest(server, states, req, rows) ==>
              o.lines == LineNumbers(Matching(rows, Q(req))) && states(n - 1).version == req.version
    ensures Honest(server, states, req, rows) && SteadyFrom(states, req, first)
            && StaysCurrent(current, first, first + MAX_PAGES + 2) ==>
              (o.Read? <==> Readable(req, Matching(rows, Q(req))))
  {
    hide Consume, Respond, LinesOk, Seen, Matching, FilterKey, SortedNumbers, StrictlyIncreasing,
      Honest, SteadyFrom, ReadUpTo, PagesRead, PageSize, Fits, LineNumbers, ReadsOn;
    var p := BEGIN;
    var seen: set<int> := {};
    n := first;
    ps := [BEGIN];
    NothingReadYet(req, server, current, first);
    ghost var all := Matching(rows, Q(req));
    ghost var honest := Honest(server, states, req, rows);
    NothingRead(server, states, req, rows);
    while true
      invariant n == first + p.pages <= first + MAX_PAGES + 1 && StaysCurrent(current, first, n)
      invariant |ps| == p.pages + 1 && ps[p.pages] == p && ReadsOn(req, server, current, first, ps)
      invariant LinesOk(p.lines) && Seen(seen, p.lines)
      invariant honest ==> PagesRead(req, all, p)
      decreases MAX_PAGES + 1 - p.pages
    {
      if !current(n, false) {
        return Stopped(CancelledCode), n, ps;
      }
      if p.pages > MAX_PAGES {
        if honest {
          TooManyPages(req, all, p);
        }
        return Stopped(CursorStaleCode), n, ps;
      }
      n := n + 1;
      if !current(n - 1, true) {
        return Stopped(CancelledCode), n, ps;
      }
      SteadyLater(states, req, first, n - 1);
      var r, marked := ReadPage(req, server, n - 1, p, seen, states, rows);
      match r
      case Bad(code) => return Stopped(code), n, ps;
      case Complete(lines, total) =>
        SortedLines(lines);
        return Read(SortedNumbers(lines), total, p.pages + 1), n, ps;
      case More(next) =>
        OneMorePage(req, server, current, first, ps, next);
        p, seen, ps := next, marked, ps + [next];
    }
  }

  lemma SteadyLater(states: nat -> ProjectState, req: Request, first: nat, n: nat)
    requires first <= n
    ensures SteadyFrom(states, req, first) ==> SteadyFrom(states, req, n)
  {
  }

  lemma NothingReadYet(req: Request, server: (nat, Cursor) -> PageReply, current: (nat, bool) -> bool, first: nat)
    ensures ReadsOn(req, server, current, first, [BEGIN])
  {
  }

  lemma OneMorePage(req: Request, server: (nat, Cursor) -> PageReply, current: (nat, bool) -> bool, first: nat,
                    ps: seq<Progress>, next: Progress)
    requires ReadsOn(req, server, current, first, ps)
    requires current(first + |ps| - 1, false) && current(first + |ps| - 1, true)
    requires Consume(req, server(first + |ps| - 1, ps[|ps| - 1].cursor), ps[|ps| - 1]) == More(next)
    ensures ReadsOn(req, server, current, first, ps + [next])
  {
    hide Consume;
    var more := ps + [next];
    forall k | 0 <= k < |more| - 1
      ensures ReadsOne(req, server, current, first, more, k)
    {
      if k < |ps| - 1 {
        assert ReadsOne(req, server, current, first, ps, k);
      }
    }
  }

  ghost predicate NeverCancelled(current: (nat, bool) -> bool) {
    forall m: nat, b :: current(m, b)
  }

  datatype Result = Ok(lines: seq<int>, total: nat, pages: nat, restarts: nat) | Failed(code: Code)

  /** Every attempt but the last stopped stale, and the next one begins where it stopped. */
  ghost predicate Restarted(req: Request, server: (nat, Cursor) -> PageReply, current: (nat, bool) -> bool, tries: seq<Try>) {
    && (forall j :: 0 <= j < |tries| ==> EndsAs(req, server, current, tries[j]))
    && (tries != [] ==> tries[0].first == 0)
    && (forall j :: 0 < j < |tries| ==> tries[j].first == tries[j - 1].end)
    && (forall j :: 0 <= j < |tries| - 1 ==> tries[j].outcome == Stopped(CursorStaleCode))
  }

  /** What the last attempt makes of the whole read; a stale one is final only after all restarts. */
  ghost predicate Concludes(req: Request, tries: seq<Try>, r: Result, n: nat) {
    && 1 <= |tries| <= req.maxRestarts + 1
    && n == tries[|tries| - 1].end
    && match tries[|tries| - 1].outcome
       case Read(lines, total, pages) => r == Ok(lines, total, pages, |tries| - 1)
       case Stopped(code) =>
         if code == CursorStaleCode then r == Failed(ChangingCode) && |tries| == req.maxRestarts + 1
         else r == Failed(code)
  }

  /** No page request is answered with the client's own error code for a changing snapshot. */
  ghost predicate NeverClaimsChanging(server: (nat, Cursor) -> PageReply) {
    forall m: nat, cursor :: server(m, cursor) != Failure(ChangingCode)
  }

  /** The whole read: a stale attempt starts over, at most maxRestarts times.

      Whatever the server answers, a result is strictly increasing, has the declared length and
      was never cancelled, and the read gives up as changing only after maxRestarts + 1 attempts
      that all stopped stale.  If the server pages one version's rows by keyset, the result is
      exactly the pending lines of the requested version, however the state changed between the
      pages; and once an attempt begins in a state of that version that then stays current, the
      read succeeds exactly if the lines are distinct positive safe integers that fit into 100001
      pages. */
  method FetchFileComplete(req: Request, server: (nat, Cursor) -> PageReply, current: (nat, bool) -> bool,
                           ghost states: nat -> ProjectState, ghost rows: seq<Row>)
    returns (r: Result, n: nat, ghost tries: seq<Try>)
    ensures n <= (req.maxRestarts + 1) * (MAX_PAGES + 1)
    ensures Restarted(req, server, current, tries) && Concludes(req, tries, r, n)
    ensures r == Failed(ChangingCode) && NeverClaimsChanging(server) ==>
              && |tries| == req.maxRestarts + 1
              && AllStale(tries)
              && n >= req.maxRestarts + 1
    ensures r.Ok? ==> StrictlyIncreasing(r.lines) && LinesOk(r.lines) && |r.lines| == r.total
                      && r.restarts <= req.maxRestarts && 1 <= r.pages <= MAX_PAGES + 1 && r.pages <= n
                      && StaysCurrent(current, n - r.pages, n)
    ensures r.Ok? && Honest(server, states, req, rows) ==>
              r.lines == LineNumbers(Matching(rows, Q(req))) && states(n - 1).version == req.version
    ensures forall j :: 0 <= j < |tries| && SteadyFrom(states, req, tries[j].first)
                        && Honest(server, states, req, rows) && NeverCancelled(current) ==>
              (r.Ok? <==> Readable(req, Matching(rows, Q(req))))
    ensures Honest(server, states, req, rows) && Steady(states, req) && NeverCancelled(current) ==>
              (r.Ok? <==> Readable(req, Matching(rows, Q(req))))
  {
    hide LinesOk, Matching, FilterKey, StrictlyIncreasing, Honest, SteadyFrom, Readable, LineNumbers, EndsAs;
    var restarts := 0;
    n, tries := 0, [];
    while true
      invariant |tries| == restarts <= req.maxRestarts && restarts <= n <= restarts * (MAX_PAGES + 1)
      invariant n == if tries == [] then 0 else tries[|tries| - 1].end
      invariant Restarted(req, server, current, tries) && AllStale(tries)
      invariant forall j :: 0 <= j < |tries| ==> tries[j].first <= n
      invariant forall j :: 0 <= j < |tries| && SteadyFrom(states, req, tries[j].first)
                            && Honest(server, states, req, rows) && NeverCancelled(current) ==>
                  !Readable(req, Matching(rows, Q(req)))
      decreases req.maxRestarts - restarts
    {
      forall j | 0 <= j < |tries|
        ensures SteadyFrom(states, req, tries[j].first) ==> SteadyFrom(states, req, n)
      {
        SteadyLater(states, req, tries[j].first, n);
      }
      var outcome, end;
      ghost var ps;
      outcome, end, ps := Attempt(req, server, current, n, states, rows);
      OneMoreTry(req, server, current, tries, Try(n, ps, outcome, end));
      tries := tries + [Try(n, ps, outcome, end)];
      n := end;
      assert tries[0].first == 0;
      match outcome
      case Read(lines, total, pages) => return Ok(lines, total, pages, restarts), n, tries;
      case Stopped(code) =>
        if code != CursorStaleCode {
          return Failed(code), n, tries;
        }
        if restarts >= req.maxRestarts {
          return Failed(ChangingCode), n, tries;
        }
        restarts := restarts + 1;
    }
  }

  ghost predicate AllStale(tries: seq<Try>) {
    forall j :: 0 <= j < |tries| ==> tries[j].outcome == Stopped(CursorStaleCode)
  }

  lemma OneMoreTry(req: Request, server: (nat, Cursor) -> PageReply, current: (nat, bool) -> bool, tries: seq<Try>, t: Try)
    requires Restarted(req, server, current, tries) && AllStale(tries) && EndsAs(req, server, current, t)
    requires t.first == if tries == [] then 0 else tries[|tries| - 1].end
    ensures Restarted(req, server, current, tries + [t])
    ensures NeverClaimsChanging(server) ==> t.outcome != Stopped(ChangingCode)
  {
    hide EndsAs;
    if t.outcome == Stopped(ChangingCode) {
      ChangingIsClaimed(req, server, current, t);
    }
  }

  lemma ChangingIsClaimed(req: Request, server: (nat, Cursor) -> PageReply, current: (nat, bool) -> bool, t: Try)
    requires EndsAs(req, server, current, t) && t.outcome == Stopped(ChangingCode)
    ensures !NeverClaimsChanging(server)
  {
    hide Consume;
    var p := t.states[|t.states| - 1];
    OwnErrorsOnly(req, server(t.first + |t.states| - 1, p.cursor), p);
  }

  /** The checks of a page never fail with the code for a changing snapshot. */
  lemma OwnErrorsOnly(req: Request, reply: PageReply, p: Progress)
    ensures Consume(req, reply, p) == Bad(ChangingCode) ==> reply == Failure(ChangingCode)
  {
    hide LinesOk;
  }

  lemma TooManyPages(req: Request, all: seq<Row>, p: Progress)
    requires PagesRead(req, all, p) && p.pages > MAX_PAGES
    ensures !Fits(req, all)
  {
    PagesGrow(p.pages, PageSize(req));
  }

  lemma NothingRead(server: (nat, Cursor) -> PageReply, states: nat -> ProjectState, req: Request, rows: seq<Row>)
    ensures PagesRead(req, Matching(rows, Q(req)), BEGIN) && LinesOk([]) && Seen({}, [])
    ensures Honest(server, states, req, rows) ==>
              SortedNumbers(LineNumbers(Matching(rows, Q(req)))) == LineNumbers(Matching(rows, Q(req)))
  {
    if Honest(server, states, req, rows) {
      OrderedLinesStay(req, rows);
    }
  }
}
