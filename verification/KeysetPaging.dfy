/** Keyset paging with cursors bound to one scan, data version and filter
    (app/api/application.py, app/db/repositories/file_state_repository.py). */
module KeysetPaging {
  import opened Options

  /** What ORDER BY sorts on: the id alone, or the line number and then the id. */
  datatype Position = ById(id: int) | ByLine(line: int, id: int)

  predicate Less(a: Position, b: Position) {
    if a.ById? then b.ById? && a.id < b.id
    else b.ByLine? && (b.line > a.line || (b.line == a.line && b.id > a.id))
  }

  datatype Row = Row(at: Position, scan: int, reason: string)

  ghost predicate Ordered(rows: seq<Row>) {
    forall i, j :: 0 <= i < j < |rows| ==> Less(rows[i].at, rows[j].at)
  }

  // ---------------------------------------------------------------- one page

  /** The rows after the cursor's position. */
  function Beyond(rows: seq<Row>, after: Option<Position>): seq<Row> {
    if after.None? then rows
    else if rows == [] then []
    else (if Less(after.value, rows[0].at) then [rows[0]] else []) + Beyond(rows[1..], after)
  }

  function Take(rows: seq<Row>, limit: nat): (r: seq<Row>)
    ensures |r| <= limit
  {
    if |rows| <= limit then rows else rows[..limit]
  }

  datatype Page = Page(items: seq<Row>, hasMore: bool, next: Option<Position>)

  /** One row more than the limit is fetched to learn whether there is another page. */
  function PageAfter(rows: seq<Row>, after: Option<Position>, limit: nat): Page {
    var fetched := Take(Beyond(rows, after), limit + 1);
    var hasMore := |fetched| > limit;
    var items := Take(fetched, limit);
    Page(items, hasMore, if hasMore && items != [] then Some(items[|items| - 1].at) else None)
  }

  lemma {:induction false} AllBeyond(rows: seq<Row>, after: Position)
    requires forall i :: 0 <= i < |rows| ==> Less(after, rows[i].at)
    ensures Beyond(rows, Some(after)) == rows
  {
    if rows != [] {
      AllBeyond(rows[1..], after);
    }
  }

  lemma {:induction false} BeyondIsSuffix(rows: seq<Row>, after: Option<Position>) returns (k: nat)
    requires Ordered(rows)
    ensures k <= |rows| && Beyond(rows, after) == rows[k..]
  {
    if after.None? || rows == [] {
      k := 0;
    } else if Less(after.value, rows[0].at) {
      AllBeyond(rows, after.value);
      k := 0;
    } else {
      var rest := BeyondIsSuffix(rows[1..], after);
      k := rest + 1;
    }
  }

  lemma {:induction false} BeyondRow(rows: seq<Row>, k: nat)
    requires Ordered(rows) && k < |rows|
    ensures Beyond(rows, Some(rows[k].at)) == rows[k + 1..]
  {
    if k == 0 {
      AllBeyond(rows[1..], rows[0].at);
    } else {
      BeyondRow(rows[1..], k - 1);
      assert rows[1..][k..] == rows[k + 1..];
    }
  }

  /** A page is the next `limit` rows, and its cursor continues right after them. */
  lemma PageIsNextRows(rows: seq<Row>, after: Option<Position>, limit: nat) returns (k: nat)
    requires Ordered(rows) && limit >= 1
    ensures k <= |rows| && Beyond(rows, after) == rows[k..]
    ensures var page := PageAfter(rows, after, limit);
      && page.items == Take(rows[k..], limit)
      && (page.hasMore <==> k + limit < |rows|) && (page.next.Some? <==> page.hasMore)
      && (page.hasMore ==> page.next.value == rows[k + limit - 1].at && Beyond(rows, page.next) == rows[k + limit..])
  {
    k := BeyondIsSuffix(rows, after);
    var page := PageAfter(rows, after, limit);
    if page.hasMore {
      assert rows[k..][limit - 1] == rows[k + limit - 1];
      BeyondRow(rows, k + limit - 1);
    }
  }

  // ---------------------------------------------------------------- cursors

  /** A cursor parameter: none, something that does not decode, or the text of a token; the
      encoding of tokens is injective. */
  datatype Cursor = NoCursor | Undecodable(text: string) | Token(position: Position, scan: int, version: int, filter: string)

  datatype Decoded = Accepted(after: Option<Position>) | Stale

  function Encode(next: Option<Position>, scan: int, version: int, filter: string): Cursor {
    if next.None? then NoCursor else Token(next.value, scan, version, filter)
  }

  /** _decode_cursor wants an id, _decode_keyset_cursor a line position. */
  function Decode(cursor: Cursor, byLine: bool, scan: int, version: int, filter: string): Decoded {
    match cursor
    case NoCursor => Accepted(None)
    case Undecodable(_) => Stale
    case Token(position, s, v, f) =>
      if position.ByLine? != byLine || s != scan || v != version || f != filter then Stale else Accepted(Some(position))
  }

  /** What the cursor of a request is bound to. */
  datatype Query =
    | Decisions(scan: int, reason: string)
    | Pending(scan: int)
    | PendingLines(scan: int, file: nat)

  function Digits(n: nat): (r: string)
    ensures |r| >= 1
  {
    if n < 10 then [['0', '1', '2', '3', '4', '5', '6', '7', '8', '9'][n]]
    else Digits(n / 10) + [['0', '1', '2', '3', '4', '5', '6', '7', '8', '9'][n % 10]]
  }

  lemma {:induction false} DigitsAreInjective(m: nat, n: nat)
    requires Digits(m) == Digits(n)
    ensures m == n
  {
    var d, e := Digits(m), Digits(n);
    assert d[|d| - 1] == ['0', '1', '2', '3', '4', '5', '6', '7', '8', '9'][m % 10];
    assert e[|e| - 1] == ['0', '1', '2', '3', '4', '5', '6', '7', '8', '9'][n % 10];
    assert m % 10 == n % 10;
    if m >= 10 && n >= 10 {
      assert d[..|d| - 1] == Digits(m / 10) && e[..|e| - 1] == Digits(n / 10);
      DigitsAreInjective(m / 10, n / 10);
    }
  }

  function FilterKey(q: Query): string {
    match q
    case Decisions(_, reason) => "decisions:" + reason
    case Pending(_) => "pending"
    case PendingLines(_, file) => "pending_lines:" + Digits(file)
  }

  /** Two requests share a cursor filter only if they are the same request. */
  lemma FilterKeysAreDistinct(p: Query, q: Query)
    requires p.scan == q.scan && FilterKey(p) == FilterKey(q)
    ensures p == q
  {
    assert FilterKey(p)[0] == if p.Decisions? then 'd' else 'p';
    assert FilterKey(q)[0] == if q.Decisions? then 'd' else 'p';
    if p.Decisions? {
      assert FilterKey(p)[10..] == p.reason && FilterKey(q)[10..] == q.reason;
    } else if p.PendingLines? && q.PendingLines? {
      assert FilterKey(p)[14..] == Digits(p.file) && FilterKey(q)[14..] == Digits(q.file);
      DigitsAreInjective(p.file, q.file);
    } else {
      assert |FilterKey(p)| == |FilterKey(q)|;
    }
  }

  // ---------------------------------------------------------------- the handlers

  datatype Snapshot = Snapshot(version: int, rows: seq<Row>)

  datatype Reply = Answer(version: int, items: seq<Row>, hasMore: bool, next: Cursor) | CursorStale

  function Clamp(n: int, low: int, high: int): (r: int)
    ensures low <= high ==> low <= r <= high && (low <= n <= high ==> r == n)
  {
    if n < low then low else if n > high then high else n
  }

  predicate Matches(row: Row, q: Query) {
    row.scan == q.scan && (q.Decisions? && q.reason != "" ==> row.reason == q.reason)
  }

  function Matching(rows: seq<Row>, q: Query): seq<Row> {
    if rows == [] then []
    else (if Matches(rows[0], q) then [rows[0]] else []) + Matching(rows[1..], q)
  }

  /** One page request against the state the server reads.  `rows` are the rows of the joined
      tables that the query ranges over, in the order of ORDER BY. */
  function Handle(state: Snapshot, q: Query, cursor: Cursor, limit: int): Reply {
    match Decode(cursor, q.PendingLines?, q.scan, state.version, FilterKey(q))
    case Stale => CursorStale
    case Accepted(after) =>
      var page := PageAfter(Matching(state.rows, q), after, Clamp(limit, 1, 500));
      Answer(state.version, page.items, page.hasMore, Encode(page.next, q.scan, state.version, FilterKey(q)))
  }

  lemma {:induction false} MatchingIsSubsequence(rows: seq<Row>, q: Query)
    requires Ordered(rows)
    ensures Ordered(Matching(rows, q))
    ensures forall x :: x in Matching(rows, q) <==> x in rows && Matches(x, q)
  {
    if rows != [] {
      var rest := Matching(rows[1..], q);
      MatchingIsSubsequence(rows[1..], q);
      assert rows == [rows[0]] + rows[1..];
      hide Matches;
      forall i | 0 <= i < |rest|
        ensures Less(rows[0].at, rest[i].at)
      {
        assert rest[i] in rest;
        assert rest[i] in rows[1..];
      }
    }
  }

  /** The positions a request pages over have the form its cursors have. */
  ghost predicate PositionsFit(rows: seq<Row>, q: Query) {
    forall i :: 0 <= i < |rows| ==> rows[i].at.ByLine? == q.PendingLines?
  }

  ghost predicate Pageable(state: Snapshot, q: Query) {
    Ordered(state.rows) && PositionsFit(state.rows, q)
  }

  lemma MatchingIsPageable(state: Snapshot, q: Query)
    requires Pageable(state, q)
    ensures Ordered(Matching(state.rows, q)) && PositionsFit(Matching(state.rows, q), q)
  {
    var rows := Matching(state.rows, q);
    MatchingIsSubsequence(state.rows, q);
    forall i | 0 <= i < |rows|
      ensures rows[i].at.ByLine? == q.PendingLines?
    {
      assert rows[i] in rows;
    }
  }

  function CursorAt(state: Snapshot, q: Query, after: Option<Position>): Cursor {
    Encode(after, q.scan, state.version, FilterKey(q))
  }

  /** The reply to a request's own cursor: the next rows, and a cursor right after them. */
  lemma HandledPage(state: Snapshot, q: Query, after: Option<Position>, limit: int) returns (k: nat)
    requires Pageable(state, q) && (after.Some? ==> after.value.ByLine? == q.PendingLines?)
    ensures k <= |Matching(state.rows, q)|
    ensures var rows := Matching(state.rows, q);
      var size := Clamp(limit, 1, 500);
      var last := if k + size < |rows| then Some(rows[k + size - 1].at) else None;
      && Beyond(rows, after) == rows[k..]
      && Handle(state, q, CursorAt(state, q, after), limit)
         == Answer(state.version, Take(rows[k..], size), k + size < |rows|, CursorAt(state, q, last))
      && (last.Some? ==> last.value.ByLine? == q.PendingLines? && Beyond(rows, last) == rows[k + size..])
  {
    hide FilterKey, Matching, Beyond, Less, PageAfter, Take, Ordered;
    MatchingIsPageable(state, q);
    var rows := Matching(state.rows, q);
    var size := Clamp(limit, 1, 500);
    assert size >= 1;
    hide Clamp;
    k := PageIsNextRows(rows, after, size);
    var page := PageAfter(rows, after, size);
    assert Decode(CursorAt(state, q, after), q.PendingLines?, q.scan, state.version, FilterKey(q)) == Accepted(after);
    assert Handle(state, q, CursorAt(state, q, after), limit)
        == Answer(state.version, page.items, page.hasMore, CursorAt(state, q, page.next));
  }

  /** The replies to a client that follows next_cursor while the state does not change. */
  ghost function Replies(state: Snapshot, q: Query, after: Option<Position>, limit: int): seq<Reply>
    requires Pageable(state, q) && (after.Some? ==> after.value.ByLine? == q.PendingLines?)
    decreases |Beyond(Matching(state.rows, q), after)|
  {
    var reply := Handle(state, q, CursorAt(state, q, after), limit);
    if reply.Answer? && reply.hasMore then
      assert reply.next.Token? && reply.next.position.ByLine? == q.PendingLines?
             && |Beyond(Matching(state.rows, q), Some(reply.next.position))| < |Beyond(Matching(state.rows, q), after)| by {
        var k := HandledPage(state, q, after, limit);
      }
      [reply] + Replies(state, q, Some(reply.next.position), limit)
    else [reply]
  }

  function ReplyItems(replies: seq<Reply>): seq<Row> {
    if replies == [] then []
    else (if replies[0].Answer? then replies[0].items else []) + ReplyItems(replies[1..])
  }

  lemma FirstReply(reply: Reply, rest: seq<Reply>)
    ensures ReplyItems([reply] + rest) == (if reply.Answer? then reply.items else []) + ReplyItems(rest)
  {
    assert ([reply] + rest)[1..] == rest;
  }

  lemma {:induction false} RepliesFrom(state: Snapshot, q: Query, after: Option<Position>, limit: int)
    requires Pageable(state, q) && (after.Some? ==> after.value.ByLine? == q.PendingLines?)
    ensures var replies := Replies(state, q, after, limit);
      && ReplyItems(replies) == Beyond(Matching(state.rows, q), after)
      && |replies| >= 1
      && (forall i :: 0 <= i < |replies| ==> replies[i].Answer? && |replies[i].items| <= 500)
    decreases |Beyond(Matching(state.rows, q), after)|
  {
    hide FilterKey, Matching, Beyond, Less, Handle;
    var rows := Matching(state.rows, q);
    var size := Clamp(limit, 1, 500);
    var k := HandledPage(state, q, after, limit);
    var reply := Handle(state, q, CursorAt(state, q, after), limit);
    if reply.hasMore {
      var next := Some(rows[k + size - 1].at);
      assert |rows[k + size..]| < |rows[k..]|;
      RepliesFrom(state, q, next, limit);
      FirstReply(reply, Replies(state, q, next, limit));
      assert rows[k..] == rows[k..][..size] + rows[k + size..];
    } else {
      FirstReply(reply, []);
      assert [reply] + [] == [reply];
    }
  }

  /** Following next_cursor to the end of an unchanged state gives every row that matches the
      request, each once and in order, in pages of at most 500. */
  lemma KeysetWalk(state: Snapshot, q: Query, limit: int)
    requires Pageable(state, q)
    ensures var replies := Replies(state, q, None, limit);
      && ReplyItems(replies) == Matching(state.rows, q) && Ordered(ReplyItems(replies))
      && (forall row :: row in ReplyItems(replies) <==> row in state.rows && Matches(row, q))
      && (forall i :: 0 <= i < |replies| ==> replies[i].Answer? && |replies[i].items| <= 500)
  {
    MatchingIsSubsequence(state.rows, q);
    RepliesFrom(state, q, None, limit);
  }

  /** Of all cursors only those are answered that name a position of the request's own kind, scan,
      version and filter; the answer holds only rows behind that position. */
  lemma OnlyOwnCursors(state: Snapshot, q: Query, cursor: Cursor, limit: int)
    requires Pageable(state, q)
    ensures var r := Handle(state, q, cursor, limit);
      && (r.Answer? <==> cursor.NoCursor? || exists position: Position ::
            (position.ByLine? <==> q.PendingLines?) && cursor == Token(position, q.scan, state.version, FilterKey(q)))
      && (r.Answer? ==> r.version == state.version && forall row :: row in r.items ==>
            row in state.rows && Matches(row, q) && (cursor.Token? ==> Less(cursor.position, row.at)))
  {
    hide FilterKey, Matches, Less, Clamp;
    var r := Handle(state, q, cursor, limit);
    MatchingIsSubsequence(state.rows, q);
    if r.Answer? {
      if cursor.Token? {
        BeyondMembers(Matching(state.rows, q), cursor.position);
        assert cursor == Token(cursor.position, q.scan, state.version, FilterKey(q));
      }
      var after := if cursor.Token? then Some(cursor.position) else None;
      hide Matching, Beyond;
      forall row | row in r.items
        ensures row in Beyond(Matching(state.rows, q), after)
      {
      }
      assert after.None? ==> Beyond(Matching(state.rows, q), after) == Matching(state.rows, q) by {
        BeyondNothing(Matching(state.rows, q));
      }
    }
  }

  lemma BeyondNothing(rows: seq<Row>)
    ensures Beyond(rows, None) == rows
  {
  }

  lemma {:induction false} BeyondMembers(rows: seq<Row>, after: Position)
    ensures forall x :: x in Beyond(rows, Some(after)) <==> x in rows && Less(after, x.at)
  {
    if rows != [] {
      BeyondMembers(rows[1..], after);
      assert rows == [rows[0]] + rows[1..];
    }
  }

  /** A cursor is answered only by the request and the version that issued it. */
  lemma CursorIsBound(state: Snapshot, q: Query, after: Option<Position>, limit: int,
                      later: Snapshot, p: Query, otherLimit: int)
    requires Pageable(state, q) && (after.Some? ==> after.value.ByLine? == q.PendingLines?)
    requires Handle(state, q, CursorAt(state, q, after), limit).hasMore
    ensures var next := Handle(state, q, CursorAt(state, q, after), limit).next;
      Handle(later, p, next, otherLimit).Answer? <==> p == q && later.version == state.version
  {
    hide Matching, Beyond, Less, PageAfter;
    var k := HandledPage(state, q, after, limit);
    if p.scan == q.scan && FilterKey(p) == FilterKey(q) {
      FilterKeysAreDistinct(p, q);
    }
  }
}
