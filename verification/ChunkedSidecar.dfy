/** The chunked sidecar files of app/code_detail/sidecar_store.py: saving, ranged reading,
    windowed reading and reading the whole file back. */
module ChunkedSidecar {
  import opened Options
  import opened Sorting

  const MAX_RANGE_SPAN: int := 10000
  const MAX_TOTAL_RANGE_SPAN: int := 20000
  const MAX_RANGE_CHUNKS: int := 256
  const MAX_SIDECAR_LINES: int := 1000000

  datatype Line = Line(no: int, text: string)
  datatype Span = Span(first: int, last: int) {
    function Size(): int {
      last - first + 1
    }
  }

  datatype Problem =
    InvalidRange | SpanTooLarge | RangeTooLarge | BeyondFile | TooManyChunks | TooManyLines | InvalidChunkSize

  /** Rows, nothing found, or a rejected request. */
  datatype Outcome<T> = Found(value: T) | Missing | Rejected(problem: Problem)

  /** A chunk file is named by the first and last line index it may hold; chunk number and
      chunk size determine that pair and are determined by it (see NamesAreDistinct). */
  datatype ChunkName = ChunkName(chunk: nat, size: nat)

  /** Collision-free stand-in for the content hash. */
  datatype Digest = Digest(lines: seq<Line>)

  datatype Meta = Meta(total: nat, chunkSize: nat, totalChunks: nat, declared: set<ChunkName>, digest: Digest)

  type Files = map<ChunkName, seq<Line>>

  // ---------------------------------------------------------------- chunk arithmetic

  /** Index of the first line of a chunk. */
  function StartOf(chunk: nat, size: nat): (r: nat) {
    if chunk == 0 then 0 else StartOf(chunk - 1, size) + size
  }

  function ChunkAt(index: nat, size: nat): (r: nat)
    requires size >= 1
    ensures StartOf(r, size) <= index < StartOf(r + 1, size)
    decreases index
  {
    if index < size then 0 else
      var below := ChunkAt(index - size, size);
      below + 1
  }

  function ChunkOf(line: int, size: nat): nat
    requires line >= 1 && size >= 1
  {
    ChunkAt(line - 1, size)
  }

  lemma {:induction false} StartIsProduct(chunk: nat, size: nat)
    ensures StartOf(chunk, size) == chunk * size
  {
    if chunk > 0 {
      StartIsProduct(chunk - 1, size);
      assert chunk * size == (chunk - 1) * size + size;
    }
  }

  lemma {:induction false} StartsIncrease(a: nat, b: nat, size: nat)
    requires a <= b
    ensures StartOf(a, size) <= StartOf(b, size)
    ensures a < b ==> StartOf(a + 1, size) <= StartOf(b, size)
    decreases b
  {
    if a < b {
      StartsIncrease(a, b - 1, size);
    }
  }

  lemma ChunksInOrder(a: nat, b: nat, size: nat)
    requires a <= b && size >= 1
    ensures ChunkAt(a, size) <= ChunkAt(b, size)
  {
    if ChunkAt(b, size) < ChunkAt(a, size) {
      StartsIncrease(ChunkAt(b, size), ChunkAt(a, size), size);
    }
  }

  /** The chunk number is the floor quotient used for file names. */
  lemma ChunkIsQuotient(index: nat, size: nat)
    requires size >= 1
    ensures ChunkAt(index, size) == index / size
  {
    var c, q := ChunkAt(index, size), index / size;
    StartIsProduct(c, size);
    StartIsProduct(c + 1, size);
    StartIsProduct(q, size);
    StartIsProduct(q + 1, size);
    QuotientBounds(index, size);
    if c < q {
      StartsIncrease(c, q, size);
    } else if q < c {
      StartsIncrease(q, c, size);
    }
  }

  lemma QuotientBounds(n: nat, size: nat)
    requires size >= 1
    ensures n / size * size <= n < (n / size + 1) * size
  {
  }

  lemma NamesAreDistinct(a: ChunkName, b: ChunkName)
    requires a.size >= 1 && b.size >= 1
    requires StartOf(a.chunk, a.size) == StartOf(b.chunk, b.size)
    requires StartOf(a.chunk, a.size) + a.size - 1 == StartOf(b.chunk, b.size) + b.size - 1
    ensures a == b
  {
    if a.chunk < b.chunk {
      StartsIncrease(a.chunk, b.chunk, a.size);
    } else if b.chunk < a.chunk {
      StartsIncrease(b.chunk, a.chunk, a.size);
    }
  }

  /** The chunk numbers lo .. hi - 1. */
  function Interval(lo: nat, hi: nat): (r: set<nat>)
    requires lo <= hi
    ensures forall c: nat :: c in r <==> lo <= c < hi
    ensures |r| == hi - lo
    decreases hi
  {
    if lo == hi then {} else Interval(lo, hi - 1) + {hi - 1}
  }

  // ---------------------------------------------------------------- request validation

  function TotalSize(spans: seq<Span>): int {
    if spans == [] then 0 else TotalSize(spans[..|spans| - 1]) + spans[|spans| - 1].Size()
  }

  predicate WellFormed(spans: seq<Span>) {
    forall i :: 0 <= i < |spans| ==> 1 <= spans[i].first <= spans[i].last
  }

  /** The chunks a range of lines touches. */
  function ChunksOf(s: Span, size: nat): (r: set<nat>)
    requires size >= 1 && 1 <= s.first <= s.last
    ensures ChunkOf(s.first, size) <= ChunkOf(s.last, size)
    ensures forall c: nat :: c in r <==> ChunkOf(s.first, size) <= c <= ChunkOf(s.last, size)
    ensures |r| == ChunkOf(s.last, size) - ChunkOf(s.first, size) + 1
  {
    ChunksInOrder(s.first - 1, s.last - 1, size);
    Interval(ChunkOf(s.first, size), ChunkOf(s.last, size) + 1)
  }

  /** The first line of a chunk. */
  function FirstLineOf(chunk: nat, size: nat): Span {
    Span(1 + StartOf(chunk, size), 1 + StartOf(chunk, size))
  }

  lemma ChunkOfStart(i: nat, size: nat)
    requires size >= 1
    ensures ChunkOf(1 + StartOf(i, size), size) == i
  {
    hide ChunkAt;
    var c := ChunkAt(StartOf(i, size), size);
    assert StartOf(i + 1, size) == StartOf(i, size) + size;
    hide StartOf;
    if c < i {
      StartsIncrease(c, i, size);
    } else if i < c {
      StartsIncrease(i, c, size);
    }
  }

  lemma OneChunk(i: nat, size: nat)
    requires size >= 1
    ensures ChunksOf(FirstLineOf(i, size), size) == {i}
  {
    hide ChunkAt, StartOf, Interval;
    ChunkOfStart(i, size);
  }

  function Needed(spans: seq<Span>, size: nat): set<nat>
    requires size >= 1 && WellFormed(spans)
  {
    if spans == [] then {} else
      var last := spans[|spans| - 1];
      Needed(spans[..|spans| - 1], size) + ChunksOf(last, size)
  }

  lemma {:induction false} NeededByPrefix(spans: seq<Span>, size: nat, i: nat)
    requires size >= 1 && WellFormed(spans) && i < |spans|
    ensures Needed(spans[..i], size) <= Needed(spans, size)
    ensures ChunksOf(spans[i], size) <= Needed(spans, size)
    decreases |spans|
  {
    hide ChunksOf;
    var front, last := spans[..|spans| - 1], spans[|spans| - 1];
    assert Needed(spans, size) == Needed(front, size) + ChunksOf(last, size);
    if i < |front| {
      NeededByPrefix(front, size, i);
      assert front[..i] == spans[..i];
    }
  }

  /** The requested line lies in chunk c, by the quotient of its index. */
  predicate LineIn(s: Span, line: int, size: nat, c: nat)
    requires size >= 1
  {
    s.first <= line <= s.last && line >= 1 && (line - 1) / size == c
  }

  /** A chunk is needed exactly if a requested line lies in it. */
  lemma {:induction false} NeededAreQuotients(spans: seq<Span>, size: nat, c: nat)
    requires size >= 1 && WellFormed(spans)
    ensures c in Needed(spans, size) <==> exists s, line :: s in spans && LineIn(s, line, size, c)
    decreases |spans|
  {
    hide ChunksOf, LineIn;
    if spans != [] {
      var front, last := spans[..|spans| - 1], spans[|spans| - 1];
      NeededAreQuotients(front, size, c);
      SpanQuotients(last, size, c);
      assert spans == front + [last];
    }
  }

  lemma SpanQuotients(s: Span, size: nat, c: nat)
    requires size >= 1 && 1 <= s.first <= s.last
    ensures c in ChunksOf(s, size) <==> exists line :: LineIn(s, line, size, c)
  {
    hide ChunkAt, StartOf, Interval, LineIn;
    if line :| LineIn(s, line, size, c) {
      LineInMeans(s, line, size, c);
      ChunksInOrder(s.first - 1, line - 1, size);
      ChunksInOrder(line - 1, s.last - 1, size);
    }
    if c in ChunksOf(s, size) {
      LineInChunk(s, size, c);
      LineInMeans(s, if ChunkOf(s.first, size) == c then s.first else 1 + StartOf(c, size), size, c);
    }
  }

  lemma LineInMeans(s: Span, line: int, size: nat, c: nat)
    requires size >= 1
    ensures LineIn(s, line, size, c) <==> s.first <= line <= s.last && line >= 1 && ChunkOf(line, size) == c
  {
    if line >= 1 {
      ChunkIsQuotient(line - 1, size);
    }
  }

  lemma LineInChunk(s: Span, size: nat, c: nat)
    requires size >= 1 && 1 <= s.first <= s.last && ChunkOf(s.first, size) <= c <= ChunkOf(s.last, size)
    ensures var line := if ChunkOf(s.first, size) == c then s.first else 1 + StartOf(c, size);
      s.first <= line <= s.last && ChunkOf(line, size) == c
  {
    hide ChunkAt;
    if ChunkOf(s.first, size) < c {
      StartsIncrease(ChunkOf(s.first, size), c, size);
      StartsIncrease(c, ChunkOf(s.last, size), size);
      ChunkOfStart(c, size);
    }
  }

  /** The checks made before any chunk is read, in the order in which they are made. */
  function Refusal(meta: Option<Meta>, spans: seq<Span>): (r: Option<Problem>)
    requires meta.Some? ==> meta.value.chunkSize >= 1
  {
    if !WellFormed(spans) then Some(InvalidRange)
    else if TotalSize(spans) > MAX_TOTAL_RANGE_SPAN then Some(SpanTooLarge)
    else if exists i :: 0 <= i < |spans| && spans[i].Size() > MAX_RANGE_SPAN then Some(RangeTooLarge)
    else if meta.None? then None
    else if meta.value.total != 0 && exists i :: 0 <= i < |spans| && spans[i].last > meta.value.total then Some(BeyondFile)
    else if |Needed(spans, meta.value.chunkSize)| > MAX_RANGE_CHUNKS then Some(TooManyChunks)
    else None
  }

  // ---------------------------------------------------------------- reading

  /** The content of one chunk: chunks outside the declared inventory are empty; otherwise
      the file is read, and a missing file is an error. */
  function Decoded(meta: Meta, files: Files, chunk: nat): Option<seq<Line>>
    requires meta.chunkSize >= 1
  {
    var name := ChunkName(chunk, meta.chunkSize);
    if meta.totalChunks != 0 && chunk >= meta.totalChunks then Some([])
    else if meta.declared != {} && name !in meta.declared then Some([])
    else if name in files then Some(files[name])
    else None
  }

  predicate ByNumber(a: Line, b: Line) {
    a.no <= b.no
  }

  function Within(lines: seq<Line>, s: Span): (r: seq<Line>) {
    if lines == [] then []
    else
      Within(lines[..|lines| - 1], s)
      + (if s.first <= lines[|lines| - 1].no <= s.last then [lines[|lines| - 1]] else [])
  }

  /** The matching rows of the chunks `lo .. hi - 1`, in chunk order. */
  function RowsOf(meta: Meta, files: Files, s: Span, lo: nat, hi: nat): seq<Line>
    requires meta.chunkSize >= 1 && lo <= hi
    requires forall c: nat :: lo <= c < hi ==> Decoded(meta, files, c).Some?
    decreases hi
  {
    if lo == hi then []
    else RowsOf(meta, files, s, lo, hi - 1) + Within(Decoded(meta, files, hi - 1).value, s)
  }

  ghost predicate Readable(meta: Meta, files: Files, chunks: set<nat>)
    requires meta.chunkSize >= 1
  {
    forall c :: c in chunks ==> Decoded(meta, files, c).Some?
  }

  /** The rows of one range before sorting. */
  ghost function RowsFor(meta: Meta, files: Files, s: Span): seq<Line>
    requires meta.chunkSize >= 1 && 1 <= s.first <= s.last
    requires Readable(meta, files, ChunksOf(s, meta.chunkSize))
  {
    var chunks := ChunksOf(s, meta.chunkSize);
    assert forall c: nat :: ChunkOf(s.first, meta.chunkSize) <= c < ChunkOf(s.last, meta.chunkSize) + 1 ==> c in chunks;
    RowsOf(meta, files, s, ChunkOf(s.first, meta.chunkSize), ChunkOf(s.last, meta.chunkSize) + 1)
  }

  ghost function Answer(meta: Meta, files: Files, s: Span): seq<Line>
    requires meta.chunkSize >= 1 && 1 <= s.first <= s.last
    requires Readable(meta, files, ChunksOf(s, meta.chunkSize))
  {
    SortBy(RowsFor(meta, files, s), ByNumber)
  }

  ghost function Answers(meta: Meta, files: Files, spans: seq<Span>): (r: seq<seq<Line>>)
    requires meta.chunkSize >= 1 && WellFormed(spans)
    requires Readable(meta, files, Needed(spans, meta.chunkSize))
    ensures |r| == |spans|
  {
    if spans == [] then [] else
      var front, last := spans[..|spans| - 1], spans[|spans| - 1];
      Answers(meta, files, front) + [Answer(meta, files, last)]
  }

  lemma AnswersStep(meta: Meta, files: Files, spans: seq<Span>, i: nat)
    requires meta.chunkSize >= 1 && WellFormed(spans) && i < |spans|
    requires Readable(meta, files, Needed(spans[..i], meta.chunkSize))
    requires Readable(meta, files, ChunksOf(spans[i], meta.chunkSize))
    ensures Readable(meta, files, Needed(spans[..i + 1], meta.chunkSize))
    ensures Answers(meta, files, spans[..i + 1])
         == Answers(meta, files, spans[..i]) + [SortBy(RowsFor(meta, files, spans[i]), ByNumber)]
  {
    hide RowsFor, ChunksOf;
    NeededStep(spans, meta.chunkSize, i);
    assert spans[..i + 1][..i] == spans[..i];
  }

  lemma NeededStep(spans: seq<Span>, size: nat, i: nat)
    requires size >= 1 && WellFormed(spans) && i < |spans|
    ensures Needed(spans[..i + 1], size) == Needed(spans[..i], size) + ChunksOf(spans[i], size)
  {
    hide ChunksOf;
    assert spans[..i + 1][..i] == spans[..i];
  }

  /** What a ranged read returns, for any directory content. */
  ghost function ReadSpec(meta: Option<Meta>, files: Files, spans: seq<Span>): (r: Outcome<seq<seq<Line>>>)
    requires meta.Some? ==> meta.value.chunkSize >= 1
    ensures r.Found? ==> |r.value| == |spans|
  {
    if spans == [] then Found([])
    else if Refusal(meta, spans).Some? then Rejected(Refusal(meta, spans).value)
    else if meta.None? || !Readable(meta.value, files, Needed(spans, meta.value.chunkSize)) then Missing
    else Found(Answers(meta.value, files, spans))
  }

  /** A request for one range. */
  ghost function SingleRead(meta: Option<Meta>, files: Files, s: Span): Outcome<seq<Line>>
    requires meta.Some? ==> meta.value.chunkSize >= 1
  {
    match ReadSpec(meta, files, [s])
    case Found(batches) => Found(batches[0])
    case Missing => Missing
    case Rejected(p) => Rejected(p)
  }

  /** The row is in one of the chunks lo .. hi - 1. */
  ghost predicate HeldIn(meta: Meta, files: Files, lo: nat, hi: nat, row: Line)
    requires meta.chunkSize >= 1
  {
    exists c: nat :: lo <= c < hi && Decoded(meta, files, c).Some? && row in Decoded(meta, files, c).value
  }

  /** For any directory content: a range is answered with the rows of its chunks that lie in it,
      each as often as it is there, sorted by line number. */
  lemma AnswerIsSorted(meta: Meta, files: Files, s: Span)
    requires meta.chunkSize >= 1 && 1 <= s.first <= s.last
    requires Readable(meta, files, ChunksOf(s, meta.chunkSize))
    ensures var r := Answer(meta, files, s);
      && (forall i, j :: 0 <= i < j < |r| ==> r[i].no <= r[j].no)
      && multiset(r) == multiset(RowsFor(meta, files, s))
      && (forall row :: row in r <==>
            s.first <= row.no <= s.last
            && HeldIn(meta, files, ChunkOf(s.first, meta.chunkSize), ChunkOf(s.last, meta.chunkSize) + 1, row))
  {
    hide Decoded, SortBy, RowsOf, HeldIn, Readable, ChunkAt;
    var lo, hi := ChunkOf(s.first, meta.chunkSize), ChunkOf(s.last, meta.chunkSize) + 1;
    ChunksRead(meta, files, s);
    var rows := RowsOf(meta, files, s, lo, hi);
    RowsOfMembers(meta, files, s, lo, hi);
    SortedRows(rows);
  }

  lemma ChunksRead(meta: Meta, files: Files, s: Span)
    requires meta.chunkSize >= 1 && 1 <= s.first <= s.last
    requires Readable(meta, files, ChunksOf(s, meta.chunkSize))
    ensures ChunkOf(s.first, meta.chunkSize) <= ChunkOf(s.last, meta.chunkSize)
    ensures forall c: nat :: ChunkOf(s.first, meta.chunkSize) <= c < ChunkOf(s.last, meta.chunkSize) + 1 ==>
              Decoded(meta, files, c).Some?
    ensures RowsFor(meta, files, s)
         == RowsOf(meta, files, s, ChunkOf(s.first, meta.chunkSize), ChunkOf(s.last, meta.chunkSize) + 1)
  {
    hide Decoded, RowsOf, ChunkAt;
    forall c: nat | ChunkOf(s.first, meta.chunkSize) <= c < ChunkOf(s.last, meta.chunkSize) + 1
      ensures Decoded(meta, files, c).Some?
    {
      assert c in ChunksOf(s, meta.chunkSize);
    }
  }

  lemma SortedRows(rows: seq<Line>)
    ensures var r := SortBy(rows, ByNumber);
      (forall i, j :: 0 <= i < j < |r| ==> r[i].no <= r[j].no) && forall row :: row in r <==> row in rows
  {
    SortByIsSorted(rows, ByNumber);
    SortByMembers(rows, ByNumber);
    var r := SortBy(rows, ByNumber);
    hide SortBy;
    forall i, j | 0 <= i < j < |r|
      ensures ByNumber(r[i], r[j])
    {
    }
  }

  lemma {:induction false} RowsOfMembers(meta: Meta, files: Files, s: Span, lo: nat, hi: nat)
    requires meta.chunkSize >= 1 && lo <= hi
    requires forall c: nat :: lo <= c < hi ==> Decoded(meta, files, c).Some?
    ensures forall row :: row in RowsOf(meta, files, s, lo, hi) <==>
              s.first <= row.no <= s.last && HeldIn(meta, files, lo, hi, row)
    decreases hi
  {
    hide Decoded;
    if lo < hi {
      RowsOfMembers(meta, files, s, lo, hi - 1);
      WithinMembers(Decoded(meta, files, hi - 1).value, s);
      forall row
        ensures HeldIn(meta, files, lo, hi, row) <==>
                HeldIn(meta, files, lo, hi - 1, row) || row in Decoded(meta, files, hi - 1).value
      {
      }
    }
  }

  lemma {:induction false} WithinMembers(lines: seq<Line>, s: Span)
    ensures forall row :: row in Within(lines, s) <==> row in lines && s.first <= row.no <= s.last
    decreases |lines|
  {
    if lines != [] {
      WithinMembers(lines[..|lines| - 1], s);
      assert lines == lines[..|lines| - 1] + [lines[|lines| - 1]];
    }
  }

  type Reader = Span -> Outcome<seq<Line>>

  ghost function ReaderOf(meta: Option<Meta>, files: Files): Reader
    requires meta.Some? ==> meta.value.chunkSize >= 1
  {
    s => SingleRead(meta, files, s)
  }

  function WindowEnd(start: int, end: int, width: nat): int {
    if end < start + width - 1 then end else start + width - 1
  }

  /** The windows of at most `width` lines from `start` on, concatenated; the first window
      that fails decides. */
  ghost function WindowedRead(read: Reader, start: int, end: int, width: nat): Outcome<seq<Line>>
    requires width >= 1
    decreases end - start
  {
    if start > end then Found([])
    else
      var window := read(Span(start, WindowEnd(start, end, width)));
      if !window.Found? then window
      else Prefixed(window.value, WindowedRead(read, WindowEnd(start, end, width) + 1, end, width))
  }

  function Prefixed(front: seq<Line>, rest: Outcome<seq<Line>>): Outcome<seq<Line>> {
    if rest.Found? then Found(front + rest.value) else rest
  }

  lemma WindowStep(read: Reader, start: int, end: int, width: nat, lines: seq<Line>)
    requires start <= end && width >= 1
    ensures var window := read(Span(start, WindowEnd(start, end, width)));
            Prefixed(lines, WindowedRead(read, start, end, width)) ==
            if window.Found? then
              Prefixed(lines + window.value, WindowedRead(read, WindowEnd(start, end, width) + 1, end, width))
            else window
  {
    var window := read(Span(start, WindowEnd(start, end, width)));
    if window.Found? {
      PrefixedTwice(lines, window.value, WindowedRead(read, WindowEnd(start, end, width) + 1, end, width));
    }
  }

  lemma PrefixedTwice(a: seq<Line>, b: seq<Line>, rest: Outcome<seq<Line>>)
    ensures Prefixed(a, Prefixed(b, rest)) == Prefixed(a + b, rest)
    ensures Prefixed([], rest) == rest
  {
    if rest.Found? {
      assert a + (b + rest.value) == (a + b) + rest.value;
      assert [] + rest.value == rest.value;
    }
  }

  /** load_full_source_context: windows of MAX_TOTAL_RANGE_SPAN lines, then the content check. */
  ghost function FullSpec(meta: Option<Meta>, files: Files): Outcome<seq<Line>>
    requires meta.Some? ==> meta.value.chunkSize >= 1
  {
    if meta.None? || meta.value.total > MAX_SIDECAR_LINES then Missing
    else
      var all := WindowedRead(ReaderOf(meta, files), 1, meta.value.total, MAX_TOTAL_RANGE_SPAN);
      if all.Found? && Digest(all.value) != meta.value.digest then Missing else all
  }

  ghost function RangeSpec(meta: Option<Meta>, files: Files, start: int, end: int, allowLarge: bool): Outcome<seq<Line>>
    requires meta.Some? ==> meta.value.chunkSize >= 1
  {
    if allowLarge && end - start + 1 > MAX_RANGE_SPAN then
      if start < 1 || end - start + 1 > MAX_SIDECAR_LINES then Rejected(SpanTooLarge)
      else WindowedRead(ReaderOf(meta, files), start, end, MAX_RANGE_SPAN)
    else SingleRead(meta, files, Span(start, end))
  }

  method SortedElements(s: set<nat>) returns (r: seq<int>)
    ensures StrictlyIncreasing(r)
    ensures forall c: int :: c in r <==> c >= 0 && c in s
  {
    var rest := s;
    r := [];
    while rest != {}
      invariant rest <= s && StrictlyIncreasing(r)
      invariant forall c: int :: c in r <==> c >= 0 && c in s - rest
      decreases |rest|
    {
      var x :| x in rest;
      r := InsertUnique(x, r);
      rest := rest - {x};
    }
  }

  // ---------------------------------------------------------------- saving

  function ChunkTotal(n: nat, size: nat): nat
    requires size >= 1
  {
    if n == 0 then 0 else ChunkAt(n - 1, size) + 1
  }

  lemma ChunkTotalIsCeiling(n: nat, size: nat)
    requires size >= 1
    ensures ChunkTotal(n, size) == if n > 0 then (n + size - 1) / size else 0
  {
    if n > 0 {
      ChunkIsQuotient(n - 1 + size, size);
      assert ChunkAt(n - 1 + size, size) == ChunkAt(n - 1, size) + 1;
    }
  }

  lemma WithinTotal(n: nat, size: nat, chunk: nat)
    requires size >= 1
    ensures chunk < ChunkTotal(n, size) <==> StartOf(chunk, size) < n
  {
    if n > 0 {
      var last := ChunkAt(n - 1, size);
      if chunk <= last {
        StartsIncrease(chunk, last, size);
      } else {
        StartsIncrease(last, chunk, size);
      }
    }
  }

  function ChunkEnd(n: nat, size: nat, chunk: nat): nat {
    if StartOf(chunk + 1, size) < n then StartOf(chunk + 1, size) else n
  }

  /** The lines written into one chunk file. */
  function ChunkLines(lines: seq<Line>, size: nat, chunk: nat): seq<Line>
    requires StartOf(chunk, size) <= |lines|
  {
    lines[StartOf(chunk, size)..ChunkEnd(|lines|, size, chunk)]
  }

  ghost predicate Saved(meta: Meta, files: Files, lines: seq<Line>, size: nat) {
    && size >= 1
    && meta.total == |lines| && meta.chunkSize == size && meta.digest == Digest(lines)
    && meta.totalChunks == ChunkTotal(|lines|, size)
    && (forall n :: n in meta.declared <==> n.size == size && n.chunk < meta.totalChunks)
    && (forall k: nat :: k < meta.totalChunks ==> HoldsChunk(files, lines, size, k))
  }

  ghost predicate HoldsChunk(files: Files, lines: seq<Line>, size: nat, chunk: nat) {
    && ChunkName(chunk, size) in files
    && StartOf(chunk, size) <= |lines|
    && files[ChunkName(chunk, size)] == ChunkLines(lines, size, chunk)
  }

  lemma OtherChunkKept(files: Files, lines: seq<Line>, size: nat, k: nat, name: ChunkName, content: seq<Line>)
    requires HoldsChunk(files, lines, size, k) && name != ChunkName(k, size)
    ensures HoldsChunk(files[name := content], lines, size, k)
  {
  }

  /** Every declared chunk file exists. */
  predicate InventoryComplete(meta: Meta, files: Files) {
    meta.declared <= files.Keys
  }

  /** The metadata a read gets to see: unless a valid copy is cached, loading it fails when a
      declared chunk file is missing, whether or not the read needs that chunk. */
  function LoadedMeta(meta: Option<Meta>, files: Files, cached: bool): Option<Meta> {
    if meta.Some? && (cached || InventoryComplete(meta.value, files)) then meta else None
  }

  lemma SavedIsLoaded(meta: Meta, files: Files, lines: seq<Line>, size: nat, cached: bool)
    requires Saved(meta, files, lines, size)
    ensures LoadedMeta(Some(meta), files, cached) == Some(meta)
  {
    forall n | n in meta.declared
      ensures n in files
    {
      assert HoldsChunk(files, lines, size, n.chunk);
      assert n == ChunkName(n.chunk, size);
    }
  }

  /** A read is answered exactly if it is admissible, the metadata can be loaded and every chunk it
      needs is there: one missing chunk file fails also the reads that do not need it, unless valid
      metadata is cached. */
  lemma ReadNeedsInventory(meta: Meta, files: Files, cached: bool, spans: seq<Span>)
    requires meta.chunkSize >= 1 && spans != []
    ensures ReadSpec(LoadedMeta(Some(meta), files, cached), files, spans).Found?
       <==> Refusal(Some(meta), spans).None?
            && (cached || InventoryComplete(meta, files))
            && Readable(meta, files, Needed(spans, meta.chunkSize))
  {
  }

  class Sidecar {
    var meta: Option<Meta>
    var files: Files
    /** The metadata file has not changed since it was validated and cached. */
    var cached: bool

    ghost predicate Valid()
      reads this
    {
      meta.Some? ==> 1 <= meta.value.chunkSize <= MAX_RANGE_SPAN
    }

    constructor ()
      ensures Valid() && meta == None && files == map[]
    {
      meta, files, cached := None, map[], false;
    }

    /** save_chunked_sidecar: writes one file per chunk, then the metadata.  Files of an
        earlier save stay where they are. */
    method SaveChunkedSidecar(lines: seq<Line>, chunkSize: int) returns (problem: Option<Problem>)
      requires Valid()
      modifies this
      ensures Valid()
      ensures problem == if |lines| > MAX_SIDECAR_LINES then Some(TooManyLines)
                         else if chunkSize < 1 || chunkSize > MAX_RANGE_SPAN then Some(InvalidChunkSize) else None
      ensures problem.Some? ==> meta == old(meta) && files == old(files)
      ensures problem.None? ==> meta.Some? && Saved(meta.value, files, lines, chunkSize)
      ensures problem.None? ==> files.Keys == old(files.Keys) + meta.value.declared
      ensures problem.None? ==> forall n :: n in old(files) && n !in meta.value.declared ==> files[n] == old(files)[n]
    {
      if |lines| > MAX_SIDECAR_LINES {
        return Some(TooManyLines);
      }
      if chunkSize < 1 || chunkSize > MAX_RANGE_SPAN {
        return Some(InvalidChunkSize);
      }
      var totalChunks := if |lines| > 0 then (|lines| + chunkSize - 1) / chunkSize else 0;
      ChunkTotalIsCeiling(|lines|, chunkSize);
      var names: set<ChunkName> := {};
      for c: nat := 0 to totalChunks
        invariant meta == old(meta)
        invariant forall n :: n in names <==> n.size == chunkSize && n.chunk < c
        invariant forall k: nat :: k < c ==> HoldsChunk(files, lines, chunkSize, k)
        invariant files.Keys == old(files.Keys) + names
        invariant forall n :: n in old(files) && n !in names ==> files[n] == old(files)[n]
      {
        WithinTotal(|lines|, chunkSize, c);
        var startIdx := c * chunkSize;
        assert startIdx == StartOf(c, chunkSize) by {
          StartIsProduct(c, chunkSize);
        }
        var endIdx := if startIdx + chunkSize < |lines| then startIdx + chunkSize else |lines|;
        var name := ChunkName(c, chunkSize);
        ghost var before := files;
        names := names + {name};
        files := files[name := lines[startIdx..endIdx]];
        assert HoldsChunk(files, lines, chunkSize, c);
        forall k: nat | k < c
          ensures HoldsChunk(files, lines, chunkSize, k)
        {
          OtherChunkKept(before, lines, chunkSize, k, name, files[name]);
        }
      }
      meta := Some(Meta(|lines|, chunkSize, totalChunks, names, Digest(lines)));
      cached := false;
      problem := None;
    }

    /** load_lines_ranges: every needed chunk is decoded once, in ascending order. */
    method LoadLinesRanges(spans: seq<Span>) returns (r: Outcome<seq<seq<Line>>>, decodes: seq<int>)
      requires Valid()
      ensures r == ReadSpec(LoadedMeta(meta, files, cached), files, spans)
      ensures StrictlyIncreasing(decodes)
      ensures r.Found? && spans != [] ==>
                forall c: int :: c in decodes <==> c >= 0 && c in Needed(spans, meta.value.chunkSize)
    {
      if spans == [] {
        return Found([]), [];
      }
      var loaded := LoadedMeta(meta, files, cached);
      var refusal := Refusal(loaded, spans);
      if refusal.Some? {
        return Rejected(refusal.value), [];
      }
      if loaded.None? {
        return Missing, [];
      }
      var ok, decoded;
      ok, decoded, decodes := DecodeAll(Needed(spans, meta.value.chunkSize));
      if !ok {
        return Missing, decodes;
      }
      var result := AnswerAll(spans, decoded);
      r := Found(result);
    }

    method AnswerAll(spans: seq<Span>, decoded: map<nat, seq<Line>>) returns (result: seq<seq<Line>>)
      requires Valid() && meta.Some? && WellFormed(spans)
      requires decoded.Keys == Needed(spans, meta.value.chunkSize)
      requires forall c :: c in decoded ==> Decoded(meta.value, files, c) == Some(decoded[c])
      ensures Readable(meta.value, files, Needed(spans, meta.value.chunkSize))
      ensures result == Answers(meta.value, files, spans)
    {
      hide Answer, Decoded, ChunksOf;
      result := [];
      for i := 0 to |spans|
        invariant Readable(meta.value, files, Needed(spans[..i], meta.value.chunkSize))
        invariant result == Answers(meta.value, files, spans[..i])
      {
        NeededByPrefix(spans, meta.value.chunkSize, i);
        var rows := CollectRows(spans[i], decoded);
        AnswersStep(meta.value, files, spans, i);
        result := result + [SortBy(rows, ByNumber)];
      }
      assert spans[..|spans|] == spans;
    }

    method DecodeAll(needed: set<nat>) returns (ok: bool, decoded: map<nat, seq<Line>>, decodes: seq<int>)
      requires Valid() && meta.Some?
      ensures ok <==> Readable(meta.value, files, needed)
      ensures ok ==> decoded.Keys == needed && forall c :: c in needed ==> Decoded(meta.value, files, c) == Some(decoded[c])
      ensures StrictlyIncreasing(decodes)
      ensures ok ==> forall c: int :: c in decodes <==> c >= 0 && c in needed
    {
      var order := SortedElements(needed);
      decoded, decodes := map[], [];
      for i := 0 to |order|
        invariant decodes == order[..i]
        invariant forall c: nat :: c in decoded <==> c in order[..i]
        invariant forall c :: c in decoded ==> c in needed && Decoded(meta.value, files, c) == Some(decoded[c])
      {
        assert order[i] in order;
        assert order[..i + 1] == order[..i] + [order[i]];
        var content := Decoded(meta.value, files, order[i]);
        if content.None? {
          return false, decoded, decodes;
        }
        decoded := decoded[order[i] := content.value];
        decodes := decodes + [order[i]];
      }
      assert order[..|order|] == order;
      ok := true;
    }

    method CollectRows(s: Span, decoded: map<nat, seq<Line>>) returns (rows: seq<Line>)
      requires Valid() && meta.Some? && 1 <= s.first <= s.last
      requires forall c :: c in ChunksOf(s, meta.value.chunkSize) ==>
                 c in decoded && Decoded(meta.value, files, c) == Some(decoded[c])
      ensures Readable(meta.value, files, ChunksOf(s, meta.value.chunkSize))
      ensures rows == RowsFor(meta.value, files, s)
    {
      var first, last := ChunkOf(s.first, meta.value.chunkSize), ChunkOf(s.last, meta.value.chunkSize);
      ghost var chunks := ChunksOf(s, meta.value.chunkSize);
      assert forall c: nat :: first <= c < last + 1 ==> c in chunks;
      rows := ChunkRows(s, first, last + 1, decoded);
    }

    method ChunkRows(s: Span, first: nat, limit: nat, decoded: map<nat, seq<Line>>) returns (rows: seq<Line>)
      requires Valid() && meta.Some? && first <= limit
      requires forall c: nat :: first <= c < limit ==> c in decoded && Decoded(meta.value, files, c) == Some(decoded[c])
      ensures rows == RowsOf(meta.value, files, s, first, limit)
    {
      rows := [];
      for chunk := first to limit
        invariant rows == RowsOf(meta.value, files, s, first, chunk)
      {
        rows := rows + Within(decoded[chunk], s);
      }
    }

    /** load_lines_range: one read, or for large verified spans a sequence of windows. */
    method LoadLinesRange(start: int, end: int, allowLarge: bool) returns (r: Outcome<seq<Line>>)
      requires Valid()
      ensures r == RangeSpec(LoadedMeta(meta, files, cached), files, start, end, allowLarge)
    {
      var size := end - start + 1;
      if allowLarge && size > MAX_RANGE_SPAN {
        if start < 1 || end < start || size > MAX_SIDECAR_LINES {
          return Rejected(SpanTooLarge);
        }
        r := ReadWindows(start, end, MAX_RANGE_SPAN, ReaderOf(LoadedMeta(meta, files, cached), files));
      } else {
        r := LoadOne(Span(start, end), ReaderOf(LoadedMeta(meta, files, cached), files));
      }
    }

    method LoadFullSourceContext() returns (r: Outcome<seq<Line>>)
      requires Valid()
      ensures r == FullSpec(LoadedMeta(meta, files, cached), files)
    {
      var loaded := LoadedMeta(meta, files, cached);
      if loaded.None? || loaded.value.total > MAX_SIDECAR_LINES {
        return Missing;
      }
      r := ReadWindows(1, loaded.value.total, MAX_TOTAL_RANGE_SPAN, ReaderOf(loaded, files));
      if r.Found? && Digest(r.value) != loaded.value.digest {
        r := Missing;
      }
    }

    method ReadWindows(start: int, end: int, width: nat, ghost read: Reader) returns (r: Outcome<seq<Line>>)
      requires Valid() && start <= end + 1 && width >= 1 && read == ReaderOf(LoadedMeta(meta, files, cached), files)
      ensures r == WindowedRead(read, start, end, width)
    {
      hide SingleRead, ReaderOf;
      var lines: seq<Line> := [];
      var windowStart := start;
      PrefixedTwice([], [], WindowedRead(read, start, end, width));
      while windowStart <= end
        invariant start <= windowStart <= end + 1
        invariant WindowedRead(read, start, end, width) == Prefixed(lines, WindowedRead(read, windowStart, end, width))
        decreases end - windowStart
      {
        var windowEnd := if end < windowStart + width - 1 then end else windowStart + width - 1;
        var window := LoadOne(Span(windowStart, windowEnd), read);
        WindowStep(read, windowStart, end, width, lines);
        if !window.Found? {
          return window;
        }
        lines := lines + window.value;
        windowStart := windowEnd + 1;
      }
      assert lines + [] == lines;
      r := Found(lines);
    }

    method LoadOne(s: Span, ghost read: Reader) returns (r: Outcome<seq<Line>>)
      requires Valid() && read == ReaderOf(LoadedMeta(meta, files, cached), files)
      ensures r == read(s)
    {
      var batches, decodes := LoadLinesRanges([s]);
      match batches {
        case Missing => r := Missing;
        case Rejected(p) => r := Rejected(p);
        case Found(b) => r := Found(b[0]);
      }
    }
  }
}
