/** What reading a saved sidecar gives back, for every chunk size and every request. */
module SidecarRoundTrip {
  import opened Options
  import opened Sorting
  import opened ChunkedSidecar

  /** Lines numbered 1..N. */
  ghost predicate Numbered(lines: seq<Line>) {
    forall i :: 0 <= i < |lines| ==> lines[i].no == i + 1
  }

  function Max(a: int, b: int): int {
    if a < b then b else a
  }

  function Min(a: int, b: int): int {
    if a < b then a else b
  }

  function SliceOf(lines: seq<Line>, s: Span): seq<Line>
    requires 1 <= s.first <= s.last <= |lines|
  {
    lines[s.first - 1..s.last]
  }

  /** The part of `s` inside the lines `lo .. hi - 1`. */
  function Clip(lines: seq<Line>, s: Span, lo: nat, hi: nat): seq<Line>
    requires lo <= hi <= |lines|
  {
    var a, b := Max(lo, s.first - 1), Min(hi, s.last);
    if a < b then lines[a..b] else []
  }

  lemma ClipStep(lines: seq<Line>, s: Span, lo: nat, hi: nat)
    requires lo < hi <= |lines|
    ensures Clip(lines, s, lo, hi)
         == Clip(lines, s, lo, hi - 1) + (if s.first <= hi <= s.last then [lines[hi - 1]] else [])
  {
    if s.first <= hi <= s.last {
      assert lines[Max(lo, s.first - 1)..hi] == lines[Max(lo, s.first - 1)..hi - 1] + [lines[hi - 1]];
    }
  }

  lemma {:induction false} WithinSlice(lines: seq<Line>, s: Span, lo: nat, hi: nat)
    requires Numbered(lines) && lo <= hi <= |lines|
    ensures Within(lines[lo..hi], s) == Clip(lines, s, lo, hi)
    decreases hi
  {
    if lo < hi {
      WithinSlice(lines, s, lo, hi - 1);
      var part := lines[lo..hi];
      assert part[..|part| - 1] == lines[lo..hi - 1];
      assert part[|part| - 1] == lines[hi - 1];
      ClipStep(lines, s, lo, hi);
      hide Clip;
    } else {
      assert lines[lo..hi] == [];
    }
  }

  lemma SavedChunk(meta: Meta, files: Files, lines: seq<Line>, size: nat, chunk: nat)
    requires Saved(meta, files, lines, size) && chunk < meta.totalChunks
    ensures StartOf(chunk, size) <= |lines|
    ensures Decoded(meta, files, chunk) == Some(ChunkLines(lines, size, chunk))
  {
    assert HoldsChunk(files, lines, size, chunk);
    assert ChunkName(chunk, size) in meta.declared;
  }

  /** A line of the file lies in a declared chunk. */
  lemma ChunkIsDeclared(meta: Meta, files: Files, lines: seq<Line>, size: nat, line: int)
    requires Saved(meta, files, lines, size) && 1 <= line <= |lines|
    ensures ChunkOf(line, size) < meta.totalChunks
  {
    WithinTotal(|lines|, size, ChunkOf(line, size));
  }

  lemma ChunksAreDeclared(meta: Meta, files: Files, lines: seq<Line>, size: nat, s: Span)
    requires Saved(meta, files, lines, size) && 1 <= s.first <= s.last <= |lines|
    ensures forall c :: c in ChunksOf(s, size) ==> c < meta.totalChunks
    ensures Readable(meta, files, ChunksOf(s, size))
  {
    ChunkIsDeclared(meta, files, lines, size, s.last);
    forall c | c in ChunksOf(s, size)
      ensures Decoded(meta, files, c).Some?
    {
      SavedChunk(meta, files, lines, size, c);
    }
  }

  lemma ClipJoin(lines: seq<Line>, s: Span, mid: nat, hi: nat)
    requires mid <= hi <= |lines| && 1 <= s.first <= s.last
    ensures Clip(lines, s, 0, mid) + Clip(lines, s, mid, hi) == Clip(lines, s, 0, hi)
  {
  }

  /** The rows of the chunks lo .. hi - 1 are the requested lines before the end of chunk hi - 1. */
  lemma {:induction false} RowsAreTheSlice(meta: Meta, files: Files, lines: seq<Line>, size: nat, s: Span, lo: nat, hi: nat)
    requires Saved(meta, files, lines, size) && Numbered(lines)
    requires 1 <= s.first <= s.last
    requires lo == ChunkOf(s.first, size) && lo < hi <= meta.totalChunks
    requires forall c: nat :: lo <= c < hi ==> Decoded(meta, files, c).Some?
    ensures RowsOf(meta, files, s, lo, hi) == Clip(lines, s, 0, ChunkEnd(|lines|, size, hi - 1))
    decreases hi
  {
    hide Decoded, ChunkAt, SortBy;
    var last := hi - 1;
    SavedChunk(meta, files, lines, size, last);
    WithinTotal(|lines|, size, last);
    WithinSlice(lines, s, StartOf(last, size), ChunkEnd(|lines|, size, last));
    ClipJoin(lines, s, StartOf(last, size), ChunkEnd(|lines|, size, last));
    if lo == last {
      assert Clip(lines, s, 0, StartOf(last, size)) == [];
    } else {
      RowsAreTheSlice(meta, files, lines, size, s, lo, last);
    }
  }

  lemma SliceIsSorted(lines: seq<Line>, s: Span)
    requires Numbered(lines) && 1 <= s.first <= s.last <= |lines|
    ensures SortBy(SliceOf(lines, s), ByNumber) == SliceOf(lines, s)
  {
    SortedIsFixpoint(SliceOf(lines, s), ByNumber);
  }

  lemma AnswerIsTheSlice(meta: Meta, files: Files, lines: seq<Line>, size: nat, s: Span)
    requires Saved(meta, files, lines, size) && Numbered(lines)
    requires 1 <= s.first <= s.last <= |lines|
    ensures Readable(meta, files, ChunksOf(s, size))
    ensures Answer(meta, files, s) == SliceOf(lines, s)
  {
    ChunksAreDeclared(meta, files, lines, size, s);
    var lo, hi := ChunkOf(s.first, size), ChunkOf(s.last, size) + 1;
    ChunksInOrder(s.first - 1, s.last - 1, size);
    ChunkIsDeclared(meta, files, lines, size, s.last);
    assert forall c: nat :: lo <= c < hi ==> c in ChunksOf(s, size);
    RowsAreTheSlice(meta, files, lines, size, s, lo, hi);
    assert Clip(lines, s, 0, ChunkEnd(|lines|, size, hi - 1)) == SliceOf(lines, s);
    SliceIsSorted(lines, s);
  }

  /** The requested spans lie in a file of `n` lines. */
  ghost predicate InFile(spans: seq<Span>, n: nat) {
    forall i :: 0 <= i < |spans| ==> 1 <= spans[i].first <= spans[i].last <= n
  }

  lemma {:induction false} AllReadable(meta: Meta, files: Files, lines: seq<Line>, size: nat, spans: seq<Span>)
    requires Saved(meta, files, lines, size) && InFile(spans, |lines|)
    ensures Readable(meta, files, Needed(spans, size))
  {
    if spans != [] {
      var front, last := spans[..|spans| - 1], spans[|spans| - 1];
      AllReadable(meta, files, lines, size, front);
      ChunksAreDeclared(meta, files, lines, size, last);
    }
  }

  lemma {:induction false} AnswersAreSlices(meta: Meta, files: Files, lines: seq<Line>, size: nat, spans: seq<Span>, i: nat)
    requires Saved(meta, files, lines, size) && Numbered(lines) && InFile(spans, |lines|) && i < |spans|
    requires Readable(meta, files, Needed(spans, size))
    ensures Answers(meta, files, spans)[i] == SliceOf(lines, spans[i])
    decreases |spans|
  {
    hide Answer, Saved, Decoded;
    var front, last := spans[..|spans| - 1], spans[|spans| - 1];
    AnswerIsTheSlice(meta, files, lines, size, last);
    if i < |front| {
      AnswersAreSlices(meta, files, lines, size, front, i);
    }
  }

  /** Round trip: after a save of a nonempty file with lines 1..N, every request that is not
      refused gets exactly the matching slices, in order; and it is refused exactly when a
      range is malformed or past the end, too long, too much in total, or needs more than
      256 chunks. */
  lemma RoundTrip(meta: Meta, files: Files, lines: seq<Line>, size: nat, spans: seq<Span>)
    requires Saved(meta, files, lines, size) && Numbered(lines) && lines != [] && spans != []
    ensures ReadSpec(Some(meta), files, spans).Found? <==>
              && InFile(spans, |lines|)
              && TotalSize(spans) <= MAX_TOTAL_RANGE_SPAN
              && (forall i :: 0 <= i < |spans| ==> spans[i].Size() <= MAX_RANGE_SPAN)
              && |Needed(spans, size)| <= MAX_RANGE_CHUNKS
    ensures ReadSpec(Some(meta), files, spans).Found? ==>
              forall i :: 0 <= i < |spans| ==> ReadSpec(Some(meta), files, spans).value[i] == SliceOf(lines, spans[i])
    ensures !ReadSpec(Some(meta), files, spans).Missing?
  {
    if Refusal(Some(meta), spans).None? {
      assert InFile(spans, |lines|);
      AllReadable(meta, files, lines, size, spans);
      forall i | 0 <= i < |spans|
        ensures Answers(meta, files, spans)[i] == SliceOf(lines, spans[i])
      {
        AnswersAreSlices(meta, files, lines, size, spans, i);
      }
    }
  }

  // ---------------------------------------------------------------- after an empty save

  /** The matching rows of the chunk files lo .. hi - 1, whatever the metadata says of them. */
  function StoredRows(files: Files, size: nat, s: Span, lo: nat, hi: nat): seq<Line>
    requires lo <= hi && forall c: nat :: lo <= c < hi ==> ChunkName(c, size) in files
    decreases hi
  {
    if lo == hi then [] else StoredRows(files, size, s, lo, hi - 1) + Within(files[ChunkName(hi - 1, size)], s)
  }

  ghost predicate Stored(files: Files, size: nat, chunks: set<nat>) {
    forall c :: c in chunks ==> ChunkName(c, size) in files
  }

  ghost function StoredAnswer(files: Files, size: nat, s: Span): seq<Line>
    requires size >= 1 && 1 <= s.first <= s.last && Stored(files, size, ChunksOf(s, size))
  {
    var lo, hi := ChunkOf(s.first, size), ChunkOf(s.last, size) + 1;
    assert forall c: nat :: lo <= c < hi ==> c in ChunksOf(s, size);
    SortBy(StoredRows(files, size, s, lo, hi), ByNumber)
  }

  lemma {:induction false} RowsAreStored(meta: Meta, files: Files, s: Span, lo: nat, hi: nat)
    requires meta.chunkSize >= 1 && lo <= hi
    requires forall c: nat :: lo <= c < hi ==>
               ChunkName(c, meta.chunkSize) in files && Decoded(meta, files, c) == Some(files[ChunkName(c, meta.chunkSize)])
    ensures RowsOf(meta, files, s, lo, hi) == StoredRows(files, meta.chunkSize, s, lo, hi)
    decreases hi
  {
    if lo < hi {
      RowsAreStored(meta, files, s, lo, hi - 1);
    }
  }

  /** Metadata of an empty file declares nothing, so every chunk file is decoded if it exists. */
  lemma EmptyDecodes(meta: Meta, files: Files, size: nat, c: nat)
    requires Saved(meta, files, [], size)
    ensures Decoded(meta, files, c) == if ChunkName(c, size) in files then Some(files[ChunkName(c, size)]) else None
  {
    assert meta.declared == {} by {
      assert forall n :: n !in meta.declared;
    }
  }

  lemma EmptyReadable(meta: Meta, files: Files, size: nat, chunks: set<nat>)
    requires Saved(meta, files, [], size)
    ensures Readable(meta, files, chunks) <==> Stored(files, size, chunks)
  {
    forall c | c in chunks
      ensures Decoded(meta, files, c).Some? <==> ChunkName(c, size) in files
    {
      EmptyDecodes(meta, files, size, c);
    }
  }

  lemma {:induction false} EmptyRows(meta: Meta, files: Files, size: nat, s: Span, lo: nat, hi: nat)
    requires Saved(meta, files, [], size) && lo <= hi
    requires forall c: nat :: lo <= c < hi ==> ChunkName(c, size) in files
    ensures forall c: nat :: lo <= c < hi ==> Decoded(meta, files, c).Some?
    ensures RowsOf(meta, files, s, lo, hi) == StoredRows(files, size, s, lo, hi)
    decreases hi
  {
    if lo < hi {
      EmptyDecodes(meta, files, size, hi - 1);
      hide Saved, Decoded;
      EmptyRows(meta, files, size, s, lo, hi - 1);
    }
  }

  lemma InRange(s: Span, size: nat)
    requires size >= 1 && 1 <= s.first <= s.last
    ensures forall c: nat :: ChunkOf(s.first, size) <= c < ChunkOf(s.last, size) + 1 ==> c in ChunksOf(s, size)
  {
  }

  lemma EmptyAnswer(meta: Meta, files: Files, size: nat, s: Span)
    requires Saved(meta, files, [], size) && 1 <= s.first <= s.last && Stored(files, size, ChunksOf(s, size))
    ensures Readable(meta, files, ChunksOf(s, size))
    ensures Answer(meta, files, s) == StoredAnswer(files, size, s)
  {
    assert meta.chunkSize == size;
    EmptyReadable(meta, files, size, ChunksOf(s, size));
    InRange(s, size);
    EmptyRows(meta, files, size, s, ChunkOf(s.first, size), ChunkOf(s.last, size) + 1);
    hide Decoded, Saved, SortBy, ChunkAt, ChunkOf, StoredRows, RowsOf, Within, Interval, StartOf;
  }

  lemma {:induction false} EmptyAnswers(meta: Meta, files: Files, size: nat, spans: seq<Span>, i: nat)
    requires Saved(meta, files, [], size) && WellFormed(spans) && i < |spans|
    requires Readable(meta, files, Needed(spans, size)) && Stored(files, size, Needed(spans, size))
    ensures Stored(files, size, ChunksOf(spans[i], size))
    ensures Answers(meta, files, spans)[i] == StoredAnswer(files, size, spans[i])
    decreases |spans|
  {
    hide Answer, Saved, Decoded, StoredAnswer, ChunksOf;
    var front, last := spans[..|spans| - 1], spans[|spans| - 1];
    NeededByPrefix(spans, size, i);
    NeededByPrefix(spans, size, |spans| - 1);
    if i < |front| {
      EmptyAnswers(meta, files, size, front, i);
    } else {
      EmptyAnswer(meta, files, size, last);
    }
  }

  /** The law needs a nonempty file: a read of an empty one finds whatever chunk files of the
      same chunk size are left, if all it needs are there, and is missing otherwise. */
  lemma EmptyFileRead(meta: Meta, files: Files, size: nat, spans: seq<Span>)
    requires Saved(meta, files, [], size) && spans != [] && Refusal(Some(meta), spans).None?
    ensures var r := ReadSpec(Some(meta), files, spans);
      && !r.Rejected?
      && (r.Found? <==> Stored(files, size, Needed(spans, size)))
      && (r.Found? ==> forall i :: 0 <= i < |spans| ==>
            Stored(files, size, ChunksOf(spans[i], size)) && r.value[i] == StoredAnswer(files, size, spans[i]))
  {
    EmptyReadable(meta, files, size, Needed(spans, size));
    hide Decoded, Saved, StoredAnswer, Answers, Needed;
    if Stored(files, size, Needed(spans, size)) {
      forall i | 0 <= i < |spans|
        ensures Stored(files, size, ChunksOf(spans[i], size))
        ensures Answers(meta, files, spans)[i] == StoredAnswer(files, size, spans[i])
      {
        EmptyAnswers(meta, files, size, spans, i);
      }
    }
  }

  lemma ClipIsSorted(lines: seq<Line>, s: Span, hi: nat)
    requires Numbered(lines) && hi <= |lines|
    ensures SortBy(Clip(lines, s, 0, hi), ByNumber) == Clip(lines, s, 0, hi)
  {
    SortedIsFixpoint(Clip(lines, s, 0, hi), ByNumber);
  }

  /** What the chunk files of a saved file answer: its own lines in the span. */
  lemma StoredAnswerIsClip(meta: Meta, files: Files, past: seq<Line>, size: nat, s: Span)
    requires Saved(meta, files, past, size) && Numbered(past) && 1 <= s.first <= s.last
    requires ChunkOf(s.last, size) < meta.totalChunks
    ensures Stored(files, size, ChunksOf(s, size))
    ensures StoredAnswer(files, size, s) == Clip(past, s, 0, |past|)
  {
    var lo, hi := ChunkOf(s.first, size), ChunkOf(s.last, size) + 1;
    ChunksInOrder(s.first - 1, s.last - 1, size);
    forall c: nat | c < meta.totalChunks
      ensures ChunkName(c, size) in files && Decoded(meta, files, c) == Some(files[ChunkName(c, size)])
    {
      SavedChunk(meta, files, past, size, c);
      assert HoldsChunk(files, past, size, c);
    }
    hide Decoded, Saved;
    RowsAreTheSlice(meta, files, past, size, s, lo, hi);
    RowsAreStored(meta, files, s, lo, hi);
    ClipIsSorted(past, s, ChunkEnd(|past|, size, hi - 1));
  }

  /** No chunk file of this size lies behind the saved ones. */
  ghost predicate NothingBehind(files: Files, size: nat, totalChunks: nat) {
    forall c: nat :: ChunkName(c, size) in files ==> c < totalChunks
  }

  /** After a file with lines 1..N is saved again as an empty one with the same chunk size, a read
      finds exactly the old lines inside its ranges, if they all end in one of the old chunks, and
      is missing otherwise. */
  lemma EmptySaveServesOldLines(before: Meta, meta: Meta, files: Files, past: seq<Line>, size: nat, spans: seq<Span>)
    requires Saved(before, files, past, size) && Numbered(past) && NothingBehind(files, size, before.totalChunks)
    requires Saved(meta, files, [], size) && spans != [] && Refusal(Some(meta), spans).None?
    ensures var r := ReadSpec(Some(meta), files, spans);
      && !r.Rejected?
      && (r.Found? <==> forall i :: 0 <= i < |spans| ==> ChunkOf(spans[i].last, size) < before.totalChunks)
      && (r.Found? ==> forall i :: 0 <= i < |spans| ==> r.value[i] == Clip(past, spans[i], 0, |past|))
  {
    EmptyFileRead(meta, files, size, spans);
    hide Saved, ReadSpec, StoredAnswer;
    forall i | 0 <= i < |spans|
      ensures ChunkOf(spans[i].last, size) < before.totalChunks ==>
                && Stored(files, size, ChunksOf(spans[i], size))
                && StoredAnswer(files, size, spans[i]) == Clip(past, spans[i], 0, |past|)
    {
      if ChunkOf(spans[i].last, size) < before.totalChunks {
        StoredAnswerIsClip(before, files, past, size, spans[i]);
      }
    }
    NeededStored(files, size, spans);
    forall i | 0 <= i < |spans| && Stored(files, size, ChunksOf(spans[i], size))
      ensures ChunkOf(spans[i].last, size) < before.totalChunks
    {
      assert ChunkOf(spans[i].last, size) in ChunksOf(spans[i], size);
    }
  }

  lemma {:induction false} NeededStored(files: Files, size: nat, spans: seq<Span>)
    requires size >= 1 && WellFormed(spans)
    ensures Stored(files, size, Needed(spans, size)) <==>
              forall i :: 0 <= i < |spans| ==> Stored(files, size, ChunksOf(spans[i], size))
  {
    hide ChunksOf;
    if spans != [] {
      NeededStored(files, size, spans[..|spans| - 1]);
    }
  }

  /** A chunk file as a save of lines 1..N writes it: not empty, its lines in place. */
  ghost predicate InPlace(name: ChunkName, content: seq<Line>) {
    content != [] && forall i :: 0 <= i < |content| ==> content[i].no == StartOf(name.chunk, name.size) + 1 + i
  }

  ghost predicate AllInPlace(files: Files) {
    forall n :: n in files ==> InPlace(n, files[n])
  }

  /** Saves of numbered files keep every chunk file in place, also those of earlier saves. */
  lemma SaveKeepsInPlace(before: Files, meta: Meta, files: Files, lines: seq<Line>, size: nat)
    requires AllInPlace(before) && Saved(meta, files, lines, size) && Numbered(lines)
    requires files.Keys == before.Keys + meta.declared
    requires forall n :: n in before && n !in meta.declared ==> files[n] == before[n]
    ensures AllInPlace(files)
  {
    forall n | n in files
      ensures InPlace(n, files[n])
    {
      if n in meta.declared {
        assert n == ChunkName(n.chunk, size) && HoldsChunk(files, lines, size, n.chunk);
        WithinTotal(|lines|, size, n.chunk);
      }
    }
  }

  /** No read of the empty file serves a stale line exactly if no chunk file of its chunk size is
      left over. */
  lemma NoStaleLineIsServed(meta: Meta, files: Files, size: nat)
    requires Saved(meta, files, [], size) && AllInPlace(files)
    ensures (forall spans: seq<Span> :: ServesNothing(meta, files, spans))
       <==> (forall c: nat :: ChunkName(c, size) !in files)
  {
    if c: nat :| ChunkName(c, size) in files {
      ChunkIsServed(meta, files, size, c);
      assert !ServesNothing(meta, files, [FirstLineOf(c, size)]);
    } else {
      forall spans: seq<Span>
        ensures ServesNothing(meta, files, spans)
      {
        NothingStored(meta, files, size, spans);
      }
    }
  }

  ghost predicate ServesNothing(meta: Meta, files: Files, spans: seq<Span>)
    requires meta.chunkSize >= 1
  {
    var r := ReadSpec(Some(meta), files, spans);
    r.Found? ==> forall i :: 0 <= i < |spans| ==> r.value[i] == []
  }

  lemma NothingStored(meta: Meta, files: Files, size: nat, spans: seq<Span>)
    requires Saved(meta, files, [], size) && forall c: nat :: ChunkName(c, size) !in files
    ensures ServesNothing(meta, files, spans)
  {
    if spans != [] && Refusal(Some(meta), spans).None? {
      EmptyFileRead(meta, files, size, spans);
      NeededStored(files, size, spans);
      assert ChunkOf(spans[0].first, size) in ChunksOf(spans[0], size);
    }
  }

  lemma ChunkIsServed(meta: Meta, files: Files, size: nat, c: nat)
    requires Saved(meta, files, [], size) && AllInPlace(files) && ChunkName(c, size) in files
    ensures var r := ReadSpec(Some(meta), files, [FirstLineOf(c, size)]);
      r.Found? && r.value[0] != []
  {
    var s := FirstLineOf(c, size);
    OneChunk(c, size);
    OneRange(s, size);
    ChunkOfStart(c, size);
    EmptyFileRead(meta, files, size, [s]);
    assert [s][0] == s;
    var content := files[ChunkName(c, size)];
    assert InPlace(ChunkName(c, size), content);
    hide ReadSpec, Saved, Refusal;
    FirstLineFound(content, s);
    var rows := StoredRows(files, size, s, c, c + 1);
    assert rows == StoredRows(files, size, s, c, c) + Within(content, s);
    assert |SortBy(rows, ByNumber)| == |rows|;
  }

  lemma {:induction false} FirstLineFound(content: seq<Line>, s: Span)
    requires content != [] && s.first <= content[0].no <= s.last
    ensures Within(content, s) != []
    decreases |content|
  {
    if |content| > 1 {
      FirstLineFound(content[..|content| - 1], s);
    }
  }

  // ---------------------------------------------------------------- windowed reads

  lemma {:induction false} StartSpread(a: nat, b: nat, size: nat)
    requires a <= b
    ensures size >= 40 ==> StartOf(b, size) - StartOf(a, size) >= 40 * (b - a)
    ensures size <= 39 ==> StartOf(b, size) - StartOf(a, size) <= 39 * (b - a)
    decreases b
  {
    if a < b {
      StartSpread(a, b - 1, size);
    }
  }

  /** 10000 lines touch at most 256 chunks exactly when chunks hold at least 40 lines. */
  lemma ChunkCount(s: Span, size: nat)
    requires size >= 1 && 1 <= s.first <= s.last && s.Size() <= MAX_RANGE_SPAN
    ensures size >= 40 ==> |ChunksOf(s, size)| <= MAX_RANGE_CHUNKS
    ensures size <= 39 && s.Size() == MAX_RANGE_SPAN ==> |ChunksOf(s, size)| > MAX_RANGE_CHUNKS
  {
    hide ChunkAt, StartOf, Interval;
    var a, b := ChunkOf(s.first, size), ChunkOf(s.last, size);
    ChunksInOrder(s.first - 1, s.last - 1, size);
    if size >= 40 && a < b {
      StartSpread(a + 1, b, size);
    }
    if size <= 39 {
      StartSpread(a, b + 1, size);
    }
  }

  lemma OneRange(s: Span, size: nat)
    ensures TotalSize([s]) == s.Size()
    ensures size >= 1 && 1 <= s.first <= s.last ==> Needed([s], size) == ChunksOf(s, size)
  {
    assert [s][..0] == [];
    assert TotalSize([s]) == TotalSize([s][..0]) + s.Size();
    if size >= 1 && 1 <= s.first <= s.last {
      assert Needed([s], size) == Needed([s][..0], size) + ChunksOf(s, size);
    }
  }

  /** A one-line file saved again as an empty one: its old line is still served. */
  lemma StaleLineIsServed()
    ensures var line := Line(1, "x");
            var files: Files := map[ChunkName(0, 1) := [line]];
            var meta := Meta(0, 1, 0, {}, Digest([]));
            Saved(meta, files, [], 1) && SingleRead(Some(meta), files, Span(1, 1)) == Found([line])
  {
    var line, s := Line(1, "x"), Span(1, 1);
    var files: Files := map[ChunkName(0, 1) := [line]];
    var meta := Meta(0, 1, 0, {}, Digest([]));
    OneRange(s, 1);
    assert ChunksOf(s, 1) == {0};
    assert Refusal(Some(meta), [s]).None?;
    OneChunkAnswer(meta, files, s, [line]);
  }

  /** A request for line 1 of one-line chunks returns what chunk 0 holds. */
  lemma OneChunkAnswer(meta: Meta, files: Files, s: Span, rows: seq<Line>)
    requires meta.chunkSize == 1 && s == Span(1, 1) && ChunksOf(s, 1) == {0}
    requires Decoded(meta, files, 0) == Some(rows) && |rows| == 1 && rows[0].no == 1
    requires Refusal(Some(meta), [s]).None?
    ensures SingleRead(Some(meta), files, s) == Found(rows)
  {
    hide Decoded, ChunksOf, Refusal, SortBy;
    OneRange(s, 1);
    assert rows[..0] == [] && rows == [rows[0]];
    assert Within(rows, s) == rows;
    assert RowsOf(meta, files, s, 0, 1) == RowsOf(meta, files, s, 0, 0) + rows;
    SortedIsFixpoint(rows, ByNumber);
    assert [s][..0] == [];
  }

  lemma SingleReadIsSlice(meta: Meta, files: Files, lines: seq<Line>, size: nat, s: Span)
    requires Saved(meta, files, lines, size) && Numbered(lines) && lines != []
    ensures SingleRead(Some(meta), files, s).Found? <==>
              && 1 <= s.first <= s.last <= |lines| && s.Size() <= MAX_RANGE_SPAN
              && |ChunksOf(s, size)| <= MAX_RANGE_CHUNKS
    ensures SingleRead(Some(meta), files, s).Found? ==> SingleRead(Some(meta), files, s).value == SliceOf(lines, s)
    ensures !SingleRead(Some(meta), files, s).Missing?
  {
    RoundTrip(meta, files, lines, size, [s]);
    OneRange(s, size);
    assert [s][0] == s;
    assert InFile([s], |lines|) <==> 1 <= s.first <= s.last <= |lines|;
  }

  /** Windows no wider than 10000 lines, on chunks of at least 40: the whole slice, or a
      refusal when the span runs past the file. */
  lemma {:induction false} WindowsAreTheSlice(meta: Meta, files: Files, lines: seq<Line>, size: nat, start: int, end: int)
    requires Saved(meta, files, lines, size) && Numbered(lines) && lines != []
    requires size >= 40 && 1 <= start <= end + 1
    ensures var r := WindowedRead(ReaderOf(Some(meta), files), start, end, MAX_RANGE_SPAN);
            if start > end then r == Found([])
            else if end <= |lines| then r == Found(lines[start - 1..end])
            else r.Rejected?
    decreases end - start
  {
    hide SingleRead, Saved;
    if start <= end {
      var last := WindowEnd(start, end, MAX_RANGE_SPAN);
      var s := Span(start, last);
      SingleReadIsSlice(meta, files, lines, size, s);
      ChunkCount(s, size);
      WindowsAreTheSlice(meta, files, lines, size, last + 1, end);
      if end <= |lines| {
        if last == end {
          assert lines[start - 1..end] + [] == lines[start - 1..end];
        } else {
          assert lines[start - 1..last] + lines[last..end] == lines[start - 1..end];
        }
      }
    }
  }

  /** The large-range read succeeds exactly when the span lies in the file and chunks hold at
      least 40 lines, and then equals the one-shot slice. */
  lemma LargeRead(meta: Meta, files: Files, lines: seq<Line>, size: nat, start: int, end: int)
    requires Saved(meta, files, lines, size) && Numbered(lines) && lines != []
    requires 1 <= start && MAX_RANGE_SPAN < end - start + 1 <= MAX_SIDECAR_LINES
    ensures var r := RangeSpec(Some(meta), files, start, end, true);
            if size >= 40 && end <= |lines| then r == Found(lines[start - 1..end]) else r.Rejected?
  {
    if size >= 40 {
      WindowsAreTheSlice(meta, files, lines, size, start, end);
    } else {
      var s := Span(start, WindowEnd(start, end, MAX_RANGE_SPAN));
      SingleReadIsSlice(meta, files, lines, size, s);
      ChunkCount(s, size);
    }
  }

  /** Reading the whole file back works exactly for files of at most 10000 lines in at most
      256 chunks: a longer file makes the first window exceed the range limit. */
  lemma FullRead(meta: Meta, files: Files, lines: seq<Line>, size: nat)
    requires Saved(meta, files, lines, size) && Numbered(lines) && |lines| <= MAX_SIDECAR_LINES
    ensures var r := FullSpec(Some(meta), files);
            if lines == [] || (|lines| <= MAX_RANGE_SPAN && meta.totalChunks <= MAX_RANGE_CHUNKS) then r == Found(lines)
            else r.Rejected?
  {
    hide SingleRead, HoldsChunk, Interval, Decoded;
    if lines != [] {
      var s := Span(1, WindowEnd(1, |lines|, MAX_TOTAL_RANGE_SPAN));
      SingleReadIsSlice(meta, files, lines, size, s);
      var read := ReaderOf(Some(meta), files);
      assert read(s) == SingleRead(Some(meta), files, s);
      assert s.last == |lines| ==> WindowedRead(read, s.last + 1, |lines|, MAX_TOTAL_RANGE_SPAN) == Found([]);
      if |lines| <= MAX_RANGE_SPAN {
        assert |ChunksOf(s, size)| == meta.totalChunks;
        assert lines[0..|lines|] == lines && lines + [] == lines;
      }
    }
  }

  /** Whatever has become of the chunk files since the save, a full read returns the saved lines or
      nothing. */
  lemma FullReadIsAuthentic(meta: Meta, files: Files, lines: seq<Line>, size: nat, now: Files)
    requires Saved(meta, files, lines, size)
    ensures FullSpec(Some(meta), now).Found? ==> FullSpec(Some(meta), now) == Found(lines)
  {
    hide WindowedRead;
  }

  function LongFile(): (lines: seq<Line>)
    ensures |lines| == MAX_RANGE_SPAN + 1 && Numbered(lines)
  {
    seq(MAX_RANGE_SPAN + 1, i requires 0 <= i <= MAX_RANGE_SPAN => Line(i + 1, ""))
  }

  /** A file of 10001 lines cannot be read back, whatever the chunk size it was saved with. */
  lemma LongFileIsRefused(meta: Meta, files: Files, size: nat)
    requires Saved(meta, files, LongFile(), size)
    ensures FullSpec(Some(meta), files) == Rejected(RangeTooLarge)
  {
    var s := Span(1, MAX_RANGE_SPAN + 1);
    OneRange(s, size);
    assert [s][0].Size() > MAX_RANGE_SPAN;
    assert Refusal(Some(meta), [s]) == Some(RangeTooLarge);
    assert SingleRead(Some(meta), files, s) == Rejected(RangeTooLarge);
  }

  // ---------------------------------------------------------------- lost chunk files

  ghost predicate SameDecoded(meta: Meta, a: Files, b: Files, chunks: set<nat>)
    requires meta.chunkSize >= 1
  {
    forall c :: c in chunks ==> Decoded(meta, a, c) == Decoded(meta, b, c)
  }

  lemma {:induction false} SameRows(meta: Meta, a: Files, b: Files, s: Span, lo: nat, hi: nat)
    requires meta.chunkSize >= 1 && lo <= hi
    requires forall c: nat :: lo <= c < hi ==> Decoded(meta, a, c).Some? && Decoded(meta, a, c) == Decoded(meta, b, c)
    ensures RowsOf(meta, a, s, lo, hi) == RowsOf(meta, b, s, lo, hi)
    decreases hi
  {
    if lo < hi {
      SameRows(meta, a, b, s, lo, hi - 1);
    }
  }

  lemma SameAnswer(meta: Meta, a: Files, b: Files, s: Span)
    requires meta.chunkSize >= 1 && 1 <= s.first <= s.last
    requires Readable(meta, a, ChunksOf(s, meta.chunkSize)) && SameDecoded(meta, a, b, ChunksOf(s, meta.chunkSize))
    ensures Readable(meta, b, ChunksOf(s, meta.chunkSize)) && Answer(meta, a, s) == Answer(meta, b, s)
  {
    hide Decoded, ChunkAt, SortBy, Interval, RowsOf;
    InRange(s, meta.chunkSize);
    SameRows(meta, a, b, s, ChunkOf(s.first, meta.chunkSize), ChunkOf(s.last, meta.chunkSize) + 1);
  }

  lemma {:induction false} SameAnswers(meta: Meta, a: Files, b: Files, spans: seq<Span>)
    requires meta.chunkSize >= 1 && WellFormed(spans)
    requires Readable(meta, a, Needed(spans, meta.chunkSize)) && SameDecoded(meta, a, b, Needed(spans, meta.chunkSize))
    ensures Readable(meta, b, Needed(spans, meta.chunkSize)) && Answers(meta, a, spans) == Answers(meta, b, spans)
  {
    hide Decoded, Answer, ChunksOf;
    if spans != [] {
      SameAnswers(meta, a, b, spans[..|spans| - 1]);
      SameAnswer(meta, a, b, spans[|spans| - 1]);
    }
  }

  /** Some chunk files of a saved file are lost.  An admissible read is answered exactly if nothing
      declared is lost, or valid metadata is cached and nothing it needs is lost; the answer is
      then still exactly the slices, and otherwise nothing is found. */
  lemma ReadAfterLoss(meta: Meta, files: Files, lines: seq<Line>, size: nat, lost: set<ChunkName>, cached: bool,
                      spans: seq<Span>)
    requires Saved(meta, files, lines, size) && Numbered(lines) && lines != []
    requires spans != [] && Refusal(Some(meta), spans).None?
    ensures var left := files - lost;
      var r := ReadSpec(LoadedMeta(Some(meta), left, cached), left, spans);
      && InFile(spans, |lines|) && !r.Rejected?
      && (r.Found? <==> meta.declared !! lost
                        || (cached && forall c :: c in Needed(spans, size) ==> ChunkName(c, size) !in lost))
      && (r.Found? ==> forall i :: 0 <= i < |spans| ==> r.value[i] == SliceOf(lines, spans[i]))
  {
    var left := files - lost;
    RoundTrip(meta, files, lines, size, spans);
    SavedIsLoaded(meta, files, lines, size, true);
    AllReadable(meta, files, lines, size, spans);
    NeededDeclared(meta, files, lines, size, spans);
    LossHits(meta, files, lines, size, lost);
    forall c | c in Needed(spans, size)
      ensures Decoded(meta, left, c) == if ChunkName(c, size) in lost then None else Decoded(meta, files, c)
    {
      DecodedAfterLoss(meta, files, lines, size, lost, c);
    }
    hide Decoded, Saved, Needed, Answers, Refusal, InFile;
    if forall c :: c in Needed(spans, size) ==> ChunkName(c, size) !in lost {
      SameAnswers(meta, files, left, spans);
    }
  }

  lemma DecodedAfterLoss(meta: Meta, files: Files, lines: seq<Line>, size: nat, lost: set<ChunkName>, c: nat)
    requires Saved(meta, files, lines, size) && c < meta.totalChunks
    ensures Decoded(meta, files - lost, c) == if ChunkName(c, size) in lost then None else Decoded(meta, files, c)
  {
    assert HoldsChunk(files, lines, size, c);
    assert ChunkName(c, size) in meta.declared;
  }

  lemma LossHits(meta: Meta, files: Files, lines: seq<Line>, size: nat, lost: set<ChunkName>)
    requires Saved(meta, files, lines, size)
    ensures InventoryComplete(meta, files - lost) <==> meta.declared !! lost
  {
    SavedIsLoaded(meta, files, lines, size, false);
    assert meta.declared <= files.Keys;
    assert (files - lost).Keys == files.Keys - lost;
    if meta.declared <= files.Keys - lost {
      assert forall n :: n in meta.declared ==> n !in lost;
    }
  }

  lemma {:induction false} NeededDeclared(meta: Meta, files: Files, lines: seq<Line>, size: nat, spans: seq<Span>)
    requires Saved(meta, files, lines, size) && InFile(spans, |lines|)
    ensures forall c :: c in Needed(spans, size) ==> c < meta.totalChunks && ChunkName(c, size) in meta.declared
  {
    if spans != [] {
      NeededDeclared(meta, files, lines, size, spans[..|spans| - 1]);
      ChunksAreDeclared(meta, files, lines, size, spans[|spans| - 1]);
    }
  }

  /** Two lines saved one to a chunk, the second chunk file lost: a read of line 1 finds nothing,
      but is answered from the same files if valid metadata is cached. */
  lemma LostChunkHidesOtherLine(meta: Meta, files: Files, lines: seq<Line>)
    requires Saved(meta, files, lines, 1) && Numbered(lines) && |lines| == 2
    ensures var left := files - {ChunkName(1, 1)};
      && ReadSpec(LoadedMeta(Some(meta), left, false), left, [Span(1, 1)]) == Missing
      && ReadSpec(LoadedMeta(Some(meta), left, true), left, [Span(1, 1)]) == Found([[lines[0]]])
  {
    hide Refusal, Needed, ReadSpec, Saved;
    var s, lost := Span(1, 1), {ChunkName(1, 1)};
    SecondChunkDeclared(meta, files, lines);
    OneLineRequest(meta, lines);
    ReadAfterLoss(meta, files, lines, 1, lost, false, [s]);
    ReadAfterLoss(meta, files, lines, 1, lost, true, [s]);
    var left := files - lost;
    var answered := ReadSpec(LoadedMeta(Some(meta), left, true), left, [s]);
    assert answered.value[0] == [lines[0]];
    assert answered.value == [[lines[0]]];
  }

  lemma SecondChunkDeclared(meta: Meta, files: Files, lines: seq<Line>)
    requires Saved(meta, files, lines, 1) && |lines| == 2
    ensures meta.chunkSize == 1 && meta.total == 2 && ChunkName(1, 1) in meta.declared
  {
    WithinTotal(2, 1, 1);
    assert StartOf(1, 1) == 1;
  }

  lemma OneLineRequest(meta: Meta, lines: seq<Line>)
    requires meta.chunkSize == 1 && meta.total == 2
    ensures Refusal(Some(meta), [Span(1, 1)]).None?
    ensures Needed([Span(1, 1)], 1) == {0}
  {
    var s := Span(1, 1);
    OneRange(s, 1);
    assert FirstLineOf(0, 1) == s;
    OneChunk(0, 1);
    hide ChunksOf, Needed;
    assert TotalSize([s]) == 1 by {
      assert [s][..0] == [];
    }
  }

  /** There is such a file. */
  lemma TwoLinesSaved(meta: Meta, files: Files, lines: seq<Line>)
    requires |lines| == 2 && files == map[ChunkName(0, 1) := [lines[0]], ChunkName(1, 1) := [lines[1]]]
    requires meta == Meta(2, 1, 2, {ChunkName(0, 1), ChunkName(1, 1)}, Digest(lines))
    ensures Saved(meta, files, lines, 1)
  {
    hide ChunkTotal, ChunkLines, HoldsChunk;
    assert ChunkTotal(2, 1) == 2 by {
      ChunkTotalIsCeiling(2, 1);
    }
    OneLineChunk(files, lines, 0);
    OneLineChunk(files, lines, 1);
  }

  lemma OneLineChunk(files: Files, lines: seq<Line>, k: nat)
    requires k < |lines| == 2 && ChunkName(k, 1) in files && files[ChunkName(k, 1)] == [lines[k]]
    ensures HoldsChunk(files, lines, 1, k)
  {
    StartIsProduct(k, 1);
    StartIsProduct(k + 1, 1);
    assert ChunkLines(lines, 1, k) == lines[k..k + 1];
  }
}
