/** Window requests that overlap (coverage_enhance.js, scheduleVirtualRender and
    CodeRegionLoader.ensureVirtualWindow): while one request waits for its answers another scroll
    may protect a different window, and every answer may evict what is not protected any more. */
module WindowRequests {
  import opened ChunkResidency
  import opened Counting
  import opened Sorting

  /** The stretches between two awaits: a request or a render protects its window, or an answer
      is merged.  The eviction that an answer for another region causes is an empty answer here. */
  datatype Stretch = Protect(startIndex: int, endIndex: int) | Answer(input: seq<Line>, panels: Panels)

  /** What never changes of a region. */
  datatype Frame = Frame(startLine: int, n: nat)

  /** What decides about the slots of a region: a slot is filled exactly if its chunk holds it. */
  datatype View = View(chunks: seq<Chunk>, clock: nat, kept: set<nat>) {
    predicate Shows(i: nat) {
      i in LinesOf(chunks, ChunkOf(i))
    }
  }

  predicate Reaches(startIndex: int, endIndex: int, c: nat) {
    ChunkOf(FirstRow(startIndex)) <= c <= ChunkOf(LastRow(startIndex, endIndex))
  }

  function WindowChunks(startIndex: int, endIndex: int): (r: set<nat>)
    ensures forall c: nat :: c in r <==> Reaches(startIndex, endIndex, c)
  {
    set c: nat | c <= ChunkOf(LastRow(startIndex, endIndex)) && Reaches(startIndex, endIndex, c)
  }

  function Joined(v: View, f: Frame, input: seq<Line>): seq<Chunk> {
    var groups := GroupsOf(input, f.startLine, f.n);
    Merged(v.chunks, groups, v.clock, |groups|)
  }

  function After(v: View, f: Frame, step: Stretch): View {
    match step
    case Protect(startIndex, endIndex) => v.(kept := WindowChunks(startIndex, endIndex))
    case Answer(input, panels) =>
      View(Evicted(Joined(v, f, input), v.kept, PinsOf(panels, f.startLine, f.n)),
           v.clock + |GroupsOf(input, f.startLine, f.n)|, v.kept)
  }

  function RunOf(v: View, f: Frame, run: seq<Stretch>): View {
    if run == [] then v else After(RunOf(v, f, run[..|run| - 1]), f, run[|run| - 1])
  }

  function FrameOf(region: Region): Frame {
    Frame(region.startLine, region.lineCount)
  }

  function ViewOf(region: Region): View
    reads region
  {
    View(region.chunks, region.clock, region.kept)
  }

  /** A slot is filled exactly if the view shows it. */
  lemma SlotsAreShown(region: Region, i: nat)
    requires region.Valid() && i < region.lineCount
    ensures At(region.lines, i).Some? <==> ViewOf(region).Shows(i)
  {
    if i < |region.lines| {
      assert region.lines[i] == Held(LinesOf(region.chunks, ChunkOf(i)), i);
    }
  }

  /** The region goes through any number of requests, renders and answers, in any order. */
  method Serve(region: Region, run: seq<Stretch>)
    requires region.Valid()
    modifies region
    ensures region.Valid()
    ensures ViewOf(region) == RunOf(old(ViewOf(region)), FrameOf(region), run)
  {
    hide Resident, Total, LinesOf, Numbered, Evicted, Merged, GroupsOf, PinsOf;
    for k := 0 to |run|
      invariant region.Valid()
      invariant ViewOf(region) == RunOf(old(ViewOf(region)), FrameOf(region), run[..k])
    {
      assert run[..k + 1][..k] == run[..k];
      match run[k] {
        case Protect(startIndex, endIndex) =>
          region.ProtectVirtualWindow(startIndex, endIndex);
          assert region.kept == WindowChunks(startIndex, endIndex);
        case Answer(input, panels) =>
          region.MergeLoadedLines(input, panels);
      }
    }
    assert run[..|run|] == run;
  }

  // ---------------------------------------------------------------- what an eviction takes

  ghost predicate OncePerAccess(chunks: seq<Chunk>) {
    forall j, k :: 0 <= j < k < |chunks| ==> chunks[j].access != chunks[k].access
  }

  /** The lines of an evictable chunk that was used before the given time. */
  function Older(access: nat, kept: set<nat>, pinned: nat -> bool): Chunk -> nat {
    (y: Chunk) => if Evictable(y, kept, pinned) && y.access < access then |y.lines| else 0
  }

  /** The chunk is neither protected nor pinned, and without everything evictable that is older the
      region is still over its budget. */
  ghost predicate Overdue(chunks: seq<Chunk>, x: Chunk, kept: set<nat>, pinned: nat -> bool) {
    && Evictable(x, kept, pinned)
    && Total(chunks, SIZE) - Total(chunks, Older(x.access, kept, pinned)) > MAX_VIRTUAL_CACHED_LINES
  }

  lemma {:induction false} TotalRemoved(chunks: seq<Chunk>, k: nat, f: Chunk -> nat)
    requires OnePerIndex(chunks) && k < |chunks|
    ensures Total(Removed(chunks, chunks[k].index), f) == Total(chunks, f) - f(chunks[k])
  {
    if k > 0 {
      TotalRemoved(chunks[1..], k - 1, f);
      var rest := Removed(chunks[1..], chunks[k].index);
      assert ([chunks[0]] + rest)[1..] == rest;
    }
  }

  lemma RemovedAccess(chunks: seq<Chunk>, k: nat)
    requires OnePerIndex(chunks) && OncePerAccess(chunks) && k < |chunks|
    ensures OnePerIndex(Removed(chunks, chunks[k].index)) && OncePerAccess(Removed(chunks, chunks[k].index))
  {
    hide Removed, Total, OnePerIndex, OncePerAccess;
    RemovedForm(chunks, k);
    GapKeeps(chunks, k);
  }

  lemma GapKeeps(chunks: seq<Chunk>, k: nat)
    requires OnePerIndex(chunks) && OncePerAccess(chunks) && k < |chunks|
    ensures OnePerIndex(chunks[..k] + chunks[k + 1..]) && OncePerAccess(chunks[..k] + chunks[k + 1..])
  {
    var r := chunks[..k] + chunks[k + 1..];
    forall i, j | 0 <= i < j < |r|
      ensures r[i].index != r[j].index && r[i].access != r[j].access
    {
      assert r[i] == chunks[if i < k then i else i + 1] && r[j] == chunks[if j < k then j else j + 1];
    }
  }

  /** The queue without its first chunk is the queue of what is left without that chunk. */
  lemma QueueTail(queue: seq<Chunk>, chunks: seq<Chunk>, kept: set<nat>, pinned: nat -> bool) returns (k: nat)
    requires OnePerIndex(chunks) && OncePerAccess(chunks) && queue != [] && EvictionQueue(queue, chunks, kept, pinned)
    ensures k < |chunks| && chunks[k] == queue[0] && Evictable(queue[0], kept, pinned)
    ensures var left := Removed(chunks, queue[0].index);
      && OnePerIndex(left) && OncePerAccess(left) && EvictionQueue(queue[1..], left, kept, pinned)
      && (forall x :: x in left <==> x in chunks && x != queue[0])
      && Total(left, SIZE) == Total(chunks, SIZE) - |queue[0].lines|
  {
    hide LinesOf, Removed, Total, OnePerIndex, OncePerAccess, SortedBy, Distinct;
    TailParts(queue);
    assert queue[0] in queue;
    k :| 0 <= k < |chunks| && chunks[k] == queue[0];
    RemovedAccess(chunks, k);
    RemovedForm(chunks, k);
    RemovedMembers(chunks, k);
  }

  lemma TailParts(queue: seq<Chunk>)
    requires queue != [] && SortedBy(queue, BY_ACCESS) && Distinct(queue)
    ensures SortedBy(queue[1..], BY_ACCESS) && Distinct(queue[1..])
    ensures forall x :: x in queue[1..] <==> x in queue && x != queue[0]
  {
    assert queue == [queue[0]] + queue[1..];
    assert queue[0] !in queue[1..];
  }

  /** Working off the queue leaves exactly the chunks that are not overdue. */
  lemma {:induction false} EvictAllLeaves(chunks: seq<Chunk>, queue: seq<Chunk>, total: int, kept: set<nat>,
                                          pinned: nat -> bool, x: Chunk)
    requires OnePerIndex(chunks) && OncePerAccess(chunks) && EvictionQueue(queue, chunks, kept, pinned)
    requires total == Total(chunks, SIZE) && x in chunks
    ensures x in EvictAll(chunks, queue, total) <==> !Overdue(chunks, x, kept, pinned)
    decreases |queue|
  {
    hide Removed, SortedBy, Distinct, OnePerIndex, OncePerAccess, EvictAll, Total;
    EvictAllStep(chunks, queue, 0, total);
    assert queue[0..] == queue;
    if queue == [] || total <= MAX_VIRTUAL_CACHED_LINES {
      assert x !in queue || total <= MAX_VIRTUAL_CACHED_LINES;
    } else {
      hide EvictionQueue, Evictable;
      var k := QueueTail(queue, chunks, kept, pinned);
      var left := Removed(chunks, queue[0].index);
      TotalRemoved(chunks, k, Older(x.access, kept, pinned));
      if x == queue[0] {
        NothingOlder(chunks, queue, kept, pinned);
        EvictAllKeeps(left, queue[1..], total - |x.lines|, kept, pinned);
      } else {
        EvictAllLeaves(left, queue[1..], total - |queue[0].lines|, kept, pinned, x);
        if Evictable(x, kept, pinned) {
          FirstIsOldest(chunks, queue, kept, pinned, x);
        }
      }
    }
  }

  lemma FirstIsOldest(chunks: seq<Chunk>, queue: seq<Chunk>, kept: set<nat>, pinned: nat -> bool, x: Chunk)
    requires OncePerAccess(chunks) && EvictionQueue(queue, chunks, kept, pinned) && queue != []
    requires x in chunks && Evictable(x, kept, pinned) && x != queue[0]
    ensures queue[0].access < x.access
  {
    assert queue[0] in queue && x in queue;
    var j :| 0 <= j < |queue| && queue[j] == x;
    assert BY_ACCESS(queue[0], queue[j]);
  }

  lemma NothingOlder(chunks: seq<Chunk>, queue: seq<Chunk>, kept: set<nat>, pinned: nat -> bool)
    requires OncePerAccess(chunks) && EvictionQueue(queue, chunks, kept, pinned) && queue != []
    ensures Total(chunks, Older(queue[0].access, kept, pinned)) == 0
  {
    var older := Older(queue[0].access, kept, pinned);
    forall k | 0 <= k < |chunks|
      ensures older(chunks[k]) == 0
    {
      if Evictable(chunks[k], kept, pinned) && chunks[k] != queue[0] {
        FirstIsOldest(chunks, queue, kept, pinned, chunks[k]);
      }
    }
    TotalOfNone(chunks, older);
  }

  lemma {:induction false} EvictAllKeeps(chunks: seq<Chunk>, queue: seq<Chunk>, total: int, kept: set<nat>, pinned: nat -> bool)
    requires OnePerIndex(chunks) && OncePerAccess(chunks) && EvictionQueue(queue, chunks, kept, pinned)
    ensures var r := EvictAll(chunks, queue, total);
      OnePerIndex(r) && OncePerAccess(r) && forall x :: x in r ==> x in chunks
    decreases |queue|
  {
    if queue != [] && total > MAX_VIRTUAL_CACHED_LINES {
      var k := QueueTail(queue, chunks, kept, pinned);
      hide EvictionQueue, OncePerAccess, OnePerIndex, Removed;
      EvictAllKeeps(Removed(chunks, queue[0].index), queue[1..], total - |queue[0].lines|, kept, pinned);
    }
  }

  /** A chunk number whose chunk is overdue. */
  ghost predicate OverdueAt(chunks: seq<Chunk>, c: nat, kept: set<nat>, pinned: nat -> bool) {
    exists k :: 0 <= k < |chunks| && chunks[k].index == c && Overdue(chunks, chunks[k], kept, pinned)
  }

  /** An eviction takes exactly the overdue chunks, whole. */
  lemma EvictedIffOverdue(chunks: seq<Chunk>, kept: set<nat>, pinned: nat -> bool, c: nat)
    requires OnePerIndex(chunks) && OncePerAccess(chunks)
    ensures var r := Evicted(chunks, kept, pinned);
      && OnePerIndex(r) && OncePerAccess(r) && (forall x :: x in r ==> x in chunks)
      && LinesOf(r, c) == if OverdueAt(chunks, c, kept, pinned) then map[] else LinesOf(chunks, c)
  {
    hide Overdue, LinesOf, EvictAll, OncePerAccess;
    EvictionKeeps(chunks, kept, pinned);
    var r := Evicted(chunks, kept, pinned);
    forall j | 0 <= j < |r|
      ensures r[j] in chunks
    {
      assert r[j] in r;
    }
    if k :| 0 <= k < |chunks| && chunks[k].index == c {
      OneEvictedIffOverdue(chunks, kept, pinned, k);
      LinesOfChunk(chunks, k);
      if chunks[k] in r {
        var j :| 0 <= j < |r| && r[j] == chunks[k];
        LinesOfChunk(r, j);
      } else {
        LinesOfNone(r, c);
      }
    } else {
      LinesOfNone(chunks, c);
      LinesOfNone(r, c);
    }
  }

  lemma EvictionKeeps(chunks: seq<Chunk>, kept: set<nat>, pinned: nat -> bool)
    requires OnePerIndex(chunks) && OncePerAccess(chunks)
    ensures var r := Evicted(chunks, kept, pinned);
      OnePerIndex(r) && OncePerAccess(r) && forall x :: x in r ==> x in chunks
  {
    hide SortBy, Candidates, EvictionQueue, EvictAll;
    QueueOf(chunks, kept, pinned);
    EvictAllKeeps(chunks, SortBy(Candidates(chunks, kept, pinned), BY_ACCESS), Total(chunks, SIZE), kept, pinned);
  }

  lemma OneEvictedIffOverdue(chunks: seq<Chunk>, kept: set<nat>, pinned: nat -> bool, k: nat)
    requires OnePerIndex(chunks) && OncePerAccess(chunks) && k < |chunks|
    ensures chunks[k] in Evicted(chunks, kept, pinned) <==> !OverdueAt(chunks, chunks[k].index, kept, pinned)
  {
    hide SortBy, Candidates, EvictionQueue, EvictAll, Overdue;
    QueueOf(chunks, kept, pinned);
    EvictAllLeaves(chunks, SortBy(Candidates(chunks, kept, pinned), BY_ACCESS), Total(chunks, SIZE), kept, pinned, chunks[k]);
  }

  // ---------------------------------------------------------------- one stretch

  /** The region's own order: chunks by index, each used at a time of its own, none in the future. */
  ghost predicate Sound(v: View, f: Frame) {
    && OnePerIndex(v.chunks) && InPlace(v.chunks, f.n) && OncePerAccess(v.chunks)
    && forall k :: 0 <= k < |v.chunks| ==> v.chunks[k].access <= v.clock
  }

  /** The answer has a line for the slot. */
  ghost predicate Writes(step: Stretch, f: Frame, i: nat) {
    step.Answer? && Includes(step.input, f.startLine + i)
  }

  /** The stretch merges an answer that makes the region evict chunk c. */
  ghost predicate Evicts(v: View, f: Frame, step: Stretch, c: nat) {
    && step.Answer?
    && OverdueAt(Joined(v, f, step.input), c, v.kept, PinsOf(step.panels, f.startLine, f.n))
  }

  lemma {:induction false} GroupsHold(input: seq<Line>, f: Frame, i: nat)
    requires i < f.n
    ensures var groups := GroupsOf(input, f.startLine, f.n);
      && OnePerIndex(groups) && InPlace(groups, f.n)
      && (i in LinesOf(groups, ChunkOf(i)) <==> Includes(input, f.startLine + i))
    decreases |input|
  {
    hide ChunkOf, LinesOf, OnePerIndex, InPlace, Upsert;
    if input == [] {
      NoGroups();
    } else {
      var front, line := input[..|input| - 1], input[|input| - 1];
      var index := line.no - f.startLine;
      GroupsHold(front, f, i);
      IncludesStep(input, f.startLine + i);
      if 0 <= index < f.n {
        var before := GroupsOf(front, f.startLine, f.n);
        UpsertKeeps(before, ChunkOf(index), map[index := line], 0, f.n);
        UpsertLines(before, ChunkOf(index), map[index := line], 0, ChunkOf(i));
      }
    }
  }

  lemma NoGroups()
    ensures OnePerIndex([]) && (forall n :: InPlace([], n)) && forall c: nat :: LinesOf([], c) == map[]
  {
  }

  lemma IncludesStep(input: seq<Line>, no: int)
    requires input != []
    ensures Includes(input, no) <==> Includes(input[..|input| - 1], no) || input[|input| - 1].no == no
  {
    var front := input[..|input| - 1];
    if Includes(front, no) {
      var k :| 0 <= k < |front| && front[k].no == no;
      assert input[k].no == no;
    }
  }

  lemma {:induction false} MergedAccess(chunks: seq<Chunk>, groups: seq<Chunk>, clock: nat, g: nat)
    requires g <= |groups| && OncePerAccess(chunks) && forall k :: 0 <= k < |chunks| ==> chunks[k].access <= clock
    ensures var r := Merged(chunks, groups, clock, g);
      OncePerAccess(r) && forall k :: 0 <= k < |r| ==> r[k].access <= clock + g
  {
    hide Upsert, OncePerAccess;
    if g > 0 {
      MergedAccess(chunks, groups, clock, g - 1);
      UpsertAccess(Merged(chunks, groups, clock, g - 1), groups[g - 1], clock + g);
    }
  }

  lemma UpsertAccess(chunks: seq<Chunk>, group: Chunk, access: nat)
    requires OncePerAccess(chunks) && forall k :: 0 <= k < |chunks| ==> chunks[k].access < access
    ensures var r := Upsert(chunks, group.index, group.lines, access);
      OncePerAccess(r) && forall k :: 0 <= k < |r| ==> r[k].access <= access
  {
    hide Upsert;
    var k := UpsertForm(chunks, group.index, group.lines, access);
  }

  /** The answer has a line of chunk c. */
  ghost predicate AnswersFor(input: seq<Line>, f: Frame, c: nat) {
    exists line :: line in input && 0 <= line.no - f.startLine < f.n && ChunkOf(line.no - f.startLine) == c
  }

  lemma {:induction false} GroupIndexes(input: seq<Line>, f: Frame, c: nat)
    ensures var groups := GroupsOf(input, f.startLine, f.n);
      HasGroup(groups, |groups|, c) <==> AnswersFor(input, f, c)
    decreases |input|
  {
    hide Upsert, ChunkOf;
    if input != [] {
      var front, line := input[..|input| - 1], input[|input| - 1];
      var index := line.no - f.startLine;
      GroupIndexes(front, f, c);
      assert input == front + [line];
      assert AnswersFor(input, f, c) <==> AnswersFor(front, f, c) || (0 <= index < f.n && ChunkOf(index) == c);
      if 0 <= index < f.n {
        var before := GroupsOf(front, f.startLine, f.n);
        var k := UpsertForm(before, ChunkOf(index), map[index := line], 0);
        UpsertIndexes(before, GroupsOf(input, f.startLine, f.n), k, ChunkOf(index), c);
      }
    }
  }

  lemma UpsertIndexes(before: seq<Chunk>, after: seq<Chunk>, k: nat, d: nat, c: nat)
    requires k <= |before| && (k < |before| ==> before[k].index == d)
    requires |after| == (if k < |before| then |before| else |before| + 1) && after[k].index == d
    requires forall j :: 0 <= j < |before| && j != k ==> after[j] == before[j]
    ensures HasGroup(after, |after|, c) <==> HasGroup(before, |before|, c) || c == d
  {
    if HasGroup(before, |before|, c) {
      var j :| 0 <= j < |before| && before[j].index == c;
      assert after[j].index == c;
    }
  }

  /** An answer makes exactly its own chunks the most recently used ones. */
  lemma AnswerIsNewest(v: View, f: Frame, input: seq<Line>)
    requires Sound(v, f)
    ensures forall x :: x in Joined(v, f, input) ==>
              (x.access > v.clock <==> AnswersFor(input, f, x.index)) && (x.access <= v.clock ==> x in v.chunks)
  {
    var groups := GroupsOf(input, f.startLine, f.n);
    GroupsInPlace(input, f);
    hide GroupsOf, Merged, OnePerIndex, InPlace, OncePerAccess, HasGroup, AnswersFor;
    MergedIsNewest(v.chunks, groups, v.clock, |groups|, f.n);
    forall x | x in Joined(v, f, input)
      ensures HasGroup(groups, |groups|, x.index) <==> AnswersFor(input, f, x.index)
    {
      GroupIndexes(input, f, x.index);
    }
  }

  lemma GroupsInPlace(input: seq<Line>, f: Frame)
    ensures InPlace(GroupsOf(input, f.startLine, f.n), f.n)
  {
    if f.n > 0 {
      GroupsHold(input, f, 0);
    } else {
      NoGroupsAtAll(input, f);
    }
  }

  lemma {:induction false} NoGroupsAtAll(input: seq<Line>, f: Frame)
    requires f.n == 0
    ensures GroupsOf(input, f.startLine, f.n) == []
    decreases |input|
  {
    if input != [] {
      NoGroupsAtAll(input[..|input| - 1], f);
    }
  }

  lemma JoinedIsSound(v: View, f: Frame, input: seq<Line>, i: nat)
    requires Sound(v, f) && i < f.n
    ensures Sound(View(Joined(v, f, input), v.clock + |GroupsOf(input, f.startLine, f.n)|, v.kept), f)
    ensures i in LinesOf(Joined(v, f, input), ChunkOf(i)) <==> v.Shows(i) || Includes(input, f.startLine + i)
  {
    hide LinesOf, OnePerIndex, InPlace, Merged, GroupsOf, OncePerAccess;
    var groups := GroupsOf(input, f.startLine, f.n);
    GroupsHold(input, f, i);
    MergedKeeps(v.chunks, groups, v.clock, |groups|, f.n);
    MergedAccess(v.chunks, groups, v.clock, |groups|);
    MergedLines(v.chunks, groups, v.clock, |groups|, f.n, ChunkOf(i));
    assert groups[..|groups|] == groups;
  }

  /** After a stretch a slot is filled exactly if it was or the answer has its line, and its chunk
      is not evicted. */
  lemma StretchFills(v: View, f: Frame, step: Stretch, i: nat)
    requires Sound(v, f) && i < f.n
    ensures Sound(After(v, f, step), f)
    ensures After(v, f, step).Shows(i) <==> (v.Shows(i) || Writes(step, f, i)) && !Evicts(v, f, step, ChunkOf(i))
  {
    if step.Answer? {
      hide LinesOf, OnePerIndex, OncePerAccess, InPlace, GroupsOf, Merged, Evicted, OverdueAt, Joined, ChunkOf, PinsOf, Sound;
      var joined := View(Joined(v, f, step.input), v.clock + |GroupsOf(step.input, f.startLine, f.n)|, v.kept);
      JoinedIsSound(v, f, step.input, i);
      EvictionIsSound(joined, f, PinsOf(step.panels, f.startLine, f.n));
      SoundParts(joined, f);
      EvictedIffOverdue(joined.chunks, v.kept, PinsOf(step.panels, f.startLine, f.n), ChunkOf(i));
    }
  }

  lemma SoundParts(v: View, f: Frame)
    requires Sound(v, f)
    ensures OnePerIndex(v.chunks) && OncePerAccess(v.chunks)
  {
  }

  lemma EvictionIsSound(v: View, f: Frame, pinned: nat -> bool)
    requires Sound(v, f)
    ensures Sound(View(Evicted(v.chunks, v.kept, pinned), v.clock, v.kept), f)
  {
    hide Evicted, OwnSlots;
    EvictionKeeps(v.chunks, v.kept, pinned);
    var r := Evicted(v.chunks, v.kept, pinned);
    forall j | 0 <= j < |r|
      ensures OwnSlots(r[j], f.n) && r[j].access <= v.clock
    {
      assert r[j] in r;
      var k :| 0 <= k < |v.chunks| && v.chunks[k] == r[j];
      assert OwnSlots(v.chunks[k], f.n);
    }
  }

  // ---------------------------------------------------------------- runs

  ghost predicate EvictsAt(v: View, f: Frame, run: seq<Stretch>, j: nat, c: nat)
    requires j < |run|
  {
    Evicts(RunOf(v, f, run[..j]), f, run[j], c)
  }

  /** Some stretch at or after position k has a line for the slot. */
  ghost predicate WrittenSince(run: seq<Stretch>, f: Frame, k: nat, i: nat) {
    exists j :: k <= j < |run| && Writes(run[j], f, i)
  }

  /** Every eviction of the slot's chunk is followed by a later answer that has its line. */
  ghost predicate Recovered(v: View, f: Frame, run: seq<Stretch>, i: nat) {
    forall j: nat :: j < |run| && EvictsAt(v, f, run, j, ChunkOf(i)) ==> WrittenSince(run, f, j + 1, i)
  }

  lemma WrittenSinceStep(run: seq<Stretch>, f: Frame, k: nat, i: nat)
    requires k < |run|
    ensures WrittenSince(run, f, k, i) <==> WrittenSince(run[..|run| - 1], f, k, i) || Writes(run[|run| - 1], f, i)
  {
    var front := run[..|run| - 1];
    if WrittenSince(front, f, k, i) {
      var j :| k <= j < |front| && Writes(front[j], f, i);
      assert Writes(run[j], f, i);
    }
  }

  lemma RecoveredStep(v: View, f: Frame, run: seq<Stretch>, i: nat)
    requires run != []
    ensures var front, last := run[..|run| - 1], run[|run| - 1];
      Recovered(v, f, run, i) <==>
        !Evicts(RunOf(v, f, front), f, last, ChunkOf(i)) && (Writes(last, f, i) || Recovered(v, f, front, i))
  {
    hide Evicts, RunOf, Writes, ChunkOf;
    var n := |run| - 1;
    var front := run[..n];
    forall j: nat | j < n
      ensures EvictsAt(v, f, run, j, ChunkOf(i)) == EvictsAt(v, f, front, j, ChunkOf(i))
      ensures WrittenSince(run, f, j + 1, i) <==> WrittenSince(front, f, j + 1, i) || Writes(run[n], f, i)
    {
      assert run[..j] == front[..j];
      if j + 1 <= n {
        WrittenSinceStep(run, f, j + 1, i);
      }
    }
    assert EvictsAt(v, f, run, n, ChunkOf(i)) == Evicts(RunOf(v, f, front), f, run[n], ChunkOf(i));
    assert !WrittenSince(run, f, n + 1, i);
  }

  /** After any run of requests, renders and answers a slot is filled exactly if it was filled or
      has been answered, and was answered again after every eviction of its chunk. */
  lemma {:induction false} SlotAfterRun(v: View, f: Frame, run: seq<Stretch>, i: nat)
    requires Sound(v, f) && i < f.n
    ensures Sound(RunOf(v, f, run), f)
    ensures RunOf(v, f, run).Shows(i)
       <==> (v.Shows(i) || WrittenSince(run, f, 0, i)) && Recovered(v, f, run, i)
    decreases |run|
  {
    if run != [] {
      var front, last := run[..|run| - 1], run[|run| - 1];
      SlotAfterRun(v, f, front, i);
      StretchFills(RunOf(v, f, front), f, last, i);
      hide Sound, Writes, Evicts, After, ChunkOf;
      RecoveredStep(v, f, run, i);
      WrittenSinceStep(run, f, 0, i);
    }
  }

  // ---------------------------------------------------------------- windows

  ghost predicate WindowShown(v: View, start: nat, end: nat) {
    forall i: nat :: start <= i < end ==> v.Shows(i)
  }

  /** The answer holds every line of the chunk. */
  ghost predicate Completes(step: Stretch, f: Frame, c: nat) {
    forall i: nat :: i < f.n && ChunkOf(i) == c ==> Writes(step, f, i)
  }

  /** Every chunk that the window misses in v has been answered during the run. */
  ghost predicate RequestsAnswered(v: View, f: Frame, run: seq<Stretch>, start: nat, end: nat) {
    forall i: nat :: start <= i < end && !v.Shows(i) ==>
      exists k :: 0 <= k < |run| && Completes(run[k], f, ChunkOf(i))
  }

  /** A window is requested in v.  Whatever other requests, renders and answers came in between,
      when all its requests have been answered it is fully loaded exactly if every row whose chunk
      has been evicted since was answered again later. */
  lemma WindowAtRender(v: View, f: Frame, run: seq<Stretch>, start: nat, end: nat)
    requires Sound(v, f) && end <= f.n && RequestsAnswered(v, f, run, start, end)
    ensures WindowShown(RunOf(v, f, run), start, end) <==> forall i: nat :: start <= i < end ==> Recovered(v, f, run, i)
  {
    hide Sound, Recovered, RunOf, Writes, ChunkOf;
    forall i: nat | start <= i < end
      ensures RunOf(v, f, run).Shows(i) <==> Recovered(v, f, run, i)
    {
      SlotAfterRun(v, f, run, i);
      if !v.Shows(i) {
        var k :| 0 <= k < |run| && Completes(run[k], f, ChunkOf(i));
        assert Writes(run[k], f, i);
      }
    }
  }

  /** The chunk is protected or pinned when the answer is merged, or the region stays within its budget. */
  ghost predicate KeepsHold(v: View, f: Frame, step: Stretch, c: nat) {
    step.Answer? ==>
      || c in v.kept || Pinned(step.panels, f.startLine, f.n, c)
      || Total(Joined(v, f, step.input), SIZE) <= MAX_VIRTUAL_CACHED_LINES
  }

  /** So it is enough that no chunk of the window leaves the protected set while an answer takes
      the region over its budget. */
  lemma HeldWindowStays(v: View, f: Frame, run: seq<Stretch>, start: nat, end: nat)
    requires Sound(v, f) && end <= f.n && RequestsAnswered(v, f, run, start, end)
    requires forall i: nat, j: nat :: start <= i < end && j < |run| ==> KeepsHold(RunOf(v, f, run[..j]), f, run[j], ChunkOf(i))
    ensures WindowShown(RunOf(v, f, run), start, end)
  {
    hide Sound, RunOf, ChunkOf, Total, RequestsAnswered, WindowShown;
    forall i: nat, j: nat | start <= i < end && j < |run|
      ensures !EvictsAt(v, f, run, j, ChunkOf(i))
    {
      assert KeepsHold(RunOf(v, f, run[..j]), f, run[j], ChunkOf(i));
    }
    WindowAtRender(v, f, run, start, end);
  }

  ghost predicate Protects(kept: set<nat>, start: nat, end: nat) {
    forall i: nat :: start <= i < end ==> ChunkOf(i) in kept
  }

  /** In particular a window survives every other request that protects its chunks as well. */
  lemma SharedWindowStays(v: View, f: Frame, run: seq<Stretch>, start: nat, end: nat)
    requires Sound(v, f) && end <= f.n && RequestsAnswered(v, f, run, start, end)
    requires Protects(v.kept, start, end)
    requires forall k :: 0 <= k < |run| && run[k].Protect? ==>
               Protects(WindowChunks(run[k].startIndex, run[k].endIndex), start, end)
    ensures WindowShown(RunOf(v, f, run), start, end)
  {
    hide Sound, RunOf, ChunkOf, Total, RequestsAnswered, WindowShown, Joined;
    forall i: nat, j: nat | start <= i < end && j < |run|
      ensures KeepsHold(RunOf(v, f, run[..j]), f, run[j], ChunkOf(i))
    {
      StaysProtected(v, f, run[..j], start, end);
    }
    HeldWindowStays(v, f, run, start, end);
  }

  lemma {:induction false} StaysProtected(v: View, f: Frame, run: seq<Stretch>, start: nat, end: nat)
    requires Protects(v.kept, start, end)
    requires forall k :: 0 <= k < |run| && run[k].Protect? ==>
               Protects(WindowChunks(run[k].startIndex, run[k].endIndex), start, end)
    ensures Protects(RunOf(v, f, run).kept, start, end)
    decreases |run|
  {
    hide Protects, WindowChunks, Evicted, Joined;
    if run != [] {
      StaysProtected(v, f, run[..|run| - 1], start, end);
    }
  }

  // ---------------------------------------------------------------- a window that is lost

  /** The first m lines of chunk c in a file that starts at line 1, as an answer and as a chunk. */
  function Batch(c: nat, m: nat): seq<Line> {
    seq(m, k requires 0 <= k < m => Line(c * NETWORK_CHUNK_LINES + k + 1, 0))
  }

  function Part(c: nat, m: nat): map<nat, Line> {
    map i | i in Rows(c, m) :: Line(i + 1, 0)
  }

  function Rows(c: nat, m: nat): (r: set<nat>)
    ensures forall i: nat :: i in r <==> c * NETWORK_CHUNK_LINES <= i < c * NETWORK_CHUNK_LINES + m
  {
    if m == 0 then {} else Rows(c, m - 1) + {c * NETWORK_CHUNK_LINES + m - 1}
  }

  lemma {:induction false} PartSize(c: nat, m: nat)
    ensures |Part(c, m)| == m
  {
    if m > 0 {
      PartSize(c, m - 1);
      var index := c * NETWORK_CHUNK_LINES + m - 1;
      assert Part(c, m) == Part(c, m - 1)[index := Line(index + 1, 0)];
    } else {
      assert Part(c, 0) == map[];
    }
  }

  const LONG := Frame(1, 20000)
  const NO_PANELS := Panels([], {})

  function Full(c: nat, access: nat): Chunk {
    Chunk(c, Part(c, NETWORK_CHUNK_LINES), access)
  }

  function Arrives(c: nat): Stretch {
    Answer(Batch(c, NETWORK_CHUNK_LINES), NO_PANELS)
  }

  function Arrivals(order: seq<nat>): seq<Stretch> {
    seq(|order|, k requires 0 <= k < |order| => Arrives(order[k]))
  }

  lemma LastOfPart(c: nat, m: nat)
    requires 1 <= m <= NETWORK_CHUNK_LINES
    ensures var index := c * NETWORK_CHUNK_LINES + m - 1;
      && ChunkOf(index) == c && Batch(c, m)[m - 1] == Line(index + 1, 0)
      && Part(c, m) == Part(c, m - 1) + map[index := Batch(c, m)[m - 1]]
      && (m == 1 ==> Part(c, 0) == map[] && Part(c, m) == map[index := Batch(c, m)[m - 1]])
  {
  }

  lemma UpsertOne(c: nat, held: map<nat, Line>, line: map<nat, Line>)
    ensures Upsert([Chunk(c, held, 0)], c, line, 0) == [Chunk(c, held + line, 0)]
    ensures Upsert([], c, line, 0) == [Chunk(c, line, 0)]
  {
  }

  lemma {:induction false} BatchGroups(f: Frame, c: nat, m: nat)
    requires f == LONG && c < 10 && 1 <= m <= NETWORK_CHUNK_LINES
    ensures GroupsOf(Batch(c, m), f.startLine, f.n) == [Chunk(c, Part(c, m), 0)]
  {
    var input := Batch(c, m);
    var index := c * NETWORK_CHUNK_LINES + m - 1;
    var line := map[index := input[m - 1]];
    assert input[..m - 1] == Batch(c, m - 1);
    LastOfPart(c, m);
    assert index < f.n;
    hide Part, Batch, ChunkOf, Upsert;
    if m > 1 {
      BatchGroups(f, c, m - 1);
      UpsertOne(c, Part(c, m - 1), line);
    } else {
      UpsertOne(c, Part(c, 0), line);
    }
  }

  lemma {:induction false} FullTotal(chunks: seq<Chunk>)
    requires forall k :: 0 <= k < |chunks| ==> chunks[k].lines == Part(chunks[k].index, NETWORK_CHUNK_LINES)
    ensures Total(chunks, SIZE) == NETWORK_CHUNK_LINES * |chunks|
  {
    hide Part;
    if chunks != [] {
      PartSize(chunks[0].index, NETWORK_CHUNK_LINES);
      FullTotal(chunks[1..]);
    }
  }

  /** Whole chunks, loaded one after the other. */
  function Loaded(order: seq<nat>, kept: set<nat>): View {
    View(seq(|order|, k requires 0 <= k < |order| => Full(order[k], k + 1)), |order|, kept)
  }

  /** The answer for a chunk that is not there adds it at the end. */
  lemma ArrivalAppends(f: Frame, order: seq<nat>, kept: set<nat>, c: nat)
    requires f == LONG && c < 10 && c !in order
    ensures Joined(Loaded(order, kept), f, Arrives(c).input) == Loaded(order + [c], kept).chunks
    ensures |GroupsOf(Arrives(c).input, f.startLine, f.n)| == 1
  {
    hide Batch, Part, Loaded, Merged, GroupsOf;
    BatchGroups(f, c, NETWORK_CHUNK_LINES);
    LoadedNext(order, kept, c);
    MergedOne(Loaded(order, kept).chunks, Chunk(c, Part(c, NETWORK_CHUNK_LINES), 0), |order|);
  }

  lemma LoadedNext(order: seq<nat>, kept: set<nat>, c: nat)
    requires c !in order
    ensures Loaded(order, kept).clock == |order|
    ensures forall k :: 0 <= k < |Loaded(order, kept).chunks| ==> Loaded(order, kept).chunks[k].index != c
    ensures Loaded(order + [c], kept).chunks == Loaded(order, kept).chunks + [Full(c, |order| + 1)]
  {
    hide Part;
  }

  lemma MergedOne(chunks: seq<Chunk>, group: Chunk, clock: nat)
    requires forall k :: 0 <= k < |chunks| ==> chunks[k].index != group.index
    ensures Merged(chunks, [group], clock, 1) == chunks + [Chunk(group.index, group.lines, clock + 1)]
  {
    hide Upsert;
    assert Merged(chunks, [group], clock, 0) == chunks;
    var k := UpsertForm(chunks, group.index, group.lines, clock + 1);
  }

  /** Within the budget nothing is evicted. */
  lemma ArrivalFits(f: Frame, order: seq<nat>, kept: set<nat>, c: nat)
    requires f == LONG && c < 10 && c !in order && |order| < 4
    ensures After(Loaded(order, kept), f, Arrives(c)) == Loaded(order + [c], kept)
  {
    ArrivalAppends(f, order, kept, c);
    hide Batch, GroupsOf, Joined, Part;
    FullTotal(Loaded(order + [c], kept).chunks);
  }

  /** Chunks 1 to 3 are loaded and the rows 1900 to 2100 are requested. */
  function FirstRequest(): seq<Stretch> {
    Arrivals([1, 2, 3]) + [Protect(1900, 2100)]
  }

  /** Before they arrive a scroll to the rows 16000 to 16200 protects chunk 8 instead. */
  function SecondRequest(): seq<Stretch> {
    [Protect(16000, 16200)] + Arrivals([8, 0])
  }

  lemma RunStep(v: View, f: Frame, run: seq<Stretch>, step: Stretch)
    ensures RunOf(v, f, run + [step]) == After(RunOf(v, f, run), f, step) && RunOf(v, f, []) == v
  {
    assert (run + [step])[..|run|] == run;
  }

  lemma NextArrival(v: View, f: Frame, run: seq<Stretch>, order: seq<nat>, kept: set<nat>, c: nat)
    requires f == LONG && RunOf(v, f, run) == Loaded(order, kept) && c < 10 && c !in order && |order| < 4
    ensures RunOf(v, f, run + [Arrives(c)]) == Loaded(order + [c], kept)
  {
    hide RunOf, After, Arrives, Loaded;
    RunStep(v, f, run, Arrives(c));
    ArrivalFits(f, order, kept, c);
  }

  lemma {:induction false} AllArrive(v: View, f: Frame, order: seq<nat>, kept: set<nat>)
    requires f == LONG && v == Loaded([], kept) && |order| <= 4 && Distinct(order)
    requires forall k :: 0 <= k < |order| ==> order[k] < 10
    ensures RunOf(v, f, Arrivals(order)) == Loaded(order, kept)
  {
    hide RunOf, Arrives, Loaded;
    if order == [] {
      RunStep(v, f, [], Arrives(0));
      assert Arrivals(order) == [];
    } else {
      var front, last := order[..|order| - 1], order[|order| - 1];
      AllArrive(v, f, front, kept);
      NextArrival(v, f, Arrivals(front), front, kept, last);
      assert Arrivals(front) + [Arrives(last)] == Arrivals(order);
      assert front + [last] == order;
    }
  }

  lemma AfterFirstRequest(v: View, f: Frame)
    requires v == Loaded([], {}) && f == LONG
    ensures RunOf(v, f, FirstRequest()) == Loaded([1, 2, 3], WindowChunks(1900, 2100))
  {
    hide RunOf, Arrivals, WindowChunks, Full;
    AllArrive(v, f, [1, 2, 3], {});
    RunStep(v, f, Arrivals([1, 2, 3]), Protect(1900, 2100));
  }

  /** Chunk 8 still fits; after it chunk 0 takes the region over its budget and chunk 1 is overdue. */
  lemma SecondRequestEvicts(v: View, f: Frame)
    requires f == LONG && v == Loaded([1, 2, 3], WindowChunks(1900, 2100))
    ensures EvictsAt(v, f, SecondRequest(), 2, 1)
  {
    hide RunOf, WindowChunks, Full, Arrives, OverdueAt;
    var kept := WindowChunks(16000, 16200);
    var window := [Protect(16000, 16200)];
    RunStep(v, f, [], window[0]);
    assert [] + window == window;
    NextArrival(v, f, window, [1, 2, 3], kept, 8);
    assert SecondRequest()[..2] == window + [Arrives(8)];
    ArrivalAppends(f, [1, 2, 3] + [8], kept, 0);
    LastChunkOverdue([1, 2, 3] + [8] + [0], kept);
    LastEvicts(v, f, SecondRequest(), [1, 2, 3] + [8], kept);
  }

  lemma LastEvicts(v: View, f: Frame, run: seq<Stretch>, order: seq<nat>, kept: set<nat>)
    requires f == LONG && |run| == 3 && run[2] == Arrives(0)
    requires RunOf(v, f, run[..2]) == Loaded(order, kept)
    requires Joined(Loaded(order, kept), f, Arrives(0).input) == Loaded(order + [0], kept).chunks
    requires OverdueAt(Loaded(order + [0], kept).chunks, 1, kept, PinsOf(NO_PANELS, 1, 20000))
    ensures EvictsAt(v, f, run, 2, 1)
  {
    hide RunOf, OverdueAt, Joined, Batch;
    LoadedKeeps(order, kept);
  }

  lemma LoadedKeeps(order: seq<nat>, kept: set<nat>)
    ensures Loaded(order, kept).kept == kept
  {
  }

  lemma LastChunkOverdue(order: seq<nat>, kept: set<nat>)
    requires |order| == 5 && order[0] == 1 && kept == WindowChunks(16000, 16200)
    ensures OverdueAt(Loaded(order, kept).chunks, 1, kept, PinsOf(NO_PANELS, 1, 20000))
  {
    hide Part, Total;
    var chunks := Loaded(order, kept).chunks;
    FullTotal(chunks);
    TotalOfNone(chunks, Older(1, kept, PinsOf(NO_PANELS, 1, 20000)));
    assert Overdue(chunks, chunks[0], kept, PinsOf(NO_PANELS, 1, 20000));
  }

  /** The first request misses rows of chunk 0 only and chunk 0 is answered, but by then chunk 1 is
      gone: the first window is drawn without its row 2000. */
  lemma OverlappingWindowIsLost(v: View, f: Frame)
    requires v == RunOf(View([], 0, {}), f, FirstRequest()) && f == LONG
    ensures RequestsAnswered(v, f, SecondRequest(), 1900, 2100)
    ensures v.Shows(2000) && !RunOf(v, f, SecondRequest()).Shows(2000)
  {
    var blank := View([], 0, {});
    assert blank == Loaded([], {}) && Sound(blank, f);
    hide RunOf, EvictsAt, Part, Batch, Sound, Loaded, After, WindowChunks, RequestsAnswered;
    AfterFirstRequest(blank, f);
    SlotAfterRun(blank, f, FirstRequest(), 2000);
    SecondRequestEvicts(v, f);
    SlotAfterRun(v, f, SecondRequest(), 2000);
    assert !WrittenSince(SecondRequest(), f, 3, 2000);
    FirstWindowAnswered(v, f);
  }

  lemma FirstWindowAnswered(v: View, f: Frame)
    requires f == LONG && v == Loaded([1, 2, 3], WindowChunks(1900, 2100))
    ensures RequestsAnswered(v, f, SecondRequest(), 1900, 2100) && v.Shows(2000)
  {
    var last := SecondRequest()[2];
    forall i: nat | i < f.n && ChunkOf(i) == 0
      ensures Writes(last, f, i)
    {
      assert last.input[i].no == f.startLine + i;
    }
    assert Completes(last, f, 0);
    forall i: nat | 2000 <= i < 2100
      ensures v.Shows(i)
    {
      assert ChunkOf(i) == 1;
    }
  }
}
