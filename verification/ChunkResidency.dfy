/** The lines of a virtualised region and the physical chunks that hold them: merging,
    protecting and evicting (coverage_enhance.js, CodeRegionStore, RegionLineLRUCache and
    CodeRegionLoader.ensureVirtualWindow). */
module ChunkResidency {
  import Caching
  import opened Counting
  import opened Options
  import opened Sorting

  const NETWORK_CHUNK_LINES := 2000
  const MAX_VIRTUAL_CACHED_LINES := 8000

  datatype Line = Line(no: int, id: int)

  /** A physical chunk: its lines by index, and when it was last merged into.  The chunks of a
      region are a map in insertion order, no index twice. */
  datatype Chunk = Chunk(index: nat, lines: map<nat, Line>, access: nat)

  function ChunkOf(index: nat): nat {
    index / NETWORK_CHUNK_LINES
  }

  // ---------------------------------------------------------------- residency

  ghost predicate OnePerIndex(chunks: seq<Chunk>) {
    forall j, k :: 0 <= j < k < |chunks| ==> chunks[j].index != chunks[k].index
  }

  /** The lines of a chunk, none if it is not there. */
  function LinesOf(chunks: seq<Chunk>, c: nat): map<nat, Line> {
    if chunks == [] then map[]
    else if chunks[0].index == c then chunks[0].lines
    else LinesOf(chunks[1..], c)
  }

  function At(lines: seq<Option<Line>>, i: nat): Option<Line> {
    if i < |lines| then lines[i] else None
  }

  function Held(held: map<nat, Line>, i: nat): Option<Line> {
    if i in held then Some(held[i]) else None
  }

  /** The chunk holds only its own slots. */
  ghost predicate OwnSlots(chunk: Chunk, n: nat) {
    forall i: nat :: i in chunk.lines ==> i < n && ChunkOf(i) == chunk.index
  }

  ghost predicate InPlace(chunks: seq<Chunk>, n: nat) {
    forall k :: 0 <= k < |chunks| ==> OwnSlots(chunks[k], n)
  }

  /** A slot is filled exactly if its physical chunk holds that same line. */
  ghost predicate Resident(lines: seq<Option<Line>>, chunks: seq<Chunk>) {
    && OnePerIndex(chunks) && InPlace(chunks, |lines|)
    && forall i :: 0 <= i < |lines| ==> lines[i] == Held(LinesOf(chunks, ChunkOf(i)), i)
  }

  const FILLED := (slot: Option<Line>) => if slot.Some? then 1 else 0
  const SIZE := (chunk: Chunk) => |chunk.lines|

  lemma {:induction false} LinesOfChunk(chunks: seq<Chunk>, k: nat)
    requires OnePerIndex(chunks) && k < |chunks|
    ensures LinesOf(chunks, chunks[k].index) == chunks[k].lines
  {
    if k > 0 {
      LinesOfChunk(chunks[1..], k - 1);
    }
  }

  lemma {:induction false} LinesOfNone(chunks: seq<Chunk>, c: nat)
    requires forall k :: 0 <= k < |chunks| ==> chunks[k].index != c
    ensures LinesOf(chunks, c) == map[]
  {
    if chunks != [] {
      LinesOfNone(chunks[1..], c);
    }
  }

  lemma {:induction false} LinesOfUpdated(chunks: seq<Chunk>, k: nat, chunk: Chunk, c: nat)
    requires OnePerIndex(chunks) && k < |chunks| && chunk.index == chunks[k].index
    ensures LinesOf(chunks[k := chunk], c) == if c == chunk.index then chunk.lines else LinesOf(chunks, c)
  {
    if k > 0 {
      LinesOfUpdated(chunks[1..], k - 1, chunk, c);
      assert chunks[k := chunk][1..] == chunks[1..][k - 1 := chunk];
    } else {
      assert chunks[k := chunk][1..] == chunks[1..];
    }
  }

  lemma {:induction false} LinesOfAppended(chunks: seq<Chunk>, chunk: Chunk, c: nat)
    requires forall k :: 0 <= k < |chunks| ==> chunks[k].index != chunk.index
    ensures LinesOf(chunks + [chunk], c) == if c == chunk.index then chunk.lines else LinesOf(chunks, c)
  {
    if chunks != [] {
      LinesOfAppended(chunks[1..], chunk, c);
      assert (chunks + [chunk])[1..] == chunks[1..] + [chunk];
    }
  }

  /** A slot that is filled lies in one of the chunks. */
  lemma {:induction false} ChunkHolding(chunks: seq<Chunk>, c: nat, i: nat) returns (k: nat)
    requires i in LinesOf(chunks, c)
    ensures k < |chunks| && chunks[k].index == c && i in chunks[k].lines
  {
    if chunks[0].index == c {
      k := 0;
    } else {
      var rest := ChunkHolding(chunks[1..], c, i);
      k := rest + 1;
    }
  }

  lemma WithoutKey(m: map<nat, Line>, i: nat)
    requires i in m
    ensures |m - {i}| == |m| - 1
  {
    assert m == (m - {i})[i := m[i]];
  }

  lemma NothingHeld(chunk: Chunk)
    requires OwnSlots(chunk, 0)
    ensures |chunk.lines| == 0
  {
    assert forall i: nat :: i !in chunk.lines;
    assert chunk.lines == map[];
  }

  /** The filled slots are as many as the lines of all chunks. */
  lemma {:induction false} SizesAgree(lines: seq<Option<Line>>, chunks: seq<Chunk>)
    requires Resident(lines, chunks)
    ensures Total(lines, FILLED) == Total(chunks, SIZE)
    decreases |lines|
  {
    if lines == [] {
      forall k | 0 <= k < |chunks|
        ensures SIZE(chunks[k]) == 0
      {
        NothingHeld(chunks[k]);
      }
      TotalOfNone(chunks, SIZE);
    } else {
      var i := |lines| - 1;
      assert lines == lines[..i] + [lines[i]];
      TotalAppended(lines[..i], lines[i], FILLED);
      if lines[i].None? {
        SlotDropped(lines, chunks);
        SizesAgree(lines[..i], chunks);
      } else {
        var k := ChunkHolding(chunks, ChunkOf(i), i);
        var less := Chunk(chunks[k].index, chunks[k].lines - {i}, chunks[k].access);
        SlotRemoved(lines, chunks, k);
        SizesAgree(lines[..i], chunks[k := less]);
        TotalUpdated(chunks, k, less, SIZE);
        WithoutKey(chunks[k].lines, i);
      }
    }
  }

  lemma SlotDropped(lines: seq<Option<Line>>, chunks: seq<Chunk>)
    requires Resident(lines, chunks) && lines != [] && lines[|lines| - 1].None?
    ensures Resident(lines[..|lines| - 1], chunks)
  {
    var n := |lines| - 1;
    assert lines[n] == Held(LinesOf(chunks, ChunkOf(n)), n);
    forall k | 0 <= k < |chunks|
      ensures OwnSlots(chunks[k], n)
    {
      LinesOfChunk(chunks, k);
      assert OwnSlots(chunks[k], |lines|);
      assert chunks[k].index == ChunkOf(n) ==> n !in chunks[k].lines;
    }
  }

  lemma SlotRemoved(lines: seq<Option<Line>>, chunks: seq<Chunk>, k: nat)
    requires Resident(lines, chunks) && lines != [] && k < |chunks| && |lines| - 1 in chunks[k].lines
    ensures Resident(lines[..|lines| - 1],
                     chunks[k := Chunk(chunks[k].index, chunks[k].lines - {|lines| - 1}, chunks[k].access)])
  {
    var n := |lines| - 1;
    var less := Chunk(chunks[k].index, chunks[k].lines - {n}, chunks[k].access);
    var r := chunks[k := less];
    forall i | 0 <= i < n
      ensures lines[i] == Held(LinesOf(r, ChunkOf(i)), i)
    {
      LinesOfUpdated(chunks, k, less, ChunkOf(i));
      LinesOfChunk(chunks, k);
      assert lines[i] == Held(LinesOf(chunks, ChunkOf(i)), i);
    }
    forall j | 0 <= j < |r|
      ensures OwnSlots(r[j], n)
    {
      assert OwnSlots(chunks[j], |lines|) && OwnSlots(chunks[k], |lines|);
      assert j != k ==> chunks[j].index != chunks[k].index;
    }
  }

  // ---------------------------------------------------------------- merging

  /** Adds lines to a chunk, creating it at the end if it is not there. */
  function Upsert(chunks: seq<Chunk>, c: nat, more: map<nat, Line>, access: nat): seq<Chunk> {
    if chunks == [] then [Chunk(c, more, access)]
    else if chunks[0].index == c then [Chunk(c, chunks[0].lines + more, access)] + chunks[1..]
    else [chunks[0]] + Upsert(chunks[1..], c, more, access)
  }

  /** Upsert replaces the chunk at k, or appends one if there is none. */
  lemma {:induction false} UpsertForm(chunks: seq<Chunk>, c: nat, more: map<nat, Line>, access: nat) returns (k: nat)
    ensures k <= |chunks| && (k < |chunks| ==> chunks[k].index == c)
    ensures forall j :: 0 <= j < k ==> chunks[j].index != c
    ensures Upsert(chunks, c, more, access)
            == if k < |chunks| then chunks[k := Chunk(c, chunks[k].lines + more, access)]
               else chunks + [Chunk(c, more, access)]
  {
    if chunks == [] || chunks[0].index == c {
      k := 0;
    } else {
      var rest := UpsertForm(chunks[1..], c, more, access);
      k := rest + 1;
    }
  }

  lemma UpsertLines(chunks: seq<Chunk>, c: nat, more: map<nat, Line>, access: nat, d: nat)
    requires OnePerIndex(chunks)
    ensures LinesOf(Upsert(chunks, c, more, access), d) == if d == c then LinesOf(chunks, c) + more else LinesOf(chunks, d)
  {
    var k := UpsertForm(chunks, c, more, access);
    if k < |chunks| {
      LinesOfUpdated(chunks, k, Chunk(c, chunks[k].lines + more, access), d);
      LinesOfChunk(chunks, k);
    } else {
      LinesOfAppended(chunks, Chunk(c, more, access), d);
      LinesOfNone(chunks, c);
      assert map[] + more == more;
    }
  }

  lemma UpsertKeeps(chunks: seq<Chunk>, c: nat, more: map<nat, Line>, access: nat, n: nat)
    requires OnePerIndex(chunks) && InPlace(chunks, n) && OwnSlots(Chunk(c, more, access), n)
    ensures OnePerIndex(Upsert(chunks, c, more, access)) && InPlace(Upsert(chunks, c, more, access), n)
  {
    var k := UpsertForm(chunks, c, more, access);
    if k < |chunks| {
      assert OwnSlots(chunks[k], n);
      assert OwnSlots(Chunk(c, chunks[k].lines + more, access), n);
    }
  }

  /** The slots after the lines of a response have been written one after the other. */
  function Written(lines: seq<Option<Line>>, input: seq<Line>, startLine: int): (r: seq<Option<Line>>)
    ensures |r| == |lines|
  {
    if input == [] then lines
    else
      var before := Written(lines, input[..|input| - 1], startLine);
      var line := input[|input| - 1];
      var index := line.no - startLine;
      if 0 <= index < |lines| then before[index := Some(line)] else before
  }

  /** The response so far, grouped by physical chunk: a slot shows the group's line or the old one. */
  ghost predicate Grouped(was: seq<Option<Line>>, lines: seq<Option<Line>>, groups: seq<Chunk>) {
    && |lines| == |was| && OnePerIndex(groups) && InPlace(groups, |lines|)
    && forall i :: 0 <= i < |lines| ==>
         var held := Held(LinesOf(groups, ChunkOf(i)), i);
         lines[i] == if held.Some? then held else was[i]
  }

  /** The lines of a response by physical chunk, chunks in the order of their first line. */
  function GroupsOf(input: seq<Line>, startLine: int, n: nat): seq<Chunk> {
    if input == [] then []
    else
      var before := GroupsOf(input[..|input| - 1], startLine, n);
      var line := input[|input| - 1];
      var index := line.no - startLine;
      if 0 <= index < n then Upsert(before, ChunkOf(index), map[index := line], 0) else before
  }

  /** One more line of the response is written and grouped. */
  lemma ResponseStep(was: seq<Option<Line>>, input: seq<Line>, startLine: int, i: nat)
    requires i < |input|
    ensures var index := input[i].no - startLine;
      var lines, groups := Written(was, input[..i], startLine), GroupsOf(input[..i], startLine, |was|);
      if 0 <= index < |was| then
        && Written(was, input[..i + 1], startLine) == lines[index := Some(input[i])]
        && GroupsOf(input[..i + 1], startLine, |was|) == Upsert(groups, ChunkOf(index), map[index := input[i]], 0)
      else
        Written(was, input[..i + 1], startLine) == lines && GroupsOf(input[..i + 1], startLine, |was|) == groups
  {
    hide Upsert;
    assert input[..i + 1][..i] == input[..i];
  }

  lemma ResponseOfNone(was: seq<Option<Line>>, startLine: int)
    ensures Written(was, [], startLine) == was && GroupsOf([], startLine, |was|) == [] && Grouped(was, was, [])
  {
  }

  lemma GroupedStep(was: seq<Option<Line>>, lines: seq<Option<Line>>, groups: seq<Chunk>, index: nat, line: Line)
    requires Grouped(was, lines, groups) && index < |lines|
    ensures Grouped(was, lines[index := Some(line)], Upsert(groups, ChunkOf(index), map[index := line], 0))
  {
    var c := ChunkOf(index);
    var next := Upsert(groups, c, map[index := line], 0);
    assert OwnSlots(Chunk(c, map[index := line], 0), |lines|);
    UpsertKeeps(groups, c, map[index := line], 0, |lines|);
    forall i | 0 <= i < |lines|
      ensures var held := Held(LinesOf(next, ChunkOf(i)), i);
              lines[index := Some(line)][i] == if held.Some? then held else was[i]
    {
      UpsertLines(groups, c, map[index := line], 0, ChunkOf(i));
    }
  }

  /** The chunks after the first g groups have been added, each with a newer clock. */
  function Merged(chunks: seq<Chunk>, groups: seq<Chunk>, clock: nat, g: nat): seq<Chunk>
    requires g <= |groups|
  {
    if g == 0 then chunks
    else Upsert(Merged(chunks, groups, clock, g - 1), groups[g - 1].index, groups[g - 1].lines, clock + g)
  }

  lemma {:induction false} MergedLines(chunks: seq<Chunk>, groups: seq<Chunk>, clock: nat, g: nat, n: nat, d: nat)
    requires g <= |groups| && OnePerIndex(groups) && OnePerIndex(chunks) && InPlace(groups, n) && InPlace(chunks, n)
    ensures LinesOf(Merged(chunks, groups, clock, g), d) == LinesOf(chunks, d) + LinesOf(groups[..g], d)
  {
    if g == 0 {
      assert LinesOf(chunks, d) + map[] == LinesOf(chunks, d);
    } else {
      MergedLines(chunks, groups, clock, g - 1, n, d);
      MergedKeeps(chunks, groups, clock, g - 1, n);
      UpsertLines(Merged(chunks, groups, clock, g - 1), groups[g - 1].index, groups[g - 1].lines, clock + g, d);
      assert groups[..g] == groups[..g - 1] + [groups[g - 1]];
      LinesOfAppended(groups[..g - 1], groups[g - 1], d);
      LinesOfNone(groups[..g - 1], groups[g - 1].index);
      assert LinesOf(chunks, d) + map[] == LinesOf(chunks, d);
    }
  }

  lemma {:induction false} MergedKeeps(chunks: seq<Chunk>, groups: seq<Chunk>, clock: nat, g: nat, n: nat)
    requires g <= |groups| && OnePerIndex(chunks) && InPlace(chunks, n) && InPlace(groups, n)
    ensures OnePerIndex(Merged(chunks, groups, clock, g)) && InPlace(Merged(chunks, groups, clock, g), n)
  {
    if g > 0 {
      MergedKeeps(chunks, groups, clock, g - 1, n);
      assert OwnSlots(groups[g - 1], n);
      UpsertKeeps(Merged(chunks, groups, clock, g - 1), groups[g - 1].index, groups[g - 1].lines, clock + g, n);
    }
  }

  /** Chunk c is one of the groups. */
  ghost predicate HasGroup(groups: seq<Chunk>, g: nat, c: nat)
    requires g <= |groups|
  {
    exists h :: 0 <= h < g && groups[h].index == c
  }

  /** Exactly the chunks that are merged into become more recently used than all others; the others
      stay as they are. */
  lemma {:induction false} MergedIsNewest(chunks: seq<Chunk>, groups: seq<Chunk>, clock: nat, g: nat, n: nat)
    requires g <= |groups| && OnePerIndex(chunks) && InPlace(chunks, n) && InPlace(groups, n)
    requires forall x :: x in chunks ==> x.access <= clock
    ensures forall x :: x in Merged(chunks, groups, clock, g) ==>
              (x.access > clock <==> HasGroup(groups, g, x.index)) && (x.access <= clock ==> x in chunks)
  {
    hide InPlace, Upsert, OnePerIndex, HasGroup;
    if g > 0 {
      MergedIsNewest(chunks, groups, clock, g - 1, n);
      MergedKeeps(chunks, groups, clock, g - 1, n);
      GroupAdded(groups, g);
      NewestUpsert(Merged(chunks, groups, clock, g - 1), groups[g - 1].index, groups[g - 1].lines, clock + g);
    } else {
      NoGroupYet(groups);
    }
  }

  lemma NoGroupYet(groups: seq<Chunk>)
    ensures forall c: nat :: !HasGroup(groups, 0, c)
  {
  }

  lemma GroupAdded(groups: seq<Chunk>, g: nat)
    requires 0 < g <= |groups|
    ensures forall c: nat :: HasGroup(groups, g, c) <==> HasGroup(groups, g - 1, c) || groups[g - 1].index == c
  {
  }

  lemma NewestUpsert(chunks: seq<Chunk>, c: nat, more: map<nat, Line>, access: nat)
    requires OnePerIndex(chunks)
    ensures forall x :: x in Upsert(chunks, c, more, access) ==>
              if x.index == c then x.access == access else x in chunks
  {
    hide Upsert;
    var k := UpsertForm(chunks, c, more, access);
  }

  /** Writing the slots and merging the groups keep slots and chunks together. */
  lemma MergeKeepsResident(was: seq<Option<Line>>, lines: seq<Option<Line>>, chunks: seq<Chunk>, groups: seq<Chunk>, clock: nat)
    requires Resident(was, chunks) && Grouped(was, lines, groups)
    ensures Resident(lines, Merged(chunks, groups, clock, |groups|))
  {
    var r := Merged(chunks, groups, clock, |groups|);
    MergedKeeps(chunks, groups, clock, |groups|, |lines|);
    assert groups[..|groups|] == groups;
    forall i | 0 <= i < |lines|
      ensures lines[i] == Held(LinesOf(r, ChunkOf(i)), i)
    {
      MergedLines(chunks, groups, clock, |groups|, |lines|, ChunkOf(i));
      assert was[i] == Held(LinesOf(chunks, ChunkOf(i)), i);
    }
  }

  // ---------------------------------------------------------------- evicting

  function Removed(chunks: seq<Chunk>, c: nat): seq<Chunk> {
    if chunks == [] then []
    else if chunks[0].index == c then chunks[1..]
    else [chunks[0]] + Removed(chunks[1..], c)
  }

  lemma {:induction false} RemovedForm(chunks: seq<Chunk>, k: nat)
    requires OnePerIndex(chunks) && k < |chunks|
    ensures Removed(chunks, chunks[k].index) == chunks[..k] + chunks[k + 1..]
    ensures Total(Removed(chunks, chunks[k].index), SIZE) == Total(chunks, SIZE) - |chunks[k].lines|
  {
    if k > 0 {
      RemovedForm(chunks[1..], k - 1);
      var rest := Removed(chunks[1..], chunks[k].index);
      assert ([chunks[0]] + rest)[1..] == rest;
      assert chunks[..k] == [chunks[0]] + chunks[1..][..k - 1];
    }
  }

  lemma {:induction false} LinesOfRemoved(chunks: seq<Chunk>, c: nat, d: nat)
    requires OnePerIndex(chunks)
    ensures LinesOf(Removed(chunks, c), d) == if d == c then map[] else LinesOf(chunks, d)
  {
    if chunks != [] {
      if chunks[0].index == c {
        LinesOfNone(chunks[1..], c);
      } else {
        LinesOfRemoved(chunks[1..], c, d);
        assert ([chunks[0]] + Removed(chunks[1..], c))[1..] == Removed(chunks[1..], c);
      }
    }
  }

  lemma RemovedKeepsResident(lines: seq<Option<Line>>, cleared: seq<Option<Line>>, chunks: seq<Chunk>, k: nat)
    requires Resident(lines, chunks) && k < |chunks| && |cleared| == |lines|
    requires forall i :: 0 <= i < |lines| ==> cleared[i] == if i in chunks[k].lines then None else lines[i]
    ensures Resident(cleared, Removed(chunks, chunks[k].index))
    ensures Total(Removed(chunks, chunks[k].index), SIZE) == Total(chunks, SIZE) - |chunks[k].lines|
  {
    RemovedForm(chunks, k);
    RemovedInPlace(chunks, k, |lines|);
    forall i | 0 <= i < |lines|
      ensures cleared[i] == Held(LinesOf(Removed(chunks, chunks[k].index), ChunkOf(i)), i)
    {
      LinesOfRemoved(chunks, chunks[k].index, ChunkOf(i));
      LinesOfChunk(chunks, k);
      hide Removed, LinesOf, Total;
      assert OwnSlots(chunks[k], |lines|);
      assert lines[i] == Held(LinesOf(chunks, ChunkOf(i)), i);
    }
  }

  lemma RemovedInPlace(chunks: seq<Chunk>, k: nat, n: nat)
    requires OnePerIndex(chunks) && InPlace(chunks, n) && k < |chunks|
    ensures OnePerIndex(chunks[..k] + chunks[k + 1..]) && InPlace(chunks[..k] + chunks[k + 1..], n)
  {
    var r := chunks[..k] + chunks[k + 1..];
    forall j | 0 <= j < |r|
      ensures r[j] == chunks[if j < k then j else j + 1] && OwnSlots(r[j], n)
    {
      assert OwnSlots(chunks[if j < k then j else j + 1], n);
    }
  }

  const BY_ACCESS := (a: Chunk, b: Chunk) => a.access <= b.access

  predicate Evictable(chunk: Chunk, kept: set<nat>, pinned: nat -> bool) {
    chunk.index !in kept && !pinned(chunk.index)
  }

  function Candidates(chunks: seq<Chunk>, kept: set<nat>, pinned: nat -> bool): seq<Chunk> {
    if chunks == [] then []
    else
      var last := chunks[|chunks| - 1];
      Candidates(chunks[..|chunks| - 1], kept, pinned) + (if Evictable(last, kept, pinned) then [last] else [])
  }

  lemma {:induction false} CandidateMembers(chunks: seq<Chunk>, kept: set<nat>, pinned: nat -> bool, x: Chunk)
    ensures x in Candidates(chunks, kept, pinned) <==> x in chunks && Evictable(x, kept, pinned)
    decreases |chunks|
  {
    if chunks != [] {
      CandidateMembers(chunks[..|chunks| - 1], kept, pinned, x);
      assert chunks == chunks[..|chunks| - 1] + [chunks[|chunks| - 1]];
    }
  }

  lemma {:induction false} CandidatesDistinct(chunks: seq<Chunk>, kept: set<nat>, pinned: nat -> bool)
    requires OnePerIndex(chunks)
    ensures Distinct(Candidates(chunks, kept, pinned))
    decreases |chunks|
  {
    if chunks != [] {
      var last := chunks[|chunks| - 1];
      CandidatesDistinct(chunks[..|chunks| - 1], kept, pinned);
      CandidateMembers(chunks[..|chunks| - 1], kept, pinned, last);
      assert last !in chunks[..|chunks| - 1];
    }
  }

  /** The queue of an eviction: the evictable chunks, least recently used first. */
  ghost predicate EvictionQueue(queue: seq<Chunk>, chunks: seq<Chunk>, kept: set<nat>, pinned: nat -> bool) {
    && SortedBy(queue, BY_ACCESS) && Distinct(queue)
    && forall x :: x in queue <==> x in chunks && Evictable(x, kept, pinned)
  }

  lemma QueueOf(chunks: seq<Chunk>, kept: set<nat>, pinned: nat -> bool)
    requires OnePerIndex(chunks)
    ensures EvictionQueue(SortBy(Candidates(chunks, kept, pinned), BY_ACCESS), chunks, kept, pinned)
  {
    var candidates := Candidates(chunks, kept, pinned);
    CandidatesDistinct(chunks, kept, pinned);
    SortByIsSorted(candidates, BY_ACCESS);
    SortKeepsDistinct(candidates, BY_ACCESS);
    SortByMembers(candidates, BY_ACCESS);
    forall x
      ensures x in SortBy(candidates, BY_ACCESS) <==> x in chunks && Evictable(x, kept, pinned)
    {
      CandidateMembers(chunks, kept, pinned, x);
    }
  }

  /** The chunks left when the queue is worked off until the region is within its budget. */
  function EvictAll(chunks: seq<Chunk>, queue: seq<Chunk>, total: int): seq<Chunk>
    decreases |queue|
  {
    if queue == [] || total <= MAX_VIRTUAL_CACHED_LINES then chunks
    else EvictAll(Removed(chunks, queue[0].index), queue[1..], total - |queue[0].lines|)
  }

  lemma EvictAllStep(chunks: seq<Chunk>, queue: seq<Chunk>, k: nat, total: int)
    requires k <= |queue|
    ensures EvictAll(chunks, queue[k..], total)
         == if k == |queue| || total <= MAX_VIRTUAL_CACHED_LINES then chunks
            else EvictAll(Removed(chunks, queue[k].index), queue[k + 1..], total - |queue[k].lines|)
  {
    if k < |queue| {
      assert queue[k..][1..] == queue[k + 1..];
    }
  }

  function Evicted(chunks: seq<Chunk>, kept: set<nat>, pinned: nat -> bool): seq<Chunk> {
    EvictAll(chunks, SortBy(Candidates(chunks, kept, pinned), BY_ACCESS), Total(chunks, SIZE))
  }

  /** Only chunks that may be evicted are gone, and each of them whole. */
  ghost predicate OnlyEvictableGone(before: seq<Chunk>, after: seq<Chunk>, kept: set<nat>, pinned: nat -> bool) {
    forall c: nat :: LinesOf(after, c) == LinesOf(before, c) || (LinesOf(after, c) == map[] && c !in kept && !pinned(c))
  }

  ghost predicate OnlyKept(chunks: seq<Chunk>, kept: set<nat>, pinned: nat -> bool) {
    forall k :: 0 <= k < |chunks| ==> chunks[k].index in kept || pinned(chunks[k].index)
  }

  /** Nothing was evicted while something older, evictable, was left. */
  ghost predicate OldestGone(before: seq<Chunk>, after: seq<Chunk>, kept: set<nat>, pinned: nat -> bool) {
    forall x, y :: x in before && x !in after && y in after && Evictable(y, kept, pinned) ==> x.access <= y.access
  }

  /** Something was evicted only while the region was over its budget. */
  ghost predicate NoneTooMany(before: seq<Chunk>, after: seq<Chunk>, count: nat) {
    after == before || exists x :: x in before && x !in after && count + |x.lines| > MAX_VIRTUAL_CACHED_LINES
  }

  ghost predicate Numbered(lines: seq<Option<Line>>, startLine: int) {
    forall i :: 0 <= i < |lines| && lines[i].Some? ==> lines[i].value.no == startLine + i
  }

  // ---------------------------------------------------------------- pinning

  /** A review panel, filed under its block's first line; the block may reach further down. */
  datatype Panel = Panel(startLine: int, endLine: int, expanded: bool, isDirty: bool)

  /** All panels of the file, and the first lines whose input has not been saved. */
  datatype Panels = Panels(states: seq<Panel>, dirtyStarts: set<int>) {
    predicate Active(k: nat)
      requires k < |states|
    {
      states[k].startLine in dirtyStarts || states[k].expanded || states[k].isDirty
    }

    /** The k-th panel is active and starts in the region, in chunk c. */
    predicate Pins(k: nat, startLine: int, n: nat, c: nat)
      requires k < |states|
    {
      Active(k) && startLine <= states[k].startLine < startLine + n && ChunkOf(states[k].startLine - startLine) == c
    }
  }

  /** Exactly the chunks that hold the first line of an active panel of the region are pinned. */
  predicate Pinned(panels: Panels, startLine: int, n: nat, c: nat) {
    exists k :: 0 <= k < |panels.states| && panels.Pins(k, startLine, n, c)
  }

  /** Which chunks the review panels pin. */
  function PinsOf(panels: Panels, startLine: int, n: nat): nat -> bool {
    (c: nat) => Pinned(panels, startLine, n, c)
  }

  /** _hasPinnedReviewPanel: the first panel that is active and starts between the chunk's lines. */
  method HasPinnedReviewPanel(panels: Panels, startLine: int, n: nat, chunkIndex: nat) returns (pinned: bool)
    ensures pinned <==> Pinned(panels, startLine, n, chunkIndex)
  {
    var chunkStart := startLine + chunkIndex * NETWORK_CHUNK_LINES;
    var endLine := startLine + n - 1;
    var chunkEnd := if endLine < chunkStart + NETWORK_CHUNK_LINES - 1 then endLine else chunkStart + NETWORK_CHUNK_LINES - 1;
    for k := 0 to |panels.states|
      invariant forall j :: 0 <= j < k ==> !panels.Pins(j, startLine, n, chunkIndex)
    {
      var panel := panels.states[k];
      if panel.startLine < chunkStart || panel.startLine > chunkEnd {
        continue;
      }
      if panel.startLine in panels.dirtyStarts || panel.expanded || panel.isDirty {
        assert panels.Pins(k, startLine, n, chunkIndex);
        return true;
      }
    }
    pinned := false;
  }

  /** A block that reaches into the next chunk does not pin that one. */
  lemma ReachDoesNotPin(startLine: int, n: nat, c: nat, panel: Panel)
    requires panel.expanded && startLine <= panel.startLine <= panel.endLine < startLine + n
    requires ChunkOf(panel.startLine - startLine) == c && ChunkOf(panel.endLine - startLine) == c + 1
    ensures var panels := Panels([panel], {});
      Pinned(panels, startLine, n, c) && !Pinned(panels, startLine, n, c + 1)
  {
    assert Panels([panel], {}).Pins(0, startLine, n, c);
  }

  /** The first line of an active panel keeps its slot and its whole chunk. */
  lemma PanelLinesStay(before: seq<Option<Line>>, chunksBefore: seq<Chunk>, lines: seq<Option<Line>>, chunks: seq<Chunk>,
                       kept: set<nat>, panels: Panels, startLine: int, n: nat)
    requires Resident(before, chunksBefore) && Resident(lines, chunks) && |lines| == |before| && |lines| <= n
    requires OnlyEvictableGone(chunksBefore, chunks, kept, PinsOf(panels, startLine, n))
    ensures PanelsShown(before, chunksBefore, lines, chunks, panels, startLine)
  {
    forall k | 0 <= k < |panels.states| && panels.Active(k)
               && startLine <= panels.states[k].startLine < startLine + |lines|
      ensures var i := panels.states[k].startLine - startLine;
        LinesOf(chunks, ChunkOf(i)) == LinesOf(chunksBefore, ChunkOf(i)) && lines[i] == before[i]
    {
      var i := panels.states[k].startLine - startLine;
      assert panels.Pins(k, startLine, n, ChunkOf(i));
      assert lines[i] == Held(LinesOf(chunks, ChunkOf(i)), i) && before[i] == Held(LinesOf(chunksBefore, ChunkOf(i)), i);
    }
  }

  /** Every open or unsaved panel of the region keeps its first line, and that line's whole chunk. */
  ghost predicate PanelsShown(before: seq<Option<Line>>, chunksBefore: seq<Chunk>, lines: seq<Option<Line>>,
                              chunks: seq<Chunk>, panels: Panels, startLine: int)
    requires |lines| == |before|
  {
    forall k {:trigger panels.Active(k)} ::
      (0 <= k < |panels.states| && panels.Active(k) && startLine <= panels.states[k].startLine < startLine + |lines|) ==>
      var i := panels.states[k].startLine - startLine;
      LinesOf(chunks, ChunkOf(i)) == LinesOf(chunksBefore, ChunkOf(i)) && lines[i] == before[i]
  }

  // ---------------------------------------------------------------- the region

  class Region {
    const startLine: int
    const lineCount: nat
    var lines: seq<Option<Line>>
    var chunks: seq<Chunk>
    var loadedLineCount: nat
    var clock: nat
    var kept: set<nat>

    ghost predicate Counted()
      reads this
    {
      Resident(lines, chunks) && Numbered(lines, startLine) && loadedLineCount == Total(lines, FILLED)
    }

    ghost predicate Valid()
      reads this
    {
      Counted() && (|lines| == lineCount || (lines == [] && chunks == []))
    }

    /** Which chunks the review panels pin. */
    function PinnedBy(panels: Panels): nat -> bool {
      PinsOf(panels, startLine, lineCount)
    }

    constructor (startLine: int, lineCount: nat)
      ensures Valid() && this.startLine == startLine && this.lineCount == lineCount
      ensures lines == [] && chunks == [] && kept == {}
    {
      this.startLine, this.lineCount := startLine, lineCount;
      lines, chunks, loadedLineCount, clock, kept := [], [], 0, 0, {};
    }

    /** The first half of mergeLoadedLines: the slots are written and the lines are grouped. */
    method WriteLines(input: seq<Line>) returns (groups: seq<Chunk>)
      requires Numbered(lines, startLine) && loadedLineCount == Total(lines, FILLED)
      modifies this`lines, this`loadedLineCount
      ensures Grouped(old(lines), lines, groups) && (lines == [] ==> groups == [])
      ensures lines == Written(old(lines), input, startLine) && groups == GroupsOf(input, startLine, |lines|)
      ensures Numbered(lines, startLine) && loadedLineCount == Total(lines, FILLED)
    {
      hide Upsert, Total, LinesOf, OnePerIndex, InPlace, Written, GroupsOf, ChunkOf;
      ResponseOfNone(lines, startLine);
      groups := [];
      for i := 0 to |input|
        invariant Grouped(old(lines), lines, groups) && (lines == [] ==> groups == [])
        invariant lines == Written(old(lines), input[..i], startLine) && groups == GroupsOf(input[..i], startLine, |lines|)
        invariant Numbered(lines, startLine) && loadedLineCount == Total(lines, FILLED)
      {
        ResponseStep(old(lines), input, startLine, i);
        var index := input[i].no - startLine;
        if 0 <= index < |lines| {
          GroupedStep(old(lines), lines, groups, index, input[i]);
          TotalUpdated(lines, index, Some(input[i]), FILLED);
          groups := Upsert(groups, ChunkOf(index), map[index := input[i]], 0);
          if lines[index].None? {
            loadedLineCount := loadedLineCount + 1;
          }
          lines := lines[index := Some(input[i])];
        }
      }
      assert input[..|input|] == input;
    }

    /** The second half: the groups join their chunks, which become the most recently used. */
    method MergeGroups(groups: seq<Chunk>)
      modifies this`chunks, this`clock
      ensures chunks == Merged(old(chunks), groups, old(clock), |groups|) && clock == old(clock) + |groups|
    {
      for g := 0 to |groups|
        invariant chunks == Merged(old(chunks), groups, old(clock), g) && clock == old(clock) + g
      {
        clock := clock + 1;
        chunks := Upsert(chunks, groups[g].index, groups[g].lines, clock);
      }
    }

    /** Empties the slots of one chunk that still show its lines. */
    method ClearSlots(held: map<nat, Line>)
      requires Numbered(lines, startLine) && loadedLineCount == Total(lines, FILLED)
      requires forall i: nat :: i in held ==> i < |lines| && lines[i] == Some(held[i])
      modifies this`lines, this`loadedLineCount
      ensures |lines| == |old(lines)|
      ensures forall i :: 0 <= i < |lines| ==> lines[i] == if i in held then None else old(lines)[i]
      ensures Numbered(lines, startLine) && loadedLineCount == Total(lines, FILLED)
    {
      var todo := held.Keys;
      while todo != {}
        invariant todo <= held.Keys && |lines| == |old(lines)|
        invariant forall i :: 0 <= i < |lines| ==> lines[i] == if i in held && i !in todo then None else old(lines)[i]
        invariant Numbered(lines, startLine) && loadedLineCount == Total(lines, FILLED)
        decreases |todo|
      {
        var index: nat :| index in todo;
        if lines[index] == Some(held[index]) {
          TotalUpdated(lines, index, None, FILLED);
          lines := lines[index := None];
          loadedLineCount := Caching.MaxZero(loadedLineCount - 1);
        }
        todo := todo - {index};
      }
    }

    method DropChunk(chunk: Chunk)
      requires Counted() && chunk in chunks
      modifies this`lines, this`loadedLineCount, this`chunks
      ensures Counted() && |lines| == |old(lines)|
      ensures chunks == Removed(old(chunks), chunk.index)
      ensures forall x :: x in chunks <==> x in old(chunks) && x != chunk
      ensures forall c: nat :: LinesOf(chunks, c) == if c == chunk.index then map[] else LinesOf(old(chunks), c)
      ensures Total(chunks, SIZE) == Total(old(chunks), SIZE) - |chunk.lines|
    {
      ghost var k: nat :| k < |chunks| && chunks[k] == chunk;
      ChunkIsShown(lines, chunks, k);
      DroppedFacts(chunks, k, |lines|);
      hide Resident, Total, LinesOf, Removed;
      ClearSlots(chunk.lines);
      RemovedKeepsResident(old(lines), lines, chunks, k);
      chunks := Removed(chunks, chunk.index);
    }

    /** evictVirtualChunks: least recently used first, until the region is within its budget. */
    method EvictVirtualChunks(panels: Panels)
      requires Valid()
      modifies this`lines, this`loadedLineCount, this`chunks
      ensures Valid() && |lines| == |old(lines)|
      ensures chunks == Evicted(old(chunks), kept, PinnedBy(panels))
      ensures OnlyEvictableGone(old(chunks), chunks, kept, PinnedBy(panels))
      ensures forall x :: x in chunks ==> x in old(chunks)
      ensures loadedLineCount <= MAX_VIRTUAL_CACHED_LINES || OnlyKept(chunks, kept, PinnedBy(panels))
      ensures OldestGone(old(chunks), chunks, kept, PinnedBy(panels))
      ensures NoneTooMany(old(chunks), chunks, loadedLineCount)
      ensures PanelsShown(old(lines), old(chunks), lines, chunks, panels, startLine)
      ensures old(loadedLineCount) <= MAX_VIRTUAL_CACHED_LINES ==> chunks == old(chunks) && lines == old(lines)
    {
      var resident, candidates := CollectCandidates(panels);
      SizesAgree(lines, chunks);
      QueueOf(chunks, kept, PinnedBy(panels));
      EvictQueue(SortBy(candidates, BY_ACCESS), resident, panels);
      PanelLinesStay(old(lines), old(chunks), lines, chunks, kept, panels, startLine, lineCount);
    }

    method CollectCandidates(panels: Panels) returns (resident: nat, candidates: seq<Chunk>)
      ensures resident == Total(chunks, SIZE) && candidates == Candidates(chunks, kept, PinnedBy(panels))
    {
      resident, candidates := 0, [];
      for k := 0 to |chunks|
        invariant resident == Total(chunks[..k], SIZE) && candidates == Candidates(chunks[..k], kept, PinnedBy(panels))
      {
        assert chunks[..k + 1] == chunks[..k] + [chunks[k]] && chunks[..k + 1][..k] == chunks[..k];
        TotalAppended(chunks[..k], chunks[k], SIZE);
        resident := resident + |chunks[k].lines|;
        var pinned := HasPinnedReviewPanel(panels, startLine, lineCount, chunks[k].index);
        if chunks[k].index !in kept && !pinned {
          candidates := candidates + [chunks[k]];
        }
      }
      assert chunks[..|chunks|] == chunks;
    }

    method EvictQueue(queue: seq<Chunk>, total: nat, panels: Panels)
      requires Valid() && total == Total(chunks, SIZE) && EvictionQueue(queue, chunks, kept, PinnedBy(panels))
      modifies this`lines, this`loadedLineCount, this`chunks
      ensures Valid() && |lines| == |old(lines)|
      ensures chunks == EvictAll(old(chunks), queue, total)
      ensures OnlyEvictableGone(old(chunks), chunks, kept, PinnedBy(panels))
      ensures forall x :: x in chunks ==> x in old(chunks)
      ensures loadedLineCount <= MAX_VIRTUAL_CACHED_LINES || OnlyKept(chunks, kept, PinnedBy(panels))
      ensures OldestGone(old(chunks), chunks, kept, PinnedBy(panels))
      ensures NoneTooMany(old(chunks), chunks, loadedLineCount)
      ensures total <= MAX_VIRTUAL_CACHED_LINES ==> chunks == old(chunks) && lines == old(lines)
    {
      hide Resident, Total, LinesOf, Removed, SortedBy, Distinct, Numbered, EvictAll, Pinned;
      var resident: int := total;
      var k := 0;
      assert queue[0..] == queue;
      while k < |queue| && resident > MAX_VIRTUAL_CACHED_LINES
        invariant k <= |queue| && Counted() && |lines| == |old(lines)| && resident == Total(chunks, SIZE)
        invariant forall x :: x in chunks <==> x in old(chunks) && x !in queue[..k]
        invariant EvictAll(old(chunks), queue, total) == EvictAll(chunks, queue[k..], resident)
        invariant OnlyEvictableGone(old(chunks), chunks, kept, PinnedBy(panels))
        invariant k == 0 ==> chunks == old(chunks) && lines == old(lines)
        invariant k > 0 ==> total > MAX_VIRTUAL_CACHED_LINES
        invariant k > 0 ==> queue[k - 1] in old(chunks) && queue[k - 1] !in chunks
                            && resident + |queue[k - 1].lines| > MAX_VIRTUAL_CACHED_LINES
      {
        QueueHead(queue, k);
        EvictAllStep(chunks, queue, k, resident);
        assert queue[k] in queue;
        assert Evictable(queue[k], kept, PinnedBy(panels));
        DropChunk(queue[k]);
        resident := resident - |queue[k].lines|;
        k := k + 1;
      }
      EvictAllStep(chunks, queue, k, resident);
      SizesAgree(lines, chunks);
      QueueEnd(queue, k, old(chunks), chunks, kept, PinnedBy(panels));
      assert old(chunks) == [] ==> chunks == [] by {
        assert chunks != [] ==> chunks[0] in chunks;
      }
    }

    /** mergeLoadedLines: the response is written and grouped, then the region is brought back
        within its budget; what was written stays unless its chunk could be and was evicted. */
    method MergeLoadedLines(input: seq<Line>, panels: Panels)
      requires Valid()
      modifies this`lines, this`loadedLineCount, this`chunks, this`clock
      ensures Valid() && |lines| == lineCount
      ensures var written := Written(Sized(old(lines), lineCount), input, startLine);
        forall i :: 0 <= i < |lines| ==>
          lines[i] == written[i] || (lines[i].None? && ChunkOf(i) !in kept && !PinnedBy(panels)(ChunkOf(i)))
      ensures loadedLineCount <= MAX_VIRTUAL_CACHED_LINES || OnlyKept(chunks, kept, PinnedBy(panels))
      ensures var groups := GroupsOf(input, startLine, lineCount);
        && chunks == Evicted(Merged(old(chunks), groups, old(clock), |groups|), kept, PinnedBy(panels))
        && clock == old(clock) + |groups|
    {
      if |lines| != lineCount {
        BlankIsResident(lineCount);
        lines := Sized(lines, lineCount);
      }
      ghost var was := lines;
      assert was == Sized(old(lines), lineCount);
      hide Resident, Total, LinesOf, Merged, Written, Numbered, Sized, OldestGone;
      var groups := WriteLines(input);
      MergeKeepsResident(was, lines, chunks, groups, clock);
      ghost var written := lines;
      MergeGroups(groups);
      MergedNone(old(chunks), groups, old(clock));
      ghost var merged := chunks;
      EvictVirtualChunks(panels);
      SlotsAfterEviction(written, merged, lines, chunks, kept, PinnedBy(panels));
    }

    /** protectVirtualWindow: the physical chunks of a window, at least one. */
    method ProtectVirtualWindow(startIndex: int, endIndex: int)
      modifies this`kept
      ensures forall c: nat :: c in kept <==> ChunkOf(FirstRow(startIndex)) <= c <= ChunkOf(LastRow(startIndex, endIndex))
    {
      var first, last := ChunkOf(FirstRow(startIndex)), ChunkOf(LastRow(startIndex, endIndex));
      ChunksInOrder(FirstRow(startIndex), LastRow(startIndex, endIndex));
      kept := {};
      for index := first to last + 1
        invariant forall c: nat :: c in kept <==> first <= c < index
      {
        kept := kept + {index};
      }
    }

    /** The stretches of a window whose slots are empty. */
    method MissingRanges(start: nat, end: nat) returns (missing: seq<(nat, nat)>)
      ensures forall r :: 0 <= r < |missing| ==> start <= missing[r].0 < missing[r].1 <= end
      ensures forall i: nat :: InSome(missing, i) <==> start <= i < end && At(lines, i).None?
    {
      missing := [];
      var missingStart := -1;
      var index := start;
      while index < end
        invariant start <= index && (start <= end ==> index <= end) && (start > end ==> index == start)
        invariant missingStart == -1 || start <= missingStart < index
        invariant forall r :: 0 <= r < |missing| ==> start <= missing[r].0 < missing[r].1 <= end
        invariant forall i: nat :: start <= i < index && At(lines, i).None? <==>
                    InSome(missing, i) || (missingStart >= 0 && missingStart <= i < index)
      {
        if At(lines, index).None? {
          if missingStart < 0 {
            missingStart := index;
          }
        } else if missingStart >= 0 {
          RangeAdded(missing, missingStart, index);
          missing := missing + [(missingStart, index)];
          missingStart := -1;
        }
        index := index + 1;
      }
      if missingStart >= 0 {
        RangeAdded(missing, missingStart, end);
        missing := missing + [(missingStart, end)];
      }
    }

    /** The physical chunks that have to be requested. */
    method PhysicalRequests(missing: seq<(nat, nat)>, start: nat, end: nat) returns (requests: set<nat>)
      requires forall r :: 0 <= r < |missing| ==> start <= missing[r].0 < missing[r].1 <= end
      ensures forall c :: c in requests <==> Touches(missing, c)
      ensures forall i: nat :: InSome(missing, i) ==> ChunkOf(i) in requests
      ensures forall c :: c in requests ==> ChunkOf(start) <= c && (end > 0 ==> c <= ChunkOf(end - 1))
    {
      requests := {};
      for r := 0 to |missing|
        invariant forall c :: c in requests <==> Touches(missing[..r], c)
        invariant forall c :: c in requests ==> ChunkOf(start) <= c && (end > 0 ==> c <= ChunkOf(end - 1))
      {
        var firstChunk, lastChunk := ChunkOf(missing[r].0), ChunkOf(missing[r].1 - 1);
        ChunksInOrder(start, missing[r].0);
        ChunksInOrder(missing[r].0, missing[r].1 - 1);
        ChunksInOrder(missing[r].1 - 1, end - 1);
        ghost var before := requests;
        for chunk := firstChunk to lastChunk + 1
          invariant forall c: nat :: c in requests <==> c in before || firstChunk <= c < chunk
          invariant forall c :: c in requests ==> ChunkOf(start) <= c && (end > 0 ==> c <= ChunkOf(end - 1))
        {
          requests := requests + {chunk};
        }
        RangeChunks(missing, r, before, requests);
      }
      assert missing[..|missing|] == missing;
    }

    /** ensureVirtualWindow, no other request in between: the requests are answered in any order,
        each answer is merged, and the evictions this causes never take a line of the window again. */
    method EnsureVirtualWindow(startIndex: int, endIndex: int, panels: Panels, fetch: (int, int) -> seq<Line>)
      returns (ghost asked: seq<nat>)
      requires Valid()
      modifies this`lines, this`loadedLineCount, this`chunks, this`clock, this`kept
      ensures Valid()
      ensures Complete(fetch) ==> Filled(lines, startIndex, endIndex, lineCount)
      ensures KeepsFilled(old(lines), lines, startIndex, endIndex, lineCount)
      ensures forall i: nat :: FirstRow(startIndex) <= i < lineCount && i < endIndex ==> ChunkOf(i) in kept
      ensures Distinct(asked) && forall c :: c in asked <==> Misses(old(lines), startIndex, endIndex, lineCount, c)
      ensures asked == [] ==> lines == old(lines) && chunks == old(chunks) && clock == old(clock)
    {
      var start := FirstRow(startIndex);
      var end := if lineCount < endIndex then lineCount else if endIndex < 0 then 0 else endIndex;
      ProtectVirtualWindow(start, end);
      var missing := MissingRanges(start, end);
      var requests := PhysicalRequests(missing, start, end);
      WindowIsKept(start, end, kept);
      assert forall i: nat :: start <= i < end && At(lines, i).None? ==> ChunkOf(i) in requests;
      asked := FetchRequests(start, end, requests, panels, fetch);
    }

    /** `asked` lists the chunks in the order in which they are fetched. */
    method FetchRequests(start: nat, end: nat, requests: set<nat>, panels: Panels, fetch: (int, int) -> seq<Line>)
      returns (ghost asked: seq<nat>)
      requires Valid() && end <= lineCount
      requires forall i: nat :: start <= i < end ==> ChunkOf(i) in kept
      requires forall i: nat :: start <= i < end && At(lines, i).None? ==> ChunkOf(i) in requests
      modifies this`lines, this`loadedLineCount, this`chunks, this`clock
      ensures Valid()
      ensures Complete(fetch) ==> forall i: nat :: start <= i < end ==> At(lines, i).Some?
      ensures forall i: nat :: start <= i < end && At(old(lines), i).Some? ==> At(lines, i).Some?
      ensures Distinct(asked) && forall c :: c in asked <==> c in requests
      ensures asked == [] ==> lines == old(lines) && chunks == old(chunks) && clock == old(clock)
    {
      hide Valid, Complete, ChunkOf, At;
      var todo := requests;
      asked := [];
      while todo != {}
        invariant Valid()
        invariant Complete(fetch) ==> forall i: nat :: start <= i < end && At(lines, i).None? ==> ChunkOf(i) in todo
        invariant forall i: nat :: start <= i < end && At(old(lines), i).Some? ==> At(lines, i).Some?
        invariant Distinct(asked) && todo <= requests && forall c :: c in asked <==> c in requests && c !in todo
        invariant asked == [] ==> lines == old(lines) && chunks == old(chunks) && clock == old(clock)
        decreases |todo|
      {
        var chunk :| chunk in todo;
        FetchChunk(chunk, panels, fetch);
        asked := asked + [chunk];
        todo := todo - {chunk};
      }
    }

    /** fetchVirtualRange of one physical chunk. */
    method FetchChunk(chunk: nat, panels: Panels, fetch: (int, int) -> seq<Line>)
      requires Valid()
      modifies this`lines, this`loadedLineCount, this`chunks, this`clock
      ensures Valid()
      ensures forall i: nat :: ChunkOf(i) in kept && At(old(lines), i).Some? ==> At(lines, i).Some?
      ensures Complete(fetch) ==> forall i: nat :: ChunkOf(i) in kept && ChunkOf(i) == chunk && i < lineCount ==> At(lines, i).Some?
    {
      var physicalStart := chunk * NETWORK_CHUNK_LINES;
      var physicalEnd := if lineCount < physicalStart + NETWORK_CHUNK_LINES then lineCount else physicalStart + NETWORK_CHUNK_LINES;
      var first := startLine + physicalStart;
      var last := startLine + physicalEnd - 1;
      if last < first {
        ChunkBeyond(chunk, lineCount);
        return;
      }
      var response := fetch(first, last);
      ResponseFills(Sized(lines, lineCount), response, startLine, chunk, fetch);
      SizedKeeps(lines, lineCount);
      hide Resident, Total, LinesOf, Written, Numbered, ChunkOf, Sized;
      MergeLoadedLines(response, panels);
    }
  }

  lemma ChunkIsShown(lines: seq<Option<Line>>, chunks: seq<Chunk>, k: nat)
    requires Resident(lines, chunks) && k < |chunks|
    ensures OnePerIndex(chunks) && InPlace(chunks, |lines|)
    ensures forall i: nat :: i in chunks[k].lines ==> i < |lines| && lines[i] == Some(chunks[k].lines[i])
  {
    LinesOfChunk(chunks, k);
    assert OwnSlots(chunks[k], |lines|);
  }

  lemma DroppedFacts(chunks: seq<Chunk>, k: nat, n: nat)
    requires OnePerIndex(chunks) && InPlace(chunks, n) && k < |chunks|
    ensures var r := Removed(chunks, chunks[k].index);
      && (forall x :: x in r <==> x in chunks && x != chunks[k])
      && (forall c: nat :: LinesOf(r, c) == if c == chunks[k].index then map[] else LinesOf(chunks, c))
  {
    forall c: nat
      ensures LinesOf(Removed(chunks, chunks[k].index), c) == if c == chunks[k].index then map[] else LinesOf(chunks, c)
    {
      LinesOfRemoved(chunks, chunks[k].index, c);
    }
    RemovedForm(chunks, k);
    RemovedMembers(chunks, k);
  }

  lemma RemovedMembers(chunks: seq<Chunk>, k: nat)
    requires OnePerIndex(chunks) && k < |chunks|
    ensures forall x :: x in chunks[..k] + chunks[k + 1..] <==> x in chunks && x != chunks[k]
  {
    var r := chunks[..k] + chunks[k + 1..];
    forall x
      ensures x in r <==> x in chunks && x != chunks[k]
    {
      assert chunks == chunks[..k] + [chunks[k]] + chunks[k + 1..];
      assert chunks[k] !in chunks[..k] && chunks[k] !in chunks[k + 1..];
    }
  }

  lemma QueueHead(queue: seq<Chunk>, k: nat)
    requires Distinct(queue) && k < |queue|
    ensures queue[k] !in queue[..k]
    ensures forall x :: x in queue[..k + 1] <==> x in queue[..k] || x == queue[k]
  {
    assert queue[..k + 1] == queue[..k] + [queue[k]];
  }

  /** What is left of an eviction that stopped after the first k chunks of its queue. */
  lemma QueueEnd(queue: seq<Chunk>, k: nat, before: seq<Chunk>, after: seq<Chunk>, kept: set<nat>, pinned: nat -> bool)
    requires EvictionQueue(queue, before, kept, pinned) && k <= |queue|
    requires forall x :: x in after <==> x in before && x !in queue[..k]
    ensures OldestGone(before, after, kept, pinned)
    ensures k == |queue| ==> OnlyKept(after, kept, pinned)
  {
    assert queue[..|queue|] == queue;
    forall x, y | x in before && x !in after && y in after && Evictable(y, kept, pinned)
      ensures x.access <= y.access
    {
      assert x in queue[..k] && y in queue && y !in queue[..k];
      var i :| 0 <= i < k && queue[i] == x;
      assert queue == queue[..k] + queue[k..];
      var j :| 0 <= j < |queue[k..]| && queue[k..][j] == y;
      assert BY_ACCESS(queue[i], queue[k + j]);
    }
    forall j | 0 <= j < |after| && k == |queue|
      ensures after[j].index in kept || pinned(after[j].index)
    {
      assert after[j] in after;
    }
  }

  /** The slots of a region that has never been merged into are made now. */
  function Sized(lines: seq<Option<Line>>, n: nat): (r: seq<Option<Line>>)
    ensures |r| == n
  {
    if |lines| == n then lines else seq(n, i => None)
  }

  lemma BlankIsResident(n: nat)
    ensures Resident(Sized([], n), []) && Total(Sized([], n), FILLED) == 0
    ensures forall startLine :: Numbered(Sized([], n), startLine)
  {
    TotalOfNone(Sized([], n), FILLED);
  }

  lemma MergedNone(chunks: seq<Chunk>, groups: seq<Chunk>, clock: nat)
    ensures groups == [] ==> Merged(chunks, groups, clock, |groups|) == chunks
  {
  }

  lemma SlotsAfterEviction(before: seq<Option<Line>>, chunksBefore: seq<Chunk>, lines: seq<Option<Line>>, chunks: seq<Chunk>,
                           kept: set<nat>, pinned: nat -> bool)
    requires Resident(before, chunksBefore) && Resident(lines, chunks) && |lines| == |before|
    requires OnlyEvictableGone(chunksBefore, chunks, kept, pinned)
    ensures forall i :: 0 <= i < |lines| ==>
              lines[i] == before[i] || (lines[i].None? && ChunkOf(i) !in kept && !pinned(ChunkOf(i)))
  {
    forall i | 0 <= i < |lines|
      ensures lines[i] == before[i] || (lines[i].None? && ChunkOf(i) !in kept && !pinned(ChunkOf(i)))
    {
      assert lines[i] == Held(LinesOf(chunks, ChunkOf(i)), i) && before[i] == Held(LinesOf(chunksBefore, ChunkOf(i)), i);
    }
  }

  // ---------------------------------------------------------------- windows

  function FirstRow(startIndex: int): nat {
    if startIndex < 0 then 0 else startIndex
  }

  function LastRow(startIndex: int, endIndex: int): nat {
    var start := FirstRow(startIndex);
    if endIndex - 1 > start then endIndex - 1 else start
  }

  /** Every slot of the window is filled. */
  ghost predicate Filled(lines: seq<Option<Line>>, startIndex: int, endIndex: int, n: nat) {
    forall i: nat :: FirstRow(startIndex) <= i < n && i < endIndex ==> At(lines, i).Some?
  }

  /** The window has an empty row in chunk c. */
  ghost predicate Misses(lines: seq<Option<Line>>, startIndex: int, endIndex: int, n: nat, c: nat) {
    exists i: nat :: FirstRow(startIndex) <= i < n && i < endIndex && At(lines, i).None? && ChunkOf(i) == c
  }

  ghost predicate KeepsFilled(before: seq<Option<Line>>, lines: seq<Option<Line>>, startIndex: int, endIndex: int, n: nat) {
    forall i: nat :: FirstRow(startIndex) <= i < n && i < endIndex && At(before, i).Some? ==> At(lines, i).Some?
  }

  predicate InSome(ranges: seq<(nat, nat)>, i: nat) {
    exists r :: 0 <= r < |ranges| && ranges[r].0 <= i < ranges[r].1
  }

  lemma RangeAdded(ranges: seq<(nat, nat)>, first: nat, end: nat)
    ensures forall i: nat :: InSome(ranges + [(first, end)], i) <==> InSome(ranges, i) || first <= i < end
  {
    var more := ranges + [(first, end)];
    assert more[|ranges|] == (first, end);
    forall i: nat
      ensures InSome(more, i) <==> InSome(ranges, i) || first <= i < end
    {
      if InSome(ranges, i) {
        var r :| 0 <= r < |ranges| && ranges[r].0 <= i < ranges[r].1;
        assert more[r].0 <= i < more[r].1;
      }
    }
  }

  lemma ChunksInOrder(i: int, j: int)
    requires 0 <= i <= j
    ensures ChunkOf(i) <= ChunkOf(j)
  {
  }

  /** Some row of the ranges lies in chunk c. */
  ghost predicate Touches(ranges: seq<(nat, nat)>, c: nat) {
    exists i: nat :: InSome(ranges, i) && ChunkOf(i) == c
  }

  lemma RangeChunks(missing: seq<(nat, nat)>, r: nat, before: set<nat>, requests: set<nat>)
    requires r < |missing| && missing[r].0 < missing[r].1
    requires forall c :: c in before <==> Touches(missing[..r], c)
    requires forall c: nat :: c in requests <==> c in before || ChunkOf(missing[r].0) <= c <= ChunkOf(missing[r].1 - 1)
    ensures forall c :: c in requests <==> Touches(missing[..r + 1], c)
  {
    assert missing[..r + 1] == missing[..r] + [(missing[r].0, missing[r].1)];
    RangeAdded(missing[..r], missing[r].0, missing[r].1);
    hide InSome, ChunkOf;
    forall c: nat
      ensures Touches(missing[..r + 1], c) <==>
              Touches(missing[..r], c) || ChunkOf(missing[r].0) <= c <= ChunkOf(missing[r].1 - 1)
    {
      RangeTouches(missing[r].0, missing[r].1, c);
      if Touches(missing[..r], c) {
        var i: nat :| InSome(missing[..r], i) && ChunkOf(i) == c;
        assert InSome(missing[..r + 1], i);
      }
      if ChunkOf(missing[r].0) <= c <= ChunkOf(missing[r].1 - 1) {
        var i: nat :| missing[r].0 <= i < missing[r].1 && ChunkOf(i) == c;
        assert InSome(missing[..r + 1], i);
      }
    }
  }

  lemma RangeTouches(first: nat, end: nat, c: nat)
    requires first < end
    ensures ChunkOf(first) <= c <= ChunkOf(end - 1) <==> exists i: nat :: first <= i < end && ChunkOf(i) == c
  {
    hide ChunkOf;
    forall i: nat | first <= i < end
      ensures ChunkOf(first) <= ChunkOf(i) <= ChunkOf(end - 1)
    {
      ChunksInOrder(first, i);
      ChunksInOrder(i, end - 1);
    }
    if ChunkOf(first) == c {
      assert first <= first < end && ChunkOf(first) == c;
    } else if ChunkOf(first) < c <= ChunkOf(end - 1) {
      FirstOfChunk(first, end, c);
    }
  }

  lemma FirstOfChunk(first: nat, end: nat, c: nat)
    requires first < end && ChunkOf(first) < c <= ChunkOf(end - 1)
    ensures first <= c * NETWORK_CHUNK_LINES < end && ChunkOf(c * NETWORK_CHUNK_LINES) == c
  {
  }

  lemma WindowIsKept(start: nat, end: nat, kept: set<nat>)
    requires forall c: nat :: c in kept <==> ChunkOf(FirstRow(start)) <= c <= ChunkOf(LastRow(start, end))
    ensures forall i: nat :: start <= i < end ==> ChunkOf(i) in kept
  {
    forall i: nat | start <= i < end
      ensures ChunkOf(i) in kept
    {
      ChunksInOrder(start, i);
      ChunksInOrder(i, end - 1);
    }
  }

  /** The server answers a range with at least its lines. */
  ghost predicate Complete(fetch: (int, int) -> seq<Line>) {
    forall first, last, no :: first <= no <= last ==> Includes(fetch(first, last), no)
  }

  ghost predicate Includes(input: seq<Line>, no: int) {
    exists k :: 0 <= k < |input| && input[k].no == no
  }

  lemma {:induction false} WrittenShows(lines: seq<Option<Line>>, input: seq<Line>, startLine: int, i: nat)
    requires i < |lines|
    ensures lines[i].Some? || Includes(input, startLine + i) ==> Written(lines, input, startLine)[i].Some?
    decreases |input|
  {
    if input != [] {
      WrittenShows(lines, input[..|input| - 1], startLine, i);
      if Includes(input, startLine + i) && input[|input| - 1].no != startLine + i {
        var k :| 0 <= k < |input| && input[k].no == startLine + i;
        assert input[..|input| - 1][k].no == startLine + i;
      }
    }
  }

  /** A slot shows the last line of the response that has its number, or what it showed before. */
  lemma {:induction false} WrittenIs(lines: seq<Option<Line>>, input: seq<Line>, startLine: int, i: nat, k: nat)
    requires i < |lines| && k <= |input|
    requires k < |input| ==> input[k].no == startLine + i
    requires forall j :: k < j < |input| ==> input[j].no != startLine + i
    requires k == |input| ==> !Includes(input, startLine + i)
    ensures Written(lines, input, startLine)[i] == if k < |input| then Some(input[k]) else lines[i]
    decreases |input|
  {
    var n := |input| - 1;
    if k < n {
      assert forall j :: k < j < n ==> input[..n][j] == input[j];
      WrittenIs(lines, input[..n], startLine, i, k);
    } else if k == |input| && input != [] {
      assert input[n].no != startLine + i;
      IncludesLess(input, startLine + i);
      WrittenIs(lines, input[..n], startLine, i, n);
    }
  }

  lemma IncludesLess(input: seq<Line>, no: int)
    requires input != []
    ensures Includes(input[..|input| - 1], no) ==> Includes(input, no)
  {
    var front := input[..|input| - 1];
    if Includes(front, no) {
      var k :| 0 <= k < |front| && front[k].no == no;
      assert input[k].no == no;
    }
  }

  lemma ResponseFills(lines: seq<Option<Line>>, response: seq<Line>, startLine: int, chunk: nat, fetch: (int, int) -> seq<Line>)
    requires var physicalStart := chunk * NETWORK_CHUNK_LINES;
      var physicalEnd := if |lines| < physicalStart + NETWORK_CHUNK_LINES then |lines| else physicalStart + NETWORK_CHUNK_LINES;
      response == fetch(startLine + physicalStart, startLine + physicalEnd - 1)
    ensures forall i :: 0 <= i < |lines| && lines[i].Some? ==> Written(lines, response, startLine)[i].Some?
    ensures Complete(fetch) ==>
              forall i :: 0 <= i < |lines| && ChunkOf(i) == chunk ==> Written(lines, response, startLine)[i].Some?
  {
    forall i | 0 <= i < |lines|
      ensures lines[i].Some? || (Complete(fetch) && ChunkOf(i) == chunk) ==> Written(lines, response, startLine)[i].Some?
    {
      WrittenShows(lines, response, startLine, i);
    }
  }

  lemma ChunkBeyond(chunk: nat, n: nat)
    requires chunk * NETWORK_CHUNK_LINES >= n
    ensures forall i: nat :: i < n ==> ChunkOf(i) != chunk
  {
  }

  lemma SizedKeeps(lines: seq<Option<Line>>, n: nat)
    requires |lines| == n || lines == []
    ensures forall i: nat :: At(Sized(lines, n), i) == At(lines, i)
  {
  }
}
