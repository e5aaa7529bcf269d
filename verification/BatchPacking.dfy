/** Packing the initially expanded regions into batch requests (coverage_enhance.js) and the
    limits the server puts on one batch (vnext_service.py, application.py). */
module BatchPacking {
  import CS = ChunkedSidecar
  import opened Options

  type Span = CS.Span

  const MAX_BATCH_RANGES: int := 1000
  const MAX_BATCH_LOGICAL_LINES: int := 20000
  const MAX_SINGLE_LINE_SPAN: int := 10000

  function Lines(ranges: seq<Span>): int {
    if ranges == [] then 0 else Lines(ranges[..|ranges| - 1]) + ranges[|ranges| - 1].Size()
  }

  function Flatten(groups: seq<seq<Span>>): seq<Span> {
    if groups == [] then [] else groups[0] + Flatten(groups[1..])
  }

  /** Within both batch limits. */
  predicate Fits(group: seq<Span>) {
    |group| <= MAX_BATCH_RANGES && Lines(group) <= MAX_BATCH_LOGICAL_LINES
  }

  /** What the browser sends: nonempty ranges of at most 10000 lines. */
  ghost predicate Sendable(ranges: seq<Span>) {
    forall i :: 0 <= i < |ranges| ==> 1 <= ranges[i].Size() <= MAX_SINGLE_LINE_SPAN
  }

  // ---------------------------------------------------------------- server side

  predicate Acceptable(r: Span, total: int) {
    && 1 <= r.first <= r.last
    && r.Size() <= MAX_SINGLE_LINE_SPAN
    && (total != 0 ==> r.last <= total)
  }

  /** resolve_lines_batch and _normalize_batch_ranges together. */
  method AcceptBatch(total: int, ranges: seq<Span>) returns (accepted: bool)
    ensures accepted <==> Fits(ranges) && forall i :: 0 <= i < |ranges| ==> Acceptable(ranges[i], total)
    ensures accepted <==>
      && |ranges| <= 1000 && Lines(ranges) <= 20000
      && forall i :: 0 <= i < |ranges| ==>
           1 <= ranges[i].first <= ranges[i].last < ranges[i].first + 10000 && (total != 0 ==> ranges[i].last <= total)
  {
    if |ranges| > MAX_BATCH_RANGES {
      return false;
    }
    var logicalLines := 0;
    for i := 0 to |ranges|
      invariant logicalLines == Lines(ranges[..i])
      invariant forall k :: 0 <= k < i ==> Acceptable(ranges[k], total)
    {
      assert ranges[..i + 1][..i] == ranges[..i];
      if !Acceptable(ranges[i], total) {
        return false;
      }
      logicalLines := logicalLines + ranges[i].Size();
    }
    assert ranges[..|ranges|] == ranges;
    accepted := logicalLines <= MAX_BATCH_LOGICAL_LINES;
  }

  // ---------------------------------------------------------------- browser side

  /** Length of the longest prefix that fits, at least `n`. */
  function Longest(ranges: seq<Span>, n: nat): (r: nat)
    requires n <= |ranges|
    ensures n <= r <= |ranges|
    ensures Fits(ranges[..n]) ==> Fits(ranges[..r])
    ensures r < |ranges| ==> !Fits(ranges[..r + 1])
    decreases |ranges| - n
  {
    if n < |ranges| && Fits(ranges[..n + 1]) then Longest(ranges, n + 1) else n
  }

  /** Greedy packing: each group is as long as the limits allow. */
  function Greedy(ranges: seq<Span>): (groups: seq<seq<Span>>)
    ensures Flatten(groups) == ranges
    decreases |ranges|
  {
    if ranges == [] then []
    else
      var n := Longest(ranges, 1);
      assert ranges == ranges[..n] + ranges[n..];
      [ranges[..n]] + Greedy(ranges[n..])
  }

  lemma LongestStep(ranges: seq<Span>, i: nat, j: nat)
    requires i < j < |ranges|
    ensures var open := ranges[i..];
            Longest(open, j - i) == if Fits(ranges[i..j + 1]) then Longest(open, j + 1 - i) else j - i
  {
    assert ranges[i..][..j + 1 - i] == ranges[i..j + 1];
  }

  lemma LinesStep(ranges: seq<Span>, i: nat, j: nat)
    requires i <= j < |ranges|
    ensures Lines(ranges[i..j + 1]) == Lines(ranges[i..j]) + ranges[j].Size()
  {
    assert ranges[i..j + 1][..j - i] == ranges[i..j];
  }

  /** What is still to be sent when ranges `i .. j - 1` form the open group. */
  ghost function Remaining(ranges: seq<Span>, i: nat, j: nat): seq<seq<Span>>
    requires i < j <= |ranges|
  {
    var n := Longest(ranges[i..], j - i);
    [ranges[i..i + n]] + Greedy(ranges[i + n..])
  }

  lemma GreedyOpens(ranges: seq<Span>, i: nat)
    requires i < |ranges|
    ensures Greedy(ranges[i..]) == Remaining(ranges, i, i + 1)
  {
    var n := Longest(ranges[i..], 1);
    assert ranges[i..][..n] == ranges[i..i + n];
    assert ranges[i..][n..] == ranges[i + n..];
  }

  lemma GroupStep(ranges: seq<Span>, i: nat, j: nat)
    requires i < j < |ranges|
    ensures Remaining(ranges, i, j) ==
            if j - i < MAX_BATCH_RANGES && Lines(ranges[i..j]) + ranges[j].Size() <= MAX_BATCH_LOGICAL_LINES
            then Remaining(ranges, i, j + 1)
            else [ranges[i..j]] + Remaining(ranges, j, j + 1)
  {
    hide Greedy, Longest;
    LinesStep(ranges, i, j);
    LongestStep(ranges, i, j);
    if Fits(ranges[i..j + 1]) {
      assert Longest(ranges[i..], j - i) == Longest(ranges[i..], j + 1 - i);
    } else {
      assert Longest(ranges[i..], j - i) == j - i;
      GreedyOpens(ranges, j);
    }
  }

  lemma LastGroup(ranges: seq<Span>, i: nat)
    requires i < |ranges|
    ensures Remaining(ranges, i, |ranges|) == [ranges[i..|ranges|]]
  {
    assert ranges[i..i + (|ranges| - i)] == ranges[i..];
  }

  /** _initialBatchGroups. */
  method InitialBatchGroups(regions: seq<Span>) returns (groups: seq<seq<Span>>)
    ensures groups == Greedy(regions)
  {
    if regions == [] {
      groups := [];
    } else {
      groups := PackRegions(regions);
      GreedyOpens(regions, 0);
      assert regions[0..] == regions;
    }
  }

  method PackRegions(regions: seq<Span>) returns (groups: seq<seq<Span>>)
    requires regions != []
    ensures groups == Remaining(regions, 0, 1)
  {
    hide *;
    groups := [];
    var current: seq<Span> := [];
    var logicalLines := 0;
    SliceGrows(regions, 0, 0);
    ghost var i: nat := 0;
    ghost var rest := Remaining(regions, 0, 1);
    for j := 0 to |regions|
      invariant i <= j && (i == j ==> j == 0)
      invariant current == regions[i..j] && logicalLines == Lines(current)
      invariant rest == Remaining(regions, i, if j == 0 then 1 else j)
      invariant Remaining(regions, 0, 1) == groups + rest
    {
      var span := regions[j].Size();
      LinesStep(regions, i, j);
      SliceGrows(regions, i, j);
      if j > 0 {
        GroupStep(regions, i, j);
      }
      if current != [] && (|current| >= MAX_BATCH_RANGES || logicalLines + span > MAX_BATCH_LOGICAL_LINES) {
        GroupClosed(groups, current, Remaining(regions, j, j + 1));
        groups := groups + [current];
        current := [];
        logicalLines := 0;
        i := j;
        LinesStep(regions, j, j);
        SliceGrows(regions, j, j);
      }
      rest := Remaining(regions, i, j + 1);
      current := current + [regions[j]];
      logicalLines := logicalLines + span;
    }
    if current != [] {
      LastGroup(regions, i);
      groups := groups + [current];
    }
  }

  lemma SliceGrows(ranges: seq<Span>, i: nat, j: nat)
    requires i <= j < |ranges|
    ensures ranges[i..j + 1] == ranges[i..j] + [ranges[j]]
    ensures ranges[j..j + 1] == [] + [ranges[j]]
    ensures ranges[j..j] == [] && Lines(ranges[j..j]) == 0
  {
  }

  lemma GroupClosed(groups: seq<seq<Span>>, current: seq<Span>, rest: seq<seq<Span>>)
    ensures groups + ([current] + rest) == (groups + [current]) + rest
  {
  }

  /** The groups keep the order of the ranges, are nonempty and within both limits. */
  lemma {:induction false} GreedyFits(ranges: seq<Span>)
    requires Sendable(ranges)
    ensures Flatten(Greedy(ranges)) == ranges
    ensures forall g :: g in Greedy(ranges) ==> g != [] && Fits(g) && |g| <= 1000 && Lines(g) <= 20000
    decreases |ranges|
  {
    if ranges != [] {
      LinesStep(ranges, 0, 0);
      var n := Longest(ranges, 1);
      GreedyFits(ranges[n..]);
    }
  }

  lemma {:induction false} LinesOfSuffix(ranges: seq<Span>, k: nat)
    requires Sendable(ranges) && k <= |ranges|
    ensures 0 <= Lines(ranges[k..]) <= Lines(ranges)
    decreases |ranges|
  {
    if k < |ranges| {
      var front := ranges[..|ranges| - 1];
      LinesOfSuffix(front, k);
      assert ranges[k..][..|ranges[k..]| - 1] == front[k..];
    } else {
      assert ranges[k..] == [];
      if k > 0 {
        LinesOfSuffix(ranges[..|ranges| - 1], k - 1);
        assert ranges[..|ranges| - 1][k - 1..] == [];
      }
    }
  }

  lemma {:induction false} LinesOfPrefix(ranges: seq<Span>, k: nat)
    requires Sendable(ranges) && k <= |ranges|
    ensures 0 <= Lines(ranges[..k]) <= Lines(ranges)
    decreases |ranges|
  {
    if k < |ranges| {
      var front := ranges[..|ranges| - 1];
      LinesOfPrefix(front, k);
      assert ranges[..k] == front[..k];
    } else {
      assert ranges[..k] == ranges;
      if k > 0 {
        LinesOfPrefix(ranges[..k - 1], k - 1);
        assert ranges[..k - 1][..k - 1] == ranges[..k - 1];
      }
    }
  }

  lemma PrefixFits(ranges: seq<Span>, k: nat, j: nat)
    requires Sendable(ranges) && j <= k <= |ranges| && Fits(ranges[..k])
    ensures Fits(ranges[..j])
  {
    LinesOfPrefix(ranges[..k], j);
    assert ranges[..k][..j] == ranges[..j];
  }

  /** No prefix longer than the greedy first group fits. */
  lemma PrefixFitsUpTo(ranges: seq<Span>, k: nat)
    requires Sendable(ranges) && 1 <= k <= |ranges| && Fits(ranges[..k])
    ensures k <= Longest(ranges, 1)
  {
    var n := Longest(ranges, 1);
    if n < k {
      PrefixFits(ranges, k, n + 1);
    }
  }

  /** Greedy stays ahead: it needs no more groups for what is left of a split than the
      split itself has. */
  lemma {:induction false} GreedyStaysAhead(other: seq<seq<Span>>, k: nat)
    requires Sendable(Flatten(other)) && k <= |Flatten(other)|
    requires forall g :: g in other ==> Fits(g)
    ensures |Greedy(Flatten(other)[k..])| <= |other|
    decreases |other|
  {
    if k < |Flatten(other)| {
      var first, rest := other[0], other[1..];
      var tail := Flatten(rest);
      assert Flatten(other) == first + tail;
      SendableParts(first, tail);
      if k >= |first| {
        GreedyStaysAhead(rest, k - |first|);
        assert Flatten(other)[k..] == tail[k - |first|..];
      } else {
        var n := FirstGroupReaches(first, tail, k);
        GreedyStaysAhead(rest, n);
      }
    }
  }

  lemma SendableParts(a: seq<Span>, b: seq<Span>)
    requires Sendable(a + b)
    ensures Sendable(a) && Sendable(b)
  {
    assert forall i :: 0 <= i < |a| ==> a[i] == (a + b)[i];
    assert forall i :: 0 <= i < |b| ==> b[i] == (a + b)[|a| + i];
  }

  /** Starting inside a group that fits, greedy's first group reaches at least its end. */
  lemma FirstGroupReaches(first: seq<Span>, tail: seq<Span>, k: nat) returns (n: nat)
    requires Sendable(first + tail) && Fits(first) && k < |first|
    ensures n <= |tail|
    ensures |Greedy((first + tail)[k..])| == 1 + |Greedy(tail[n..])|
  {
    var left, m := (first + tail)[k..], |first| - k;
    SendableParts(first, tail);
    assert left == first[k..] + tail;
    assert left[..m] == first[k..];
    assert Sendable(left) by {
      assert forall i :: 0 <= i < |left| ==> left[i] == (first + tail)[k + i];
    }
    LinesOfSuffix(first, k);
    PrefixFitsUpTo(left, m);
    n := Longest(left, 1) - m;
    assert left[Longest(left, 1)..] == tail[n..];
  }

  /** No way of cutting the ranges into consecutive groups within the limits uses fewer groups. */
  lemma GreedyIsOptimal(ranges: seq<Span>, other: seq<seq<Span>>)
    requires Sendable(ranges) && Flatten(other) == ranges
    requires forall g :: g in other ==> Fits(g)
    ensures |Greedy(ranges)| <= |other|
  {
    GreedyStaysAhead(other, 0);
    assert ranges[0..] == ranges;
  }

  // ---------------------------------------------------------------- against the sidecar

  /** One-line ranges, one at the start of each of the first `n` chunks. */
  function Scattered(n: nat, size: nat): (r: seq<Span>)
    ensures |r| == n
    ensures forall i :: 0 <= i < n ==> r[i] == CS.FirstLineOf(i, size)
  {
    seq(n, (i: nat) => CS.FirstLineOf(i, size))
  }

  lemma {:induction false} OneChunkEach(spans: seq<Span>, size: nat)
    requires size >= 1 && CS.WellFormed(spans)
    requires forall i: nat :: i < |spans| ==> CS.ChunksOf(spans[i], size) == {i}
    ensures |CS.Needed(spans, size)| == |spans|
    ensures CS.Needed(spans, size) == CS.Interval(0, |spans|)
  {
    hide CS.ChunksOf;
    if spans != [] {
      var n := |spans| - 1;
      OneChunkEach(spans[..n], size);
      CS.NeededStep(spans, size, n);
      assert spans[..n + 1] == spans;
      IntervalStep(n);
    }
  }

  lemma IntervalStep(n: nat)
    ensures CS.Interval(0, n + 1) == CS.Interval(0, n) + {n}
  {
  }

  /** What the service accepts as one batch. */
  ghost predicate Accepted(batch: seq<Span>, total: int) {
    Fits(batch) && forall i :: 0 <= i < |batch| ==> Acceptable(batch[i], total)
  }

  /** What the sidecar does not refuse. */
  ghost predicate Served(batch: seq<Span>, meta: CS.Meta)
    requires meta.chunkSize >= 1
  {
    CS.Refusal(Some(meta), batch) == None
  }

  lemma {:induction false} OneLineEach(batch: seq<Span>)
    requires forall i :: 0 <= i < |batch| ==> batch[i].Size() == 1
    ensures Lines(batch) == |batch|
  {
    if batch != [] {
      OneLineEach(batch[..|batch| - 1]);
    }
  }

  lemma {:induction false} SameTotals(batch: seq<Span>)
    ensures CS.TotalSize(batch) == Lines(batch)
  {
    if batch != [] {
      SameTotals(batch[..|batch| - 1]);
    }
  }

  /** Passing the batch limits does not mean that the batch can be read: the first lines of the
      first 257 chunks of a longer file are a legal batch, yet the sidecar refuses them. */
  lemma LegalBatchRefusedBySidecar(meta: CS.Meta)
    requires meta.chunkSize >= 1 && CS.ChunkTotal(meta.total, meta.chunkSize) > CS.MAX_RANGE_CHUNKS
    ensures var batch := Scattered(257, meta.chunkSize);
      Accepted(batch, meta.total) && CS.Refusal(Some(meta), batch) == Some(CS.TooManyChunks)
  {
    ScatteredInFile(meta, 257);
    ScatteredNeeds(meta.chunkSize, 257);
    hide CS.Needed, CS.TotalSize, Scattered, CS.ChunkTotal, Lines;
    SameTotals(Scattered(257, meta.chunkSize));
  }

  lemma ScatteredInFile(meta: CS.Meta, n: nat)
    requires meta.chunkSize >= 1 && CS.ChunkTotal(meta.total, meta.chunkSize) >= n
    ensures forall i :: 0 <= i < n ==> Acceptable(Scattered(n, meta.chunkSize)[i], meta.total)
    ensures Lines(Scattered(n, meta.chunkSize)) == n
  {
    forall i: nat | i < n
      ensures CS.StartOf(i, meta.chunkSize) < meta.total
    {
      CS.WithinTotal(meta.total, meta.chunkSize, i);
    }
    hide CS.ChunkTotal, CS.StartOf;
    OneLineEach(Scattered(n, meta.chunkSize));
  }

  lemma ScatteredNeeds(size: nat, n: nat)
    requires size >= 1
    ensures CS.WellFormed(Scattered(n, size)) && |CS.Needed(Scattered(n, size), size)| == n
  {
    hide CS.ChunksOf, CS.StartOf, CS.Needed;
    var batch := Scattered(n, size);
    forall i: nat | i < n
      ensures CS.ChunksOf(batch[i], size) == {i}
    {
      CS.OneChunk(i, size);
    }
    OneChunkEach(batch, size);
  }

  lemma SmallFileServesBatch(meta: CS.Meta, batch: seq<Span>)
    requires meta.chunkSize >= 1 && meta.total != 0 && CS.ChunkTotal(meta.total, meta.chunkSize) <= CS.MAX_RANGE_CHUNKS
    requires Accepted(batch, meta.total)
    ensures Served(batch, meta)
  {
    SameTotals(batch);
    NeededWithinFile(meta, batch);
    Subset(CS.Needed(batch, meta.chunkSize), CS.Interval(0, CS.ChunkTotal(meta.total, meta.chunkSize)));
  }

  /** Every batch the service accepts can be read, exactly if the file has at most 256 chunks. */
  lemma EveryAcceptedBatchIsServed(meta: CS.Meta)
    requires meta.chunkSize >= 1 && meta.total != 0
    ensures (forall batch: seq<Span> :: Accepted(batch, meta.total) ==> Served(batch, meta))
       <==> CS.ChunkTotal(meta.total, meta.chunkSize) <= CS.MAX_RANGE_CHUNKS
  {
    hide CS.Refusal, CS.ChunkTotal, Accepted;
    if CS.ChunkTotal(meta.total, meta.chunkSize) <= CS.MAX_RANGE_CHUNKS {
      forall batch: seq<Span> | Accepted(batch, meta.total)
        ensures Served(batch, meta)
      {
        SmallFileServesBatch(meta, batch);
      }
    } else {
      LegalBatchRefusedBySidecar(meta);
      assert !Served(Scattered(257, meta.chunkSize), meta);
    }
  }

  lemma Subset(a: set<nat>, b: set<nat>)
    requires a <= b
    ensures |a| <= |b|
  {
    assert b == a + (b - a);
  }

  lemma {:induction false} NeededWithinFile(meta: CS.Meta, spans: seq<Span>)
    requires meta.chunkSize >= 1 && meta.total != 0
    requires forall i :: 0 <= i < |spans| ==> 1 <= spans[i].first <= spans[i].last <= meta.total
    ensures CS.Needed(spans, meta.chunkSize) <= CS.Interval(0, CS.ChunkTotal(meta.total, meta.chunkSize))
  {
    hide CS.ChunkAt, CS.StartOf, CS.Interval;
    if spans != [] {
      var last := spans[|spans| - 1];
      NeededWithinFile(meta, spans[..|spans| - 1]);
      CS.ChunksInOrder(last.last - 1, meta.total - 1, meta.chunkSize);
    }
  }
}
