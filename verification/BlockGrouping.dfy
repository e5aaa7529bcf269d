/** Grouping of uncovered lines into review blocks: the counted-set loop of
    app/code_detail/source_reader.py and the skipping loop of coverage_enhance.js. */
module BlockGrouping {

  /** The line predicates the grouping reads; the text tests behind them are not modelled.
      Line numbers are strictly increasing, so a line is known by its position. */
  datatype Line = Line(
    pending: bool,      // uncovered and in the review scope
    covered: bool,
    control: bool,      // control flow text
    entry: bool,        // function entry text
    simple: bool,       // simple declaration or assignment
    reviewer: string)

  datatype Kind = ControlFlow | FunctionBody | Sequential
  datatype Placement = Placement(start: nat, end: nat, kind: Kind, isEntry: bool)

  ghost predicate WellFormed(lines: seq<Line>) {
    forall i :: 0 <= i < |lines| && lines[i].covered ==> !lines[i].pending
  }

  /** A pending line `next` may join the block opened by `first`. */
  predicate Joins(first: Line, next: Line) {
    && next.reviewer == first.reviewer
    && !next.control && !next.entry
    && next.simple
    && (first.entry || first.simple)
  }

  /** The line indices from `j` on that join the block opened at `i`. */
  function Joining(lines: seq<Line>, i: nat, j: nat): (r: seq<nat>)
    requires i < |lines| && j <= |lines|
    ensures forall k :: 0 <= k < |r| ==> j <= r[k] < |lines|
    decreases |lines| - j
  {
    if j == |lines| || lines[j].covered then []
    else if lines[j].pending then
      if Joins(lines[i], lines[j]) then [j] + Joining(lines, i, j + 1) else []
    else if lines[i].entry && !lines[j].control && !lines[j].entry then Joining(lines, i, j + 1)
    else []
  }

  function BlockAt(lines: seq<Line>, i: nat): (r: seq<nat>)
    requires i < |lines|
    ensures r != [] && r[0] == i
    ensures forall k :: 0 <= k < |r| ==> i <= r[k] < |lines|
  {
    if lines[i].control then [i] else [i] + Joining(lines, i, i + 1)
  }

  function LastOf(block: seq<nat>): nat
    requires block != []
  {
    block[|block| - 1]
  }

  /** The blocks of the lines from `i` on. */
  function Blocks(lines: seq<Line>, i: nat): (r: seq<seq<nat>>)
    requires i <= |lines|
    ensures forall k :: 0 <= k < |r| ==> r[k] != [] && LastOf(r[k]) < |lines|
    decreases |lines| - i
  {
    if i == |lines| then []
    else if !lines[i].pending then Blocks(lines, i + 1)
    else [BlockAt(lines, i)] + Blocks(lines, LastOf(BlockAt(lines, i)) + 1)
  }

  // ---------------------------------------------------------------- what a grouping is

  /** A line that a block opened at line i may span without holding it. */
  ghost predicate Spanned(lines: seq<Line>, i: nat, x: nat)
    requires i < |lines| && x < |lines|
  {
    lines[i].entry && !lines[x].pending && !lines[x].covered && !lines[x].control && !lines[x].entry
  }

  /** Pending line y may be added to a block that was opened at line i and ends at line `last`. */
  ghost predicate MayFollow(lines: seq<Line>, i: nat, last: nat, y: nat)
    requires i < |lines|
  {
    && last < y < |lines| && lines[y].pending
    && !lines[i].control && (lines[i].entry || lines[i].simple)
    && lines[y].simple && !lines[y].control && !lines[y].entry && lines[y].reviewer == lines[i].reviewer
    && forall x: nat :: last < x < y ==> Spanned(lines, i, x)
  }

  /** One block: ascending pending lines, one reviewer, no covered line in its span, no
      control flow or function entry after its first line, and no line left out that could be added. */
  ghost predicate IsBlock(lines: seq<Line>, block: seq<nat>) {
    && block != []
    && (forall k :: 0 <= k < |block| ==> block[k] < |lines| && lines[block[k]].pending)
    && (forall j, k :: 0 <= j < k < |block| ==> block[j] < block[k])
    && (forall k :: 0 <= k < |block| ==> lines[block[k]].reviewer == lines[block[0]].reviewer)
    && (forall k :: 0 < k < |block| ==> !lines[block[k]].control && !lines[block[k]].entry)
    && (lines[block[0]].control ==> |block| == 1)
    && (forall x {:trigger lines[x].covered} :: block[0] <= x <= LastOf(block) ==> !lines[x].covered)
    && (forall x {:trigger x in block} :: block[0] <= x <= LastOf(block) && lines[x].pending ==> x in block)
    && (forall k :: 0 < k < |block| ==> lines[block[k]].simple)
    && (|block| > 1 ==> lines[block[0]].entry || lines[block[0]].simple)
    && (forall x: nat {:trigger Spanned(lines, block[0], x)} :: block[0] < x <= LastOf(block) && x !in block ==>
          Spanned(lines, block[0], x))
    && (forall y: nat :: !MayFollow(lines, block[0], LastOf(block), y))
  }

  /** Blocks with disjoint, ordered spans that together hold every pending line from `i` on. */
  ghost predicate InSomeBlock(blocks: seq<seq<nat>>, x: nat) {
    exists k :: 0 <= k < |blocks| && x in blocks[k]
  }

  /** The blocks are nonempty, start at `i` or later, and their spans do not overlap. */
  ghost predicate OrderedFrom(blocks: seq<seq<nat>>, i: nat) {
    && (forall k :: 0 <= k < |blocks| ==> blocks[k] != [] && i <= blocks[k][0])
    && (forall j, k :: 0 <= j < k < |blocks| ==> LastOf(blocks[j]) < blocks[k][0])
  }

  ghost predicate IsGrouping(lines: seq<Line>, blocks: seq<seq<nat>>, i: nat) {
    && (forall k :: 0 <= k < |blocks| ==> IsBlock(lines, blocks[k]))
    && OrderedFrom(blocks, i)
    && (forall x: nat {:trigger InSomeBlock(blocks, x)} :: i <= x < |lines| && lines[x].pending ==> InSomeBlock(blocks, x))
  }

  lemma {:induction false} JoiningAreMembers(lines: seq<Line>, i: nat, j: nat, k: nat)
    requires i < |lines| && j <= |lines| && k < |Joining(lines, i, j)|
    ensures lines[Joining(lines, i, j)[k]].pending && Joins(lines[i], lines[Joining(lines, i, j)[k]])
    ensures k > 0 ==> Joining(lines, i, j)[k - 1] < Joining(lines, i, j)[k]
    decreases |lines| - j
  {
    if lines[j].pending {
      if k > 0 {
        JoiningAreMembers(lines, i, j + 1, k - 1);
      }
    } else {
      JoiningAreMembers(lines, i, j + 1, k);
    }
  }

  lemma {:induction false} JoiningSkipsNothing(lines: seq<Line>, i: nat, j: nat, x: nat)
    requires i < |lines| && j <= |lines| && Joining(lines, i, j) != []
    requires j <= x <= LastOf(Joining(lines, i, j))
    ensures !lines[x].covered && (lines[x].pending ==> x in Joining(lines, i, j))
    ensures x !in Joining(lines, i, j) ==> Spanned(lines, i, x)
    decreases |lines| - j
  {
    var rest := Joining(lines, i, j + 1);
    if x > j && rest != [] {
      JoiningSkipsNothing(lines, i, j + 1, x);
    }
  }

  /** The block ends only where no further line can be added. */
  lemma {:induction false} JoiningStops(lines: seq<Line>, i: nat, j: nat, last: nat, y: nat)
    requires WellFormed(lines) && i < |lines| && !lines[i].control && last < j <= |lines|
    requires forall x: nat :: last < x < j ==> Spanned(lines, i, x)
    ensures var r := Joining(lines, i, j);
      !MayFollow(lines, i, if r == [] then last else LastOf(r), y)
    decreases |lines| - j
  {
    assert last < y < j ==> Spanned(lines, i, y);
    if j < |lines| && !lines[j].covered {
      if lines[j].pending && Joins(lines[i], lines[j]) {
        JoiningStops(lines, i, j + 1, j, y);
      } else if !lines[j].pending && lines[i].entry && !lines[j].control && !lines[j].entry {
        JoiningStops(lines, i, j + 1, last, y);
      } else {
        assert MayFollow(lines, i, last, y) && j < y ==> Spanned(lines, i, j);
      }
    } else if j < |lines| {
      assert MayFollow(lines, i, last, y) && j < y ==> Spanned(lines, i, j);
    }
  }

  lemma BlockAtIsMaximal(lines: seq<Line>, i: nat, y: nat)
    requires WellFormed(lines) && i < |lines|
    ensures !MayFollow(lines, i, LastOf(BlockAt(lines, i)), y)
  {
    if !lines[i].control {
      JoiningStops(lines, i, i + 1, i, y);
    }
  }

  lemma {:induction false} Ascending(block: seq<nat>, j: nat, k: nat)
    requires forall m :: 0 < m < |block| ==> block[m - 1] < block[m]
    requires j < k < |block|
    ensures block[j] < block[k]
    decreases k
  {
    if j < k - 1 {
      Ascending(block, j, k - 1);
    }
  }

  lemma BlockAtMembers(lines: seq<Line>, i: nat, k: nat)
    requires i < |lines| && lines[i].pending && 0 < k < |BlockAt(lines, i)|
    ensures var block := BlockAt(lines, i);
            lines[block[k]].pending && Joins(lines[i], lines[block[k]]) && block[k - 1] < block[k]
  {
    JoiningAreMembers(lines, i, i + 1, k - 1);
  }

  lemma BlockAtSpan(lines: seq<Line>, i: nat, x: nat)
    requires WellFormed(lines) && i < |lines| && lines[i].pending
    requires i <= x <= LastOf(BlockAt(lines, i))
    ensures !lines[x].covered
    ensures lines[x].pending ==> x in BlockAt(lines, i)
    ensures x !in BlockAt(lines, i) ==> Spanned(lines, i, x)
  {
    if x > i {
      JoiningSkipsNothing(lines, i, i + 1, x);
    } else {
      assert BlockAt(lines, i)[0] == x;
    }
  }

  lemma BlockAtIsBlock(lines: seq<Line>, i: nat)
    requires WellFormed(lines) && i < |lines| && lines[i].pending
    ensures IsBlock(lines, BlockAt(lines, i))
  {
    var block := BlockAt(lines, i);
    forall k | 0 < k < |block|
      ensures lines[block[k]].pending && Joins(lines[i], lines[block[k]]) && block[k - 1] < block[k]
    {
      BlockAtMembers(lines, i, k);
    }
    forall j, k | 0 <= j < k < |block|
      ensures block[j] < block[k]
    {
      Ascending(block, j, k);
    }
    forall x | i <= x <= LastOf(block)
      ensures !lines[x].covered && (lines[x].pending ==> x in block)
      ensures x !in block ==> Spanned(lines, i, x)
    {
      BlockAtSpan(lines, i, x);
    }
    forall y: nat
      ensures !MayFollow(lines, i, LastOf(block), y)
    {
      BlockAtIsMaximal(lines, i, y);
    }
  }

  lemma BlocksFrom(lines: seq<Line>, i: nat)
    requires i < |lines|
    ensures Blocks(lines, i) ==
            if lines[i].pending then [BlockAt(lines, i)] + Blocks(lines, LastOf(BlockAt(lines, i)) + 1)
            else Blocks(lines, i + 1)
  {
  }

  lemma BlocksAtEnd(lines: seq<Line>)
    ensures Blocks(lines, |lines|) == []
  {
  }

  /** The pending lines are partitioned into blocks with disjoint spans. */
  lemma {:induction false} BlocksGroupTheLines(lines: seq<Line>, i: nat)
    requires WellFormed(lines) && i <= |lines|
    ensures IsGrouping(lines, Blocks(lines, i), i)
    decreases |lines| - i
  {
    if i < |lines| {
      BlocksFrom(lines, i);
      if !lines[i].pending {
        BlocksGroupTheLines(lines, i + 1);
        GroupingLoosens(lines, Blocks(lines, i + 1), i);
      } else {
        BlockStepGroups(lines, i);
      }
    }
  }

  lemma {:induction false} BlockStepGroups(lines: seq<Line>, i: nat)
    requires WellFormed(lines) && i < |lines| && lines[i].pending
    ensures IsGrouping(lines, [BlockAt(lines, i)] + Blocks(lines, LastOf(BlockAt(lines, i)) + 1), i)
    decreases |lines| - i, 0
  {
    var first := BlockAt(lines, i);
    BlockAtIsBlock(lines, i);
    BlocksGroupTheLines(lines, LastOf(first) + 1);
    GroupingGrows(lines, first, Blocks(lines, LastOf(first) + 1));
  }

  lemma GroupingLoosens(lines: seq<Line>, blocks: seq<seq<nat>>, i: nat)
    requires i < |lines| && !lines[i].pending && IsGrouping(lines, blocks, i + 1)
    ensures IsGrouping(lines, blocks, i)
  {
  }

  lemma OrderGrows(first: seq<nat>, rest: seq<seq<nat>>)
    requires first != [] && OrderedFrom(rest, LastOf(first) + 1) && first[0] <= LastOf(first)
    ensures OrderedFrom([first] + rest, first[0])
  {
  }

  lemma GroupingGrows(lines: seq<Line>, first: seq<nat>, rest: seq<seq<nat>>)
    requires IsBlock(lines, first) && first[0] <= LastOf(first)
    requires IsGrouping(lines, rest, LastOf(first) + 1)
    ensures IsGrouping(lines, [first] + rest, first[0])
  {
    var all := [first] + rest;
    OrderGrows(first, rest);
    forall x: nat | first[0] <= x < |lines| && lines[x].pending
      ensures InSomeBlock(all, x)
    {
      PendingIsHeld(lines, first, rest, x);
    }
    hide IsBlock, OrderedFrom;
    forall k | 0 <= k < |all|
      ensures IsBlock(lines, all[k])
    {
      if k > 0 {
        assert all[k] == rest[k - 1];
      }
    }
  }

  lemma PendingIsHeld(lines: seq<Line>, first: seq<nat>, rest: seq<seq<nat>>, x: nat)
    requires IsBlock(lines, first) && IsGrouping(lines, rest, LastOf(first) + 1)
    requires first[0] <= x < |lines| && lines[x].pending
    ensures InSomeBlock([first] + rest, x)
  {
    var all := [first] + rest;
    if x <= LastOf(first) {
      assert x in all[0];
    } else {
      assert InSomeBlock(rest, x);
      var k :| 0 <= k < |rest| && x in rest[k];
      assert x in all[k + 1];
    }
  }

  /** Each pending line belongs to one block only. */
  lemma InOneBlock(lines: seq<Line>, blocks: seq<seq<nat>>, j: nat, k: nat, x: nat)
    requires IsGrouping(lines, blocks, 0)
    requires j < |blocks| && k < |blocks| && x in blocks[j] && x in blocks[k]
    ensures j == k
  {
    assert IsBlock(lines, blocks[j]) && IsBlock(lines, blocks[k]);
    assert blocks[j][0] <= x <= LastOf(blocks[j]) && blocks[k][0] <= x <= LastOf(blocks[k]);
  }

  // ---------------------------------------------------------------- the loops

  /** The inner loop of both versions; `structural` is the unspecified text test whose
      answer does not matter. */
  method BuildSemanticBlock(lines: seq<Line>, i: nat, structural: Line -> bool)
    returns (block: seq<nat>, consumedUntil: nat)
    requires i < |lines| && !lines[i].control
    ensures block == BlockAt(lines, i)
    ensures consumedUntil == LastOf(block)
  {
    block := [i];
    consumedUntil := i;
    var startIsEntry := lines[i].entry;
    var j := i + 1;
    while j < |lines|
      invariant i < j <= |lines| && block != [] && consumedUntil == LastOf(block)
      invariant block + Joining(lines, i, j) == BlockAt(lines, i)
    {
      var next := lines[j];
      if next.covered {
        break;
      }
      if next.pending {
        if next.reviewer != lines[i].reviewer {
          break;
        }
        if next.control || next.entry {
          break;
        }
        if startIsEntry && !next.simple {
          break;
        }
        if !startIsEntry && (!lines[i].simple || !next.simple) {
          break;
        }
        assert Joining(lines, i, j) == [j] + Joining(lines, i, j + 1);
        assert block + Joining(lines, i, j) == block + [j] + Joining(lines, i, j + 1);
        block := block + [j];
        consumedUntil := j;
        j := j + 1;
        continue;
      }
      if !startIsEntry {
        break;
      }
      if next.control || next.entry {
        break;
      }
      if startIsEntry && !structural(next) {
        j := j + 1;
        continue;
      }
      if !structural(next) {
        break;
      }
      j := j + 1;
    }
  }

  ghost predicate CountedUpTo(lines: seq<Line>, counted: set<nat>, limit: nat) {
    && limit <= |lines|
    && (forall x: nat :: x < limit && lines[x].pending ==> x in counted)
    && (forall x :: x in counted ==> x < limit)
  }

  function Positions(block: seq<nat>): (r: set<nat>)
    ensures forall x :: x in r <==> x in block
  {
    set x | x in block
  }

  lemma BlockIsCounted(lines: seq<Line>, counted: set<nat>, i: nat, block: seq<nat>)
    requires WellFormed(lines) && i < |lines| && lines[i].pending
    requires CountedUpTo(lines, counted, i) && block == BlockAt(lines, i)
    ensures CountedUpTo(lines, counted + Positions(block), LastOf(block) + 1)
    ensures Positions(block) !! counted
  {
    BlockAtIsBlock(lines, i);
    forall x: nat | x < LastOf(block) + 1 && lines[x].pending
      ensures x in counted || x in block
    {
    }
    forall x | x in block
      ensures i <= x < LastOf(block) + 1
    {
    }
  }

  lemma UncountedIsNext(lines: seq<Line>, counted: set<nat>, limit: nat, i: nat)
    requires CountedUpTo(lines, counted, limit) && i <= limit && i < |lines|
    ensures lines[i].pending && i !in counted ==> limit == i
  {
  }

  lemma LineIsPassed(lines: seq<Line>, counted: set<nat>, i: nat)
    requires i < |lines| && CountedUpTo(lines, counted, i) && (lines[i].pending ==> i in counted)
    ensures CountedUpTo(lines, counted, i + 1) && !lines[i].pending
  {
  }

  lemma BlockAppended(blocks: seq<seq<nat>>, block: seq<nat>, rest: seq<seq<nat>>)
    ensures blocks + ([block] + rest) == (blocks + [block]) + rest
  {
  }

  function PlacementOf(lines: seq<Line>, block: seq<nat>, x: nat): Placement
    requires block != [] && block[0] < |lines|
  {
    Placement(block[0], LastOf(block),
              if lines[block[0]].control then ControlFlow
              else if lines[block[0]].entry then FunctionBody else Sequential,
              x == block[0])
  }

  /** The placement of line x: the block's first and last line, its kind, and whether x opens it. */
  ghost predicate PlacedIn(lines: seq<Line>, block: seq<nat>, x: nat, p: Placement)
    requires block != [] && block[0] < |lines|
  {
    && p.start == block[0] && p.end == block[|block| - 1] && (p.isEntry <==> x == block[0])
    && (p.kind.ControlFlow? <==> lines[block[0]].control)
    && (p.kind.FunctionBody? <==> !lines[block[0]].control && lines[block[0]].entry)
  }

  /** Exactly the grouped lines are placed, each at its block's span; the first line of a
      block, and only that one, is its entry. */
  ghost predicate Placed(lines: seq<Line>, blocks: seq<seq<nat>>, placed: map<nat, Placement>) {
    && (forall k :: 0 <= k < |blocks| ==> blocks[k] != [] && blocks[k][0] < |lines|)
    && (forall k: nat, x: nat :: k < |blocks| && x in blocks[k] ==>
          x in placed && placed[x] == PlacementOf(lines, blocks[k], x))
    && (forall x :: x in placed ==> InSomeBlock(blocks, x))
  }

  /** The same on the fields of the placements. */
  ghost predicate AllPlaced(lines: seq<Line>, blocks: seq<seq<nat>>, placed: map<nat, Placement>) {
    && (forall k :: 0 <= k < |blocks| ==> blocks[k] != [] && blocks[k][0] < |lines|)
    && (forall k: nat, x: nat :: k < |blocks| && x in blocks[k] ==> x in placed && PlacedIn(lines, blocks[k], x, placed[x]))
    && (forall x :: x in placed ==> InSomeBlock(blocks, x))
  }

  lemma PlacedMeans(lines: seq<Line>, blocks: seq<seq<nat>>, placed: map<nat, Placement>)
    requires Placed(lines, blocks, placed)
    ensures AllPlaced(lines, blocks, placed)
  {
  }

  lemma PlacedGrows(lines: seq<Line>, blocks: seq<seq<nat>>, placed: map<nat, Placement>, block: seq<nat>,
                    entries: map<nat, Placement>)
    requires block != [] && block[0] < |lines|
    requires Placed(lines, blocks, placed)
    requires entries.Keys == Positions(block) && Positions(block) !! placed.Keys
    requires forall x :: x in block ==> entries[x] == PlacementOf(lines, block, x)
    ensures Placed(lines, blocks + [block], placed + entries)
  {
    var all, next := blocks + [block], placed + entries;
    forall x | x in next
      ensures InSomeBlock(all, x)
    {
      if x in entries {
        assert x in all[|blocks|];
      } else {
        var k :| 0 <= k < |blocks| && x in blocks[k];
        assert x in all[k];
      }
    }
  }

  /** The block opened at a pending line and the placement of each of its lines. */
  method OpenBlock(lines: seq<Line>, i: nat, structural: Line -> bool)
    returns (block: seq<nat>, entries: map<nat, Placement>)
    requires i < |lines| && lines[i].pending
    ensures block == BlockAt(lines, i)
    ensures entries.Keys == Positions(block)
    ensures forall x :: x in block ==> entries[x] == PlacementOf(lines, block, x)
  {
    if lines[i].control {
      block := [i];
    } else {
      var consumedUntil;
      block, consumedUntil := BuildSemanticBlock(lines, i, structural);
    }
    var kind := if lines[i].control then ControlFlow else if lines[i].entry then FunctionBody else Sequential;
    entries := map x | x in Positions(block) :: Placement(block[0], LastOf(block), kind, x == block[0]);
  }

  /** Adds the block opened at a line to what has been grouped. */
  method AddBlock(lines: seq<Line>, i: nat, structural: Line -> bool, blocks: seq<seq<nat>>,
                  placed: map<nat, Placement>, counted: set<nat>)
    returns (allBlocks: seq<seq<nat>>, allPlaced: map<nat, Placement>, allCounted: set<nat>, ghost limit: nat)
    requires WellFormed(lines) && i < |lines| && lines[i].pending
    requires CountedUpTo(lines, counted, i) && Placed(lines, blocks, placed) && placed.Keys == counted
    ensures i < limit <= |lines| && allBlocks + Blocks(lines, limit) == blocks + Blocks(lines, i)
    ensures CountedUpTo(lines, allCounted, limit)
    ensures Placed(lines, allBlocks, allPlaced) && allPlaced.Keys == allCounted
  {
    var block, entries := OpenBlock(lines, i, structural);
    hide Placed, BlockAt, WellFormed, PlacementOf, PlacedIn, Blocks, CountedUpTo;
    BlockIsCounted(lines, counted, i, block);
    PlacedGrows(lines, blocks, placed, block, entries);
    BlocksFrom(lines, i);
    allPlaced := placed + entries;
    allCounted := counted + Positions(block);
    limit := LastOf(block) + 1;
    BlockAppended(blocks, block, Blocks(lines, limit));
    allBlocks := blocks + [block];
  }

  /** Server form: every line is visited, lines already counted are passed over. */
  method GroupByCounting(lines: seq<Line>, structural: Line -> bool)
    returns (blocks: seq<seq<nat>>, placed: map<nat, Placement>)
    requires WellFormed(lines)
    ensures blocks == Blocks(lines, 0)
    ensures Placed(lines, blocks, placed) && AllPlaced(lines, blocks, placed)
    ensures IsGrouping(lines, blocks, 0)
  {
    BlocksGroupTheLines(lines, 0);
    blocks, placed := [], map[];
    var counted: set<nat> := {};
    ghost var limit: nat := 0;
    assert Placed(lines, blocks, placed) && blocks + Blocks(lines, 0) == Blocks(lines, 0) && placed.Keys == counted;
    assert CountedUpTo(lines, counted, limit);
    BlocksAtEnd(lines);
    hide Placed, AllPlaced, IsGrouping, Blocks, BlockAt, WellFormed, PlacementOf, Positions, CountedUpTo, LastOf, InSomeBlock;
    for i := 0 to |lines|
      invariant i <= limit <= |lines|
      invariant CountedUpTo(lines, counted, limit)
      invariant blocks + Blocks(lines, limit) == Blocks(lines, 0)
      invariant Placed(lines, blocks, placed) && placed.Keys == counted
    {
      UncountedIsNext(lines, counted, limit, i);
      if lines[i].pending && i !in counted {
        blocks, placed, counted, limit := AddBlock(lines, i, structural, blocks, placed, counted);
      } else if limit == i {
        LineIsPassed(lines, counted, i);
        BlocksFrom(lines, i);
        limit := i + 1;
      }
    }
    PlacedMeans(lines, blocks, placed);
  }

  /** Browser form: after a block the loop jumps behind its last line. */
  method GroupBySkipping(lines: seq<Line>, structural: Line -> bool) returns (blocks: seq<seq<nat>>)
    requires WellFormed(lines)
    ensures blocks == Blocks(lines, 0) && IsGrouping(lines, blocks, 0)
  {
    BlocksGroupTheLines(lines, 0);
    hide IsGrouping;
    blocks := [];
    var counted: set<nat> := {};
    var i: nat := 0;
    while i < |lines|
      invariant i <= |lines|
      invariant CountedUpTo(lines, counted, i)
      invariant blocks + Blocks(lines, i) == Blocks(lines, 0)
      decreases |lines| - i
    {
      BlocksFrom(lines, i);
      if lines[i].pending && i !in counted {
        var block, consumedUntil := [i], i;
        if !lines[i].control {
          block, consumedUntil := BuildSemanticBlock(lines, i, structural);
        }
        BlockIsCounted(lines, counted, i, block);
        BlockAppended(blocks, block, Blocks(lines, LastOf(block) + 1));
        blocks := blocks + [block];
        counted := counted + Positions(block);
        i := if i < consumedUntil then consumedUntil else i;
      }
      i := i + 1;
    }
  }
}
