/** The brace-aware function scanner of app/code_detail/source_reader.py, on lines whose
    comments and literals are already blanked out. */
module FunctionExtraction {
  import opened FunctionLookup
  import opened Options
  import opened Sorting

  /** What the scanner looks at in one cleaned line. */
  datatype Line = Line(
    no: int,
    blank: bool,
    macro: bool,
    hasParen: bool,
    rejectedPrefix: bool,     // text before '(' starts with a keyword or is control flow
    openParens: nat,
    closeParens: nat,
    tailSemicolon: bool,      // ';' after the last ')'
    tailBrace: bool,          // '{' after the last ')'
    openBraces: nat,
    closeBraces: nat,
    semicolon: bool,
    breaksPrefix: bool)       // a line without '(' that cannot belong to a signature

  datatype State = Seeking | InSignature | WaitingForBody | InBody

  ghost predicate IncreasingNumbers(lines: seq<Line>) {
    forall i, j :: 0 <= i < j < |lines| ==> lines[i].no < lines[j].no
  }

  /** Running brace depth after the lines `lo .. hi - 1`. */
  ghost function Depth(lines: seq<Line>, lo: nat, hi: nat): int
    requires lo <= hi <= |lines|
    decreases hi
  {
    if lo == hi then 0
    else Depth(lines, lo, hi - 1) + lines[hi - 1].openBraces - lines[hi - 1].closeBraces
  }

  /** Where one function was found: signature start, body start and closing line. */
  datatype Found = Found(first: nat, body: nat, last: nat)

  /** `last` is the first line from `body` on at which the running depth is not positive. */
  ghost predicate ClosesAt(lines: seq<Line>, body: nat, last: nat) {
    && body <= last < |lines|
    && Depth(lines, body, last + 1) <= 0
    && StaysOpen(lines, body, last)
  }

  ghost predicate StaysOpen(lines: seq<Line>, body: nat, upTo: nat) {
    && body <= upTo <= |lines|
    && forall k :: body < k <= upTo ==> Depth(lines, body, k) > 0
  }

  ghost predicate IsFunction(lines: seq<Line>, fn: FunctionRange, w: Found) {
    && w.first <= w.body <= w.last < |lines|
    && fn == FunctionRange(lines[w.first].no, lines[w.last].no)
    && (lines[w.body].tailBrace || lines[w.body].openBraces > 0)
    && (ClosesAt(lines, w.body, w.last) || (w.last == |lines| - 1 && StaysOpen(lines, w.body, |lines|)))
  }

  /** The functions found so far are ordered and end before line index `limit`. */
  ghost predicate FoundBefore(lines: seq<Line>, fns: seq<FunctionRange>, found: seq<Found>, limit: nat) {
    && |fns| == |found|
    && (forall k :: 0 <= k < |fns| ==> IsFunction(lines, fns[k], found[k]))
    && (forall k :: 0 <= k < |fns| ==> found[k].last < limit)
    && (forall j, k :: 0 <= j < k < |fns| ==> found[j].last < found[k].first)
  }

  ghost predicate AfterFound(found: seq<Found>, first: nat) {
    forall k :: 0 <= k < |found| ==> found[k].last < first
  }

  /** The collected lines that may start a signature, as line indices. */
  ghost predicate Prefix(found: seq<Found>, candidates: seq<nat>, limit: nat) {
    forall k :: 0 <= k < |candidates| ==> candidates[k] < limit && AfterFound(found, candidates[k])
  }

  lemma AddFunction(lines: seq<Line>, fns: seq<FunctionRange>, found: seq<Found>, limit: nat, w: Found)
    requires FoundBefore(lines, fns, found, limit) && AfterFound(found, w.first)
    requires w.first <= w.body <= w.last < |lines| && limit <= w.last + 1
    requires lines[w.body].tailBrace || lines[w.body].openBraces > 0
    requires ClosesAt(lines, w.body, w.last) || (w.last == |lines| - 1 && StaysOpen(lines, w.body, |lines|))
    ensures FoundBefore(lines, fns + [FunctionRange(lines[w.first].no, lines[w.last].no)], found + [w], w.last + 1)
  {
  }

  // ---------------------------------------------------------------- what is to be found

  type Naming = (seq<Line>, Line) -> bool

  function LinesAt(lines: seq<Line>, at: seq<nat>): seq<Line> {
    seq(|at|, k requires 0 <= k < |at| => if at[k] < |lines| then lines[at[k]] else Line(0, true, false, false, false, 0, 0, false, false, 0, 0, false, false))
  }

  /** The line starts a signature, given the lines collected before it. */
  predicate StartsSignature(lines: seq<Line>, candidates: seq<nat>, line: Line, named: Naming) {
    !line.blank && !line.macro && line.hasParen && !line.rejectedPrefix
    && (named(LinesAt(lines, candidates), line) || named([], line))
  }

  /** The collected lines after a line that starts no signature. */
  function Collected(lines: seq<Line>, candidates: seq<nat>, i: nat): seq<nat>
    requires i < |lines|
  {
    var line := lines[i];
    if line.blank then candidates
    else if line.macro || line.hasParen || line.breaksPrefix then []
    else if candidates == [] then [i]
    else
      var last := candidates[|candidates| - 1];
      if last < |lines| && line.no - lines[last].no <= 2 then candidates + [i] else [i]
  }

  /** The line on which all parentheses are closed, or the end. */
  function SignatureEnd(lines: seq<Line>, i: nat, depth: int): (end: nat)
    ensures i <= |lines| ==> i <= end <= |lines|
    decreases |lines| - i
  {
    if i >= |lines| then i
    else if lines[i].macro then SignatureEnd(lines, i + 1, depth)
    else
      var after := depth + lines[i].openParens - lines[i].closeParens;
      if after <= 0 then i else SignatureEnd(lines, i + 1, after)
  }

  /** A signature leads to a body, or scanning resumes after it. */
  datatype Opening = Body(at: nat) | Resume(next: nat)

  /** The body's line below a signature: a declaration, or 30 lines without a brace, has none. */
  function BodyBelow(lines: seq<Line>, sigStart: nat, i: nat): (o: Opening)
    requires sigStart < |lines| && i <= |lines|
    ensures if o.Body? then i <= o.at < |lines| else i <= o.next <= |lines|
    decreases |lines| - i
  {
    if i == |lines| then Resume(i)
    else
      var line := lines[i];
      if line.blank || line.macro then BodyBelow(lines, sigStart, i + 1)
      else if line.semicolon && line.openBraces == 0 then Resume(i + 1)
      else if line.openBraces > 0 then Body(i)
      else if line.no - lines[sigStart].no > 30 then Resume(i + 1)
      else BodyBelow(lines, sigStart, i + 1)
  }

  function OpeningOf(lines: seq<Line>, sigStart: nat, i: nat, depth: int): (o: Opening)
    requires sigStart < |lines| && i <= |lines|
    ensures if o.Body? then i <= o.at < |lines| else i <= o.next <= |lines|
    ensures o.Resume? && i < |lines| ==> i < o.next
  {
    var end := SignatureEnd(lines, i, depth);
    if end == |lines| then Resume(end)
    else if lines[end].tailSemicolon then Resume(end + 1)
    else if lines[end].tailBrace then Body(end)
    else BodyBelow(lines, sigStart, end + 1)
  }

  /** The first line at which the running brace depth is not positive, or the end. */
  function CloseLine(lines: seq<Line>, i: nat, depth: int): (end: nat)
    ensures i <= |lines| ==> i <= end <= |lines|
    decreases |lines| - i
  {
    if i >= |lines| then i
    else
      var after := depth + lines[i].openBraces - lines[i].closeBraces;
      if after <= 0 then i else CloseLine(lines, i + 1, after)
  }

  /** The ranges found from line i on: find a signature, its body and its closing line, and
      continue behind it. */
  function FunctionsFrom(lines: seq<Line>, i: nat, candidates: seq<nat>, named: Naming): seq<FunctionRange>
    decreases |lines| - i
  {
    if i >= |lines| then []
    else if !StartsSignature(lines, candidates, lines[i], named) then
      FunctionsFrom(lines, i + 1, Collected(lines, candidates, i), named)
    else
      var sigStart := if candidates != [] && candidates[0] < |lines| then candidates[0] else i;
      match OpeningOf(lines, sigStart, i, 0)
      case Resume(next) => FunctionsFrom(lines, next, [], named)
      case Body(at) =>
        var end := CloseLine(lines, at, 0);
        if end < |lines| then
          [FunctionRange(lines[sigStart].no, lines[end].no)] + FunctionsFrom(lines, end + 1, [], named)
        else [FunctionRange(lines[sigStart].no, lines[|lines| - 1].no)]
  }

  function Closed(lines: seq<Line>, sigStart: nat, end: nat, named: Naming): seq<FunctionRange>
    requires sigStart < |lines|
  {
    if end < |lines| then [FunctionRange(lines[sigStart].no, lines[end].no)] + FunctionsFrom(lines, end + 1, [], named)
    else [FunctionRange(lines[sigStart].no, lines[|lines| - 1].no)]
  }

  function Opened(lines: seq<Line>, sigStart: nat, o: Opening, named: Naming): seq<FunctionRange>
    requires sigStart < |lines|
  {
    match o
    case Resume(next) => FunctionsFrom(lines, next, [], named)
    case Body(at) => Closed(lines, sigStart, CloseLine(lines, at, 0), named)
  }

  /** What follows from the line that closes the parentheses. */
  function AtTail(lines: seq<Line>, sigStart: nat, i: nat): Opening
    requires sigStart < |lines| && i < |lines|
  {
    if lines[i].tailSemicolon then Resume(i + 1)
    else if lines[i].tailBrace then Body(i)
    else BodyBelow(lines, sigStart, i + 1)
  }

  lemma SignatureStep(lines: seq<Line>, sigStart: nat, i: nat, depth: int)
    requires sigStart < |lines| && i < |lines|
    ensures var after := depth + lines[i].openParens - lines[i].closeParens;
      OpeningOf(lines, sigStart, i, depth)
      == if lines[i].macro then OpeningOf(lines, sigStart, i + 1, depth)
         else if after > 0 then OpeningOf(lines, sigStart, i + 1, after)
         else AtTail(lines, sigStart, i)
  {
  }

  lemma SeekStep(lines: seq<Line>, i: nat, candidates: seq<nat>, sigStart: nat, named: Naming)
    requires i < |lines| && sigStart == if candidates != [] && candidates[0] < |lines| then candidates[0] else i
    ensures var depth := lines[i].openParens - lines[i].closeParens;
      FunctionsFrom(lines, i, candidates, named)
      == if !StartsSignature(lines, candidates, lines[i], named) then
           FunctionsFrom(lines, i + 1, Collected(lines, candidates, i), named)
         else if depth > 0 then Opened(lines, sigStart, OpeningOf(lines, sigStart, i + 1, depth), named)
         else Opened(lines, sigStart, AtTail(lines, sigStart, i), named)
  {
    if StartsSignature(lines, candidates, lines[i], named) {
      SignatureStep(lines, sigStart, i, 0);
      hide SignatureEnd, BodyBelow, CloseLine;
    }
  }

  lemma BodyStep(lines: seq<Line>, sigStart: nat, i: nat, depth: int, named: Naming)
    requires sigStart < |lines| && i < |lines|
    ensures var after := depth + lines[i].openBraces - lines[i].closeBraces;
      Closed(lines, sigStart, CloseLine(lines, i, depth), named)
      == if after <= 0 then [FunctionRange(lines[sigStart].no, lines[i].no)] + FunctionsFrom(lines, i + 1, [], named)
         else Closed(lines, sigStart, CloseLine(lines, i + 1, after), named)
  {
  }

  lemma AtEnd(lines: seq<Line>, candidates: seq<nat>, sigStart: nat, depth: int, named: Naming)
    ensures FunctionsFrom(lines, |lines|, candidates, named) == []
    ensures sigStart < |lines| ==> OpeningOf(lines, sigStart, |lines|, depth) == Resume(|lines|)
    ensures sigStart < |lines| ==> BodyBelow(lines, sigStart, |lines|) == Resume(|lines|)
    ensures CloseLine(lines, |lines|, depth) == |lines|
  {
  }

  lemma WaitingStep(lines: seq<Line>, sigStart: nat, i: nat)
    requires sigStart < |lines| && i < |lines|
    ensures var line := lines[i];
      BodyBelow(lines, sigStart, i)
      == if line.blank || line.macro then BodyBelow(lines, sigStart, i + 1)
         else if line.semicolon && line.openBraces == 0 then Resume(i + 1)
         else if line.openBraces > 0 then Body(i)
         else if line.no - lines[sigStart].no > 30 then Resume(i + 1)
         else BodyBelow(lines, sigStart, i + 1)
  {
  }

  lemma FoundOne(fns: seq<FunctionRange>, f: FunctionRange, rest: seq<FunctionRange>)
    ensures fns + ([f] + rest) == (fns + [f]) + rest
  {
  }

  // ---------------------------------------------------------------- the same, on the lines alone

  /** A line of text that may belong to a signature before its parenthesis. */
  ghost predicate Plain(line: Line) {
    !line.blank && !line.macro && !line.hasParen && !line.breaksPrefix
  }

  /** Line x is the last one that is not blank of the lines lo .. i - 1. */
  ghost predicate LastText(lines: seq<Line>, lo: nat, i: nat, x: nat)
    requires i <= |lines|
  {
    lo <= x < i && !lines[x].blank && forall y: nat {:trigger lines[y]} :: x < y < i ==> lines[y].blank
  }

  /** The unbroken run of plain lines before line i, looking back no further than `lo`: at most two
      line numbers apart, nothing but blank lines in between and behind, as long as possible. */
  ghost predicate IsRun(lines: seq<Line>, lo: nat, i: nat, run: seq<nat>) {
    && lo <= i <= |lines|
    && (forall k :: 0 <= k < |run| ==> lo <= run[k] < i && Plain(lines[run[k]]))
    && (forall j, k :: 0 <= j < k < |run| ==> run[j] < run[k])
    && (forall k :: 0 < k < |run| ==> lines[run[k]].no - lines[run[k - 1]].no <= 2)
    && (run != [] ==> forall x: nat :: run[0] <= x < i && !lines[x].blank ==> x in run)
    && (forall x: nat :: LastText(lines, lo, if run == [] then i else run[0], x) ==>
          !Plain(lines[x]) || (run != [] && lines[run[0]].no - lines[x].no > 2))
  }

  /** Line i heads a signature: it has a parenthesis with nothing against it before, and a name can
      be read from it, with or without the run of plain lines before it. */
  ghost predicate Heads(lines: seq<Line>, run: seq<nat>, i: nat, named: Naming)
    requires i < |lines| && forall k :: 0 <= k < |run| ==> run[k] < |lines|
  {
    && !lines[i].blank && !lines[i].macro && lines[i].hasParen && !lines[i].rejectedPrefix
    && (named(seq(|run|, k requires 0 <= k < |run| => lines[run[k]]), lines[i]) || named([], lines[i]))
  }

  ghost predicate NoHead(lines: seq<Line>, lo: nat, i: nat, named: Naming)
    requires i < |lines|
  {
    exists run :: IsRun(lines, lo, i, run) && !Heads(lines, run, i, named)
  }

  ghost predicate NoHeadIn(lines: seq<Line>, lo: nat, hi: nat, named: Naming)
    requires hi <= |lines|
  {
    forall i :: lo <= i < hi ==> NoHead(lines, lo, i, named)
  }

  /** Running parenthesis depth after the lines `lo .. hi - 1`; macros do not count. */
  ghost function ParenDepth(lines: seq<Line>, lo: nat, hi: nat): int
    requires lo <= hi <= |lines|
    decreases hi
  {
    if lo == hi then 0
    else
      ParenDepth(lines, lo, hi - 1)
      + if lines[hi - 1].macro then 0 else lines[hi - 1].openParens - lines[hi - 1].closeParens
  }

  /** On no line from `start` to `upTo` - 1 are the parentheses closed. */
  ghost predicate ParensOpen(lines: seq<Line>, start: nat, upTo: nat) {
    && start <= upTo <= |lines|
    && forall k: nat {:trigger lines[k].macro} :: start <= k < upTo && !lines[k].macro ==> ParenDepth(lines, start, k + 1) > 0
  }

  /** Line s is the first one on which the signature's parentheses are closed. */
  ghost predicate ParensClose(lines: seq<Line>, start: nat, s: nat) {
    && start <= s < |lines| && !lines[s].macro && ParenDepth(lines, start, s + 1) <= 0
    && ParensOpen(lines, start, s)
  }

  /** The search for a body goes on after this line. */
  ghost predicate Waits(lines: seq<Line>, first: nat, k: nat)
    requires first < |lines| && k < |lines|
  {
    || lines[k].blank || lines[k].macro
    || (lines[k].openBraces == 0 && !lines[k].semicolon && lines[k].no - lines[first].no <= 30)
  }

  ghost predicate WaitsUntil(lines: seq<Line>, first: nat, s: nat, upTo: nat) {
    && first < |lines| && s < upTo <= |lines|
    && forall k: nat :: s < k < upTo ==> Waits(lines, first, k)
  }

  /** Line s closes the parentheses and does not end a declaration; the body begins on that line,
      or on the first line with a brace if no declaration ends and 30 lines do not pass before. */
  ghost predicate LeadsTo(lines: seq<Line>, first: nat, s: nat, body: nat) {
    && s < |lines| && !lines[s].tailSemicolon
    && if lines[s].tailBrace then body == s
       else WaitsUntil(lines, first, s, body) && body < |lines| && !lines[body].blank && !lines[body].macro
            && lines[body].openBraces > 0
  }

  /** Line s closes the parentheses and no body follows; the search goes on at `next`. */
  ghost predicate LeadsNowhere(lines: seq<Line>, first: nat, s: nat, next: nat) {
    && s < |lines| && s < next <= |lines|
    && if lines[s].tailSemicolon then next == s + 1
       else
         && !lines[s].tailBrace
         && ((next == |lines| && WaitsUntil(lines, first, s, next))
             || (s + 1 < next && WaitsUntil(lines, first, s, next - 1) && !Waits(lines, first, next - 1)
                 && lines[next - 1].openBraces == 0))
  }

  datatype Ending = HasBody(body: nat, last: nat) | NoBody(next: nat)

  /** One signature: where the search for it began, the run before its head line, the head line,
      and the line on which its parentheses close. */
  datatype Signature = Signature(origin: nat, run: seq<nat>, head: nat, close: nat, ending: Ending) {
    function First(): nat {
      if run == [] then head else run[0]
    }

    function Next(): nat {
      match ending
      case HasBody(_, last) => last + 1
      case NoBody(next) => next
    }
  }

  /** What follows from the line that closes the parentheses. */
  ghost predicate EndsThere(lines: seq<Line>, first: nat, close: nat, e: Ending) {
    match e
    case HasBody(body, last) =>
      LeadsTo(lines, first, close, body)
      && (ClosesAt(lines, body, last) || (last == |lines| - 1 && StaysOpen(lines, body, |lines|)))
    case NoBody(next) => LeadsNowhere(lines, first, close, next)
  }

  function EndingOf(lines: seq<Line>, o: Opening): Ending {
    match o
    case Resume(next) => NoBody(next)
    case Body(at) =>
      HasBody(at, if CloseLine(lines, at, 0) < |lines| then CloseLine(lines, at, 0) else AtLeastZero(|lines| - 1))
  }

  function AtLeastZero(n: int): nat {
    if n < 0 then 0 else n
  }

  /** The signature is the first one from its origin on, and ends as it says. */
  ghost predicate IsSignature(lines: seq<Line>, g: Signature, named: Naming) {
    && IsRun(lines, g.origin, g.head, g.run) && g.head < |lines|
    && NoHeadIn(lines, g.origin, g.head, named) && Heads(lines, g.run, g.head, named)
    && if g.close < |lines| then ParensClose(lines, g.head, g.close) && EndsThere(lines, g.First(), g.close, g.ending)
       else ParensOpen(lines, g.head, |lines|) && g.ending == NoBody(|lines|)
  }

  /** The signatures from line `origin` on, one behind the other, none left out: exactly those that
      lead to a body are the functions. */
  ghost predicate Explains(lines: seq<Line>, origin: nat, named: Naming, signatures: seq<Signature>, fns: seq<FunctionRange>)
    decreases |signatures|
  {
    && origin <= |lines|
    && if signatures == [] then fns == [] && NoHeadIn(lines, origin, |lines|, named)
       else
         var g := signatures[0];
         && g.origin == origin && IsSignature(lines, g, named)
         && (if g.ending.NoBody? then Explains(lines, g.Next(), named, signatures[1..], fns)
             else
               && fns != [] && g.ending.last < |lines|
               && fns[0] == FunctionRange(lines[g.First()].no, lines[g.ending.last].no)
               && Explains(lines, g.Next(), named, signatures[1..], fns[1..]))
  }

  lemma EmptyRun(lines: seq<Line>, lo: nat)
    requires lo <= |lines|
    ensures IsRun(lines, lo, lo, [])
  {
  }

  lemma RunPastBlank(lines: seq<Line>, lo: nat, i: nat, run: seq<nat>)
    requires IsRun(lines, lo, i, run) && i < |lines| && lines[i].blank
    ensures IsRun(lines, lo, i + 1, run)
  {
    hide Plain;
    var n := i + 1;
    forall x: nat | LastText(lines, lo, n, x)
      ensures x < i && LastText(lines, lo, i, x)
    {
    }
  }

  lemma RunBreaks(lines: seq<Line>, lo: nat, i: nat)
    requires lo <= i < |lines| && !lines[i].blank && !Plain(lines[i])
    ensures IsRun(lines, lo, i + 1, [])
  {
    hide Plain;
    var n := i + 1;
    forall x: nat | LastText(lines, lo, n, x)
      ensures x == i
    {
    }
  }

  lemma RunStarts(lines: seq<Line>, lo: nat, i: nat, run: seq<nat>)
    requires IsRun(lines, lo, i, run) && i < |lines| && Plain(lines[i])
    requires run != [] ==> lines[i].no - lines[run[|run| - 1]].no > 2
    ensures IsRun(lines, lo, i + 1, [i])
  {
    hide Plain;
    var next := [i];
    forall x: nat | LastText(lines, lo, i, x)
      ensures !Plain(lines[x]) || lines[i].no - lines[x].no > 2
    {
      if run != [] {
        LastOfRun(lines, lo, i, run, x);
      }
    }
  }

  /** The last line of text before line i is the last of the run. */
  lemma LastOfRun(lines: seq<Line>, lo: nat, i: nat, run: seq<nat>, x: nat)
    requires IsRun(lines, lo, i, run) && run != [] && LastText(lines, lo, i, x)
    ensures x == run[|run| - 1]
  {
    var last := run[|run| - 1];
    assert Plain(lines[last]);
    assert run[0] <= last;
    assert x > last ==> x in run;
  }

  lemma RunGrows(lines: seq<Line>, lo: nat, i: nat, run: seq<nat>)
    requires IsRun(lines, lo, i, run) && i < |lines| && Plain(lines[i])
    requires run != [] && lines[i].no - lines[run[|run| - 1]].no <= 2
    ensures IsRun(lines, lo, i + 1, run + [i])
  {
    hide Plain;
    var next := run + [i];
    forall x: nat | next[0] <= x < i + 1 && !lines[x].blank
      ensures x in next
    {
      assert x < i ==> x in run;
    }
  }

  /** The collected lines are the run. */
  lemma CollectedIsRun(lines: seq<Line>, lo: nat, i: nat, run: seq<nat>)
    requires IsRun(lines, lo, i, run) && i < |lines|
    ensures IsRun(lines, lo, i + 1, Collected(lines, run, i))
  {
    hide IsRun;
    RunInFile(lines, lo, i, run);
    if lines[i].blank {
      RunPastBlank(lines, lo, i, run);
    } else if lines[i].macro || lines[i].hasParen || lines[i].breaksPrefix {
      RunBreaks(lines, lo, i);
    } else if run != [] && lines[i].no - lines[run[|run| - 1]].no <= 2 {
      RunGrows(lines, lo, i, run);
    } else {
      RunStarts(lines, lo, i, run);
    }
  }

  lemma RunInFile(lines: seq<Line>, lo: nat, i: nat, run: seq<nat>)
    requires IsRun(lines, lo, i, run)
    ensures lo <= i <= |lines| && forall k :: 0 <= k < |run| ==> lo <= run[k] < i
  {
  }

  /** The conditions leave no freedom: there is one run before a line. */
  lemma RunIsUnique(lines: seq<Line>, lo: nat, i: nat, a: seq<nat>, b: seq<nat>)
    requires IsRun(lines, lo, i, a) && IsRun(lines, lo, i, b)
    ensures a == b
  {
    if a == [] && b != [] {
      LastIsText(lines, lo, i, b);
    } else if b == [] && a != [] {
      LastIsText(lines, lo, i, a);
    } else if a != [] && b != [] {
      RunsBeginTogether(lines, lo, i, a, b);
      RunsBeginTogether(lines, lo, i, b, a);
      SameRun(lines, lo, i, a, b);
    }
  }

  lemma LastIsText(lines: seq<Line>, lo: nat, i: nat, run: seq<nat>)
    requires IsRun(lines, lo, i, run) && run != []
    ensures LastText(lines, lo, i, run[|run| - 1]) && Plain(lines[run[|run| - 1]])
  {
    var last := run[|run| - 1];
    assert Plain(lines[last]) && run[0] <= last;
    forall y: nat | last < y < i
      ensures lines[y].blank
    {
      assert !lines[y].blank ==> y in run;
    }
  }

  lemma RunsBeginTogether(lines: seq<Line>, lo: nat, i: nat, a: seq<nat>, b: seq<nat>)
    requires IsRun(lines, lo, i, a) && IsRun(lines, lo, i, b) && a != [] && b != []
    ensures b[0] <= a[0]
  {
    if a[0] < b[0] {
      assert Plain(lines[b[0]]);
      assert b[0] in a;
      var k :| 0 <= k < |a| && a[k] == b[0];
      RunNeighbours(lines, lo, i, a, k);
    }
  }

  lemma RunNeighbours(lines: seq<Line>, lo: nat, i: nat, run: seq<nat>, k: nat)
    requires IsRun(lines, lo, i, run) && 0 < k < |run|
    ensures LastText(lines, lo, run[k], run[k - 1]) && Plain(lines[run[k - 1]])
    ensures lines[run[k]].no - lines[run[k - 1]].no <= 2
  {
    assert Plain(lines[run[k - 1]]) && run[0] <= run[k - 1];
    forall y: nat | run[k - 1] < y < run[k]
      ensures lines[y].blank
    {
      assert !lines[y].blank ==> y in run;
    }
  }

  lemma SameRun(lines: seq<Line>, lo: nat, i: nat, a: seq<nat>, b: seq<nat>)
    requires IsRun(lines, lo, i, a) && IsRun(lines, lo, i, b) && a != [] && b != [] && a[0] == b[0]
    ensures a == b
  {
    forall x
      ensures x in a <==> x in b
    {
      if x in a {
        assert Plain(lines[x]);
      }
      if x in b {
        assert Plain(lines[x]);
      }
    }
    IncreasingIsCanonical(a, b);
  }

  lemma HeadsIsStart(lines: seq<Line>, lo: nat, i: nat, run: seq<nat>, named: Naming)
    requires IsRun(lines, lo, i, run) && i < |lines|
    ensures Heads(lines, run, i, named) <==> StartsSignature(lines, run, lines[i], named)
  {
    assert LinesAt(lines, run) == seq(|run|, k requires 0 <= k < |run| => lines[run[k]]);
  }

  lemma {:induction false} SignatureEndCloses(lines: seq<Line>, start: nat, i: nat, depth: int)
    requires ParensOpen(lines, start, i) && depth == ParenDepth(lines, start, i)
    ensures var end := SignatureEnd(lines, i, depth);
      if end < |lines| then ParensClose(lines, start, end) else ParensOpen(lines, start, |lines|)
    decreases |lines| - i
  {
    if i < |lines| {
      if lines[i].macro {
        SignatureEndCloses(lines, start, i + 1, depth);
      } else {
        var after := depth + lines[i].openParens - lines[i].closeParens;
        assert ParenDepth(lines, start, i + 1) == after;
        if after > 0 {
          SignatureEndCloses(lines, start, i + 1, after);
        }
      }
    }
  }

  lemma {:induction false} BodyBelowLeads(lines: seq<Line>, first: nat, s: nat, i: nat)
    requires WaitsUntil(lines, first, s, i) && !lines[s].tailSemicolon && !lines[s].tailBrace
    ensures match BodyBelow(lines, first, i)
      case Body(at) => LeadsTo(lines, first, s, at)
      case Resume(next) => LeadsNowhere(lines, first, s, next)
    decreases |lines| - i
  {
    if i < |lines| && Waits(lines, first, i) {
      BodyBelowLeads(lines, first, s, i + 1);
    }
  }

  lemma {:induction false} CloseLineCloses(lines: seq<Line>, body: nat, i: nat, depth: int)
    requires StaysOpen(lines, body, i) && depth == Depth(lines, body, i)
    ensures var end := CloseLine(lines, i, depth);
      if end < |lines| then ClosesAt(lines, body, end) else StaysOpen(lines, body, |lines|)
    decreases |lines| - i
  {
    if i < |lines| {
      var after := depth + lines[i].openBraces - lines[i].closeBraces;
      assert Depth(lines, body, i + 1) == after;
      if after > 0 {
        CloseLineCloses(lines, body, i + 1, after);
      }
    }
  }

  /** What the recursive description finds behind a head line. */
  lemma SignatureAt(lines: seq<Line>, lo: nat, run: seq<nat>, i: nat, named: Naming) returns (g: Signature)
    requires IsRun(lines, lo, i, run) && i < |lines| && NoHeadIn(lines, lo, i, named) && Heads(lines, run, i, named)
    ensures g.origin == lo && g.run == run && g.head == i && IsSignature(lines, g, named)
    ensures g.ending == EndingOf(lines, OpeningOf(lines, g.First(), i, 0))
  {
    RunInFile(lines, lo, i, run);
    var first := if run == [] then i else run[0];
    var close := SignatureEnd(lines, i, 0);
    SignatureEndCloses(lines, i, i, 0);
    var ending := EndingAt(lines, first, i, close);
    hide IsRun, NoHeadIn, Heads, LeadsTo, LeadsNowhere, ParensClose, ParensOpen, SignatureEnd, ClosesAt, StaysOpen, OpeningOf, CloseLine;
    g := Signature(lo, run, i, close, ending);
  }

  lemma EndingAt(lines: seq<Line>, first: nat, i: nat, close: nat) returns (e: Ending)
    requires first < |lines| && i < |lines| && close == SignatureEnd(lines, i, 0)
    ensures e == EndingOf(lines, OpeningOf(lines, first, i, 0))
    ensures if close < |lines| then EndsThere(lines, first, close, e) else e == NoBody(|lines|)
  {
    if close < |lines| && !lines[close].tailSemicolon && !lines[close].tailBrace {
      BodyBelowLeads(lines, first, close, close + 1);
    }
    var o := OpeningOf(lines, first, i, 0);
    if o.Body? {
      CloseLineCloses(lines, o.at, o.at, 0);
    }
    e := EndingOf(lines, o);
  }

  /** The functions of the recursive description are exactly those of the signatures. */
  lemma {:induction false} FunctionsExplained(lines: seq<Line>, lo: nat, i: nat, run: seq<nat>, named: Naming)
    returns (signatures: seq<Signature>)
    requires IsRun(lines, lo, i, run) && NoHeadIn(lines, lo, i, named)
    ensures Explains(lines, lo, named, signatures, FunctionsFrom(lines, i, run, named))
    decreases |lines| - i
  {
    hide IsRun, Heads, IsSignature, OpeningOf, CloseLine, LinesAt, StartsSignature, Collected, Explains, FunctionsFrom;
    RunInFile(lines, lo, i, run);
    if i == |lines| {
      signatures := [];
      NoneLeft(lines, lo, run, named);
    } else {
      HeadsIsStart(lines, lo, i, run, named);
      if Heads(lines, run, i, named) {
        var g := SignatureAt(lines, lo, run, i, named);
        SignatureFound(lines, run, i, g, named);
        var next := g.Next();
        EmptyRun(lines, next);
        var rest := FunctionsExplained(lines, next, next, [], named);
        signatures := [g] + rest;
        OneExplained(lines, g, rest, FunctionsFrom(lines, next, [], named), named);
      } else {
        CollectedIsRun(lines, lo, i, run);
        NoHeadHere(lines, lo, i, run, named);
        LinePassed(lines, i, run, named);
        signatures := FunctionsExplained(lines, lo, i + 1, Collected(lines, run, i), named);
      }
    }
  }

  lemma NoneLeft(lines: seq<Line>, lo: nat, run: seq<nat>, named: Naming)
    requires lo <= |lines| && NoHeadIn(lines, lo, |lines|, named)
    ensures Explains(lines, lo, named, [], FunctionsFrom(lines, |lines|, run, named))
  {
  }

  lemma LinePassed(lines: seq<Line>, i: nat, run: seq<nat>, named: Naming)
    requires i < |lines| && !StartsSignature(lines, run, lines[i], named)
    ensures FunctionsFrom(lines, i, run, named) == FunctionsFrom(lines, i + 1, Collected(lines, run, i), named)
  {
  }

  /** What the recursive description yields for one signature. */
  lemma SignatureFound(lines: seq<Line>, run: seq<nat>, i: nat, g: Signature, named: Naming)
    requires i < |lines| && StartsSignature(lines, run, lines[i], named) && g.run == run && g.head == i
    requires forall k :: 0 <= k < |run| ==> run[k] < i
    requires g.ending == EndingOf(lines, OpeningOf(lines, g.First(), i, 0))
    ensures i < g.Next() <= |lines| && (g.ending.HasBody? ==> g.ending.last < |lines|)
    ensures var rest := FunctionsFrom(lines, g.Next(), [], named);
      FunctionsFrom(lines, i, run, named)
      == if g.ending.NoBody? then rest
         else [FunctionRange(lines[g.First()].no, lines[g.ending.last].no)] + rest
  {
    hide LinesAt, StartsSignature, Collected, BodyBelow, SignatureEnd;
    AtEnd(lines, [], 0, 0, named);
  }

  lemma OneExplained(lines: seq<Line>, g: Signature, rest: seq<Signature>, fns: seq<FunctionRange>, named: Naming)
    requires g.origin <= |lines| && IsSignature(lines, g, named) && g.First() < |lines|
    requires g.ending.HasBody? ==> g.ending.last < |lines|
    requires Explains(lines, g.Next(), named, rest, fns)
    ensures Explains(lines, g.origin, named, [g] + rest,
                     if g.ending.NoBody? then fns else [FunctionRange(lines[g.First()].no, lines[g.ending.last].no)] + fns)
  {
    hide IsSignature;
    assert ([g] + rest)[1..] == rest;
    if g.ending.HasBody? {
      var f := FunctionRange(lines[g.First()].no, lines[g.ending.last].no);
      assert ([f] + fns)[1..] == fns;
    }
  }

  lemma NoHeadHere(lines: seq<Line>, lo: nat, i: nat, run: seq<nat>, named: Naming)
    requires IsRun(lines, lo, i, run) && i < |lines| && !Heads(lines, run, i, named) && NoHeadIn(lines, lo, i, named)
    ensures NoHeadIn(lines, lo, i + 1, named)
  {
    hide IsRun, Heads;
    assert NoHead(lines, lo, i, named);
  }

  // ---------------------------------------------------------------- the scanner

  datatype Scanner = Scanner(state: State, sigStart: nat, parenDepth: int, braceDepth: int, candidates: seq<nat>)

  /** What the scanner knows before line i. */
  ghost predicate Scanning(lines: seq<Line>, s: Scanner, found: seq<Found>, body: nat, i: nat) {
    && i <= |lines|
    && (s.state.Seeking? ==> Prefix(found, s.candidates, i))
    && (!s.state.Seeking? ==> s.candidates == [] && s.sigStart < i && AfterFound(found, s.sigStart))
    && (s.state.InBody? ==>
          && s.sigStart <= body < i && StaysOpen(lines, body, i) && s.braceDepth == Depth(lines, body, i)
          && (lines[body].tailBrace || lines[body].openBraces > 0))
  }

  /** What remains to be found from a state of the scanner. */
  function Remaining(lines: seq<Line>, s: Scanner, i: nat, named: Naming): seq<FunctionRange>
    requires i <= |lines| && (!s.state.Seeking? ==> s.sigStart < |lines|)
  {
    match s.state
    case Seeking => FunctionsFrom(lines, i, s.candidates, named)
    case InSignature => Opened(lines, s.sigStart, OpeningOf(lines, s.sigStart, i, s.parenDepth), named)
    case WaitingForBody => Opened(lines, s.sigStart, BodyBelow(lines, s.sigStart, i), named)
    case InBody => Closed(lines, s.sigStart, CloseLine(lines, i, s.braceDepth), named)
  }

  /** A line that starts no signature: it may belong to the next one. */
  method CollectLine(lines: seq<Line>, candidates: seq<nat>, i: nat, ghost found: seq<Found>) returns (collected: seq<nat>)
    requires i < |lines| && Prefix(found, candidates, i) && AfterFound(found, i)
    ensures collected == Collected(lines, candidates, i) && Prefix(found, collected, i + 1)
  {
    var line := lines[i];
    if line.blank {
      collected := candidates;
    } else if line.macro || line.hasParen || line.breaksPrefix {
      collected := [];
    } else if candidates == [] || line.no - lines[candidates[|candidates| - 1]].no <= 2 {
      collected := candidates + [i];
    } else {
      collected := [i];
    }
  }

  /** One line while seeking; `opens` says that the body starts on this very line. */
  method Seek(lines: seq<Line>, s: Scanner, i: nat, named: Naming, ghost found: seq<Found>)
    returns (t: Scanner, opens: bool)
    requires i < |lines| && s.state.Seeking? && Prefix(found, s.candidates, i) && AfterFound(found, i)
    ensures opens ==> t.sigStart <= i && AfterFound(found, t.sigStart) && lines[i].tailBrace && t.candidates == []
                      && Remaining(lines, s, i, named) == Closed(lines, t.sigStart, CloseLine(lines, i, 0), named)
    ensures !opens ==> Scanning(lines, t, found, 0, i + 1) && !t.state.InBody?
                       && Remaining(lines, t, i + 1, named) == Remaining(lines, s, i, named)
  {
    var line := lines[i];
    t, opens := s, false;
    SeekStep(lines, i, s.candidates, if s.candidates != [] then s.candidates[0] else i, named);
    hide FunctionsFrom, OpeningOf, BodyBelow, CloseLine, Closed, LinesAt, Collected;
    if line.blank || line.macro || !line.hasParen || line.rejectedPrefix
       || !(named(LinesAt(lines, s.candidates), line) || named([], line)) {
      var collected := CollectLine(lines, s.candidates, i, found);
      t := t.(candidates := collected);
    } else {
      t := t.(sigStart := if s.candidates != [] then s.candidates[0] else i, candidates := [],
              parenDepth := line.openParens - line.closeParens);
      if t.parenDepth > 0 {
        t := t.(state := InSignature);
      } else if line.tailSemicolon {
      } else if line.tailBrace {
        opens := true;
      } else {
        t := t.(state := WaitingForBody);
      }
    }
  }

  /** One line inside a signature. */
  method ReadSignature(lines: seq<Line>, s: Scanner, i: nat, named: Naming, ghost found: seq<Found>)
    returns (t: Scanner, opens: bool)
    requires i < |lines| && s.state.InSignature? && Scanning(lines, s, found, 0, i) && AfterFound(found, i)
    ensures opens ==> t.sigStart == s.sigStart && lines[i].tailBrace && t.candidates == []
                      && Remaining(lines, s, i, named) == Closed(lines, t.sigStart, CloseLine(lines, i, 0), named)
    ensures !opens ==> Scanning(lines, t, found, 0, i + 1) && !t.state.InBody?
                       && Remaining(lines, t, i + 1, named) == Remaining(lines, s, i, named)
  {
    var line := lines[i];
    t, opens := s, false;
    SignatureStep(lines, s.sigStart, i, s.parenDepth);
    hide FunctionsFrom, OpeningOf, BodyBelow, CloseLine, Closed;
    if !line.macro {
      t := t.(parenDepth := s.parenDepth + line.openParens - line.closeParens);
      if t.parenDepth <= 0 {
        if line.tailSemicolon {
          t := t.(state := Seeking);
        } else if line.tailBrace {
          opens := true;
        } else {
          t := t.(state := WaitingForBody);
        }
      }
    }
  }

  /** One line between a signature and its body. */
  method AwaitBody(lines: seq<Line>, s: Scanner, i: nat, named: Naming, ghost found: seq<Found>)
    returns (t: Scanner, opens: bool)
    requires i < |lines| && s.state.WaitingForBody? && Scanning(lines, s, found, 0, i) && AfterFound(found, i)
    ensures opens ==> t.sigStart == s.sigStart && lines[i].openBraces > 0 && t.candidates == []
                      && Remaining(lines, s, i, named) == Closed(lines, t.sigStart, CloseLine(lines, i, 0), named)
    ensures !opens ==> Scanning(lines, t, found, 0, i + 1) && !t.state.InBody?
                       && Remaining(lines, t, i + 1, named) == Remaining(lines, s, i, named)
  {
    var line := lines[i];
    t, opens := s, false;
    WaitingStep(lines, s.sigStart, i);
    hide FunctionsFrom, OpeningOf, BodyBelow, CloseLine, Closed;
    if line.blank || line.macro {
    } else if line.semicolon && line.openBraces == 0 {
      t := t.(state := Seeking);
    } else if line.openBraces > 0 {
      opens := true;
    } else if line.no - lines[s.sigStart].no > 30 {
      t := t.(state := Seeking);
    }
  }

  lemma BodyBegins(lines: seq<Line>, i: nat)
    requires i < |lines|
    ensures Depth(lines, i, i) == 0 && StaysOpen(lines, i, i)
  {
  }

  lemma NothingCollected()
    ensures forall found, limit :: Prefix(found, [], limit)
  {
  }

  lemma LimitGrows(lines: seq<Line>, fns: seq<FunctionRange>, found: seq<Found>, i: nat)
    requires FoundBefore(lines, fns, found, i)
    ensures FoundBefore(lines, fns, found, i + 1) && AfterFound(found, i)
  {
  }

  /** extract_c_function_ranges: `named` says whether a name can be read from the collected
      prefix lines and the current line.  The line-by-line scanner finds exactly the functions
      of the recursive description, which are those of the signatures in the file that lead to a
      body; each one runs from the first line of its signature to the first body line at which the
      brace depth is not positive, or to the end of the file. */
  method ExtractFunctionRanges(lines: seq<Line>, named: Naming)
    returns (fns: seq<FunctionRange>, ghost found: seq<Found>, ghost signatures: seq<Signature>)
    ensures fns == FunctionsFrom(lines, 0, [], named)
    ensures FoundBefore(lines, fns, found, |lines|)
    ensures Explains(lines, 0, named, signatures, fns)
  {
    hide FunctionsFrom, OpeningOf, BodyBelow, CloseLine, IsFunction, Prefix, Explains, IsRun;
    EmptyRun(lines, 0);
    signatures := FunctionsExplained(lines, 0, 0, [], named);
    fns, found := [], [];
    var s := Scanner(Seeking, 0, 0, 0, []);
    NothingCollected();
    ghost var body: nat := 0;
    for i := 0 to |lines|
      invariant FoundBefore(lines, fns, found, i) && Scanning(lines, s, found, body, i)
      invariant fns + Remaining(lines, s, i, named) == FunctionsFrom(lines, 0, [], named)
    {
      fns, s, found, body := ScanLine(lines, fns, s, i, named, found, body);
    }
    AtEnd(lines, s.candidates, s.sigStart, if s.state.InBody? then s.braceDepth else s.parenDepth, named);
    if s.state.InBody? && |lines| > 0 {
      AddFunction(lines, fns, found, |lines|, Found(s.sigStart, body, |lines| - 1));
      fns := fns + [FunctionRange(lines[s.sigStart].no, lines[|lines| - 1].no)];
      found := found + [Found(s.sigStart, body, |lines| - 1)];
    }
  }

  method ScanLine(lines: seq<Line>, fns: seq<FunctionRange>, s: Scanner, i: nat, named: Naming,
                  ghost found: seq<Found>, ghost body: nat)
    returns (fnsAfter: seq<FunctionRange>, t: Scanner, ghost foundAfter: seq<Found>, ghost bodyAfter: nat)
    requires i < |lines| && FoundBefore(lines, fns, found, i) && Scanning(lines, s, found, body, i)
    ensures FoundBefore(lines, fnsAfter, foundAfter, i + 1) && Scanning(lines, t, foundAfter, bodyAfter, i + 1)
    ensures fnsAfter + Remaining(lines, t, i + 1, named) == fns + Remaining(lines, s, i, named)
  {
    LimitGrows(lines, fns, found, i);
    hide FunctionsFrom, OpeningOf, BodyBelow, CloseLine, Closed, FoundBefore, AfterFound, Prefix, StaysOpen;
    fnsAfter, foundAfter, bodyAfter := fns, found, body;
    var opens := false;
    match s.state {
      case Seeking => t, opens := Seek(lines, s, i, named, found);
      case InSignature => t, opens := ReadSignature(lines, s, i, named, found);
      case WaitingForBody => t, opens := AwaitBody(lines, s, i, named, found);
      case InBody => t := s;
    }
    if opens {
      BodyBegins(lines, i);
      fnsAfter, t, foundAfter := ReadBody(lines, fns, t, i, 0, named, found, i);
      bodyAfter := i;
    } else if s.state.InBody? {
      fnsAfter, t, foundAfter := ReadBody(lines, fns, t, i, s.braceDepth, named, found, body);
    }
  }

  /** One line of a body: the function ends where the brace depth is not positive. */
  method ReadBody(lines: seq<Line>, fns: seq<FunctionRange>, s: Scanner, i: nat, depth: int, named: Naming,
                  ghost found: seq<Found>, ghost body: nat)
    returns (fnsAfter: seq<FunctionRange>, t: Scanner, ghost foundAfter: seq<Found>)
    requires FoundBefore(lines, fns, found, i) && AfterFound(found, s.sigStart) && s.candidates == []
    requires s.sigStart <= body <= i < |lines| && StaysOpen(lines, body, i) && depth == Depth(lines, body, i)
    requires lines[body].tailBrace || lines[body].openBraces > 0
    ensures FoundBefore(lines, fnsAfter, foundAfter, i + 1) && Scanning(lines, t, foundAfter, body, i + 1)
    ensures fnsAfter + Remaining(lines, t, i + 1, named) == fns + Closed(lines, s.sigStart, CloseLine(lines, i, depth), named)
  {
    hide IsFunction, IsRun, LinesAt, Prefix;
    fnsAfter, foundAfter := fns, found;
    NothingCollected();
    LimitGrows(lines, fns, found, i);
    t := s.(braceDepth := depth + lines[i].openBraces - lines[i].closeBraces);
    BodyStep(lines, s.sigStart, i, depth, named);
    hide FunctionsFrom, OpeningOf, BodyBelow, CloseLine, Closed, FoundBefore;
    if t.braceDepth <= 0 {
      var f := FunctionRange(lines[s.sigStart].no, lines[i].no);
      AddFunction(lines, fns, found, i, Found(s.sigStart, body, i));
      FoundOne(fns, f, FunctionsFrom(lines, i + 1, [], named));
      fnsAfter := fns + [f];
      foundAfter := found + [Found(s.sigStart, body, i)];
      t := t.(state := Seeking);
    } else {
      t := t.(state := InBody);
    }
  }

  /** On increasing line numbers the scanner's ranges are disjoint, so all three lookups
      (sweep, bisect, "the function that contains the line") agree on them. */
  lemma ExtractedRangesAreDisjoint(lines: seq<Line>, fns: seq<FunctionRange>, found: seq<Found>, line: int)
    requires IncreasingNumbers(lines) && FoundBefore(lines, fns, found, |lines|)
    ensures PairwiseDisjoint(fns) && SortedByStart(fns)
    ensures forall k :: 0 <= k < |fns| ==> fns[k].start <= fns[k].end
    ensures forall f :: FindFunctionContainingLine(line, fns) == Some(f) <==> f in fns && f.Contains(line)
    ensures FindFunctionContainingLine(line, fns).None? <==> forall f :: f in fns ==> !f.Contains(line)
  {
    forall k | 0 <= k < |fns|
      ensures fns[k].start <= fns[k].end
    {
      assert IsFunction(lines, fns[k], found[k]);
    }
    forall j, k | 0 <= j < k < |fns|
      ensures fns[j].end < fns[k].start
    {
      assert IsFunction(lines, fns[j], found[j]) && IsFunction(lines, fns[k], found[k]);
      assert found[j].last < found[k].first;
    }
    LookupFindsTheUniqueFunction(line, fns);
  }
}
