/** Bounded-concurrency streaming of a large region: workers fetch chunks out of order, one
    emitter hands them on in order (coverage_enhance.js, CodeRegionLoader.loadRegion), as a
    transition system over the stretches of code between two awaits. */
module ChunkStreaming {
  import opened Counting
  import opened Options

  type Line(==, !new)

  const NETWORK_CHUNK_LINES := 2000
  const MAX_CHUNK_CONCURRENCY := 3

  datatype Worker = Ready | Fetching(task: nat) | Exited

  datatype Emitter =
    | Emitting
    | Reporting
    | Joining
    | Loaded
    | Superseded
    | Failed(reporting: bool)

  /** `answers` records what the server answered and `takenBy` which worker took which chunk;
      `generation` counts the changes since the load began. */
  datatype State = State(
    generation: nat, nextTask: nat, results: map<nat, seq<Line>>, fetchError: Option<nat>,
    nextEmit: nat, allLines: seq<Line>, workers: seq<Worker>, emitter: Emitter,
    loaded: Option<seq<Line>>, answers: map<nat, seq<Line>>, takenBy: seq<nat>)

  datatype Step =
    | Take(w: nat)
    | Deliver(w: nat, lines: seq<Line>)
    | Error(w: nat)
    | Emit(report: bool)
    | Reported(ok: bool)
    | Finish
    | Bump

  // ---------------------------------------------------------------- steps

  predicate WorkerGoesOn(s: State, n: nat) {
    s.nextTask < n && s.fetchError.None? && s.generation == 0
  }

  /** `n` is the number of chunks.  While its next chunk has not arrived the emitter sleeps,
      which is no step. */
  predicate CanStep(s: State, step: Step, n: nat) {
    match step
    case Take(w) => w < |s.workers| && s.workers[w].Ready?
    case Deliver(w, _) => w < |s.workers| && s.workers[w].Fetching?
    case Error(w) => w < |s.workers| && s.workers[w].Fetching?
    case Emit(_) => s.emitter.Emitting? && (s.nextEmit >= n || s.generation != 0 || s.nextEmit in s.results || s.fetchError.Some?)
    case Reported(_) => s.emitter.Reporting?
    case Finish => s.emitter.Joining? && forall w :: 0 <= w < |s.workers| ==> s.workers[w].Exited?
    case Bump => true
  }

  function After(s: State, step: Step, n: nat): State
    requires CanStep(s, step, n)
  {
    match step
    case Take(w) =>
      if WorkerGoesOn(s, n) then
        s.(workers := s.workers[w := Fetching(s.nextTask)], nextTask := s.nextTask + 1, takenBy := s.takenBy + [w])
      else s.(workers := s.workers[w := Exited])
    case Deliver(w, lines) =>
      if s.generation != 0 then s.(workers := s.workers[w := Exited])
      else
        var t := s.workers[w].task;
        s.(workers := s.workers[w := Ready], results := s.results[t := lines], answers := s.answers[t := lines])
    case Error(w) =>
      s.(workers := s.workers[w := Exited], fetchError := Some(s.workers[w].task))
    case Emit(report) =>
      if s.nextEmit >= n then s.(emitter := Joining)
      else if s.generation != 0 then s.(emitter := Superseded)
      else if s.nextEmit in s.results then
        var t := s.(allLines := s.allLines + s.results[s.nextEmit], results := s.results - {s.nextEmit});
        if report then t.(emitter := Reporting) else t.(nextEmit := s.nextEmit + 1)
      else s.(emitter := Failed(false))
    case Reported(ok) =>
      if ok then s.(emitter := Emitting, nextEmit := s.nextEmit + 1) else s.(emitter := Failed(true))
    case Finish =>
      if s.fetchError.Some? then s.(emitter := Failed(false))
      else if s.generation == 0 then s.(emitter := Loaded, loaded := Some(s.allLines))
      else s.(emitter := Superseded)
    case Bump => s.(generation := s.generation + 1)
  }

  function WorkerCount(n: nat): nat {
    if n < MAX_CHUNK_CONCURRENCY then n else MAX_CHUNK_CONCURRENCY
  }

  function Start(n: nat): State {
    State(0, 0, map[], None, 0, [], seq(WorkerCount(n), i => Ready), Emitting, None, map[], [])
  }

  // ---------------------------------------------------------------- invariant

  function Concat(answers: map<nat, seq<Line>>, k: nat): seq<Line> {
    if k == 0 then [] else Concat(answers, k - 1) + (if k - 1 in answers then answers[k - 1] else [])
  }

  /** The chunks already appended; the one being reported is not yet counted by nextEmit. */
  function Emitted(s: State): nat {
    s.nextEmit + if s.emitter.Reporting? || s.emitter == Failed(true) then 1 else 0
  }

  /** Every taken chunk is known to one worker; a fetching worker fetches its own chunk. */
  ghost predicate TasksOwned(s: State, n: nat) {
    && |s.takenBy| == s.nextTask <= n
    && (forall t :: 0 <= t < s.nextTask ==> s.takenBy[t] < |s.workers|)
    && (forall w :: 0 <= w < |s.workers| && s.workers[w].Fetching? ==>
          s.workers[w].task < s.nextTask && s.takenBy[s.workers[w].task] == w && s.workers[w].task !in s.answers)
  }

  /** Every answer was to a taken chunk, and waits in the results until it is emitted. */
  ghost predicate AnswersKept(s: State) {
    && (forall t :: t in s.answers ==> t < s.nextTask)
    && (forall t :: 0 <= t < Emitted(s) ==> t in s.answers)
    && (forall t :: t in s.results ==> t in s.answers && s.results[t] == s.answers[t] && t >= Emitted(s))
    && (forall t :: t in s.answers && t >= Emitted(s) ==> t in s.results)
  }

  /** A taken chunk is being fetched or answered, unless a fetch failed or the load is superseded. */
  ghost predicate NothingLost(s: State) {
    s.fetchError.None? && s.generation == 0 ==>
      forall t :: 0 <= t < |s.takenBy| && t !in s.answers ==>
        s.takenBy[t] < |s.workers| && s.workers[s.takenBy[t]] == Fetching(t)
  }

  ghost predicate ErrorsStand(s: State) {
    && (s.fetchError.Some? ==>
          && s.fetchError.value < s.nextTask && s.fetchError.value !in s.answers
          && (forall w :: 0 <= w < |s.workers| ==> s.workers[w] != Fetching(s.fetchError.value)))
  }

  ghost predicate WorkersStay(s: State, n: nat) {
    && (n > 0 ==> |s.workers| > 0)
    && (forall w :: 0 <= w < |s.workers| && s.workers[w].Exited? ==>
          s.nextTask == n || s.fetchError.Some? || s.generation != 0)
  }

  ghost predicate EmitterInOrder(s: State, n: nat) {
    && Emitted(s) <= n
    && s.allLines == Concat(s.answers, Emitted(s))
    && (s.emitter.Joining? || s.emitter.Loaded? ==> s.nextEmit == n)
    && (s.loaded.Some? <==> s.emitter.Loaded?)
    && (s.loaded.Some? ==> s.loaded.value == Concat(s.answers, n))
  }

  ghost predicate Inv(s: State, n: nat) {
    && TasksOwned(s, n) && AnswersKept(s) && NothingLost(s) && ErrorsStand(s) && WorkersStay(s, n)
    && EmitterInOrder(s, n)
  }

  lemma {:induction false} ConcatGrows(answers: map<nat, seq<Line>>, t: nat, lines: seq<Line>, k: nat)
    requires t >= k
    ensures Concat(answers[t := lines], k) == Concat(answers, k)
  {
    if k > 0 {
      ConcatGrows(answers, t, lines, k - 1);
    }
  }

  lemma TakeKeepsInv(s: State, step: Step, n: nat)
    requires Inv(s, n) && CanStep(s, step, n) && step.Take?
    ensures Inv(After(s, step, n), n)
  {
    hide Concat;
    var t := After(s, step, n);
    if WorkerGoesOn(s, n) {
      assert t.workers == s.workers[step.w := Fetching(s.nextTask)] && t.takenBy == s.takenBy + [step.w];
      assert TasksOwned(t, n);
      assert AnswersKept(t);
      assert NothingLost(t);
      assert WorkersStay(t, n);
    }
  }

  lemma DeliverKeepsInv(s: State, step: Step, n: nat)
    requires Inv(s, n) && CanStep(s, step, n) && step.Deliver?
    ensures Inv(After(s, step, n), n)
  {
    if s.generation == 0 {
      ConcatGrows(s.answers, s.workers[step.w].task, step.lines, Emitted(s));
    }
  }

  lemma ErrorKeepsInv(s: State, step: Step, n: nat)
    requires Inv(s, n) && CanStep(s, step, n) && step.Error?
    ensures Inv(After(s, step, n), n)
  {
  }

  lemma EmitKeepsInv(s: State, step: Step, n: nat)
    requires Inv(s, n) && CanStep(s, step, n) && step.Emit?
    ensures Inv(After(s, step, n), n)
  {
  }

  lemma EndKeepsInv(s: State, step: Step, n: nat)
    requires Inv(s, n) && CanStep(s, step, n) && (step.Reported? || step.Finish? || step.Bump?)
    ensures Inv(After(s, step, n), n)
  {
    hide Concat;
  }

  lemma StepKeepsInv(s: State, step: Step, n: nat)
    requires Inv(s, n) && CanStep(s, step, n)
    ensures Inv(After(s, step, n), n)
  {
    hide Inv, After, CanStep;
    match step
    case Take(_) => TakeKeepsInv(s, step, n);
    case Deliver(_, _) => DeliverKeepsInv(s, step, n);
    case Error(_) => ErrorKeepsInv(s, step, n);
    case Emit(_) => EmitKeepsInv(s, step, n);
    case _ => EndKeepsInv(s, step, n);
  }

  // ---------------------------------------------------------------- progress

  predicate Ended(emitter: Emitter) {
    emitter.Loaded? || emitter.Superseded? || emitter.Failed?
  }

  /** Until the load has ended some step other than a change of generation is possible. */
  lemma NeverStuck(s: State, n: nat) returns (step: Step)
    requires Inv(s, n) && !Ended(s.emitter)
    ensures !step.Bump? && CanStep(s, step, n)
  {
    if s.emitter.Reporting? {
      return Reported(true);
    }
    assert s.fetchError.None? && s.generation == 0 && s.nextEmit < |s.takenBy| && s.nextEmit !in s.answers ==>
        s.workers[s.takenBy[s.nextEmit]] == Fetching(s.nextEmit);
    if w :| 0 <= w < |s.workers| && !s.workers[w].Exited? {
      return if s.workers[w].Ready? then Take(w) else Error(w);
    }
    if s.emitter.Joining? {
      return Finish;
    }
    assert |s.workers| > 0 ==> s.workers[0].Exited?;
    step := Emit(false);
  }

  const PENDING := (w: Worker) => match w case Ready => 1 case Fetching(_) => 2 case Exited => 0

  function EmitterRank(emitter: Emitter): nat {
    match emitter
    case Emitting => 3
    case Reporting => 2
    case Joining => 1
    case _ => 0
  }

  function Measure(s: State, n: nat): int {
    2 * (n - s.nextTask) + Total(s.workers, PENDING) + 3 * (n - s.nextEmit) + EmitterRank(s.emitter)
  }

  lemma MeasureIsNatural(s: State, n: nat)
    requires Inv(s, n)
    ensures Measure(s, n) >= 0
  {
    hide AnswersKept, NothingLost, ErrorsStand, WorkersStay, Concat, Total;
  }

  lemma StepReducesMeasure(s: State, step: Step, n: nat)
    requires CanStep(s, step, n)
    ensures if step.Bump? then Measure(After(s, step, n), n) == Measure(s, n)
            else Measure(After(s, step, n), n) < Measure(s, n)
  {
    hide Total;
    if step.Take? || step.Deliver? || step.Error? {
      TotalUpdated(s.workers, step.w, After(s, step, n).workers[step.w], PENDING);
    }
  }

  // ---------------------------------------------------------------- runs

  ghost predicate ValidRun(s: State, run: seq<Step>, n: nat)
    decreases |run|
  {
    run != [] ==> CanStep(s, run[0], n) && ValidRun(After(s, run[0], n), run[1..], n)
  }

  ghost function Final(s: State, run: seq<Step>, n: nat): State
    requires ValidRun(s, run, n)
    decreases |run|
  {
    if run == [] then s else Final(After(s, run[0], n), run[1..], n)
  }

  function Moves(run: seq<Step>): nat {
    if run == [] then 0 else (if run[0].Bump? then 0 else 1) + Moves(run[1..])
  }

  lemma StepKeepsWorkers(s: State, step: Step, n: nat)
    requires CanStep(s, step, n)
    ensures |After(s, step, n).workers| == |s.workers|
  {
  }

  lemma {:induction false} RunKeepsInv(s: State, run: seq<Step>, n: nat)
    requires Inv(s, n) && ValidRun(s, run, n)
    ensures Inv(Final(s, run, n), n) && 0 <= Measure(Final(s, run, n), n) <= Measure(s, n) - Moves(run)
    ensures |Final(s, run, n).workers| == |s.workers|
    decreases |run|
  {
    hide Inv, Measure, After, CanStep;
    MeasureIsNatural(s, n);
    if run != [] {
      StepKeepsInv(s, run[0], n);
      StepReducesMeasure(s, run[0], n);
      StepKeepsWorkers(s, run[0], n);
      RunKeepsInv(After(s, run[0], n), run[1..], n);
    }
  }

  lemma StartKeepsInv(n: nat)
    ensures Inv(Start(n), n) && Measure(Start(n), n) <= 5 * n + 9
  {
    assert Concat(map[], 0) == [];
    TotalBounded(Start(n).workers, PENDING, 2);
  }

  // ---------------------------------------------------------------- what is loaded

  function ChunkStart(start: int, t: nat): int {
    start + NETWORK_CHUNK_LINES * t
  }

  function ChunkEnd(start: int, end: int, t: nat): int {
    var last := ChunkStart(start, t) + NETWORK_CHUNK_LINES - 1;
    if last < end then last else end
  }

  /** The chunks of a region: the first line of each is inside, the first of the next is not. */
  ghost predicate Chunked(start: int, end: int, n: nat) {
    n > 0 && ChunkStart(start, n - 1) <= end && ChunkStart(start, n) > end
  }

  /** The chunk list of a region: consecutive, all but the last of full length. */
  method ChunkList(start: int, end: int) returns (chunks: seq<(int, int)>)
    requires start <= end
    ensures Chunked(start, end, |chunks|)
    ensures forall t :: 0 <= t < |chunks| ==> chunks[t] == (ChunkStart(start, t), ChunkEnd(start, end, t))
  {
    chunks := [];
    var first := start;
    while first <= end
      invariant first == ChunkStart(start, |chunks|)
      invariant |chunks| > 0 ==> ChunkStart(start, |chunks| - 1) <= end
      invariant forall t :: 0 <= t < |chunks| ==> chunks[t] == (ChunkStart(start, t), ChunkEnd(start, end, t))
      decreases end - first
    {
      var last := first + NETWORK_CHUNK_LINES - 1;
      chunks := chunks + [(first, if last < end then last else end)];
      first := first + NETWORK_CHUNK_LINES;
    }
  }

  /** Lines a..b of the file. */
  function Lines(file: int -> Line, a: int, b: int): (r: seq<Line>)
    requires a <= b + 1
    ensures |r| == b + 1 - a
  {
    seq(b + 1 - a, i requires 0 <= i < b + 1 - a => file(a + i))
  }

  /** Every answer holds exactly the lines that were asked for. */
  ghost predicate Exact(answers: map<nat, seq<Line>>, file: int -> Line, start: int, end: int, n: nat) {
    forall t :: 0 <= t < n && t in answers ==>
      ChunkStart(start, t) <= ChunkEnd(start, end, t) + 1
      && answers[t] == Lines(file, ChunkStart(start, t), ChunkEnd(start, end, t))
  }

  lemma {:induction false} ConcatIsPrefix(answers: map<nat, seq<Line>>, file: int -> Line, start: int, end: int, n: nat, k: nat)
    requires Chunked(start, end, n) && Exact(answers, file, start, end, n) && k <= n
    requires forall t :: 0 <= t < k ==> t in answers
    ensures var reached := if k == 0 then start - 1 else ChunkEnd(start, end, k - 1);
      start <= reached + 1 && Concat(answers, k) == Lines(file, start, reached)
  {
    if k > 0 {
      ConcatIsPrefix(answers, file, start, end, n, k - 1);
      var before := if k == 1 then start - 1 else ChunkEnd(start, end, k - 2);
      assert before + 1 == ChunkStart(start, k - 1);
      var reached := ChunkEnd(start, end, k - 1);
      assert Lines(file, start, before) + Lines(file, before + 1, reached) == Lines(file, start, reached);
    }
  }

  lemma FetchersDiffer(s: State, n: nat)
    requires Inv(s, n)
    ensures forall v, w :: 0 <= v < w < |s.workers| && s.workers[v].Fetching? ==> s.workers[v] != s.workers[w]
  {
    hide AnswersKept, NothingLost, ErrorsStand, WorkersStay, EmitterInOrder;
  }

  lemma LoadedHasNoError(s: State, n: nat)
    requires Inv(s, n) && s.emitter.Loaded?
    ensures s.fetchError.None? && forall t :: 0 <= t < n ==> t in s.answers
  {
    hide NothingLost, WorkersStay, Concat;
  }

  /** Streaming, for every interleaving of the workers, the emitter and changes of generation:
      what has been emitted is the in-order concatenation of the first chunks, every chunk is
      taken by at most one worker, and only an unchanged load with every chunk answered and no
      error reaches setLoaded, with exactly the lines start..end if the server is exact. */
  lemma StreamingIsOrdered(file: int -> Line, start: int, end: int, n: nat, run: seq<Step>)
    requires Chunked(start, end, n) && ValidRun(Start(n), run, n)
    ensures var s := Final(Start(n), run, n);
      && s.allLines == Concat(s.answers, Emitted(s)) && Emitted(s) <= n
      && |s.takenBy| == s.nextTask <= n && |s.workers| <= 3
      && (forall v, w :: 0 <= v < w < |s.workers| && s.workers[v].Fetching? ==> s.workers[v] != s.workers[w])
      && (s.loaded.Some? ==> s.emitter.Loaded? && s.fetchError.None? && s.loaded.value == Concat(s.answers, n))
      && (s.loaded.Some? && Exact(s.answers, file, start, end, n) ==> s.loaded.value == Lines(file, start, end))
  {
    hide AnswersKept, NothingLost, ErrorsStand, WorkersStay, Concat, Lines, Measure;
    StartKeepsInv(n);
    RunKeepsInv(Start(n), run, n);
    var s := Final(Start(n), run, n);
    FetchersDiffer(s, n);
    if s.loaded.Some? {
      LoadedHasNoError(s, n);
    }
    if s.loaded.Some? && Exact(s.answers, file, start, end, n) {
      ConcatIsPrefix(s.answers, file, start, end, n, n);
    }
  }

  /** A load whose generation changed before the last join never sets the region loaded, hands on no
      further line and requests no further chunk. */
  lemma ChangedGenerationNeverLoads(n: nat, run: seq<Step>, later: seq<Step>)
    requires ValidRun(Start(n), run, n) && ValidRun(Final(Start(n), run, n), later, n)
    requires Final(Start(n), run, n).generation != 0 && Final(Start(n), run, n).loaded.None?
    ensures Final(Final(Start(n), run, n), later, n).loaded.None?
    ensures Final(Final(Start(n), run, n), later, n).allLines == Final(Start(n), run, n).allLines
    ensures Final(Final(Start(n), run, n), later, n).takenBy == Final(Start(n), run, n).takenBy
  {
    StartKeepsInv(n);
    RunKeepsInv(Start(n), run, n);
    SupersededStays(Final(Start(n), run, n), later, n);
  }

  lemma {:induction false} SupersededStays(s: State, run: seq<Step>, n: nat)
    requires ValidRun(s, run, n) && s.generation != 0 && s.loaded.None?
    ensures var t := Final(s, run, n); t.loaded.None? && t.allLines == s.allLines && t.takenBy == s.takenBy
    decreases |run|
  {
    if run != [] {
      SupersededStays(After(s, run[0], n), run[1..], n);
    }
  }

  /** Once a request has failed no further chunk is requested and the region is never set loaded. */
  lemma {:induction false} FailedTakesNothing(s: State, run: seq<Step>, n: nat)
    requires ValidRun(s, run, n) && s.fetchError.Some? && s.loaded.None?
    ensures var t := Final(s, run, n); t.takenBy == s.takenBy && t.loaded.None?
    decreases |run|
  {
    if run != [] {
      FailedTakesNothing(After(s, run[0], n), run[1..], n);
    }
  }

  predicate Healthy(s: State) {
    s.generation == 0 && s.fetchError.None? && !s.emitter.Failed? && !s.emitter.Superseded?
  }

  /** No request fails, no report throws and the generation stays. */
  predicate Clean(step: Step) {
    !step.Bump? && !step.Error? && step != Reported(false)
  }

  lemma {:induction false} CleanRunStaysHealthy(s: State, run: seq<Step>, n: nat)
    requires ValidRun(s, run, n) && Healthy(s) && forall i :: 0 <= i < |run| ==> Clean(run[i])
    ensures Healthy(Final(s, run, n))
    decreases |run|
  {
    if run != [] {
      CleanRunStaysHealthy(After(s, run[0], n), run[1..], n);
    }
  }

  ghost predicate Quiet(s: State, n: nat) {
    forall step :: CanStep(s, step, n) ==> step.Bump?
  }

  /** A load makes at most 5n + 9 moves and one that can make no further move has ended; without
      failures and changes of generation it ends in setLoaded. */
  lemma StreamingEnds(n: nat, run: seq<Step>)
    requires ValidRun(Start(n), run, n)
    ensures var s := Final(Start(n), run, n);
      && Moves(run) <= 5 * n + 9
      && (Quiet(s, n) ==> Ended(s.emitter))
      && (Quiet(s, n) && (forall i :: 0 <= i < |run| ==> Clean(run[i])) ==> s.loaded.Some?)
  {
    StartKeepsInv(n);
    RunKeepsInv(Start(n), run, n);
    var s := Final(Start(n), run, n);
    if !Ended(s.emitter) {
      var step := NeverStuck(s, n);
      assert CanStep(s, step, n) && !step.Bump?;
    }
    if forall i :: 0 <= i < |run| ==> Clean(run[i]) {
      CleanRunStaysHealthy(Start(n), run, n);
    }
  }
}
