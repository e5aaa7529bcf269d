/** Single-flight loading for any number of threads: the decoded-chunk loader of
    app/code_detail/sidecar_store.py and the identity and overlay loaders of
    app/code_detail/vnext_service.py, as a transition system over their locked sections. */
module SingleFlight {
  import opened Counting

  type Key = int
  type Value = int

  /** How the three loaders differ: the identity loader checks a cached entry outside the lock
      before it uses it; the chunk loader cleans up only after ordinary exceptions. */
  datatype Mode = Mode(validated: bool, catchesAll: bool)

  const CHUNK := Mode(false, false)
  const OVERLAY := Mode(false, true)
  const IDENTITY := Mode(true, true)

  datatype Pc =
    | Enter
    | Checking(tag: int)
    | Dropping(tag: int)
    | Joining
    | Waiting(event: nat)
    | Loading(event: nat)
    | Publishing(event: nat, loaded: Value)
    | Failing(event: nat)
    | Returned(value: Value, byOwner: bool)
    | Raised
    | Crashed(event: nat)

  datatype Thread = Thread(key: Key, pc: Pc)

  /** A cached value with the tag (version and asset) it is filed under. */
  datatype Cached = Cached(tag: int, value: Value)

  /** An in-flight key maps to its event; the owner is recorded to state who must set it. */
  datatype Flight = Flight(event: nat, owner: nat)

  datatype State = State(
    cache: map<Key, Cached>, inflight: map<Key, Flight>, events: set<nat>, nextEvent: nat,
    loads: nat, loaded: set<(Key, Value)>, threads: seq<Thread>)

  datatype Action =
    | Lookup
    | Recheck(current: bool)
    | Drop
    | Join
    | Wake
    | Load(value: Value)
    | Fail
    | Crash
    | Publish(stored: bool, tag: int, evicted: set<Key>)
    | Cleanup

  /** Beside the threads' own sections: other keys' writes evict entries, and the index may be
      pointed back to a value loaded earlier that is still cached under another version. */
  datatype Step = Act(i: nat, action: Action) | Evict(keys: set<Key>) | Reindex(key: Key, entry: Cached)

  // ---------------------------------------------------------------- steps

  predicate Owns(pc: Pc) {
    pc.Loading? || pc.Publishing? || pc.Failing? || pc.Crashed?
  }

  predicate Finished(pc: Pc) {
    pc.Returned? || pc.Raised? || pc.Crashed?
  }

  /** A thread is an owner once in its life at most: this is what the pc remembers of it. */
  predicate HasLoaded(pc: Pc) {
    Owns(pc) || pc.Raised? || (pc.Returned? && pc.byOwner)
  }

  predicate Enabled(s: State, i: nat, a: Action, mode: Mode) {
    && i < |s.threads|
    && var pc := s.threads[i].pc;
       match a
       case Lookup => pc.Enter?
       case Recheck(_) => pc.Checking?
       case Drop => pc.Dropping?
       case Join => pc.Joining?
       case Wake => pc.Waiting? && pc.event in s.events
       case Load(_) => pc.Loading?
       case Fail => pc.Loading? || (pc.Publishing? && mode.catchesAll)
       case Crash => !mode.catchesAll && (pc.Loading? || pc.Publishing?)
       case Publish(_, _, _) => pc.Publishing?
       case Cleanup => pc.Failing?
  }

  function At(s: State, i: nat, pc: Pc): State
    requires i < |s.threads|
  {
    s.(threads := s.threads[i := s.threads[i].(pc := pc)])
  }

  /** Become the owner, or wait for the present one. */
  function Joined(s: State, i: nat): State
    requires i < |s.threads|
  {
    var key := s.threads[i].key;
    if key in s.inflight then At(s, i, Waiting(s.inflight[key].event))
    else At(s.(inflight := s.inflight[key := Flight(s.nextEvent, i)], nextEvent := s.nextEvent + 1,
               loads := s.loads + 1), i, Loading(s.nextEvent))
  }

  /** The key leaves the in-flight map and its event is set. */
  function Landed(s: State, key: Key): State {
    if key in s.inflight then
      s.(inflight := s.inflight - {key}, events := s.events + {s.inflight[key].event})
    else s
  }

  function Do(s: State, i: nat, a: Action, mode: Mode): State
    requires Enabled(s, i, a, mode)
  {
    var key := s.threads[i].key;
    var pc := s.threads[i].pc;
    match a
    case Lookup =>
      if key in s.cache then
        if mode.validated then At(s, i, Checking(s.cache[key].tag)) else At(s, i, Returned(s.cache[key].value, false))
      else if mode.validated then At(s, i, Joining)
      else Joined(s, i)
    case Recheck(current) =>
      if current && key in s.cache && s.cache[key].tag == pc.tag then At(s, i, Returned(s.cache[key].value, false))
      else At(s, i, Dropping(pc.tag))
    case Drop =>
      At(if key in s.cache && s.cache[key].tag == pc.tag then s.(cache := s.cache - {key}) else s, i, Joining)
    case Join => Joined(s, i)
    case Wake => At(s, i, Enter)
    case Load(value) => At(s.(loaded := s.loaded + {(key, value)}), i, Publishing(pc.event, value))
    case Fail => At(s, i, Failing(pc.event))
    case Crash => At(s, i, Crashed(pc.event))
    case Publish(stored, tag, evicted) =>
      var result := if key in s.cache && !mode.validated then s.cache[key].value else pc.loaded;
      var kept := s.cache - evicted;
      At(Landed(s.(cache := if stored then kept[key := Cached(tag, result)] else kept), key), i, Returned(result, true))
    case Cleanup => At(Landed(s, key), i, Raised)
  }

  predicate CanStep(s: State, step: Step, mode: Mode) {
    match step
    case Act(i, a) => Enabled(s, i, a, mode)
    case Evict(_) => true
    case Reindex(key, entry) => mode.validated && (key, entry.value) in s.loaded
  }

  function After(s: State, step: Step, mode: Mode): State
    requires CanStep(s, step, mode)
  {
    match step
    case Act(i, a) => Do(s, i, a, mode)
    case Evict(keys) => s.(cache := s.cache - keys)
    case Reindex(key, entry) => s.(cache := s.cache[key := entry])
  }

  function Start(keys: seq<Key>): State {
    State(map[], map[], {}, 0, 0, {}, seq(|keys|, i requires 0 <= i < |keys| => Thread(keys[i], Enter)))
  }

  // ---------------------------------------------------------------- counting

  const LOADERS := (t: Thread) => if HasLoaded(t.pc) then 1 else 0

  // ---------------------------------------------------------------- safety

  /** An owner's key is in flight under the owner's own event. */
  ghost predicate OwnersFly(s: State) {
    forall i :: 0 <= i < |s.threads| && Owns(s.threads[i].pc) ==>
      && s.threads[i].key in s.inflight
      && s.inflight[s.threads[i].key] == Flight(s.threads[i].pc.event, i)
  }

  /** A key in flight has an owner, an unset event, and shares that event with no other key. */
  ghost predicate FlightsOwned(s: State) {
    && (forall k :: k in s.inflight ==>
          && s.inflight[k].owner < |s.threads|
          && s.threads[s.inflight[k].owner].key == k
          && Owns(s.threads[s.inflight[k].owner].pc)
          && s.inflight[k].event < s.nextEvent
          && s.inflight[k].event !in s.events)
    && (forall k, l :: k in s.inflight && l in s.inflight && s.inflight[k].event == s.inflight[l].event ==> k == l)
  }

  /** A waiter's event is set, or it is the current event of its key. */
  ghost predicate WaitersCovered(s: State) {
    forall i :: 0 <= i < |s.threads| && s.threads[i].pc.Waiting? ==>
      s.threads[i].pc.event in s.events ||
      (s.threads[i].key in s.inflight && s.inflight[s.threads[i].key].event == s.threads[i].pc.event)
  }

  /** Only values that an owner loaded for a key are cached, published or returned for it. */
  ghost predicate ValuesLoaded(s: State) {
    && (forall k :: k in s.cache ==> (k, s.cache[k].value) in s.loaded)
    && (forall i :: 0 <= i < |s.threads| && s.threads[i].pc.Publishing? ==>
          (s.threads[i].key, s.threads[i].pc.loaded) in s.loaded)
    && (forall i :: 0 <= i < |s.threads| && s.threads[i].pc.Returned? ==>
          (s.threads[i].key, s.threads[i].pc.value) in s.loaded)
  }

  ghost predicate EventsKnown(s: State) {
    forall e :: e in s.events ==> e < s.nextEvent
  }

  ghost predicate Inv(s: State) {
    && OwnersFly(s) && FlightsOwned(s) && WaitersCovered(s) && ValuesLoaded(s) && EventsKnown(s)
    && s.loads == Total(s.threads, LOADERS)
  }

  /** No thread is between its locked sections before a load, and no key is both cached and in flight. */
  ghost predicate Exclusive(s: State) {
    && (forall k :: k in s.inflight ==> k !in s.cache)
    && (forall i :: 0 <= i < |s.threads| ==>
          !s.threads[i].pc.Checking? && !s.threads[i].pc.Dropping? && !s.threads[i].pc.Joining?)
  }

  lemma MoveKeepsInv(s: State, i: nat, pc: Pc)
    requires Inv(s) && i < |s.threads|
    requires Owns(pc) == Owns(s.threads[i].pc) && (Owns(pc) ==> pc.event == s.threads[i].pc.event)
    requires HasLoaded(pc) == HasLoaded(s.threads[i].pc)
    requires pc.Waiting? ==> s.threads[i].key in s.inflight && s.inflight[s.threads[i].key].event == pc.event
    requires pc.Publishing? ==> (s.threads[i].key, pc.loaded) in s.loaded
    requires pc.Returned? ==> (s.threads[i].key, pc.value) in s.loaded
    ensures Inv(At(s, i, pc))
  {
    TotalUpdated(s.threads, i, s.threads[i].(pc := pc), LOADERS);
  }

  lemma CacheKeepsInv(s: State, cache: map<Key, Cached>)
    requires Inv(s) && forall k :: k in cache ==> (k, cache[k].value) in s.loaded
    ensures Inv(s.(cache := cache))
  {
  }

  lemma LoadedKeepsInv(s: State, loaded: set<(Key, Value)>)
    requires Inv(s) && s.loaded <= loaded
    ensures Inv(s.(loaded := loaded))
  {
  }

  lemma JoinKeepsInv(s: State, i: nat)
    requires Inv(s) && i < |s.threads| && (s.threads[i].pc.Enter? || s.threads[i].pc.Joining?)
    ensures Inv(Joined(s, i))
  {
    var key := s.threads[i].key;
    if key in s.inflight {
      MoveKeepsInv(s, i, Waiting(s.inflight[key].event));
    } else {
      TotalUpdated(s.threads, i, s.threads[i].(pc := Loading(s.nextEvent)), LOADERS);
    }
  }

  lemma LandingKeepsInv(s: State, i: nat, pc: Pc)
    requires Inv(s) && i < |s.threads| && Owns(s.threads[i].pc)
    requires pc.Raised? || (pc.Returned? && pc.byOwner && (s.threads[i].key, pc.value) in s.loaded)
    ensures Inv(At(Landed(s, s.threads[i].key), i, pc))
  {
    TotalUpdated(s.threads, i, s.threads[i].(pc := pc), LOADERS);
  }

  lemma StepKeepsInv(s: State, step: Step, mode: Mode)
    requires Inv(s) && CanStep(s, step, mode)
    ensures Inv(After(s, step, mode)) && |After(s, step, mode).threads| == |s.threads|
  {
    hide OwnersFly, FlightsOwned, WaitersCovered, EventsKnown, Total;
    match step
    case Evict(keys) => CacheKeepsInv(s, s.cache - keys);
    case Reindex(key, entry) => CacheKeepsInv(s, s.cache[key := entry]);
    case Act(i, a) =>
      var key := s.threads[i].key;
      var pc := s.threads[i].pc;
      match a
      case Lookup =>
        if key in s.cache {
          MoveKeepsInv(s, i, if mode.validated then Checking(s.cache[key].tag) else Returned(s.cache[key].value, false));
        } else if mode.validated {
          MoveKeepsInv(s, i, Joining);
        } else {
          JoinKeepsInv(s, i);
        }
      case Recheck(current) => MoveKeepsInv(s, i, Do(s, i, a, mode).threads[i].pc);
      case Drop =>
        CacheKeepsInv(s, s.cache - {key});
        MoveKeepsInv(s, i, Joining);
        MoveKeepsInv(s.(cache := s.cache - {key}), i, Joining);
      case Join => JoinKeepsInv(s, i);
      case Wake => MoveKeepsInv(s, i, Enter);
      case Load(value) =>
        LoadedKeepsInv(s, s.loaded + {(key, value)});
        MoveKeepsInv(s.(loaded := s.loaded + {(key, value)}), i, Publishing(pc.event, value));
      case Fail => MoveKeepsInv(s, i, Failing(pc.event));
      case Crash => MoveKeepsInv(s, i, Crashed(pc.event));
      case Publish(stored, tag, evicted) =>
        var t := Do(s, i, a, mode);
        CacheKeepsInv(s, t.cache);
        LandingKeepsInv(s.(cache := t.cache), i, t.threads[i].pc);
      case Cleanup => LandingKeepsInv(s, i, Raised);
  }

  /** A key in flight has exactly one owner. */
  lemma OneOwnerPerFlight(s: State, k: Key)
    requires Inv(s)
    ensures k in s.inflight <==> exists i :: 0 <= i < |s.threads| && s.threads[i].key == k && Owns(s.threads[i].pc)
    ensures forall i, j :: 0 <= i < j < |s.threads| && s.threads[i].key == k && s.threads[j].key == k ==>
              !(Owns(s.threads[i].pc) && Owns(s.threads[j].pc))
  {
    if k in s.inflight {
      var owner := s.inflight[k].owner;
      assert s.threads[owner].key == k && Owns(s.threads[owner].pc);
    }
  }

  /** The loaders that look up and join in one locked section never cache a key in flight. */
  lemma StepKeepsExclusive(s: State, step: Step, mode: Mode)
    requires Inv(s) && Exclusive(s) && CanStep(s, step, mode) && !mode.validated
    ensures Exclusive(After(s, step, mode))
  {
    hide WaitersCovered, ValuesLoaded, EventsKnown, FlightsOwned, Total;
  }

  /** So an owner returns the very value it loaded, whether or not it could be stored. */
  lemma OwnerReturnsItsLoad(s: State, i: nat, a: Action, mode: Mode)
    requires Inv(s) && (mode.validated || Exclusive(s)) && a.Publish? && Enabled(s, i, a, mode)
    ensures Do(s, i, a, mode).threads[i].pc == Returned(s.threads[i].pc.loaded, true)
  {
    hide WaitersCovered, ValuesLoaded, EventsKnown, FlightsOwned, Total;
  }

  // ---------------------------------------------------------------- progress

  ghost predicate Quiet(s: State, mode: Mode) {
    forall i: nat, a: Action {:trigger Enabled(s, i, a, mode)} :: !Enabled(s, i, a, mode)
  }

  /** The thread waits for the event of an owner that died without cleaning up. */
  ghost predicate Orphaned(s: State, i: nat)
    requires i < |s.threads|
  {
    && s.threads[i].pc.Waiting? && s.threads[i].key in s.inflight
    && s.inflight[s.threads[i].key].event == s.threads[i].pc.event
    && s.inflight[s.threads[i].key].owner < |s.threads|
    && s.threads[s.inflight[s.threads[i].key].owner].pc.Crashed?
  }

  /** An action of a thread that is neither finished nor waiting for an unset event. */
  function NextAction(pc: Pc): Action {
    match pc
    case Enter => Lookup
    case Checking(_) => Recheck(true)
    case Dropping(_) => Drop
    case Joining => Join
    case Waiting(_) => Wake
    case Loading(_) => Fail
    case Publishing(_, _) => Publish(false, 0, {})
    case _ => Cleanup
  }

  /** Nothing can move exactly when every thread is finished or waits for a crashed owner. */
  lemma QuietIffDoneOrOrphaned(s: State, mode: Mode)
    requires Inv(s)
    ensures Quiet(s, mode) <==> forall i :: 0 <= i < |s.threads| ==> Finished(s.threads[i].pc) || Orphaned(s, i)
  {
    if Quiet(s, mode) {
      forall i | 0 <= i < |s.threads|
        ensures Finished(s.threads[i].pc) || Orphaned(s, i)
      {
        assert !Enabled(s, i, NextAction(s.threads[i].pc), mode);
        if s.threads[i].pc.Waiting? && s.threads[i].key in s.inflight {
          var owner := s.inflight[s.threads[i].key].owner;
          assert !Enabled(s, owner, NextAction(s.threads[owner].pc), mode);
        }
      }
    } else {
      var i: nat, a: Action :| Enabled(s, i, a, mode);
      assert !Finished(s.threads[i].pc);
      assert FlightsOwned(s);
    }
  }

  const ACTIVE := (t: Thread) => if Finished(t.pc) then 0 else 1

  /** How far a thread is from finishing or from waiting for an unset event. */
  function Rank(events: set<nat>, pc: Pc): nat {
    match pc
    case Waiting(e) => if e in events then 9 else 1
    case Enter => 8
    case Checking(_) => 7
    case Dropping(_) => 6
    case Joining => 5
    case Loading(_) => 4
    case Publishing(_, _) => 3
    case Failing(_) => 2
    case _ => 0
  }

  function RankIn(events: set<nat>): Thread -> nat {
    (t: Thread) => Rank(events, t.pc)
  }

  function Times(n: nat, unit: nat): nat {
    if n == 0 then 0 else unit + Times(n - 1, unit)
  }

  function Unit(s: State): nat {
    9 * |s.threads| + 1
  }

  /** First the threads that are not finished, then how far each of them is. */
  function Measure(s: State): nat {
    Times(Total(s.threads, ACTIVE), Unit(s)) + Total(s.threads, RankIn(s.events))
  }

  lemma ThreadReducesMeasure(s: State, t: State, i: nat, next: Thread)
    requires i < |s.threads| && t.threads == s.threads[i := next] && !Finished(s.threads[i].pc)
    requires Finished(next.pc) || (t.events == s.events && Rank(s.events, next.pc) < Rank(s.events, s.threads[i].pc))
    ensures Measure(t) < Measure(s)
  {
    TotalUpdated(s.threads, i, next, ACTIVE);
    TotalBounded(t.threads, RankIn(t.events), 9);
    if !Finished(next.pc) {
      TotalUpdated(s.threads, i, next, RankIn(s.events));
    }
  }

  /** An action either finishes its thread, or sets no event and takes the thread to a lower rank. */
  lemma ActionLowersRank(s: State, i: nat, a: Action, mode: Mode)
    requires FlightsOwned(s) && Enabled(s, i, a, mode)
    ensures var t := Do(s, i, a, mode);
      && |t.threads| == |s.threads| && t.threads == s.threads[i := t.threads[i]] && !Finished(s.threads[i].pc)
      && (Finished(t.threads[i].pc)
          || (t.events == s.events && Rank(s.events, t.threads[i].pc) < Rank(s.events, s.threads[i].pc)))
  {
  }

  /** Every step of every thread brings the end nearer; evictions by others do not move it. */
  lemma StepReducesMeasure(s: State, step: Step, mode: Mode)
    requires Inv(s) && CanStep(s, step, mode)
    ensures if step.Act? then Measure(After(s, step, mode)) < Measure(s) else Measure(After(s, step, mode)) == Measure(s)
  {
    if step.Act? {
      hide OwnersFly, FlightsOwned, ValuesLoaded, EventsKnown, WaitersCovered, Total, Measure, RankIn, Rank, Do;
      ActionLowersRank(s, step.i, step.action, mode);
      var t := Do(s, step.i, step.action, mode);
      ThreadReducesMeasure(s, t, step.i, t.threads[step.i]);
    }
  }

  // ---------------------------------------------------------------- runs

  ghost predicate ValidRun(s: State, run: seq<Step>, mode: Mode)
    decreases |run|
  {
    run != [] ==> CanStep(s, run[0], mode) && ValidRun(After(s, run[0], mode), run[1..], mode)
  }

  ghost function Final(s: State, run: seq<Step>, mode: Mode): State
    requires ValidRun(s, run, mode)
    decreases |run|
  {
    if run == [] then s else Final(After(s, run[0], mode), run[1..], mode)
  }

  lemma Longer(s: State, step: Step, rest: seq<Step>, mode: Mode)
    requires CanStep(s, step, mode) && ValidRun(After(s, step, mode), rest, mode)
    ensures ValidRun(s, [step] + rest, mode)
    ensures Final(s, [step] + rest, mode) == Final(After(s, step, mode), rest, mode)
  {
    assert ([step] + rest)[1..] == rest;
  }

  function Acts(run: seq<Step>): nat {
    if run == [] then 0 else (if run[0].Act? then 1 else 0) + Acts(run[1..])
  }

  lemma {:induction false} RunKeepsInv(s: State, run: seq<Step>, mode: Mode)
    requires Inv(s) && ValidRun(s, run, mode)
    ensures var t := Final(s, run, mode);
      && Inv(t) && Measure(t) + Acts(run) <= Measure(s)
      && |t.threads| == |s.threads|
      && (!mode.validated && Exclusive(s) ==> Exclusive(t))
      && (forall i :: 0 <= i < |s.threads| ==> t.threads[i].key == s.threads[i].key)
    decreases |run|
  {
    if run != [] {
      var u := After(s, run[0], mode);
      StepKeepsInv(s, run[0], mode);
      StepReducesMeasure(s, run[0], mode);
      if !mode.validated && Exclusive(s) {
        StepKeepsExclusive(s, run[0], mode);
      }
      KeysAreFixed(s, run[0], mode);
      RunKeepsInv(u, run[1..], mode);
    }
  }

  lemma KeysAreFixed(s: State, step: Step, mode: Mode)
    requires CanStep(s, step, mode)
    ensures var t := After(s, step, mode);
      && |t.threads| == |s.threads| && forall i :: 0 <= i < |s.threads| ==> t.threads[i].key == s.threads[i].key
  {
  }

  lemma StartKeepsInv(keys: seq<Key>)
    ensures Inv(Start(keys)) && Exclusive(Start(keys))
  {
    TotalOfNone(Start(keys).threads, LOADERS);
  }

  /** Single flight: however N requests interleave with each other and with evictions, they make
      at most N loads, every answer is a value some owner loaded for that key, and a key is in
      flight exactly while one request owns it. */
  lemma SingleFlightIsSafe(keys: seq<Key>, run: seq<Step>, mode: Mode)
    requires ValidRun(Start(keys), run, mode)
    ensures var t := Final(Start(keys), run, mode);
      && Inv(t) && t.loads <= |keys| && |t.threads| == |keys|
      && (!mode.validated ==> Exclusive(t))
      && forall i :: 0 <= i < |keys| && t.threads[i].pc.Returned? ==> (keys[i], t.threads[i].pc.value) in t.loaded
  {
    hide Total, ValidRun, Final, Measure, OwnersFly, FlightsOwned, WaitersCovered, EventsKnown;
    var s := Start(keys);
    StartKeepsInv(keys);
    RunKeepsInv(s, run, mode);
    TotalBounded(Final(s, run, mode).threads, LOADERS, 1);
  }

  /** Every run is finite but for evictions, and when no request can move any more they have all
      finished, provided the loader cleans up after every failure. */
  lemma SingleFlightEnds(keys: seq<Key>, run: seq<Step>, mode: Mode)
    requires ValidRun(Start(keys), run, mode)
    ensures var t := Final(Start(keys), run, mode);
      && Acts(run) <= Measure(Start(keys))
      && (Quiet(t, mode) && NoneCrashed(t) ==> forall i :: 0 <= i < |t.threads| ==> Finished(t.threads[i].pc))
      && (mode.catchesAll ==> NoneCrashed(t))
  {
    hide Total, Measure, OwnersFly, FlightsOwned, WaitersCovered, EventsKnown;
    var s := Start(keys);
    StartKeepsInv(keys);
    RunKeepsInv(s, run, mode);
    QuietIffDoneOrOrphaned(Final(s, run, mode), mode);
    if mode.catchesAll {
      RunNeverCrashes(s, run, mode);
    }
  }

  ghost predicate NoneCrashed(s: State) {
    forall i :: 0 <= i < |s.threads| ==> !s.threads[i].pc.Crashed?
  }

  lemma {:induction false} RunNeverCrashes(s: State, run: seq<Step>, mode: Mode)
    requires NoneCrashed(s) && ValidRun(s, run, mode) && mode.catchesAll
    ensures NoneCrashed(Final(s, run, mode))
    decreases |run|
  {
    if run != [] {
      RunNeverCrashes(After(s, run[0], mode), run[1..], mode);
    }
  }

  // ---------------------------------------------------------------- nothing is loaded twice

  /** No load fails, what is loaded is cached under one tag, and nothing cached is dropped. */
  predicate Gentle(step: Step, tag: int) {
    && step.Act?
    && match step.action
       case Recheck(current) => current
       case Publish(stored, filed, evicted) => stored && filed == tag && evicted == {}
       case Drop => false
       case Fail => false
       case Crash => false
       case _ => true
  }

  /** Each key has one loader at most; its value is the one that is cached and returned. */
  ghost predicate Settled(s: State) {
    && (forall i :: 0 <= i < |s.threads| && HasLoaded(s.threads[i].pc) ==>
          if Owns(s.threads[i].pc) then s.threads[i].key in s.inflight else s.threads[i].key in s.cache)
    && (forall i, j :: 0 <= i < j < |s.threads| && HasLoaded(s.threads[i].pc) && HasLoaded(s.threads[j].pc) ==>
          s.threads[i].key != s.threads[j].key)
    && (forall i :: 0 <= i < |s.threads| && s.threads[i].pc.Returned? ==>
          s.threads[i].key in s.cache && s.threads[i].pc.value == s.cache[s.threads[i].key].value)
    && (forall i :: 0 <= i < |s.threads| ==> !s.threads[i].pc.Failing? && !s.threads[i].pc.Raised?)
  }

  lemma GentleStepSettles(s: State, step: Step, tag: int, mode: Mode)
    requires Inv(s) && Exclusive(s) && Settled(s) && !mode.validated && CanStep(s, step, mode) && Gentle(step, tag)
    ensures Settled(After(s, step, mode))
  {
    hide WaitersCovered, ValuesLoaded, EventsKnown, Total;
    assert s.threads[step.i].pc.Publishing? ==> s.threads[step.i].key !in s.cache;
  }

  lemma {:induction false} GentleRunSettles(s: State, run: seq<Step>, tag: int, mode: Mode)
    requires Inv(s) && Exclusive(s) && Settled(s) && !mode.validated && ValidRun(s, run, mode)
    requires forall k :: 0 <= k < |run| ==> Gentle(run[k], tag)
    ensures Settled(Final(s, run, mode))
    decreases |run|
  {
    hide Inv, Exclusive, Settled, After, CanStep, Gentle;
    if run != [] {
      StepKeepsInv(s, run[0], mode);
      StepKeepsExclusive(s, run[0], mode);
      GentleStepSettles(s, run[0], tag, mode);
      GentleRunSettles(After(s, run[0], mode), run[1..], tag, mode);
    }
  }

  /** What single flight is for: while nothing fails and nothing is evicted, the chunk and the
      overlay loader load every key once, however many requests for it come in and however they
      interleave, and all requests for a key return the same value. */
  lemma LoadsOncePerKey(keys: seq<Key>, run: seq<Step>, tag: int, mode: Mode)
    requires !mode.validated && ValidRun(Start(keys), run, mode)
    requires forall k :: 0 <= k < |run| ==> Gentle(run[k], tag)
    ensures var t := Final(Start(keys), run, mode);
      && |t.threads| == |keys|
      && forall i, j :: 0 <= i < j < |keys| && keys[i] == keys[j] ==>
           && !(HasLoaded(t.threads[i].pc) && HasLoaded(t.threads[j].pc))
           && (t.threads[i].pc.Returned? && t.threads[j].pc.Returned? ==> t.threads[i].pc.value == t.threads[j].pc.value)
  {
    var s := Start(keys);
    StartKeepsInv(keys);
    GentleRunSettles(s, run, tag, mode);
    hide Inv, Exclusive, ValidRun, Final, Measure;
    RunKeepsInv(s, run, mode);
  }

  /** A request that comes in while its key is cached never loads it: it is still on its way to the
      cached value, or has returned. */
  lemma {:induction false} CachedIsNotLoaded(s: State, run: seq<Step>, tag: int, mode: Mode, i: nat)
    requires ValidRun(s, run, mode) && forall k :: 0 <= k < |run| ==> Gentle(run[k], tag)
    requires i < |s.threads| && s.threads[i].key in s.cache && s.cache[s.threads[i].key].tag == tag
    requires s.threads[i].pc.Enter? || s.threads[i].pc == Checking(tag)
             || (s.threads[i].pc.Returned? && !s.threads[i].pc.byOwner)
    ensures var t := Final(s, run, mode);
      && i < |t.threads| && !HasLoaded(t.threads[i].pc)
      && (t.threads[i].pc.Enter? || t.threads[i].pc.Checking? || t.threads[i].pc.Returned?)
    decreases |run|
  {
    if run != [] {
      KeysAreFixed(s, run[0], mode);
      CachedIsNotLoaded(After(s, run[0], mode), run[1..], tag, mode, i);
    }
  }

  ghost predicate AllFinished(s: State) {
    forall i :: 0 <= i < |s.threads| ==> Finished(s.threads[i].pc)
  }

  /** No run ends with a request that waits for ever. */
  ghost predicate AlwaysFinishes(mode: Mode) {
    forall keys: seq<Key>, run: seq<Step> ::
      ValidRun(Start(keys), run, mode) && Quiet(Final(Start(keys), run, mode), mode) ==>
        AllFinished(Final(Start(keys), run, mode))
  }

  /** A loader never leaves a request waiting exactly if it cleans up after every failure. */
  lemma FinishesIffCleansUp(mode: Mode)
    ensures AlwaysFinishes(mode) <==> mode.catchesAll
  {
    hide Final, ValidRun, Start, CanStep;
    if mode.catchesAll {
      forall keys: seq<Key>, run: seq<Step> | ValidRun(Start(keys), run, mode) && Quiet(Final(Start(keys), run, mode), mode)
        ensures AllFinished(Final(Start(keys), run, mode))
      {
        SingleFlightEnds(keys, run, mode);
      }
    } else {
      CrashedLoaderBlocksItsKey(0, mode);
    }
  }

  /** Two requests for one key: the first becomes the owner and dies, the second waits for it. */
  function DeadOwnerRun(mode: Mode): seq<Step> {
    TakesUp(0, mode) + ([Act(0, Crash)] + TakesUp(1, mode))
  }

  /** A request that finds nothing cached becomes the owner or starts to wait. */
  function TakesUp(i: nat, mode: Mode): seq<Step> {
    if mode.validated then [Act(i, Lookup), Act(i, Join)] else [Act(i, Lookup)]
  }

  lemma TakesUpJoins(s: State, i: nat, mode: Mode, rest: seq<Step>)
    requires i < |s.threads| && s.threads[i].pc.Enter? && s.threads[i].key !in s.cache
    requires ValidRun(Joined(s, i), rest, mode)
    ensures ValidRun(s, TakesUp(i, mode) + rest, mode)
    ensures Final(s, TakesUp(i, mode) + rest, mode) == Final(Joined(s, i), rest, mode)
  {
    if mode.validated {
      var asks := At(s, i, Joining);
      assert Joined(asks, i) == Joined(s, i);
      Longer(asks, Act(i, Join), rest, mode);
      Longer(s, Act(i, Lookup), [Act(i, Join)] + rest, mode);
      assert TakesUp(i, mode) + rest == [Act(i, Lookup)] + ([Act(i, Join)] + rest);
    } else {
      Longer(s, Act(i, Lookup), rest, mode);
    }
  }

  /** A loader that cleans up only after an Exception, as the chunk loader does: one thread that dies
      of anything else while it loads leaves the next request for that key waiting for ever. */
  lemma CrashedLoaderBlocksItsKey(key: Key, mode: Mode)
    requires !mode.catchesAll
    ensures ValidRun(Start([key, key]), DeadOwnerRun(mode), mode)
    ensures var t := Final(Start([key, key]), DeadOwnerRun(mode), mode);
      Quiet(t, mode) && |t.threads| == 2 && t.threads[1].pc == Waiting(0)
  {
    var s := Start([key, key]);
    var owned := Joined(s, 0);
    var died := At(owned, 0, Crashed(0));
    var t := Joined(died, 1);
    assert t.threads == [Thread(key, Crashed(0)), Thread(key, Waiting(0))];
    hide ValidRun, Final, Joined, Start;
    RunOfNone(t, mode);
    assert TakesUp(1, mode) + [] == TakesUp(1, mode);
    TakesUpJoins(died, 1, mode, []);
    Longer(owned, Act(0, Crash), TakesUp(1, mode), mode);
    TakesUpJoins(s, 0, mode, [Act(0, Crash)] + TakesUp(1, mode));
  }

  lemma RunOfNone(s: State, mode: Mode)
    ensures ValidRun(s, [], mode) && Final(s, [], mode) == s
  {
  }
}
