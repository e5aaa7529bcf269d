/** How fresh the review overlay of a request is, over all interleavings of requests, commits
    and cache evictions (app/code_detail/vnext_service.py, app/api/application.py).  Identity and
    overlay are read on separate database leases and both are cached. */
module OverlayFreshness {

  datatype Row = Row(line: int, id: int)

  /** The two tables that hold review rows, by file. */
  datatype Snapshot = Snapshot(domain: map<int, seq<Row>>, legacy: map<int, seq<Row>>)

  type Ranges = seq<(int, int)>

  datatype Source = Domain | Legacy

  /** Rows with the table and the version they were read at, and for rows of the legacy table
      the version at which the domain table had none. */
  datatype Overlay = Overlay(source: Source, version: nat, checkedAt: nat, rows: seq<Row>)

  /** An overlay is cached under its file, the data version of the identity and the ranges. */
  datatype Key = Key(file: int, version: nat, ranges: Ranges)

  // ---------------------------------------------------------------- what a read returns

  predicate InRanges(line: int, ranges: Ranges) {
    ranges == [] || exists k :: 0 <= k < |ranges| && ranges[k].0 <= line <= ranges[k].1
  }

  function Within(rows: seq<Row>, ranges: Ranges): seq<Row> {
    if rows == [] then []
    else (if InRanges(rows[0].line, ranges) then [rows[0]] else []) + Within(rows[1..], ranges)
  }

  function TableRows(table: map<int, seq<Row>>, file: int): seq<Row> {
    if file in table then table[file] else []
  }

  function Select(s: Snapshot, source: Source, file: int, ranges: Ranges): seq<Row> {
    Within(TableRows(if source.Domain? then s.domain else s.legacy, file), ranges)
  }

  /** The overlay of one state: the domain rows, or the legacy rows if there are none. */
  function OverlayAt(s: Snapshot, file: int, ranges: Ranges): seq<Row> {
    var rows := Select(s, Domain, file, ranges);
    if rows != [] then rows else Select(s, Legacy, file, ranges)
  }

  /** The line is asked for: there are no ranges, or one of them holds it. */
  ghost predicate Asked(line: int, ranges: Ranges) {
    |ranges| == 0 || exists r :: r in ranges && r.0 <= line <= r.1
  }

  /** `shown` is what is asked for of `rows`: each such row as often as it is there, in order. */
  ghost predicate Picks(rows: seq<Row>, ranges: Ranges, shown: seq<Row>, at: seq<nat>) {
    Embeds(rows, shown, at) && AllAsked(rows, ranges, at)
  }

  ghost predicate Embeds(rows: seq<Row>, shown: seq<Row>, at: seq<nat>) {
    && |at| == |shown|
    && (forall k :: 0 <= k < |at| ==> at[k] < |rows| && shown[k] == rows[at[k]])
    && (forall j, k :: 0 <= j < k < |at| ==> at[j] < at[k])
  }

  ghost predicate AllAsked(rows: seq<Row>, ranges: Ranges, at: seq<nat>) {
    forall i: nat {:trigger i in at} :: i < |rows| ==> (i in at <==> Asked(rows[i].line, ranges))
  }

  lemma AskedInRanges(line: int, ranges: Ranges)
    ensures InRanges(line, ranges) <==> Asked(line, ranges)
  {
    if k :| 0 <= k < |ranges| && ranges[k].0 <= line <= ranges[k].1 {
      assert ranges[k] in ranges;
    }
  }

  /** A ranged read returns exactly the rows asked for, in the order of the table. */
  lemma {:induction false} WithinPicks(rows: seq<Row>, ranges: Ranges) returns (at: seq<nat>)
    ensures Picks(rows, ranges, Within(rows, ranges), at)
  {
    if rows == [] {
      at := [];
    } else {
      var rest := WithinPicks(rows[1..], ranges);
      AskedInRanges(rows[0].line, ranges);
      hide Picks, Asked;
      at := PickNext(rows, ranges, Within(rows[1..], ranges), rest);
    }
  }

  lemma PickNext(rows: seq<Row>, ranges: Ranges, shown: seq<Row>, rest: seq<nat>) returns (at: seq<nat>)
    requires rows != [] && Picks(rows[1..], ranges, shown, rest)
    ensures Picks(rows, ranges, (if Asked(rows[0].line, ranges) then [rows[0]] else []) + shown, at)
  {
    hide Asked;
    var later := seq(|rest|, k requires 0 <= k < |rest| => rest[k] + 1);
    Shifted(rest, later);
    assert Embeds(rows, shown, later);
    at := if Asked(rows[0].line, ranges) then [0] + later else later;
    if Asked(rows[0].line, ranges) {
      EmbedsFirst(rows, shown, later);
    } else {
      assert [] + shown == shown;
    }
    hide Embeds;
    assert AllAsked(rows, ranges, at) by {
      forall i: nat | i < |rows|
        ensures i in at <==> Asked(rows[i].line, ranges)
      {
        if i > 0 {
          assert rows[i] == rows[1..][i - 1];
          assert i - 1 in rest <==> Asked(rows[1..][i - 1].line, ranges);
          assert (i - 1) + 1 in later <==> i - 1 in rest;
        }
      }
    }
  }

  lemma EmbedsFirst(rows: seq<Row>, shown: seq<Row>, later: seq<nat>)
    requires rows != [] && Embeds(rows, shown, later) && forall k :: 0 <= k < |later| ==> later[k] > 0
    ensures Embeds(rows, [rows[0]] + shown, [0] + later)
  {
  }

  lemma Shifted(rest: seq<nat>, at: seq<nat>)
    requires |at| == |rest| && forall k :: 0 <= k < |at| ==> at[k] == rest[k] + 1
    ensures 0 !in at && forall i: nat :: i + 1 in at <==> i in rest
  {
    forall i: nat
      ensures i + 1 in at <==> i in rest
    {
      if i in rest {
        var k :| 0 <= k < |rest| && rest[k] == i;
        assert at[k] == i + 1;
      }
    }
  }

  lemma PickedRows(rows: seq<Row>, ranges: Ranges, shown: seq<Row>, at: seq<nat>)
    requires Picks(rows, ranges, shown, at)
    ensures forall x :: x in shown <==> x in rows && Asked(x.line, ranges)
  {
    hide Asked;
    forall x
      ensures x in shown <==> x in rows && Asked(x.line, ranges)
    {
      if x in shown {
        var k :| 0 <= k < |shown| && shown[k] == x;
        assert at[k] in at;
      }
      if x in rows && Asked(x.line, ranges) {
        var i: nat :| i < |rows| && rows[i] == x;
        assert i in at;
        var k :| 0 <= k < |at| && at[k] == i;
        assert shown[k] == x;
      }
    }
  }

  lemma WithinMembers(rows: seq<Row>, ranges: Ranges)
    ensures forall x :: x in Within(rows, ranges) <==> x in rows && Asked(x.line, ranges)
  {
    var at := WithinPicks(rows, ranges);
    PickedRows(rows, ranges, Within(rows, ranges), at);
  }

  lemma {:induction false} WithinEverything(rows: seq<Row>)
    ensures Within(rows, []) == rows
  {
    if rows != [] {
      WithinEverything(rows[1..]);
    }
  }

  /** A range read shows what the whole-file read shows for those lines exactly if the choice of
      the table is the same or does not matter: the domain table has a row in the ranges, or none
      for the file, or the legacy table has none in the ranges. */
  lemma RangeReadMatchesFullRead(s: Snapshot, file: int, ranges: Ranges)
    ensures OverlayAt(s, file, ranges) == Within(OverlayAt(s, file, []), ranges)
      <==> || Select(s, Domain, file, ranges) != []
           || TableRows(s.domain, file) == []
           || Select(s, Legacy, file, ranges) == []
    ensures (forall x :: x in OverlayAt(s, file, ranges) <==> x in OverlayAt(s, file, []) && Asked(x.line, ranges))
      <==> || HasAsked(s.domain, file, ranges)
           || !HasAsked(s.domain, file, [])
           || !HasAsked(s.legacy, file, ranges)
  {
    WithinEverything(TableRows(s.domain, file));
    WithinEverything(TableRows(s.legacy, file));
    RangeReadRows(s, file, ranges);
  }

  /** The same on the rows that the tables hold. */
  lemma RangeReadRows(s: Snapshot, file: int, ranges: Ranges)
    ensures (forall x :: x in OverlayAt(s, file, ranges) <==> x in OverlayAt(s, file, []) && Asked(x.line, ranges))
      <==> || HasAsked(s.domain, file, ranges)
           || !HasAsked(s.domain, file, [])
           || !HasAsked(s.legacy, file, ranges)
  {
    WithinAsked(s.domain, file, ranges);
    WithinAsked(s.legacy, file, ranges);
    WithinAsked(s.domain, file, []);
    WithinAsked(s.legacy, file, []);
    assert forall line :: Asked(line, []);
    hide Within, TableRows, Asked;
    var legacy := Select(s, Legacy, file, ranges);
    if legacy != [] {
      assert legacy[0] in legacy;
      assert !HasAsked(s.domain, file, ranges) && HasAsked(s.domain, file, []) ==>
          legacy[0] in OverlayAt(s, file, ranges) && Asked(legacy[0].line, ranges);
    }
  }

  /** The table has a row of the file that is asked for. */
  ghost predicate HasAsked(table: map<int, seq<Row>>, file: int, ranges: Ranges) {
    file in table && exists x :: x in table[file] && Asked(x.line, ranges)
  }

  /** `shown` is exactly what is asked for of the file's rows in the table. */
  ghost predicate ShowsTable(table: map<int, seq<Row>>, file: int, ranges: Ranges, shown: seq<Row>) {
    && (if file in table then exists at :: Picks(table[file], ranges, shown, at) else shown == [])
    && (forall x :: x in shown <==> file in table && x in table[file] && Asked(x.line, ranges))
  }

  lemma WithinAsked(table: map<int, seq<Row>>, file: int, ranges: Ranges)
    ensures ShowsTable(table, file, ranges, Within(TableRows(table, file), ranges))
    ensures Within(TableRows(table, file), ranges) == [] <==> !HasAsked(table, file, ranges)
  {
    var rows := Within(TableRows(table, file), ranges);
    var at := WithinPicks(TableRows(table, file), ranges);
    WithinMembers(TableRows(table, file), ranges);
    hide Picks, Within;
    if rows != [] {
      assert rows[0] in rows;
    }
  }

  /** Line 1 is reviewed in the domain table and line 2 only in the legacy table: the file's
      layout sees no review of line 2, a read of line 2 does. */
  lemma RangeReadShowsLegacyReview()
    ensures var s := Snapshot(map[7 := [Row(1, 10)]], map[7 := [Row(2, 20)]]);
      && OverlayAt(s, 7, [(2, 2)]) == [Row(2, 20)]
      && Within(OverlayAt(s, 7, []), [(2, 2)]) == []
  {
    var s := Snapshot(map[7 := [Row(1, 10)]], map[7 := [Row(2, 20)]]);
    var ranges: Ranges := [(2, 2)];
    assert InRanges(2, ranges) by {
      assert ranges[0].0 <= 2 <= ranges[0].1;
    }
    assert !InRanges(1, ranges);
    WithinEverything([Row(1, 10)]);
    assert [Row(1, 10)][1..] == [] && [Row(2, 20)][1..] == [];
    assert TableRows(s.domain, 7) == [Row(1, 10)] && TableRows(s.legacy, 7) == [Row(2, 20)];
    RangeReadMatchesFullRead(s, 7, ranges);
  }

  // ---------------------------------------------------------------- the system

  datatype Pc =
    | Begin
    | Checking(v: nat)
    | Checked(v: nat)
    | Loading
    | Publishing(v: nat)
    | Resolved(v: nat)
    | Ready(v: nat)
    | Reading(v: nat)
    | Fallback(v: nat, checkedAt: nat)
    | Storing(v: nat, overlay: Overlay)
    | Done(v: nat, overlay: Overlay)

  /** `started` is the version current when the request began; its lease reads states from
      `floor` on.  A batch request takes a second lease for the overlay. */
  datatype Request = Request(file: int, ranges: Ranges, batch: bool, started: nat, floor: nat, pc: Pc)

  /** `db` holds the state of every data version; the last one is current. */
  datatype State = State(db: seq<Snapshot>, identities: map<int, nat>, overlays: map<Key, Overlay>, requests: seq<Request>)

  datatype Step =
    | Commit(next: Snapshot)
    | Arrive(file: int, ranges: Ranges, batch: bool)
    | EvictIdentities(files: set<int>)
    | EvictOverlays(keys: set<Key>)
    | LookUp(i: nat)
    | QueryVersion(i: nat, seen: nat)
    | Recheck(i: nat)
    | WaitForOwner(i: nat)
    | LoadIdentity(i: nat, seen: nat)
    | PublishIdentity(i: nat, stored: bool)
    | TakeLease(i: nat)
    | OverlayHit(i: nat)
    | OverlayMiss(i: nat)
    | ReadDomain(i: nat, seen: nat)
    | ReadLegacy(i: nat, seen: nat)
    | StoreOverlay(i: nat, stored: bool)

  function KeyOf(r: Request, v: nat): Key {
    Key(r.file, v, r.ranges)
  }

  /** A lease sees states in the order of their versions and none from before it was taken. */
  predicate CanRead(s: State, r: Request, seen: nat) {
    r.floor <= seen < |s.db|
  }

  /** The single-flight rules only remove behaviours: a request that would wait may look up again
      at any time, and any request may be the one that loads. */
  predicate CanStep(s: State, step: Step) {
    match step
    case Commit(_) => true
    case Arrive(_, _, _) => |s.db| > 0
    case EvictIdentities(_) => true
    case EvictOverlays(_) => true
    case LookUp(i) => i < |s.requests| && s.requests[i].pc.Begin?
    case QueryVersion(i, seen) => i < |s.requests| && s.requests[i].pc.Checking? && CanRead(s, s.requests[i], seen)
    case Recheck(i) => i < |s.requests| && s.requests[i].pc.Checked?
    case WaitForOwner(i) => i < |s.requests| && s.requests[i].pc.Loading?
    case LoadIdentity(i, seen) => i < |s.requests| && s.requests[i].pc.Loading? && CanRead(s, s.requests[i], seen)
    case PublishIdentity(i, _) => i < |s.requests| && s.requests[i].pc.Publishing?
    case TakeLease(i) => i < |s.requests| && s.requests[i].pc.Resolved? && |s.db| > 0
    case OverlayHit(i) =>
      i < |s.requests| && s.requests[i].pc.Ready? && KeyOf(s.requests[i], s.requests[i].pc.v) in s.overlays
    case OverlayMiss(i) =>
      i < |s.requests| && s.requests[i].pc.Ready? && KeyOf(s.requests[i], s.requests[i].pc.v) !in s.overlays
    case ReadDomain(i, seen) => i < |s.requests| && s.requests[i].pc.Reading? && CanRead(s, s.requests[i], seen)
    case ReadLegacy(i, seen) => i < |s.requests| && s.requests[i].pc.Fallback? && CanRead(s, s.requests[i], seen)
    case StoreOverlay(i, _) => i < |s.requests| && s.requests[i].pc.Storing?
  }

  function To(s: State, i: nat, floor: nat, pc: Pc): State
    requires i < |s.requests|
  {
    s.(requests := s.requests[i := s.requests[i].(floor := floor, pc := pc)])
  }

  function After(s: State, step: Step): State
    requires CanStep(s, step)
  {
    match step
    case Commit(next) => s.(db := s.db + [next])
    case Arrive(file, ranges, batch) =>
      s.(requests := s.requests + [Request(file, ranges, batch, |s.db| - 1, |s.db| - 1, Begin)])
    case EvictIdentities(files) => s.(identities := s.identities - files)
    case EvictOverlays(keys) => s.(overlays := s.overlays - keys)
    case LookUp(i) =>
      var r := s.requests[i];
      To(s, i, r.floor, if r.file in s.identities then Checking(s.identities[r.file]) else Loading)
    case QueryVersion(i, seen) =>
      var r := s.requests[i];
      if seen == r.pc.v then To(s, i, seen, Checked(r.pc.v))
      else
        var dropped := r.file in s.identities && s.identities[r.file] == r.pc.v;
        To(if dropped then s.(identities := s.identities - {r.file}) else s, i, seen, Loading)
    case Recheck(i) =>
      var r := s.requests[i];
      To(s, i, r.floor, if r.file in s.identities && s.identities[r.file] == r.pc.v then Resolved(r.pc.v) else Loading)
    case WaitForOwner(i) => To(s, i, s.requests[i].floor, Begin)
    case LoadIdentity(i, seen) => To(s, i, seen, Publishing(seen))
    case PublishIdentity(i, stored) =>
      var r := s.requests[i];
      To(if stored then s.(identities := s.identities[r.file := r.pc.v]) else s, i, r.floor, Resolved(r.pc.v))
    case TakeLease(i) =>
      var r := s.requests[i];
      To(s, i, if r.batch then |s.db| - 1 else r.floor, Ready(r.pc.v))
    case OverlayHit(i) =>
      var r := s.requests[i];
      To(s, i, r.floor, Done(r.pc.v, s.overlays[KeyOf(r, r.pc.v)]))
    case OverlayMiss(i) => To(s, i, s.requests[i].floor, Reading(s.requests[i].pc.v))
    case ReadDomain(i, seen) =>
      var r := s.requests[i];
      var rows := Select(s.db[seen], Domain, r.file, r.ranges);
      To(s, i, seen, if rows != [] then Storing(r.pc.v, Overlay(Domain, seen, seen, rows)) else Fallback(r.pc.v, seen))
    case ReadLegacy(i, seen) =>
      var r := s.requests[i];
      To(s, i, seen, Storing(r.pc.v, Overlay(Legacy, seen, r.pc.checkedAt, Select(s.db[seen], Legacy, r.file, r.ranges))))
    case StoreOverlay(i, stored) =>
      var r := s.requests[i];
      var key := KeyOf(r, r.pc.v);
      var cached := if stored then s.overlays[key := r.pc.overlay] else s.overlays;
      To(s.(overlays := cached), i, r.floor, Done(r.pc.v, if key in cached then cached[key] else r.pc.overlay))
  }

  // ---------------------------------------------------------------- freshness

  /** The overlay was read from one table in one state that is no older than version `v`. */
  ghost predicate Fresh(db: seq<Snapshot>, file: int, ranges: Ranges, v: nat, o: Overlay) {
    && v <= o.checkedAt <= o.version < |db|
    && o.rows == Select(db[o.version], o.source, file, ranges)
    && (if o.source.Domain? then o.rows != [] && o.checkedAt == o.version
        else Select(db[o.checkedAt], Domain, file, ranges) == [])
  }

  ghost predicate RequestOk(db: seq<Snapshot>, r: Request) {
    && r.started <= r.floor < |db|
    && match r.pc
       case Begin => true
       case Checking(v) => v < |db|
       case Checked(v) => r.started <= v <= r.floor
       case Loading => true
       case Publishing(v) => r.started <= v <= r.floor
       case Resolved(v) => r.started <= v <= r.floor
       case Ready(v) => r.started <= v <= r.floor
       case Reading(v) => r.started <= v <= r.floor
       case Fallback(v, checkedAt) =>
         r.started <= v <= checkedAt <= r.floor && Select(db[checkedAt], Domain, r.file, r.ranges) == []
       case Storing(v, overlay) => r.started <= v && Fresh(db, r.file, r.ranges, v, overlay)
       case Done(v, overlay) => r.started <= v && Fresh(db, r.file, r.ranges, v, overlay)
  }

  ghost predicate Inv(s: State) {
    && (forall f :: f in s.identities ==> s.identities[f] < |s.db|)
    && (forall k :: k in s.overlays ==> Fresh(s.db, k.file, k.ranges, k.version, s.overlays[k]))
    && (forall i :: 0 <= i < |s.requests| ==> RequestOk(s.db, s.requests[i]))
  }

  lemma CommitKeepsInv(s: State, next: Snapshot)
    requires Inv(s)
    ensures Inv(s.(db := s.db + [next]))
  {
    var db := s.db + [next];
    assert forall w :: 0 <= w < |s.db| ==> db[w] == s.db[w];
    hide Select;
    forall k | k in s.overlays
      ensures Fresh(db, k.file, k.ranges, k.version, s.overlays[k])
    {
      assert Fresh(s.db, k.file, k.ranges, k.version, s.overlays[k]);
    }
    forall i | 0 <= i < |s.requests|
      ensures RequestOk(db, s.requests[i])
    {
      assert RequestOk(s.db, s.requests[i]);
    }
  }

  predicate IdentityStep(step: Step) {
    step.LookUp? || step.QueryVersion? || step.Recheck? || step.WaitForOwner? || step.LoadIdentity?
    || step.PublishIdentity? || step.TakeLease?
  }

  predicate OverlayStep(step: Step) {
    step.OverlayHit? || step.OverlayMiss? || step.ReadDomain? || step.ReadLegacy? || step.StoreOverlay?
  }

  /** One request's own step keeps what is known of it. */
  lemma IdentityStepKeepsRequest(s: State, step: Step)
    requires Inv(s) && CanStep(s, step) && IdentityStep(step)
    ensures RequestOk(s.db, After(s, step).requests[step.i])
  {
    hide Select, Fresh;
    assert RequestOk(s.db, s.requests[step.i]);
  }

  lemma OverlayStepKeepsRequest(s: State, step: Step)
    requires Inv(s) && CanStep(s, step) && OverlayStep(step)
    ensures RequestOk(s.db, After(s, step).requests[step.i])
  {
    hide Select;
    assert RequestOk(s.db, s.requests[step.i]);
    if step.StoreOverlay? || step.OverlayHit? {
      var key := KeyOf(s.requests[step.i], s.requests[step.i].pc.v);
      assert key in s.overlays ==> Fresh(s.db, key.file, key.ranges, key.version, s.overlays[key]);
    }
  }

  lemma OthersStay(s: State, step: Step)
    requires CanStep(s, step) && (IdentityStep(step) || OverlayStep(step))
    ensures After(s, step).db == s.db
    ensures After(s, step).requests == s.requests[step.i := After(s, step).requests[step.i]]
  {
    hide Select;
  }

  lemma StepKeepsInv(s: State, step: Step)
    requires Inv(s) && CanStep(s, step)
    ensures Inv(After(s, step)) && s.db <= After(s, step).db
  {
    hide Select, Fresh;
    if step.Commit? {
      CommitKeepsInv(s, step.next);
    } else if IdentityStep(step) || OverlayStep(step) {
      OthersStay(s, step);
      StepKeepsCaches(s, step);
      if IdentityStep(step) {
        IdentityStepKeepsRequest(s, step);
      } else {
        OverlayStepKeepsRequest(s, step);
      }
    }
  }

  lemma StepKeepsCaches(s: State, step: Step)
    requires Inv(s) && CanStep(s, step) && !step.Commit?
    ensures var t := After(s, step);
      && (forall f :: f in t.identities ==> t.identities[f] < |s.db|)
      && (forall k :: k in t.overlays ==> Fresh(s.db, k.file, k.ranges, k.version, t.overlays[k]))
  {
    hide Select, Fresh;
    if step.PublishIdentity? || step.StoreOverlay? {
      assert RequestOk(s.db, s.requests[step.i]);
    }
  }

  /** What one request stores, the next one for the same version and ranges answers with. */
  lemma StoredOverlayIsShared(s: State, i: nat, j: nat)
    requires CanStep(s, StoreOverlay(i, true)) && j < |s.requests| && i != j && s.requests[j].pc.Ready?
    requires KeyOf(s.requests[j], s.requests[j].pc.v) == KeyOf(s.requests[i], s.requests[i].pc.v)
    ensures var t := After(s, StoreOverlay(i, true));
      && t.requests[i].pc == Done(s.requests[i].pc.v, s.requests[i].pc.overlay)
      && CanStep(t, OverlayHit(j)) && !CanStep(t, OverlayMiss(j))
      && After(t, OverlayHit(j)).requests[j].pc == t.requests[i].pc
  {
  }

  // ---------------------------------------------------------------- runs

  ghost predicate ValidRun(s: State, run: seq<Step>)
    decreases |run|
  {
    run != [] ==> CanStep(s, run[0]) && ValidRun(After(s, run[0]), run[1..])
  }

  ghost function Final(s: State, run: seq<Step>): State
    requires ValidRun(s, run)
    decreases |run|
  {
    if run == [] then s else Final(After(s, run[0]), run[1..])
  }

  lemma {:induction false} RunKeepsInv(s: State, run: seq<Step>)
    requires Inv(s) && ValidRun(s, run)
    ensures Inv(Final(s, run)) && s.db <= Final(s, run).db
    decreases |run|
  {
    hide Inv, After, CanStep;
    if run != [] {
      StepKeepsInv(s, run[0]);
      RunKeepsInv(After(s, run[0]), run[1..]);
    }
  }

  /** On the tables: the overlay is exactly what is asked for of one table in one state, of the
      domain table, which has some of it, or of the legacy table, no earlier than a state in which
      the domain table had none of it. */
  ghost predicate ShowsOneTable(db: seq<Snapshot>, file: int, ranges: Ranges, v: nat, o: Overlay) {
    && v <= o.checkedAt <= o.version < |db|
    && ShowsTable(if o.source.Domain? then db[o.version].domain else db[o.version].legacy, file, ranges, o.rows)
    && (if o.source.Domain? then o.rows != [] else !HasAsked(db[o.checkedAt].domain, file, ranges))
  }

  lemma FreshShowsTable(db: seq<Snapshot>, file: int, ranges: Ranges, v: nat, o: Overlay)
    requires Fresh(db, file, ranges, v, o)
    ensures ShowsOneTable(db, file, ranges, v, o)
  {
    hide ShowsTable, HasAsked, Within, TableRows;
    WithinAsked(db[o.version].domain, file, ranges);
    WithinAsked(db[o.version].legacy, file, ranges);
    WithinAsked(db[o.checkedAt].domain, file, ranges);
  }

  /** Whatever commits, requests and evictions interleave: a request that resolved its identity at
      version v answers with the rows of one table in one state of version at least v, and v is no
      older than the state when the request began.  So a request that begins after a commit sees
      it, and one that no commit overtakes answers exactly the current overlay. */
  lemma OverlaysAreFresh(first: Snapshot, run: seq<Step>, i: nat)
    requires var s := State([first], map[], map[], []);
      ValidRun(s, run) && i < |Final(s, run).requests| && Final(s, run).requests[i].pc.Done?
    ensures var s := Final(State([first], map[], map[], []), run);
      var r := s.requests[i];
      && r.started <= r.pc.v <= r.pc.overlay.version < |s.db|
      && Fresh(s.db, r.file, r.ranges, r.pc.v, r.pc.overlay)
      && ShowsOneTable(s.db, r.file, r.ranges, r.pc.v, r.pc.overlay)
      && (r.started == |s.db| - 1 ==> r.pc.overlay.checkedAt == r.pc.overlay.version == |s.db| - 1)
      && (r.started == |s.db| - 1 ==> r.pc.overlay.rows == OverlayAt(s.db[|s.db| - 1], r.file, r.ranges))
  {
    var start := State([first], map[], map[], []);
    RunKeepsInv(start, run);
    hide Select, ShowsOneTable;
    var s := Final(start, run);
    assert RequestOk(s.db, s.requests[i]);
    var r := s.requests[i];
    FreshShowsTable(s.db, r.file, r.ranges, r.pc.v, r.pc.overlay);
  }
}
