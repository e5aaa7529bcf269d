/** The identity and overlay caches of the versioned service, its sidecar stores, and the
    byte budget they all share (app/code_detail/vnext_service.py). */
module ServiceCaches {
  import opened Caching
  import opened SidecarStores

  datatype BaseKey = BaseKey(scan: int, report: string, repository: string, file: string)

  datatype ServiceKey =
    | IdentityKey(base: BaseKey, version: int, asset: string)
    | OverlayKey(report: string, scan: int, file: int, dataVersion: int, assetId: string, ranges: seq<(int, int)>)

  datatype ServiceName = Identity | Overlay

  datatype ServiceLimits = ServiceLimits(
    maxIdentityEntries: nat, maxOverlayEntries: nat,
    maxIdentityBytes: nat, maxOverlayBytes: nat,
    maxCacheBytes: nat, maxEntry: nat, maxStores: nat, store: Limits) {

    predicate Valid() {
      maxIdentityEntries >= 1 && maxOverlayEntries >= 1 && maxStores >= 1 && store.Valid()
    }

    function Entries(name: ServiceName): nat {
      if name.Identity? then maxIdentityEntries else maxOverlayEntries
    }

    function MaxBytes(name: ServiceName): nat {
      if name.Identity? then maxIdentityBytes else maxOverlayBytes
    }
  }

  // ---------------------------------------------------------------- contents as a value

  /** Both caches and the index from a file identity to its newest cached key. */
  datatype Tables = Tables(identity: Dict<ServiceKey>, overlay: Dict<ServiceKey>, index: map<BaseKey, ServiceKey>) {
    function Of(name: ServiceName): Dict<ServiceKey> {
      if name.Identity? then identity else overlay
    }

    function With(name: ServiceName, d: Dict<ServiceKey>): Tables {
      if name.Identity? then this.(identity := d) else this.(overlay := d)
    }

    function Total(): nat {
      Bytes(identity) + Bytes(overlay)
    }

    /** Every indexed key is a cached key of that identity. */
    ghost predicate IndexSound() {
      forall b :: b in index ==> index[b].IdentityKey? && index[b].base == b && HasKey(identity, index[b])
    }

    ghost predicate SoundAll() {
      Sound(identity) && Sound(overlay) && IndexSound()
    }

    ghost predicate Within(limits: ServiceLimits) {
      && |identity| <= limits.maxIdentityEntries && |overlay| <= limits.maxOverlayEntries
      && Bytes(identity) <= limits.maxIdentityBytes && Bytes(overlay) <= limits.maxOverlayBytes
      && Total() <= limits.maxCacheBytes
    }

    function Unindexed(name: ServiceName, key: ServiceKey): map<BaseKey, ServiceKey> {
      if name.Identity? && key.IdentityKey? && key.base in index && index[key.base] == key then index - {key.base} else index
    }

    /** One entry removed, with its index entry if that pointed to it. */
    function Removed(name: ServiceName, key: ServiceKey): (r: Tables)
      ensures |r.Of(name)| == if HasKey(Of(name), key) then |Of(name)| - 1 else |Of(name)|
    {
      if HasKey(Of(name), key) then With(name, Without(Of(name), key)).(index := Unindexed(name, key)) else this
    }
  }

  predicate NeedsServiceRoom(t: Tables, name: ServiceName, size: nat, limits: ServiceLimits) {
    t.Of(name) != [] && (|t.Of(name)| >= limits.Entries(name)
                         || Bytes(t.Of(name)) + size > limits.MaxBytes(name)
                         || t.Total() + size > limits.maxCacheBytes)
  }

  /** Oldest-first evictions, only from the cache that is being written. */
  function ServiceRoom(t: Tables, name: ServiceName, size: nat, limits: ServiceLimits): Tables
    decreases |t.Of(name)|
  {
    if NeedsServiceRoom(t, name, size, limits) then
      assert HasKey(t.Of(name), t.Of(name)[0].key);
      ServiceRoom(t.Removed(name, t.Of(name)[0].key), name, size, limits)
    else t
  }

  predicate Bypassed(name: ServiceName, size: nat, limits: ServiceLimits) {
    limits.MaxBytes(name) <= 0 || limits.maxEntry <= 0 || size > limits.MaxBytes(name) || size > limits.maxEntry
  }

  function ClearedFor(t: Tables, name: ServiceName, key: ServiceKey, size: nat, limits: ServiceLimits): Tables {
    ServiceRoom(t.Removed(name, key), name, size, limits)
  }

  function StoredIn(t: Tables, name: ServiceName, key: ServiceKey, value: Payload): Tables {
    t.With(name, t.Of(name) + [Entry(key, value, EstimateCacheBytes(value))])
  }

  /** The tables after a store, given whether the budgets accepted the entry. */
  function AfterStore(t: Tables, name: ServiceName, key: ServiceKey, value: Payload, stored: bool,
                      limits: ServiceLimits): Tables {
    var size := EstimateCacheBytes(value);
    if Bypassed(name, size, limits) then t
    else if stored then StoredIn(ClearedFor(t, name, key, size, limits), name, key, value)
    else ClearedFor(t, name, key, size, limits)
  }

  /** The entry of the key, if there is one, is taken out with its index entry; everything else stays. */
  ghost predicate EntryGone(before: Tables, after: Tables, name: ServiceName, key: ServiceKey) {
    if HasKey(before.Of(name), key) then EntryLeaves(before, after, name, key) else after == before
  }

  ghost predicate EntryLeaves(before: Tables, after: Tables, name: ServiceName, key: ServiceKey) {
    && TakenOut(before.Of(name), key, after.Of(name))
    && (if name.Identity? then after.overlay == before.overlay else after.identity == before.identity)
    && forall b :: if b in before.index && (name.Overlay? || before.index[b] != key)
                   then b in after.index && after.index[b] == before.index[b] else b !in after.index
  }

  lemma RemovedIsGone(t: Tables, name: ServiceName, key: ServiceKey)
    requires t.SoundAll()
    ensures EntryGone(t, t.Removed(name, key), name, key)
  {
    WithoutTakesOut(t.Of(name), key);
    hide TakenOut, Without, Sound;
  }

  lemma RemovedProperties(t: Tables, name: ServiceName, key: ServiceKey)
    requires t.SoundAll()
    ensures var r := t.Removed(name, key);
      && r.SoundAll() && !HasKey(r.Of(name), key)
      && Bytes(r.Of(name)) + SizeAt(t.Of(name), key) == Bytes(t.Of(name))
      && r.Total() + SizeAt(t.Of(name), key) == t.Total()
      && |r.identity| <= |t.identity| && |r.overlay| <= |t.overlay|
      && Bytes(r.identity) <= Bytes(t.identity) && Bytes(r.overlay) <= Bytes(t.overlay)
  {
    var r := t.Removed(name, key);
    WithoutBytes(t.Of(name), key);
    WithoutSound(t.Of(name), key);
    WithoutKeys(t.Of(name), key, key);
    forall b | b in r.index
      ensures r.index[b].IdentityKey? && r.index[b].base == b && HasKey(r.identity, r.index[b])
    {
      if name.Identity? {
        WithoutKeys(t.identity, key, t.index[b]);
      }
    }
  }

  lemma {:induction false} ServiceRoomProperties(t: Tables, name: ServiceName, size: nat, limits: ServiceLimits)
    requires t.SoundAll() && limits.Valid() && size <= limits.MaxBytes(name)
    ensures var r := ServiceRoom(t, name, size, limits);
      && r.SoundAll()
      && |r.identity| <= |t.identity| && |r.overlay| <= |t.overlay|
      && Bytes(r.identity) <= Bytes(t.identity) && Bytes(r.overlay) <= Bytes(t.overlay)
      && |r.Of(name)| < limits.Entries(name) && Bytes(r.Of(name)) + size <= limits.MaxBytes(name)
    decreases |t.Of(name)|
  {
    if NeedsServiceRoom(t, name, size, limits) {
      var key := t.Of(name)[0].key;
      assert HasKey(t.Of(name), key);
      RemovedProperties(t, name, key);
      ServiceRoomProperties(t.Removed(name, key), name, size, limits);
    }
  }

  // ---------------------------------------------------------------- which entries go

  /** There is no room for the new entry while all but the j oldest entries stay. */
  ghost predicate Crowded(t: Tables, name: ServiceName, size: nat, limits: ServiceLimits, j: nat) {
    && j < |t.Of(name)|
    && var left := t.Of(name)[j..];
       || |left| >= limits.Entries(name)
       || Bytes(left) + size > limits.MaxBytes(name)
       || Bytes(left) + Bytes(if name.Identity? then t.overlay else t.identity) + size > limits.maxCacheBytes
  }

  /** The index loses exactly the entries that point to one of the first k keys. */
  ghost predicate IndexLoses(before: Tables, after: Tables, name: ServiceName, k: nat)
    requires k <= |before.Of(name)|
  {
    forall b :: if b in before.index && (name.Overlay? || !HasKey(before.identity[..k], before.index[b]))
                then b in after.index && after.index[b] == before.index[b] else b !in after.index
  }

  /** Of one cache exactly the k oldest entries are gone, no fewer than needed and no more; what is
      left is followed by `added`.  The other cache is as it was. */
  ghost predicate OldestGone(before: Tables, after: Tables, name: ServiceName, size: nat, limits: ServiceLimits,
                             added: Dict<ServiceKey>, k: nat) {
    && k <= |before.Of(name)|
    && after.Of(name) == before.Of(name)[k..] + added
    && (if name.Identity? then after.overlay == before.overlay else after.identity == before.identity)
    && (forall j: nat :: j < k ==> Crowded(before, name, size, limits, j)) && !Crowded(before, name, size, limits, k)
    && IndexLoses(before, after, name, k)
  }

  lemma {:induction false} RoomTakesOldest(t: Tables, name: ServiceName, size: nat, limits: ServiceLimits) returns (k: nat)
    requires t.SoundAll()
    ensures OldestGone(t, ServiceRoom(t, name, size, limits), name, size, limits, [], k)
    decreases |t.Of(name)|
  {
    hide Sound, Crowded;
    RoomStep(t, name, size, limits);
    if NeedsServiceRoom(t, name, size, limits) {
      var oldest := t.Of(name)[0].key;
      assert HasKey(t.Of(name), oldest);
      RemovedProperties(t, name, oldest);
      var rest := RoomTakesOldest(t.Removed(name, oldest), name, size, limits);
      k := rest + 1;
      OneMoreGone(t, ServiceRoom(t, name, size, limits), name, size, limits, rest);
    } else {
      k := 0;
      assert t.Of(name)[0..] + [] == t.Of(name);
    }
  }

  lemma RoomStep(t: Tables, name: ServiceName, size: nat, limits: ServiceLimits)
    ensures NeedsServiceRoom(t, name, size, limits) <==> Crowded(t, name, size, limits, 0)
  {
    assert t.Of(name)[0..] == t.Of(name);
  }

  lemma OneMoreGone(t: Tables, r: Tables, name: ServiceName, size: nat, limits: ServiceLimits, rest: nat)
    requires t.SoundAll() && t.Of(name) != [] && Crowded(t, name, size, limits, 0)
    requires OldestGone(t.Removed(name, t.Of(name)[0].key), r, name, size, limits, [], rest)
    ensures OldestGone(t, r, name, size, limits, [], rest + 1)
  {
    var d := t.Of(name);
    var next := t.Removed(name, d[0].key);
    assert next.Of(name) == d[1..];
    forall j: nat | j <= rest
      ensures Crowded(next, name, size, limits, j) <==> Crowded(t, name, size, limits, j + 1)
    {
      if j < |d[1..]| {
        assert d[1..][j..] == d[j + 1..];
      }
    }
    assert d[1..][rest..] == d[rest + 1..];
    forall j: nat | j < rest + 1
      ensures Crowded(t, name, size, limits, j)
    {
      assert j > 0 ==> Crowded(next, name, size, limits, j - 1);
    }
    IndexLosesOneMore(t, r, name, rest);
  }

  lemma IndexLosesOneMore(t: Tables, r: Tables, name: ServiceName, rest: nat)
    requires t.SoundAll() && t.Of(name) != [] && rest <= |t.Of(name)| - 1
    requires IndexLoses(t.Removed(name, t.Of(name)[0].key), r, name, rest)
    ensures IndexLoses(t, r, name, rest + 1)
  {
    var d := t.Of(name);
    var next := t.Removed(name, d[0].key);
    assert next.Of(name) == d[1..];
    assert d[..rest + 1] == [d[0]] + d[1..][..rest];
    if name.Identity? {
      forall b | b in t.index
        ensures HasKey(t.identity[..rest + 1], t.index[b]) <==>
                t.index[b] == d[0].key || HasKey(d[1..][..rest], t.index[b])
      {
      }
    }
  }

  lemma {:induction false} RoomKeepsAbsence(t: Tables, name: ServiceName, key: ServiceKey, size: nat, limits: ServiceLimits)
    requires t.SoundAll() && !HasKey(t.Of(name), key)
    ensures !HasKey(ServiceRoom(t, name, size, limits).Of(name), key)
    decreases |t.Of(name)|
  {
    if NeedsServiceRoom(t, name, size, limits) {
      var oldest := t.Of(name)[0].key;
      assert HasKey(t.Of(name), oldest);
      RemovedProperties(t, name, oldest);
      WithoutKeys(t.Of(name), oldest, key);
      RoomKeepsAbsence(t.Removed(name, oldest), name, key, size, limits);
    }
  }

  /** Making room in one cache leaves the other as it is. */
  lemma {:induction false} RoomKeepsOtherCache(t: Tables, name: ServiceName, size: nat, limits: ServiceLimits)
    ensures var r := ServiceRoom(t, name, size, limits);
      if name.Identity? then r.overlay == t.overlay else r.identity == t.identity && r.index == t.index
    decreases |t.Of(name)|
  {
    if NeedsServiceRoom(t, name, size, limits) {
      var oldest := t.Of(name)[0].key;
      assert HasKey(t.Of(name), oldest);
      RoomKeepsOtherCache(t.Removed(name, oldest), name, size, limits);
    }
  }

  /** Storing keeps every bound: entry counts, each cache's bytes, and their sum. */
  lemma StoreKeepsBounds(t: Tables, name: ServiceName, key: ServiceKey, value: Payload, limits: ServiceLimits)
    requires t.SoundAll() && t.Within(limits) && limits.Valid()
    requires !Bypassed(name, EstimateCacheBytes(value), limits)
    ensures var size := EstimateCacheBytes(value);
            var r := ClearedFor(t, name, key, size, limits);
            var s := StoredIn(r, name, key, value);
      && r.SoundAll() && r.Within(limits)
      && s.SoundAll() && s.Total() == r.Total() + size
      && Bytes(s.Of(name)) == Bytes(r.Of(name)) + size
      && (r.Total() + size <= limits.maxCacheBytes ==> s.Within(limits))
      && HasKey(s.Of(name), key)
  {
    var size := EstimateCacheBytes(value);
    RemovedProperties(t, name, key);
    ServiceRoomProperties(t.Removed(name, key), name, size, limits);
    RoomKeepsAbsence(t.Removed(name, key), name, key, size, limits);
    var r := ClearedFor(t, name, key, size, limits);
    var entry := Entry(key, value, size);
    Appended(r.Of(name), entry, key);
    forall b | b in r.index
      ensures HasKey(StoredIn(r, name, key, value).identity, r.index[b])
    {
      Appended(r.Of(name), entry, r.index[b]);
    }
  }

  /** Once the key's old entry is out, the store evicts exactly the oldest entries it has to and
      adds the new entry if it is accepted. */
  ghost predicate EvictsOldest(before: Tables, after: Tables, name: ServiceName, key: ServiceKey, value: Payload,
                               stored: bool, limits: ServiceLimits) {
    var size := EstimateCacheBytes(value);
    var freed, added := before.Removed(name, key), if stored then [Entry(key, value, size)] else [];
    exists k :: OldestGone(freed, after, name, size, limits, added, k)
  }

  lemma StoreTakesOldest(t: Tables, name: ServiceName, key: ServiceKey, value: Payload, stored: bool, limits: ServiceLimits)
    requires t.SoundAll()
    ensures var r := ClearedFor(t, name, key, EstimateCacheBytes(value), limits);
      EvictsOldest(t, if stored then StoredIn(r, name, key, value) else r, name, key, value, stored, limits)
  {
    var size := EstimateCacheBytes(value);
    var freed, r := t.Removed(name, key), ClearedFor(t, name, key, size, limits);
    RemovedProperties(t, name, key);
    var k := RoomTakesOldest(freed, name, size, limits);
    AddedBehind(freed, r, name, size, limits, Entry(key, value, size), k);
    var added := if stored then [Entry(key, value, size)] else [];
    var after := if stored then StoredIn(r, name, key, value) else r;
    assert OldestGone(freed, after, name, size, limits, added, k);
    assert EvictsOldest(t, after, name, key, value, stored, limits);
  }

  lemma AddedBehind(before: Tables, r: Tables, name: ServiceName, size: nat, limits: ServiceLimits, e: Entry<ServiceKey>, k: nat)
    requires OldestGone(before, r, name, size, limits, [], k)
    ensures OldestGone(before, r.With(name, r.Of(name) + [e]), name, size, limits, [e], k)
  {
    hide Crowded;
    assert (before.Of(name)[k..] + []) + [e] == before.Of(name)[k..] + [e];
  }

  // ---------------------------------------------------------------- byte sums

  function Sum(s: seq<nat>): nat {
    if s == [] then 0 else s[0] + Sum(s[1..])
  }

  lemma {:induction false} SumUpdated(s: seq<nat>, k: nat, n: nat)
    requires k < |s|
    ensures s[k] <= Sum(s) && Sum(s[k := n]) == Sum(s) - s[k] + n
  {
    if k > 0 {
      SumUpdated(s[1..], k - 1, n);
      assert s[k := n][1..] == s[1..][k - 1 := n];
    } else {
      assert s[k := n][1..] == s[1..];
    }
  }

  lemma {:induction false} SumAppended(s: seq<nat>, n: nat)
    ensures Sum(s + [n]) == Sum(s) + n
  {
    if s != [] {
      SumAppended(s[1..], n);
      assert (s + [n])[1..] == s[1..] + [n];
    } else {
      assert (s + [n])[1..] == [];
    }
  }

  // ---------------------------------------------------------------- the service

  datatype StoreKey = StoreKey(root: string, asset: string)
  datatype Slot = Slot(key: StoreKey, store: SidecarStore)

  /** The stores in use are known ones, each under its own key. */
  ghost predicate InUse(stores: seq<Slot>, all: seq<SidecarStore>) {
    && (forall i :: 0 <= i < |stores| ==> stores[i].store in all)
    && (forall i, j :: 0 <= i < j < |stores| ==> stores[i].key != stores[j].key)
  }

  /** The bytes of every store once `dropped` has been cleared. */
  ghost function HeldWithout(held: seq<nat>, all: seq<SidecarStore>, dropped: SidecarStore): seq<nat> {
    seq(|held|, i requires 0 <= i < |held| => if i < |all| && all[i] == dropped then 0 else held[i])
  }

  ghost function Oldest(stores: seq<Slot>): set<SidecarStore> {
    if stores == [] then {} else {stores[0].store}
  }

  function MovedSlot(stores: seq<Slot>, k: nat): (r: seq<Slot>)
    requires k < |stores|
    ensures |r| == |stores| && r[|r| - 1] == stores[k]
    ensures forall i :: 0 <= i < |r| - 1 ==> r[i] == stores[if i < k then i else i + 1]
  {
    stores[..k] + stores[k + 1..] + [stores[k]]
  }

  lemma MovedSlotInUse(stores: seq<Slot>, k: nat, all: seq<SidecarStore>)
    requires k < |stores| && InUse(stores, all)
    ensures InUse(MovedSlot(stores, k), all)
  {
    var r := MovedSlot(stores, k);
    forall i | 0 <= i < |r|
      ensures r[i] == stores[if i < k then i else if i < |r| - 1 then i + 1 else k]
    {
    }
  }

  lemma AdoptedInUse(stores: seq<Slot>, slot: Slot, all: seq<SidecarStore>)
    requires InUse(stores, all) && slot.store in all
    requires forall i :: 0 <= i < |stores| ==> stores[i].key != slot.key
    ensures InUse(stores + [slot], all)
  {
  }

  lemma TailInUse(stores: seq<Slot>, all: seq<SidecarStore>)
    requires stores != [] && InUse(stores, all)
    ensures InUse(stores[1..], all)
  {
  }

  class Service {
    const limits: ServiceLimits
    const budget: ByteBudget
    var tables: Tables
    var identityBytes: nat
    var overlayBytes: nat
    /** The stores in use, least recently used first. */
    var stores: seq<Slot>
    /** Every store ever created, in use or not, and the bytes each one holds. */
    ghost var all: seq<SidecarStore>
    ghost var held: seq<nat>

    /** The counters are the sums of the entry sizes, and the shared budget is the sum over both
        caches and every store ever created. */
    ghost predicate Counted()
      reads this`tables, this`identityBytes, this`overlayBytes, this`held, budget
    {
      && identityBytes == Bytes(tables.identity)
      && overlayBytes == Bytes(tables.overlay)
      && budget.Valid()
      && budget.maxBytes == limits.maxCacheBytes
      && budget.bytes == identityBytes + overlayBytes + Sum(held)
    }

    /** Every store ever created is valid, charges this budget and is listed once. */
    ghost predicate StoresValid()
      reads this`all, this`held, all
    {
      && |held| == |all|
      && (forall i, j :: 0 <= i < j < |all| ==> all[i] != all[j])
      && (forall i :: 0 <= i < |all| ==>
            all[i].Valid() && all[i].budget == budget && all[i].limits == limits.store && all[i].cacheBytes == held[i])
    }

    /** Everything but the number of stores in use. */
    ghost predicate Core()
      reads this, budget, all
    {
      && limits.Valid()
      && tables.SoundAll() && tables.Within(limits)
      && Counted() && StoresValid() && InUse(stores, all)
    }

    ghost predicate Valid()
      reads this, budget, all
    {
      Core() && |stores| <= limits.maxStores
    }

    constructor (limits: ServiceLimits)
      requires limits.Valid()
      ensures Valid() && this.limits == limits && fresh(budget)
      ensures tables == Tables([], [], map[]) && stores == [] && all == []
    {
      this.limits := limits;
      budget := new ByteBudget(limits.maxCacheBytes);
      tables, identityBytes, overlayBytes := Tables([], [], map[]), 0, 0;
      stores, all, held := [], [], [];
    }

    function BytesFor(name: ServiceName): nat
      reads this
    {
      if name.Identity? then identityBytes else overlayBytes
    }

    method SetBytesFor(name: ServiceName, n: int)
      modifies this`identityBytes, this`overlayBytes
      ensures name.Identity? ==> identityBytes == MaxZero(n) && overlayBytes == old(overlayBytes)
      ensures name.Overlay? ==> overlayBytes == MaxZero(n) && identityBytes == old(identityBytes)
    {
      if name.Identity? {
        identityBytes := MaxZero(n);
      } else {
        overlayBytes := MaxZero(n);
      }
    }

    /** _remove_service_entry_locked.  Neither clamp at zero bites. */
    method RemoveServiceEntry(name: ServiceName, key: ServiceKey)
      requires tables.SoundAll() && Counted()
      modifies this`tables, this`identityBytes, this`overlayBytes, budget
      ensures tables.SoundAll() && Counted()
      ensures tables == old(tables).Removed(name, key)
      ensures budget.bytes == old(budget.bytes) - SizeAt(old(tables).Of(name), key)
    {
      RemovedProperties(tables, name, key);
      var cache := tables.Of(name);
      if HasKey(cache, key) {
        var size := EntryAt(cache, key).size;
        tables := tables.With(name, Without(cache, key)).(index := tables.Unindexed(name, key));
        SetBytesFor(name, BytesFor(name) - size);
        budget.Release(size);
      }
    }

    method MakeServiceRoom(name: ServiceName, size: nat)
      requires tables.SoundAll() && Counted()
      modifies this`tables, this`identityBytes, this`overlayBytes, budget
      ensures tables.SoundAll() && Counted()
      ensures tables == ServiceRoom(old(tables), name, size, limits)
    {
      while tables.Of(name) != [] && (|tables.Of(name)| >= limits.Entries(name)
                                      || BytesFor(name) + size > limits.MaxBytes(name)
                                      || identityBytes + overlayBytes + size > limits.maxCacheBytes)
        invariant tables.SoundAll() && Counted()
        invariant ServiceRoom(tables, name, size, limits) == ServiceRoom(old(tables), name, size, limits)
        decreases |tables.Of(name)|
      {
        assert HasKey(tables.Of(name), tables.Of(name)[0].key);
        RemoveServiceEntry(name, tables.Of(name)[0].key);
      }
    }

    /** _store_service_entry_locked: the evictions happen even when the entry is then refused. */
    method StoreServiceEntry(name: ServiceName, key: ServiceKey, value: Payload) returns (stored: bool)
      requires Valid()
      modifies this`tables, this`identityBytes, this`overlayBytes, budget
      ensures Valid()
      ensures stored ==> HasKey(tables.Of(name), key)
      ensures tables == AfterStore(old(tables), name, key, value, stored, limits)
      ensures stored <==>
                && !Bypassed(name, EstimateCacheBytes(value), limits)
                && ClearedFor(old(tables), name, key, EstimateCacheBytes(value), limits).Total() + Sum(held)
                   + EstimateCacheBytes(value) <= limits.maxCacheBytes
      ensures var size := EstimateCacheBytes(value);
        if size > limits.maxEntry || size > limits.MaxBytes(name) then !stored && tables == old(tables)
        else
          && EvictsOldest(old(tables), tables, name, key, value, stored, limits)
          && (stored <==> tables.Total() + (if stored then 0 else size) + Sum(held) <= limits.maxCacheBytes)
    {
      hide ServiceRoom, Bytes, Sum, HasKey, Without, Sound, Tables.SoundAll, Tables.Within, StoresValid, InUse, EvictsOldest;
      var size := EstimateCacheBytes(value);
      if limits.MaxBytes(name) <= 0 || limits.maxEntry <= 0 || size > limits.MaxBytes(name) || size > limits.maxEntry {
        return false;
      }
      StoreKeepsBounds(tables, name, key, value, limits);
      StoreTakesOldest(tables, name, key, value, true, limits);
      StoreTakesOldest(tables, name, key, value, false, limits);
      RemoveServiceEntry(name, key);
      MakeServiceRoom(name, size);
      if identityBytes + overlayBytes + size > limits.maxCacheBytes {
        return false;
      }
      var acquired := budget.TryAcquire(size);
      if !acquired {
        return false;
      }
      tables := tables.With(name, tables.Of(name) + [Entry(key, value, size)]);
      SetBytesFor(name, BytesFor(name) + size);
      stored := true;
    }

    /** The lookup of the identity cache: the indexed entry, made the newest. */
    method LookupIdentity(base: BaseKey) returns (found: bool, value: Payload)
      requires Valid()
      modifies this`tables
      ensures Valid()
      ensures found <==> base in old(tables).index
      ensures found ==> value == EntryAt(old(tables).identity, old(tables).index[base]).value
      ensures tables == if found then old(tables).(identity := Moved(old(tables).identity, old(tables).index[base]))
                        else old(tables)
    {
      found, value := base in tables.index, Payload(0, 0);
      if found {
        var key := tables.index[base];
        value := EntryAt(tables.identity, key).value;
        MovedKeeps(tables.identity, key);
        tables := tables.(identity := Moved(tables.identity, key));
      }
    }

    /** The lookup of the overlay cache. */
    method LookupOverlay(key: ServiceKey) returns (found: bool, value: Payload)
      requires Valid()
      modifies this`tables
      ensures Valid()
      ensures found <==> HasKey(old(tables).overlay, key)
      ensures found ==> value == EntryAt(old(tables).overlay, key).value
      ensures tables == if found then old(tables).(overlay := Moved(old(tables).overlay, key)) else old(tables)
    {
      found, value := HasKey(tables.overlay, key), Payload(0, 0);
      if found {
        value := EntryAt(tables.overlay, key).value;
        MovedKeeps(tables.overlay, key);
        tables := tables.(overlay := Moved(tables.overlay, key));
      }
    }

    /** A cached identity whose version is no longer current is dropped, unless the index has
        moved on in the meantime. */
    method DropStaleIdentity(base: BaseKey, key: ServiceKey)
      requires Valid()
      modifies this`tables, this`identityBytes, this`overlayBytes, budget
      ensures Valid()
      ensures tables == if base in old(tables).index && old(tables).index[base] == key
                        then old(tables).Removed(Identity, key) else old(tables)
      ensures old(tables).index == tables.index || tables.index == old(tables).index - {base}
    {
      if base in tables.index && tables.index[base] == key {
        RemovedProperties(tables, Identity, key);
        RemoveServiceEntry(Identity, key);
      }
    }

    /** The identity owner stores its result and indexes it if it is cached. */
    method PublishIdentity(key: ServiceKey, value: Payload) returns (stored: bool)
      requires Valid() && key.IdentityKey?
      modifies this`tables, this`identityBytes, this`overlayBytes, budget
      ensures Valid()
      ensures stored ==> key.base in tables.index && tables.index[key.base] == key
      ensures HasKey(tables.identity, key) <==> key.base in tables.index && tables.index[key.base] == key
      ensures var t := AfterStore(old(tables), Identity, key, value, stored, limits);
              tables == if HasKey(t.identity, key) then t.(index := t.index[key.base := key]) else t
      ensures tables.overlay == old(tables).overlay
      ensures var size := EstimateCacheBytes(value);
        if size > limits.maxEntry || size > limits.MaxBytes(Identity) then !stored && tables.identity == old(tables).identity
        else exists index ::
               && EvictsOldest(old(tables), tables.(index := index), Identity, key, value, stored, limits)
               && tables.index == if HasKey(tables.identity, key) then index[key.base := key] else index
    {
      hide ServiceRoom, EvictsOldest, Bytes, Sum, Without, Sound;
      stored := StoreServiceEntry(Identity, key, value);
      RoomKeepsOtherCache(old(tables).Removed(Identity, key), Identity, EstimateCacheBytes(value), limits);
      ghost var before := tables;
      assert before == before.(index := before.index);
      if HasKey(tables.identity, key) {
        tables := tables.(index := tables.index[key.base := key]);
      }
      assert tables.(index := before.index) == before;
    }

    predicate HasStore(key: StoreKey)
      reads this
    {
      exists i :: 0 <= i < |stores| && stores[i].key == key
    }

    /** The first locked part of _sidecar_store: a store in use becomes the newest. */
    method LookupStore(key: StoreKey) returns (found: bool, k: nat)
      requires Valid()
      modifies this`stores
      ensures Valid()
      ensures found <==> old(HasStore(key))
      ensures found ==> k < |old(stores)| && old(stores)[k].key == key
                        && stores == MovedSlot(old(stores), k)
      ensures !found ==> stores == old(stores)
    {
      found, k := false, 0;
      while k < |stores|
        invariant k <= |stores| && stores == old(stores)
        invariant forall i :: 0 <= i < k ==> stores[i].key != key
      {
        if stores[k].key == key {
          MovedSlotInUse(stores, k, all);
          stores := MovedSlot(stores, k);
          return true, k;
        }
        k := k + 1;
      }
    }

    /** A new store, made outside the lock and not yet in use. */
    method NewStore() returns (store: SidecarStore)
      requires Valid()
      modifies this`all, this`held
      ensures Valid() && fresh(store)
      ensures all == old(all) + [store] && held == old(held) + [0]
    {
      store := new SidecarStore(limits.store, budget);
      SumAppended(held, 0);
      all, held := all + [store], held + [0];
    }

    /** Work on one store, in use or not: its bytes and the budget move together. */
    method StorePut(store: SidecarStore, ghost k: nat, name: CacheName, key: CacheKey, value: Payload)
      returns (stored: bool)
      requires Valid() && k < |all| && all[k] == store
      modifies this`held, budget, store
      ensures Valid() && held == old(held)[k := store.cacheBytes]
      ensures budget.bytes == old(budget.bytes) - old(held)[k] + store.cacheBytes
      ensures stored ==> HasKey(store.contents.Of(name), key)
      ensures store.contents == AfterPut(old(store.contents), name, key, value, stored, limits.store)
    {
      SumUpdated(held, k, 0);
      stored := store.Put(name, key, value);
      SumUpdated(held, k, store.cacheBytes);
      held := held[k := store.cacheBytes];
    }

    /** A failed load of metadata or of a legacy file drops what was cached for it. */
    method StoreRemove(store: SidecarStore, ghost k: nat, name: CacheName, key: CacheKey)
      requires Valid() && k < |all| && all[k] == store
      modifies this`held, budget, store
      ensures Valid() && held == old(held)[k := store.cacheBytes]
      ensures store.contents == old(store.contents).With(name, Without(old(store.contents).Of(name), key))
      ensures budget.bytes == old(budget.bytes) - SizeAt(old(store.contents).Of(name), key)
    {
      hide Bytes, Sum, HasKey, Without, Sound, Tables.SoundAll, Tables.Within;
      SumUpdated(held, k, 0);
      store.Remove(name, key);
      SumUpdated(held, k, store.cacheBytes);
      held := held[k := store.cacheBytes];
    }

    /** A hit in a store's cache: only the order changes. */
    method StoreTouch(store: SidecarStore, ghost k: nat, name: CacheName, key: CacheKey) returns (found: bool)
      requires Valid() && k < |all| && all[k] == store
      modifies store
      ensures Valid()
      ensures found <==> HasKey(old(store.contents).Of(name), key)
      ensures store.contents == if found
                then old(store.contents).With(name, Moved(old(store.contents).Of(name), key)) else old(store.contents)
    {
      hide Bytes, Sum, Without, Sound, Tables.SoundAll, Tables.Within;
      found := HasKey(store.contents.Of(name), key);
      if found {
        var value := store.Touch(name, key);
      }
    }

    method StoreClear(store: SidecarStore, ghost k: nat)
      requires Core() && k < |all| && all[k] == store
      modifies this`held, budget, store
      ensures Core() && held == old(held)[k := 0] && store.contents == Contents([], [], [])
      ensures budget.bytes == old(budget.bytes) - old(held)[k]
    {
      SumUpdated(held, k, 0);
      store.ClearCaches();
      held := held[k := 0];
    }

    /** The second locked part of _sidecar_store: the candidate is used unless another thread
        was faster, and the least recently used store is cleared when there are too many. */
    method AdoptStore(key: StoreKey, candidate: SidecarStore) returns (store: SidecarStore)
      requires Valid() && candidate in all
      modifies this`stores, this`held, budget, Oldest(stores)
      ensures Valid()
      ensures |stores| > 0 && stores[|stores| - 1] == Slot(key, store)
      ensures old(HasStore(key)) ==> held == old(held)
      ensures old(HasStore(key)) ==>
                exists k: nat :: k < |old(stores)| && old(stores)[k].key == key && stores == MovedSlot(old(stores), k)
      ensures !old(HasStore(key)) ==> store == candidate
      ensures !old(HasStore(key)) && |old(stores)| < limits.maxStores ==>
                stores == old(stores) + [Slot(key, store)] && held == old(held)
      ensures !old(HasStore(key)) && |old(stores)| == limits.maxStores ==>
                && stores == old(stores)[1..] + [Slot(key, store)]
                && held == HeldWithout(old(held), all, old(stores)[0].store)
    {
      hide Counted, StoresValid, Sum, Bytes, HasKey, Sound, Tables.Within, Tables.SoundAll;
      var found, k := LookupStore(key);
      if found {
        return stores[|stores| - 1].store;
      }
      store := candidate;
      AdoptedInUse(stores, Slot(key, store), all);
      stores := stores + [Slot(key, store)];
      while |stores| > limits.maxStores
        invariant Core() && stores != []
        invariant |stores| > limits.maxStores ==> stores == old(stores) + [Slot(key, store)] && held == old(held)
        invariant |stores| <= limits.maxStores ==>
          if |old(stores)| < limits.maxStores then stores == old(stores) + [Slot(key, store)] && held == old(held)
          else stores == old(stores)[1..] + [Slot(key, store)] && held == HeldWithout(old(held), all, old(stores)[0].store)
        decreases |stores|
      {
        EvictStore();
      }
    }

    /** The least recently used store gives back all its bytes; the others are untouched. */
    method EvictStore()
      requires Core() && stores != []
      modifies this`stores, this`held, budget, Oldest(stores)
      ensures Core() && stores == old(stores)[1..]
      ensures held == HeldWithout(old(held), all, old(stores)[0].store)
    {
      hide Counted, Sum, Bytes, HasKey, Sound, Tables.Within, Tables.SoundAll;
      var evicted := stores[0].store;
      ghost var e :| 0 <= e < |all| && all[e] == evicted;
      TailInUse(stores, all);
      StoreClear(evicted, e);
      assert held == HeldWithout(old(held), all, evicted);
      stores := stores[1..];
    }
  }

  // ---------------------------------------------------------------- runs

  /** One locked section of any thread; stores are named by the order of their creation. */
  datatype Operation =
    | ReadIdentity(base: BaseKey)
    | ReadOverlay(key: ServiceKey)
    | DropIdentity(base: BaseKey, key: ServiceKey)
    | Publish(key: ServiceKey, value: Payload)
    | StoreOverlay(key: ServiceKey, value: Payload)
    | FindStore(storeKey: StoreKey)
    | MakeStore
    | UseStore(storeKey: StoreKey, made: nat)
    | PutInStore(made: nat, name: CacheName, cacheKey: CacheKey, value: Payload)
    | TouchInStore(made: nat, name: CacheName, cacheKey: CacheKey)
    | RemoveFromStore(made: nat, name: CacheName, cacheKey: CacheKey)
    | ClearStore(made: nat)

  /** Conservation over every run: whatever the locked sections and their order, the shared
      budget stays the sum over both caches and every store ever made, within all bounds. */
  method Run(limits: ServiceLimits, run: seq<Operation>) returns (service: Service)
    requires limits.Valid()
    ensures service.Valid() && service.limits == limits
    ensures service.budget.bytes == Bytes(service.tables.identity) + Bytes(service.tables.overlay) + Sum(service.held)
    ensures service.budget.bytes <= limits.maxCacheBytes
  {
    service := new Service(limits);
    var made: seq<SidecarStore> := [];
    for i := 0 to |run|
      invariant fresh(service) && fresh(service.budget) && fresh(service.all)
      invariant service.Valid() && service.limits == limits && made == service.all
    {
      made := Perform(service, made, run[i]);
    }
  }

  lemma OldestIsKnown(service: Service)
    requires service.Valid()
    ensures forall store :: store in Oldest(service.stores) ==> store in service.all
  {
  }

  method Perform(service: Service, made: seq<SidecarStore>, op: Operation) returns (after: seq<SidecarStore>)
    requires service.Valid() && made == service.all
    modifies service, service.budget, service.all
    ensures service.Valid() && after == service.all
    ensures made <= after && fresh(after[|made|..])
  {
    hide Service.Core, Service.HasStore, Sum, Bytes, HasKey;
    after := made;
    match op
    case ReadIdentity(base) => var found, value := service.LookupIdentity(base);
    case ReadOverlay(key) => var found, value := service.LookupOverlay(key);
    case DropIdentity(base, key) => service.DropStaleIdentity(base, key);
    case Publish(key, value) =>
      if key.IdentityKey? {
        var stored := service.PublishIdentity(key, value);
      }
    case StoreOverlay(key, value) => var stored := service.StoreServiceEntry(Overlay, key, value);
    case FindStore(key) => var found, k := service.LookupStore(key);
    case MakeStore =>
      var store := service.NewStore();
      after := made + [store];
    case UseStore(key, k) =>
      if k < |made| {
        OldestIsKnown(service);
        var store := service.AdoptStore(key, made[k]);
      }
    case PutInStore(k, name, key, value) =>
      if k < |made| {
        var stored := service.StorePut(made[k], k, name, key, value);
      }
    case TouchInStore(k, name, key) =>
      if k < |made| {
        var found := service.StoreTouch(made[k], k, name, key);
      }
    case RemoveFromStore(k, name, key) =>
      if k < |made| {
        service.StoreRemove(made[k], k, name, key);
      }
    case ClearStore(k) =>
      if k < |made| {
        service.StoreClear(made[k], k);
      }
  }
}
