/** The metadata, legacy and chunk caches of one sidecar store (app/code_detail/sidecar_store.py). */
module SidecarStores {
  import opened Caching

  datatype CacheName = Metadata | Legacy | Chunk
  datatype CacheKey = CacheKey(report: string, file: string, chunk: int, identity: string)

  datatype Limits = Limits(maxBytes: nat, maxEntry: nat, maxMetadata: nat, maxLegacy: nat, maxChunks: nat) {
    predicate Valid() {
      maxMetadata >= 1 && maxLegacy >= 1 && maxChunks >= 1
    }

    function Entries(name: CacheName): nat {
      match name
      case Metadata => maxMetadata
      case Legacy => maxLegacy
      case Chunk => maxChunks
    }
  }

  // ---------------------------------------------------------------- contents as a value

  datatype Contents = Contents(metadata: Dict<CacheKey>, legacy: Dict<CacheKey>, chunk: Dict<CacheKey>) {
    function Of(name: CacheName): Dict<CacheKey> {
      match name
      case Metadata => metadata
      case Legacy => legacy
      case Chunk => chunk
    }

    function With(name: CacheName, d: Dict<CacheKey>): Contents {
      match name
      case Metadata => this.(metadata := d)
      case Legacy => this.(legacy := d)
      case Chunk => this.(chunk := d)
    }

    function Total(): nat {
      Bytes(metadata) + Bytes(legacy) + Bytes(chunk)
    }

    function Count(): nat {
      |metadata| + |legacy| + |chunk|
    }

    ghost predicate SoundAll() {
      Sound(metadata) && Sound(legacy) && Sound(chunk)
    }

    ghost predicate Within(limits: Limits) {
      && |metadata| <= limits.maxMetadata && |legacy| <= limits.maxLegacy && |chunk| <= limits.maxChunks
      && Total() <= limits.maxBytes
    }

    /** The cache the next eviction takes from: metadata, then legacy, then chunk. */
    function Victim(): CacheName
      requires Count() > 0
    {
      if metadata != [] then Metadata else if legacy != [] then Legacy else Chunk
    }

    function EvictOne(): (r: Contents)
      requires Count() > 0
      ensures r.Count() == Count() - 1
    {
      With(Victim(), Of(Victim())[1..])
    }
  }

  predicate NeedsRoom(c: Contents, name: CacheName, size: nat, limits: Limits) {
    c.Of(name) != [] && (|c.Of(name)| >= limits.Entries(name) || Bytes(c.Of(name)) + size > limits.maxBytes)
  }

  /** Evictions until the cache itself has room. */
  function RoomInCache(c: Contents, name: CacheName, size: nat, limits: Limits): Contents
    decreases c.Count()
  {
    if NeedsRoom(c, name, size, limits) && c.Count() > 0 then RoomInCache(c.EvictOne(), name, size, limits) else c
  }

  /** Evictions until the store has room. */
  function RoomInStore(c: Contents, size: nat, limits: Limits): Contents
    decreases c.Count()
  {
    if c.Total() + size > limits.maxBytes && c.Count() > 0 then RoomInStore(c.EvictOne(), size, limits) else c
  }

  predicate Oversize(size: nat, limits: Limits) {
    limits.maxBytes <= 0 || limits.maxEntry <= 0 || size > limits.maxBytes || size > limits.maxEntry
  }

  /** The contents after the evictions of a put, before the entry itself is stored. */
  function Cleared(c: Contents, name: CacheName, key: CacheKey, size: nat, limits: Limits): Contents {
    RoomInStore(RoomInCache(c.With(name, Without(c.Of(name), key)), name, size, limits), size, limits)
  }

  function Stored(c: Contents, name: CacheName, key: CacheKey, value: Payload): Contents {
    c.With(name, c.Of(name) + [Entry(key, value, EstimateCacheBytes(value))])
  }

  /** The contents after a put, given whether the shared budget accepted the entry. */
  function AfterPut(c: Contents, name: CacheName, key: CacheKey, value: Payload, stored: bool, limits: Limits): Contents {
    var size := EstimateCacheBytes(value);
    if Oversize(size, limits) then c
    else if stored then Stored(Cleared(c, name, key, size, limits), name, key, value)
    else Cleared(c, name, key, size, limits)
  }

  lemma EvictionStep(c: Contents)
    requires c.SoundAll() && c.Count() > 0
    ensures c.EvictOne().SoundAll() && c.EvictOne().Total() < c.Total()
    ensures c.Total() == c.EvictOne().Total() + c.Of(c.Victim())[0].size
    ensures Without(c.Of(c.Victim()), c.Of(c.Victim())[0].key) == c.Of(c.Victim())[1..]
    ensures forall n :: |c.EvictOne().Of(n)| <= |c.Of(n)|
  {
  }

  lemma {:induction false} RoomInCacheProperties(c: Contents, name: CacheName, size: nat, limits: Limits)
    requires c.SoundAll() && limits.Valid() && size <= limits.maxBytes
    ensures var r := RoomInCache(c, name, size, limits);
      && r.SoundAll() && r.Total() <= c.Total()
      && (forall n :: |r.Of(n)| <= |c.Of(n)|)
      && |r.Of(name)| < limits.Entries(name) && Bytes(r.Of(name)) + size <= limits.maxBytes
    decreases c.Count()
  {
    if NeedsRoom(c, name, size, limits) && c.Count() > 0 {
      EvictionStep(c);
      RoomInCacheProperties(c.EvictOne(), name, size, limits);
    }
  }

  lemma {:induction false} RoomInStoreProperties(c: Contents, size: nat, limits: Limits)
    requires c.SoundAll() && size <= limits.maxBytes
    ensures var r := RoomInStore(c, size, limits);
      && r.SoundAll() && r.Total() <= c.Total()
      && (forall n :: |r.Of(n)| <= |c.Of(n)|)
      && r.Total() + size <= limits.maxBytes
    decreases c.Count()
  {
    if c.Total() + size > limits.maxBytes && c.Count() > 0 {
      EvictionStep(c);
      RoomInStoreProperties(c.EvictOne(), size, limits);
    }
  }

  lemma {:induction false} EvictionKeepsAbsence(c: Contents, name: CacheName, key: CacheKey, size: nat, limits: Limits, n: CacheName)
    requires !HasKey(c.Of(n), key)
    ensures !HasKey(RoomInStore(c, size, limits).Of(n), key)
    ensures !HasKey(RoomInCache(c, name, size, limits).Of(n), key)
    decreases c.Count()
  {
    if c.Count() > 0 {
      EvictionKeepsAbsence(c.EvictOne(), name, key, size, limits, n);
    }
  }

  lemma WithoutInContents(c: Contents, name: CacheName, key: CacheKey)
    requires c.SoundAll()
    ensures var r := c.With(name, Without(c.Of(name), key));
      && r.SoundAll() && !HasKey(r.Of(name), key)
      && r.Total() + SizeAt(c.Of(name), key) == c.Total()
      && Bytes(r.Of(name)) + SizeAt(c.Of(name), key) == Bytes(c.Of(name))
      && (forall n :: |r.Of(n)| <= |c.Of(n)|)
  {
    WithoutBytes(c.Of(name), key);
    WithoutSound(c.Of(name), key);
    WithoutKeys(c.Of(name), key, key);
  }

  /** After the evictions of a put there is room in the cache and in the store, the key is
      gone, and no cache has grown. */
  lemma ClearedProperties(c: Contents, name: CacheName, key: CacheKey, size: nat, limits: Limits)
    requires c.SoundAll() && limits.Valid() && size <= limits.maxBytes
    ensures var r := Cleared(c, name, key, size, limits);
      && r.SoundAll() && !HasKey(r.Of(name), key) && r.Total() <= c.Total()
      && (forall n :: |r.Of(n)| <= |c.Of(n)|)
      && |r.Of(name)| < limits.Entries(name) && r.Total() + size <= limits.maxBytes
  {
    var c1 := c.With(name, Without(c.Of(name), key));
    WithoutInContents(c, name, key);
    RoomInCacheProperties(c1, name, size, limits);
    EvictionKeepsAbsence(c1, name, key, size, limits, name);
    var c2 := RoomInCache(c1, name, size, limits);
    RoomInStoreProperties(c2, size, limits);
    EvictionKeepsAbsence(c2, name, key, size, limits, name);
  }

  /** A put keeps every bound, and the stored entry is found under its key. */
  lemma PutKeepsBounds(c: Contents, name: CacheName, key: CacheKey, value: Payload, limits: Limits)
    requires c.SoundAll() && c.Within(limits) && limits.Valid()
    requires !Oversize(EstimateCacheBytes(value), limits)
    ensures var size := EstimateCacheBytes(value);
            var r := Cleared(c, name, key, size, limits);
            var s := Stored(r, name, key, value);
      && r.SoundAll() && r.Within(limits)
      && s.SoundAll() && s.Within(limits) && s.Total() == r.Total() + size
      && Bytes(s.Of(name)) == Bytes(r.Of(name)) + size
      && HasKey(s.Of(name), key)
  {
    var size := EstimateCacheBytes(value);
    ClearedProperties(c, name, key, size, limits);
    var r := Cleared(c, name, key, size, limits);
    assert forall n :: |r.Of(n)| <= |c.Of(n)|;
    assert |r.Of(Metadata)| <= |c.Of(Metadata)| && |r.Of(Legacy)| <= |c.Of(Legacy)| && |r.Of(Chunk)| <= |c.Of(Chunk)|;
    Appended(r.Of(name), Entry(key, value, size), key);
  }

  // ---------------------------------------------------------------- which entries go

  function Dropped(d: Dict<CacheKey>, k: int): Dict<CacheKey> {
    if k <= 0 then d else if k >= |d| then [] else d[k..]
  }

  /** The contents without the first k entries of all, metadata first, then legacy, then chunks, and
      in each cache the oldest first. */
  function OldestOut(c: Contents, k: nat): Contents {
    Contents(Dropped(c.metadata, k), Dropped(c.legacy, k - |c.metadata|), Dropped(c.chunk, k - |c.metadata| - |c.legacy|))
  }

  /** The cache has no room for the new entry when the first j entries are out. */
  ghost predicate CacheCrowded(c: Contents, name: CacheName, size: nat, limits: Limits, j: nat) {
    var left := OldestOut(c, j).Of(name);
    left != [] && (|left| >= limits.Entries(name) || Bytes(left) + size > limits.maxBytes)
  }

  ghost predicate StoreCrowded(c: Contents, size: nat, limits: Limits, j: nat) {
    var left := OldestOut(c, j);
    left.Count() > 0 && Bytes(left.metadata) + Bytes(left.legacy) + Bytes(left.chunk) + size > limits.maxBytes
  }

  lemma OneMoreOut(c: Contents, k: nat)
    requires c.Count() > 0
    ensures OldestOut(c.EvictOne(), k) == OldestOut(c, k + 1)
  {
    assert forall d: Dict<CacheKey> :: d != [] && 0 < k < |d| - 1 ==> d[1..][k..] == d[k + 1..];
  }

  lemma NoneOut(c: Contents, k: nat)
    ensures k == 0 || c.Count() == 0 ==> OldestOut(c, k) == c
  {
  }

  lemma {:induction false} OutTwice(c: Contents, j: nat, k: nat)
    ensures OldestOut(OldestOut(c, j), k) == OldestOut(c, j + k)
    decreases j
  {
    hide OldestOut;
    NoneOut(c, j);
    if j > 0 && c.Count() > 0 {
      OneMoreOut(c, j - 1);
      OutTwice(c.EvictOne(), j - 1, k);
      OneMoreOut(c, j - 1 + k);
    } else if c.Count() == 0 {
      NoneOut(c, k);
      NoneOut(c, j + k);
    }
  }

  lemma CrowdedLater(c: Contents, size: nat, limits: Limits, j: nat, i: nat)
    ensures StoreCrowded(OldestOut(c, j), size, limits, i) <==> StoreCrowded(c, size, limits, j + i)
  {
    hide OldestOut;
    OutTwice(c, j, i);
  }

  lemma StoreCrowdedFrom(c: Contents, size: nat, limits: Limits, j: nat, more: nat)
    requires forall i: nat :: i < more ==> StoreCrowded(OldestOut(c, j), size, limits, i)
    requires !StoreCrowded(OldestOut(c, j), size, limits, more)
    ensures forall i: nat :: j <= i < j + more ==> StoreCrowded(c, size, limits, i)
    ensures !StoreCrowded(c, size, limits, j + more)
  {
    hide OldestOut, StoreCrowded;
    CrowdedLater(c, size, limits, j, more);
    forall i: nat | j <= i < j + more
      ensures StoreCrowded(c, size, limits, i)
    {
      CrowdedLater(c, size, limits, j, i - j);
    }
  }

  lemma {:induction false} CacheRoomForm(c: Contents, name: CacheName, size: nat, limits: Limits) returns (k: nat)
    ensures RoomInCache(c, name, size, limits) == OldestOut(c, k)
    ensures (forall j: nat :: j < k ==> CacheCrowded(c, name, size, limits, j)) && !CacheCrowded(c, name, size, limits, k)
    decreases c.Count()
  {
    hide OldestOut, Contents.EvictOne;
    NoneOut(c, 0);
    if NeedsRoom(c, name, size, limits) && c.Count() > 0 {
      var rest := CacheRoomForm(c.EvictOne(), name, size, limits);
      k := rest + 1;
      forall j: nat | j <= rest
        ensures CacheCrowded(c.EvictOne(), name, size, limits, j) <==> CacheCrowded(c, name, size, limits, j + 1)
      {
        OneMoreOut(c, j);
      }
      OneMoreOut(c, rest);
      forall j: nat | j < k
        ensures CacheCrowded(c, name, size, limits, j)
      {
        assert j > 0 ==> CacheCrowded(c.EvictOne(), name, size, limits, j - 1);
      }
    } else {
      k := 0;
    }
  }

  lemma {:induction false} StoreRoomForm(c: Contents, size: nat, limits: Limits) returns (k: nat)
    ensures RoomInStore(c, size, limits) == OldestOut(c, k)
    ensures (forall j: nat :: j < k ==> StoreCrowded(c, size, limits, j)) && !StoreCrowded(c, size, limits, k)
    decreases c.Count()
  {
    hide OldestOut, Contents.EvictOne;
    NoneOut(c, 0);
    if c.Total() + size > limits.maxBytes && c.Count() > 0 {
      var rest := StoreRoomForm(c.EvictOne(), size, limits);
      k := rest + 1;
      forall j: nat | j <= rest
        ensures StoreCrowded(c.EvictOne(), size, limits, j) <==> StoreCrowded(c, size, limits, j + 1)
      {
        OneMoreOut(c, j);
      }
      OneMoreOut(c, rest);
      forall j: nat | j < k
        ensures StoreCrowded(c, size, limits, j)
      {
        assert j > 0 ==> StoreCrowded(c.EvictOne(), size, limits, j - 1);
      }
    } else {
      k := 0;
    }
  }

  /** What a put evicts, once the key's old entry is out: the first k entries in the order metadata,
      legacy, chunks, oldest first; the first j because the cache itself has no room without them,
      the others because the store has none. */
  ghost predicate PutEvicts(freed: Contents, r: Contents, name: CacheName, size: nat, limits: Limits, j: nat, k: nat) {
    && j <= k && r == OldestOut(freed, k)
    && (forall i: nat :: i < j ==> CacheCrowded(freed, name, size, limits, i)) && !CacheCrowded(freed, name, size, limits, j)
    && (forall i: nat :: j <= i < k ==> StoreCrowded(freed, size, limits, i)) && !StoreCrowded(freed, size, limits, k)
  }

  lemma ClearedForm(c: Contents, name: CacheName, key: CacheKey, size: nat, limits: Limits) returns (j: nat, k: nat)
    ensures PutEvicts(c.With(name, Without(c.Of(name), key)), Cleared(c, name, key, size, limits), name, size, limits, j, k)
  {
    hide OldestOut, CacheCrowded, StoreCrowded, RoomInCache, RoomInStore;
    var freed := c.With(name, Without(c.Of(name), key));
    j := CacheRoomForm(freed, name, size, limits);
    var more := StoreRoomForm(OldestOut(freed, j), size, limits);
    k := j + more;
    OutTwice(freed, j, more);
    StoreCrowdedFrom(freed, size, limits, j, more);
  }

  /** What a put does, in full: nothing if the entry is too large; otherwise the key's old entry is
      taken out, exactly the entries that have to go are evicted, and the new entry is the newest
      one if the shared budget has room for it. */
  ghost predicate PutDone(before: Contents, after: Contents, name: CacheName, key: CacheKey, value: Payload,
                          stored: bool, limits: Limits) {
    var size := EstimateCacheBytes(value);
    if size > limits.maxBytes || size > limits.maxEntry then !stored && after == before
    else
      exists freed, left, j, k ::
        && PutEvicts(freed, left, name, size, limits, j, k)
        && (forall n :: n != name ==> freed.Of(n) == before.Of(n))
        && (if HasKey(before.Of(name), key) then TakenOut(before.Of(name), key, freed.Of(name)) else freed == before)
        && after == if stored then left.With(name, left.Of(name) + [Entry(key, value, size)]) else left
  }

  lemma PutForm(c: Contents, name: CacheName, key: CacheKey, value: Payload, stored: bool, limits: Limits)
    requires stored ==> !Oversize(EstimateCacheBytes(value), limits)
    ensures PutDone(c, AfterPut(c, name, key, value, stored, limits), name, key, value, stored, limits)
  {
    var size := EstimateCacheBytes(value);
    var freed := c.With(name, Without(c.Of(name), key));
    var left := Cleared(c, name, key, size, limits);
    var j, k := ClearedForm(c, name, key, size, limits);
    WithoutTakesOut(c.Of(name), key);
    hide PutEvicts, TakenOut, Cleared, Without;
    assert PutEvicts(freed, left, name, size, limits, j, k);
  }

  /** Room for a chunk is not taken from the chunk cache first: when the chunk cache is full,
      a put empties the metadata and the legacy cache before the oldest chunk goes. */
  lemma {:induction false} FullChunkCacheDrainsTheOthers(c: Contents, size: nat, limits: Limits)
    requires NeedsRoom(c, Chunk, size, limits)
    ensures var r := RoomInCache(c, Chunk, size, limits);
      && r.metadata == [] && r.legacy == []
      && |r.chunk| < |c.chunk| && r.chunk == c.chunk[|c.chunk| - |r.chunk|..]
    decreases c.Count()
  {
    var next := c.EvictOne();
    if NeedsRoom(next, Chunk, size, limits) {
      FullChunkCacheDrainsTheOthers(next, size, limits);
    } else {
      assert c.Victim().Chunk?;
    }
  }

  /** Metadata entries make room for metadata in plain oldest-first order. */
  lemma {:induction false} MetadataEvictsItself(c: Contents, size: nat, limits: Limits)
    ensures var r := RoomInCache(c, Metadata, size, limits);
      && r.legacy == c.legacy && r.chunk == c.chunk
      && |r.metadata| <= |c.metadata| && r.metadata == c.metadata[|c.metadata| - |r.metadata|..]
    decreases c.Count()
  {
    if NeedsRoom(c, Metadata, size, limits) {
      MetadataEvictsItself(c.EvictOne(), size, limits);
    }
  }

  // ---------------------------------------------------------------- whose entries go

  /** The caches other than `name` hold what they held. */
  ghost predicate OthersKept(before: Contents, after: Contents, name: CacheName) {
    forall n :: n != name ==> after.Of(n) == before.Of(n)
  }

  /** No cache that is evicted from before `name` has an entry. */
  predicate FirstInLine(c: Contents, name: CacheName) {
    match name
    case Metadata => true
    case Legacy => c.metadata == []
    case Chunk => c.metadata == [] && c.legacy == []
  }

  function OtherBytes(c: Contents, name: CacheName): nat {
    match name
    case Metadata => Bytes(c.legacy) + Bytes(c.chunk)
    case Legacy => Bytes(c.metadata) + Bytes(c.chunk)
    case Chunk => Bytes(c.metadata) + Bytes(c.legacy)
  }

  /** Some other cache has lost an entry. */
  ghost predicate OtherLost(before: Contents, after: Contents, name: CacheName) {
    exists n :: n != name && |after.Of(n)| < |before.Of(n)|
  }

  /** What is lost does not come back by further evictions. */
  lemma LostStaysLost(before: Contents, between: Contents, after: Contents, name: CacheName)
    requires OtherLost(before, between, name) && forall n :: |after.Of(n)| <= |between.Of(n)|
    ensures OtherLost(before, after, name) && !OthersKept(before, after, name)
  {
    var n :| n != name && |between.Of(n)| < |before.Of(n)|;
    assert |after.Of(n)| < |before.Of(n)|;
  }

  lemma VictimLost(c: Contents, name: CacheName)
    requires c.Count() > 0 && c.Victim() != name
    ensures OtherLost(c, c.EvictOne(), name)
  {
    assert |c.EvictOne().Of(c.Victim())| < |c.Of(c.Victim())|;
  }

  lemma {:induction false} RoomInCacheOthers(c: Contents, name: CacheName, size: nat, limits: Limits)
    requires c.SoundAll() && limits.Valid() && size <= limits.maxBytes
    ensures if !NeedsRoom(c, name, size, limits) || FirstInLine(c, name)
            then OthersKept(c, RoomInCache(c, name, size, limits), name)
            else OtherLost(c, RoomInCache(c, name, size, limits), name)
    decreases c.Count()
  {
    if NeedsRoom(c, name, size, limits) {
      var next := c.EvictOne();
      EvictionStep(c);
      RoomInCacheProperties(next, name, size, limits);
      hide RoomInCache;
      RoomInCacheUnfolds(c, name, size, limits);
      if c.Victim() == name {
        RoomInCacheOthers(next, name, size, limits);
        assert FirstInLine(c, name) && FirstInLine(next, name);
        assert OthersKept(c, next, name);
      } else {
        VictimLost(c, name);
        LostStaysLost(c, next, RoomInCache(c, name, size, limits), name);
      }
    }
  }

  lemma RoomInCacheUnfolds(c: Contents, name: CacheName, size: nat, limits: Limits)
    requires NeedsRoom(c, name, size, limits)
    ensures c.Count() > 0 && RoomInCache(c, name, size, limits) == RoomInCache(c.EvictOne(), name, size, limits)
  {
  }

  lemma {:induction false} RoomInStoreOthers(c: Contents, name: CacheName, size: nat, limits: Limits)
    requires c.SoundAll() && size <= limits.maxBytes
    ensures OthersKept(c, RoomInStore(c, size, limits), name)
       <==> c.Total() + size <= limits.maxBytes
            || (FirstInLine(c, name) && OtherBytes(c, name) + size <= limits.maxBytes)
    decreases c.Count()
  {
    if c.Total() + size > limits.maxBytes && c.Count() > 0 {
      var next := c.EvictOne();
      EvictionStep(c);
      RoomInStoreProperties(next, size, limits);
      if c.Victim() == name {
        RoomInStoreOthers(next, name, size, limits);
        hide RoomInStore;
        assert OthersKept(c, next, name);
        assert OtherBytes(next, name) == OtherBytes(c, name) && OtherBytes(c, name) <= next.Total();
      } else {
        VictimLost(c, name);
        LostStaysLost(c, next, RoomInStore(c, size, limits), name);
      }
    }
  }

  /** Evictions are needed for a put into `name`, once the key's old entry is gone. */
  predicate NeedsEviction(c: Contents, name: CacheName, size: nat, limits: Limits) {
    NeedsRoom(c, name, size, limits) || c.Total() + size > limits.maxBytes
  }

  /** A put evicts from its own cache only, exactly if nothing needs to go, or no cache before it
      in the order metadata, legacy, chunk has an entry and what the other caches hold leaves room
      for the new entry. */
  lemma PutEvictsItsOwn(c: Contents, name: CacheName, key: CacheKey, size: nat, limits: Limits)
    requires c.SoundAll() && limits.Valid() && !Oversize(size, limits)
    ensures var freed := c.With(name, Without(c.Of(name), key));
      OthersKept(c, Cleared(c, name, key, size, limits), name)
      <==> !NeedsEviction(freed, name, size, limits)
           || (FirstInLine(c, name) && OtherBytes(c, name) + size <= limits.maxBytes)
  {
    var freed := c.With(name, Without(c.Of(name), key));
    WithoutInContents(c, name, key);
    assert OthersKept(c, freed, name);
    KeptSame(c, freed, name);
    FreedPut(freed, name, size, limits);
    hide RoomInCache, RoomInStore, NeedsRoom, Oversize, OthersKept, FirstInLine;
    KeptTwice(c, freed, Cleared(c, name, key, size, limits), name);
  }

  /** The same once the key's old entry is gone. */
  lemma FreedPut(c: Contents, name: CacheName, size: nat, limits: Limits)
    requires c.SoundAll() && limits.Valid() && size <= limits.maxBytes
    ensures OthersKept(c, RoomInStore(RoomInCache(c, name, size, limits), size, limits), name)
       <==> !NeedsEviction(c, name, size, limits)
            || (FirstInLine(c, name) && OtherBytes(c, name) + size <= limits.maxBytes)
  {
    var cleared := RoomInCache(c, name, size, limits);
    var r := RoomInStore(cleared, size, limits);
    RoomInCacheProperties(c, name, size, limits);
    RoomInCacheOthers(c, name, size, limits);
    RoomInStoreProperties(cleared, size, limits);
    RoomInStoreOthers(cleared, name, size, limits);
    RoomLeavesSame(c, name, size, limits);
    OthersWithinTotal(cleared, name);
    hide RoomInCache, RoomInStore, NeedsRoom, OthersKept, FirstInLine, OtherBytes;
    if !NeedsRoom(c, name, size, limits) || FirstInLine(c, name) {
      KeptSame(c, cleared, name);
      KeptTwice(c, cleared, r, name);
    } else {
      LostStaysLost(c, cleared, r, name);
    }
  }

  lemma KeptSame(before: Contents, after: Contents, name: CacheName)
    requires OthersKept(before, after, name)
    ensures OtherBytes(after, name) == OtherBytes(before, name) && FirstInLine(after, name) == FirstInLine(before, name)
  {
    assert Metadata != name ==> after.Of(Metadata) == before.Of(Metadata);
    assert Legacy != name ==> after.Of(Legacy) == before.Of(Legacy);
    assert Chunk != name ==> after.Of(Chunk) == before.Of(Chunk);
  }

  /** A full chunk cache of one entry and one metadata entry: putting a second chunk evicts both. */
  lemma ChunkPutEvictsMetadata(m: CacheKey, a: CacheKey, b: CacheKey)
    requires a != b
    ensures var c := Contents([Entry(m, Payload(1, 1), 1)], [], [Entry(a, Payload(2, 1), 1)]);
            var limits := Limits(100, 100, 10, 10, 1);
      && c.SoundAll() && c.Within(limits) && limits.Valid()
      && Cleared(c, Chunk, b, 1, limits) == Contents([], [], [])
  {
    var limits := Limits(100, 100, 10, 10, 1);
    var c := Contents([Entry(m, Payload(1, 1), 1)], [], [Entry(a, Payload(2, 1), 1)]);
    assert c.chunk[1..] == [] && c.metadata[1..] == [];
    assert Without(c.chunk, b) == c.chunk;
    assert c.With(Chunk, c.chunk) == c;
    var c1 := Contents([], [], c.chunk);
    var c2 := Contents([], [], []);
    assert c.EvictOne() == c1 && c1.EvictOne() == c2;
    assert NeedsRoom(c, Chunk, 1, limits) && NeedsRoom(c1, Chunk, 1, limits) && !NeedsRoom(c2, Chunk, 1, limits);
    assert RoomInCache(c1, Chunk, 1, limits) == RoomInCache(c2, Chunk, 1, limits) == c2;
    assert RoomInStore(c2, 1, limits) == c2;
  }

  lemma RoomLeavesSame(c: Contents, name: CacheName, size: nat, limits: Limits)
    ensures !NeedsRoom(c, name, size, limits) ==> RoomInCache(c, name, size, limits) == c
  {
  }

  lemma OthersWithinTotal(c: Contents, name: CacheName)
    ensures OtherBytes(c, name) <= c.Total()
  {
  }

  lemma KeptTwice(a: Contents, b: Contents, c: Contents, name: CacheName)
    requires OthersKept(a, b, name)
    ensures OthersKept(a, c, name) <==> OthersKept(b, c, name)
  {
  }

  // ---------------------------------------------------------------- the store

  /** How the first candidate of an eviction is passed.  Put passes a list that holds one
      pair, which is not itself a pair and is therefore skipped. */
  datatype Preferred = Absent | NestedPair(name: CacheName) | Pair(name: CacheName)

  datatype TypeBytes = TypeBytes(metadata: nat, legacy: nat, chunk: nat) {
    function Of(name: CacheName): nat {
      match name
      case Metadata => metadata
      case Legacy => legacy
      case Chunk => chunk
    }

    function With(name: CacheName, n: nat): TypeBytes {
      match name
      case Metadata => this.(metadata := n)
      case Legacy => this.(legacy := n)
      case Chunk => this.(chunk := n)
    }
  }

  class SidecarStore {
    const limits: Limits
    const budget: ByteBudget
    var contents: Contents
    var cacheBytes: nat
    var typeBytes: TypeBytes

    /** The counters are the sums of the entry sizes, and no bound of the store is exceeded. */
    ghost predicate Valid()
      reads this
    {
      && limits.Valid()
      && contents.SoundAll()
      && contents.Within(limits)
      && Counted()
    }

    ghost predicate Counted()
      reads this
    {
      && cacheBytes == contents.Total()
      && typeBytes == TypeBytes(Bytes(contents.metadata), Bytes(contents.legacy), Bytes(contents.chunk))
    }

    /** The shared budget holds at least this store's bytes. */
    ghost predicate Funded()
      reads this, budget
    {
      budget.Valid() && budget.bytes >= cacheBytes
    }

    constructor (limits: Limits, budget: ByteBudget)
      requires limits.Valid()
      ensures Valid() && this.limits == limits && this.budget == budget
      ensures contents == Contents([], [], []) && cacheBytes == 0
    {
      this.limits, this.budget := limits, budget;
      contents, cacheBytes, typeBytes := Contents([], [], []), 0, TypeBytes(0, 0, 0);
    }

    /** _cache_remove_locked.  The clamps at zero never bite: store and budget lose exactly
        the size of the removed entry. */
    method Remove(name: CacheName, key: CacheKey)
      requires contents.SoundAll() && Counted() && Funded()
      modifies this, budget
      ensures contents == old(contents).With(name, Without(old(contents).Of(name), key))
      ensures contents.SoundAll() && Counted() && Funded()
      ensures old(Valid()) ==> Valid()
      ensures cacheBytes == old(cacheBytes) - SizeAt(old(contents).Of(name), key)
      ensures budget.bytes == old(budget.bytes) - SizeAt(old(contents).Of(name), key)
    {
      WithoutInContents(contents, name, key);
      ghost var left := contents.With(name, Without(contents.Of(name), key));
      assert |left.Of(Metadata)| <= |contents.Of(Metadata)| && |left.Of(Legacy)| <= |contents.Of(Legacy)|
             && |left.Of(Chunk)| <= |contents.Of(Chunk)|;
      var cache := contents.Of(name);
      if HasKey(cache, key) {
        var size := EntryAt(cache, key).size;
        contents := contents.With(name, Without(cache, key));
        cacheBytes := MaxZero(cacheBytes - size);
        typeBytes := typeBytes.With(name, MaxZero(typeBytes.Of(name) - size));
        budget.Release(size);
      } else {
        WithoutBytes(cache, key);
      }
    }

    /** _evict_oldest_locked. */
    method EvictOldest(preferred: Preferred) returns (evicted: bool)
      requires contents.SoundAll() && Counted() && Funded()
      requires !preferred.Pair?
      modifies this, budget
      ensures contents.SoundAll() && Counted() && Funded()
      ensures evicted <==> old(contents).Count() > 0
      ensures contents == if evicted then old(contents).EvictOne() else old(contents)
      ensures budget.bytes == old(budget.bytes) - (old(cacheBytes) - cacheBytes)
      ensures cacheBytes <= old(cacheBytes)
    {
      var candidates := [preferred, Pair(Metadata), Pair(Legacy), Pair(Chunk)];
      evicted := false;
      for i := 0 to |candidates|
        invariant !evicted && contents == old(contents) && cacheBytes == old(cacheBytes)
        invariant contents.SoundAll() && Counted() && Funded() && budget.bytes == old(budget.bytes)
        invariant i > 1 ==> contents.metadata == []
        invariant i > 2 ==> contents.legacy == []
        invariant i > 3 ==> contents.chunk == []
      {
        if candidates[i].Pair? {
          var cache := contents.Of(candidates[i].name);
          if cache != [] {
            EvictionStep(contents);
            Remove(candidates[i].name, cache[0].key);
            return true;
          }
        }
      }
    }

    /** _cache_put_locked: the evictions happen even when the shared budget then refuses. */
    method Put(name: CacheName, key: CacheKey, value: Payload) returns (stored: bool)
      requires Valid() && Funded()
      modifies this, budget
      ensures Valid() && Funded()
      ensures stored ==> HasKey(contents.Of(name), key)
      ensures contents == AfterPut(old(contents), name, key, value, stored, limits)
      ensures PutDone(old(contents), contents, name, key, value, stored, limits)
      ensures stored <==>
                && !Oversize(EstimateCacheBytes(value), limits)
                && old(budget.bytes) - old(cacheBytes)
                   + Cleared(old(contents), name, key, EstimateCacheBytes(value), limits).Total()
                   + EstimateCacheBytes(value) <= budget.maxBytes
      ensures budget.bytes - cacheBytes == old(budget.bytes) - old(cacheBytes)
    {
      hide PutDone, Sound, Without, HasKey, Bytes, RoomInCache, RoomInStore;
      var size := EstimateCacheBytes(value);
      PutForm(contents, name, key, value, false, limits);
      if limits.maxBytes <= 0 || limits.maxEntry <= 0 || size > limits.maxBytes || size > limits.maxEntry {
        return false;
      }
      PutForm(contents, name, key, value, true, limits);
      PutKeepsBounds(contents, name, key, value, limits);
      Remove(name, key);
      MakeRoomInCache(name, size);
      MakeRoomInStore(size);
      if cacheBytes + size > limits.maxBytes {
        return false;
      }
      var acquired := budget.TryAcquire(size);
      if !acquired {
        return false;
      }
      contents := contents.With(name, contents.Of(name) + [Entry(key, value, size)]);
      cacheBytes := cacheBytes + size;
      typeBytes := typeBytes.With(name, typeBytes.Of(name) + size);
      stored := true;
    }

    method MakeRoomInCache(name: CacheName, size: nat)
      requires contents.SoundAll() && Counted() && Funded()
      modifies this, budget
      ensures contents.SoundAll() && Counted() && Funded()
      ensures contents == RoomInCache(old(contents), name, size, limits)
      ensures budget.bytes - cacheBytes == old(budget.bytes) - old(cacheBytes)
    {
      while contents.Of(name) != [] &&
            (|contents.Of(name)| >= limits.Entries(name) || typeBytes.Of(name) + size > limits.maxBytes)
        invariant contents.SoundAll() && Counted() && Funded()
        invariant budget.bytes - cacheBytes == old(budget.bytes) - old(cacheBytes)
        invariant RoomInCache(contents, name, size, limits) == RoomInCache(old(contents), name, size, limits)
        decreases contents.Count()
      {
        var evicted := EvictOldest(NestedPair(name));
      }
    }

    method MakeRoomInStore(size: nat)
      requires contents.SoundAll() && Counted() && Funded()
      modifies this, budget
      ensures contents.SoundAll() && Counted() && Funded()
      ensures contents == RoomInStore(old(contents), size, limits)
      ensures budget.bytes - cacheBytes == old(budget.bytes) - old(cacheBytes)
    {
      while cacheBytes + size > limits.maxBytes
        invariant contents.SoundAll() && Counted() && Funded()
        invariant budget.bytes - cacheBytes == old(budget.bytes) - old(cacheBytes)
        invariant RoomInStore(contents, size, limits) == RoomInStore(old(contents), size, limits)
        decreases contents.Count()
      {
        var evicted := EvictOldest(Absent);
        if !evicted {
          break;
        }
      }
    }

    /** A cache hit moves the entry to the newest position. */
    method Touch(name: CacheName, key: CacheKey) returns (value: Payload)
      requires Valid() && HasKey(contents.Of(name), key)
      modifies this
      ensures Valid() && cacheBytes == old(cacheBytes)
      ensures value == EntryAt(old(contents).Of(name), key).value
      ensures contents == old(contents).With(name, Moved(old(contents).Of(name), key))
    {
      var cache := contents.Of(name);
      MovedKeeps(cache, key);
      contents := contents.With(name, Moved(cache, key));
      value := EntryAt(cache, key).value;
    }

    /** clear_caches: gives back exactly what the store held. */
    method ClearCaches()
      requires Valid() && Funded()
      modifies this, budget
      ensures Valid() && Funded()
      ensures contents == Contents([], [], []) && cacheBytes == 0
      ensures budget.bytes == old(budget.bytes) - old(cacheBytes)
    {
      var names := [Metadata, Legacy, Chunk];
      for i := 0 to |names|
        invariant contents.SoundAll() && Counted() && Funded() && contents.Within(limits)
        invariant budget.bytes - cacheBytes == old(budget.bytes) - old(cacheBytes)
        invariant i > 0 ==> contents.metadata == []
        invariant i > 1 ==> contents.legacy == []
        invariant i > 2 ==> contents.chunk == []
      {
        while contents.Of(names[i]) != []
          invariant contents.SoundAll() && Counted() && Funded() && contents.Within(limits)
          invariant budget.bytes - cacheBytes == old(budget.bytes) - old(cacheBytes)
          invariant i > 0 ==> contents.metadata == []
          invariant i > 1 ==> contents.legacy == []
          decreases contents.Count()
        {
          Remove(names[i], contents.Of(names[i])[0].key);
        }
      }
    }
  }
}
