/** The byte budget shared by all caches of one process (app/code_detail/cache_budget.py) and
    the ordered dictionaries the caches are kept in. */
module Caching {

  /** `max(0, n)`. */
  function MaxZero(n: int): nat {
    if n < 0 then 0 else n
  }

  class ByteBudget {
    const maxBytes: nat
    var bytes: nat

    ghost predicate Valid()
      reads this
    {
      bytes <= maxBytes
    }

    constructor (maxBytes: int)
      ensures Valid() && bytes == 0 && this.maxBytes == if maxBytes < 0 then 0 else maxBytes
    {
      this.maxBytes := MaxZero(maxBytes);
      bytes := 0;
    }

    method TryAcquire(size: nat) returns (ok: bool)
      requires Valid()
      modifies this
      ensures Valid()
      ensures ok <==> old(bytes) + size <= maxBytes
      ensures bytes == if ok then old(bytes) + size else old(bytes)
    {
      if size > maxBytes || bytes + size > maxBytes {
        return false;
      }
      bytes := bytes + size;
      ok := true;
    }

    method Release(size: nat)
      requires Valid()
      modifies this
      ensures Valid()
      ensures bytes == if size <= old(bytes) then old(bytes) - size else 0
    {
      bytes := MaxZero(bytes - size);
    }
  }

  // ---------------------------------------------------------------- ordered dictionaries

  /** A cached value, known by the length of its serialised form. */
  datatype Payload = Payload(id: int, encoded: nat)

  function EstimateCacheBytes(value: Payload): (size: nat)
    ensures size >= 1 && (value.encoded >= 1 ==> size == value.encoded)
  {
    if value.encoded < 1 then 1 else value.encoded
  }

  datatype Entry<K> = Entry(key: K, value: Payload, size: nat)

  /** An OrderedDict: entries in insertion order, oldest first, no key twice. */
  type Dict<K> = seq<Entry<K>>

  predicate HasKey<K(==)>(d: Dict<K>, key: K) {
    d != [] && (d[0].key == key || HasKey(d[1..], key))
  }

  /** No key twice, every size at least 1. */
  predicate Sound<K(==)>(d: Dict<K>) {
    d != [] ==> !HasKey(d[1..], d[0].key) && d[0].size >= 1 && Sound(d[1..])
  }

  function Bytes<K>(d: Dict<K>): nat {
    if d == [] then 0 else d[0].size + Bytes(d[1..])
  }

  function Without<K(==)>(d: Dict<K>, key: K): (r: Dict<K>)
    ensures |r| == if HasKey(d, key) then |d| - 1 else |d|
  {
    if d == [] then []
    else if d[0].key == key then d[1..]
    else [d[0]] + Without(d[1..], key)
  }

  function EntryAt<K(==)>(d: Dict<K>, key: K): (e: Entry<K>)
    requires HasKey(d, key)
    ensures e.key == key
  {
    if d[0].key == key then d[0] else EntryAt(d[1..], key)
  }

  function SizeAt<K(==)>(d: Dict<K>, key: K): nat {
    if HasKey(d, key) then EntryAt(d, key).size else 0
  }

  lemma {:induction false} WithoutBytes<K>(d: Dict<K>, key: K)
    ensures Bytes(Without(d, key)) + SizeAt(d, key) == Bytes(d)
    ensures !HasKey(d, key) ==> Without(d, key) == d
  {
    if d != [] && d[0].key != key {
      WithoutBytes(d[1..], key);
      assert ([d[0]] + Without(d[1..], key))[1..] == Without(d[1..], key);
    }
  }

  /** Removing a key removes exactly that key's entry. */
  lemma {:induction false} WithoutKeys<K>(d: Dict<K>, key: K, other: K)
    requires Sound(d)
    ensures HasKey(Without(d, key), other) <==> HasKey(d, other) && other != key
    ensures other != key && HasKey(d, other) ==> EntryAt(Without(d, key), other) == EntryAt(d, other)
  {
    if d != [] && d[0].key != key {
      WithoutKeys(d[1..], key, other);
      assert ([d[0]] + Without(d[1..], key))[1..] == Without(d[1..], key);
    }
  }

  lemma {:induction false} WithoutSound<K>(d: Dict<K>, key: K)
    requires Sound(d)
    ensures Sound(Without(d, key))
  {
    if d != [] && d[0].key != key {
      WithoutSound(d[1..], key);
      WithoutKeys(d[1..], key, d[0].key);
      assert ([d[0]] + Without(d[1..], key))[1..] == Without(d[1..], key);
    }
  }

  lemma {:induction false} Appended<K>(d: Dict<K>, e: Entry<K>, other: K)
    ensures Bytes(d + [e]) == Bytes(d) + e.size
    ensures HasKey(d + [e], other) <==> HasKey(d, other) || other == e.key
    ensures Sound(d) && !HasKey(d, e.key) && e.size >= 1 ==> Sound(d + [e])
  {
    if d != [] {
      Appended(d[1..], e, other);
      if other != d[0].key {
        Appended(d[1..], e, d[0].key);
      }
      assert (d + [e])[1..] == d[1..] + [e];
    } else {
      assert (d + [e])[1..] == [];
    }
  }

  /** The entry of the key is taken out; the others stay in their order. */
  ghost predicate TakenOut<K>(d: Dict<K>, key: K, r: Dict<K>) {
    exists i :: 0 <= i < |d| && d[i].key == key && r == d[..i] + d[i + 1..]
  }

  /** The entry of the key becomes the newest; the others stay in their order. */
  ghost predicate MadeNewest<K>(d: Dict<K>, key: K, r: Dict<K>) {
    exists i :: 0 <= i < |d| && d[i].key == key && r == d[..i] + d[i + 1..] + [d[i]]
  }

  lemma {:induction false} WithoutForm<K>(d: Dict<K>, key: K) returns (i: nat)
    requires HasKey(d, key)
    ensures i < |d| && d[i].key == key && EntryAt(d, key) == d[i] && Without(d, key) == d[..i] + d[i + 1..]
  {
    if d[0].key == key {
      i := 0;
    } else {
      var rest := WithoutForm(d[1..], key);
      i := rest + 1;
      assert d[..i] == [d[0]] + d[1..][..rest];
    }
  }

  lemma {:induction false} HasKeyMeans<K>(d: Dict<K>, key: K)
    ensures HasKey(d, key) <==> exists e :: e in d && e.key == key
  {
    if d != [] {
      HasKeyMeans(d[1..], key);
      assert d == [d[0]] + d[1..];
    }
  }

  lemma WithoutTakesOut<K>(d: Dict<K>, key: K)
    ensures if HasKey(d, key) then TakenOut(d, key, Without(d, key)) else Without(d, key) == d
  {
    if HasKey(d, key) {
      var i := WithoutForm(d, key);
    } else {
      WithoutBytes(d, key);
    }
  }

  /** `move_to_end`. */
  function Moved<K(==)>(d: Dict<K>, key: K): (r: Dict<K>)
    requires HasKey(d, key)
    ensures |r| == |d|
  {
    Without(d, key) + [EntryAt(d, key)]
  }

  lemma MovedForm<K>(d: Dict<K>, key: K)
    requires HasKey(d, key)
    ensures MadeNewest(d, key, Moved(d, key))
  {
    var i := WithoutForm(d, key);
  }

  lemma {:induction false} EntrySizes<K>(d: Dict<K>, key: K)
    requires Sound(d) && HasKey(d, key)
    ensures 1 <= EntryAt(d, key).size <= Bytes(d)
  {
    if d[0].key != key {
      EntrySizes(d[1..], key);
    }
  }

  /** Moving an entry to the newest position changes nothing but the order. */
  lemma MovedKeeps<K>(d: Dict<K>, key: K)
    requires Sound(d) && HasKey(d, key)
    ensures MadeNewest(d, key, Moved(d, key))
    ensures Sound(Moved(d, key)) && Bytes(Moved(d, key)) == Bytes(d)
    ensures forall other {:trigger HasKey(Moved(d, key), other)} :: HasKey(Moved(d, key), other) <==> HasKey(d, other)
  {
    MovedForm(d, key);
    EntrySizes(d, key);
    WithoutBytes(d, key);
    WithoutSound(d, key);
    WithoutKeys(d, key, key);
    hide MadeNewest;
    Appended(Without(d, key), EntryAt(d, key), key);
    forall other
      ensures HasKey(Moved(d, key), other) <==> HasKey(d, other)
    {
      WithoutKeys(d, key, other);
      Appended(Without(d, key), EntryAt(d, key), other);
    }
  }
}
