/** The in-memory tier: a key-to-bytes store backed by a system cache that
    may drop any entry at any moment (under memory pressure or on insertion).
    It has no notion of time: an entry lives until it is replaced or dropped. */
module MemoryStore {
  import opened Types

  /** What can happen to the store: a `set` by the loader, or the system
      cache discarding some entries of its own accord. */
  datatype CacheOp = Set(key: Key, data: Bytes) | Evict(victims: set<Key>)

  function Apply(store: map<Key, Bytes>, op: CacheOp): map<Key, Bytes> {
    match op
    case Set(key, data) => store[key := data]
    case Evict(victims) => store - victims
  }

  /** The store after a history of operations, oldest first. */
  function Replay(store: map<Key, Bytes>, ops: seq<CacheOp>): map<Key, Bytes>
    decreases |ops|
  {
    if ops == [] then store else Apply(Replay(store, ops[..|ops| - 1]), ops[|ops| - 1])
  }

  /** The data of the most recent `set` for `key` in a history. */
  function LastSet(ops: seq<CacheOp>, key: Key): Option<Bytes>
    decreases |ops|
  {
    if ops == [] then None
    else if ops[|ops| - 1].Set? && ops[|ops| - 1].key == key then Some(ops[|ops| - 1].data)
    else LastSet(ops[..|ops| - 1], key)
  }

  /** Whatever happened, a key holds either the bytes of its own most recent
      `set`, or (if the history never set it) what it held at the start,
      or nothing: a key never holds bytes that were set under another key. */
  lemma {:induction false} ReplayHoldsOnlyOwnData(store: map<Key, Bytes>, ops: seq<CacheOp>, key: Key)
    ensures key in Replay(store, ops) ==>
      match LastSet(ops, key)
      case Some(data) => Replay(store, ops)[key] == data
      case None => key in store && Replay(store, ops)[key] == store[key]
  {
    if ops != [] {
      ReplayHoldsOnlyOwnData(store, ops[..|ops| - 1], key);
    }
  }

  /** After `set(data, key)`, a `get(key)` gives `data` or misses (it was
      dropped) for as long as no other `set` for the key happens. */
  lemma {:induction false} SetThenGet(store: map<Key, Bytes>, key: Key, data: Bytes, later: seq<CacheOp>)
    requires forall i :: 0 <= i < |later| ==> !(later[i].Set? && later[i].key == key)
    ensures Lookup(Replay(Apply(store, Set(key, data)), later), key) in {None, Some(data)}
  {
    if later != [] {
      SetThenGet(store, key, data, later[..|later| - 1]);
    }
  }

  /** No expiry: a stored entry stays readable, however long, until it is
      replaced or dropped. */
  lemma {:induction false} NoExpiry(store: map<Key, Bytes>, key: Key, data: Bytes, later: seq<CacheOp>)
    requires forall i :: 0 <= i < |later| ==> !(later[i].Set? && later[i].key == key)
    requires forall i :: 0 <= i < |later| ==> !(later[i].Evict? && key in later[i].victims)
    ensures Lookup(Replay(Apply(store, Set(key, data)), later), key) == Some(data)
  {
    if later != [] {
      NoExpiry(store, key, data, later[..|later| - 1]);
    }
  }

  /** The memory cache. */
  class ImageCache {
    var store: map<Key, Bytes>

    constructor ()
      ensures store == map[]
    {
      store := map[];
    }

    /** `set(data, forKey: key)`: replaces the key's entry and touches no
        other key. */
    method Set(data: Bytes, key: Key)
      modifies this
      ensures store == Apply(old(store), CacheOp.Set(key, data))
      ensures forall k :: k != key ==> Lookup(store, k) == Lookup(old(store), k)
    {
      store := store[key := data];
    }

    /** The system cache discarding entries on its own. */
    method Evict(victims: set<Key>)
      modifies this
      ensures store == Apply(old(store), CacheOp.Evict(victims))
    {
      store := store - victims;
    }

    /** `get(forKey: key)`: a hit gives exactly the stored bytes; the store
        is not changed. */
    method Get(key: Key) returns (r: Option<Bytes>)
      ensures r.Some? <==> key in store
      ensures r.Some? ==> r.value == store[key]
    {
      r := if key in store then Some(store[key]) else None;
    }
  }
}
