/** The bounded TTL response cache. Reading takes two steps, as does inserting. */
module Cache {
  import opened Status

  datatype Entry = Entry(value: Bytes, expiresAt: nat)

  type Entries = map<Bytes, Entry>

  /** A stored response that has not expired. */
  predicate Fresh(entries: Entries, key: Bytes, now: nat) {
    key in entries && entries[key].expiresAt > now
  }

  predicate HasRoom(entries: Entries, capacity: nat) {
    |entries| < capacity
  }

  function Stored(entries: Entries, key: Bytes, value: Bytes, ttl: nat, now: nat): Entries {
    entries[key := Entry(value, now + ttl)]
  }

  lemma StoredSize(entries: Entries, key: Bytes, value: Bytes, ttl: nat, now: nat)
    ensures |entries| <= |Stored(entries, key, value, ttl, now)| <= |entries| + 1
  {
    var stored := Stored(entries, key, value, ttl, now);
    assert stored.Keys == entries.Keys + {key};
    if key in entries.Keys { assert stored.Keys == entries.Keys; }
  }

  lemma EvictedSize(entries: Entries, key: Bytes)
    ensures |entries - {key}| <= |entries|
  {
    assert (entries - {key}).Keys == entries.Keys - {key};
  }

  datatype Lookup = Hit(value: Bytes) | Miss

  class ResponseCache {
    var entries: Entries
    const ttl: nat
    const capacity: nat

    constructor (ttl: nat, capacity: nat)
      ensures this.ttl == ttl && this.capacity == capacity && entries == map[]
    {
      this.ttl, this.capacity := ttl, capacity;
      entries := map[];
    }

    /** Returns an unexpired response; a stale one is removed, every other entry is kept. */
    method Get(key: Bytes, now: nat) returns (r: Lookup)
      modifies this
      ensures r == if Fresh(old(entries), key, now) then Hit(old(entries)[key].value) else Miss
      ensures entries == if r.Hit? then old(entries) else old(entries) - {key}
      ensures |entries| <= |old(entries)|
    {
      if Fresh(entries, key, now) {
        return Hit(entries[key].value);
      }
      EvictedSize(entries, key);
      entries := entries - {key};
      return Miss;
    }

    /** Stores a response, or does nothing when the cache is full. */
    method Insert(key: Bytes, value: Bytes, now: nat)
      modifies this
      ensures entries == if HasRoom(old(entries), capacity)
                         then Stored(old(entries), key, value, ttl, now) else old(entries)
      ensures |old(entries)| <= capacity ==> |entries| <= capacity
      ensures HasRoom(old(entries), capacity) ==>
                forall t: nat :: Fresh(entries, key, t) <==> t < now + ttl
    {
      if |entries| >= capacity {
        return;
      }
      StoredSize(entries, key, value, ttl, now);
      entries := entries[key := Entry(value, now + ttl)];
    }
  }
}
