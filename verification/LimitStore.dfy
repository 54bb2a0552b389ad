/** The in-process limit store: counters and markers that expire, and are swept on every write. */
module LimitStore {
  type Key = string
  type Time = int

  datatype Entry = Entry(count: nat, expires: Time)

  type Entries = map<Key, Entry>

  predicate Alive(m: Entries, k: Key, now: Time) {
    k in m && now < m[k].expires
  }

  function Pruned(m: Entries, now: Time): Entries {
    map k | k in m && now < m[k].expires :: m[k]
  }

  function Incremented(m: Entries, k: Key, ttl: nat, now: Time): Entries {
    Pruned(m, now)[k := if Alive(m, k, now) then Entry(m[k].count + 1, m[k].expires) else Entry(1, now + ttl)]
  }

  function Marked(m: Entries, k: Key, ttl: nat, now: Time): Entries {
    Pruned(m, now)[k := Entry(1, now + ttl)]
  }

  /** Asking for a key removes it when it has expired. */
  function Asked(m: Entries, k: Key, now: Time): Entries {
    if k in m && !Alive(m, k, now) then m - {k} else m
  }

  /** What happened to k between two states: nothing, unless it had expired. */
  predicate Untouched(m: Entries, m': Entries, k: Key, now: Time) {
    && (k in m' ==> k in m && m'[k] == m[k])
    && (Alive(m, k, now) ==> k in m')
  }

  /** An operation on one key leaves every other key alone until it expires. */
  lemma OthersUntouched(m: Entries, k: Key, ttl: nat, now: Time, other: Key)
    requires other != k
    ensures Untouched(m, Incremented(m, k, ttl, now), other, now)
    ensures Untouched(m, Marked(m, k, ttl, now), other, now)
  {
  }

  class MemLimitStore {
    var entries: Entries

    constructor ()
      ensures entries == map[]
    {
      entries := map[];
    }

    /** Drops every expired entry. */
    method Prune(now: Time)
      modifies this
      ensures entries == Pruned(old(entries), now)
    {
      var keys := entries.Keys;
      ghost var all := entries;
      while keys != {}
        invariant keys <= entries.Keys <= all.Keys
        invariant forall k | k in entries :: entries[k] == all[k]
        invariant forall k | k in all && k !in keys :: k in entries <==> now < all[k].expires
        decreases |keys|
      {
        var k :| k in keys;
        if now >= entries[k].expires {
          entries := entries - {k};
        }
        keys := keys - {k};
      }
      assert entries.Keys == Pruned(all, now).Keys;
    }

    method Exists(key: Key, now: Time) returns (found: bool)
      modifies this
      ensures found == Alive(old(entries), key, now)
      ensures entries == Asked(old(entries), key, now)
    {
      found := key in entries && now < entries[key].expires;
      if key in entries && !found {
        entries := entries - {key};
      }
    }

    method Incr(key: Key, ttl: nat, now: Time) returns (count: nat)
      modifies this
      ensures entries == Incremented(old(entries), key, ttl, now)
      ensures count == entries[key].count
    {
      Prune(now);
      var alive := Exists(key, now);
      if alive {
        entries := entries[key := Entry(entries[key].count + 1, entries[key].expires)];
      } else {
        entries := entries[key := Entry(1, now + ttl)];
      }
      count := entries[key].count;
    }

    method Set(key: Key, ttl: nat, now: Time)
      modifies this
      ensures entries == Marked(old(entries), key, ttl, now)
    {
      Prune(now);
      entries := entries[key := Entry(1, now + ttl)];
    }

    method Del(key1: Key, key2: Key)
      modifies this
      ensures entries == old(entries) - {key1} - {key2}
    {
      entries := entries - {key1};
      entries := entries - {key2};
    }
  }
}
