/** The locked map behind the rate limiter, and its sweeps. Each method body runs under the cache's lock. */
module Caches {
  import opened Results

  class Cache<K(==), T> {
    var entries: map<K, T>

    constructor ()
      ensures entries == map[]
    {
      entries := map[];
    }

    method Set(key: K, value: T)
      modifies this
      ensures entries == old(entries)[key := value]
    {
      entries := entries[key := value];
    }

    method Delete(key: K)
      modifies this
      ensures entries == old(entries) - {key}
    {
      entries := entries - {key};
    }

    method Get(key: K) returns (r: Option<T>)
      ensures r == if key in entries then Some(entries[key]) else None
    {
      r := if key in entries then Some(entries[key]) else None;
    }

    /** The keys in no particular order, each once. */
    method Keys() returns (keys: seq<K>)
      ensures forall k :: k in keys <==> k in entries
      ensures forall i, j :: 0 <= i < j < |keys| ==> keys[i] != keys[j]
    {
      keys := [];
      var todo := entries.Keys;
      while todo != {}
        invariant todo <= entries.Keys
        invariant forall k :: k in keys <==> k in entries && k !in todo
        invariant forall i, j :: 0 <= i < j < |keys| ==> keys[i] != keys[j]
        decreases |todo|
      {
        var k :| k in todo;
        keys := keys + [k];
        todo := todo - {k};
      }
    }

    /** One tick of `StartCleanup`: visit every entry under the lock and delete the stale ones at once. */
    method SweepLocked(stale: (K, T) ~> bool)
      requires forall k :: k in entries ==> stale.requires(k, entries[k]) && this !in stale.reads(k, entries[k])
      modifies this
      ensures entries == map k | k in old(entries) && !old(stale(k, entries[k])) :: old(entries)[k]
    {
      var todo := entries.Keys;
      ghost var before := entries;
      while todo != {}
        invariant todo <= before.Keys
        invariant entries == map k | k in before && (k in todo || !old(stale(k, before[k]))) :: before[k]
        decreases |todo|
      {
        var k :| k in todo;
        assert k in entries && entries[k] == before[k];
        if stale(k, entries[k]) {
          entries := entries - {k};
        }
        todo := todo - {k};
      }
    }

    method CollectStale(stale: (K, T) ~> bool) returns (keys: seq<K>)
      requires forall k :: k in entries ==> stale.requires(k, entries[k])
      ensures forall k :: k in keys <==> k in entries && stale(k, entries[k])
    {
      keys := [];
      var todo := entries.Keys;
      while todo != {}
        invariant todo <= entries.Keys
        invariant forall k :: k in keys <==> k in entries && k !in todo && stale(k, entries[k])
        decreases |todo|
      {
        var k :| k in todo;
        if stale(k, entries[k]) {
          keys := keys + [k];
        }
        todo := todo - {k};
      }
    }

    method DeleteAll(keys: seq<K>)
      modifies this
      ensures entries == map k | k in old(entries) && k !in keys :: old(entries)[k]
    {
      for i := 0 to |keys|
        invariant entries == map k | k in old(entries) && k !in keys[..i] :: old(entries)[k]
      {
        assert keys[..i + 1] == keys[..i] + [keys[i]];
        entries := entries - {keys[i]};
      }
      assert keys[..|keys|] == keys;
    }

    /** One tick of `Cleanup`: collect the stale keys, then delete them if there are any. */
    method SweepCollected(stale: (K, T) ~> bool)
      requires forall k :: k in entries ==> stale.requires(k, entries[k]) && this !in stale.reads(k, entries[k])
      modifies this
      ensures entries == map k | k in old(entries) && !old(stale(k, entries[k])) :: old(entries)[k]
    {
      var keys := CollectStale(stale);
      if |keys| > 0 {
        DeleteAll(keys);
      }
    }
  }
}
