/** The in-memory cache of the cloud tier (agent/src/core/cloud/cache.rs). */
module CloudCaching {
  import opened Base

  function Lookup(m: map<Key, Bytes>, key: Key): Option<Bytes> {
    if key in m then Some(m[key]) else None
  }

  class CloudCache {
    var entries: map<Key, Bytes>

    constructor ()
      ensures entries == map[]
    {
      entries := map[];
    }

    method Get(key: Key) returns (r: Option<Bytes>)
      ensures r == Lookup(entries, key)
    {
      r := if key in entries then Some(entries[key]) else None;
    }

    method Put(key: Key, bytes: Bytes)
      modifies this
      ensures entries == old(entries)[key := bytes]
    {
      entries := entries[key := bytes];
    }

    method Delete(key: Key) returns (present: bool)
      modifies this
      ensures present == (key in old(entries))
      ensures entries == old(entries) - {key}
    {
      present := key in entries;
      entries := entries - {key};
    }

    /** The matching keys, in whatever order the hash map yields them. */
    method KeysWithPrefix(prefix: string) returns (keys: seq<Key>)
      ensures forall k :: k in keys <==> k in entries && prefix <= k
      ensures forall i, j :: 0 <= i < j < |keys| ==> keys[i] != keys[j]
    {
      keys := [];
      var rest := entries.Keys;
      while rest != {}
        invariant rest <= entries.Keys
        invariant forall k :: k in keys <==> k in entries.Keys - rest && prefix <= k
        invariant forall i, j :: 0 <= i < j < |keys| ==> keys[i] != keys[j]
        decreases rest
      {
        var k :| k in rest;
        assert k !in keys;
        rest := rest - {k};
        if prefix <= k {
          keys := keys + [k];
        }
      }
    }

    method RestoreFrom(restored: map<Key, Bytes>)
      modifies this
      ensures entries == restored
    {
      entries := restored;
    }
  }
}
