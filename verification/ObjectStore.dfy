/** The object store as a map whose operations may fail (agent/src/core/cloud/client.rs). */
module ObjectStores {
  import opened Base
  import opened CloudCaching

  datatype S3Error = S3Error

  class ObjectStore {
    var objects: map<Key, Bytes>
    /** Operations so far; `fails` says which of them do not succeed. */
    var ops: nat
    const fails: nat -> bool

    constructor (objects: map<Key, Bytes>, fails: nat -> bool)
      ensures this.objects == objects && this.fails == fails && ops == 0
    {
      this.objects, this.fails := objects, fails;
      ops := 0;
    }

    /** No operation fails. */
    ghost predicate Reliable()
      reads this
    {
      forall n: nat :: !fails(n)
    }

    method List(prefix: string) returns (r: Result<seq<Key>, S3Error>)
      modifies `ops
      ensures r.Err? <==> fails(old(ops))
      ensures r.Ok? ==> (forall k :: k in r.value <==> k in objects && prefix <= k)
      ensures r.Ok? ==> forall i, j :: 0 <= i < j < |r.value| ==> r.value[i] != r.value[j]
      ensures ops == old(ops) + 1
    {
      ops := ops + 1;
      if fails(ops - 1) {
        return Err(S3Error);
      }
      var keys: seq<Key> := [];
      var rest := objects.Keys;
      while rest != {}
        invariant rest <= objects.Keys
        invariant forall k :: k in keys <==> k in objects.Keys - rest && prefix <= k
        invariant forall i, j :: 0 <= i < j < |keys| ==> keys[i] != keys[j]
        decreases rest
      {
        var k :| k in rest;
        assert k !in keys;
        rest := rest - {k};
        if prefix <= k {
          keys := keys + [k];
        }
      }
      r := Ok(keys);
    }

    method Head(key: Key) returns (r: Result<Option<nat>, S3Error>)
      modifies `ops
      ensures r == if fails(old(ops)) then Err(S3Error) else Ok(if key in objects then Some(|objects[key]|) else None)
      ensures ops == old(ops) + 1
    {
      ops := ops + 1;
      r := if fails(ops - 1) then Err(S3Error) else Ok(if key in objects then Some(|objects[key]|) else None);
    }

    method Get(key: Key) returns (r: Result<Bytes, S3Error>)
      modifies `ops
      ensures r == if fails(old(ops)) || key !in objects then Err(S3Error) else Ok(objects[key])
      ensures ops == old(ops) + 1
    {
      ops := ops + 1;
      r := if fails(ops - 1) || key !in objects then Err(S3Error) else Ok(objects[key]);
    }

    /** `len` bytes from `offset`, as far as there are any. */
    method GetRange(key: Key, offset: nat, len: nat) returns (r: Result<Bytes, S3Error>)
      modifies `ops
      ensures r.Err? <==> fails(old(ops)) || key !in objects || offset > |objects[key]|
      ensures r.Ok? && offset + len <= |objects[key]| ==> r.value == objects[key][offset..offset + len]
      ensures ops == old(ops) + 1
    {
      ops := ops + 1;
      if fails(ops - 1) || key !in objects || offset > |objects[key]| {
        return Err(S3Error);
      }
      var bytes := objects[key];
      r := Ok(if offset + len <= |bytes| then bytes[offset..offset + len] else bytes[offset..]);
    }

    method Put(key: Key, bytes: Bytes) returns (ok: bool)
      modifies `ops, `objects
      ensures ok <==> !fails(old(ops))
      ensures objects == if ok then old(objects)[key := bytes] else old(objects)
      ensures ops == old(ops) + 1
    {
      ops := ops + 1;
      ok := !fails(ops - 1);
      if ok {
        objects := objects[key := bytes];
      }
    }

    method Delete(key: Key) returns (ok: bool)
      modifies `ops, `objects
      ensures ok <==> !fails(old(ops))
      ensures objects == if ok then old(objects) - {key} else old(objects)
      ensures ops == old(ops) + 1
    {
      ops := ops + 1;
      ok := !fails(ops - 1);
      if ok {
        objects := objects - {key};
      }
    }
  }
}
