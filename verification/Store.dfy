/** The ordered key-value store and its iterators (db/db.go). */
module Store {
  import opened Prelude
  import opened ByteOrder

  const SPLITTER: byte := 0x2f

  type Data = map<Bytes, Bytes>

  function PrefixedKey(prefix: Bytes, key: Bytes): Bytes
  {
    prefix + [SPLITTER] + key
  }

  function UnprefixedKey(prefix: Bytes, key: Bytes): Bytes
  {
    if prefix + [SPLITTER] <= key then key[|prefix| + 1..] else key
  }

  lemma PrefixRoundTrip(prefix: Bytes, key: Bytes)
    ensures UnprefixedKey(prefix, PrefixedKey(prefix, key)) == key
  {
  }

  lemma PrefixInjective(prefix: Bytes, a: Bytes, b: Bytes)
    requires PrefixedKey(prefix, a) == PrefixedKey(prefix, b)
    ensures a == b
  {
    PrefixRoundTrip(prefix, a);
    PrefixRoundTrip(prefix, b);
  }

  /** Every key under the prefix is a prefixed key. */
  lemma UnprefixRoundTrip(prefix: Bytes, p: Bytes, key: Bytes)
    requires PrefixedKey(prefix, p) <= key
    ensures PrefixedKey(prefix, UnprefixedKey(prefix, key)) == key && p <= UnprefixedKey(prefix, key)
  {
    var start := prefix + [SPLITTER];
    assert key[..|start| + |p|] == start + p;
    assert key[..|start|] == start && key[|start|..][..|p|] == p;
    assert key == start + key[|start|..];
  }

  predicate Ascending(keys: seq<Bytes>)
  {
    forall i, j :: 0 <= i < j < |keys| ==> Less(keys[i], keys[j])
  }

  predicate Descending(keys: seq<Bytes>)
  {
    forall i, j :: 0 <= i < j < |keys| ==> Less(keys[j], keys[i])
  }

  datatype Seek = Found(key: Bytes, value: Bytes) | Nil | NotFound

  /** What all prefixed views of the database share. */
  class Disk {
    var data: Data

    constructor ()
      ensures data == map[]
    {
      data := map[];
    }
  }

  class LevelDB {
    const disk: Disk
    const prefix: Bytes

    constructor (disk: Disk, prefix: Bytes)
      ensures this.disk == disk && this.prefix == prefix
    {
      this.disk, this.prefix := disk, prefix;
    }

    predicate Has(key: Bytes)
      reads disk
    {
      PrefixedKey(prefix, key) in disk.data
    }

    predicate Under(p: Bytes, key: Bytes)
      reads disk
    {
      Has(key) && p <= key
    }

    method Set(key: Bytes, value: Bytes)
      modifies disk
      ensures disk.data == old(disk.data)[PrefixedKey(prefix, key) := value]
    {
      disk.data := disk.data[PrefixedKey(prefix, key) := value];
    }

    method Read(key: Bytes) returns (value: Option<Bytes>)
      ensures value == Get(disk.data, PrefixedKey(prefix, key))
    {
      value := Get(disk.data, PrefixedKey(prefix, key));
    }

    method Delete(key: Bytes)
      modifies disk
      ensures disk.data == old(disk.data) - {PrefixedKey(prefix, key)}
    {
      disk.data := disk.data - {PrefixedKey(prefix, key)};
    }

    /** An iterator over the keys under a prefix, without the database's own. */
    method NewIterator(p: Bytes) returns (keys: seq<Bytes>)
      ensures Ascending(keys) && forall k :: k in keys <==> Under(p, k)
    {
      keys := [];
      var left := disk.data.Keys;
      while left != {}
        invariant left <= disk.data.Keys
        invariant Ascending(keys)
        invariant forall k :: k in keys <==> Under(p, k) && PrefixedKey(prefix, k) !in left
      {
        var full :| full in left;
        left := left - {full};
        ghost var before := keys;
        if PrefixedKey(prefix, p) <= full {
          UnprefixRoundTrip(prefix, p, full);
          keys := InsertSorted(keys, UnprefixedKey(prefix, full));
          forall k
            ensures k in keys <==> Under(p, k) && PrefixedKey(prefix, k) !in left
          {
            if PrefixedKey(prefix, k) == full {
              PrefixRoundTrip(prefix, k);
            }
          }
        } else {
          forall k | p <= k
            ensures PrefixedKey(prefix, k) != full
          {
            assert PrefixedKey(prefix, k) == PrefixedKey(prefix, p) + k[|p|..];
          }
        }
      }
    }

    static method InsertSorted(keys: seq<Bytes>, key: Bytes) returns (r: seq<Bytes>)
      requires Ascending(keys) && key !in keys
      ensures Ascending(r) && forall k :: k in r <==> k in keys || k == key
    {
      var i := SeekIn(keys, key);
      assert keys == keys[..i] + keys[i..];
      if i < |keys| {
        LessTotal(keys[i], key);
        forall j | i < j < |keys|
          ensures Less(key, keys[j])
        {
          LessTransitive(key, keys[i], keys[j]);
        }
      }
      r := keys[..i] + [key] + keys[i..];
    }

    /** Position of the first key at or after the given one. */
    static method SeekIn(keys: seq<Bytes>, key: Bytes) returns (i: nat)
      requires Ascending(keys)
      ensures i <= |keys|
      ensures forall j :: 0 <= j < i ==> Less(keys[j], key)
      ensures i < |keys| ==> !Less(keys[i], key)
    {
      i := 0;
      while i < |keys| && Less(keys[i], key)
        invariant 0 <= i <= |keys|
        invariant forall j :: 0 <= j < i ==> Less(keys[j], key)
      {
        i := i + 1;
      }
    }

    /** The keys a callback sees, in order, as long as it does not stop. */
    method Iterate(p: Bytes, start: Option<Bytes>) returns (visited: seq<Bytes>)
      ensures Ascending(visited)
      ensures forall k :: k in visited <==> Under(p, k) && (start.Some? ==> !Less(k, start.value))
    {
      var keys := NewIterator(p);
      var i := 0;
      if start.Some? {
        i := SeekIn(keys, start.value);
      }
      visited := keys[i..];
      forall k
        ensures k in visited <==> k in keys && (start.Some? ==> !Less(k, start.value))
      {
        if k in visited && start.Some? {
          var j :| i <= j < |keys| && keys[j] == k;
          NotBelow(keys, i, j, start.value);
        }
        if k in keys && (start.Some? ==> !Less(k, start.value)) {
          var j :| 0 <= j < |keys| && keys[j] == k;
          assert visited[j - i] == k;
        }
      }
    }

    static lemma NotBelow(keys: seq<Bytes>, i: nat, j: nat, key: Bytes)
      requires Ascending(keys) && i <= j < |keys| && !Less(keys[i], key)
      ensures !Less(keys[j], key)
    {
      if Less(keys[j], key) && i < j {
        LessTransitive(keys[i], keys[j], key);
      }
    }

    /** Position of the last key at or before the given one; -1 if there is none. */
    static method SeekBack(keys: seq<Bytes>, key: Bytes) returns (at: int)
      requires Ascending(keys)
      ensures -1 <= at < |keys|
      ensures forall j :: 0 <= j < |keys| ==> (j <= at <==> !Less(key, keys[j]))
    {
      var i: int := SeekIn(keys, key);
      at := i;
      if i == |keys| || keys[i] != key {
        at := i - 1;
      }
      forall j | 0 <= j < |keys|
        ensures j <= at <==> !Less(key, keys[j])
      {
        if j < i {
          LessAsymmetric(keys[j], key);
        } else {
          NotBelow(keys, i, j, key);
          LessTotal(keys[j], key);
          if j > i && keys[i] == key {
            LessAsymmetric(keys[i], keys[j]);
          }
          if keys[j] == key {
            NeverBelowItself(key);
          }
        }
      }
    }

    static lemma NeverBelowItself(key: Bytes)
      ensures !Less(key, key)
    {
      if Less(key, key) {
        LessAsymmetric(key, key);
      }
    }

    method ReverseIterate(p: Bytes, start: Option<Bytes>) returns (visited: seq<Bytes>)
      ensures Descending(visited)
      ensures forall k :: k in visited <==> Under(p, k) && (start.Some? ==> !Less(start.value, k))
    {
      var keys := NewIterator(p);
      var at := |keys| - 1;
      if start.Some? {
        at := SeekBack(keys, start.value);
      }
      visited := [];
      ghost var top := at;
      while at >= 0
        invariant -1 <= at <= top < |keys|
        invariant |visited| == top - at && forall j :: 0 <= j < |visited| ==> visited[j] == keys[top - j]
      {
        visited := visited + [keys[at]];
        at := at - 1;
      }
      forall k
        ensures k in visited <==> k in keys && (start.Some? ==> !Less(start.value, k))
      {
        if k in keys && (start.Some? ==> !Less(start.value, k)) {
          var j :| 0 <= j < |keys| && keys[j] == k;
          assert visited[top - j] == k;
        }
      }
    }

    /** Keys under the prefix, but none at or before the given one: no key and no error. */
    method SeekPrevInclusiveKey(p: Bytes, key: Bytes) returns (r: Seek)
      ensures r.NotFound? <==> !exists k :: Under(p, k)
      ensures r.Nil? ==> forall k :: Under(p, k) ==> Less(key, k)
      ensures r.Found? ==>
                && Under(p, r.key) && !Less(key, r.key) && r.value == disk.data[PrefixedKey(prefix, r.key)]
                && forall k :: Under(p, k) && !Less(key, k) ==> !Less(r.key, k)
    {
      var keys := NewIterator(p);
      if |keys| == 0 {
        return NotFound;
      }
      var at := SeekBack(keys, key);
      assert keys[0] in keys && Under(p, keys[0]);
      if at < 0 {
        return Nil;
      }
      assert keys[at] in keys && Under(p, keys[at]);
      r := Found(keys[at], disk.data[PrefixedKey(prefix, keys[at])]);
      forall k | Under(p, k) && !Less(key, k)
        ensures !Less(keys[at], k)
      {
        var j :| 0 <= j < |keys| && keys[j] == k;
        if j == at {
          NeverBelowItself(k);
        } else {
          LessAsymmetric(keys[j], keys[at]);
        }
      }
    }

    /** Deletes the keys it was given and nothing else. */
    method DeleteAll(keys: seq<Bytes>)
      modifies disk
      ensures forall k :: Has(k) <==> old(Has(k)) && k !in keys
      ensures forall full :: full in disk.data ==> full in old(disk.data) && disk.data[full] == old(disk.data)[full]
      ensures forall full :: full in old(disk.data) && !(prefix + [SPLITTER] <= full) ==> full in disk.data
    {
      ghost var data := disk.data;
      for n := 0 to |keys|
        invariant forall full :: full in disk.data <==> full in data && Kept(prefix, keys[..n], full)
        invariant forall full :: full in disk.data ==> disk.data[full] == data[full]
      {
        KeptNext(prefix, keys, n);
        Delete(keys[n]);
      }
      assert keys[..|keys|] == keys;
      forall k
        ensures Kept(prefix, keys, PrefixedKey(prefix, k)) <==> k !in keys
      {
        forall i | 0 <= i < |keys| && PrefixedKey(prefix, keys[i]) == PrefixedKey(prefix, k)
          ensures keys[i] == k
        {
          PrefixInjective(prefix, keys[i], k);
        }
      }
    }

    static predicate Kept(prefix: Bytes, keys: seq<Bytes>, full: Bytes)
    {
      forall i :: 0 <= i < |keys| ==> PrefixedKey(prefix, keys[i]) != full
    }

    static lemma KeptNext(prefix: Bytes, keys: seq<Bytes>, n: nat)
      requires n < |keys|
      ensures forall full :: Kept(prefix, keys[..n + 1], full) <==> Kept(prefix, keys[..n], full) && PrefixedKey(prefix, keys[n]) != full
    {
      assert keys[..n + 1] == keys[..n] + [keys[n]];
    }
  }
}
