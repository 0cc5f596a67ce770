/** Staged writes over the store, committed in one batch (db/stage.go). */
module Stage {
  import opened Prelude
  import opened Store

  datatype Op = Put(key: Bytes, value: Bytes) | Del(key: Bytes)

  /** The batch written to the store, operation by operation. */
  function Replay(data: Data, batch: seq<Op>): Data
  {
    if |batch| == 0 then data
    else
      var before := Replay(data, batch[..|batch| - 1]);
      match batch[|batch| - 1]
      case Put(key, value) => before[key := value]
      case Del(key) => before - {key}
  }

  /** What the stage remembers of the batch: a deleted key has the nil value. */
  function Remembered(batch: seq<Op>): Data
  {
    if |batch| == 0 then map[]
    else
      var before := Remembered(batch[..|batch| - 1]);
      match batch[|batch| - 1]
      case Put(key, value) => before[key := value]
      case Del(key) => before[key := []]
  }

  /** The last operation on a key. */
  function Last(batch: seq<Op>, key: Bytes): Option<Op>
  {
    if |batch| == 0 then None
    else if batch[|batch| - 1].key == key then Some(batch[|batch| - 1])
    else Last(batch[..|batch| - 1], key)
  }

  /** The value of a key once the batch is written: the last write, or what the store had. */
  function Overlaid(data: Data, batch: seq<Op>, key: Bytes): Option<Bytes>
  {
    match Last(batch, key)
    case None => Get(data, key)
    case Some(Put(_, value)) => Some(value)
    case Some(Del(_)) => None
  }

  lemma {:induction false} ReplayOverlays(data: Data, batch: seq<Op>, key: Bytes)
    ensures Get(Replay(data, batch), key) == Overlaid(data, batch, key)
  {
    if |batch| > 0 {
      ReplayOverlays(data, batch[..|batch| - 1], key);
    }
  }

  lemma {:induction false} RememberedIs(batch: seq<Op>, key: Bytes)
    ensures Get(Remembered(batch), key) ==
            match Last(batch, key) { case None => None case Some(Put(_, value)) => Some(value) case Some(Del(_)) => Some([]) }
  {
    if |batch| > 0 {
      RememberedIs(batch[..|batch| - 1], key);
    }
  }

  /** Committing a stage again, without a reset in between, changes nothing. */
  lemma ReplayTwice(data: Data, batch: seq<Op>)
    ensures Replay(Replay(data, batch), batch) == Replay(data, batch)
  {
    var once, twice := Replay(data, batch), Replay(Replay(data, batch), batch);
    forall key
      ensures Get(twice, key) == Get(once, key)
    {
      ReplayOverlays(data, batch, key);
      ReplayOverlays(once, batch, key);
    }
    assert forall key :: key in once ==> Get(twice, key) == Get(once, key);
    assert forall key :: key in twice ==> Get(once, key) == Get(twice, key);
  }

  class Stage {
    const parent: LevelDB
    var batch: seq<Op>
    var kvmap: Data

    ghost predicate Valid()
      reads this
    {
      kvmap == Remembered(batch)
    }

    constructor (parent: LevelDB)
      ensures this.parent == parent && Valid() && batch == []
    {
      this.parent := parent;
      batch, kvmap := [], map[];
    }

    /** prefix: that of the database whose keys the stage is used with. */
    method Set(prefix: Bytes, key: Bytes, value: Bytes)
      requires Valid()
      modifies this
      ensures Valid() && batch == old(batch) + [Put(PrefixedKey(prefix, key), value)]
    {
      var prefixedKey := PrefixedKey(prefix, key);
      batch := batch + [Put(prefixedKey, value)];
      kvmap := kvmap[prefixedKey := value];
    }

    method Delete(prefix: Bytes, key: Bytes)
      requires Valid()
      modifies this
      ensures Valid() && batch == old(batch) + [Del(PrefixedKey(prefix, key))]
    {
      var prefixedKey := PrefixedKey(prefix, key);
      batch := batch + [Del(prefixedKey)];
      kvmap := kvmap[prefixedKey := []];
    }

    /** A key that is not staged is looked up under the parent's own prefix, whatever the stage is used with. */
    method Read(prefix: Bytes, key: Bytes) returns (value: Option<Bytes>)
      requires Valid()
      ensures value == Reads(parent.disk.data, batch, parent.prefix, prefix, key)
    {
      var prefixedKey := PrefixedKey(prefix, key);
      RememberedIs(batch, prefixedKey);
      if prefixedKey in kvmap {
        return Some(kvmap[prefixedKey]);
      }
      value := parent.Read(key);
    }

    method Commit()
      requires Valid()
      modifies parent.disk
      ensures parent.disk.data == Replay(old(parent.disk.data), batch)
    {
      var data := parent.disk.data;
      for i := 0 to |batch|
        invariant data == Replay(parent.disk.data, batch[..i])
        invariant parent.disk.data == old(parent.disk.data)
      {
        assert batch[..i + 1][..i] == batch[..i];
        match batch[i] {
          case Put(key, value) => data := data[key := value];
          case Del(key) => data := data - {key};
        }
      }
      assert batch[..|batch|] == batch;
      parent.disk.data := data;
    }

    method Reset()
      modifies this
      ensures Valid() && batch == []
    {
      batch, kvmap := [], map[];
    }
  }

  function Reads(data: Data, batch: seq<Op>, own: Bytes, prefix: Bytes, key: Bytes): Option<Bytes>
  {
    match Last(batch, PrefixedKey(prefix, key))
    case Some(Put(_, value)) => Some(value)
    case Some(Del(_)) => Some([])
    case None => Get(data, PrefixedKey(own, key))
  }

  /** Under the parent's own prefix a read already shows what a commit will leave, a deleted key as the nil value. */
  lemma OwnReads(data: Data, batch: seq<Op>, own: Bytes, key: Bytes)
    ensures var committed := Get(Replay(data, batch), PrefixedKey(own, key));
            Reads(data, batch, own, own, key) ==
            match Last(batch, PrefixedKey(own, key)) { case Some(Del(_)) => Some([]) case _ => committed }
  {
    ReplayOverlays(data, batch, PrefixedKey(own, key));
  }

  /** Under another prefix it does so exactly if the key was set in the stage, or the store has the same under both keys. */
  lemma ForeignReads(data: Data, batch: seq<Op>, own: Bytes, prefix: Bytes, key: Bytes)
    ensures Reads(data, batch, own, prefix, key) == Get(Replay(data, batch), PrefixedKey(prefix, key)) <==>
            match Last(batch, PrefixedKey(prefix, key)) {
              case Some(Put(_, _)) => true
              case Some(Del(_)) => false
              case None => Get(data, PrefixedKey(own, key)) == Get(data, PrefixedKey(prefix, key)) }
  {
    ReplayOverlays(data, batch, PrefixedKey(prefix, key));
  }

  /** A key that no staged operation names is left alone. */
  lemma {:induction false} Untouched(data: Data, batch: seq<Op>, key: Bytes)
    requires forall i :: 0 <= i < |batch| ==> batch[i].key != key
    ensures Get(Replay(data, batch), key) == Get(data, key)
  {
    if |batch| > 0 {
      Untouched(data, batch[..|batch| - 1], key);
    }
  }
}
