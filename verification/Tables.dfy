/** Tables over the ordered store: numbered trees and nodes, withdrawals with their index, challenges by time. */
module Tables {
  import opened Prelude
  import opened ByteOrder
  import opened Store
  import opened Keys
  import MerkleProofs

  // ----- Everything from a number on -----

  /** Deletes the keys of a kind from a number on: collect, then delete. */
  method DeleteFrom(db: LevelDB, name: string, from: nat)
    modifies db.disk
    ensures forall k :: db.Has(k) <==> old(db.Has(k)) && !(Kind(name) <= k && !Less(k, NumberKey(name, from)))
    ensures forall full :: full in db.disk.data ==> full in old(db.disk.data) && db.disk.data[full] == old(db.disk.data)[full]
    ensures forall full :: full in old(db.disk.data) && !(db.prefix + [SPLITTER] <= full) ==> full in db.disk.data
  {
    var deleteKeys := db.Iterate(Kind(name), Some(NumberKey(name, from)));
    db.DeleteAll(deleteKeys);
  }

  method DeleteFutureFinalizedTrees(db: LevelDB, fromSequence: nat)
    requires fromSequence < U64
    modifies db.disk
    ensures forall n :: 0 <= n < U64 ==> (db.Has(NumberKey(FINALIZED_TREE, n)) <==> old(db.Has(NumberKey(FINALIZED_TREE, n))) && n < fromSequence)
    ensures forall k :: !(Kind(FINALIZED_TREE) <= k) ==> (db.Has(k) <==> old(db.Has(k)))
  {
    DeleteFrom(db, FINALIZED_TREE, fromSequence);
    forall n | 0 <= n < U64
      ensures Kind(FINALIZED_TREE) <= NumberKey(FINALIZED_TREE, n)
      ensures Less(NumberKey(FINALIZED_TREE, n), NumberKey(FINALIZED_TREE, fromSequence)) <==> n < fromSequence
    {
      NumberKeyOrder(FINALIZED_TREE, n, fromSequence);
    }
  }

  method DeleteFutureWorkingTrees(db: LevelDB, fromVersion: nat)
    requires fromVersion < U64
    modifies db.disk
    ensures forall n :: 0 <= n < U64 ==> (db.Has(NumberKey(WORKING_TREE, n)) <==> old(db.Has(NumberKey(WORKING_TREE, n))) && n < fromVersion)
    ensures forall k :: !(Kind(WORKING_TREE) <= k) ==> (db.Has(k) <==> old(db.Has(k)))
  {
    DeleteFrom(db, WORKING_TREE, fromVersion);
    forall n | 0 <= n < U64
      ensures Kind(WORKING_TREE) <= NumberKey(WORKING_TREE, n)
      ensures Less(NumberKey(WORKING_TREE, n), NumberKey(WORKING_TREE, fromVersion)) <==> n < fromVersion
    {
      NumberKeyOrder(WORKING_TREE, n, fromVersion);
    }
  }

  method DeleteFutureNodes(db: LevelDB, treeIndex: nat)
    requires treeIndex < U64
    modifies db.disk
    ensures forall t: nat, h: byte, i: nat :: t < U64 && i < U64 ==>
              (db.Has(NodeKeyBytes(t, h, i)) <==> old(db.Has(NodeKeyBytes(t, h, i))) && t < treeIndex)
    ensures forall k :: !(Kind(NODE) <= k) ==> (db.Has(k) <==> old(db.Has(k)))
  {
    DeleteFrom(db, NODE, treeIndex);
    forall t: nat, h: byte, i: nat | t < U64 && i < U64
      ensures Kind(NODE) <= NodeKeyBytes(t, h, i)
      ensures Less(NodeKeyBytes(t, h, i), NumberKey(NODE, treeIndex)) <==> t < treeIndex
    {
      NodeKeyFrom(t, h, i, treeIndex);
    }
  }

  // ----- The last tree at or before a leaf -----

  /** The table the store holds under the finalized-tree keys. */
  ghost predicate HoldsTrees(db: LevelDB, table: map<nat, Bytes>)
    reads db.disk
  {
    && (forall n :: n in table ==> n < U64 && Get(db.disk.data, PrefixedKey(db.prefix, NumberKey(FINALIZED_TREE, n))) == Some(table[n]))
    && (forall k :: db.Under(Ascii(FINALIZED_TREE), k) ==> exists n :: n in table && k == NumberKey(FINALIZED_TREE, n))
  }

  /** Seeking by key bytes finds what seeking by number finds. */
  method SeekTree(db: LevelDB, ghost table: map<nat, Bytes>, leafIndex: nat) returns (r: Seek)
    requires HoldsTrees(db, table) && leafIndex < U64
    ensures r.NotFound? <==> table == map[]
    ensures r.Nil? <==> table != map[] && MerkleProofs.SeekPrev(table, leafIndex).None?
    ensures r.Found? ==> exists n :: n in table && MerkleProofs.SeekPrev(table, leafIndex) == Some(n)
                                     && r.key == NumberKey(FINALIZED_TREE, n) && r.value == table[n]
  {
    r := db.SeekPrevInclusiveKey(Ascii(FINALIZED_TREE), NumberKey(FINALIZED_TREE, leafIndex));
    forall n | n in table
      ensures db.Under(Ascii(FINALIZED_TREE), NumberKey(FINALIZED_TREE, n))
      ensures Less(NumberKey(FINALIZED_TREE, leafIndex), NumberKey(FINALIZED_TREE, n)) <==> leafIndex < n
    {
      NumberKeyOrder(FINALIZED_TREE, leafIndex, n);
    }
    hide NumberKey, Less, Ascii;
    if r.Found? {
      ghost var n :| n in table && r.key == NumberKey(FINALIZED_TREE, n);
      forall m | m in table && m <= leafIndex
        ensures m <= n
      {
        NumberKeyOrder(FINALIZED_TREE, n, m);
      }
      SeekPrevIs(table, leafIndex, n);
    }
  }

  lemma SeekPrevIs(table: map<nat, Bytes>, q: nat, n: nat)
    requires n in table && n <= q && forall m :: m in table && m <= q ==> m <= n
    ensures MerkleProofs.SeekPrev(table, q) == Some(n)
  {
  }

  // ----- Withdrawals -----

  /** What an encoded withdrawal says: the receiver and the sequence. */
  type Decode = Bytes -> Option<(Bytes, nat)>

  function At(data: Data, prefix: Bytes, key: Bytes): Option<Bytes>
  {
    Get(data, PrefixedKey(prefix, key))
  }

  function Primary(data: Data, prefix: Bytes, sequence: nat): Option<Bytes>
  {
    At(data, prefix, NumberKey(WITHDRAWAL_SEQUENCE, sequence))
  }

  function Receiver(data: Data, prefix: Bytes, decode: Decode, sequence: nat): Option<Bytes>
  {
    var value := Primary(data, prefix, sequence);
    if value.None? || decode(value.value).None? then None else Some(decode(value.value).value.0)
  }

  /** The primary table is well formed, and the index by address lists it exactly. */
  ghost predicate Indexed(data: Data, prefix: Bytes, decode: Decode)
  {
    && (forall k: Bytes :: Kind(WITHDRAWAL_SEQUENCE) <= k && At(data, prefix, k).Some? ==>
          exists s :: 0 <= s < U64 && k == NumberKey(WITHDRAWAL_SEQUENCE, s))
    && (forall s: nat :: s < U64 && Primary(data, prefix, s).Some? ==>
          decode(Primary(data, prefix, s).value).Some? && decode(Primary(data, prefix, s).value).value.1 == s)
    && (forall a: Bytes, s: nat :: s < U64 ==>
          (At(data, prefix, AddressKey(a, s)).Some? <==> Receiver(data, prefix, decode, s) == Some(a)))
  }

  /** Deleted along with the withdrawal of sequence s. */
  predicate Goes(data: Data, prefix: Bytes, decode: Decode, s: nat, k: Bytes)
  {
    && Receiver(data, prefix, decode, s).Some?
    && (k == NumberKey(WITHDRAWAL_SEQUENCE, s) || k == AddressKey(Receiver(data, prefix, decode, s).value, s))
  }

  ghost predicate Doomed(data: Data, prefix: Bytes, decode: Decode, from: nat, k: Bytes)
  {
    exists s :: from <= s < U64 && Goes(data, prefix, decode, s, k)
  }

  lemma KindsApart(a: Bytes, m: nat, n: nat)
    ensures AddressKey(a, m) != NumberKey(WITHDRAWAL_SEQUENCE, n)
  {
    assert Kind(WITHDRAWAL_SEQUENCE) <= NumberKey(WITHDRAWAL_SEQUENCE, n);
    assert Kind(WITHDRAWAL_ADDRESS) <= AddressKey(a, m);
    WithdrawalKindsApart(NumberKey(WITHDRAWAL_SEQUENCE, n));
  }

  lemma NumberKeyInjective(name: string, m: nat, n: nat)
    requires m < U64 && n < U64 && NumberKey(name, m) == NumberKey(name, n)
    ensures m == n
  {
    NumberKeyRoundTrip(name, m);
    NumberKeyRoundTrip(name, n);
  }

  lemma DoomedKind(data: Data, prefix: Bytes, decode: Decode, from: nat, k: Bytes)
    ensures Doomed(data, prefix, decode, from, k) ==> Kind(WITHDRAWAL_SEQUENCE) <= k || Kind(WITHDRAWAL_ADDRESS) <= k
  {
    if Doomed(data, prefix, decode, from, k) {
      var s :| from <= s < U64 && Goes(data, prefix, decode, s, k);
      assert Kind(WITHDRAWAL_SEQUENCE) <= NumberKey(WITHDRAWAL_SEQUENCE, s);
      assert Kind(WITHDRAWAL_ADDRESS) <= AddressKey(Receiver(data, prefix, decode, s).value, s);
    }
  }

  lemma DoomedPrimary(data: Data, prefix: Bytes, decode: Decode, from: nat, s: nat)
    requires Indexed(data, prefix, decode) && s < U64
    ensures Doomed(data, prefix, decode, from, NumberKey(WITHDRAWAL_SEQUENCE, s)) <==> Primary(data, prefix, s).Some? && s >= from
  {
    var k := NumberKey(WITHDRAWAL_SEQUENCE, s);
    if Doomed(data, prefix, decode, from, k) {
      var s' :| from <= s' < U64 && Goes(data, prefix, decode, s', k);
      KindsApart(Receiver(data, prefix, decode, s').value, s', s);
      NumberKeyInjective(WITHDRAWAL_SEQUENCE, s, s');
    } else {
      assert s >= from ==> !Goes(data, prefix, decode, s, k);
    }
  }

  lemma DoomedAddress(data: Data, prefix: Bytes, decode: Decode, from: nat, a: Bytes, s: nat)
    requires s < U64
    ensures Doomed(data, prefix, decode, from, AddressKey(a, s)) <==> Receiver(data, prefix, decode, s) == Some(a) && s >= from
  {
    var k := AddressKey(a, s);
    if Doomed(data, prefix, decode, from, k) {
      var s' :| from <= s' < U64 && Goes(data, prefix, decode, s', k);
      KindsApart(a, s, s');
      AddressKeyInjective(a, s, Receiver(data, prefix, decode, s').value, s');
    } else {
      assert s >= from ==> !Goes(data, prefix, decode, s, k);
    }
  }

  /** Deleting the withdrawals from a sequence on, with their index entries, leaves the rest indexed exactly. */
  lemma DeletedIndexed(data: Data, data': Data, prefix: Bytes, decode: Decode, from: nat)
    requires Indexed(data, prefix, decode)
    requires forall k: Bytes :: At(data', prefix, k) == if Doomed(data, prefix, decode, from, k) then None else At(data, prefix, k)
    ensures forall s: nat :: s < U64 ==> Primary(data', prefix, s) == if s < from then Primary(data, prefix, s) else None
    ensures Indexed(data', prefix, decode)
  {
    forall s: nat | s < U64
      ensures Primary(data', prefix, s) == if s < from then Primary(data, prefix, s) else None
    {
      DoomedPrimary(data, prefix, decode, from, s);
    }
    forall a: Bytes, s: nat | s < U64
      ensures At(data', prefix, AddressKey(a, s)).Some? <==> Receiver(data', prefix, decode, s) == Some(a)
    {
      DoomedAddress(data, prefix, decode, from, a, s);
    }
    hide Doomed;
    forall k: Bytes | Kind(WITHDRAWAL_SEQUENCE) <= k && At(data', prefix, k).Some?
      ensures exists s :: 0 <= s < U64 && k == NumberKey(WITHDRAWAL_SEQUENCE, s)
    {
      assert At(data, prefix, k).Some?;
    }
  }

  method DeleteFutureWithdrawals(db: LevelDB, decode: Decode, fromSequence: nat) returns (ok: bool)
    requires Indexed(db.disk.data, db.prefix, decode) && fromSequence < U64
    modifies db.disk
    ensures ok && Indexed(db.disk.data, db.prefix, decode)
    ensures forall s: nat :: s < U64 ==>
              Primary(db.disk.data, db.prefix, s) == if s < fromSequence then Primary(old(db.disk.data), db.prefix, s) else None
    ensures forall k :: !(Kind(WITHDRAWAL_SEQUENCE) <= k) && !(Kind(WITHDRAWAL_ADDRESS) <= k) ==> (db.Has(k) <==> old(db.Has(k)))
    ensures forall full :: full in db.disk.data ==> full in old(db.disk.data) && db.disk.data[full] == old(db.disk.data)[full]
    ensures forall full :: full in old(db.disk.data) && !(db.prefix + [SPLITTER] <= full) ==> full in db.disk.data
  {
    var visited := db.Iterate(Kind(WITHDRAWAL_SEQUENCE), Some(NumberKey(WITHDRAWAL_SEQUENCE, fromSequence)));
    ghost var data, prefix := db.disk.data, db.prefix;
    var deletingKeys: seq<Bytes> := [];
    for i := 0 to |visited|
      invariant db.disk.data == data
      invariant forall k :: k in deletingKeys ==> Doomed(data, prefix, decode, fromSequence, k)
      invariant forall j, k :: 0 <= j < i && GoesWith(data, prefix, decode, visited[j], k) ==> k in deletingKeys
    {
      assert visited[i] in visited && db.Under(Kind(WITHDRAWAL_SEQUENCE), visited[i]);
      VisitedGoes(data, prefix, decode, fromSequence, visited[i]);
      var withdrawal := decode(db.disk.data[PrefixedKey(db.prefix, visited[i])]);
      if withdrawal.None? {
        return false;
      }
      deletingKeys := deletingKeys + [AddressKey(withdrawal.value.0, withdrawal.value.1), visited[i]];
    }
    db.DeleteAll(deletingKeys);
    forall k: Bytes
      ensures At(db.disk.data, prefix, k) == if Doomed(data, prefix, decode, fromSequence, k) then None else At(data, prefix, k)
    {
      if Doomed(data, prefix, decode, fromSequence, k) {
        var key := DoomedVisited(data, prefix, decode, fromSequence, k);
        assert old(db.Under(Kind(WITHDRAWAL_SEQUENCE), key));
        var j :| 0 <= j < |visited| && visited[j] == key;
        assert k in deletingKeys && !db.Has(k);
      } else {
        assert k !in deletingKeys && db.Has(k) == old(db.Has(k));
      }
    }
    DeletedIndexed(data, db.disk.data, prefix, decode, fromSequence);
    forall k | !(Kind(WITHDRAWAL_SEQUENCE) <= k) && !(Kind(WITHDRAWAL_ADDRESS) <= k)
      ensures !Doomed(data, prefix, decode, fromSequence, k)
    {
      DoomedKind(data, prefix, decode, fromSequence, k);
    }
    ok := true;
  }

  /** A withdrawal and its index entry. */
  function Saved(data: Data, prefix: Bytes, to: Bytes, sequence: nat, value: Bytes, mark: Bytes): Data
  {
    data[PrefixedKey(prefix, NumberKey(WITHDRAWAL_SEQUENCE, sequence)) := value]
        [PrefixedKey(prefix, AddressKey(to, sequence)) := mark]
  }

  method SaveWithdrawal(db: LevelDB, to: Bytes, sequence: nat, value: Bytes, mark: Bytes)
    modifies db.disk
    ensures db.disk.data == Saved(old(db.disk.data), db.prefix, to, sequence, value, mark)
  {
    db.Set(NumberKey(WITHDRAWAL_SEQUENCE, sequence), value);
    db.Set(AddressKey(to, sequence), mark);
  }

  lemma SavedAt(data: Data, prefix: Bytes, to: Bytes, sequence: nat, value: Bytes, mark: Bytes, k: Bytes)
    ensures At(Saved(data, prefix, to, sequence, value, mark), prefix, k) ==
            if k == AddressKey(to, sequence) then Some(mark)
            else if k == NumberKey(WITHDRAWAL_SEQUENCE, sequence) then Some(value) else At(data, prefix, k)
  {
    hide NumberKey, AddressKey;
    if PrefixedKey(prefix, k) == PrefixedKey(prefix, AddressKey(to, sequence)) {
      PrefixInjective(prefix, k, AddressKey(to, sequence));
    }
    if PrefixedKey(prefix, k) == PrefixedKey(prefix, NumberKey(WITHDRAWAL_SEQUENCE, sequence)) {
      PrefixInjective(prefix, k, NumberKey(WITHDRAWAL_SEQUENCE, sequence));
    }
  }

  lemma SavedPrimary(data: Data, prefix: Bytes, to: Bytes, sequence: nat, value: Bytes, mark: Bytes, s: nat)
    requires s < U64 && sequence < U64
    ensures Primary(Saved(data, prefix, to, sequence, value, mark), prefix, s) ==
            if s == sequence then Some(value) else Primary(data, prefix, s)
  {
    SavedAt(data, prefix, to, sequence, value, mark, NumberKey(WITHDRAWAL_SEQUENCE, s));
    KindsApart(to, sequence, s);
    if NumberKey(WITHDRAWAL_SEQUENCE, s) == NumberKey(WITHDRAWAL_SEQUENCE, sequence) {
      NumberKeyInjective(WITHDRAWAL_SEQUENCE, s, sequence);
    }
  }

  lemma SavedAddress(data: Data, prefix: Bytes, to: Bytes, sequence: nat, value: Bytes, mark: Bytes, a: Bytes, s: nat)
    requires s < U64 && sequence < U64
    ensures At(Saved(data, prefix, to, sequence, value, mark), prefix, AddressKey(a, s)) ==
            if s == sequence && a == to then Some(mark) else At(data, prefix, AddressKey(a, s))
  {
    SavedAt(data, prefix, to, sequence, value, mark, AddressKey(a, s));
    KindsApart(a, s, sequence);
    if AddressKey(a, s) == AddressKey(to, sequence) {
      AddressKeyInjective(a, s, to, sequence);
    }
  }

  /** Saving keeps the index exact unless it replaces a withdrawal to someone else, whose entry would stay behind. */
  lemma SavedIndexedIff(data: Data, prefix: Bytes, decode: Decode, to: Bytes, sequence: nat, value: Bytes, mark: Bytes)
    requires Indexed(data, prefix, decode) && sequence < U64 && decode(value) == Some((to, sequence))
    ensures Indexed(Saved(data, prefix, to, sequence, value, mark), prefix, decode) <==>
            Receiver(data, prefix, decode, sequence) in {None, Some(to)}
  {
    var data' := Saved(data, prefix, to, sequence, value, mark);
    forall s: nat | s < U64
      ensures Primary(data', prefix, s) == if s == sequence then Some(value) else Primary(data, prefix, s)
    {
      SavedPrimary(data, prefix, to, sequence, value, mark, s);
    }
    forall a: Bytes, s: nat | s < U64
      ensures At(data', prefix, AddressKey(a, s)) == if s == sequence && a == to then Some(mark) else At(data, prefix, AddressKey(a, s))
    {
      SavedAddress(data, prefix, to, sequence, value, mark, a, s);
    }
    forall k: Bytes | Kind(WITHDRAWAL_SEQUENCE) <= k && At(data', prefix, k).Some?
      ensures exists s :: 0 <= s < U64 && k == NumberKey(WITHDRAWAL_SEQUENCE, s)
    {
      SavedAt(data, prefix, to, sequence, value, mark, k);
      if k == AddressKey(to, sequence) {
        WithdrawalKindsApart(k);
      }
    }
    hide Saved, AddressKey, NumberKey;
    var was := Receiver(data, prefix, decode, sequence);
    if was.Some? && was.value != to {
      assert At(data', prefix, AddressKey(was.value, sequence)).Some?;
      assert Receiver(data', prefix, decode, sequence) == Some(to);
    }
  }

  /** Deleted along with the withdrawal stored under a key. */
  predicate GoesWith(data: Data, prefix: Bytes, decode: Decode, key: Bytes, k: Bytes)
  {
    && At(data, prefix, key).Some? && decode(At(data, prefix, key).value).Some?
    && var (to, s) := decode(At(data, prefix, key).value).value;
       k == key || k == AddressKey(to, s)
  }

  lemma VisitedGoes(data: Data, prefix: Bytes, decode: Decode, from: nat, key: Bytes)
    requires Indexed(data, prefix, decode) && from < U64
    requires Kind(WITHDRAWAL_SEQUENCE) <= key && At(data, prefix, key).Some? && !Less(key, NumberKey(WITHDRAWAL_SEQUENCE, from))
    ensures decode(At(data, prefix, key).value).Some?
    ensures forall k :: GoesWith(data, prefix, decode, key, k) ==> Doomed(data, prefix, decode, from, k)
  {
    var s :| 0 <= s < U64 && key == NumberKey(WITHDRAWAL_SEQUENCE, s);
    NumberKeyOrder(WITHDRAWAL_SEQUENCE, s, from);
    assert Primary(data, prefix, s) == At(data, prefix, key);
    forall k | GoesWith(data, prefix, decode, key, k)
      ensures Doomed(data, prefix, decode, from, k)
    {
      assert Goes(data, prefix, decode, s, k);
    }
  }

  lemma DoomedVisited(data: Data, prefix: Bytes, decode: Decode, from: nat, k: Bytes) returns (key: Bytes)
    requires Indexed(data, prefix, decode) && from < U64 && Doomed(data, prefix, decode, from, k)
    ensures Kind(WITHDRAWAL_SEQUENCE) <= key && At(data, prefix, key).Some? && !Less(key, NumberKey(WITHDRAWAL_SEQUENCE, from))
    ensures GoesWith(data, prefix, decode, key, k)
  {
    var s :| from <= s < U64 && Goes(data, prefix, decode, s, k);
    key := NumberKey(WITHDRAWAL_SEQUENCE, s);
    NumberKeyOrder(WITHDRAWAL_SEQUENCE, s, from);
    assert Primary(data, prefix, s) == At(data, prefix, key);
  }

  // ----- Challenges -----

  /** All keys that start like a challenge key are challenge keys. */
  ghost predicate HoldsChallenges(db: LevelDB)
    reads db.disk
  {
    forall k :: db.Under(Ascii(CHALLENGE), k) ==> ChallengeTime(k).Some?
  }

  predicate IsChallengeKey(k: Bytes, t: nat, kind: byte, id: nat)
  {
    t < U64 && id < U64 && k == ChallengeKey(t, kind, id)
  }

  /** The time in a well-formed challenge key. */
  ghost function ChallengeTime(k: Bytes): (t: Option<nat>)
    ensures t.Some? <==> exists t: nat, kind: byte, id: nat :: IsChallengeKey(k, t, kind, id)
    ensures t.Some? ==> exists kind: byte, id: nat :: IsChallengeKey(k, t.value, kind, id)
  {
    if t: nat, kind: byte, id: nat :| IsChallengeKey(k, t, kind, id) then Some(t) else None
  }

  lemma ChallengeTimeParsed(k: Bytes)
    requires ChallengeTime(k).Some?
    ensures ParseChallenge(k).Some? && ParseChallenge(k).value.0 == ChallengeTime(k).value
  {
    var kind: byte, id: nat :| IsChallengeKey(k, ChallengeTime(k).value, kind, id);
    ChallengeKeyRoundTrip(ChallengeTime(k).value, kind, id);
  }

  lemma ChallengeTimeOrder(a: Bytes, b: Bytes)
    requires ChallengeTime(a).Some? && ChallengeTime(b).Some? && ChallengeTime(a).value < ChallengeTime(b).value
    ensures Less(a, b)
  {
    var kind: byte, id: nat :| IsChallengeKey(a, ChallengeTime(a).value, kind, id);
    var kind': byte, id': nat :| IsChallengeKey(b, ChallengeTime(b).value, kind', id');
    ChallengeKeyOrder(ChallengeTime(a).value, kind, id, ChallengeTime(b).value, kind', id');
  }

  ghost predicate Late(k: Bytes, initialBlockTime: nat)
  {
    ChallengeTime(k).Some? && ChallengeTime(k).value >= initialBlockTime
  }

  /** The scan: back from the latest challenge, up to the first one before the time given. */
  method CollectLate(visited: seq<Bytes>, initialBlockTime: nat) returns (ok: bool, late: seq<Bytes>)
    requires Descending(visited) && forall k :: k in visited ==> ChallengeTime(k).Some?
    ensures ok && forall k :: k in late <==> k in visited && Late(k, initialBlockTime)
  {
    var i := 0;
    while i < |visited|
      invariant 0 <= i <= |visited|
      invariant forall j :: 0 <= j < i ==> Late(visited[j], initialBlockTime)
    {
      assert visited[i] in visited;
      ChallengeTimeParsed(visited[i]);
      var parsed := ParseChallenge(visited[i]);
      if parsed.None? {
        return false, [];
      }
      if parsed.value.0 < initialBlockTime {
        break;
      }
      i := i + 1;
    }
    forall j | i <= j < |visited|
      ensures !Late(visited[j], initialBlockTime)
    {
      assert visited[j] in visited && visited[i] in visited;
      if i < j && ChallengeTime(visited[i]).value < ChallengeTime(visited[j]).value {
        ChallengeTimeOrder(visited[i], visited[j]);
        LessAsymmetric(visited[i], visited[j]);
      }
    }
    return true, visited[..i];
  }

  method DeleteFutureChallenges(db: LevelDB, initialBlockTime: nat) returns (ok: bool)
    requires HoldsChallenges(db)
    modifies db.disk
    ensures ok && forall k :: db.Has(k) <==> old(db.Has(k)) && !(Ascii(CHALLENGE) <= k && Late(k, initialBlockTime))
  {
    var visited := db.ReverseIterate(Ascii(CHALLENGE), None);
    assert forall k :: k in visited ==> db.Under(Ascii(CHALLENGE), k);
    var late;
    ok, late := CollectLate(visited, initialBlockTime);
    if ok {
      db.DeleteAll(late);
    }
  }
}
