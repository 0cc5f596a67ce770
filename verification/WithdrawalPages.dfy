/** Listing the withdrawals of an address page by page (executor/child/db.go). */
module WithdrawalPages {
  import opened Prelude
  import opened ByteOrder
  import opened Store
  import opened Keys

  // ----- Pages of a set -----

  /** Which of two sequences a listing shows first. */
  predicate Before(descOrder: bool, a: nat, b: nat)
  {
    if descOrder then a > b else a < b
  }

  predicate InOrder(descOrder: bool, ss: seq<nat>)
  {
    forall i, j :: 0 <= i < j < |ss| ==> Before(descOrder, ss[i], ss[j])
  }

  /** Sequence s is shown from the offset on; a descending listing from offset 0 shows all. */
  predicate Beyond(descOrder: bool, offset: nat, s: nat)
  {
    if descOrder then offset == 0 || s <= offset else offset <= s
  }

  /** The list of what is shown from the offset on. */
  ghost predicate Shows(listed: set<nat>, descOrder: bool, offset: nat, all: seq<nat>)
  {
    InOrder(descOrder, all) && forall s :: s in all <==> s in listed && Beyond(descOrder, offset, s)
  }

  /** The first of the list, and the one that comes next, 0 if there is none. */
  predicate Page(all: seq<nat>, limit: nat, sequences: seq<nat>, next: nat)
  {
    && sequences == all[..if |all| < limit then |all| else limit]
    && next == if |all| > limit then all[limit] else 0
  }

  /** What the pages so far leave: everything shown is in them, or is shown from the next offset on. */
  ghost predicate Leaves(listed: set<nat>, descOrder: bool, shown: seq<nat>, next: nat)
  {
    && InOrder(descOrder, shown) && (forall s :: s in shown ==> s in listed)
    && (forall s :: s in listed && s !in shown ==> next != 0 && Beyond(descOrder, next, s))
    && (next != 0 ==> next in listed && forall s :: s in shown ==> Before(descOrder, s, next))
  }

  lemma FirstPage(listed: set<nat>, descOrder: bool, all: seq<nat>, limit: nat, sequences: seq<nat>, next: nat)
    requires Shows(listed, descOrder, 0, all) && Page(all, limit, sequences, next) && 0 !in listed && limit >= 1
    ensures Leaves(listed, descOrder, sequences, next)
  {
    PageLeaves(listed, descOrder, 0, all, limit, sequences, next);
  }

  lemma PageLeaves(listed: set<nat>, descOrder: bool, offset: nat, all: seq<nat>, limit: nat, sequences: seq<nat>, next: nat)
    requires Shows(listed, descOrder, offset, all) && Page(all, limit, sequences, next) && 0 !in listed
    ensures InOrder(descOrder, sequences)
    ensures forall s :: s in sequences ==> s in listed && Beyond(descOrder, offset, s)
    ensures forall s :: s in listed && Beyond(descOrder, offset, s) && s !in sequences ==> next != 0 && Beyond(descOrder, next, s)
    ensures next != 0 ==> next in listed && Beyond(descOrder, offset, next)
    ensures next != 0 ==> forall s :: s in sequences ==> Before(descOrder, s, next)
    ensures next != 0 ==> |sequences| == limit && (limit >= 1 ==> sequences[0] in listed && Beyond(descOrder, offset, sequences[0]))
  {
    assert |all| > limit ==> all[limit] in all;
    forall s | s in listed && Beyond(descOrder, offset, s) && s !in sequences
      ensures next != 0 && Beyond(descOrder, next, s)
    {
      assert forall j :: 0 <= j < |sequences| ==> all[j] == sequences[j];
      var i :| 0 <= i < |all| && all[i] == s;
      assert i >= |sequences|;
    }
    forall s | s in sequences
      ensures s in listed && Beyond(descOrder, offset, s)
    {
      var i :| 0 <= i < |sequences| && sequences[i] == s;
      assert all[i] in all;
    }
  }

  lemma NextPage(listed: set<nat>, descOrder: bool, shown: seq<nat>, offset: nat, all: seq<nat>, limit: nat, sequences: seq<nat>, next: nat)
    requires Leaves(listed, descOrder, shown, offset) && offset != 0
    requires Shows(listed, descOrder, offset, all) && Page(all, limit, sequences, next) && 0 !in listed && limit >= 1
    ensures Leaves(listed, descOrder, shown + sequences, next)
    ensures next != 0 ==> Before(descOrder, offset, next)
  {
    PageLeaves(listed, descOrder, offset, all, limit, sequences, next);
    hide Shows, Page;
    var both := shown + sequences;
    assert forall i :: 0 <= i < |shown| ==> shown[i] in shown;
    assert forall i :: 0 <= i < |sequences| ==> sequences[i] in sequences;
    assert InOrder(descOrder, both);
  }

  // ----- The index -----

  type ToUint64 = Bytes -> Option<nat>

  /** The key is that of sequence s of the address, and its value says so. */
  predicate Entry(data: Data, prefix: Bytes, toUint64: ToUint64, address: Bytes, k: Bytes, s: nat)
  {
    && s < U64 && k == AddressKey(address, s)
    && PrefixedKey(prefix, k) in data && toUint64(data[PrefixedKey(prefix, k)]) == Some(s)
  }

  ghost function Listed(data: Data, prefix: Bytes, address: Bytes): set<nat>
  {
    set s: nat | s < U64 && PrefixedKey(prefix, AddressKey(address, s)) in data
  }

  /** All keys under the address are entries; sequences start at 1. */
  ghost predicate Readable(data: Data, prefix: Bytes, toUint64: ToUint64, address: Bytes)
  {
    && (forall k: Bytes :: PrefixedKey(prefix, k) in data && AddressPrefix(address) <= k ==>
          exists s :: Entry(data, prefix, toUint64, address, k, s))
    && 0 !in Listed(data, prefix, address)
  }

  /** The key is at or after the start key in the direction of the listing. */
  predicate KeyBeyond(descOrder: bool, address: Bytes, offset: nat, k: Bytes)
  {
    if descOrder then offset == 0 || !Less(AddressKey(address, offset), k) else !Less(k, AddressKey(address, offset))
  }

  lemma KeyBeyondIff(descOrder: bool, address: Bytes, offset: nat, s: nat)
    requires offset < U64 && s < U64
    ensures KeyBeyond(descOrder, address, offset, AddressKey(address, s)) <==> Beyond(descOrder, offset, s)
  {
    AddressKeyOrder(address, offset, s);
    AddressKeyOrder(address, s, offset);
  }

  lemma Sequences(data: Data, prefix: Bytes, toUint64: ToUint64, address: Bytes, visited: seq<Bytes>) returns (ss: seq<nat>)
    requires Readable(data, prefix, toUint64, address)
    requires forall k :: k in visited ==> PrefixedKey(prefix, k) in data && AddressPrefix(address) <= k
    ensures |ss| == |visited| && forall i :: 0 <= i < |ss| ==> Entry(data, prefix, toUint64, address, visited[i], ss[i])
  {
    hide AddressPrefix;
    ss := [];
    for i := 0 to |visited|
      invariant |ss| == i && forall j :: 0 <= j < i ==> Entry(data, prefix, toUint64, address, visited[j], ss[j])
    {
      assert visited[i] in visited;
      var s :| Entry(data, prefix, toUint64, address, visited[i], s);
      ss := ss + [s];
    }
  }

  lemma EntriesInOrder(data: Data, prefix: Bytes, toUint64: ToUint64, address: Bytes, descOrder: bool, visited: seq<Bytes>, ss: seq<nat>)
    requires |ss| == |visited| && forall i :: 0 <= i < |ss| ==> Entry(data, prefix, toUint64, address, visited[i], ss[i])
    requires if descOrder then Descending(visited) else Ascending(visited)
    ensures InOrder(descOrder, ss)
  {
    hide AddressKey, Less;
    forall i, j | 0 <= i < j < |ss|
      ensures Before(descOrder, ss[i], ss[j])
    {
      assert Entry(data, prefix, toUint64, address, visited[i], ss[i]) && Entry(data, prefix, toUint64, address, visited[j], ss[j]);
      AddressKeyOrder(address, ss[i], ss[j]);
      AddressKeyOrder(address, ss[j], ss[i]);
    }
  }

  /** What the iterator visits is what the listing shows. */
  lemma VisitedShows(data: Data, prefix: Bytes, toUint64: ToUint64, address: Bytes, descOrder: bool, offset: nat, visited: seq<Bytes>)
    returns (ss: seq<nat>)
    requires Readable(data, prefix, toUint64, address) && offset < U64
    requires if descOrder then Descending(visited) else Ascending(visited)
    requires forall k :: k in visited <==>
               PrefixedKey(prefix, k) in data && AddressPrefix(address) <= k && KeyBeyond(descOrder, address, offset, k)
    ensures |ss| == |visited| && forall i :: 0 <= i < |ss| ==> Entry(data, prefix, toUint64, address, visited[i], ss[i])
    ensures Shows(Listed(data, prefix, address), descOrder, offset, ss)
  {
    ss := Sequences(data, prefix, toUint64, address, visited);
    EntriesInOrder(data, prefix, toUint64, address, descOrder, visited, ss);
    hide InOrder, Less, Readable;
    forall s
      ensures s in ss <==> s in Listed(data, prefix, address) && Beyond(descOrder, offset, s)
    {
      if s in ss {
        var i :| 0 <= i < |ss| && ss[i] == s;
        assert Entry(data, prefix, toUint64, address, visited[i], s) && visited[i] in visited;
        KeyBeyondIff(descOrder, address, offset, s);
      }
      if s in Listed(data, prefix, address) && Beyond(descOrder, offset, s) {
        KeyBeyondIff(descOrder, address, offset, s);
        assert AddressPrefix(address) <= AddressKey(address, s);
        var i :| 0 <= i < |visited| && visited[i] == AddressKey(address, s);
        assert Entry(data, prefix, toUint64, address, visited[i], ss[i]);
        AddressKeyInjective(address, s, address, ss[i]);
      }
    }
  }

  // ----- The query -----

  /** The callback over the visited entries: a value that is no number is an error, the limit ends the page. */
  method TakePage(data: Data, prefix: Bytes, toUint64: ToUint64, visited: seq<Bytes>, limit: nat)
    returns (ok: bool, sequences: seq<nat>, next: nat)
    requires forall k :: k in visited ==> PrefixedKey(prefix, k) in data
    ensures !ok ==> sequences == [] && next == 0
    ensures forall all: seq<nat> ::
              |all| == |visited| && (forall i :: 0 <= i < |all| ==> toUint64(data[PrefixedKey(prefix, visited[i])]) == Some(all[i])) ==>
              ok && Page(all, limit, sequences, next)
  {
    ok, sequences, next := true, [], 0;
    var i := 0;
    while i < |visited|
      invariant 0 <= i <= |visited| && i <= limit && |sequences| == i
      invariant forall j :: 0 <= j < i ==> toUint64(data[PrefixedKey(prefix, visited[j])]) == Some(sequences[j])
    {
      assert visited[i] in visited;
      var sequence := toUint64(data[PrefixedKey(prefix, visited[i])]);
      if sequence.None? {
        ok, sequences := false, [];
        return;
      }
      if i >= limit {
        next := sequence.value;
        break;
      }
      sequences := sequences + [sequence.value];
      i := i + 1;
    }
  }

  method GetSequencesByAddress(db: LevelDB, toUint64: ToUint64, address: Bytes, offset: nat, limit: nat, descOrder: bool)
    returns (ok: bool, sequences: seq<nat>, next: nat)
    requires offset < U64
    ensures !ok ==> sequences == [] && next == 0
    ensures Readable(db.disk.data, db.prefix, toUint64, address) ==>
              ok && exists all :: Shows(Listed(db.disk.data, db.prefix, address), descOrder, offset, all) && Page(all, limit, sequences, next)
  {
    ghost var data, prefix := db.disk.data, db.prefix;
    var visited;
    if descOrder {
      visited := db.ReverseIterate(AddressPrefix(address), if offset != 0 then Some(AddressKey(address, offset)) else None);
    } else {
      visited := db.Iterate(AddressPrefix(address), Some(AddressKey(address, offset)));
    }
    assert forall k :: k in visited <==> PrefixedKey(prefix, k) in data && AddressPrefix(address) <= k && KeyBeyond(descOrder, address, offset, k) by {
      assert forall k: Bytes :: db.Under(AddressPrefix(address), k) <==> PrefixedKey(prefix, k) in data && AddressPrefix(address) <= k;
    }
    hide AddressPrefix, AddressKey, KeyBeyond;
    ok, sequences, next := TakePage(db.disk.data, db.prefix, toUint64, visited, limit);
    if Readable(data, prefix, toUint64, address) {
      ghost var all := VisitedShows(data, prefix, toUint64, address, descOrder, offset, visited);
      assert forall i :: 0 <= i < |all| ==> Entry(data, prefix, toUint64, address, visited[i], all[i]);
    }
  }

  /** Following next page by page lists every withdrawal of the address exactly once, in order. */
  method ListAll(db: LevelDB, toUint64: ToUint64, address: Bytes, limit: nat, descOrder: bool) returns (all: seq<nat>)
    requires Readable(db.disk.data, db.prefix, toUint64, address) && limit >= 1
    ensures InOrder(descOrder, all)
    ensures forall s :: s in all <==> s in Listed(db.disk.data, db.prefix, address)
  {
    ghost var listed := Listed(db.disk.data, db.prefix, address);
    assert forall s :: s in listed ==> s < U64;
    hide Listed;
    var ok: bool, sequences: seq<nat>, next: nat;
    ok, sequences, next := GetSequencesByAddress(db, toUint64, address, 0, limit, descOrder);
    ghost var page :| Shows(listed, descOrder, 0, page) && Page(page, limit, sequences, next);
    FirstPage(listed, descOrder, page, limit, sequences, next);
    all := sequences;
    while next != 0
      invariant Leaves(listed, descOrder, all, next)
      decreases if next == 0 then 0 else if descOrder then next else U64 - next
    {
      var offset := next;
      ok, sequences, next := GetSequencesByAddress(db, toUint64, address, offset, limit, descOrder);
      ghost var page :| Shows(listed, descOrder, offset, page) && Page(page, limit, sequences, next);
      NextPage(listed, descOrder, all, offset, page, limit, sequences, next);
      all := all + sequences;
    }
  }
}
