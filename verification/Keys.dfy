/** Key layouts: merkle/types/key.go, executor/types/key.go, challenger/types/keys.go. */
module Keys {
  import opened Prelude
  import opened ByteOrder
  import opened Store

  function Ascii(s: string): (bs: Bytes)
    ensures |bs| == |s|
  {
    seq(|s|, i requires 0 <= i < |s| => (s[i] as int) % 256)
  }

  const FINALIZED_TREE: string := "finalized_tree"
  const WORKING_TREE: string := "working_tree"
  const NODE: string := "node"
  const WITHDRAWAL_SEQUENCE: string := "withdrawal_sequence"
  const WITHDRAWAL_ADDRESS: string := "withdrawal_address"
  const PENDING_EVENT: string := "pending_event"
  const CHALLENGE: string := "challenge"

  /** The prefix of a kind of key, with its splitter. */
  function Kind(name: string): Bytes
  {
    Ascii(name) + [SPLITTER]
  }

  // ----- Numbered keys -----

  function NumberKey(name: string, n: nat): Bytes
  {
    Kind(name) + Uint64Key(n)
  }

  function ParseNumberKey(name: string, key: Bytes): Option<nat>
  {
    if |key| != |name| + 9 then None else Some(FromBigEndian(key[|name| + 1..]))
  }

  lemma NumberKeyRoundTrip(name: string, n: nat)
    requires n < U64
    ensures ParseNumberKey(name, NumberKey(name, n)) == Some(n) && Kind(name) <= NumberKey(name, n)
  {
    assert NumberKey(name, n)[|name| + 1..] == Uint64Key(n);
    Uint64KeyRoundTrip(n);
  }

  /** Numbered keys sort as their numbers. */
  lemma NumberKeyOrder(name: string, m: nat, n: nat)
    requires m < U64 && n < U64
    ensures Less(NumberKey(name, m), NumberKey(name, n)) <==> m < n
  {
    LessPrefixed(Kind(name), Uint64Key(m), Uint64Key(n));
    Uint64KeyOrder(m, n);
  }

  // ----- Node keys -----

  function NodeKeyBytes(treeIndex: nat, height: byte, nodeIndex: nat): Bytes
  {
    Kind(NODE) + (Uint64Key(treeIndex) + ([height] + Uint64Key(nodeIndex)))
  }

  function ParseNodeKey(key: Bytes): Option<(nat, byte, nat)>
  {
    if |key| != |NODE| + 18 then None
    else Some((FromBigEndian(key[|NODE| + 1..|NODE| + 9]), key[|NODE| + 9], FromBigEndian(key[|NODE| + 10..])))
  }

  lemma NodeKeyRoundTrip(treeIndex: nat, height: byte, nodeIndex: nat)
    requires treeIndex < U64 && nodeIndex < U64
    ensures ParseNodeKey(NodeKeyBytes(treeIndex, height, nodeIndex)) == Some((treeIndex, height, nodeIndex))
  {
    var key := NodeKeyBytes(treeIndex, height, nodeIndex);
    assert key[|NODE| + 1..|NODE| + 9] == Uint64Key(treeIndex);
    assert key[|NODE| + 10..] == Uint64Key(nodeIndex);
    Uint64KeyRoundTrip(treeIndex);
    Uint64KeyRoundTrip(nodeIndex);
  }

  /** A node is at or after the first key of a tree exactly if its tree is. */
  lemma NodeKeyFrom(treeIndex: nat, height: byte, nodeIndex: nat, from: nat)
    requires treeIndex < U64 && nodeIndex < U64 && from < U64
    ensures Less(NodeKeyBytes(treeIndex, height, nodeIndex), NumberKey(NODE, from)) <==> treeIndex < from
  {
    var rest := [height] + Uint64Key(nodeIndex);
    LessPrefixed(Kind(NODE), Uint64Key(treeIndex) + rest, Uint64Key(from));
    assert Uint64Key(from) + [] == Uint64Key(from);
    LessConcat(Uint64Key(treeIndex), Uint64Key(from), rest, []);
    Uint64KeyOrder(treeIndex, from);
  }

  // ----- Withdrawals by address -----

  function AddressKey(address: Bytes, sequence: nat): Bytes
  {
    Kind(WITHDRAWAL_ADDRESS) + address + [SPLITTER] + Uint64Key(sequence)
  }

  function ParseAddressKey(key: Bytes): Option<(Bytes, nat)>
  {
    var n := |WITHDRAWAL_ADDRESS|;
    if |key| <= n + 1 + 8 + 1 then None
    else Some((key[n + 1..|key| - 9], FromBigEndian(key[|key| - 8..])))
  }

  /** Read back exactly unless the address is empty. */
  lemma AddressKeyRoundTrip(address: Bytes, sequence: nat)
    requires sequence < U64
    ensures ParseAddressKey(AddressKey(address, sequence)) == if address == [] then None else Some((address, sequence))
  {
    var key, n := AddressKey(address, sequence), |WITHDRAWAL_ADDRESS|;
    assert key[n + 1..|key| - 9] == address && key[|key| - 8..] == Uint64Key(sequence);
    Uint64KeyRoundTrip(sequence);
  }

  lemma AddressKeyInjective(a: Bytes, m: nat, b: Bytes, n: nat)
    requires m < U64 && n < U64 && AddressKey(a, m) == AddressKey(b, n)
    ensures a == b && m == n
  {
    var key, l := AddressKey(a, m), |WITHDRAWAL_ADDRESS|;
    assert key[l + 1..|key| - 9] == a && key[|key| - 8..] == Uint64Key(m);
    assert key[l + 1..|key| - 9] == b && key[|key| - 8..] == Uint64Key(n);
    Uint64KeyRoundTrip(m);
    Uint64KeyRoundTrip(n);
  }

  /** The part of a key that all withdrawals to an address share. */
  function AddressPrefix(address: Bytes): Bytes
  {
    Kind(WITHDRAWAL_ADDRESS) + address + [SPLITTER]
  }

  /** The keys of one address sort as their sequences. */
  lemma AddressKeyOrder(address: Bytes, m: nat, n: nat)
    requires m < U64 && n < U64
    ensures Less(AddressKey(address, m), AddressKey(address, n)) <==> m < n
  {
    LessPrefixed(AddressPrefix(address), Uint64Key(m), Uint64Key(n));
    Uint64KeyOrder(m, n);
  }

  /** The two kinds of withdrawal keys never meet. */
  lemma WithdrawalKindsApart(key: Bytes)
    requires Kind(WITHDRAWAL_SEQUENCE) <= key
    ensures !(Kind(WITHDRAWAL_ADDRESS) <= key)
  {
    assert Kind(WITHDRAWAL_SEQUENCE)[11] == 's' as int && Kind(WITHDRAWAL_ADDRESS)[11] == 'a' as int;
  }

  // ----- Challenges -----

  function ChallengeKey(time: nat, kind: byte, id: nat): Bytes
  {
    Kind(CHALLENGE) + (Uint64Key(time) + ([SPLITTER] + ([kind, SPLITTER] + Uint64Key(id))))
  }

  function ParseChallenge(key: Bytes): Option<(nat, byte, nat)>
  {
    if |key| < 19 then None
    else
      var at := |key| - 19;
      Some((FromBigEndian(key[at..at + 8]), key[at + 9], FromBigEndian(key[at + 11..])))
  }

  lemma ChallengeKeyRoundTrip(time: nat, kind: byte, id: nat)
    requires time < U64 && id < U64
    ensures ParseChallenge(ChallengeKey(time, kind, id)) == Some((time, kind, id)) && Ascii(CHALLENGE) <= ChallengeKey(time, kind, id)
  {
    var key := ChallengeKey(time, kind, id);
    var at := |key| - 19;
    assert key[at..at + 8] == Uint64Key(time) && key[at + 11..] == Uint64Key(id);
    Uint64KeyRoundTrip(time);
    Uint64KeyRoundTrip(id);
  }

  /** A challenge of an earlier time has the smaller key. */
  lemma ChallengeKeyOrder(t: nat, kind: byte, id: nat, t': nat, kind': byte, id': nat)
    requires t < U64 && t' < U64 && id < U64 && id' < U64 && t < t'
    ensures Less(ChallengeKey(t, kind, id), ChallengeKey(t', kind', id'))
  {
    var rest, rest' := [SPLITTER] + ([kind, SPLITTER] + Uint64Key(id)), [SPLITTER] + ([kind', SPLITTER] + Uint64Key(id'));
    LessPrefixed(Kind(CHALLENGE), Uint64Key(t) + rest, Uint64Key(t') + rest');
    LessConcat(Uint64Key(t), Uint64Key(t'), rest, rest');
    Uint64KeyOrder(t, t');
  }

  // ----- Pending events -----

  function PendingEventKey(kind: byte, id: nat): Bytes
  {
    Kind(PENDING_EVENT) + ([kind, SPLITTER] + Uint64Key(id))
  }

  function ParsePendingEvent(key: Bytes): Option<(byte, nat)>
  {
    if |key| < 10 then None else Some((key[|key| - 10], FromBigEndian(key[|key| - 8..])))
  }

  lemma PendingEventKeyRoundTrip(kind: byte, id: nat)
    requires id < U64
    ensures ParsePendingEvent(PendingEventKey(kind, id)) == Some((kind, id))
  {
    var key := PendingEventKey(kind, id);
    assert key[|key| - 8..] == Uint64Key(id);
    Uint64KeyRoundTrip(id);
  }
}
