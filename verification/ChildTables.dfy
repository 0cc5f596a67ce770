/**
 What the executor's and the challenger's child share: the L2 chain they replay, the tables they write, the staged
 writes of one block, and the history of working trees that one committed block after another leaves behind.
 */
module ChildTables {
  import opened Prelude
  import opened MerkleSpec
  import opened MerkleTree
  import opened MerkleProofs

  // ----- The chain -----

  /** A withdrawal event: its L2 sequence and the withdrawal hash that becomes the leaf. */
  datatype Withdrawal = Withdrawal(sequence: nat, hash: Bytes)

  datatype Block = Block(time: int, id: Bytes, withdrawals: seq<Withdrawal>)

  /** Block by height; the first block is at height 1. */
  type Chain = nat -> Block

  function Hashes(ws: seq<Withdrawal>): (s: seq<Bytes>)
    ensures |s| == |ws| && forall i :: 0 <= i < |ws| ==> s[i] == ws[i].hash
  {
    seq(|ws|, i requires 0 <= i < |ws| => ws[i].hash)
  }

  /** All leaves of the blocks up to the height; the withdrawal with sequence q is at q - 1. */
  function Leaves(ch: Chain, height: nat): seq<Bytes>
  {
    if height == 0 then [] else Leaves(ch, height - 1) + Hashes(ch(height).withdrawals)
  }

  /** L2 numbers its withdrawals 1, 2, 3, ... in block order. */
  ghost predicate Consecutive(ch: Chain)
  {
    forall h: nat, j: nat :: h >= 1 && j < |ch(h).withdrawals| ==>
      ch(h).withdrawals[j].sequence == |Leaves(ch, h - 1)| + 1 + j
  }

  lemma {:induction false} LeavesPrefix(ch: Chain, a: nat, b: nat)
    requires a <= b
    ensures Leaves(ch, a) <= Leaves(ch, b)
  {
    if a < b { LeavesPrefix(ch, a, b - 1); }
  }

  // ----- Handlers -----

  /** rootFn(version, storageRoot, blockId) is the output root; submits says whether the host node has a broadcaster. */
  datatype Config = Config(f: NodeFn, rootFn: (nat, Bytes, Bytes) -> Bytes, version: nat, interval: nat, submits: bool)

  /** A handler is done, failed so that the block is tried again, or panicked. */
  datatype Outcome = Done | Retry | Panicked

  /** The answer to an output query on L1. */
  datatype Query = Found(l2BlockNumber: nat, l1BlockTime: int) | NotFound | Unavailable

  // ----- The tables and the staged writes -----

  /** An output proposal as the executor queues it. */
  datatype Proposal = Proposal(outputIndex: nat, l2BlockNumber: nat, outputRoot: Bytes)

  /**
   The committed state. synced is 0 when no height is stored. proposals are the proposal messages handed to the
   broadcaster's table, in order.
   */
  datatype ChildDb = ChildDb(
    synced: nat,
    working: map<nat, TreeInfo>,
    finalized: FinalizedTable,
    nodes: NodeTable,
    withdrawals: map<nat, Bytes>,
    proposals: seq<Proposal>)

  datatype Write =
    | PutWorking(tree: TreeInfo)
    | PutFinalized(info: FinalizedTreeInfo)
    | PutNode(node: Node)
    | PutWithdrawal(sequence: nat, hash: Bytes)
    | PutSynced(height: nat)
    | PutProposal(proposal: Proposal)

  function Apply(db: ChildDb, w: Write): ChildDb
  {
    match w
    case PutWorking(t) => db.(working := db.working[t.version := t])
    case PutFinalized(i) => db.(finalized := db.finalized[i.startLeafIndex := i])
    case PutNode(n) => db.(nodes := db.nodes[NodeKey(n.treeIndex, n.height, n.localNodeIndex) := n.data])
    case PutWithdrawal(q, h) => db.(withdrawals := db.withdrawals[q := h])
    case PutSynced(h) => db.(synced := h)
    case PutProposal(p) => db.(proposals := db.proposals + [p])
  }

  /** Commit: the staged writes take effect together, in order. */
  function ApplyAll(db: ChildDb, ws: seq<Write>): ChildDb
  {
    if |ws| == 0 then db else Apply(ApplyAll(db, ws[..|ws| - 1]), ws[|ws| - 1])
  }

  function NodeWrites(nodes: seq<Node>): (ws: seq<Write>)
    ensures |ws| == |nodes| && forall i :: 0 <= i < |nodes| ==> ws[i] == PutNode(nodes[i])
  {
    seq(|nodes|, i requires 0 <= i < |nodes| => PutNode(nodes[i]))
  }

  function ProposalWrites(ps: seq<Proposal>): (ws: seq<Write>)
    ensures |ws| == |ps| && forall i :: 0 <= i < |ps| ==> ws[i] == PutProposal(ps[i])
  {
    seq(|ps|, i requires 0 <= i < |ps| => PutProposal(ps[i]))
  }

  lemma {:induction false} ApplyConcat(db: ChildDb, a: seq<Write>, b: seq<Write>)
    ensures ApplyAll(db, a + b) == ApplyAll(ApplyAll(db, a), b)
    decreases |b|
  {
    if |b| == 0 {
      assert a + b == a;
    } else {
      ApplyConcat(db, a, b[..|b| - 1]);
      assert (a + b)[..|a + b| - 1] == a + b[..|b| - 1];
    }
  }

  lemma ApplyOne(db: ChildDb, ws: seq<Write>, w: Write)
    ensures ApplyAll(db, ws + [w]) == Apply(ApplyAll(db, ws), w)
  {
    assert (ws + [w])[..|ws|] == ws;
  }

  lemma {:induction false} ApplyNodes(db: ChildDb, nodes: seq<Node>)
    ensures ApplyAll(db, NodeWrites(nodes)) == db.(nodes := SaveNodes(db.nodes, nodes))
    decreases |nodes|
  {
    if |nodes| > 0 {
      ApplyNodes(db, nodes[..|nodes| - 1]);
      assert NodeWrites(nodes)[..|nodes| - 1] == NodeWrites(nodes[..|nodes| - 1]);
    }
  }

  lemma {:induction false} ApplyProposals(db: ChildDb, ps: seq<Proposal>)
    ensures ApplyAll(db, ProposalWrites(ps)) == db.(proposals := db.proposals + ps)
    decreases |ps|
  {
    if |ps| == 0 {
      assert db.proposals + ps == db.proposals;
    } else {
      ApplyProposals(db, ps[..|ps| - 1]);
      assert ProposalWrites(ps)[..|ps| - 1] == ProposalWrites(ps[..|ps| - 1]);
      assert db.proposals + ps[..|ps| - 1] + [ps[|ps| - 1]] == db.proposals + ps;
    }
  }

  // ----- The history of working trees -----

  /** Where a run starts: after block height, with output index, the next withdrawal being sequence. */
  datatype Base = Base(height: nat, index: nat, sequence: nat)

  /** The tables of the base child that a start at an output boundary keeps (provider/child/child.go). */
  function Truncated(db: ChildDb, b: Base, disableDelete: bool): ChildDb
  {
    db.(working := map v | v in db.working && v <= b.height :: db.working[v],
        finalized := if disableDelete || b.height == 0 then db.finalized
                     else map q | q in db.finalized && q < b.sequence :: db.finalized[q],
        nodes := map k | k in db.nodes && k.treeIndex <= b.height :: db.nodes[k])
  }

  /** The tree a begin-block handler loads or initializes for block h (None if it panics first). */
  function LoadTree(working: map<nat, TreeInfo>, init: Option<Base>, h: nat): (Option<TreeInfo>, Outcome)
    requires h >= 1
  {
    if h - 1 in working then
      var t := working[h - 1];
      if t.done && t.startLeafIndex + t.leafCount == 0 then (Some(t.(version := t.version + 1)), Retry)
      else (Some(Prepare(t)), Done)
    else if init.Some? && init.value.height + 1 == h && init.value.index >= 1 && init.value.sequence >= 1 then
      (Some(EmptyTree(h, init.value.index, init.value.sequence)), Done)
    else (None, Panicked)
  }

  /** The tree that block v + 1 continues from. */
  function At(working: map<nat, TreeInfo>, b: Base, v: nat): TreeInfo
  {
    if v in working then Prepare(working[v]) else EmptyTree(v + 1, b.index, b.sequence)
  }

  /** The leaves from the one with sequence start on. */
  function From(leaves: seq<Bytes>, start: nat): seq<Bytes>
  {
    if 1 <= start <= |leaves| + 1 then leaves[start - 1..] else []
  }

  /** The leaves a tree holds after block v. */
  function TreeLeaves(ch: Chain, t: TreeInfo, v: nat): seq<Bytes>
  {
    From(Leaves(ch, v), t.startLeafIndex)
  }

  /** A tree whose leaves end with block v, open ones with their frontier. */
  ghost predicate TreeOk(f: NodeFn, ch: Chain, v: nat, t: TreeInfo)
  {
    && t.index >= 1 && t.startLeafIndex >= 1
    && t.startLeafIndex - 1 + t.leafCount == |Leaves(ch, v)|
    && (!t.done ==> Frontier(f, t.lastSiblings, TreeLeaves(ch, t, v)))
  }

  /** Block v + 1 saved its working tree, grown from the one of block v. */
  ghost predicate Step(f: NodeFn, ch: Chain, b: Base, working: map<nat, TreeInfo>, v: nat)
  {
    && v + 1 in working
    && working[v + 1].version == v + 1
    && TreeOk(f, ch, v + 1, working[v + 1])
    && working[v + 1].index == At(working, b, v).index
    && working[v + 1].startLeafIndex == At(working, b, v).startLeafIndex
  }

  /** The base is consistent; if a tree is saved there it is the closed one before the base. */
  ghost predicate BaseOk(ch: Chain, b: Base, working: map<nat, TreeInfo>)
  {
    && b.index >= 1
    && b.sequence == |Leaves(ch, b.height)| + 1
    && (b.height in working ==>
          var t := working[b.height];
          t.done && t.version == b.height && t.index + 1 == b.index && t.startLeafIndex + t.leafCount == b.sequence)
  }

  /** One saved working tree per block after the base, each grown from the one before. */
  ghost predicate History(f: NodeFn, ch: Chain, b: Base, working: map<nat, TreeInfo>, top: nat)
  {
    && b.height <= top
    && BaseOk(ch, b, working)
    && (forall v: nat :: b.height <= v < top ==> Step(f, ch, b, working, v))
  }

  /** The tree that block v + 1 continues from is open and holds the leaves up to block v. */
  lemma AtOk(f: NodeFn, ch: Chain, b: Base, working: map<nat, TreeInfo>, top: nat, v: nat)
    requires History(f, ch, b, working, top) && b.height <= v <= top
    ensures var t := At(working, b, v); t.version == v + 1 && !t.done && TreeOk(f, ch, v, t)
    ensures v == b.height ==> At(working, b, v).index == b.index && At(working, b, v).startLeafIndex == b.sequence
    ensures v > b.height ==> Step(f, ch, b, working, v - 1)
  {
    EmptyFrontier(f);
    if v > b.height {
      assert Step(f, ch, b, working, v - 1);
    }
    assert Leaves(ch, v)[|Leaves(ch, v)|..] == [];
  }

  /** Committing one more block extends the history. */
  lemma HistoryExtends(f: NodeFn, ch: Chain, b: Base, working: map<nat, TreeInfo>, top: nat, t: TreeInfo)
    requires History(f, ch, b, working, top)
    requires t.version == top + 1 && TreeOk(f, ch, top + 1, t)
    requires t.index == At(working, b, top).index && t.startLeafIndex == At(working, b, top).startLeafIndex
    ensures History(f, ch, b, working[top + 1 := t], top + 1)
  {
    var working' := working[top + 1 := t];
    forall v: nat | b.height <= v < top + 1
      ensures Step(f, ch, b, working', v)
    {
      assert At(working', b, v) == At(working, b, v);
      if v < top { assert Step(f, ch, b, working, v); }
    }
  }

  /** Forgetting the blocks after top' keeps the history up to there. */
  lemma HistoryTruncates(f: NodeFn, ch: Chain, b: Base, working: map<nat, TreeInfo>, top: nat, working': map<nat, TreeInfo>, top': nat)
    requires History(f, ch, b, working, top) && b.height <= top' <= top
    requires forall v: nat :: v <= top' ==> Get(working', v) == Get(working, v)
    ensures History(f, ch, b, working', top')
  {
    assert Get(working', b.height) == Get(working, b.height);
    forall v: nat | b.height <= v < top'
      ensures Step(f, ch, b, working', v)
    {
      var u: nat := v + 1;
      assert Get(working', v) == Get(working, v) && Get(working', u) == Get(working, u);
      assert Step(f, ch, b, working, v);
    }
  }

  /** Indexes and starts never go back, and one index has one start. */
  lemma {:induction false} AtMonotone(f: NodeFn, ch: Chain, b: Base, working: map<nat, TreeInfo>, top: nat, v: nat, w: nat)
    requires History(f, ch, b, working, top) && b.height <= v <= w <= top
    ensures At(working, b, v).index <= At(working, b, w).index
    ensures At(working, b, v).startLeafIndex <= At(working, b, w).startLeafIndex
    ensures At(working, b, v).index == At(working, b, w).index ==>
              At(working, b, v).startLeafIndex == At(working, b, w).startLeafIndex
    decreases w
  {
    if v < w {
      AtMonotone(f, ch, b, working, top, v, w - 1);
      AtOk(f, ch, b, working, top, w);
    }
  }

  /** A tree was closed at block v. */
  predicate ClosedAt(working: map<nat, TreeInfo>, b: Base, top: nat, v: nat)
  {
    b.height < v <= top && v in working && working[v].done
  }

  /** Closing order: the tree closed later has the higher index and starts no earlier than the other one ends. */
  lemma ClosedOrder(f: NodeFn, ch: Chain, b: Base, working: map<nat, TreeInfo>, top: nat, v: nat, w: nat)
    requires History(f, ch, b, working, top)
    requires ClosedAt(working, b, top, v) && ClosedAt(working, b, top, w) && v < w
    ensures working[v].index < working[w].index
    ensures working[v].startLeafIndex + working[v].leafCount <= working[w].startLeafIndex
  {
    AtMonotone(f, ch, b, working, top, v, w - 1);
    assert Step(f, ch, b, working, w - 1);
  }

  /** Closed trees end before the tree now open. */
  lemma ClosedBefore(f: NodeFn, ch: Chain, b: Base, working: map<nat, TreeInfo>, top: nat, v: nat)
    requires History(f, ch, b, working, top) && ClosedAt(working, b, top, v)
    ensures b.sequence <= working[v].startLeafIndex
    ensures working[v].startLeafIndex + working[v].leafCount <= At(working, b, top).startLeafIndex
    ensures b.index <= working[v].index < At(working, b, top).index
    ensures working[v].startLeafIndex + working[v].leafCount == |Leaves(ch, v)| + 1
  {
    AtMonotone(f, ch, b, working, top, v, top);
    AtMonotone(f, ch, b, working, top, b.height, v - 1);
    AtOk(f, ch, b, working, top, b.height);
    assert Step(f, ch, b, working, v - 1);
  }

  /** A tree closed after block v starts no earlier than the tree then open. */
  lemma ClosedAfter(f: NodeFn, ch: Chain, b: Base, working: map<nat, TreeInfo>, top: nat, v: nat, w: nat)
    requires History(f, ch, b, working, top) && b.height <= v < w && ClosedAt(working, b, top, w)
    ensures At(working, b, v).startLeafIndex <= working[w].startLeafIndex
  {
    AtMonotone(f, ch, b, working, top, v, w - 1);
    assert Step(f, ch, b, working, w - 1);
  }

  /** No gap: every sequence before the open tree lies in a closed tree. */
  lemma {:induction false} ClosedCover(f: NodeFn, ch: Chain, b: Base, working: map<nat, TreeInfo>, top: nat, q: nat) returns (v: nat)
    requires History(f, ch, b, working, top)
    requires b.sequence <= q < At(working, b, top).startLeafIndex
    ensures ClosedAt(working, b, top, v)
    ensures working[v].startLeafIndex <= q < working[v].startLeafIndex + working[v].leafCount
    decreases top
  {
    AtOk(f, ch, b, working, top, top);
    if working[top].done && working[top].startLeafIndex <= q {
      v := top;
    } else {
      v := ClosedCover(f, ch, b, working, top - 1, q);
    }
  }

  /** The tree after the one closed at prev, or after the base, starts with the first leaf after block prev. */
  lemma NextTree(f: NodeFn, ch: Chain, b: Base, working: map<nat, TreeInfo>, top: nat, prev: nat, v: nat)
    requires History(f, ch, b, working, top) && ClosedAt(working, b, top, v)
    requires || (prev == b.height && working[v].index == b.index)
             || (ClosedAt(working, b, top, prev) && working[v].index == working[prev].index + 1)
    ensures prev < v && working[v].startLeafIndex == |Leaves(ch, prev)| + 1
  {
    if prev != b.height && v < prev {
      ClosedOrder(f, ch, b, working, top, v, prev);
    } else {
      AtOk(f, ch, b, working, top, prev);
      AtMonotone(f, ch, b, working, top, prev, v - 1);
      assert Step(f, ch, b, working, v - 1);
    }
  }

  // ----- Inside a block -----

  /** Leaves up to the block top, and the first j of the next block. */
  function Partial(ch: Chain, top: nat, j: nat): seq<Bytes>
    requires j <= |ch(top + 1).withdrawals|
  {
    Leaves(ch, top) + Hashes(ch(top + 1).withdrawals)[..j]
  }

  lemma PartialGrows(ch: Chain, top: nat, j: nat, start: nat)
    requires j < |ch(top + 1).withdrawals| && 1 <= start <= |Partial(ch, top, j)| + 1
    ensures Partial(ch, top, j + 1) == Partial(ch, top, j) + [ch(top + 1).withdrawals[j].hash]
    ensures From(Partial(ch, top, j + 1), start) == From(Partial(ch, top, j), start) + [ch(top + 1).withdrawals[j].hash]
  {
    var hs := Hashes(ch(top + 1).withdrawals);
    assert hs[..j + 1] == hs[..j] + [hs[j]];
    assert Partial(ch, top, j + 1) == Partial(ch, top, j) + [hs[j]];
  }

  lemma PartialWhole(ch: Chain, top: nat)
    ensures Partial(ch, top, |ch(top + 1).withdrawals|) == Leaves(ch, top + 1)
  {
    var hs := Hashes(ch(top + 1).withdrawals);
    assert hs[..|hs|] == hs;
  }
}
