/**
 Runs of the executor's child: blocks attempted, aborted and retried, process restarts, height resets, and outputs
 accepted by L1, in any order.
 */
module ExecutorRuns {
  import opened Prelude
  import opened MerkleSpec
  import opened MerkleTree
  import opened MerkleProofs
  import opened ChildTables
  import opened L1Outputs
  import opened ExecutorChild

  /** The handler the node calls next: a new block, or withdrawal `next` of the block at `height`. */
  datatype Phase = Idle | InBlock(height: nat, next: nat)

  /** recorded is the number of outputs L1 held when the run began. */
  datatype Sys = Sys(
    ex: State,
    synced: nat,
    phase: Phase,
    l1: seq<L1Output>,
    base: Base,
    recorded: nat,
    panicked: bool)

  datatype Action =
    | Begin(prevUp: bool, curUp: bool)
    | Withdraw
    | End(latest: nat, fault: Fault)
    | Abort
    | Restart(boundary: nat)
    | Reset(boundary: nat)
    | Accept(proposal: nat, time: int)

  // ----- The steps -----

  /** Index of the tree a begin-block handler prepares; 0 if it prepares none. */
  function PreparedIndex(s: State, h: nat): nat
    requires h >= 1
  {
    var t := TreePrepared(s.(queue := [], stage := []), h).0.tree;
    if t.Some? then t.value.index else 0
  }

  function Restarted(ch: Chain, s: Sys, db: ChildDb, boundary: nat): Sys
    requires boundary <= |s.l1|
  {
    var b := Boundary(ch, s.l1, boundary);
    s.(ex := Initialized(db, b, false), synced := if db.synced != 0 then db.synced else b.height, phase := Idle)
  }

  /** The tables reach the boundary. */
  predicate Reaches(ch: Chain, s: Sys, boundary: nat)
  {
    boundary <= |s.l1| && s.base.height <= Boundary(ch, s.l1, boundary).height <= s.synced
  }

  predicate Enabled(ch: Chain, s: Sys, a: Action)
  {
    && !s.panicked
    && match a
       case Begin(_, _) => s.phase.Idle?
       case Withdraw => s.phase.InBlock? && s.phase.next < |ch(s.phase.height).withdrawals|
       case End(latest, _) => s.phase.InBlock? && s.phase.next == |ch(s.phase.height).withdrawals| && s.phase.height <= latest
       case Abort => true
       case Restart(k) => k <= |s.l1| && (s.ex.db.synced == 0 ==> Reaches(ch, s, k))
       case Reset(k) => Reaches(ch, s, k)
       case Accept(i, _) => i < |s.ex.db.proposals| && s.ex.db.proposals[i].outputIndex == |s.l1| + 1
  }

  function Next(cfg: Config, ch: Chain, s: Sys, a: Action): Sys
    requires Enabled(ch, s, a)
  {
    match a
    case Begin(prevUp, curUp) =>
      var k := PreparedIndex(s.ex, s.synced + 1);
      var prev := QueryOutput(s.l1, if k == 0 then 0 else k - 1, prevUp);
      var (ex, r) := Begun(cfg, s.ex, s.synced + 1, prev, QueryOutput(s.l1, k, curUp));
      s.(ex := ex, phase := if r == Done then InBlock(s.synced + 1, 0) else Idle, panicked := r == Panicked)
    case Withdraw =>
      var InBlock(h, j) := s.phase;
      var (ex, r) := Withdrawn(cfg, s.ex, ch(h).withdrawals[j]);
      s.(ex := ex, phase := if r == Done then InBlock(h, j + 1) else Idle, panicked := r == Panicked)
    case End(latest, fault) =>
      var h := s.phase.height;
      var (ex, r) := Ended(cfg, s.ex, h, latest, ch(h), fault);
      s.(ex := ex, phase := Idle, synced := if r == Done then h else s.synced, panicked := r == Panicked)
    case Abort => s.(phase := Idle)
    case Restart(k) => Restarted(ch, s, s.ex.db, k)
    case Reset(k) => Restarted(ch, s, s.ex.db.(synced := 0, proposals := []), k)
    case Accept(i, time) =>
      var p := s.ex.db.proposals[i];
      s.(l1 := s.l1 + [L1Output(p.l2BlockNumber, p.outputRoot, time)])
  }

  ghost predicate Run(cfg: Config, ch: Chain, states: seq<Sys>, actions: seq<Action>)
  {
    && |states| == |actions| + 1
    && forall i :: 0 <= i < |actions| ==> Enabled(ch, states[i], actions[i]) && states[i + 1] == Next(cfg, ch, states[i], actions[i])
  }

  // ----- The invariant -----

  function InfoAt(f: NodeFn, ch: Chain, t: TreeInfo, v: nat): FinalizedTreeInfo
  {
    FinalizedTreeInfo(t.index, TreeHeight(t.leafCount), StorageRoot(f, TreeLeaves(ch, t, v)), t.startLeafIndex, t.leafCount,
                      TreeExtraData(v, ch(v).time, ch(v).id))
  }

  /** A nonempty tree was closed at block v. */
  predicate FinalizedAt(working: map<nat, TreeInfo>, b: Base, top: nat, v: nat)
  {
    ClosedAt(working, b, top, v) && working[v].leafCount > 0
  }

  /** Tree t, closed at block v, has its entry and all its nodes stored. */
  ghost predicate FinalOk(f: NodeFn, ch: Chain, t: TreeInfo, v: nat, finalized: FinalizedTable, nodes: NodeTable)
  {
    && Get(finalized, t.startLeafIndex) == Some(InfoAt(f, ch, t, v))
    && t.leafCount > 0 && |TreeLeaves(ch, t, v)| == t.leafCount
    && Stored(f, nodes, t.index, Padded(TreeLeaves(ch, t, v)))
  }

  /** The closed nonempty trees are in the finalized-tree table, and all their nodes are stored. */
  ghost predicate Finals(f: NodeFn, ch: Chain, b: Base, working: map<nat, TreeInfo>, top: nat, finalized: FinalizedTable, nodes: NodeTable)
  {
    forall v: nat :: FinalizedAt(working, b, top, v) ==> FinalOk(f, ch, working[v], v, finalized, nodes)
  }

  /** The withdrawals since the base are stored under their sequences, and no later ones. */
  ghost predicate WithdrawalsOk(b: Base, leaves: seq<Bytes>, withdrawals: map<nat, Bytes>)
  {
    && (forall q: nat :: b.sequence <= q <= |leaves| && q >= 1 ==> Get(withdrawals, q) == Some(leaves[q - 1]))
    && (forall q :: q in withdrawals ==> q <= |leaves|)
  }

  ghost predicate ProposalOk(cfg: Config, ch: Chain, b: Base, working: map<nat, TreeInfo>, top: nat, recorded: nat, p: Proposal)
  {
    && ClosedAt(working, b, top, p.l2BlockNumber)
    && working[p.l2BlockNumber].index == p.outputIndex
    && p.outputIndex > recorded
    && p.outputRoot == cfg.rootFn(cfg.version, StorageRoot(cfg.f, TreeLeaves(ch, working[p.l2BlockNumber], p.l2BlockNumber)), ch(p.l2BlockNumber).id)
  }

  ghost predicate Committed(cfg: Config, ch: Chain, b: Base, db: ChildDb, top: nat)
  {
    && (if db.synced == 0 then db.proposals == [] else db.synced == top && b.height < top)
    && History(cfg.f, ch, b, db.working, top)
    && Finals(cfg.f, ch, b, db.working, top, db.finalized, db.nodes)
    && Stored(cfg.f, db.nodes, At(db.working, b, top).index, TreeLeaves(ch, At(db.working, b, top), top))
    && WithdrawalsOk(b, Leaves(ch, top), db.withdrawals)
  }

  ghost predicate OnL1(cfg: Config, ch: Chain, b: Base, db: ChildDb, top: nat, l1: seq<L1Output>, recorded: nat)
  {
    && Increasing(l1)
    && 1 <= b.index <= |l1| + 1 && b == Boundary(ch, l1, b.index - 1)
    && recorded <= |l1|
    && MatchesL1(b, db.working, top, l1)
    && (forall p :: p in db.proposals ==> ProposalOk(cfg, ch, b, db.working, top, recorded, p))
    && Honest(cfg, ch, l1, recorded)
  }

  ghost predicate Memory(b: Base, db: ChildDb, top: nat, l1: seq<L1Output>, ex: State)
  {
    && (ex.finalizing != 0 ==>
          && At(db.working, b, top).index <= |l1|
          && ex.finalizing == BlockOf(l1, At(db.working, b, top).index))
    && (top !in db.working ==> top == b.height && ex.init == Some(b))
  }

  /** Inside a block the memory tree and the staged writes are those of the withdrawals handled so far. */
  ghost predicate Building(cfg: Config, ch: Chain, s: Sys)
  {
    && s.phase.InBlock? && s.phase.height == s.synced + 1 && s.phase.next <= |ch(s.synced + 1).withdrawals|
    && s.ex.tree.Some?
    && s.ex.queue == []
    && (s.ex.finalizing == 0 ==> s.ex.tree.value.index > |s.l1|)
    && Built(cfg.f, ch, s.base, s.ex.db, s.synced, s.phase.next, s.ex.tree.value, ApplyAll(s.ex.db, s.ex.stage))
  }

  /** Tree t and tables db' after the first j withdrawals of block top + 1, starting from db. */
  ghost predicate Built(f: NodeFn, ch: Chain, b: Base, db: ChildDb, top: nat, j: nat, t: TreeInfo, db': ChildDb)
    requires j <= |ch(top + 1).withdrawals|
  {
    var leaves := Partial(ch, top, j);
    && t == At(db.working, b, top).(lastSiblings := t.lastSiblings, leafCount := t.leafCount)
    && 1 <= t.startLeafIndex && t.startLeafIndex - 1 + t.leafCount == |leaves|
    && Frontier(f, t.lastSiblings, From(leaves, t.startLeafIndex))
    && db' == db.(nodes := db'.nodes, withdrawals := db'.withdrawals)
    && Stored(f, db'.nodes, t.index, From(leaves, t.startLeafIndex))
    && (forall key: NodeKey :: key.treeIndex != t.index ==> Get(db'.nodes, key) == Get(db.nodes, key))
    && WithdrawalsOk(b, leaves, db'.withdrawals)
  }

  ghost predicate Inv(cfg: Config, ch: Chain, s: Sys)
  {
    && !s.panicked
    && Committed(cfg, ch, s.base, s.ex.db, s.synced)
    && OnL1(cfg, ch, s.base, s.ex.db, s.synced, s.l1, s.recorded)
    && Memory(s.base, s.ex.db, s.synced, s.l1, s.ex)
    && (s.phase.InBlock? ==> Building(cfg, ch, s))
  }

  // ----- Begin -----

  /** The begin-block handler finds its tree, changes no table, and learns the record of that tree if there is one. */
  lemma BegunShape(cfg: Config, s: State, h: nat, t: TreeInfo, prev: Query, cur: Query)
    requires h >= 1 && TreePrepared(s.(queue := [], stage := []), h) == (s.(queue := [], stage := [], tree := Some(t)), Done)
    ensures var (s', r) := Begun(cfg, s, h, prev, cur);
            && r != Panicked
            && s'.db == s.db && s'.init == s.init && s'.tree == Some(t) && s'.stage == [] && s'.queue == []
            && (s'.finalizing == s.finalizing || (cur.Found? && s'.finalizing == cur.l2BlockNumber))
            && (r == Done ==> !cur.Unavailable?)
            && (r == Done && cur.Found? ==> s'.finalizing == cur.l2BlockNumber)
  {}

  /** A height with a record on the base is found, initialized or saved. */
  lemma TreeIsFound(cfg: Config, ch: Chain, b: Base, db: ChildDb, top: nat, l1: seq<L1Output>, ex: State)
    requires Committed(cfg, ch, b, db, top) && Memory(b, db, top, l1, ex) && ex.db == db
    ensures TreePrepared(ex, top + 1) == (ex.(tree := Some(At(db.working, b, top))), Done)
  {
    AtOk(cfg.f, ch, b, db.working, top, top);
  }

  lemma BuiltFromStart(cfg: Config, ch: Chain, b: Base, db: ChildDb, top: nat)
    requires Committed(cfg, ch, b, db, top)
    ensures Built(cfg.f, ch, b, db, top, 0, At(db.working, b, top), db)
  {
    AtOk(cfg.f, ch, b, db.working, top, top);
    assert Partial(ch, top, 0) == Leaves(ch, top);
  }

  lemma BegunMemory(cfg: Config, b: Base, db: ChildDb, top: nat, l1: seq<L1Output>, s: State, prev: Query, curUp: bool)
    requires Memory(b, db, top, l1, s) && s.db == db && At(db.working, b, top).index >= 1
    requires TreePrepared(s.(queue := [], stage := []), top + 1) ==
             (s.(queue := [], stage := [], tree := Some(At(db.working, b, top))), Done)
    ensures Memory(b, db, top, l1, Begun(cfg, s, top + 1, prev, QueryOutput(l1, At(db.working, b, top).index, curUp)).0)
  {
    BegunShape(cfg, s, top + 1, At(db.working, b, top), prev, QueryOutput(l1, At(db.working, b, top).index, curUp));
  }

  /** The state after a begin-block handler: the tree is there, so it does not panic. */
  lemma BeginShape(cfg: Config, ch: Chain, s: Sys, prevUp: bool, curUp: bool)
    requires Enabled(ch, s, Begin(prevUp, curUp)) && Increasing(s.l1)
    requires Committed(cfg, ch, s.base, s.ex.db, s.synced) && Memory(s.base, s.ex.db, s.synced, s.l1, s.ex)
    ensures var t := At(s.ex.db.working, s.base, s.synced);
            var s' := Next(cfg, ch, s, Begin(prevUp, curUp));
            && t.index >= 1
            && s' == s.(ex := s'.ex, phase := s'.phase)
            && (s'.phase == Idle || s'.phase == InBlock(s.synced + 1, 0))
            && s'.ex.db == s.ex.db && s'.ex.tree == Some(t) && s'.ex.stage == [] && s'.ex.queue == []
            && Memory(s.base, s.ex.db, s.synced, s.l1, s'.ex)
            && (s'.phase.InBlock? && s'.ex.finalizing == 0 ==> t.index > |s.l1|)
  {
    hide Finals, Stored, WithdrawalsOk, Frontier, Begun;
    var b, db, top := s.base, s.ex.db, s.synced;
    var t := At(db.working, b, top);
    AtOk(cfg.f, ch, b, db.working, top, top);
    TreeIsFound(cfg, ch, b, db, top, s.l1, s.ex.(queue := [], stage := []));
    var prev, cur := QueryOutput(s.l1, t.index - 1, prevUp), QueryOutput(s.l1, t.index, curUp);
    BegunShape(cfg, s.ex, top + 1, t, prev, cur);
    BegunMemory(cfg, b, db, top, s.l1, s.ex, prev, curUp);
    assert cur.Found? ==> cur.l2BlockNumber >= 1;
  }

  lemma BeginKeeps(cfg: Config, ch: Chain, s: Sys, prevUp: bool, curUp: bool)
    requires Inv(cfg, ch, s) && s.phase.Idle?
    ensures Inv(cfg, ch, Next(cfg, ch, s, Begin(prevUp, curUp)))
  {
    BeginShape(cfg, ch, s, prevUp, curUp);
    BuiltFromStart(cfg, ch, s.base, s.ex.db, s.synced);
    assert ApplyAll(s.ex.db, []) == s.ex.db;
  }

  // ----- Withdrawals -----

  lemma StoredGrows(f: NodeFn, table: NodeTable, t: TreeInfo, leaves: seq<Bytes>, leaf: Bytes)
    requires |leaves| == t.leafCount && Frontier(f, t.lastSiblings, leaves) && Stored(f, table, t.index, leaves)
    ensures var (t', nodes) := Insert(f, t, leaf);
            && Stored(f, SaveNodes(table, nodes), t.index, leaves + [leaf])
            && (forall key: NodeKey :: key.treeIndex != t.index ==> Get(SaveNodes(table, nodes), key) == Get(table, key))
  {
    InsertRefines(f, t, leaves, leaf);
    var nodes := Insert(f, t, leaf).1;
    CompletingExtend(f, t.index, leaves, leaf, |leaves|, [], nodes);
    assert [] + nodes == nodes && (leaves + [leaf])[..|leaves|] == leaves;
    SaveNodesStores(f, table, t.index, leaves + [leaf], |leaves|, nodes);
  }

  lemma WithdrawalsGrow(b: Base, leaves: seq<Bytes>, withdrawals: map<nat, Bytes>, leaf: Bytes)
    requires WithdrawalsOk(b, leaves, withdrawals)
    ensures WithdrawalsOk(b, leaves + [leaf], withdrawals[|leaves| + 1 := leaf])
  {
    var withdrawals' := withdrawals[|leaves| + 1 := leaf];
    forall q: nat | b.sequence <= q <= |leaves| + 1 && q >= 1
      ensures Get(withdrawals', q) == Some((leaves + [leaf])[q - 1])
    {
      if q <= |leaves| { assert Get(withdrawals, q) == Some(leaves[q - 1]); }
    }
  }

  lemma BuiltGrows(f: NodeFn, ch: Chain, b: Base, db: ChildDb, top: nat, j: nat, t: TreeInfo, db': ChildDb)
    requires j < |ch(top + 1).withdrawals|
    requires Built(f, ch, b, db, top, j, t, db')
    ensures var leaf := ch(top + 1).withdrawals[j].hash;
            var (t', nodes) := Insert(f, t, leaf);
            Built(f, ch, b, db, top, j + 1, t',
                  db'.(withdrawals := db'.withdrawals[|Partial(ch, top, j)| + 1 := leaf], nodes := SaveNodes(db'.nodes, nodes)))
  {
    hide Frontier, Stored, WithdrawalsOk, SaveNodes, Partial, Leaves, Insert, At;
    var leaves, leaf := Partial(ch, top, j), ch(top + 1).withdrawals[j].hash;
    PartialGrows(ch, top, j, t.startLeafIndex);
    InsertRefines(f, t, From(leaves, t.startLeafIndex), leaf);
    StoredGrows(f, db'.nodes, t, From(leaves, t.startLeafIndex), leaf);
    WithdrawalsGrow(b, leaves, db'.withdrawals, leaf);
  }

  lemma ApplyWithdrawal(db: ChildDb, stage: seq<Write>, q: nat, leaf: Bytes, nodes: seq<Node>)
    ensures var d := ApplyAll(db, stage);
            ApplyAll(db, stage + [PutWithdrawal(q, leaf)] + NodeWrites(nodes)) ==
            d.(withdrawals := d.withdrawals[q := leaf], nodes := SaveNodes(d.nodes, nodes))
  {
    ApplyOne(db, stage, PutWithdrawal(q, leaf));
    ApplyConcat(db, stage + [PutWithdrawal(q, leaf)], NodeWrites(nodes));
    ApplyNodes(ApplyAll(db, stage + [PutWithdrawal(q, leaf)]), nodes);
  }

  /** The sequence check of the handler passes. */
  lemma WithdrawShape(cfg: Config, ch: Chain, s: Sys)
    requires Consecutive(ch) && Building(cfg, ch, s) && Enabled(ch, s, Withdraw)
    ensures var j, t := s.phase.next, s.ex.tree.value;
            var w := ch(s.synced + 1).withdrawals[j];
            var (t', nodes) := Insert(cfg.f, t, w.hash);
            && w.sequence == |Partial(ch, s.synced, j)| + 1
            && Next(cfg, ch, s, Withdraw) ==
               s.(ex := s.ex.(tree := Some(t'), stage := s.ex.stage + [PutWithdrawal(w.sequence, w.hash)] + NodeWrites(nodes)),
                  phase := InBlock(s.synced + 1, j + 1))
  {
    var j := s.phase.next;
    assert ch(s.synced + 1).withdrawals[j].sequence == |Leaves(ch, s.synced)| + 1 + j;
  }

  /** The same, with the staged writes that produce the new tables. */
  lemma BuiltStages(f: NodeFn, ch: Chain, b: Base, db: ChildDb, top: nat, j: nat, t: TreeInfo, stage: seq<Write>)
    requires j < |ch(top + 1).withdrawals|
    requires Built(f, ch, b, db, top, j, t, ApplyAll(db, stage))
    ensures var leaf := ch(top + 1).withdrawals[j].hash;
            var (t', nodes) := Insert(f, t, leaf);
            && t'.index == t.index
            && Built(f, ch, b, db, top, j + 1, t',
                     ApplyAll(db, stage + [PutWithdrawal(|Partial(ch, top, j)| + 1, leaf)] + NodeWrites(nodes)))
  {
    var leaf := ch(top + 1).withdrawals[j].hash;
    BuiltGrows(f, ch, b, db, top, j, t, ApplyAll(db, stage));
    ApplyWithdrawal(db, stage, |Partial(ch, top, j)| + 1, leaf, Insert(f, t, leaf).1);
  }

  lemma WithdrawBuilds(cfg: Config, ch: Chain, s: Sys)
    requires Consecutive(ch) && Building(cfg, ch, s) && Enabled(ch, s, Withdraw)
    ensures Building(cfg, ch, Next(cfg, ch, s, Withdraw))
  {
    hide Insert, ApplyAll;
    WithdrawShape(cfg, ch, s);
    BuiltStages(cfg.f, ch, s.base, s.ex.db, s.synced, s.phase.next, s.ex.tree.value, s.ex.stage);
  }

  lemma WithdrawKeeps(cfg: Config, ch: Chain, s: Sys)
    requires Consecutive(ch) && Inv(cfg, ch, s) && Enabled(ch, s, Withdraw)
    ensures Inv(cfg, ch, Next(cfg, ch, s, Withdraw))
  {
    WithdrawShape(cfg, ch, s);
    WithdrawBuilds(cfg, ch, s);
  }

  // ----- End: the tables -----

  lemma StoredFrame(f: NodeFn, table: NodeTable, table': NodeTable, k: nat, leaves: seq<Bytes>)
    requires Stored(f, table, k, leaves)
    requires forall key: NodeKey :: key.treeIndex == k ==> Get(table', key) == Get(table, key)
    ensures Stored(f, table', k, leaves)
  {
    forall h: nat, i: nat | Complete(|leaves|, h, i)
      ensures Get(table', NodeKey(k, h, i)) == Some(Subtree(f, leaves, h, i))
    {
      assert Get(table', NodeKey(k, h, i)) == Get(table, NodeKey(k, h, i));
    }
  }

  /** Nodes of the open tree do not disturb the closed ones. */
  lemma FinalsFrame(f: NodeFn, ch: Chain, b: Base, working: map<nat, TreeInfo>, top: nat, finalized: FinalizedTable,
                    nodes: NodeTable, nodes': NodeTable)
    requires History(f, ch, b, working, top) && Finals(f, ch, b, working, top, finalized, nodes)
    requires forall key: NodeKey :: key.treeIndex != At(working, b, top).index ==> Get(nodes', key) == Get(nodes, key)
    ensures Finals(f, ch, b, working, top, finalized, nodes')
  {
    forall v: nat | FinalizedAt(working, b, top, v)
      ensures FinalOk(f, ch, working[v], v, finalized, nodes')
    {
      assert FinalOk(f, ch, working[v], v, finalized, nodes);
      ClosedBefore(f, ch, b, working, top, v);
      StoredFrame(f, nodes, nodes', working[v].index, Padded(TreeLeaves(ch, working[v], v)));
    }
  }

  /** A block that closes no tree adds no finalized tree. */
  lemma FinalsOpen(f: NodeFn, ch: Chain, b: Base, working: map<nat, TreeInfo>, top: nat, finalized: FinalizedTable,
                   nodes: NodeTable, t: TreeInfo)
    requires Finals(f, ch, b, working, top, finalized, nodes) && (t.done ==> t.leafCount == 0)
    ensures Finals(f, ch, b, working[top + 1 := t], top + 1, finalized, nodes)
  {
    var working' := working[top + 1 := t];
    forall v: nat | FinalizedAt(working', b, top + 1, v)
      ensures FinalOk(f, ch, working'[v], v, finalized, nodes)
    {
      assert FinalizedAt(working, b, top, v);
    }
  }

  /** A block that closes a nonempty tree adds exactly that one. */
  lemma FinalsClose(f: NodeFn, ch: Chain, b: Base, working: map<nat, TreeInfo>, top: nat, finalized: FinalizedTable,
                    nodes: NodeTable, t: TreeInfo)
    requires History(f, ch, b, working, top) && Finals(f, ch, b, working, top, finalized, nodes)
    requires t.done && t.leafCount > 0 && t.startLeafIndex == At(working, b, top).startLeafIndex
    requires |TreeLeaves(ch, t, top + 1)| == t.leafCount
    requires Stored(f, nodes, t.index, Padded(TreeLeaves(ch, t, top + 1)))
    ensures Finals(f, ch, b, working[top + 1 := t], top + 1, finalized[t.startLeafIndex := InfoAt(f, ch, t, top + 1)], nodes)
  {
    hide Stored, TreeLeaves, Padded, StorageRoot;
    var working' := working[top + 1 := t];
    var info := InfoAt(f, ch, t, top + 1);
    var finalized' := finalized[t.startLeafIndex := info];
    forall v: nat | FinalizedAt(working', b, top + 1, v)
      ensures FinalOk(f, ch, working'[v], v, finalized', nodes)
    {
      if v <= top {
        assert FinalizedAt(working, b, top, v);
        assert FinalOk(f, ch, working[v], v, finalized, nodes);
        ClosedBefore(f, ch, b, working, top, v);
      }
    }
  }

  /** Committing a block that leaves its tree open. */
  lemma CommitOpen(cfg: Config, ch: Chain, b: Base, db: ChildDb, top: nat, t: TreeInfo, d: ChildDb)
    requires Committed(cfg, ch, b, db, top)
    requires Built(cfg.f, ch, b, db, top, |ch(top + 1).withdrawals|, t, d)
    ensures Committed(cfg, ch, b, d.(working := d.working[top + 1 := t], synced := top + 1), top + 1)
  {
    PartialWhole(ch, top);
    AtOk(cfg.f, ch, b, db.working, top, top);
    HistoryExtends(cfg.f, ch, b, db.working, top, t);
    FinalsFrame(cfg.f, ch, b, db.working, top, db.finalized, db.nodes, d.nodes);
    FinalsOpen(cfg.f, ch, b, db.working, top, db.finalized, d.nodes, t);
  }

  /** What finalizing the tree of the block writes. */
  function ClosedDb(cfg: Config, d: ChildDb, h: nat, r: Finalized): ChildDb
  {
    d.(working := d.working[h := r.tree], synced := h,
       finalized := if r.info.Some? then d.finalized[r.info.value.startLeafIndex := r.info.value] else d.finalized,
       nodes := SaveNodes(d.nodes, r.nodes))
  }

  /** The trees a closing block leaves: a closed one, with its entry and nodes stored if it has leaves. */
  lemma ClosedFinals(f: NodeFn, ch: Chain, b: Base, db: ChildDb, top: nat, t: TreeInfo, nodes: NodeTable)
    requires History(f, ch, b, db.working, top) && Finals(f, ch, b, db.working, top, db.finalized, db.nodes)
    requires t.index == At(db.working, b, top).index && t.startLeafIndex == At(db.working, b, top).startLeafIndex
    requires forall key: NodeKey :: key.treeIndex != t.index ==> Get(nodes, key) == Get(db.nodes, key)
    requires |TreeLeaves(ch, t, top + 1)| == t.leafCount && Frontier(f, t.lastSiblings, TreeLeaves(ch, t, top + 1))
    requires Stored(f, nodes, t.index, TreeLeaves(ch, t, top + 1))
    ensures var r := Finalize(f, t, TreeExtraData(top + 1, ch(top + 1).time, ch(top + 1).id));
            Finals(f, ch, b, db.working[top + 1 := r.tree], top + 1,
                   if r.info.Some? then db.finalized[r.info.value.startLeafIndex := r.info.value] else db.finalized,
                   SaveNodes(nodes, r.nodes))
  {
    var leaves, extra := TreeLeaves(ch, t, top + 1), TreeExtraData(top + 1, ch(top + 1).time, ch(top + 1).id);
    FinalizeRefines(f, t, leaves, extra);
    var r := Finalize(f, t, extra);
    NodesClosed(f, nodes, t, leaves, extra);
    FinalsFrame(f, ch, b, db.working, top, db.finalized, db.nodes, SaveNodes(nodes, r.nodes));
    if |leaves| == 0 {
      FinalsOpen(f, ch, b, db.working, top, db.finalized, SaveNodes(nodes, r.nodes), r.tree);
    } else {
      FinalsClose(f, ch, b, db.working, top, db.finalized, SaveNodes(nodes, r.nodes), r.tree);
    }
  }

  /** After a closing block the next tree is empty and trivially stored. */
  lemma NextIsEmpty(f: NodeFn, ch: Chain, b: Base, working: map<nat, TreeInfo>, nodes: NodeTable, h: nat)
    requires h in working && working[h].done && working[h].startLeafIndex + working[h].leafCount == |Leaves(ch, h)| + 1
    ensures Stored(f, nodes, At(working, b, h).index, TreeLeaves(ch, At(working, b, h), h))
  {
    EmptyStored(f, nodes, At(working, b, h).index);
    assert TreeLeaves(ch, At(working, b, h), h) == [];
  }

  /** Committing a block that closes its tree. */
  lemma CommitClosed(cfg: Config, ch: Chain, b: Base, db: ChildDb, top: nat, t: TreeInfo, d: ChildDb)
    requires Committed(cfg, ch, b, db, top)
    requires Built(cfg.f, ch, b, db, top, |ch(top + 1).withdrawals|, t, d)
    ensures var r := Finalize(cfg.f, t, TreeExtraData(top + 1, ch(top + 1).time, ch(top + 1).id));
            Committed(cfg, ch, b, ClosedDb(cfg, d, top + 1, r), top + 1)
  {
    hide Finals, Stored, WithdrawalsOk, Frontier, StorageRoot, Finalize;
    PartialWhole(ch, top);
    AtOk(cfg.f, ch, b, db.working, top, top);
    ClosedRoot(cfg, ch, b, db, top, t, d);
    var r := Finalize(cfg.f, t, TreeExtraData(top + 1, ch(top + 1).time, ch(top + 1).id));
    HistoryExtends(cfg.f, ch, b, db.working, top, r.tree);
    ClosedFinals(cfg.f, ch, b, db, top, t, d.nodes);
    NextIsEmpty(cfg.f, ch, b, db.working[top + 1 := r.tree], SaveNodes(d.nodes, r.nodes), top + 1);
  }

  /** The root of a closing block is the recursive root of the tree's leaves. */
  lemma ClosedRoot(cfg: Config, ch: Chain, b: Base, db: ChildDb, top: nat, t: TreeInfo, d: ChildDb)
    requires Built(cfg.f, ch, b, db, top, |ch(top + 1).withdrawals|, t, d)
    ensures var r := Finalize(cfg.f, t, TreeExtraData(top + 1, ch(top + 1).time, ch(top + 1).id));
            && r.root == StorageRoot(cfg.f, TreeLeaves(ch, t, top + 1))
            && r.tree == t.(done := true, lastSiblings := r.tree.lastSiblings)
  {
    PartialWhole(ch, top);
    FinalizeRefines(cfg.f, t, TreeLeaves(ch, t, top + 1), TreeExtraData(top + 1, ch(top + 1).time, ch(top + 1).id));
  }

  lemma NodesClosed(f: NodeFn, table: NodeTable, t: TreeInfo, leaves: seq<Bytes>, extra: TreeExtraData)
    requires |leaves| == t.leafCount && Frontier(f, t.lastSiblings, leaves) && Stored(f, table, t.index, leaves)
    ensures var nodes := Finalize(f, t, extra).nodes;
            && (|leaves| > 0 ==> Stored(f, SaveNodes(table, nodes), t.index, Padded(leaves)))
            && (forall key: NodeKey :: key.treeIndex != t.index ==> Get(SaveNodes(table, nodes), key) == Get(table, key))
  {
    FinalizeRefines(f, t, leaves, extra);
    if |leaves| > 0 {
      assert Padded(leaves)[..|leaves|] == leaves;
      SaveNodesStores(f, table, t.index, Padded(leaves), |leaves|, Finalize(f, t, extra).nodes);
    }
  }

  // ----- End: the handler -----

  lemma EndedOpen(cfg: Config, s: State, h: nat, latest: nat, block: Block, fault: Fault)
    requires s.tree.Some? && s.queue == [] && (s.finalizing == 0 || s.finalizing >= h) && !Closes(s, h, latest, block)
    ensures var (s', r) := Ended(cfg, s, h, latest, block, fault);
            && r == (if fault == CommitFault then Retry else Done)
            && s'.init == s.init && s'.finalizing == s.finalizing
            && var d := ApplyAll(s.db, s.stage);
               s'.db == if r == Done then d.(working := d.working[s.tree.value.version := s.tree.value], synced := h) else s.db
  {
    var stage := s.stage + [PutWorking(s.tree.value)];
    ApplyOne(s.db, s.stage, PutWorking(s.tree.value));
    ApplyOne(s.db, stage, PutSynced(h));
    assert stage + [PutSynced(h)] + [] == stage + [PutSynced(h)];
    assert ProposalWrites([]) == [];
  }

  lemma ApplyClosing(cfg: Config, db: ChildDb, stage: seq<Write>, r: Finalized, h: nat, ps: seq<Proposal>)
    requires r.tree.version == h
    ensures var writes := (if r.info.Some? then [PutFinalized(r.info.value)] else []) + NodeWrites(r.nodes) + [PutWorking(r.tree)];
            var db' := ClosedDb(cfg, ApplyAll(db, stage), h, r);
            ApplyAll(db, stage + writes + [PutSynced(h)] + ProposalWrites(ps)) == db'.(proposals := db'.proposals + ps)
  {
    var first := if r.info.Some? then [PutFinalized(r.info.value)] else [];
    var stage1, stage2 := stage + first, stage + first + NodeWrites(r.nodes);
    assert stage + (first + NodeWrites(r.nodes) + [PutWorking(r.tree)]) == stage2 + [PutWorking(r.tree)];
    if r.info.Some? { ApplyOne(db, stage, PutFinalized(r.info.value)); } else { assert stage1 == stage; }
    ApplyConcat(db, stage1, NodeWrites(r.nodes));
    ApplyNodes(ApplyAll(db, stage1), r.nodes);
    ApplyOne(db, stage2, PutWorking(r.tree));
    ApplyOne(db, stage2 + [PutWorking(r.tree)], PutSynced(h));
    var stage3 := stage2 + [PutWorking(r.tree)] + [PutSynced(h)];
    ApplyConcat(db, stage3, ProposalWrites(ps));
    ApplyProposals(ApplyAll(db, stage3), ps);
  }

  /** The proposals a closing block queues: one, unless L1 already has the output or the host does not broadcast. */
  function Queued(cfg: Config, s: State, h: nat, block: Block, r: Finalized): seq<Proposal>
  {
    if s.finalizing != h && cfg.submits then [Proposal(r.tree.index, h, cfg.rootFn(cfg.version, r.root, block.id))] else []
  }

  lemma EndedClosed(cfg: Config, s: State, h: nat, latest: nat, block: Block, fault: Fault)
    requires s.tree.Some? && s.queue == [] && (s.finalizing == 0 || s.finalizing >= h) && Closes(s, h, latest, block)
    requires s.tree.value.version == h && h >= 1
    ensures var (s', o) := Ended(cfg, s, h, latest, block, fault);
            var r := Finalize(cfg.f, s.tree.value, TreeExtraData(h, block.time, block.id));
            && o == (if fault == CommitFault || (fault == OutputFault && s.finalizing != h) then Retry else Done)
            && s'.init == s.init && s'.finalizing == 0
            && var db' := ClosedDb(cfg, ApplyAll(s.db, s.stage), h, r);
               s'.db == if o == Done then db'.(proposals := db'.proposals + Queued(cfg, s, h, block, r)) else s.db
  {
    hide Finalize, ApplyAll, ClosedDb;
    var extra := TreeExtraData(h, block.time, block.id);
    var r := Finalize(cfg.f, s.tree.value, extra);
    FinalizeFrame(cfg.f, s.tree.value, extra);
    var writes := (if r.info.Some? then [PutFinalized(r.info.value)] else []) + NodeWrites(r.nodes) + [PutWorking(r.tree)];
    var ps := Queued(cfg, s, h, block, r);
    ApplyClosing(cfg, s.db, s.stage, r, h, ps);
    assert [] + ps == ps && ProposalWrites([]) == [];
  }

  lemma FinalizeFrame(f: NodeFn, t: TreeInfo, extra: TreeExtraData)
    ensures var r := Finalize(f, t, extra); r.tree.version == t.version && r.tree.index == t.index && r.tree.done
  {
    if t.leafCount > 0 {
      InsertAllFrame(f, t.(done := true), Repeat(Sibling(t.lastSiblings, 0), Pow2(TreeHeight(t.leafCount)) - t.leafCount));
    }
  }

  // ----- End: L1 -----

  lemma ProposalKept(cfg: Config, ch: Chain, b: Base, working: map<nat, TreeInfo>, top: nat, h: nat, recorded: nat, t: TreeInfo, p: Proposal)
    requires h == top + 1 && ProposalOk(cfg, ch, b, working, top, recorded, p)
    ensures ProposalOk(cfg, ch, b, working[h := t], h, recorded, p)
  {}

  /** One more block, at height h, whose tree t is open or closed as recorded. */
  lemma OnL1Extends(cfg: Config, ch: Chain, b: Base, db: ChildDb, top: nat, h: nat, l1: seq<L1Output>, recorded: nat, t: TreeInfo,
                    ps: seq<Proposal>, db': ChildDb)
    requires OnL1(cfg, ch, b, db, top, l1, recorded)
    requires h == top + 1 && b.height <= top && t.index == At(db.working, b, top).index
    requires t.index <= |l1| ==> if t.done then BlockOf(l1, t.index) == h else BlockOf(l1, t.index) > h
    requires db'.working == db.working[h := t] && db'.proposals == db.proposals + ps
    requires forall p :: p in ps ==> ProposalOk(cfg, ch, b, db'.working, h, recorded, p)
    ensures OnL1(cfg, ch, b, db', h, l1, recorded)
  {
    var next := At(db'.working, b, h).index;
    assert next == if t.done then t.index + 1 else t.index;
    forall k: nat | b.index <= k < next && k <= |l1|
      ensures ClosedAsRecorded(b, db'.working, h, l1, k)
    {
      if k < t.index { RecordKept(b, db.working, top, h, l1, t, k); }
    }
    forall p | p in db'.proposals
      ensures ProposalOk(cfg, ch, b, db'.working, h, recorded, p)
    {
      if p in db.proposals { ProposalKept(cfg, ch, b, db.working, top, h, recorded, t, p); }
    }
  }

  // ----- End -----

  /** Tree handling never passes the recorded block, and a tree on record closes exactly there. */
  lemma ClosesAsRecorded(cfg: Config, ch: Chain, s: Sys, latest: nat)
    requires OnL1(cfg, ch, s.base, s.ex.db, s.synced, s.l1, s.recorded) && Memory(s.base, s.ex.db, s.synced, s.l1, s.ex)
    requires Building(cfg, ch, s)
    ensures var h, t := s.synced + 1, s.ex.tree.value;
            && (s.ex.finalizing == 0 || s.ex.finalizing >= h)
            && (t.index <= |s.l1| ==>
                  if Closes(s.ex, h, latest, ch(h)) then BlockOf(s.l1, t.index) == h else BlockOf(s.l1, t.index) > h)
            && (s.ex.finalizing == 0 ==> t.index > s.recorded)
  {}

  /** The tables after a block that leaves its tree open. */
  function OpenDb(s: Sys): ChildDb
    requires s.ex.tree.Some?
  {
    var d := ApplyAll(s.ex.db, s.ex.stage);
    d.(working := d.working[s.synced + 1 := s.ex.tree.value], synced := s.synced + 1)
  }

  lemma OpenDbOk(cfg: Config, ch: Chain, s: Sys, latest: nat)
    requires Inv(cfg, ch, s) && Building(cfg, ch, s) && s.phase.next == |ch(s.synced + 1).withdrawals|
    requires !Closes(s.ex, s.synced + 1, latest, ch(s.synced + 1))
    ensures Committed(cfg, ch, s.base, OpenDb(s), s.synced + 1)
    ensures OnL1(cfg, ch, s.base, OpenDb(s), s.synced + 1, s.l1, s.recorded)
    ensures s.ex.tree.value.version == s.synced + 1
    ensures At(OpenDb(s).working, s.base, s.synced + 1).index == At(s.ex.db.working, s.base, s.synced).index
  {
    hide Finals, Stored, WithdrawalsOk, Frontier, ProposalOk, MatchesL1, Honest, Closes;
    var b, db, top, h := s.base, s.ex.db, s.synced, s.synced + 1;
    AtOk(cfg.f, ch, b, db.working, top, top);
    ClosesAsRecorded(cfg, ch, s, latest);
    CommitOpen(cfg, ch, b, db, top, s.ex.tree.value, ApplyAll(db, s.ex.stage));
    OnL1Extends(cfg, ch, b, db, top, h, s.l1, s.recorded, s.ex.tree.value, [], OpenDb(s));
  }

  lemma EndOpenKeeps(cfg: Config, ch: Chain, s: Sys, latest: nat, fault: Fault)
    requires Inv(cfg, ch, s) && Enabled(ch, s, End(latest, fault))
    requires !Closes(s.ex, s.synced + 1, latest, ch(s.synced + 1))
    ensures Inv(cfg, ch, Next(cfg, ch, s, End(latest, fault)))
  {
    hide Committed, OnL1, Built, Ended, Closes, ApplyAll;
    OpenDbOk(cfg, ch, s, latest);
    ClosesAsRecorded(cfg, ch, s, latest);
    EndedOpen(cfg, s.ex, s.synced + 1, latest, ch(s.synced + 1), fault);
    assert s.synced + 1 in OpenDb(s).working;
  }

  lemma ProposalsClosed(cfg: Config, ch: Chain, s: Sys, latest: nat, h: nat, r: Finalized, working: map<nat, TreeInfo>)
    requires h == s.synced + 1 && s.base.height < h && h in working && working[h] == r.tree && r.tree.done
    requires r.root == StorageRoot(cfg.f, TreeLeaves(ch, r.tree, h))
    requires Closes(s.ex, h, latest, ch(h)) && (s.ex.finalizing == 0 ==> r.tree.index > s.recorded)
    ensures forall p :: p in Queued(cfg, s.ex, h, ch(h), r) ==> ProposalOk(cfg, ch, s.base, working, h, s.recorded, p)
  {}

  function ClosingTree(cfg: Config, ch: Chain, s: Sys): Finalized
    requires s.ex.tree.Some?
  {
    var h := s.synced + 1;
    Finalize(cfg.f, s.ex.tree.value, TreeExtraData(h, ch(h).time, ch(h).id))
  }

  /** The tables after a block that closes its tree. */
  function CloseDb(cfg: Config, ch: Chain, s: Sys): ChildDb
    requires s.ex.tree.Some?
  {
    var h := s.synced + 1;
    var db := ClosedDb(cfg, ApplyAll(s.ex.db, s.ex.stage), h, ClosingTree(cfg, ch, s));
    db.(proposals := db.proposals + Queued(cfg, s.ex, h, ch(h), ClosingTree(cfg, ch, s)))
  }

  lemma CloseDbOk(cfg: Config, ch: Chain, s: Sys, latest: nat)
    requires Inv(cfg, ch, s) && Building(cfg, ch, s) && s.phase.next == |ch(s.synced + 1).withdrawals|
    requires Closes(s.ex, s.synced + 1, latest, ch(s.synced + 1))
    ensures Committed(cfg, ch, s.base, CloseDb(cfg, ch, s), s.synced + 1)
    ensures OnL1(cfg, ch, s.base, CloseDb(cfg, ch, s), s.synced + 1, s.l1, s.recorded)
    ensures s.ex.tree.value.version == s.synced + 1
  {
    hide Finals, Stored, WithdrawalsOk, Frontier, ProposalOk, MatchesL1, Honest, Closes, Finalize, StorageRoot, Queued;
    var b, db, top, h := s.base, s.ex.db, s.synced, s.synced + 1;
    var t, d, r := s.ex.tree.value, ApplyAll(db, s.ex.stage), ClosingTree(cfg, ch, s);
    AtOk(cfg.f, ch, b, db.working, top, top);
    ClosesAsRecorded(cfg, ch, s, latest);
    CommitClosed(cfg, ch, b, db, top, t, d);
    ClosedRoot(cfg, ch, b, db, top, t, d);
    var db' := CloseDb(cfg, ch, s);
    ProposalsClosed(cfg, ch, s, latest, h, r, db'.working);
    OnL1Extends(cfg, ch, b, db, top, h, s.l1, s.recorded, r.tree, Queued(cfg, s.ex, h, ch(h), r), db');
  }

  lemma EndClosedKeeps(cfg: Config, ch: Chain, s: Sys, latest: nat, fault: Fault)
    requires Inv(cfg, ch, s) && Enabled(ch, s, End(latest, fault))
    requires Closes(s.ex, s.synced + 1, latest, ch(s.synced + 1))
    ensures Inv(cfg, ch, Next(cfg, ch, s, End(latest, fault)))
  {
    hide Committed, OnL1, Built, Ended, Closes, ApplyAll, Finalize, Queued;
    CloseDbOk(cfg, ch, s, latest);
    ClosesAsRecorded(cfg, ch, s, latest);
    EndedClosed(cfg, s.ex, s.synced + 1, latest, ch(s.synced + 1), fault);
    assert s.synced + 1 in CloseDb(cfg, ch, s).working;
  }

  // ----- The environment -----

  /** The proposal L1 accepts is the next output, at the block where its tree closed, with the honest root. */
  lemma AcceptedInOrder(cfg: Config, ch: Chain, b: Base, working: map<nat, TreeInfo>, top: nat, l1: seq<L1Output>, recorded: nat, p: Proposal)
    requires History(cfg.f, ch, b, working, top) && MatchesL1(b, working, top, l1)
    requires 1 <= b.index <= |l1| + 1 && b == Boundary(ch, l1, b.index - 1)
    requires ProposalOk(cfg, ch, b, working, top, recorded, p) && p.outputIndex == |l1| + 1
    ensures p.outputIndex < At(working, b, top).index
    ensures BlockOf(l1, |l1|) < p.l2BlockNumber
    ensures p.outputRoot == OutputRootOf(cfg, ch, BlockOf(l1, |l1|), p.l2BlockNumber)
  {
    hide StorageRoot, TreeOk;
    ClosedBefore(cfg.f, ch, b, working, top, p.l2BlockNumber);
    if b.index < p.outputIndex { assert ClosedAsRecorded(b, working, top, l1, |l1|); }
    NextTree(cfg.f, ch, b, working, top, BlockOf(l1, |l1|), p.l2BlockNumber);
  }

  lemma OnL1Accepts(cfg: Config, ch: Chain, b: Base, db: ChildDb, top: nat, l1: seq<L1Output>, recorded: nat, p: Proposal, time: int)
    requires History(cfg.f, ch, b, db.working, top) && OnL1(cfg, ch, b, db, top, l1, recorded)
    requires p in db.proposals && p.outputIndex == |l1| + 1
    ensures p.outputIndex < At(db.working, b, top).index
    ensures OnL1(cfg, ch, b, db, top, l1 + [L1Output(p.l2BlockNumber, p.outputRoot, time)], recorded)
  {
    var o := L1Output(p.l2BlockNumber, p.outputRoot, time);
    BlockOfAppend(l1, o);
    assert b == Boundary(ch, l1 + [o], b.index - 1);
    hide History, MatchesL1, ProposalOk, Honest, Boundary, OutputRootOf;
    AcceptedInOrder(cfg, ch, b, db.working, top, l1, recorded, p);
    IncreasingAppend(l1, o);
    MatchesAppend(b, db.working, top, l1, o);
    HonestAppend(cfg, ch, l1, recorded, o);
  }

  lemma MemoryAccepts(b: Base, db: ChildDb, top: nat, l1: seq<L1Output>, o: L1Output, ex: State)
    requires Memory(b, db, top, l1, ex)
    ensures Memory(b, db, top, l1 + [o], ex)
  {
    BlockOfAppend(l1, o);
  }

  lemma BuildingAccepts(cfg: Config, ch: Chain, s: Sys, o: L1Output)
    requires Building(cfg, ch, s) && |s.l1| + 1 < At(s.ex.db.working, s.base, s.synced).index
    ensures Building(cfg, ch, s.(l1 := s.l1 + [o]))
  {}

  lemma AcceptKeeps(cfg: Config, ch: Chain, s: Sys, i: nat, time: int)
    requires Inv(cfg, ch, s) && Enabled(ch, s, Accept(i, time))
    ensures Inv(cfg, ch, Next(cfg, ch, s, Accept(i, time)))
  {
    var p := s.ex.db.proposals[i];
    var o := L1Output(p.l2BlockNumber, p.outputRoot, time);
    OnL1Accepts(cfg, ch, s.base, s.ex.db, s.synced, s.l1, s.recorded, p, time);
    MemoryAccepts(s.base, s.ex.db, s.synced, s.l1, o, s.ex);
    if s.phase.InBlock? { BuildingAccepts(cfg, ch, s, o); }
  }

  // ----- Restarts and resets -----

  /** A block closes at most one tree, so tree indexes stay below block heights. */
  lemma {:induction false} IndexBelowHeight(f: NodeFn, ch: Chain, b: Base, working: map<nat, TreeInfo>, top: nat, v: nat)
    requires History(f, ch, b, working, top) && b.index <= b.height + 1 && b.height <= v <= top
    ensures At(working, b, v).index <= v + 1
    decreases v
  {
    AtOk(f, ch, b, working, top, v);
    if v > b.height { IndexBelowHeight(f, ch, b, working, top, v - 1); }
  }

  /** The boundary to restart from is the base, or the block where its output's tree closed. */
  lemma BoundaryClosed(cfg: Config, ch: Chain, b: Base, db: ChildDb, top: nat, l1: seq<L1Output>, recorded: nat, k: nat)
    requires OnL1(cfg, ch, b, db, top, l1, recorded) && k <= |l1|
    requires b.height <= BlockOf(l1, k) <= top
    ensures BlockOf(l1, k) == b.height ==> Boundary(ch, l1, k) == b
    ensures BlockOf(l1, k) > b.height ==> b.index <= k && ClosedAsRecorded(b, db.working, top, l1, k)
  {
    var n := b.index - 1;
    if k < n { BlockOrder(l1, k, n); }
    if n < k {
      BlockOrder(l1, n, k);
      var open := At(db.working, b, top).index;
      if open < k { BlockOrder(l1, open, k); }
      assert ClosedAsRecorded(b, db.working, top, l1, k);
    }
  }

  /** After a boundary the next tree is empty and starts right there. */
  lemma StartsAtBoundary(f: NodeFn, ch: Chain, b: Base, working: map<nat, TreeInfo>, top: nat, v: nat)
    requires History(f, ch, b, working, top) && (v == b.height || ClosedAt(working, b, top, v))
    ensures At(working, b, v).startLeafIndex == |Leaves(ch, v)| + 1
    ensures TreeLeaves(ch, At(working, b, v), v) == []
  {
    AtOk(f, ch, b, working, top, v);
  }

  /** The rollback keeps the trees closed up to the boundary, with their nodes. */
  lemma RolledBackFinals(cfg: Config, ch: Chain, b: Base, db: ChildDb, top: nat, bnd: Base)
    requires History(cfg.f, ch, b, db.working, top) && Finals(cfg.f, ch, b, db.working, top, db.finalized, db.nodes)
    requires b.height <= bnd.height <= top && b.index <= b.height + 1
    requires bnd.height == b.height || ClosedAt(db.working, b, top, bnd.height)
    requires bnd.sequence == |Leaves(ch, bnd.height)| + 1
    ensures var db' := RolledBack(db, bnd, false);
            Finals(cfg.f, ch, b, db'.working, bnd.height, db'.finalized, db'.nodes)
  {
    hide Stored, FinalOk;
    var db' := RolledBack(db, bnd, false);
    forall v: nat | FinalizedAt(db'.working, b, bnd.height, v)
      ensures FinalOk(cfg.f, ch, db'.working[v], v, db'.finalized, db'.nodes)
    {
      RolledBackTree(cfg, ch, b, db, top, bnd, v);
    }
  }

  lemma RolledBackTree(cfg: Config, ch: Chain, b: Base, db: ChildDb, top: nat, bnd: Base, v: nat)
    requires History(cfg.f, ch, b, db.working, top) && Finals(cfg.f, ch, b, db.working, top, db.finalized, db.nodes)
    requires b.height <= bnd.height <= top && b.index <= b.height + 1
    requires bnd.sequence == |Leaves(ch, bnd.height)| + 1
    requires v <= bnd.height && FinalizedAt(db.working, b, top, v)
    ensures var db' := RolledBack(db, bnd, false); FinalOk(cfg.f, ch, db.working[v], v, db'.finalized, db'.nodes)
  {
    hide Stored, TreeLeaves, Padded, StorageRoot;
    var t, db' := db.working[v], RolledBack(db, bnd, false);
    assert FinalOk(cfg.f, ch, t, v, db.finalized, db.nodes);
    ClosedBefore(cfg.f, ch, b, db.working, top, v);
    LeavesPrefix(ch, v, bnd.height);
    IndexBelowHeight(cfg.f, ch, b, db.working, top, v - 1);
    assert Step(cfg.f, ch, b, db.working, v - 1);
    StoredFrame(cfg.f, db.nodes, db'.nodes, t.index, Padded(TreeLeaves(ch, t, v)));
  }

  lemma RolledBackCommitted(cfg: Config, ch: Chain, b: Base, db: ChildDb, top: nat, bnd: Base)
    requires Committed(cfg, ch, b, db, top) && db.synced == 0
    requires b.height <= bnd.height <= top && b.index <= b.height + 1
    requires bnd.height == b.height || ClosedAt(db.working, b, top, bnd.height)
    requires bnd.sequence == |Leaves(ch, bnd.height)| + 1
    ensures var db' := RolledBack(db, bnd, false);
            && Committed(cfg, ch, b, db', bnd.height)
            && At(db'.working, b, bnd.height) == At(db.working, b, bnd.height)
  {
    hide Finals, Stored, Frontier;
    var db' := RolledBack(db, bnd, false);
    HistoryTruncates(cfg.f, ch, b, db.working, top, db'.working, bnd.height);
    RolledBackFinals(cfg, ch, b, db, top, bnd);
    StartsAtBoundary(cfg.f, ch, b, db.working, top, bnd.height);
    EmptyStored(cfg.f, db'.nodes, At(db'.working, b, bnd.height).index);
    LeavesPrefix(ch, bnd.height, top);
    RolledBackWithdrawals(b, Leaves(ch, top), Leaves(ch, bnd.height), db.withdrawals, db'.withdrawals);
  }

  lemma RolledBackWithdrawals(b: Base, leaves: seq<Bytes>, leaves': seq<Bytes>, ws: map<nat, Bytes>, ws': map<nat, Bytes>)
    requires WithdrawalsOk(b, leaves, ws) && leaves' <= leaves
    requires ws' == map q | q in ws && q < |leaves'| + 1 :: ws[q]
    ensures WithdrawalsOk(b, leaves', ws')
  {
    forall q: nat | b.sequence <= q <= |leaves'| && q >= 1
      ensures Get(ws', q) == Some(leaves'[q - 1])
    {
      assert Get(ws, q) == Some(leaves[q - 1]);
    }
  }

  /** After the rollback the open tree is the one after output k, and L1's next output lies ahead. */
  lemma RolledBackOnL1(cfg: Config, ch: Chain, b: Base, db: ChildDb, top: nat, l1: seq<L1Output>, recorded: nat, k: nat, db': ChildDb)
    requires History(cfg.f, ch, b, db.working, top) && OnL1(cfg, ch, b, db, top, l1, recorded)
    requires k <= |l1| && b.height <= BlockOf(l1, k) <= top
    requires db'.proposals == []
    requires forall v: nat :: v <= BlockOf(l1, k) ==> Get(db'.working, v) == Get(db.working, v)
    ensures OnL1(cfg, ch, b, db', BlockOf(l1, k), l1, recorded)
  {
    hide ProposalOk, Honest;
    var top' := BlockOf(l1, k);
    BoundaryClosed(cfg, ch, b, db, top, l1, recorded, k);
    AtOk(cfg.f, ch, b, db.working, top, b.height);
    assert Get(db'.working, top') == Get(db.working, top');
    assert At(db'.working, b, top').index == k + 1;
    if k + 1 <= |l1| { BlockOrder(l1, k, k + 1); }
    forall j: nat | b.index <= j < At(db'.working, b, top').index && j <= |l1|
      ensures ClosedAsRecorded(b, db'.working, top', l1, j)
    {
      if j < k { BlockOrder(l1, j, k); }
      BoundaryClosed(cfg, ch, b, db, top, l1, recorded, k);
      RecordedBefore(cfg, ch, b, db, top, l1, recorded, j, k);
      assert Get(db'.working, BlockOf(l1, j)) == Get(db.working, BlockOf(l1, j));
    }
  }

  lemma RecordedBefore(cfg: Config, ch: Chain, b: Base, db: ChildDb, top: nat, l1: seq<L1Output>, recorded: nat, j: nat, k: nat)
    requires OnL1(cfg, ch, b, db, top, l1, recorded) && b.index <= j <= k <= |l1| && BlockOf(l1, k) <= top
    ensures ClosedAsRecorded(b, db.working, top, l1, j)
  {
    BlockOrder(l1, b.index - 1, j);
    if j < k { BlockOrder(l1, j, k); }
    BoundaryClosed(cfg, ch, b, db, top, l1, recorded, j);
  }

  lemma StartedKeeps(cfg: Config, ch: Chain, s: Sys, db: ChildDb, k: nat)
    requires Inv(cfg, ch, s) && Reaches(ch, s, k)
    requires db == s.ex.db.(synced := 0, proposals := [])
    ensures Inv(cfg, ch, Restarted(ch, s, db, k))
  {
    var b, top, bnd := s.base, s.synced, Boundary(ch, s.l1, k);
    var db' := RolledBack(db, bnd, false);
    assert bnd.height == BlockOf(s.l1, k);
    StartChecks(cfg, ch, s, k);
    RolledBackCommitted(cfg, ch, b, db, top, bnd);
    RolledBackOnL1(cfg, ch, b, s.ex.db, top, s.l1, s.recorded, k, db');
    assert bnd.height in db'.working || bnd == b;
  }

  lemma StartChecks(cfg: Config, ch: Chain, s: Sys, k: nat)
    requires Inv(cfg, ch, s) && Reaches(ch, s, k)
    ensures var b, bnd := s.base, Boundary(ch, s.l1, k);
            && b.index <= b.height + 1
            && bnd.sequence == |Leaves(ch, bnd.height)| + 1
            && (bnd.height == b.height ==> bnd == b)
            && (bnd.height > b.height ==> ClosedAt(s.ex.db.working, b, s.synced, bnd.height))
  {
    BlockAtLeastIndex(s.l1, s.base.index - 1);
    BoundaryClosed(cfg, ch, s.base, s.ex.db, s.synced, s.l1, s.recorded, k);
  }

  lemma RestartKeeps(cfg: Config, ch: Chain, s: Sys, k: nat)
    requires Inv(cfg, ch, s) && Enabled(ch, s, Restart(k))
    ensures Inv(cfg, ch, Next(cfg, ch, s, Restart(k)))
  {
    if s.ex.db.synced == 0 {
      StartedKeeps(cfg, ch, s, s.ex.db, k);
    } else {
      AtOk(cfg.f, ch, s.base, s.ex.db.working, s.synced, s.synced);
    }
  }

  // ----- Whole runs -----

  lemma StepKeeps(cfg: Config, ch: Chain, s: Sys, a: Action)
    requires Consecutive(ch) && Inv(cfg, ch, s) && Enabled(ch, s, a)
    ensures Inv(cfg, ch, Next(cfg, ch, s, a))
  {
    match a
    case Begin(prevUp, curUp) => BeginKeeps(cfg, ch, s, prevUp, curUp);
    case Withdraw => WithdrawKeeps(cfg, ch, s);
    case End(latest, fault) =>
      if Closes(s.ex, s.synced + 1, latest, ch(s.synced + 1)) {
        EndClosedKeeps(cfg, ch, s, latest, fault);
      } else {
        EndOpenKeeps(cfg, ch, s, latest, fault);
      }
    case Abort =>
    case Restart(k) => RestartKeeps(cfg, ch, s, k);
    case Reset(k) => StartedKeeps(cfg, ch, s, s.ex.db.(synced := 0, proposals := []), k);
    case Accept(i, time) => AcceptKeeps(cfg, ch, s, i, time);
  }

  /**
   A start at an output boundary of L1 with no height and no messages stored. The other tables may hold anything from
   an earlier life, except that a working tree stored for the boundary is the one closed there.
   */
  ghost predicate Initial(cfg: Config, ch: Chain, s: Sys)
  {
    && Increasing(s.l1)
    && s.recorded == |s.l1|
    && exists k: nat, db: ChildDb ::
         && k <= |s.l1| && s.base == Boundary(ch, s.l1, k)
         && db.synced == 0 && db.proposals == []
         && (s.base.height in db.working ==> BaseOk(ch, s.base, db.working))
         && s == Sys(Initialized(db, s.base, false), s.base.height, Idle, s.l1, s.base, s.recorded, false)
  }

  lemma InitialCommitted(cfg: Config, ch: Chain, b: Base, db: ChildDb)
    requires BaseOk(ch, b, db.working) && db.synced == 0 && db.proposals == []
    requires forall q :: q in db.withdrawals ==> q < b.sequence
    ensures Committed(cfg, ch, b, db, b.height)
  {
    hide Stored;
    assert History(cfg.f, ch, b, db.working, b.height);
    StartsAtBoundary(cfg.f, ch, b, db.working, b.height, b.height);
    EmptyStored(cfg.f, db.nodes, At(db.working, b, b.height).index);
  }

  lemma InitialOnL1(cfg: Config, ch: Chain, l1: seq<L1Output>, k: nat, db: ChildDb)
    requires Increasing(l1) && k <= |l1| && db.proposals == []
    requires History(cfg.f, ch, Boundary(ch, l1, k), db.working, BlockOf(l1, k))
    ensures OnL1(cfg, ch, Boundary(ch, l1, k), db, BlockOf(l1, k), l1, |l1|)
  {
    AtOk(cfg.f, ch, Boundary(ch, l1, k), db.working, BlockOf(l1, k), BlockOf(l1, k));
    if k < |l1| { BlockOrder(l1, k, k + 1); }
  }

  lemma InitialInv(cfg: Config, ch: Chain, s: Sys)
    requires Initial(cfg, ch, s)
    ensures Inv(cfg, ch, s)
  {
    var k: nat, db: ChildDb :|
      && k <= |s.l1| && s.base == Boundary(ch, s.l1, k)
      && db.synced == 0 && db.proposals == []
      && (s.base.height in db.working ==> BaseOk(ch, s.base, db.working))
      && s == Sys(Initialized(db, s.base, false), s.base.height, Idle, s.l1, s.base, s.recorded, false);
    assert BlockOf(s.l1, k) == s.base.height;
    InitialCommitted(cfg, ch, s.base, s.ex.db);
    InitialOnL1(cfg, ch, s.l1, k, s.ex.db);
  }

  /** Every state of every run satisfies the invariant; in particular no handler panics. */
  lemma {:induction false} RunKeeps(cfg: Config, ch: Chain, states: seq<Sys>, actions: seq<Action>, i: nat)
    requires Consecutive(ch) && Run(cfg, ch, states, actions) && Initial(cfg, ch, states[0]) && i < |states|
    ensures Inv(cfg, ch, states[i])
  {
    if i == 0 {
      InitialInv(cfg, ch, states[0]);
    } else {
      RunKeeps(cfg, ch, states, actions, i - 1);
      StepKeeps(cfg, ch, states[i - 1], actions[i - 1]);
    }
  }
}