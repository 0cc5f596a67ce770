/**
 A run in which a start from genesis makes a finalized withdrawal unprovable: the executor closes two trees that L1 never
 records, its heights are reset, and the blocks are replayed into one tree. The entry of the old second tree stays.
 */
module GenesisReset {
  import opened Prelude
  import opened MerkleSpec
  import opened MerkleTree
  import opened MerkleProofs
  import opened ChildTables
  import opened L1Outputs
  import opened ExecutorChild
  import opened ExecutorRuns
  import opened WithdrawalProofs

  /** Between two blocks, with no output on L1 and the next one not waiting for an earlier output. */
  ghost predicate Ready(cfg: Config, ch: Chain, s: Sys)
  {
    && Inv(cfg, ch, s) && s.l1 == [] && s.phase.Idle? && s.ex.finalizing == 0
    && (s.ex.nextOutputTime.Some? || At(s.ex.db.working, s.base, s.synced).index == 1)
  }

  lemma BeginDone(cfg: Config, ch: Chain, s: Sys)
    requires Ready(cfg, ch, s)
    ensures Enabled(ch, s, Begin(true, true))
    ensures var s' := Next(cfg, ch, s, Begin(true, true));
            && s' == s.(ex := s.ex.(queue := [], stage := [], tree := Some(At(s.ex.db.working, s.base, s.synced))),
                        phase := InBlock(s.synced + 1, 0))
            && Inv(cfg, ch, s')
  {
    hide Finals, Stored, WithdrawalsOk, Frontier, OnL1;
    TreeIsFound(cfg, ch, s.base, s.ex.db, s.synced, s.l1, s.ex.(queue := [], stage := []));
    BeginKeeps(cfg, ch, s, true, true);
  }

  /** What a block with one withdrawal changes, depending on whether it closes its tree. */
  ghost predicate Passed(cfg: Config, ch: Chain, s: Sys, s': Sys, closes: bool)
  {
    var h, t := s.synced + 1, At(s.ex.db.working, s.base, s.synced);
    && Inv(cfg, ch, s') && s' == s.(ex := s'.ex, synced := h) && s'.ex.finalizing == 0
    && s'.ex.nextOutputTime == (if closes then Some(ch(h).time + cfg.interval * 2 / 3) else s.ex.nextOutputTime)
    && h in s'.ex.db.working && s'.ex.db.working[h].done == closes
    && (forall v: nat :: v != h ==> Get(s'.ex.db.working, v) == Get(s.ex.db.working, v))
    && (forall q :: q != t.startLeafIndex || !closes ==> Get(s'.ex.db.finalized, q) == Get(s.ex.db.finalized, q))
    && (forall key: NodeKey :: key.treeIndex != t.index ==> Get(s'.ex.db.nodes, key) == Get(s.ex.db.nodes, key))
  }

  /** The tree and the staged tables inside a block. */
  lemma BlockTree(cfg: Config, ch: Chain, s: Sys)
    requires Inv(cfg, ch, s) && s.phase.InBlock?
    ensures var t, d := At(s.ex.db.working, s.base, s.synced), ApplyAll(s.ex.db, s.ex.stage);
            && s.ex.tree.Some? && s.ex.queue == [] && s.phase.height == s.synced + 1
            && s.ex.tree.value.index == t.index && s.ex.tree.value.startLeafIndex == t.startLeafIndex
            && s.ex.tree.value.version == s.synced + 1 && !s.ex.tree.value.done
            && d == s.ex.db.(nodes := d.nodes, withdrawals := d.withdrawals)
            && (forall key: NodeKey :: key.treeIndex != t.index ==> Get(d.nodes, key) == Get(s.ex.db.nodes, key))
  {
    AtOk(cfg.f, ch, s.base, s.ex.db.working, s.synced, s.synced);
  }

  lemma EndOpenPasses(cfg: Config, ch: Chain, s: Sys, latest: nat)
    requires Inv(cfg, ch, s) && s.phase == InBlock(s.synced + 1, |ch(s.synced + 1).withdrawals|)
    requires s.ex.finalizing == 0 && Enabled(ch, s, End(latest, NoFault)) && Inv(cfg, ch, Next(cfg, ch, s, End(latest, NoFault)))
    requires !Closes(s.ex, s.synced + 1, latest, ch(s.synced + 1))
    ensures Passed(cfg, ch, s.(phase := Idle), Next(cfg, ch, s, End(latest, NoFault)), false)
  {
    hide Inv, Ended, ApplyAll, Closes;
    var h := s.synced + 1;
    BlockTree(cfg, ch, s);
    EndTimes(cfg, s.ex, h, latest, ch(h));
    EndedOpen(cfg, s.ex, h, latest, ch(h), NoFault);
  }

  lemma EndClosedPasses(cfg: Config, ch: Chain, s: Sys, latest: nat)
    requires Inv(cfg, ch, s) && s.phase == InBlock(s.synced + 1, |ch(s.synced + 1).withdrawals|)
    requires s.ex.finalizing == 0 && Enabled(ch, s, End(latest, NoFault)) && Inv(cfg, ch, Next(cfg, ch, s, End(latest, NoFault)))
    requires Closes(s.ex, s.synced + 1, latest, ch(s.synced + 1))
    ensures Passed(cfg, ch, s.(phase := Idle), Next(cfg, ch, s, End(latest, NoFault)), true)
  {
    hide Inv, Ended, ApplyAll, Closes, Finalize, Queued, ClosedDb, SaveNodes;
    var h := s.synced + 1;
    BlockTree(cfg, ch, s);
    ClosedNodes(cfg, ch, s);
    EndTimes(cfg, s.ex, h, latest, ch(h));
    EndedClosed(cfg, s.ex, h, latest, ch(h), NoFault);
    ClosedDbFrame(cfg, ApplyAll(s.ex.db, s.ex.stage), h, ClosingTree(cfg, ch, s), s.ex.tree.value.startLeafIndex);
  }

  lemma ClosedDbFrame(cfg: Config, d: ChildDb, h: nat, r: Finalized, start: nat)
    requires r.info.Some? ==> r.info.value.startLeafIndex == start
    ensures var db' := ClosedDb(cfg, d, h, r);
            && h in db'.working && db'.working == d.working[h := r.tree] && db'.nodes == SaveNodes(d.nodes, r.nodes)
            && (forall q :: q != start ==> Get(db'.finalized, q) == Get(d.finalized, q))
  {
  }

  lemma EndPasses(cfg: Config, ch: Chain, s: Sys, latest: nat)
    requires Consecutive(ch) && Inv(cfg, ch, s) && s.phase == InBlock(s.synced + 1, |ch(s.synced + 1).withdrawals|)
    requires s.ex.finalizing == 0 && s.synced + 1 <= latest
    ensures Enabled(ch, s, End(latest, NoFault))
    ensures var closes := Closes(s.ex, s.synced + 1, latest, ch(s.synced + 1));
            Passed(cfg, ch, s.(phase := Idle), Next(cfg, ch, s, End(latest, NoFault)), closes)
  {
    NotPanicked(cfg, ch, s);
    hide Inv, Next, Closes, Passed;
    StepKeeps(cfg, ch, s, End(latest, NoFault));
    if Closes(s.ex, s.synced + 1, latest, ch(s.synced + 1)) {
      EndClosedPasses(cfg, ch, s, latest);
    } else {
      EndOpenPasses(cfg, ch, s, latest);
    }
  }

  lemma NotPanicked(cfg: Config, ch: Chain, s: Sys)
    requires Inv(cfg, ch, s)
    ensures !s.panicked
  {
  }

  lemma EndTimes(cfg: Config, s: State, h: nat, latest: nat, block: Block)
    requires s.tree.Some? && s.finalizing == 0
    ensures Ended(cfg, s, h, latest, block, NoFault).1 == Done
    ensures Ended(cfg, s, h, latest, block, NoFault).0.nextOutputTime ==
            if Closes(s, h, latest, block) then Some(block.time + cfg.interval * 2 / 3) else s.nextOutputTime
  {
    hide Finalize, ApplyAll;
  }

  lemma ClosedNodes(cfg: Config, ch: Chain, s: Sys)
    requires Inv(cfg, ch, s) && s.phase == InBlock(s.synced + 1, |ch(s.synced + 1).withdrawals|)
    ensures var r, d := ClosingTree(cfg, ch, s), ApplyAll(s.ex.db, s.ex.stage);
            && r.tree.done && d == s.ex.db.(nodes := d.nodes, withdrawals := d.withdrawals)
            && (r.info.Some? ==> r.info.value.startLeafIndex == s.ex.tree.value.startLeafIndex)
            && (forall key: NodeKey :: key.treeIndex != s.ex.tree.value.index ==> Get(SaveNodes(d.nodes, r.nodes), key) == Get(s.ex.db.nodes, key))
  {
    var h := s.synced + 1;
    PartialWhole(ch, s.synced);
    NodesClosed(cfg.f, ApplyAll(s.ex.db, s.ex.stage).nodes, s.ex.tree.value, TreeLeaves(ch, s.ex.tree.value, h),
                TreeExtraData(h, ch(h).time, ch(h).id));
    FinalizeRefines(cfg.f, s.ex.tree.value, TreeLeaves(ch, s.ex.tree.value, h), TreeExtraData(h, ch(h).time, ch(h).id));
  }

  lemma Extend(cfg: Config, ch: Chain, states: seq<Sys>, actions: seq<Action>, a: Action)
    requires Run(cfg, ch, states, actions) && Enabled(ch, states[|actions|], a)
    ensures Run(cfg, ch, states + [Next(cfg, ch, states[|actions|], a)], actions + [a])
  {
    hide Enabled, Next;
    var states', actions' := states + [Next(cfg, ch, states[|actions|], a)], actions + [a];
    forall i | 0 <= i < |actions'|
      ensures Enabled(ch, states'[i], actions'[i]) && states'[i + 1] == Next(cfg, ch, states'[i], actions'[i])
    {
      if i < |actions| {
        assert states'[i] == states[i] && states'[i + 1] == states[i + 1];
      }
    }
  }

  /** One more block, with one withdrawal, passed without fault. */
  lemma BlockRun(cfg: Config, ch: Chain, states: seq<Sys>, actions: seq<Action>, latest: nat)
    returns (states': seq<Sys>, actions': seq<Action>)
    requires Consecutive(ch) && |states| == |actions| + 1 && Run(cfg, ch, states, actions) && Ready(cfg, ch, states[|actions|])
    requires var h := states[|actions|].synced + 1; h <= latest && |ch(h).withdrawals| == 1
    ensures |states'| == |actions'| + 1
    ensures Run(cfg, ch, states', actions') && states'[0] == states[0]
    ensures var s := states[|actions|];
            Passed(cfg, ch, s, states'[|actions'|], Closes(s.ex, s.synced + 1, latest, ch(s.synced + 1)))
  {
    hide Inv, Enabled, Next, Run;
    var s := states[|actions|];
    BeginDone(cfg, ch, s);
    Extend(cfg, ch, states, actions, Begin(true, true));
    var s1 := Next(cfg, ch, s, Begin(true, true));
    states', actions' := states + [s1], actions + [Begin(true, true)];
    var s2 := WithdrawDone(cfg, ch, s1);
    Extend(cfg, ch, states', actions', Withdraw);
    states', actions' := states' + [s2], actions' + [Withdraw];
    EndPasses(cfg, ch, s2, latest);
    Extend(cfg, ch, states', actions', End(latest, NoFault));
    states', actions' := states' + [Next(cfg, ch, s2, End(latest, NoFault))], actions' + [End(latest, NoFault)];
    PassedFrom(cfg, ch, s, s2, states'[|actions'|], Closes(s.ex, s.synced + 1, latest, ch(s.synced + 1)));
  }

  lemma WithdrawDone(cfg: Config, ch: Chain, s: Sys) returns (s': Sys)
    requires Consecutive(ch) && Inv(cfg, ch, s) && s.phase == InBlock(s.synced + 1, 0) && |ch(s.synced + 1).withdrawals| == 1
    ensures Enabled(ch, s, Withdraw) && s' == Next(cfg, ch, s, Withdraw) && Inv(cfg, ch, s')
    ensures s' == s.(ex := s.ex.(tree := s'.ex.tree, stage := s'.ex.stage), phase := InBlock(s.synced + 1, 1))
  {
    WithdrawShape(cfg, ch, s);
    WithdrawKeeps(cfg, ch, s);
    s' := Next(cfg, ch, s, Withdraw);
  }

  lemma PassedFrom(cfg: Config, ch: Chain, s: Sys, s2: Sys, s': Sys, closes: bool)
    requires s.phase.Idle? && s2.(phase := Idle) == s.(ex := s2.ex) && s2.ex.db == s.ex.db && s2.ex.nextOutputTime == s.ex.nextOutputTime
    requires Passed(cfg, ch, s2.(phase := Idle), s', closes)
    ensures Passed(cfg, ch, s, s', closes)
  {
    hide Inv;
  }

  /** Nothing stored, nothing on L1. */
  function Empty(): Sys
  {
    var b := Base(0, 1, 1);
    Sys(Initialized(ChildDb(0, map[], map[], map[], map[], []), b, false), 0, Idle, [], b, 0, false)
  }

  lemma EmptyReady(cfg: Config, ch: Chain)
    ensures Initial(cfg, ch, Empty()) && Ready(cfg, ch, Empty())
  {
    var b, db := Base(0, 1, 1), ChildDb(0, map[], map[], map[], map[], []);
    assert b == Boundary(ch, [], 0);
    assert Initial(cfg, ch, Empty());
    InitialInv(cfg, ch, Empty());
  }

  /** The tree of a block after the base, as the history has it. */
  lemma TreeAt(cfg: Config, ch: Chain, s: Sys, v: nat)
    requires Inv(cfg, ch, s) && s.base == Base(0, 1, 1) && 1 <= v <= s.synced
    ensures v in s.ex.db.working
    ensures var t, before := s.ex.db.working[v], At(s.ex.db.working, s.base, v - 1);
            && t.index == before.index && t.startLeafIndex == before.startLeafIndex
            && t.startLeafIndex - 1 + t.leafCount == |Leaves(ch, v)|
  {
    AtOk(cfg.f, ch, s.base, s.ex.db.working, s.synced, v);
  }

  /** The next block continues the open tree, or starts the one after a closed one. */
  lemma NextTreeAt(cfg: Config, ch: Chain, s: Sys)
    requires Inv(cfg, ch, s) && s.synced in s.ex.db.working
    ensures var t, next := s.ex.db.working[s.synced], At(s.ex.db.working, s.base, s.synced);
            if t.done then next.index == t.index + 1 && next.startLeafIndex == t.startLeafIndex + t.leafCount
            else next.index == t.index && next.startLeafIndex == t.startLeafIndex
  {
  }

  /** The entry a closed nonempty tree has. */
  lemma ClosedEntry(cfg: Config, ch: Chain, s: Sys, v: nat)
    requires Inv(cfg, ch, s) && FinalizedAt(s.ex.db.working, s.base, s.synced, v)
    ensures var t := s.ex.db.working[v];
            Get(s.ex.db.finalized, t.startLeafIndex) == Some(InfoAt(cfg.f, ch, t, v))
  {
    hide OnL1, Memory, Building, Stored, WithdrawalsOk, StorageRoot;
    assert FinalOk(cfg.f, ch, s.ex.db.working[v], v, s.ex.db.finalized, s.ex.db.nodes);
  }

  lemma ResetReady(cfg: Config, ch: Chain, s: Sys)
    requires Consecutive(ch) && Inv(cfg, ch, s) && s.l1 == [] && s.base == Base(0, 1, 1)
    ensures Enabled(ch, s, Reset(0))
    ensures var s' := Next(cfg, ch, s, Reset(0));
            && Ready(cfg, ch, s') && s'.synced == 0 && s'.base == s.base && s'.ex.nextOutputTime == None
            && At(s'.ex.db.working, s'.base, 0).index == 1 && At(s'.ex.db.working, s'.base, 0).startLeafIndex == 1
            && s'.ex.db.finalized == s.ex.db.finalized
            && (forall key: NodeKey :: key.treeIndex >= 1 ==> Get(s'.ex.db.nodes, key) == None)
  {
    NotPanicked(cfg, ch, s);
    hide Inv;
    StepKeeps(cfg, ch, s, Reset(0));
    BaseTree(cfg, ch, Next(cfg, ch, s, Reset(0)));
  }

  lemma BaseTree(cfg: Config, ch: Chain, s: Sys)
    requires Inv(cfg, ch, s) && s.base == Base(0, 1, 1)
    ensures At(s.ex.db.working, s.base, 0).index == 1 && At(s.ex.db.working, s.base, 0).startLeafIndex == 1
  {
    AtOk(cfg.f, ch, s.base, s.ex.db.working, s.synced, 0);
  }

  /** One withdrawal in each of the first two blocks, far enough apart for two outputs. */
  predicate TwoBlocks(cfg: Config, ch: Chain)
  {
    && |ch(1).withdrawals| == 1 && |ch(2).withdrawals| == 1
    && ch(2).time > ch(1).time + cfg.interval * 2 / 3
  }

  lemma LeafCounts(cfg: Config, ch: Chain)
    requires TwoBlocks(cfg, ch)
    ensures |Leaves(ch, 0)| == 0 && |Leaves(ch, 1)| == 1 && |Leaves(ch, 2)| == 2
  {
  }

  /** The first block closes a tree of its own. */
  lemma FirstBlock(cfg: Config, ch: Chain) returns (states: seq<Sys>, actions: seq<Action>)
    requires Consecutive(ch) && TwoBlocks(cfg, ch)
    ensures |states| == |actions| + 1
    ensures Run(cfg, ch, states, actions) && states[0] == Empty()
    ensures var s := states[|actions|];
            && Ready(cfg, ch, s) && s.base == Base(0, 1, 1) && s.synced == 1
            && s.ex.nextOutputTime == Some(ch(1).time + cfg.interval * 2 / 3)
            && At(s.ex.db.working, s.base, 1).index == 2 && At(s.ex.db.working, s.base, 1).startLeafIndex == 2
  {
    hide Inv, Run, Initial;
    EmptyReady(cfg, ch);
    LeafCounts(cfg, ch);
    OneState(cfg, ch);
    BaseTree(cfg, ch, Empty());
    states, actions := BlockRun(cfg, ch, [Empty()], [], 1);
    var s := states[|actions|];
    TreeAt(cfg, ch, s, 1);
    NextTreeAt(cfg, ch, s);
    BaseTree(cfg, ch, s);
  }

  /** The first life: a tree for each block. */
  lemma FirstLife(cfg: Config, ch: Chain) returns (states: seq<Sys>, actions: seq<Action>)
    requires Consecutive(ch) && TwoBlocks(cfg, ch)
    ensures |states| == |actions| + 1
    ensures Run(cfg, ch, states, actions) && states[0] == Empty()
    ensures var s := states[|actions|];
            && Inv(cfg, ch, s) && s.l1 == [] && s.base == Base(0, 1, 1)
            && 2 in s.ex.db.finalized
            && s.ex.db.finalized[2].treeIndex == 2 && s.ex.db.finalized[2].startLeafIndex == 2
            && s.ex.db.finalized[2].leafCount == 1 && s.ex.db.finalized[2].treeHeight == 1
  {
    hide Inv, Run, Empty, StorageRoot, TreeLeaves;
    LeafCounts(cfg, ch);
    states, actions := FirstBlock(cfg, ch);
    var s1 := states[|actions|];
    states, actions := BlockRun(cfg, ch, states, actions, 2);
    var s2 := states[|actions|];
    TreeAt(cfg, ch, s2, 2);
    assert Get(s2.ex.db.working, 1) == Get(s1.ex.db.working, 1);
    assert FinalizedAt(s2.ex.db.working, s2.base, s2.synced, 2);
    ClosedEntry(cfg, ch, s2, 2);
  }

  /** The second life, from genesis: one tree for both blocks. */
  lemma SecondLife(cfg: Config, ch: Chain, states: seq<Sys>, actions: seq<Action>)
    returns (states': seq<Sys>, actions': seq<Action>)
    requires Consecutive(ch) && TwoBlocks(cfg, ch) && |states| == |actions| + 1 && Run(cfg, ch, states, actions)
    requires Inv(cfg, ch, states[|actions|]) && states[|actions|].l1 == [] && states[|actions|].base == Base(0, 1, 1)
    ensures |states'| == |actions'| + 1
    ensures Run(cfg, ch, states', actions') && states'[0] == states[0]
    ensures var s := states'[|actions'|];
            && s.base == Base(0, 1, 1) && At(s.ex.db.working, s.base, s.synced).startLeafIndex == 3
            && Get(s.ex.db.finalized, 2) == Get(states[|actions|].ex.db.finalized, 2)
            && (forall key: NodeKey :: key.treeIndex == 2 ==> Get(s.ex.db.nodes, key) == None)
  {
    hide Inv, Run, Next, Enabled;
    var s := states[|actions|];
    LeafCounts(cfg, ch);
    ResetReady(cfg, ch, s);
    Extend(cfg, ch, states, actions, Reset(0));
    var s0 := Next(cfg, ch, s, Reset(0));
    states', actions' := states + [s0], actions + [Reset(0)];
    states', actions' := BlockRun(cfg, ch, states', actions', 2);
    var s1 := states'[|actions'|];
    TreeAt(cfg, ch, s1, 1);
    NextTreeAt(cfg, ch, s1);
    assert Get(s1.ex.db.working, 0) == Get(s0.ex.db.working, 0);
    states', actions' := BlockRun(cfg, ch, states', actions', 2);
    var s2 := states'[|actions'|];
    TreeAt(cfg, ch, s2, 2);
    NextTreeAt(cfg, ch, s2);
    assert Get(s2.ex.db.working, 1) == Get(s1.ex.db.working, 1);
  }

  /**
   Sequence 2 is in a finalized tree and its proof cannot be read: the entry of the old tree is found in its place. Both
   lives started on what the executor itself had stored, and L1 recorded nothing.
   */
  lemma GenesisShadows(cfg: Config, ch: Chain) returns (states: seq<Sys>, actions: seq<Action>)
    requires Consecutive(ch) && TwoBlocks(cfg, ch)
    ensures Run(cfg, ch, states, actions) && Initial(cfg, ch, states[0]) && states[0].ex.db.finalized == map[]
    ensures var s := states[|actions|];
            && s.base.sequence <= 2 < At(s.ex.db.working, s.base, s.synced).startLeafIndex
            && ProofsOf(s.ex.db.finalized, s.ex.db.nodes, 2) == Failed
  {
    EmptyReady(cfg, ch);
    states, actions := FirstLife(cfg, ch);
    ghost var stale := states[|actions|].ex.db.finalized;
    hide Inv, Run, Initial;
    states, actions := SecondLife(cfg, ch, states, actions);
    var db := states[|actions|].ex.db;
    assert Get(db.finalized, 2) == Some(stale[2]);
    MissingNode(db.nodes);
  }

  lemma MissingNode(nodes: NodeTable)
    requires forall key: NodeKey :: key.treeIndex == 2 ==> Get(nodes, key) == None
    ensures Siblings(nodes, 2, 0, 1, 0) == None
  {
  }

  lemma OneState(cfg: Config, ch: Chain)
    ensures Run(cfg, ch, [Empty()], [])
  {
  }

  function ExampleChain(height: nat): Block
  {
    Block(height, [], if 1 <= height <= 2 then [Withdrawal(height, [])] else [])
  }

  /** There is such a chain, for any node and output-root functions. */
  lemma ExampleFits(cfg: Config)
    requires cfg.interval == 0
    ensures Consecutive(ExampleChain) && TwoBlocks(cfg, ExampleChain)
  {
    assert |Leaves(ExampleChain, 0)| == 0 && |Leaves(ExampleChain, 1)| == 1;
  }
}
