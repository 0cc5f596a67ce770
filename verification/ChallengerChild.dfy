/**
 The challenger's child: it replays the same L2 blocks, but waits for the output of each tree to appear on L1, closes
 the tree at the block recorded there, and compares its own output with the recorded one.
 */
module ChallengerChild {
  import opened Prelude
  import opened MerkleSpec
  import opened MerkleTree
  import opened MerkleProofs
  import opened ChildTables

  /** Where an end-block handler fails, if it does: before or while checking its events, or at the commit. */
  datatype Fault = NoFault | CheckFault | CommitFault

  /** The output events queued in a block use the proposal record: index, block and root. */
  datatype State = State(
    db: ChildDb,
    tree: Option<TreeInfo>,
    stage: seq<Write>,
    events: seq<Proposal>,
    finalizing: nat,
    nextOutputTime: Option<int>,
    init: Option<Base>)

  // ----- What the handlers compute -----

  /** The tables a start at an output boundary keeps; a stored height means no rollback. */
  function Initialized(db: ChildDb, b: Base): State
  {
    if db.synced != 0 then State(db, None, [], [], 0, None, None)
    else State(Truncated(db, b, false), None, [], [], 0, None, Some(b))
  }

  function TreePrepared(s: State, h: nat): (State, Outcome)
    requires h >= 1
  {
    var (t, r) := LoadTree(s.db.working, s.init, h);
    (if t.Some? then s.(tree := t) else s, r)
  }

  /** Nothing happens until the output of the open tree is known. */
  function OutputPrepared(s: State, prev: Query, cur: Query): (State, Outcome)
  {
    if s.tree.None? then (s, Retry)
    else if s.nextOutputTime.None? && s.tree.value.index > 1 && !prev.Found? then (s, Retry)
    else if cur.Found? then (s.(nextOutputTime := Some(cur.l1BlockTime), finalizing := cur.l2BlockNumber), Done)
    else (s, Retry)
  }

  function Begun(s: State, h: nat, prev: Query, cur: Query): (State, Outcome)
    requires h >= 1
  {
    var (s1, r) := TreePrepared(s.(events := [], stage := []), h);
    if r != Done then (s1, r) else OutputPrepared(s1, prev, cur)
  }

  function Withdrawn(cfg: Config, s: State, w: Withdrawal): (State, Outcome)
  {
    if s.tree.None? then (s, Retry)
    else if s.tree.value.startLeafIndex + s.tree.value.leafCount != w.sequence then (s, Panicked)
    else
      var (t, nodes) := Insert(cfg.f, s.tree.value, w.hash);
      (s.(tree := Some(t), stage := s.stage + NodeWrites(nodes)), Done)
  }

  function TreeHandled(cfg: Config, s: State, h: nat): (State, Option<Bytes>, Outcome)
  {
    if s.finalizing != 0 && s.finalizing < h then (s, None, Panicked)
    else if s.tree.None? then (s, None, Retry)
    else if s.finalizing == h then
      var r := Finalize(cfg.f, s.tree.value, NoExtraData);
      var writes := (if r.info.Some? then [PutFinalized(r.info.value)] else []) + NodeWrites(r.nodes) + [PutWorking(r.tree)];
      (s.(tree := Some(r.tree), stage := s.stage + writes, finalizing := 0), Some(r.root), Done)
    else (s.(stage := s.stage + [PutWorking(s.tree.value)]), None, Done)
  }

  function Ended(cfg: Config, s: State, h: nat, block: Block, fault: Fault): (State, Outcome)
  {
    var (s1, root, r) := TreeHandled(cfg, s, h);
    if r != Done then (s1, r)
    else
      var s2 := if root.Some?
                then s1.(events := s1.events + [Proposal(s1.tree.value.index, h, cfg.rootFn(cfg.version, root.value, block.id))])
                else s1;
      var s3 := s2.(stage := s2.stage + [PutSynced(h)]);
      if fault != NoFault then (s3, Retry)
      else (s3.(db := ApplyAll(s3.db, s3.stage)), Done)
  }

  // ----- The object -----

  class Child {
    const cfg: Config
    const mk: Merkle
    var db: ChildDb
    var stage: seq<Write>
    var eventQueue: seq<Proposal>
    var finalizingBlockHeight: nat
    var nextOutputTime: Option<int>
    var initializeTreeFn: Option<Base>

    ghost predicate Valid()
    {
      mk.nodeGeneratorFn == cfg.f
    }

    ghost function View(): State
      reads this, mk
    {
      State(db, mk.workingTree, stage, eventQueue, finalizingBlockHeight, nextOutputTime, initializeTreeFn)
    }

    /** A new process on the stored tables. */
    constructor (cfg: Config, db: ChildDb, b: Base)
      ensures Valid() && this.cfg == cfg && fresh(mk)
      ensures View() == Initialized(db, b)
    {
      this.cfg := cfg;
      mk := new Merkle(cfg.f);
      this.db := db;
      stage, eventQueue := [], [];
      finalizingBlockHeight := 0;
      nextOutputTime := None;
      initializeTreeFn := None;
      new;
      if db.synced == 0 {
        if b.height != 0 {
          this.db := this.db.(finalized := map q | q in this.db.finalized && q < b.sequence :: this.db.finalized[q]);
        }
        initializeTreeFn := Some(b);
        this.db := this.db.(working := map v | v in this.db.working && v <= b.height :: this.db.working[v]);
        this.db := this.db.(nodes := map k | k in this.db.nodes && k.treeIndex <= b.height :: this.db.nodes[k]);
      }
    }

    method PrepareTree(blockHeight: nat) returns (r: Outcome)
      requires Valid() && blockHeight >= 1
      modifies this, mk
      ensures (View(), r) == TreePrepared(old(View()), blockHeight)
    {
      if blockHeight - 1 !in db.working {
        if initializeTreeFn.Some? && initializeTreeFn.value.height + 1 == blockHeight {
          var ok := mk.InitializeWorkingTree(blockHeight, initializeTreeFn.value.index, initializeTreeFn.value.sequence);
          return if ok then Done else Panicked;
        }
        return Panicked;
      }
      var ok := mk.PrepareWorkingTree(db.working[blockHeight - 1]);
      return if ok then Done else Retry;
    }

    method PrepareOutput(prev: Query, cur: Query) returns (r: Outcome)
      requires Valid()
      modifies this
      ensures (View(), r) == OutputPrepared(old(View()), prev, cur)
    {
      if mk.workingTree.None? {
        return Retry;
      }
      if nextOutputTime.None? && mk.workingTree.value.index > 1 {
        if !prev.Found? {
          return Retry;
        }
      }
      if !cur.Found? {
        return Retry;
      }
      nextOutputTime := Some(cur.l1BlockTime);
      finalizingBlockHeight := cur.l2BlockNumber;
      return Done;
    }

    method BeginBlock(blockHeight: nat, prev: Query, cur: Query) returns (r: Outcome)
      requires Valid() && blockHeight >= 1
      modifies this, mk
      ensures (View(), r) == Begun(old(View()), blockHeight, prev, cur)
    {
      eventQueue := [];
      stage := [];
      r := PrepareTree(blockHeight);
      if r != Done {
        return;
      }
      r := PrepareOutput(prev, cur);
    }

    method HandleInitiateWithdrawal(w: Withdrawal) returns (r: Outcome)
      requires Valid()
      modifies this, mk
      ensures (View(), r) == Withdrawn(cfg, old(View()), w)
    {
      if mk.workingTree.None? {
        return Retry;
      }
      if mk.workingTree.value.startLeafIndex + mk.workingTree.value.leafCount != w.sequence {
        return Panicked;
      }
      var newNodes := mk.InsertLeaf(w.hash);
      stage := stage + NodeWrites(newNodes.value);
      return Done;
    }

    method HandleTree(blockHeight: nat) returns (storageRoot: Option<Bytes>, r: Outcome)
      requires Valid()
      modifies this, mk
      ensures (View(), storageRoot, r) == TreeHandled(cfg, old(View()), blockHeight)
    {
      hide Finalize;
      storageRoot := None;
      if finalizingBlockHeight != 0 && finalizingBlockHeight < blockHeight {
        return None, Panicked;
      }
      if mk.workingTree.None? {
        return None, Retry;
      }
      ghost var stage0 := stage;
      if finalizingBlockHeight == blockHeight {
        var info, newNodes, root := mk.FinalizeWorkingTree(NoExtraData);
        storageRoot := root;
        if info.Some? {
          stage := stage + [PutFinalized(info.value)];
        }
        stage := stage + NodeWrites(newNodes);
        finalizingBlockHeight := 0;
        assert stage + [PutWorking(mk.workingTree.value)] ==
               stage0 + ((if info.Some? then [PutFinalized(info.value)] else []) + NodeWrites(newNodes) + [PutWorking(mk.workingTree.value)]);
      }
      stage := stage + [PutWorking(mk.workingTree.value)];
      return storageRoot, Done;
    }

    method EndBlock(blockHeight: nat, block: Block, fault: Fault) returns (r: Outcome)
      requires Valid()
      modifies this, mk
      ensures (View(), r) == Ended(cfg, old(View()), blockHeight, block, fault)
    {
      hide Finalize;
      var storageRoot;
      storageRoot, r := HandleTree(blockHeight);
      if r != Done {
        return;
      }
      if storageRoot.Some? {
        var outputRoot := cfg.rootFn(cfg.version, storageRoot.value, block.id);
        eventQueue := eventQueue + [Proposal(mk.workingTree.value.index, blockHeight, outputRoot)];
      }
      stage := stage + [PutSynced(blockHeight)];
      if fault != NoFault {
        return Retry;
      }
      db := ApplyAll(db, stage);
      return Done;
    }
  }
}
