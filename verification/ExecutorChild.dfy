/** The executor's child: one L2 block at a time, everything staged and committed at the end of the block. */
module ExecutorChild {
  import opened Prelude
  import opened MerkleSpec
  import opened MerkleTree
  import opened MerkleProofs
  import opened ChildTables

  /** Where an end-block handler fails, if it does. */
  datatype Fault = NoFault | OutputFault | CommitFault

  datatype State = State(
    db: ChildDb,
    tree: Option<TreeInfo>,
    stage: seq<Write>,
    queue: seq<Proposal>,
    finalizing: nat,
    nextOutputTime: Option<int>,
    init: Option<Base>)

  // ----- What the handlers compute -----

  /** The tables a start at an output boundary keeps. */
  function RolledBack(db: ChildDb, b: Base, disableDelete: bool): ChildDb
  {
    var db' := Truncated(db, b, disableDelete);
    if disableDelete then db'
    else db'.(withdrawals := map q | q in db.withdrawals && q < b.sequence :: db.withdrawals[q])
  }

  /** A process start: with a stored height nothing is rolled back, otherwise it starts at the boundary. */
  function Initialized(db: ChildDb, b: Base, disableDelete: bool): State
  {
    if db.synced != 0 then State(db, None, [], [], 0, None, None)
    else State(RolledBack(db, b, disableDelete), None, [], [], 0, None, if disableDelete then None else Some(b))
  }

  function TreePrepared(s: State, h: nat): (State, Outcome)
    requires h >= 1
  {
    var (t, r) := LoadTree(s.db.working, s.init, h);
    (if t.Some? then s.(tree := t) else s, r)
  }

  function OutputPrepared(cfg: Config, s: State, prev: Query, cur: Query): (State, Outcome)
  {
    if s.tree.None? then (s, Panicked)
    else if s.nextOutputTime.None? && s.tree.value.index > 1 && !prev.Found? then (s, Retry)
    else
      var s1 := if s.nextOutputTime.None? && s.tree.value.index > 1
                then s.(nextOutputTime := Some(prev.l1BlockTime + cfg.interval * 2 / 3)) else s;
      match cur
      case Found(b, _) => (s1.(finalizing := b), Done)
      case NotFound => (s1, Done)
      case Unavailable => (s1, Retry)
  }

  function Begun(cfg: Config, s: State, h: nat, prev: Query, cur: Query): (State, Outcome)
    requires h >= 1
  {
    var (s1, r) := TreePrepared(s.(queue := [], stage := []), h);
    if r != Done then (s1, r) else OutputPrepared(cfg, s1, prev, cur)
  }

  function Withdrawn(cfg: Config, s: State, w: Withdrawal): (State, Outcome)
  {
    var s1 := s.(stage := s.stage + [PutWithdrawal(w.sequence, w.hash)]);
    if s.tree.None? || s.tree.value.startLeafIndex + s.tree.value.leafCount != w.sequence then (s1, Panicked)
    else
      var (t, nodes) := Insert(cfg.f, s.tree.value, w.hash);
      (s1.(tree := Some(t), stage := s1.stage + NodeWrites(nodes)), Done)
  }

  /** When the open tree closes: at the block recorded on L1, or, with no record, when synced and overdue. */
  predicate Closes(s: State, h: nat, latest: nat, block: Block)
  {
    || s.finalizing == h
    || (s.finalizing == 0 && h == latest && (s.nextOutputTime.None? || block.time > s.nextOutputTime.value))
  }

  /** Tree handling at the end of a block; the root is returned when an output has to be proposed. */
  function TreeHandled(cfg: Config, s: State, h: nat, latest: nat, block: Block): (State, Option<Bytes>, Outcome)
  {
    if s.tree.None? || (s.finalizing != 0 && s.finalizing < h) then (s, None, Panicked)
    else if Closes(s, h, latest, block) then
      var r := Finalize(cfg.f, s.tree.value, TreeExtraData(h, block.time, block.id));
      var writes := (if r.info.Some? then [PutFinalized(r.info.value)] else []) + NodeWrites(r.nodes) + [PutWorking(r.tree)];
      (s.(tree := Some(r.tree), stage := s.stage + writes, finalizing := 0,
          nextOutputTime := Some(block.time + cfg.interval * 2 / 3)),
       if s.finalizing == h then None else Some(r.root), Done)
    else (s.(stage := s.stage + [PutWorking(s.tree.value)]), None, Done)
  }

  function Ended(cfg: Config, s: State, h: nat, latest: nat, block: Block, fault: Fault): (State, Outcome)
  {
    var (s1, root, r) := TreeHandled(cfg, s, h, latest, block);
    if r != Done then (s1, r)
    else if root.Some? && fault == OutputFault then (s1, Retry)
    else
      var s2 := if root.Some? && cfg.submits
                then s1.(queue := s1.queue + [Proposal(s1.tree.value.index, h, cfg.rootFn(cfg.version, root.value, block.id))])
                else s1;
      var s3 := s2.(stage := s2.stage + [PutSynced(h)] + (if cfg.submits then ProposalWrites(s2.queue) else []));
      if fault == CommitFault then (s3, Retry)
      else (s3.(db := ApplyAll(s3.db, s3.stage)), Done)
  }

  // ----- The object -----

  class Child {
    const cfg: Config
    const mk: Merkle
    var db: ChildDb
    var stage: seq<Write>
    var msgQueue: seq<Proposal>
    var finalizingBlockHeight: nat
    var nextOutputTime: Option<int>
    var initializeTreeFn: Option<Base>

    ghost predicate Valid()
    {
      mk.nodeGeneratorFn == cfg.f
    }

    ghost function View(): State
      reads this, mk
    {
      State(db, mk.workingTree, stage, msgQueue, finalizingBlockHeight, nextOutputTime, initializeTreeFn)
    }

    /** A new process on the stored tables. */
    constructor (cfg: Config, db: ChildDb, b: Base, disableDeleteFutureWithdrawals: bool)
      ensures Valid() && this.cfg == cfg && fresh(mk)
      ensures View() == Initialized(db, b, disableDeleteFutureWithdrawals)
    {
      this.cfg := cfg;
      mk := new Merkle(cfg.f);
      this.db := db;
      stage, msgQueue := [], [];
      finalizingBlockHeight := 0;
      nextOutputTime := None;
      initializeTreeFn := None;
      new;
      if db.synced == 0 {
        if !disableDeleteFutureWithdrawals {
          if b.height != 0 {
            this.db := this.db.(finalized := map q | q in this.db.finalized && q < b.sequence :: this.db.finalized[q]);
          }
          initializeTreeFn := Some(b);
        }
        this.db := this.db.(working := map v | v in this.db.working && v <= b.height :: this.db.working[v]);
        this.db := this.db.(nodes := map k | k in this.db.nodes && k.treeIndex <= b.height :: this.db.nodes[k]);
        if !disableDeleteFutureWithdrawals {
          this.db := this.db.(withdrawals := map q | q in this.db.withdrawals && q < b.sequence :: this.db.withdrawals[q]);
        }
      }
    }

    method PrepareTree(blockHeight: nat) returns (r: Outcome)
      requires Valid() && blockHeight >= 1
      modifies this, mk
      ensures (View(), r) == TreePrepared(old(View()), blockHeight)
    {
      if blockHeight - 1 !in db.working {
        if initializeTreeFn.Some? && initializeTreeFn.value.height + 1 == blockHeight {
          var ok := mk.InitializeWorkingTree(blockHeight, initializeTreeFn.value.index, initializeTreeFn.value.sequence);
          return if ok then Done else Panicked;
        }
        return Panicked;
      }
      var ok := mk.PrepareWorkingTree(db.working[blockHeight - 1]);
      return if ok then Done else Retry;
    }

    method PrepareOutput(prev: Query, cur: Query) returns (r: Outcome)
      requires Valid()
      modifies this
      ensures (View(), r) == OutputPrepared(cfg, old(View()), prev, cur)
    {
      if mk.workingTree.None? {
        return Panicked;
      }
      var workingTree := mk.workingTree.value;
      if nextOutputTime.None? && workingTree.index > 1 {
        if !prev.Found? {
          return Retry;
        }
        nextOutputTime := Some(prev.l1BlockTime + cfg.interval * 2 / 3);
      }
      match cur {
        case NotFound => return Done;
        case Unavailable => return Retry;
        case Found(l2BlockNumber, _) =>
          finalizingBlockHeight := l2BlockNumber;
          return Done;
      }
    }

    method BeginBlock(blockHeight: nat, prev: Query, cur: Query) returns (r: Outcome)
      requires Valid() && blockHeight >= 1
      modifies this, mk
      ensures (View(), r) == Begun(cfg, old(View()), blockHeight, prev, cur)
    {
      msgQueue := [];
      stage := [];
      r := PrepareTree(blockHeight);
      if r != Done {
        return;
      }
      r := PrepareOutput(prev, cur);
    }

    method HandleInitiateWithdrawal(w: Withdrawal) returns (r: Outcome)
      requires Valid()
      modifies this, mk
      ensures (View(), r) == Withdrawn(cfg, old(View()), w)
    {
      stage := stage + [PutWithdrawal(w.sequence, w.hash)];
      if mk.workingTree.None? {
        return Panicked;
      }
      var workingTree := mk.workingTree.value;
      if workingTree.startLeafIndex + workingTree.leafCount != w.sequence {
        return Panicked;
      }
      var newNodes := mk.InsertLeaf(w.hash);
      stage := stage + NodeWrites(newNodes.value);
      return Done;
    }

    method HandleTree(blockHeight: nat, latestHeight: nat, block: Block) returns (storageRoot: Option<Bytes>, r: Outcome)
      requires Valid()
      modifies this, mk
      ensures (View(), storageRoot, r) == TreeHandled(cfg, old(View()), blockHeight, latestHeight, block)
    {
      hide Finalize;
      storageRoot := None;
      if mk.workingTree.None? {
        return None, Panicked;
      }
      if finalizingBlockHeight != 0 && finalizingBlockHeight < blockHeight {
        return None, Panicked;
      }
      ghost var stage0 := stage;
      if finalizingBlockHeight == blockHeight
      || (finalizingBlockHeight == 0 && blockHeight == latestHeight
          && (nextOutputTime.None? || block.time > nextOutputTime.value))
      {
        var info, newNodes, root := mk.FinalizeWorkingTree(TreeExtraData(blockHeight, block.time, block.id));
        storageRoot := root;
        if info.Some? {
          stage := stage + [PutFinalized(info.value)];
        }
        stage := stage + NodeWrites(newNodes);
        if finalizingBlockHeight == blockHeight {
          storageRoot := None;
        }
        finalizingBlockHeight := 0;
        nextOutputTime := Some(block.time + cfg.interval * 2 / 3);
        assert stage + [PutWorking(mk.workingTree.value)] ==
               stage0 + ((if info.Some? then [PutFinalized(info.value)] else []) + NodeWrites(newNodes) + [PutWorking(mk.workingTree.value)]);
      }
      stage := stage + [PutWorking(mk.workingTree.value)];
      return storageRoot, Done;
    }

    method EndBlock(blockHeight: nat, latestHeight: nat, block: Block, fault: Fault) returns (r: Outcome)
      requires Valid()
      modifies this, mk
      ensures (View(), r) == Ended(cfg, old(View()), blockHeight, latestHeight, block, fault)
    {
      var storageRoot;
      storageRoot, r := HandleTree(blockHeight, latestHeight, block);
      if r != Done {
        return;
      }
      if storageRoot.Some? {
        if fault == OutputFault {
          return Retry;
        }
        if cfg.submits {
          var outputRoot := cfg.rootFn(cfg.version, storageRoot.value, block.id);
          msgQueue := msgQueue + [Proposal(mk.workingTree.value.index, blockHeight, outputRoot)];
        }
      }
      stage := stage + [PutSynced(blockHeight)];
      if cfg.submits {
        stage := stage + ProposalWrites(msgQueue);
      } else {
        assert stage + [] == stage;
      }
      if fault == CommitFault {
        return Retry;
      }
      db := ApplyAll(db, stage);
      return Done;
    }
  }
}
