/** Runs of the challenger's child over a growing list of L1 outputs, honest or not. */
module ChallengerRuns {
  import opened Prelude
  import opened MerkleSpec
  import opened MerkleTree
  import opened MerkleProofs
  import opened ChildTables
  import opened L1Outputs
  import opened ChallengerChild

  datatype Phase = Idle | InBlock(height: nat, next: nat)

  /** l1 holds the outputs the host has synced; checked are the output events of committed blocks, in order. */
  datatype Sys = Sys(
    ch: State,
    synced: nat,
    phase: Phase,
    l1: seq<L1Output>,
    base: Base,
    checked: seq<Proposal>,
    panicked: bool)

  datatype Action =
    | Begin(prevUp: bool, curUp: bool)
    | Withdraw
    | End(fault: Fault)
    | Abort
    | Restart
    | Observe(output: L1Output)

  function PreparedIndex(s: State, h: nat): nat
    requires h >= 1
  {
    var t := TreePrepared(s.(events := [], stage := []), h).0.tree;
    if t.Some? then t.value.index else 0
  }

  /** L1 only requires that output blocks increase; the roots may be anything. */
  predicate Enabled(ch: Chain, s: Sys, a: Action)
  {
    && !s.panicked
    && match a
       case Begin(_, _) => s.phase.Idle?
       case Withdraw => s.phase.InBlock? && s.phase.next < |ch(s.phase.height).withdrawals|
       case End(_) => s.phase.InBlock? && s.phase.next == |ch(s.phase.height).withdrawals|
       case Abort => true
       case Restart => true
       case Observe(o) => BlockOf(s.l1, |s.l1|) < o.l2BlockNumber
  }

  function Next(cfg: Config, ch: Chain, s: Sys, a: Action): Sys
    requires Enabled(ch, s, a)
  {
    match a
    case Begin(prevUp, curUp) =>
      var k := PreparedIndex(s.ch, s.synced + 1);
      var prev := QueryOutput(s.l1, if k == 0 then 0 else k - 1, prevUp);
      var (st, r) := Begun(s.ch, s.synced + 1, prev, QueryOutput(s.l1, k, curUp));
      s.(ch := st, phase := if r == Done then InBlock(s.synced + 1, 0) else Idle, panicked := r == Panicked)
    case Withdraw =>
      var InBlock(h, j) := s.phase;
      var (st, r) := Withdrawn(cfg, s.ch, ch(h).withdrawals[j]);
      s.(ch := st, phase := if r == Done then InBlock(h, j + 1) else Idle, panicked := r == Panicked)
    case End(fault) =>
      var h := s.phase.height;
      var (st, r) := Ended(cfg, s.ch, h, ch(h), fault);
      s.(ch := st, phase := Idle, synced := if r == Done then h else s.synced, panicked := r == Panicked,
         checked := if r == Done then s.checked + st.events else s.checked)
    case Abort => s.(phase := Idle)
    case Restart =>
      s.(ch := Initialized(s.ch.db, s.base), synced := if s.ch.db.synced != 0 then s.ch.db.synced else s.base.height, phase := Idle)
    case Observe(o) => s.(l1 := s.l1 + [o])
  }

  ghost predicate Run(cfg: Config, ch: Chain, states: seq<Sys>, actions: seq<Action>)
  {
    && |states| == |actions| + 1
    && forall i :: 0 <= i < |actions| ==> Enabled(ch, states[i], actions[i]) && states[i + 1] == Next(cfg, ch, states[i], actions[i])
  }

  // ----- The invariant -----

  /** The event is for an output on L1, at its block, with the root of the withdrawals since the output before. */
  ghost predicate EventOk(cfg: Config, ch: Chain, l1: seq<L1Output>, e: Proposal)
  {
    && 1 <= e.outputIndex <= |l1|
    && e.l2BlockNumber == BlockOf(l1, e.outputIndex)
    && e.outputRoot == OutputRootOf(cfg, ch, BlockOf(l1, e.outputIndex - 1), e.l2BlockNumber)
  }

  /** The challenger never runs past the outputs it knows. */
  ghost predicate Follows(ch: Chain, b: Base, working: map<nat, TreeInfo>, top: nat, l1: seq<L1Output>)
  {
    var k := At(working, b, top).index;
    && Increasing(l1)
    && 1 <= b.index <= |l1| + 1 && b == Boundary(ch, l1, b.index - 1)
    && MatchesL1(b, working, top, l1)
    && k <= |l1| + 1 && (k == |l1| + 1 ==> top == BlockOf(l1, |l1|))
  }

  ghost predicate Memory(b: Base, db: ChildDb, top: nat, l1: seq<L1Output>, s: State)
  {
    && (if db.synced == 0 then top == b.height else db.synced == top && b.height < top)
    && (s.finalizing != 0 ==>
          && At(db.working, b, top).index <= |l1|
          && s.finalizing == BlockOf(l1, At(db.working, b, top).index))
    && (top !in db.working ==> top == b.height && s.init == Some(b))
  }

  ghost predicate Building(cfg: Config, ch: Chain, s: Sys)
  {
    && s.phase.InBlock? && s.phase.height == s.synced + 1 && s.phase.next <= |ch(s.synced + 1).withdrawals|
    && s.ch.tree.Some?
    && s.ch.events == []
    && s.ch.finalizing != 0
    && Built(cfg.f, ch, At(s.ch.db.working, s.base, s.synced), s.synced, s.phase.next, s.ch.tree.value)
    && SameTrees(s.ch.db, ApplyAll(s.ch.db, s.ch.stage))
  }

  /** Tree t is tree start after the first j withdrawals of block top + 1. */
  ghost predicate Built(f: NodeFn, ch: Chain, start: TreeInfo, top: nat, j: nat, t: TreeInfo)
    requires j <= |ch(top + 1).withdrawals|
  {
    var leaves := Partial(ch, top, j);
    && t == start.(lastSiblings := t.lastSiblings, leafCount := t.leafCount)
    && 1 <= t.startLeafIndex && t.startLeafIndex - 1 + t.leafCount == |leaves|
    && Frontier(f, t.lastSiblings, From(leaves, t.startLeafIndex))
  }

  /** Exactly one event per closed tree, in tree order. */
  predicate Counted(b: Base, index: nat, checked: seq<Proposal>)
  {
    && index == b.index + |checked|
    && forall i :: 0 <= i < |checked| ==> checked[i].outputIndex == b.index + i
  }

  predicate SameTrees(db: ChildDb, db': ChildDb)
  {
    db'.working == db.working && db'.synced == db.synced
  }

  ghost predicate Inv(cfg: Config, ch: Chain, s: Sys)
  {
    && !s.panicked
    && History(cfg.f, ch, s.base, s.ch.db.working, s.synced)
    && Follows(ch, s.base, s.ch.db.working, s.synced, s.l1)
    && Memory(s.base, s.ch.db, s.synced, s.l1, s.ch)
    && (forall e :: e in s.checked ==> EventOk(cfg, ch, s.l1, e))
    && Counted(s.base, At(s.ch.db.working, s.base, s.synced).index, s.checked)
    && (s.phase.InBlock? ==> Building(cfg, ch, s))
  }

  // ----- Begin -----

  lemma BeginShape(cfg: Config, ch: Chain, s: Sys, prevUp: bool, curUp: bool)
    requires Inv(cfg, ch, s) && s.phase.Idle?
    ensures var t := At(s.ch.db.working, s.base, s.synced);
            var s' := Next(cfg, ch, s, Begin(prevUp, curUp));
            && s' == s.(ch := s'.ch, phase := s'.phase)
            && (s'.phase == Idle || s'.phase == InBlock(s.synced + 1, 0))
            && s'.ch.db == s.ch.db && s'.ch.init == s.ch.init && s'.ch.tree == Some(t) && s'.ch.stage == [] && s'.ch.events == []
            && (s'.ch.finalizing == s.ch.finalizing || (t.index <= |s.l1| && s'.ch.finalizing == BlockOf(s.l1, t.index)))
            && (s'.phase.InBlock? ==> t.index <= |s.l1| && s'.ch.finalizing == BlockOf(s.l1, t.index))
  {
    hide TreeOk, EventOk, MatchesL1;
    var t := At(s.ch.db.working, s.base, s.synced);
    AtOk(cfg.f, ch, s.base, s.ch.db.working, s.synced, s.synced);
    assert t.index >= 1 && t.startLeafIndex >= 1 by { TreePositive(cfg.f, ch, s.synced, t); }
    assert LoadTree(s.ch.db.working, s.ch.init, s.synced + 1) == (Some(t), Done);
  }

  lemma TreePositive(f: NodeFn, ch: Chain, v: nat, t: TreeInfo)
    requires TreeOk(f, ch, v, t)
    ensures t.index >= 1 && t.startLeafIndex >= 1
  {}

  lemma BuiltFromStart(cfg: Config, ch: Chain, b: Base, working: map<nat, TreeInfo>, top: nat)
    requires History(cfg.f, ch, b, working, top)
    ensures Built(cfg.f, ch, At(working, b, top), top, 0, At(working, b, top))
  {
    AtOk(cfg.f, ch, b, working, top, top);
    assert Partial(ch, top, 0) == Leaves(ch, top);
  }

  lemma BeginKeeps(cfg: Config, ch: Chain, s: Sys, prevUp: bool, curUp: bool)
    requires Inv(cfg, ch, s) && s.phase.Idle?
    ensures Inv(cfg, ch, Next(cfg, ch, s, Begin(prevUp, curUp)))
  {
    hide History, Built, EventOk, Follows, Memory, Counted, Begun, Boundary;
    BeginShape(cfg, ch, s, prevUp, curUp);
    var s' := Next(cfg, ch, s, Begin(prevUp, curUp));
    OutputBlocks(cfg, ch, s);
    BeginMemory(s.base, s.ch.db, s.synced, s.l1, s.ch, s'.ch);
    if s'.phase.InBlock? { BeginBuilds(cfg, ch, s'); }
  }

  /** An output is for a block after genesis. */
  lemma OutputBlocks(cfg: Config, ch: Chain, s: Sys)
    requires Inv(cfg, ch, s)
    ensures var k := At(s.ch.db.working, s.base, s.synced).index; 1 <= k && (k <= |s.l1| ==> BlockOf(s.l1, k) >= 1)
  {
    hide EventOk, MatchesL1, Memory, Building, TreeOk;
    AtOk(cfg.f, ch, s.base, s.ch.db.working, s.synced, s.synced);
    TreePositive(cfg.f, ch, s.synced, At(s.ch.db.working, s.base, s.synced));
  }

  lemma BeginMemory(b: Base, db: ChildDb, top: nat, l1: seq<L1Output>, s: State, s': State)
    requires Memory(b, db, top, l1, s) && s'.init == s.init
    requires var k := At(db.working, b, top).index;
             s'.finalizing == s.finalizing || (k <= |l1| && s'.finalizing == BlockOf(l1, k))
    ensures Memory(b, db, top, l1, s')
  {
  }

  lemma BeginBuilds(cfg: Config, ch: Chain, s: Sys)
    requires History(cfg.f, ch, s.base, s.ch.db.working, s.synced)
    requires s.phase == InBlock(s.synced + 1, 0) && s.ch.tree == Some(At(s.ch.db.working, s.base, s.synced))
    requires s.ch.stage == [] && s.ch.events == [] && s.ch.finalizing != 0
    ensures Building(cfg, ch, s)
  {
    hide Built, History;
    BuiltFromStart(cfg, ch, s.base, s.ch.db.working, s.synced);
    assert ApplyAll(s.ch.db, []) == s.ch.db;
  }

  // ----- Withdrawals -----

  lemma {:induction false} NodesKeepTrees(db: ChildDb, stage: seq<Write>, nodes: seq<Node>)
    requires SameTrees(db, ApplyAll(db, stage))
    ensures SameTrees(db, ApplyAll(db, stage + NodeWrites(nodes)))
  {
    ApplyConcat(db, stage, NodeWrites(nodes));
    ApplyNodes(ApplyAll(db, stage), nodes);
  }

  lemma BuiltGrows(f: NodeFn, ch: Chain, start: TreeInfo, top: nat, j: nat, t: TreeInfo)
    requires j < |ch(top + 1).withdrawals| && Built(f, ch, start, top, j, t)
    ensures Built(f, ch, start, top, j + 1, Insert(f, t, ch(top + 1).withdrawals[j].hash).0)
  {
    PartialGrows(ch, top, j, t.startLeafIndex);
    InsertRefines(f, t, From(Partial(ch, top, j), t.startLeafIndex), ch(top + 1).withdrawals[j].hash);
  }

  /** The sequence check of the handler passes. */
  lemma WithdrawShape(cfg: Config, ch: Chain, s: Sys)
    requires Consecutive(ch) && Building(cfg, ch, s) && Enabled(ch, s, Withdraw)
    ensures var j, t := s.phase.next, s.ch.tree.value;
            var (t', nodes) := Insert(cfg.f, t, ch(s.synced + 1).withdrawals[j].hash);
            Next(cfg, ch, s, Withdraw) ==
            s.(ch := s.ch.(tree := Some(t'), stage := s.ch.stage + NodeWrites(nodes)), phase := InBlock(s.synced + 1, j + 1))
  {
    hide Insert, ApplyAll, Frontier;
    var j := s.phase.next;
    assert ch(s.synced + 1).withdrawals[j].sequence == |Leaves(ch, s.synced)| + 1 + j;
  }

  lemma WithdrawKeeps(cfg: Config, ch: Chain, s: Sys)
    requires Consecutive(ch) && Inv(cfg, ch, s) && Enabled(ch, s, Withdraw)
    ensures Inv(cfg, ch, Next(cfg, ch, s, Withdraw))
  {
    hide EventOk, Follows, History, Insert, ApplyAll, Built, Withdrawn;
    WithdrawShape(cfg, ch, s);
    var j, t := s.phase.next, s.ch.tree.value;
    BuiltGrows(cfg.f, ch, At(s.ch.db.working, s.base, s.synced), s.synced, j, t);
    NodesKeepTrees(s.ch.db, s.ch.stage, Insert(cfg.f, t, ch(s.synced + 1).withdrawals[j].hash).1);
  }

  // ----- End -----

  lemma ApplyEnd(db: ChildDb, stage: seq<Write>, info: seq<Write>, nodes: seq<Node>, t: TreeInfo, h: nat)
    requires SameTrees(db, ApplyAll(db, stage)) && (info == [] || (|info| == 1 && info[0].PutFinalized?))
    ensures var db' := ApplyAll(db, stage + (info + NodeWrites(nodes) + [PutWorking(t)]) + [PutSynced(h)]);
            db'.working == db.working[t.version := t] && db'.synced == h
  {
    hide ApplyAll, NodeWrites;
    var stage1 := stage + info;
    assert SameTrees(db, ApplyAll(db, stage1)) by {
      if info == [] { assert stage1 == stage; } else { ApplyOne(db, stage, info[0]); assert info == [info[0]]; }
    }
    NodesKeepTrees(db, stage1, nodes);
    var stage2 := stage1 + NodeWrites(nodes);
    ApplyOne(db, stage2, PutWorking(t));
    ApplyOne(db, stage2 + [PutWorking(t)], PutSynced(h));
    assert stage + (info + NodeWrites(nodes) + [PutWorking(t)]) == stage2 + [PutWorking(t)];
  }

  /** The tree the block saves. */
  function EndTree(cfg: Config, s: State, h: nat): TreeInfo
    requires s.tree.Some?
  {
    if s.finalizing == h then Finalize(cfg.f, s.tree.value, NoExtraData).tree else s.tree.value
  }

  function EndEvents(cfg: Config, s: State, h: nat, block: Block): seq<Proposal>
    requires s.tree.Some?
  {
    if s.finalizing == h then
      var r := Finalize(cfg.f, s.tree.value, NoExtraData);
      [Proposal(r.tree.index, h, cfg.rootFn(cfg.version, r.root, block.id))]
    else []
  }

  lemma EndedShape(cfg: Config, s: State, h: nat, block: Block, fault: Fault)
    requires s.tree.Some? && s.tree.value.version == h && s.events == [] && s.finalizing >= h
    requires SameTrees(s.db, ApplyAll(s.db, s.stage)) && EndTree(cfg, s, h).version == h
    ensures var (s', r) := Ended(cfg, s, h, block, fault);
            && r == (if fault == NoFault then Done else Retry)
            && s'.init == s.init && s'.finalizing == (if s.finalizing == h then 0 else s.finalizing)
            && (r == Retry ==> s'.db == s.db)
            && (r == Done ==> s'.db.working == s.db.working[h := EndTree(cfg, s, h)] && s'.db.synced == h
                              && s'.events == EndEvents(cfg, s, h, block))
  {
    hide Finalize, ApplyAll;
    if s.finalizing == h {
      var r := Finalize(cfg.f, s.tree.value, NoExtraData);
      ApplyEnd(s.db, s.stage, if r.info.Some? then [PutFinalized(r.info.value)] else [], r.nodes, r.tree, h);
    } else {
      ApplyEnd(s.db, s.stage, [], [], s.tree.value, h);
      assert [] + NodeWrites([]) + [PutWorking(s.tree.value)] == [PutWorking(s.tree.value)];
    }
  }

  /** The saved tree extends the history, and a closed one has the honest root. */
  lemma EndTreeOk(cfg: Config, ch: Chain, b: Base, working: map<nat, TreeInfo>, top: nat, s: State)
    requires History(cfg.f, ch, b, working, top) && s.tree.Some?
    requires Built(cfg.f, ch, At(working, b, top), top, |ch(top + 1).withdrawals|, s.tree.value)
    ensures var t := EndTree(cfg, s, top + 1);
            && History(cfg.f, ch, b, working[top + 1 := t], top + 1)
            && t.version == top + 1 && s.tree.value.version == top + 1
            && t.index == At(working, b, top).index && (t.done <==> s.finalizing == top + 1)
            && (s.finalizing == top + 1 ==>
                  Finalize(cfg.f, s.tree.value, NoExtraData).root == StorageRoot(cfg.f, TreeLeaves(ch, t, top + 1)))
  {
    hide Finalize, StorageRoot, Frontier;
    PartialWhole(ch, top);
    AtOk(cfg.f, ch, b, working, top, top);
    if s.finalizing == top + 1 {
      FinalizeRefines(cfg.f, s.tree.value, TreeLeaves(ch, s.tree.value, top + 1), NoExtraData);
    }
    HistoryExtends(cfg.f, ch, b, working, top, EndTree(cfg, s, top + 1));
  }

  /** Closing exactly at the recorded block keeps the challenger level with L1. */
  lemma FollowsExtends(cfg: Config, ch: Chain, b: Base, working: map<nat, TreeInfo>, top: nat, h: nat, l1: seq<L1Output>, t: TreeInfo)
    requires Follows(ch, b, working, top, l1) && b.height <= top && h == top + 1
    requires t.index == At(working, b, top).index && t.index <= |l1|
    requires if t.done then BlockOf(l1, t.index) == h else BlockOf(l1, t.index) > h
    ensures Follows(ch, b, working[h := t], h, l1)
  {
    var working' := working[h := t];
    var next := At(working', b, h).index;
    assert next == if t.done then t.index + 1 else t.index;
    forall k: nat | b.index <= k < next && k <= |l1|
      ensures ClosedAsRecorded(b, working', h, l1, k)
    {
      if k < t.index { RecordKept(b, working, top, h, l1, t, k); }
    }
    if next <= |l1| && t.done { BlockOrder(l1, t.index, next); }
  }

  /** The event of a closing block carries the root between the last two outputs. */
  lemma EndEventOk(cfg: Config, ch: Chain, b: Base, working: map<nat, TreeInfo>, top: nat, h: nat, l1: seq<L1Output>, k: nat, root: Bytes)
    requires History(cfg.f, ch, b, working, h) && Follows(ch, b, working, h, l1) && h == top + 1
    requires ClosedAt(working, b, h, h) && working[h].index == k && b.index <= k <= |l1| && BlockOf(l1, k) == h
    requires root == StorageRoot(cfg.f, TreeLeaves(ch, working[h], h))
    ensures EventOk(cfg, ch, l1, Proposal(k, h, cfg.rootFn(cfg.version, root, ch(h).id)))
  {
    hide StorageRoot, TreeOk;
    if b.index < k { assert ClosedAsRecorded(b, working, h, l1, k - 1); }
    NextTree(cfg.f, ch, b, working, h, BlockOf(l1, k - 1), h);
  }

  lemma EndKeeps(cfg: Config, ch: Chain, s: Sys, fault: Fault)
    requires Inv(cfg, ch, s) && Enabled(ch, s, End(fault))
    ensures Inv(cfg, ch, Next(cfg, ch, s, End(fault)))
  {
    hide EventOk, Follows, History, Built, Finalize, ApplyAll, Ended, EndTree, EndEvents;
    EndStepOk(cfg, ch, s);
    EndedShape(cfg, s.ch, s.synced + 1, ch(s.synced + 1), fault);
    AboveBase(cfg.f, ch, s.base, s.ch.db.working, s.synced);
  }

  lemma AboveBase(f: NodeFn, ch: Chain, b: Base, working: map<nat, TreeInfo>, top: nat)
    requires History(f, ch, b, working, top)
    ensures b.height <= top
  {}

  lemma EndStepOk(cfg: Config, ch: Chain, s: Sys)
    requires Inv(cfg, ch, s) && Building(cfg, ch, s) && s.phase.next == |ch(s.synced + 1).withdrawals|
    ensures var h, t := s.synced + 1, EndTree(cfg, s.ch, s.synced + 1);
            var working := s.ch.db.working[h := t];
            && s.ch.finalizing >= h && t.version == h && s.ch.tree.value.version == h
            && History(cfg.f, ch, s.base, working, h) && Follows(ch, s.base, working, h, s.l1)
            && (s.ch.finalizing != h ==> At(working, s.base, h).index == At(s.ch.db.working, s.base, s.synced).index)
            && Counted(s.base, At(working, s.base, h).index, s.checked + EndEvents(cfg, s.ch, h, ch(h)))
            && (forall e :: e in EndEvents(cfg, s.ch, h, ch(h)) ==> EventOk(cfg, ch, s.l1, e))
  {
    hide EventOk, Finalize, ApplyAll, StorageRoot, Frontier, TreeOk;
    var b, top, h := s.base, s.synced, s.synced + 1;
    var t := EndTree(cfg, s.ch, h);
    EndTreeOk(cfg, ch, b, s.ch.db.working, top, s.ch);
    FollowsExtends(cfg, ch, b, s.ch.db.working, top, h, s.l1, t);
    if s.ch.finalizing == h {
      var working := s.ch.db.working[h := t];
      ClosedBefore(cfg.f, ch, b, working, h, h);
      EndEventOk(cfg, ch, b, working, top, h, s.l1, t.index, Finalize(cfg.f, s.ch.tree.value, NoExtraData).root);
    }
  }

  // ----- The environment -----

  lemma EventKept(cfg: Config, ch: Chain, l1: seq<L1Output>, o: L1Output, e: Proposal)
    requires EventOk(cfg, ch, l1, e)
    ensures EventOk(cfg, ch, l1 + [o], e)
  {
    hide OutputRootOf;
    var k := e.outputIndex;
    var prev: nat := k - 1;
    assert BlockOf(l1 + [o], k) == BlockOf(l1, k) && BlockOf(l1 + [o], prev) == BlockOf(l1, prev);
  }

  lemma FollowsObserves(ch: Chain, b: Base, working: map<nat, TreeInfo>, top: nat, l1: seq<L1Output>, o: L1Output)
    requires Follows(ch, b, working, top, l1) && BlockOf(l1, |l1|) < o.l2BlockNumber
    ensures Follows(ch, b, working, top, l1 + [o])
  {
    var l1' := l1 + [o];
    IncreasingAppend(l1, o);
    BlockOfAppend(l1, o);
    forall k: nat | b.index <= k < At(working, b, top).index && k <= |l1'|
      ensures ClosedAsRecorded(b, working, top, l1', k)
    {
      assert ClosedAsRecorded(b, working, top, l1, k);
    }
  }

  lemma ObserveKeeps(cfg: Config, ch: Chain, s: Sys, o: L1Output)
    requires Inv(cfg, ch, s) && Enabled(ch, s, Observe(o))
    ensures Inv(cfg, ch, Next(cfg, ch, s, Observe(o)))
  {
    hide EventOk, History, Built, ApplyAll;
    FollowsObserves(ch, s.base, s.ch.db.working, s.synced, s.l1, o);
    BlockOfAppend(s.l1, o);
    forall e | e in s.checked
      ensures EventOk(cfg, ch, s.l1 + [o], e)
    {
      EventKept(cfg, ch, s.l1, o, e);
    }
  }

  lemma RestartKeeps(cfg: Config, ch: Chain, s: Sys)
    requires Inv(cfg, ch, s)
    ensures Inv(cfg, ch, Next(cfg, ch, s, Restart))
  {
    hide EventOk, TreeOk;
    var b, db, top := s.base, s.ch.db, s.synced;
    if db.synced == 0 {
      var working' := Truncated(db, b, false).working;
      HistoryTruncates(cfg.f, ch, b, db.working, top, working', b.height);
      assert At(working', b, b.height) == At(db.working, b, b.height);
    } else {
      AtOk(cfg.f, ch, b, db.working, top, top);
    }
  }

  // ----- Whole runs -----

  /** A first start at an output boundary, with nothing of an earlier life but perhaps the closed tree before it. */
  ghost predicate Initial(ch: Chain, s: Sys)
  {
    && Increasing(s.l1)
    && 1 <= s.base.index <= |s.l1| + 1 && s.base == Boundary(ch, s.l1, s.base.index - 1)
    && s.ch.db.synced == 0 && BaseOk(ch, s.base, s.ch.db.working)
    && s == Sys(Initialized(s.ch.db, s.base), s.base.height, Idle, s.l1, s.base, [], false)
  }

  lemma InitialInv(cfg: Config, ch: Chain, s: Sys)
    requires Initial(ch, s)
    ensures Inv(cfg, ch, s)
  {
    hide Initialized, Boundary, TreeOk;
    InitialMemory(s);
    assert History(cfg.f, ch, s.base, s.ch.db.working, s.base.height);
    AtOk(cfg.f, ch, s.base, s.ch.db.working, s.base.height, s.base.height);
    hide History, BaseOk;
    InitialFollows(ch, s.base, s.ch.db.working, s.l1);
  }

  lemma InitialMemory(s: Sys)
    requires s.ch.db.synced == 0 && s.ch == Initialized(s.ch.db, s.base)
    ensures s.ch.finalizing == 0 && s.ch.init == Some(s.base)
  {
    hide Truncated;
  }

  /** At an output boundary the challenger is level with L1. */
  lemma InitialFollows(ch: Chain, b: Base, working: map<nat, TreeInfo>, l1: seq<L1Output>)
    requires Increasing(l1) && 1 <= b.index <= |l1| + 1 && b == Boundary(ch, l1, b.index - 1)
    requires At(working, b, b.height).index == b.index
    ensures Follows(ch, b, working, b.height, l1)
  {
    var k: nat := b.index - 1;
    assert b.height == BlockOf(l1, k);
    if k < |l1| { BlockOrder(l1, k, k + 1); }
  }

  lemma StepKeeps(cfg: Config, ch: Chain, s: Sys, a: Action)
    requires Consecutive(ch) && Inv(cfg, ch, s) && Enabled(ch, s, a)
    ensures Inv(cfg, ch, Next(cfg, ch, s, a))
  {
    match a
    case Begin(prevUp, curUp) => BeginKeeps(cfg, ch, s, prevUp, curUp);
    case Withdraw => WithdrawKeeps(cfg, ch, s);
    case End(fault) => EndKeeps(cfg, ch, s, fault);
    case Abort =>
    case Restart => RestartKeeps(cfg, ch, s);
    case Observe(o) => ObserveKeeps(cfg, ch, s, o);
  }

  /** Every state of every run satisfies the invariant; in particular no handler panics, whatever L1 records. */
  lemma {:induction false} RunKeeps(cfg: Config, ch: Chain, states: seq<Sys>, actions: seq<Action>, i: nat)
    requires Consecutive(ch) && Run(cfg, ch, states, actions) && Initial(ch, states[0]) && i < |states|
    ensures Inv(cfg, ch, states[i])
  {
    if i == 0 {
      InitialInv(cfg, ch, states[0]);
    } else {
      RunKeeps(cfg, ch, states, actions, i - 1);
      StepKeeps(cfg, ch, states[i - 1], actions[i - 1]);
    }
  }

  // ----- Waiting -----

  /** The process has begun a block since it started. */
  predicate Working(states: seq<Sys>, actions: seq<Action>, i: nat)
    requires |states| == |actions| + 1 && i <= |actions|
  {
    i > 0 && !actions[i - 1].Restart? &&
    (Working(states, actions, i - 1) || (actions[i - 1].Begin? && states[i].phase.InBlock?))
  }

  lemma BeginWaits(cfg: Config, ch: Chain, s: Sys, prevUp: bool, curUp: bool)
    requires Inv(cfg, ch, s) && Enabled(ch, s, Begin(prevUp, curUp))
    ensures var k, s' := At(s.ch.db.working, s.base, s.synced).index, Next(cfg, ch, s, Begin(prevUp, curUp));
            && (s'.phase.InBlock? <==> curUp && k <= |s.l1| && (k == 1 || prevUp || s.ch.nextOutputTime.Some?))
            && (s'.ch.nextOutputTime.Some? <==> s.ch.nextOutputTime.Some? || s'.phase.InBlock?)
  {
    hide TreeOk, EventOk, MatchesL1;
    var t := At(s.ch.db.working, s.base, s.synced);
    AtOk(cfg.f, ch, s.base, s.ch.db.working, s.synced, s.synced);
    assert t.index >= 1 && t.startLeafIndex >= 1 by { TreePositive(cfg.f, ch, s.synced, t); }
    assert LoadTree(s.ch.db.working, s.ch.init, s.synced + 1) == (Some(t), Done);
  }

  lemma StepWorking(cfg: Config, ch: Chain, s: Sys, a: Action)
    requires Inv(cfg, ch, s) && Enabled(ch, s, a)
    ensures var s' := Next(cfg, ch, s, a);
            s'.ch.nextOutputTime.Some? <==> !a.Restart? && (s.ch.nextOutputTime.Some? || (a.Begin? && s'.phase.InBlock?))
  {
    hide Inv, Truncated, Insert, Finalize, ApplyAll, Begun;
    match a {
      case Begin(prevUp, curUp) => BeginWaits(cfg, ch, s, prevUp, curUp);
      case _ =>
    }
  }

  lemma {:induction false} RunWorking(cfg: Config, ch: Chain, states: seq<Sys>, actions: seq<Action>, i: nat)
    requires Consecutive(ch) && Run(cfg, ch, states, actions) && Initial(ch, states[0]) && i <= |actions|
    ensures states[i].ch.nextOutputTime.Some? <==> Working(states, actions, i)
  {
    if i > 0 {
      hide Inv, Enabled, Next, Initial;
      RunWorking(cfg, ch, states, actions, i - 1);
      RunKeeps(cfg, ch, states, actions, i - 1);
      StepWorking(cfg, ch, states[i - 1], actions[i - 1]);
      assert states[i - 1 + 1] == Next(cfg, ch, states[i - 1], actions[i - 1]);
    }
  }

  /**
   A block is begun if and only if the output of its tree is on L1 and can be queried and, for the first block of a
   process, the output before it as well, unless the tree is the first.
   */
  lemma RunBeginsIff(cfg: Config, ch: Chain, states: seq<Sys>, actions: seq<Action>, i: nat)
    requires Consecutive(ch) && Run(cfg, ch, states, actions) && Initial(ch, states[0]) && i < |actions| && actions[i].Begin?
    ensures var s, a := states[i], actions[i];
            var k := At(s.ch.db.working, s.base, s.synced).index;
            states[i + 1].phase.InBlock? <==> a.curUp && k <= |s.l1| && (k == 1 || a.prevUp || Working(states, actions, i))
  {
    hide Inv, Enabled, Next, Initial, Working;
    RunKeeps(cfg, ch, states, actions, i);
    RunWorking(cfg, ch, states, actions, i);
    BeginWaits(cfg, ch, states[i], actions[i].prevUp, actions[i].curUp);
    assert states[i + 1] == Next(cfg, ch, states[i], actions[i]);
  }

  lemma EndChecks(cfg: Config, ch: Chain, s: Sys, fault: Fault)
    requires Inv(cfg, ch, s) && Enabled(ch, s, End(fault))
    ensures var k, h, s' := At(s.ch.db.working, s.base, s.synced).index, s.synced + 1, Next(cfg, ch, s, End(fault));
            && k <= |s.l1| && s'.synced == (if fault == NoFault then h else s.synced)
            && s.checked <= s'.checked
            && |s'.checked| == |s.checked| + if fault == NoFault && BlockOf(s.l1, k) == h then 1 else 0
  {
    hide EventOk, Follows, History, Built, Finalize, ApplyAll, Ended, EndTree;
    EndStepOk(cfg, ch, s);
    EndedShape(cfg, s.ch, s.synced + 1, ch(s.synced + 1), fault);
  }

  /** Every attempt at a block that meets no fault commits it, and checks one more output exactly at the recorded block. */
  lemma RunChecks(cfg: Config, ch: Chain, states: seq<Sys>, actions: seq<Action>, i: nat)
    requires Consecutive(ch) && Run(cfg, ch, states, actions) && Initial(ch, states[0]) && i < |actions| && actions[i].End?
    ensures var s, s', h, committed := states[i], states[i + 1], states[i].synced + 1, actions[i].fault == NoFault;
            var k := At(s.ch.db.working, s.base, s.synced).index;
            && k <= |s.l1| && s'.synced == (if committed then h else s.synced)
            && s.checked <= s'.checked
            && |s'.checked| == |s.checked| + if committed && BlockOf(s.l1, k) == h then 1 else 0
  {
    hide Inv, Enabled, Next, Initial;
    RunKeeps(cfg, ch, states, actions, i);
    EndChecks(cfg, ch, states[i], actions[i].fault);
    assert states[i + 1] == Next(cfg, ch, states[i], actions[i]);
  }
}
