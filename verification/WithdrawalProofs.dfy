/**
 What GetProofs answers for a withdrawal sequence in any state of any run of the executor. The finalized-tree table may
 hold entries left behind by an earlier life: a start from genesis does not delete them.
 */
module WithdrawalProofs {
  import opened Prelude
  import opened MerkleSpec
  import opened MerkleTree
  import opened MerkleProofs
  import opened ChildTables
  import opened L1Outputs
  import opened ExecutorChild
  import opened ExecutorRuns
  import opened ExecutorTheorems

  // ----- One state -----

  predicate InTree(t: TreeInfo, q: nat)
  {
    t.startLeafIndex <= q < t.startLeafIndex + t.leafCount
  }

  lemma TreesDisjoint(cfg: Config, ch: Chain, b: Base, db: ChildDb, top: nat, q: nat, v: nat, w: nat)
    requires History(cfg.f, ch, b, db.working, top)
    requires FinalizedAt(db.working, b, top, v) && InTree(db.working[v], q)
    requires FinalizedAt(db.working, b, top, w) && db.working[w].startLeafIndex <= q
    ensures w <= v && db.working[w].startLeafIndex <= db.working[v].startLeafIndex
    ensures InTree(db.working[w], q) ==> w == v
  {
    if v < w {
      ClosedOrder(cfg.f, ch, b, db.working, top, v, w);
    } else if w < v {
      ClosedOrder(cfg.f, ch, b, db.working, top, w, v);
    }
  }

  /** Some entry lies after the start of the tree that holds q, and not after q. */
  predicate Shadowed(finalized: FinalizedTable, start: nat, q: nat)
  {
    exists e :: e in finalized && start < e <= q
  }

  lemma SeekFindsIff(finalized: FinalizedTable, start: nat, q: nat)
    requires start in finalized && start <= q
    ensures SeekPrev(finalized, q) == Some(start) <==> !Shadowed(finalized, start, q)
  {
    var found := SeekPrev(finalized, q).value;
    if Shadowed(finalized, start, q) {
      var e :| e in finalized && start < e <= q;
    }
  }

  /** The answer for a sequence in the tree closed at block v. */
  ghost predicate Proves(cfg: Config, ch: Chain, b: Base, db: ChildDb, top: nat, q: nat, v: nat)
  {
    && FinalizedAt(db.working, b, top, v) && InTree(db.working[v], q) && 1 <= q <= |Leaves(ch, top)|
    && var answer := ProofsOf(db.finalized, db.nodes, q);
    && answer.Proof?
    && answer.treeIndex == db.working[v].index
    && answer.root == StorageRoot(cfg.f, TreeLeaves(ch, db.working[v], v))
    && answer.extraData == TreeExtraData(v, ch(v).time, ch(v).id)
    && |answer.proofs| == TreeHeight(db.working[v].leafCount)
    && Recompute(cfg.f, Leaves(ch, top)[q - 1], answer.proofs) == answer.root
  }

  /** The one closed tree that holds q is that of block v; it is asked if and only if no other entry comes between. */
  ghost predicate Holds(cfg: Config, ch: Chain, b: Base, db: ChildDb, top: nat, q: nat, v: nat)
  {
    && FinalizedAt(db.working, b, top, v) && InTree(db.working[v], q)
    && (forall w: nat :: FinalizedAt(db.working, b, top, w) && InTree(db.working[w], q) ==> w == v)
    && var start := db.working[v].startLeafIndex;
    && (SeekPrev(db.finalized, q) == Some(start) <==> !Shadowed(db.finalized, start, q))
    && (!Shadowed(db.finalized, start, q) ==> Proves(cfg, ch, b, db, top, q, v))
  }

  /**
   Every sequence since the base that lies before the open tree is in exactly one finalized tree. It is answered from
   that tree, with a proof that verifies, if and only if no entry left behind comes between.
   */
  lemma FinalizedSequence(cfg: Config, ch: Chain, b: Base, db: ChildDb, top: nat, q: nat) returns (v: nat)
    requires Commutative(cfg.f) && Committed(cfg, ch, b, db, top)
    requires b.sequence <= q < At(db.working, b, top).startLeafIndex
    ensures Holds(cfg, ch, b, db, top, q, v)
  {
    hide Stored, Commutative, Root, Padded, StorageRoot, Siblings, Recompute, Proves, Shadowed;
    v := ClosedCover(cfg.f, ch, b, db.working, top, q);
    var t := db.working[v];
    assert FinalizedAt(db.working, b, top, v);
    assert FinalOk(cfg.f, ch, t, v, db.finalized, db.nodes);
    SeekFindsIff(db.finalized, t.startLeafIndex, q);
    if !Shadowed(db.finalized, t.startLeafIndex, q) {
      TreeProves(cfg, ch, b, db, top, q, v);
    }
    forall w: nat | FinalizedAt(db.working, b, top, w) && InTree(db.working[w], q)
      ensures w == v
    {
      TreesDisjoint(cfg, ch, b, db, top, q, v, w);
    }
  }

  lemma TreeProves(cfg: Config, ch: Chain, b: Base, db: ChildDb, top: nat, q: nat, v: nat)
    requires Commutative(cfg.f) && History(cfg.f, ch, b, db.working, top)
    requires FinalizedAt(db.working, b, top, v) && InTree(db.working[v], q)
    requires FinalOk(cfg.f, ch, db.working[v], v, db.finalized, db.nodes)
    requires SeekPrev(db.finalized, q) == Some(db.working[v].startLeafIndex)
    ensures Proves(cfg, ch, b, db, top, q, v)
  {
    hide Stored, Commutative, Root, Padded, StorageRoot, Siblings, Recompute;
    var t := db.working[v];
    ClosedBefore(cfg.f, ch, b, db.working, top, v);
    LeavesPrefix(ch, v, top);
    assert Step(cfg.f, ch, b, db.working, v - 1);
    LeafProves(cfg.f, db.nodes, t.index, TreeLeaves(ch, t, v), q - t.startLeafIndex);
    AnswersFrom(cfg, ch, db, t, v, q);
  }

  lemma AnswersFrom(cfg: Config, ch: Chain, db: ChildDb, t: TreeInfo, v: nat, q: nat)
    requires FinalOk(cfg.f, ch, t, v, db.finalized, db.nodes) && InTree(t, q)
    requires SeekPrev(db.finalized, q) == Some(t.startLeafIndex)
    requires var proof := Siblings(db.nodes, t.index, 0, TreeHeight(t.leafCount), q - t.startLeafIndex);
             proof.Some? && |proof.value| == TreeHeight(t.leafCount)
    ensures var answer := ProofsOf(db.finalized, db.nodes, q);
            && answer.Proof? && answer.treeIndex == t.index
            && answer.root == StorageRoot(cfg.f, TreeLeaves(ch, t, v))
            && answer.extraData == TreeExtraData(v, ch(v).time, ch(v).id)
            && answer.proofs == Siblings(db.nodes, t.index, 0, TreeHeight(t.leafCount), q - t.startLeafIndex).value
  {
    hide Stored, Root, Padded, StorageRoot, Siblings, TreeLeaves;
    AnswersProof(db.finalized, db.nodes, t.startLeafIndex, q);
  }

  // ----- Entries -----

  /** The entry under q is that of a tree closed in this life at the block it names. */
  predicate EntryOk(b: Base, working: map<nat, TreeInfo>, top: nat, info: FinalizedTreeInfo, q: nat)
  {
    && info.extraData.TreeExtraData?
    && FinalizedAt(working, b, top, info.extraData.blockNumber)
    && working[info.extraData.blockNumber].startLeafIndex == q
  }

  /** Nothing was left behind: every entry is that of a tree closed in this life. */
  predicate OnlyClosed(b: Base, working: map<nat, TreeInfo>, top: nat, finalized: FinalizedTable)
  {
    forall q :: q in finalized ==> EntryOk(b, working, top, finalized[q], q)
  }

  /** The entry of the tree that output k of L1 was computed from. */
  function RecordedInfo(cfg: Config, ch: Chain, l1: seq<L1Output>, k: nat): FinalizedTreeInfo
    requires 1 <= k <= |l1|
  {
    var start, v := |Leaves(ch, BlockOf(l1, k - 1))| + 1, BlockOf(l1, k);
    var leaves := From(Leaves(ch, v), start);
    FinalizedTreeInfo(k, TreeHeight(|leaves|), StorageRoot(cfg.f, leaves), start, |leaves|, TreeExtraData(v, ch(v).time, ch(v).id))
  }

  predicate RecordedAs(cfg: Config, ch: Chain, l1: seq<L1Output>, q: nat, info: FinalizedTreeInfo, k: nat)
  {
    1 <= k <= |l1| && info == RecordedInfo(cfg, ch, l1, k) && q == info.startLeafIndex && info.leafCount > 0
  }

  /** L1 has the output of the tree the entry is for. */
  predicate IsRecorded(cfg: Config, ch: Chain, b: Base, l1: seq<L1Output>, q: nat, info: FinalizedTreeInfo)
  {
    exists k :: b.index <= k <= |l1| && RecordedAs(cfg, ch, l1, q, info, k)
  }

  /** Every entry since the base is that of a tree closed in this life, or L1 has its output. */
  predicate Accounted(cfg: Config, ch: Chain, b: Base, working: map<nat, TreeInfo>, top: nat, l1: seq<L1Output>, finalized: FinalizedTable)
  {
    forall q :: q in finalized && b.sequence <= q ==>
      EntryOk(b, working, top, finalized[q], q) || IsRecorded(cfg, ch, b, l1, q, finalized[q])
  }

  predicate AllRecorded(cfg: Config, ch: Chain, b: Base, l1: seq<L1Output>, finalized: FinalizedTable)
  {
    forall q :: q in finalized && b.sequence <= q ==> IsRecorded(cfg, ch, b, l1, q, finalized[q])
  }

  /** Where output k's tree starts: right after the block of output k - 1. */
  lemma RecordedStart(cfg: Config, ch: Chain, b: Base, db: ChildDb, top: nat, l1: seq<L1Output>, recorded: nat, k: nat)
    requires History(cfg.f, ch, b, db.working, top) && OnL1(cfg, ch, b, db, top, l1, recorded)
    requires b.index <= k <= |l1| && BlockOf(l1, k) <= top
    ensures ClosedAt(db.working, b, top, BlockOf(l1, k)) && db.working[BlockOf(l1, k)].index == k
    ensures db.working[BlockOf(l1, k)].startLeafIndex == |Leaves(ch, BlockOf(l1, k - 1))| + 1
    ensures InfoAt(cfg.f, ch, db.working[BlockOf(l1, k)], BlockOf(l1, k)) == RecordedInfo(cfg, ch, l1, k)
  {
    hide History, ProposalOk, Honest, MatchesL1, StorageRoot, TreeHeight;
    RecordedCloses(cfg, ch, b, db, top, l1, recorded, k);
    var prev, v := BlockOf(l1, k - 1), BlockOf(l1, k);
    BlockOrder(l1, k - 1, k);
    if b.index < k {
      RecordedCloses(cfg, ch, b, db, top, l1, recorded, k - 1);
    }
    NextTree(cfg.f, ch, b, db.working, top, prev, v);
    ClosedBefore(cfg.f, ch, b, db.working, top, v);
    SameInfo(cfg, ch, l1, k, db.working[v]);
  }

  lemma SameInfo(cfg: Config, ch: Chain, l1: seq<L1Output>, k: nat, t: TreeInfo)
    requires 1 <= k <= |l1| && t.index == k && t.startLeafIndex == |Leaves(ch, BlockOf(l1, k - 1))| + 1
    requires t.startLeafIndex + t.leafCount == |Leaves(ch, BlockOf(l1, k))| + 1
    ensures InfoAt(cfg.f, ch, t, BlockOf(l1, k)) == RecordedInfo(cfg, ch, l1, k)
  {
    hide StorageRoot, TreeHeight;
  }

  /** A tree on L1 whose block is passed has its entry, identical to what it was in any earlier life. */
  lemma RecordedRecreated(cfg: Config, ch: Chain, b: Base, db: ChildDb, top: nat, l1: seq<L1Output>, recorded: nat, k: nat)
    requires Committed(cfg, ch, b, db, top) && OnL1(cfg, ch, b, db, top, l1, recorded)
    requires b.index <= k <= |l1| && BlockOf(l1, k) <= top && RecordedInfo(cfg, ch, l1, k).leafCount > 0
    ensures var info := RecordedInfo(cfg, ch, l1, k);
            Get(db.finalized, info.startLeafIndex) == Some(info) && EntryOk(b, db.working, top, info, info.startLeafIndex)
  {
    hide OnL1, History, StorageRoot, Stored, WithdrawalsOk;
    RecordedStart(cfg, ch, b, db, top, l1, recorded, k);
    var v := BlockOf(l1, k);
    assert FinalizedAt(db.working, b, top, v);
    assert FinalOk(cfg.f, ch, db.working[v], v, db.finalized, db.nodes);
  }

  /** A tree recorded on L1 never comes between the start of another tree and a sequence in it. */
  lemma RecordedNotBetween(cfg: Config, ch: Chain, b: Base, db: ChildDb, top: nat, l1: seq<L1Output>, recorded: nat,
                           q: nat, v: nat, e: nat, k: nat)
    requires Committed(cfg, ch, b, db, top) && OnL1(cfg, ch, b, db, top, l1, recorded)
    requires FinalizedAt(db.working, b, top, v) && InTree(db.working[v], q) && b.index <= k
    requires e in db.finalized && RecordedAs(cfg, ch, l1, e, db.finalized[e], k)
    ensures !(db.working[v].startLeafIndex < e <= q)
  {
    hide ProposalOk, Honest, StorageRoot, Stored, WithdrawalsOk;
    ClosedBefore(cfg.f, ch, b, db.working, top, v);
    var prev := BlockOf(l1, k - 1);
    BlockOrder(l1, k - 1, k);
    if BlockOf(l1, k) <= top {
      RecordedRecreated(cfg, ch, b, db, top, l1, recorded, k);
      if db.working[v].startLeafIndex < e <= q {
        TreesDisjoint(cfg, ch, b, db, top, q, v, BlockOf(l1, k));
      }
    } else if top <= prev {
      LeavesPrefix(ch, top, prev);
      AtOk(cfg.f, ch, b, db.working, top, top);
    } else {
      OpenIsNext(cfg, ch, b, db, top, l1, recorded, k);
    }
  }

  /** Between the blocks of outputs k - 1 and k the open tree is that of output k. */
  lemma OpenIsNext(cfg: Config, ch: Chain, b: Base, db: ChildDb, top: nat, l1: seq<L1Output>, recorded: nat, k: nat)
    requires History(cfg.f, ch, b, db.working, top) && OnL1(cfg, ch, b, db, top, l1, recorded)
    requires b.index <= k <= |l1| && BlockOf(l1, k - 1) <= top < BlockOf(l1, k)
    ensures At(db.working, b, top).startLeafIndex == |Leaves(ch, BlockOf(l1, k - 1))| + 1
  {
    hide ProposalOk, Honest;
    var prev, n := BlockOf(l1, k - 1), b.index - 1;
    if n < k - 1 { BlockOrder(l1, n, k - 1); }
    if b.index < k {
      RecordedCloses(cfg, ch, b, db, top, l1, recorded, k - 1);
    }
    AtOk(cfg.f, ch, b, db.working, top, prev);
    StartsAtBoundary(cfg.f, ch, b, db.working, top, prev);
    AtMonotone(cfg.f, ch, b, db.working, top, prev, top);
    assert At(db.working, b, prev).index == k;
    assert At(db.working, b, top).index <= k || ClosedAsRecorded(b, db.working, top, l1, k);
  }

  /** If every entry is accounted for, no sequence is shadowed. */
  lemma AccountedUnshadowed(cfg: Config, ch: Chain, b: Base, db: ChildDb, top: nat, l1: seq<L1Output>, recorded: nat, q: nat, v: nat)
    requires Committed(cfg, ch, b, db, top) && OnL1(cfg, ch, b, db, top, l1, recorded)
    requires Accounted(cfg, ch, b, db.working, top, l1, db.finalized)
    requires FinalizedAt(db.working, b, top, v) && InTree(db.working[v], q)
    ensures !Shadowed(db.finalized, db.working[v].startLeafIndex, q)
  {
    hide OnL1, Stored, WithdrawalsOk, RecordedAs, Finals;
    ClosedBefore(cfg.f, ch, b, db.working, top, v);
    forall e | e in db.finalized && db.working[v].startLeafIndex < e
      ensures q < e
    {
      if EntryOk(b, db.working, top, db.finalized[e], e) {
        var w := db.finalized[e].extraData.blockNumber;
        if e <= q { TreesDisjoint(cfg, ch, b, db, top, q, v, w); }
      } else {
        var k :| b.index <= k <= |l1| && RecordedAs(cfg, ch, l1, e, db.finalized[e], k);
        RecordedNotBetween(cfg, ch, b, db, top, l1, recorded, q, v, e, k);
      }
    }
  }

  /** A sequence is answered as not finalized if and only if the table is empty or the last entry before it has ended. */
  lemma UnfinalizedIff(finalized: FinalizedTable, nodes: NodeTable, q: nat)
    requires forall e :: e in finalized ==> finalized[e].startLeafIndex == e
    ensures ProofsOf(finalized, nodes, q) == Unfinalized <==>
            || finalized == map[]
            || exists e :: e in finalized && e + finalized[e].leafCount <= q && !Shadowed(finalized, e, q)
  {
    hide Siblings;
    var found := SeekPrev(finalized, q);
    if finalized != map[] && found.Some? {
      SeekFindsIff(finalized, found.value, q);
    }
    forall e | e in finalized && e + finalized[e].leafCount <= q && !Shadowed(finalized, e, q)
      ensures found == Some(e)
    {
      SeekFindsIff(finalized, e, q);
    }
  }

  /** With nothing left behind every sequence from the open tree on is not finalized yet. */
  lemma OpenSequenceUnfinalized(cfg: Config, ch: Chain, b: Base, db: ChildDb, top: nat, q: nat)
    requires Committed(cfg, ch, b, db, top) && OnlyClosed(b, db.working, top, db.finalized)
    requires At(db.working, b, top).startLeafIndex <= q
    ensures ProofsOf(db.finalized, db.nodes, q) == Unfinalized
  {
    hide Stored, StorageRoot, Padded, TreeLeaves;
    if db.finalized != map[] {
      var any :| any in db.finalized;
      EntryBelow(cfg, ch, b, db, top, any);
      EntryBelow(cfg, ch, b, db, top, SeekPrev(db.finalized, q).value);
    }
  }

  lemma EntryBelow(cfg: Config, ch: Chain, b: Base, db: ChildDb, top: nat, start: nat)
    requires Committed(cfg, ch, b, db, top) && OnlyClosed(b, db.working, top, db.finalized) && start in db.finalized
    ensures b.sequence <= start && db.finalized[start].startLeafIndex == start
    ensures start + db.finalized[start].leafCount <= At(db.working, b, top).startLeafIndex
    ensures db.finalized[start].leafCount > 0 && db.finalized[start].treeIndex >= 1 && db.finalized[start].treeHeight >= 1
  {
    assert EntryOk(b, db.working, top, db.finalized[start], start);
    var v := db.finalized[start].extraData.blockNumber;
    assert FinalOk(cfg.f, ch, db.working[v], v, db.finalized, db.nodes);
    ClosedBefore(cfg.f, ch, b, db.working, top, v);
    assert Step(cfg.f, ch, b, db.working, v - 1);
  }

  /** With nothing left behind a sequence before the base is an error as soon as any tree is finalized. */
  lemma EarlierSequenceFails(cfg: Config, ch: Chain, b: Base, db: ChildDb, top: nat, q: nat)
    requires Committed(cfg, ch, b, db, top) && OnlyClosed(b, db.working, top, db.finalized) && q < b.sequence
    ensures ProofsOf(db.finalized, db.nodes, q) == if db.finalized == map[] then Unfinalized else Failed
  {
    hide Stored, StorageRoot, Padded, TreeLeaves;
    if SeekPrev(db.finalized, q).Some? {
      EntryBelow(cfg, ch, b, db, top, SeekPrev(db.finalized, q).value);
    }
  }

  // ----- Steps -----

  /** The process starts at a boundary: what lies behind it is deleted. */
  predicate StartsOver(s: Sys, a: Action)
  {
    a.Reset? || (a.Restart? && s.ex.db.synced == 0)
  }

  predicate FromGenesis(ch: Chain, s: Sys, a: Action)
    requires Enabled(ch, s, a)
  {
    StartsOver(s, a) && Boundary(ch, s.l1, a.boundary).height == 0
  }

  /** A block adds its working tree, and the entry of the tree if it closed a nonempty one. */
  ghost predicate AddsBlock(b: Base, db: ChildDb, db': ChildDb, h: nat)
  {
    && h in db'.working && db'.working == db.working[h := db'.working[h]]
    && (|| db'.finalized == db.finalized
        || exists info: FinalizedTreeInfo ::
             && db'.finalized == db.finalized[info.startLeafIndex := info]
             && EntryOk(b, db'.working, h, info, info.startLeafIndex))
  }

  lemma EndAddsBlock(cfg: Config, ch: Chain, s: Sys, latest: nat, fault: Fault)
    requires Inv(cfg, ch, s) && Enabled(ch, s, End(latest, fault))
    ensures var s' := Next(cfg, ch, s, End(latest, fault));
            || (s'.ex.db == s.ex.db && s'.synced == s.synced)
            || (s'.synced == s.synced + 1 && AddsBlock(s.base, s.ex.db, s'.ex.db, s.synced + 1))
  {
    hide Committed, OnL1, Ended, Closes, ApplyAll, Finalize, Queued, Frontier, Stored;
    var h, t := s.synced + 1, s.ex.tree.value;
    ClosesAsRecorded(cfg, ch, s, latest);
    TreeVersion(cfg, ch, s);
    if Closes(s.ex, h, latest, ch(h)) {
      EndedClosed(cfg, s.ex, h, latest, ch(h), fault);
      ClosingEntry(cfg, ch, s);
    } else {
      EndedOpen(cfg, s.ex, h, latest, ch(h), fault);
    }
  }

  lemma TreeVersion(cfg: Config, ch: Chain, s: Sys)
    requires Inv(cfg, ch, s) && s.phase.InBlock?
    ensures s.ex.tree.value.version == s.synced + 1 && s.base.height <= s.synced
  {
    AtOk(cfg.f, ch, s.base, s.ex.db.working, s.synced, s.synced);
  }

  /** The entry of a closing block is that of the tree it closes. */
  lemma ClosingEntry(cfg: Config, ch: Chain, s: Sys)
    requires s.ex.tree.Some? && s.base.height <= s.synced
    ensures var h, r := s.synced + 1, ClosingTree(cfg, ch, s);
            var working := s.ex.db.working[h := r.tree];
            r.info.Some? ==> EntryOk(s.base, working, h, r.info.value, r.info.value.startLeafIndex)
  {
    var t := s.ex.tree.value;
    if t.leafCount > 0 {
      InsertAllFrame(cfg.f, t.(done := true), Repeat(Sibling(t.lastSiblings, 0), Pow2(TreeHeight(t.leafCount)) - t.leafCount));
    }
  }

  /** What a step does to the tables the proofs are read from, unless it starts over. */
  lemma StepAdds(cfg: Config, ch: Chain, s: Sys, a: Action)
    requires Consecutive(ch) && Inv(cfg, ch, s) && Enabled(ch, s, a) && !StartsOver(s, a)
    ensures var s' := Next(cfg, ch, s, a);
            && s'.base == s.base && s.l1 <= s'.l1
            && (|| (s'.ex.db == s.ex.db && s'.synced == s.synced)
                || (s'.synced == s.synced + 1 && AddsBlock(s.base, s.ex.db, s'.ex.db, s.synced + 1)))
  {
    assert Increasing(s.l1);
    hide Committed, OnL1, AddsBlock;
    match a {
      case Begin(prevUp, curUp) => BeginShape(cfg, ch, s, prevUp, curUp);
      case Withdraw => WithdrawShape(cfg, ch, s);
      case End(latest, fault) => EndAddsBlock(cfg, ch, s, latest, fault);
      case Restart(_) => StoredHeight(cfg, ch, s);
      case _ =>
    }
  }

  lemma StoredHeight(cfg: Config, ch: Chain, s: Sys)
    requires Inv(cfg, ch, s)
    ensures s.ex.db.synced != 0 ==> s.ex.db.synced == s.synced
  {
  }

  // ----- Entries over steps -----

  lemma EntryKept(b: Base, db: ChildDb, db': ChildDb, top: nat, info: FinalizedTreeInfo, q: nat)
    requires EntryOk(b, db.working, top, info, q) && AddsBlock(b, db, db', top + 1)
    ensures EntryOk(b, db'.working, top + 1, info, q)
  {
  }

  lemma RecordedInfoStays(cfg: Config, ch: Chain, l1: seq<L1Output>, more: seq<L1Output>, k: nat)
    requires l1 <= more && 1 <= k <= |l1|
    ensures RecordedInfo(cfg, ch, more, k) == RecordedInfo(cfg, ch, l1, k)
  {
    hide StorageRoot, TreeHeight, Leaves, From;
    var prev: nat := k - 1;
    assert BlockOf(more, k) == BlockOf(l1, k) && BlockOf(more, prev) == BlockOf(l1, prev);
  }

  lemma RecordedStays(cfg: Config, ch: Chain, b: Base, l1: seq<L1Output>, more: seq<L1Output>, q: nat, info: FinalizedTreeInfo)
    requires IsRecorded(cfg, ch, b, l1, q, info) && l1 <= more && b.index >= 1
    ensures IsRecorded(cfg, ch, b, more, q, info)
  {
    hide RecordedInfo;
    var k :| b.index <= k <= |l1| && RecordedAs(cfg, ch, l1, q, info, k);
    RecordedInfoStays(cfg, ch, l1, more, k);
    assert RecordedAs(cfg, ch, more, q, info, k);
  }

  lemma AddsKeepsAccounted(cfg: Config, ch: Chain, b: Base, db: ChildDb, db': ChildDb, top: nat, l1: seq<L1Output>)
    requires Accounted(cfg, ch, b, db.working, top, l1, db.finalized) && AddsBlock(b, db, db', top + 1)
    ensures Accounted(cfg, ch, b, db'.working, top + 1, l1, db'.finalized)
  {
    hide IsRecorded;
    forall q | q in db'.finalized && b.sequence <= q
      ensures EntryOk(b, db'.working, top + 1, db'.finalized[q], q) || IsRecorded(cfg, ch, b, l1, q, db'.finalized[q])
    {
      if q in db.finalized && db'.finalized[q] == db.finalized[q] && EntryOk(b, db.working, top, db.finalized[q], q) {
        EntryKept(b, db, db', top, db.finalized[q], q);
      }
    }
  }

  lemma AddsKeepsOnlyClosed(b: Base, db: ChildDb, db': ChildDb, top: nat)
    requires OnlyClosed(b, db.working, top, db.finalized) && AddsBlock(b, db, db', top + 1)
    ensures OnlyClosed(b, db'.working, top + 1, db'.finalized)
  {
    forall q | q in db'.finalized
      ensures EntryOk(b, db'.working, top + 1, db'.finalized[q], q)
    {
      if q in db.finalized && db'.finalized[q] == db.finalized[q] {
        EntryKept(b, db, db', top, db.finalized[q], q);
      }
    }
  }

  /** A start at a later boundary keeps the entries before it, and they stay what they were. */
  lemma RolledBackEntry(cfg: Config, ch: Chain, b: Base, db: ChildDb, top: nat, bnd: Base, q: nat)
    requires History(cfg.f, ch, b, db.working, top) && b.height <= bnd.height <= top && bnd.height > 0
    requires bnd.height == b.height || ClosedAt(db.working, b, top, bnd.height)
    requires bnd.sequence == |Leaves(ch, bnd.height)| + 1
    requires q in db.finalized && EntryOk(b, db.working, top, db.finalized[q], q) && q < bnd.sequence
    ensures EntryOk(b, RolledBack(db, bnd, false).working, bnd.height, db.finalized[q], q)
  {
    var v := db.finalized[q].extraData.blockNumber;
    if bnd.height < v {
      StartsAtBoundary(cfg.f, ch, b, db.working, top, bnd.height);
      ClosedAfter(cfg.f, ch, b, db.working, top, bnd.height, v);
    }
  }

  lemma StartOverShape(cfg: Config, ch: Chain, s: Sys, a: Action)
    requires Inv(cfg, ch, s) && Enabled(ch, s, a) && StartsOver(s, a)
    ensures var s', bnd := Next(cfg, ch, s, a), Boundary(ch, s.l1, a.boundary);
            var db := s.ex.db.(synced := 0, proposals := []);
            && s'.base == s.base && s'.l1 == s.l1 && s'.synced == bnd.height && s'.ex.db == RolledBack(db, bnd, false)
            && s.base.height <= bnd.height <= s.synced && bnd.sequence == |Leaves(ch, bnd.height)| + 1
            && (bnd.height == s.base.height || ClosedAt(s.ex.db.working, s.base, s.synced, bnd.height))
            && (bnd.height == 0 ==> s.base.height == 0 && s.base.sequence == 1)
  {
    hide Finals, Stored, WithdrawalsOk, OnL1, Memory;
    StartChecks(cfg, ch, s, a.boundary);
    if Boundary(ch, s.l1, a.boundary).height == 0 { BaseAtGenesis(ch, s); }
  }

  lemma BaseAtGenesis(ch: Chain, s: Sys)
    requires s.base.height == 0 && s.base.sequence == |Leaves(ch, 0)| + 1
    ensures s.base.sequence == 1
  {
  }

  /**
   All entries stay accounted for in every step, except that a start from genesis has to find the output of every
   finalized tree on L1.
   */
  lemma StepAccountedIff(cfg: Config, ch: Chain, s: Sys, a: Action)
    requires Consecutive(ch) && Inv(cfg, ch, s) && Enabled(ch, s, a) && AccountedIn(cfg, ch, s)
    ensures AccountedIn(cfg, ch, Next(cfg, ch, s, a)) <==>
            (FromGenesis(ch, s, a) ==> AllRecorded(cfg, ch, s.base, s.l1, s.ex.db.finalized))
  {
    hide Inv, Next, Enabled, Accounted, AddsBlock, AllRecorded, Boundary, Consecutive;
    var s' := Next(cfg, ch, s, a);
    if !StartsOver(s, a) {
      StepAdds(cfg, ch, s, a);
      if s'.synced == s.synced + 1 && AddsBlock(s.base, s.ex.db, s'.ex.db, s.synced + 1) {
        AddsKeepsAccounted(cfg, ch, s.base, s.ex.db, s'.ex.db, s.synced, s.l1);
      }
      BasePositive(cfg, ch, s);
      AccountedMore(cfg, ch, s.base, s'.ex.db.working, s'.synced, s.l1, s'.l1, s'.ex.db.finalized);
    } else {
      StartOverAccounted(cfg, ch, s, a);
    }
  }

  ghost predicate AccountedIn(cfg: Config, ch: Chain, s: Sys)
  {
    Accounted(cfg, ch, s.base, s.ex.db.working, s.synced, s.l1, s.ex.db.finalized)
  }

  lemma BasePositive(cfg: Config, ch: Chain, s: Sys)
    requires Inv(cfg, ch, s)
    ensures s.base.index >= 1
  {
  }

  lemma AccountedMore(cfg: Config, ch: Chain, b: Base, working: map<nat, TreeInfo>, top: nat, l1: seq<L1Output>, more: seq<L1Output>,
                      finalized: FinalizedTable)
    requires Accounted(cfg, ch, b, working, top, l1, finalized) && l1 <= more && b.index >= 1
    ensures Accounted(cfg, ch, b, working, top, more, finalized)
  {
    hide IsRecorded, EntryOk;
    forall q | q in finalized && b.sequence <= q
      ensures EntryOk(b, working, top, finalized[q], q) || IsRecorded(cfg, ch, b, more, q, finalized[q])
    {
      if IsRecorded(cfg, ch, b, l1, q, finalized[q]) { RecordedStays(cfg, ch, b, l1, more, q, finalized[q]); }
    }
  }

  lemma StartOverAccounted(cfg: Config, ch: Chain, s: Sys, a: Action)
    requires Inv(cfg, ch, s) && Enabled(ch, s, a) && AccountedIn(cfg, ch, s) && StartsOver(s, a)
    ensures AccountedIn(cfg, ch, Next(cfg, ch, s, a)) <==>
            (FromGenesis(ch, s, a) ==> AllRecorded(cfg, ch, s.base, s.l1, s.ex.db.finalized))
  {
    StartOverShape(cfg, ch, s, a);
    InvHistory(cfg, ch, s);
    var s', bnd := Next(cfg, ch, s, a), Boundary(ch, s.l1, a.boundary);
    var db := s.ex.db.(synced := 0, proposals := []);
    hide Inv, Next, IsRecorded, Boundary;
    if bnd.height > 0 {
      forall q | q in s'.ex.db.finalized && s.base.sequence <= q
        ensures || EntryOk(s.base, s'.ex.db.working, s'.synced, s'.ex.db.finalized[q], q)
                || IsRecorded(cfg, ch, s.base, s.l1, q, s'.ex.db.finalized[q])
      {
        if EntryOk(s.base, s.ex.db.working, s.synced, s.ex.db.finalized[q], q) {
          RolledBackEntry(cfg, ch, s.base, db, s.synced, bnd, q);
        }
      }
    }
  }

  lemma InvHistory(cfg: Config, ch: Chain, s: Sys)
    requires Inv(cfg, ch, s)
    ensures History(cfg.f, ch, s.base, s.ex.db.working, s.synced)
  {
  }

  ghost predicate OnlyClosedIn(s: Sys)
  {
    OnlyClosed(s.base, s.ex.db.working, s.synced, s.ex.db.finalized)
  }

  /** Nothing is left behind by any step, except by a start from genesis after a tree was finalized. */
  lemma StepOnlyClosedIff(cfg: Config, ch: Chain, s: Sys, a: Action)
    requires Consecutive(ch) && Inv(cfg, ch, s) && Enabled(ch, s, a) && OnlyClosedIn(s)
    ensures OnlyClosedIn(Next(cfg, ch, s, a)) <==> (FromGenesis(ch, s, a) ==> s.ex.db.finalized == map[])
  {
    hide Inv, Next, Enabled, OnlyClosed, AddsBlock, Boundary, Consecutive;
    if StartsOver(s, a) {
      StartOverOnlyClosed(cfg, ch, s, a);
    } else {
      var s' := Next(cfg, ch, s, a);
      StepAdds(cfg, ch, s, a);
      if s'.synced == s.synced + 1 && AddsBlock(s.base, s.ex.db, s'.ex.db, s.synced + 1) {
        AddsKeepsOnlyClosed(s.base, s.ex.db, s'.ex.db, s.synced);
      }
    }
  }

  lemma StartOverOnlyClosed(cfg: Config, ch: Chain, s: Sys, a: Action)
    requires Inv(cfg, ch, s) && Enabled(ch, s, a) && StartsOver(s, a) && OnlyClosedIn(s)
    ensures OnlyClosedIn(Next(cfg, ch, s, a)) <==> (FromGenesis(ch, s, a) ==> s.ex.db.finalized == map[])
  {
    StartOverShape(cfg, ch, s, a);
    InvHistory(cfg, ch, s);
    var s', bnd := Next(cfg, ch, s, a), Boundary(ch, s.l1, a.boundary);
    hide Inv, Next, Boundary, Enabled;
    RolledBackOnlyClosed(cfg, ch, s.base, s.ex.db.(synced := 0, proposals := []), s.synced, bnd);
  }

  lemma RolledBackOnlyClosed(cfg: Config, ch: Chain, b: Base, db: ChildDb, top: nat, bnd: Base)
    requires History(cfg.f, ch, b, db.working, top) && OnlyClosed(b, db.working, top, db.finalized)
    requires b.height <= bnd.height <= top && bnd.sequence == |Leaves(ch, bnd.height)| + 1
    requires bnd.height == b.height || ClosedAt(db.working, b, top, bnd.height)
    ensures var db' := RolledBack(db, bnd, false);
            OnlyClosed(b, db'.working, bnd.height, db'.finalized) <==> (bnd.height == 0 ==> db.finalized == map[])
  {
    var db' := RolledBack(db, bnd, false);
    if bnd.height > 0 {
      forall q | q in db'.finalized
        ensures EntryOk(b, db'.working, bnd.height, db'.finalized[q], q)
      {
        RolledBackEntry(cfg, ch, b, db, top, bnd, q);
      }
    } else if db.finalized != map[] {
      var q :| q in db.finalized;
      assert q in db'.finalized && !EntryOk(b, db'.working, 0, db'.finalized[q], q);
    }
  }

  // ----- Whole runs -----

  /** The tree closed at block v has no output on L1, or one for just that block. */
  predicate OnRecord(s: Sys, v: nat)
  {
    v in s.ex.db.working && var k := s.ex.db.working[v].index; k <= |s.l1| ==> BlockOf(s.l1, k) == v
  }

  lemma ClosedOnRecord(cfg: Config, ch: Chain, s: Sys, v: nat)
    requires Inv(cfg, ch, s) && FinalizedAt(s.ex.db.working, s.base, s.synced, v)
    ensures OnRecord(s, v)
  {
    hide StorageRoot, Finals, Stored, WithdrawalsOk, ProposalOk, Honest, Building;
    ClosedBefore(cfg.f, ch, s.base, s.ex.db.working, s.synced, v);
    var k := s.ex.db.working[v].index;
    if k <= |s.l1| { RecordedCloses(cfg, ch, s.base, s.ex.db, s.synced, s.l1, s.recorded, k); }
  }

  /**
   In every state of every run, whatever was reset: each sequence since the base and before the open tree is in exactly
   one closed tree, under the index its output has on L1, and is answered from it, with a proof that verifies, if and only
   if no entry left behind comes between.
   */
  lemma RunProofs(cfg: Config, ch: Chain, states: seq<Sys>, actions: seq<Action>, i: nat, q: nat) returns (v: nat)
    requires Commutative(cfg.f)
    requires Consecutive(ch) && Run(cfg, ch, states, actions) && Initial(cfg, ch, states[0]) && i < |states|
    requires states[i].base.sequence <= q < At(states[i].ex.db.working, states[i].base, states[i].synced).startLeafIndex
    ensures Holds(cfg, ch, states[i].base, states[i].ex.db, states[i].synced, q, v) && OnRecord(states[i], v)
  {
    hide Commutative, Proves, Shadowed, Committed, OnL1, Memory, Building, Run, Initial;
    RunKeeps(cfg, ch, states, actions, i);
    var s := states[i];
    v := FinalizedSequence(cfg, ch, s.base, s.ex.db, s.synced, q);
    ClosedOnRecord(cfg, ch, s, v);
  }

  lemma {:induction false} RunAccounted(cfg: Config, ch: Chain, states: seq<Sys>, actions: seq<Action>, i: nat)
    requires Consecutive(ch) && Run(cfg, ch, states, actions) && Initial(cfg, ch, states[0]) && i < |states|
    requires AccountedIn(cfg, ch, states[0])
    requires forall j :: 0 <= j < i && FromGenesis(ch, states[j], actions[j]) ==>
               AllRecorded(cfg, ch, states[j].base, states[j].l1, states[j].ex.db.finalized)
    ensures AccountedIn(cfg, ch, states[i])
    decreases i
  {
    hide Inv, Enabled, Next, Initial, AccountedIn, AllRecorded;
    if i > 0 {
      RunAccounted(cfg, ch, states, actions, i - 1);
      RunKeeps(cfg, ch, states, actions, i - 1);
      StepAccountedIff(cfg, ch, states[i - 1], actions[i - 1]);
      assert states[i - 1 + 1] == Next(cfg, ch, states[i - 1], actions[i - 1]);
    }
  }

  /** If every start from genesis found the outputs of the finalized trees on L1, every finalized sequence proves. */
  lemma RunProves(cfg: Config, ch: Chain, states: seq<Sys>, actions: seq<Action>, i: nat, q: nat) returns (v: nat)
    requires Commutative(cfg.f)
    requires Consecutive(ch) && Run(cfg, ch, states, actions) && Initial(cfg, ch, states[0]) && i < |states|
    requires AccountedIn(cfg, ch, states[0])
    requires forall j :: 0 <= j < i && FromGenesis(ch, states[j], actions[j]) ==>
               AllRecorded(cfg, ch, states[j].base, states[j].l1, states[j].ex.db.finalized)
    requires states[i].base.sequence <= q < At(states[i].ex.db.working, states[i].base, states[i].synced).startLeafIndex
    ensures Proves(cfg, ch, states[i].base, states[i].ex.db, states[i].synced, q, v) && OnRecord(states[i], v)
  {
    v := RunProofs(cfg, ch, states, actions, i, q);
    RunAccounted(cfg, ch, states, actions, i);
    RunKeeps(cfg, ch, states, actions, i);
    var s := states[i];
    hide Commutative, Proves, Shadowed, Committed, OnL1, Memory, Building, Run, Initial, AllRecorded, Accounted;
    AccountedUnshadowed(cfg, ch, s.base, s.ex.db, s.synced, s.l1, s.recorded, q, v);
  }

  /** A start at a later boundary, or on an empty table, has nothing unaccounted for. */
  lemma InitialAccounted(cfg: Config, ch: Chain, s: Sys)
    requires Initial(cfg, ch, s) && (s.base.height > 0 || s.ex.db.finalized == map[])
    ensures AccountedIn(cfg, ch, s)
  {
  }

  lemma {:induction false} RunOnlyClosed(cfg: Config, ch: Chain, states: seq<Sys>, actions: seq<Action>, i: nat)
    requires Consecutive(ch) && Run(cfg, ch, states, actions) && Initial(cfg, ch, states[0]) && i < |states|
    requires states[0].ex.db.finalized == map[]
    requires forall j :: 0 <= j < i && FromGenesis(ch, states[j], actions[j]) ==> states[j].ex.db.finalized == map[]
    ensures OnlyClosedIn(states[i])
    decreases i
  {
    if i > 0 {
      hide Inv, Enabled, Next, Initial, OnlyClosedIn;
      RunOnlyClosed(cfg, ch, states, actions, i - 1);
      RunKeeps(cfg, ch, states, actions, i - 1);
      StepOnlyClosedIff(cfg, ch, states[i - 1], actions[i - 1]);
      assert states[i - 1 + 1] == Next(cfg, ch, states[i - 1], actions[i - 1]);
    }
  }

  /** With no start from genesis after a tree was finalized, sequences from the open tree on are unfinalized, those before the base an error. */
  lemma RunOtherAnswers(cfg: Config, ch: Chain, states: seq<Sys>, actions: seq<Action>, i: nat, q: nat)
    requires Consecutive(ch) && Run(cfg, ch, states, actions) && Initial(cfg, ch, states[0]) && i < |states|
    requires states[0].ex.db.finalized == map[]
    requires forall j :: 0 <= j < i && FromGenesis(ch, states[j], actions[j]) ==> states[j].ex.db.finalized == map[]
    ensures var s := states[i];
            && (At(s.ex.db.working, s.base, s.synced).startLeafIndex <= q ==> ProofsOf(s.ex.db.finalized, s.ex.db.nodes, q) == Unfinalized)
            && (q < s.base.sequence && s.ex.db.finalized != map[] ==> ProofsOf(s.ex.db.finalized, s.ex.db.nodes, q) == Failed)
  {
    RunOnlyClosed(cfg, ch, states, actions, i);
    RunKeeps(cfg, ch, states, actions, i);
    var s := states[i];
    hide Run, Initial, Committed, OnL1, Memory, Building, OnlyClosed, ProofsOf;
    if At(s.ex.db.working, s.base, s.synced).startLeafIndex <= q {
      OpenSequenceUnfinalized(cfg, ch, s.base, s.ex.db, s.synced, q);
    }
    if q < s.base.sequence { EarlierSequenceFails(cfg, ch, s.base, s.ex.db, s.synced, q); }
  }

  /** Entries of trees that L1 records are recreated identically as soon as their block is replayed. */
  lemma RunRecreates(cfg: Config, ch: Chain, states: seq<Sys>, actions: seq<Action>, i: nat, k: nat)
    requires Consecutive(ch) && Run(cfg, ch, states, actions) && Initial(cfg, ch, states[0]) && i < |states|
    requires states[i].base.index <= k <= |states[i].l1| && BlockOf(states[i].l1, k) <= states[i].synced
    requires 1 <= k && RecordedInfo(cfg, ch, states[i].l1, k).leafCount > 0
    ensures var info := RecordedInfo(cfg, ch, states[i].l1, k);
            Get(states[i].ex.db.finalized, info.startLeafIndex) == Some(info)
  {
    RunKeeps(cfg, ch, states, actions, i);
    var s := states[i];
    hide Run, Initial, Committed, OnL1, Memory, Building;
    RecordedRecreated(cfg, ch, s.base, s.ex.db, s.synced, s.l1, s.recorded, k);
  }

  /** No working tree is stored for a block ahead of the synced one. */
  predicate NoneAhead(s: Sys)
  {
    forall v :: v in s.ex.db.working ==> v <= s.synced
  }

  lemma StepNoneAhead(cfg: Config, ch: Chain, s: Sys, a: Action)
    requires Consecutive(ch) && Inv(cfg, ch, s) && Enabled(ch, s, a) && NoneAhead(s)
    ensures NoneAhead(Next(cfg, ch, s, a))
  {
    hide Inv, Next, Enabled, Boundary, Consecutive;
    if StartsOver(s, a) {
      StartOverShape(cfg, ch, s, a);
    } else {
      StepAdds(cfg, ch, s, a);
    }
  }

  /** Whatever was reset, nothing of the blocks to come is left in the table of working trees. */
  lemma {:induction false} RunNoneAhead(cfg: Config, ch: Chain, states: seq<Sys>, actions: seq<Action>, i: nat)
    requires Consecutive(ch) && Run(cfg, ch, states, actions) && Initial(cfg, ch, states[0]) && i < |states|
    ensures forall v :: v in states[i].ex.db.working ==> v <= states[i].synced
    decreases i
  {
    if i > 0 {
      hide Inv, Enabled, Next, Initial;
      RunNoneAhead(cfg, ch, states, actions, i - 1);
      RunKeeps(cfg, ch, states, actions, i - 1);
      StepNoneAhead(cfg, ch, states[i - 1], actions[i - 1]);
      assert states[i - 1 + 1] == Next(cfg, ch, states[i - 1], actions[i - 1]);
    }
  }

  // ----- Right after a reset -----

  /**
   Right after a height reset every sequence from the boundary on is answered as not finalized, exactly when the boundary
   is not genesis or no tree was finalized before.
   */
  lemma ResetUnfinalizes(cfg: Config, ch: Chain, b: Base, db: ChildDb, top: nat, bnd: Base)
    requires Committed(cfg, ch, b, db, top) && OnlyClosed(b, db.working, top, db.finalized) && db.synced == 0
    requires b.height <= bnd.height <= top && 1 <= b.index <= b.height + 1
    requires bnd.height == b.height || ClosedAt(db.working, b, top, bnd.height)
    requires bnd.sequence == |Leaves(ch, bnd.height)| + 1
    ensures var db' := RolledBack(db, bnd, false);
            (forall q: nat :: bnd.sequence <= q ==> ProofsOf(db'.finalized, db'.nodes, q) == Unfinalized) <==>
            (bnd.height != 0 || db.finalized == map[])
  {
    var db' := RolledBack(db, bnd, false);
    if bnd.height != 0 || db.finalized == map[] {
      RolledBackCommitted(cfg, ch, b, db, top, bnd);
      RolledBackOnlyClosed(cfg, ch, b, db, top, bnd);
      hide Stored, Finals, WithdrawalsOk, OnlyClosed, ProofsOf;
      StartsAtBoundary(cfg.f, ch, b, db.working, top, bnd.height);
      forall q: nat | bnd.sequence <= q
        ensures ProofsOf(db'.finalized, db'.nodes, q) == Unfinalized
      {
        OpenSequenceUnfinalized(cfg, ch, b, db', bnd.height, q);
      }
    } else {
      hide Committed, OnlyClosed;
      var start :| start in db.finalized;
      StaleTreeFails(cfg, ch, b, db, top, bnd, start);
    }
  }

  /** Right after a reset to genesis the first sequence of an old tree is an error: its entry is there, its nodes are gone. */
  lemma StaleTreeFails(cfg: Config, ch: Chain, b: Base, db: ChildDb, top: nat, bnd: Base, start: nat)
    requires Committed(cfg, ch, b, db, top) && OnlyClosed(b, db.working, top, db.finalized)
    requires start in db.finalized && bnd.height == 0 && b.height == 0
    requires bnd.sequence == 1
    ensures bnd.sequence <= start
    ensures var db' := RolledBack(db, bnd, false); ProofsOf(db'.finalized, db'.nodes, start) == Failed
  {
    hide Stored, Finals;
    EntryBelow(cfg, ch, b, db, top, start);
  }
}
