/** The outputs recorded on L1, and how the closed trees of a history relate to them. */
module L1Outputs {
  import opened Prelude
  import opened MerkleSpec
  import opened MerkleTree
  import opened ChildTables

  /** Output k is at index k - 1. */
  datatype L1Output = L1Output(l2BlockNumber: nat, outputRoot: Bytes, l1BlockTime: int)

  /** The start after output k of L1, or at genesis for k = 0. */
  function Boundary(ch: Chain, l1: seq<L1Output>, k: nat): Base
    requires k <= |l1|
  {
    if k == 0 then Base(0, 1, 1)
    else Base(l1[k - 1].l2BlockNumber, k + 1, |Leaves(ch, l1[k - 1].l2BlockNumber)| + 1)
  }

  function QueryOutput(l1: seq<L1Output>, k: nat, up: bool): Query
  {
    if !up then Unavailable
    else if 1 <= k <= |l1| then Found(l1[k - 1].l2BlockNumber, l1[k - 1].l1BlockTime)
    else NotFound
  }

  predicate Increasing(l1: seq<L1Output>)
  {
    && (forall i :: 0 <= i < |l1| ==> l1[i].l2BlockNumber >= 1)
    && (forall i, j :: 0 <= i < j < |l1| ==> l1[i].l2BlockNumber < l1[j].l2BlockNumber)
  }

  /** Block of output k, and 0 for k = 0. */
  function BlockOf(l1: seq<L1Output>, k: nat): nat
    requires k <= |l1|
  {
    if k == 0 then 0 else l1[k - 1].l2BlockNumber
  }

  /** The output root of the withdrawals in the blocks after a up to b. */
  function OutputRootOf(cfg: Config, ch: Chain, a: nat, b: nat): Bytes
  {
    cfg.rootFn(cfg.version, StorageRoot(cfg.f, From(Leaves(ch, b), |Leaves(ch, a)| + 1)), ch(b).id)
  }

  /** Output k carries the root of the withdrawals between the blocks of outputs k - 1 and k. */
  ghost predicate HonestAt(cfg: Config, ch: Chain, l1: seq<L1Output>, k: nat)
    requires 1 <= k <= |l1|
  {
    l1[k - 1].outputRoot == OutputRootOf(cfg, ch, BlockOf(l1, k - 1), BlockOf(l1, k))
  }

  /** The outputs after the first n are honest. */
  ghost predicate Honest(cfg: Config, ch: Chain, l1: seq<L1Output>, n: nat)
  {
    forall k: nat :: n < k <= |l1| ==> HonestAt(cfg, ch, l1, k)
  }

  /** Trees with an output on L1 closed at the recorded block; the open tree has not passed its record. */
  ghost predicate MatchesL1(b: Base, working: map<nat, TreeInfo>, top: nat, l1: seq<L1Output>)
  {
    && (forall k: nat :: b.index <= k < At(working, b, top).index && k <= |l1| ==> ClosedAsRecorded(b, working, top, l1, k))
    && (At(working, b, top).index <= |l1| ==> BlockOf(l1, At(working, b, top).index) > top)
  }

  predicate ClosedAsRecorded(b: Base, working: map<nat, TreeInfo>, top: nat, l1: seq<L1Output>, k: nat)
    requires k <= |l1|
  {
    ClosedAt(working, b, top, BlockOf(l1, k)) && working[BlockOf(l1, k)].index == k
  }

  lemma {:induction false} BlockAtLeastIndex(l1: seq<L1Output>, k: nat)
    requires Increasing(l1) && k <= |l1|
    ensures k <= BlockOf(l1, k)
  {
    if k >= 2 { BlockAtLeastIndex(l1, k - 1); }
  }

  lemma BlockOrder(l1: seq<L1Output>, j: nat, k: nat)
    requires Increasing(l1) && j < k <= |l1|
    ensures BlockOf(l1, j) < BlockOf(l1, k)
  {}

  lemma IncreasingAppend(l1: seq<L1Output>, o: L1Output)
    requires Increasing(l1) && BlockOf(l1, |l1|) < o.l2BlockNumber
    ensures Increasing(l1 + [o])
  {
    var l1' := l1 + [o];
    forall i, j | 0 <= i < j < |l1'|
      ensures l1'[i].l2BlockNumber < l1'[j].l2BlockNumber
    {
      if j == |l1| && i < |l1| - 1 { assert l1[i].l2BlockNumber < l1[|l1| - 1].l2BlockNumber; }
    }
  }

  lemma BlockOfAppend(l1: seq<L1Output>, o: L1Output)
    ensures forall k: nat :: k <= |l1| ==> BlockOf(l1 + [o], k) == BlockOf(l1, k)
    ensures BlockOf(l1 + [o], |l1| + 1) == o.l2BlockNumber
  {}

  lemma HonestAtPrefix(cfg: Config, ch: Chain, l1: seq<L1Output>, o: L1Output, k: nat)
    requires 1 <= k <= |l1| && HonestAt(cfg, ch, l1, k)
    ensures HonestAt(cfg, ch, l1 + [o], k)
  {
    BlockOfAppend(l1, o);
    hide OutputRootOf, BlockOf;
    var prev: nat := k - 1;
    assert (l1 + [o])[prev] == l1[prev];
    assert BlockOf(l1 + [o], prev) == BlockOf(l1, prev);
  }

  lemma HonestStep(cfg: Config, ch: Chain, l1: seq<L1Output>, n: nat, o: L1Output, k: nat)
    requires Honest(cfg, ch, l1, n) && n < k <= |l1| + 1
    requires o.outputRoot == OutputRootOf(cfg, ch, BlockOf(l1, |l1|), o.l2BlockNumber)
    ensures HonestAt(cfg, ch, l1 + [o], k)
  {
    BlockOfAppend(l1, o);
    if k <= |l1| {
      assert HonestAt(cfg, ch, l1, k);
      HonestAtPrefix(cfg, ch, l1, o, k);
    } else {
      hide OutputRootOf, BlockOf;
      assert (l1 + [o])[k - 1] == o;
    }
  }

  lemma HonestAppend(cfg: Config, ch: Chain, l1: seq<L1Output>, n: nat, o: L1Output)
    requires Honest(cfg, ch, l1, n)
    requires o.outputRoot == OutputRootOf(cfg, ch, BlockOf(l1, |l1|), o.l2BlockNumber)
    ensures Honest(cfg, ch, l1 + [o], n)
  {
    forall k: nat | n < k <= |l1 + [o]|
      ensures HonestAt(cfg, ch, l1 + [o], k)
    {
      HonestStep(cfg, ch, l1, n, o, k);
    }
  }

  lemma MatchesAppend(b: Base, working: map<nat, TreeInfo>, top: nat, l1: seq<L1Output>, o: L1Output)
    requires MatchesL1(b, working, top, l1)
    requires ClosedAt(working, b, top, o.l2BlockNumber) && working[o.l2BlockNumber].index == |l1| + 1 < At(working, b, top).index
    ensures MatchesL1(b, working, top, l1 + [o])
  {
    BlockOfAppend(l1, o);
    forall k: nat | b.index <= k < At(working, b, top).index && k <= |l1 + [o]|
      ensures ClosedAsRecorded(b, working, top, l1 + [o], k)
    {
      if k <= |l1| { assert ClosedAsRecorded(b, working, top, l1, k); }
    }
  }

  /** What was closed stays closed. */
  lemma RecordKept(b: Base, working: map<nat, TreeInfo>, top: nat, h: nat, l1: seq<L1Output>, t: TreeInfo, k: nat)
    requires k <= |l1| && h == top + 1 && ClosedAsRecorded(b, working, top, l1, k)
    ensures ClosedAsRecorded(b, working[h := t], h, l1, k)
  {}
}
