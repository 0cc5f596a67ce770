/**
 The incremental withdrawal tree of merkle/merkle.go. It keeps one node per height (the root of the last
 complete block of that height) instead of the whole tree.
 */
module MerkleTree {
  import opened Prelude
  import opened MerkleSpec

  datatype TreeInfo = TreeInfo(
    version: nat,
    index: nat,
    startLeafIndex: nat,
    leafCount: nat,
    lastSiblings: map<nat, Bytes>,
    done: bool)

  datatype Node = Node(treeIndex: nat, height: nat, localNodeIndex: nat, data: Bytes)

  /** What the executor stores beside a finalized tree: the block that closed it. */
  datatype TreeExtraData = NoExtraData | TreeExtraData(blockNumber: nat, blockTime: int, blockHash: Bytes)

  datatype FinalizedTreeInfo = FinalizedTreeInfo(
    treeIndex: nat,
    treeHeight: nat,
    root: Bytes,
    startLeafIndex: nat,
    leafCount: nat,
    extraData: TreeExtraData)

  // ----- What the operations compute, as functions on values -----

  /** A missing sibling reads as nil. */
  function Sibling(sibs: map<nat, Bytes>, h: nat): Bytes
  {
    if h in sibs then sibs[h] else []
  }

  /** The climb of InsertLeaf from node i of height h: the new siblings and the nodes created. */
  function Climb(f: NodeFn, sibs: map<nat, Bytes>, k: nat, h: nat, i: nat, data: Bytes): (map<nat, Bytes>, seq<Node>)
    decreases i
  {
    var node := Node(k, h, i, data);
    if i % 2 == 0 then (sibs[h := data], [node])
    else
      var (sibs', nodes) := Climb(f, sibs[h := data], k, h + 1, i / 2, f(Sibling(sibs, h), data));
      (sibs', [node] + nodes)
  }

  function Insert(f: NodeFn, t: TreeInfo, data: Bytes): (TreeInfo, seq<Node>)
  {
    var (sibs, nodes) := Climb(f, t.lastSiblings, t.index, 0, t.leafCount, data);
    (t.(lastSiblings := sibs, leafCount := t.leafCount + 1), nodes)
  }

  /** Inserting the given leaves in order. */
  function InsertAll(f: NodeFn, t: TreeInfo, leaves: seq<Bytes>): (TreeInfo, seq<Node>)
    decreases |leaves|
  {
    if |leaves| == 0 then (t, [])
    else
      var (t1, nodes1) := InsertAll(f, t, leaves[..|leaves| - 1]);
      var (t2, nodes2) := Insert(f, t1, leaves[|leaves| - 1]);
      (t2, nodes1 + nodes2)
  }

  /** The padding of FinalizeWorkingTree: the tree and the nodes created; the leaf count is restored. */
  function Fill(f: NodeFn, t: TreeInfo): (TreeInfo, seq<Node>)
  {
    var rest := Pow2(TreeHeight(t.leafCount)) - t.leafCount;
    var (t', nodes) := InsertAll(f, t, Repeat(Sibling(t.lastSiblings, 0), rest));
    (t'.(leafCount := t.leafCount), nodes)
  }

  datatype Finalized = Finalized(tree: TreeInfo, info: Option<FinalizedTreeInfo>, nodes: seq<Node>, root: Bytes)

  function Finalize(f: NodeFn, t: TreeInfo, extra: TreeExtraData): Finalized
  {
    if t.leafCount == 0 then Finalized(t.(done := true), None, [], EmptyRootHash())
    else
      var (t', nodes) := Fill(f, t.(done := true));
      var h := TreeHeight(t.leafCount);
      var root := Sibling(t'.lastSiblings, h);
      Finalized(t', Some(FinalizedTreeInfo(t.index, h, root, t.startLeafIndex, t.leafCount, extra)), nodes, root)
  }

  function EmptyTree(version: nat, index: nat, start: nat): TreeInfo
  {
    TreeInfo(version, index, start, 0, map[], false)
  }

  /** The tree a block continues from, given the one saved for the block before. */
  function Prepare(t: TreeInfo): TreeInfo
  {
    if t.done then EmptyTree(t.version + 1, t.index + 1, t.startLeafIndex + t.leafCount)
    else t.(version := t.version + 1)
  }

  // ----- The frontier refines the recursive tree -----

  /** Every height keeps the root of its last complete block. */
  ghost predicate Frontier(f: NodeFn, sibs: map<nat, Bytes>, leaves: seq<Bytes>)
  {
    FrontierFrom(f, sibs, leaves, |leaves|, 0)
  }

  /** The same for the heights from lo up, counting only the first n leaves. */
  ghost predicate FrontierFrom(f: NodeFn, sibs: map<nat, Bytes>, leaves: seq<Bytes>, n: nat, lo: nat)
    requires n <= |leaves|
  {
    forall h: nat, i: nat :: lo <= h && LastComplete(n, h, i) ==> h in sibs && sibs[h] == Subtree(f, leaves, h, i)
  }

  /** Block i of height h ends at leaf n. */
  predicate EndsAt(n: nat, h: nat, i: nat)
  {
    (i + 1) * Pow2(h) == n
  }

  /** The nodes are the roots of the blocks from height lo up that end at the last leaf: all of them, each once, lowest first. */
  ghost predicate Ending(f: NodeFn, k: nat, leaves: seq<Bytes>, lo: nat, nodes: seq<Node>)
  {
    && (forall j :: 0 <= j < |nodes| ==>
          && nodes[j].treeIndex == k && nodes[j].height == lo + j
          && EndsAt(|leaves|, nodes[j].height, nodes[j].localNodeIndex)
          && nodes[j].data == Subtree(f, leaves, nodes[j].height, nodes[j].localNodeIndex))
    && (forall h: nat, i: nat :: lo <= h && EndsAt(|leaves|, h, i) ==> h < lo + |nodes|)
  }

  /** What a climb from node i of height h must achieve. */
  ghost predicate Climbed(f: NodeFn, sibs: map<nat, Bytes>, k: nat, h: nat, leaves: seq<Bytes>, sibs': map<nat, Bytes>, nodes: seq<Node>)
  {
    && FrontierFrom(f, sibs', leaves, |leaves|, h)
    && (forall g: nat :: g < h ==> Get(sibs', g) == Get(sibs, g))
    && Ending(f, k, leaves, h, nodes)
  }

  lemma {:induction false} ClimbRefines(f: NodeFn, sibs: map<nat, Bytes>, k: nat, h: nat, i: nat, data: Bytes, leaves: seq<Bytes>)
    requires |leaves| >= 1 && EndsAt(|leaves|, h, i)
    requires data == Subtree(f, leaves, h, i)
    requires FrontierFrom(f, sibs, leaves, |leaves| - 1, h)
    ensures var (sibs', nodes) := Climb(f, sibs, k, h, i, data); Climbed(f, sibs, k, h, leaves, sibs', nodes)
    decreases i
  {
    if i % 2 == 0 {
      ClimbStops(f, sibs, k, h, i, data, leaves);
    } else {
      var up := sibs[h := data];
      OddChild(f, sibs, h, i, leaves);
      ClimbRefines(f, up, k, h + 1, i / 2, f(sibs[h], data), leaves);
      var (sibs', nodes) := Climb(f, up, k, h + 1, i / 2, f(sibs[h], data));
      ClimbGoesOn(f, sibs, k, h, i, data, leaves, sibs', nodes);
    }
  }

  lemma ClimbStops(f: NodeFn, sibs: map<nat, Bytes>, k: nat, h: nat, i: nat, data: Bytes, leaves: seq<Bytes>)
    requires |leaves| >= 1 && EndsAt(|leaves|, h, i) && i % 2 == 0
    requires data == Subtree(f, leaves, h, i)
    requires FrontierFrom(f, sibs, leaves, |leaves| - 1, h)
    ensures Climbed(f, sibs, k, h, leaves, sibs[h := data], [Node(k, h, i, data)])
  {
    forall g: nat, j: nat | h <= g && LastComplete(|leaves|, g, j)
      ensures g in sibs[h := data] && sibs[h := data][g] == Subtree(f, leaves, g, j)
    {
      StopsHere(|leaves|, h, i, g, j);
    }
    forall g: nat, j: nat | h <= g && EndsAt(|leaves|, g, j)
      ensures g < h + 1
    {
      if h < g { OddMultiple(h, i, g, j); }
    }
  }

  /** The node to the left of an odd one is in the frontier, and the two make their parent. */
  lemma OddChild(f: NodeFn, sibs: map<nat, Bytes>, h: nat, i: nat, leaves: seq<Bytes>)
    requires |leaves| >= 1 && EndsAt(|leaves|, h, i) && i % 2 == 1
    requires FrontierFrom(f, sibs, leaves, |leaves| - 1, h)
    ensures h in sibs && EndsAt(|leaves|, h + 1, i / 2)
    ensures f(sibs[h], Subtree(f, leaves, h, i)) == Subtree(f, leaves, h + 1, i / 2)
  {
    ChildBounds(h, i / 2);
    assert LastComplete(|leaves| - 1, h, i - 1);
    SubtreeStep(f, leaves, h, i / 2);
  }

  lemma ClimbGoesOn(f: NodeFn, sibs: map<nat, Bytes>, k: nat, h: nat, i: nat, data: Bytes, leaves: seq<Bytes>,
                    sibs': map<nat, Bytes>, nodes: seq<Node>)
    requires EndsAt(|leaves|, h, i) && data == Subtree(f, leaves, h, i)
    requires Climbed(f, sibs[h := data], k, h + 1, leaves, sibs', nodes)
    ensures Climbed(f, sibs, k, h, leaves, sibs', [Node(k, h, i, data)] + nodes)
  {
    assert Get(sibs[h := data], h) == Some(data);
    assert Get(sibs', h) == Get(sibs[h := data], h);
    forall g: nat, j: nat | h <= g && LastComplete(|leaves|, g, j)
      ensures g in sibs' && sibs'[g] == Subtree(f, leaves, g, j)
    {
      if g == h { EndIsLast(|leaves|, h, i, j); }
    }
  }

  lemma EndIsLast(n: nat, h: nat, i: nat, j: nat)
    requires EndsAt(n, h, i) && LastComplete(n, h, j)
    ensures i == j
  {
    assert LastComplete(n, h, i);
    LastCompleteUnique(n, h, i, j);
  }

  /** Where the climb stops at height h, the higher frontier is the old one. */
  lemma StopsHere(n: nat, h: nat, i: nat, g: nat, j: nat)
    requires n >= 1 && EndsAt(n, h, i) && i % 2 == 0 && h <= g && LastComplete(n, g, j)
    ensures g == h ==> i == j
    ensures g > h ==> LastComplete(n - 1, g, j)
  {
    if g == h {
      EndIsLast(n, h, i, j);
    } else {
      OddMultiple(h, i, g, j);
    }
  }

  /** InsertLeaf keeps the frontier and creates exactly the nodes whose block the new leaf completes. */
  lemma InsertRefines(f: NodeFn, t: TreeInfo, leaves: seq<Bytes>, data: Bytes)
    requires |leaves| == t.leafCount && Frontier(f, t.lastSiblings, leaves)
    ensures var (t', nodes) := Insert(f, t, data);
            && t' == t.(lastSiblings := t'.lastSiblings, leafCount := t.leafCount + 1)
            && Frontier(f, t'.lastSiblings, leaves + [data])
            && Ending(f, t.index, leaves + [data], 0, nodes)
  {
    var leaves' := leaves + [data];
    SubtreeLeaf(f, leaves', |leaves|);
    forall h: nat, i: nat | LastComplete(|leaves|, h, i)
      ensures h in t.lastSiblings && t.lastSiblings[h] == Subtree(f, leaves', h, i)
    {
      SubtreePrefix(f, leaves, leaves', h, i);
    }
    ClimbRefines(f, t.lastSiblings, t.index, 0, t.leafCount, data, leaves');
  }

  /** Block i of height h is completed by a leaf after the first m and within the first n. */
  predicate CompletedIn(m: nat, n: nat, h: nat, i: nat)
  {
    m < (i + 1) * Pow2(h) <= n
  }

  /** The nodes are the roots of the blocks completed after the first m leaves: all of them, each once. */
  ghost predicate Completing(f: NodeFn, k: nat, leaves: seq<Bytes>, m: nat, nodes: seq<Node>)
  {
    && (forall j :: 0 <= j < |nodes| ==>
          && nodes[j].treeIndex == k
          && CompletedIn(m, |leaves|, nodes[j].height, nodes[j].localNodeIndex)
          && nodes[j].data == Subtree(f, leaves, nodes[j].height, nodes[j].localNodeIndex))
    && (forall h: nat, i: nat :: CompletedIn(m, |leaves|, h, i) ==> Node(k, h, i, Subtree(f, leaves, h, i)) in nodes)
    && (forall j, j' :: 0 <= j < j' < |nodes| ==>
          nodes[j].height != nodes[j'].height || nodes[j].localNodeIndex != nodes[j'].localNodeIndex)
  }

  /**
   Frontier refinement: after any number of inserts every height keeps the recursive root of its last complete
   block, and the nodes created are exactly the roots of the newly complete blocks, each created once.
   */
  lemma {:induction false} InsertAllRefines(f: NodeFn, t: TreeInfo, before: seq<Bytes>, more: seq<Bytes>)
    requires |before| == t.leafCount && Frontier(f, t.lastSiblings, before)
    ensures var (t', nodes) := InsertAll(f, t, more);
            && t' == t.(lastSiblings := t'.lastSiblings, leafCount := t.leafCount + |more|)
            && Frontier(f, t'.lastSiblings, before + more)
            && Completing(f, t.index, before + more, |before|, nodes)
    decreases |more|
  {
    if |more| == 0 {
      assert before + more == before;
    } else {
      var init, last := more[..|more| - 1], more[|more| - 1];
      InsertAllRefines(f, t, before, init);
      var (t1, nodes1) := InsertAll(f, t, init);
      InsertRefines(f, t1, before + init, last);
      var (t2, nodes2) := Insert(f, t1, last);
      assert before + init + [last] == before + more;
      CompletingExtend(f, t.index, before + init, last, |before|, nodes1, nodes2);
    }
  }

  lemma CompletingExtend(f: NodeFn, k: nat, leaves: seq<Bytes>, last: Bytes, m: nat, nodes1: seq<Node>, nodes2: seq<Node>)
    requires m <= |leaves|
    requires Completing(f, k, leaves, m, nodes1)
    requires Ending(f, k, leaves + [last], 0, nodes2)
    ensures Completing(f, k, leaves + [last], m, nodes1 + nodes2)
  {
    var leaves' := leaves + [last];
    forall h: nat, i: nat | CompletedIn(m, |leaves'|, h, i)
      ensures Node(k, h, i, Subtree(f, leaves', h, i)) in nodes1 + nodes2
    {
      if EndsAt(|leaves'|, h, i) {
        EndingNode(f, k, leaves', nodes2, h, i);
      } else {
        assert CompletedIn(m, |leaves|, h, i);
        SubtreePrefix(f, leaves, leaves', h, i);
      }
    }
    forall j | 0 <= j < |nodes1|
      ensures Complete(|leaves'|, nodes1[j].height, nodes1[j].localNodeIndex)
      ensures nodes1[j].data == Subtree(f, leaves', nodes1[j].height, nodes1[j].localNodeIndex)
    {
      SubtreePrefix(f, leaves, leaves', nodes1[j].height, nodes1[j].localNodeIndex);
    }
  }

  lemma EndingNode(f: NodeFn, k: nat, leaves: seq<Bytes>, nodes: seq<Node>, h: nat, i: nat)
    requires |leaves| >= 1 && Ending(f, k, leaves, 0, nodes) && EndsAt(|leaves|, h, i)
    ensures Node(k, h, i, Subtree(f, leaves, h, i)) in nodes
  {
    var node := nodes[h];
    assert LastComplete(|leaves|, h, node.localNodeIndex);
    EndIsLast(|leaves|, h, i, node.localNodeIndex);
  }

  /** Finalizing a tree returns the recursive root of the padded leaves, and creates the nodes that were missing. */
  lemma FinalizeRefines(f: NodeFn, t: TreeInfo, leaves: seq<Bytes>, extra: TreeExtraData)
    requires |leaves| == t.leafCount && Frontier(f, t.lastSiblings, leaves)
    ensures var r := Finalize(f, t, extra);
            && r.root == StorageRoot(f, leaves)
            && r.tree == t.(done := true, lastSiblings := r.tree.lastSiblings)
            && (|leaves| == 0 ==> r.info == None && r.nodes == [])
            && (|leaves| > 0 ==>
                  && r.info == Some(FinalizedTreeInfo(t.index, TreeHeight(|leaves|), r.root, t.startLeafIndex, |leaves|, extra))
                  && Completing(f, t.index, Padded(leaves), |leaves|, r.nodes))
  {
    if |leaves| > 0 {
      var n, h := |leaves|, TreeHeight(|leaves|);
      LastLeafKept(f, t.lastSiblings, leaves);
      InsertAllRefines(f, t.(done := true), leaves, Repeat(leaves[n - 1], Pow2(h) - n));
      var (t', nodes) := Fill(f, t.(done := true));
      RootKept(f, t'.lastSiblings, Padded(leaves), h);
    }
  }

  lemma LastLeafKept(f: NodeFn, sibs: map<nat, Bytes>, leaves: seq<Bytes>)
    requires |leaves| >= 1 && Frontier(f, sibs, leaves)
    ensures Sibling(sibs, 0) == leaves[|leaves| - 1]
  {
    assert LastComplete(|leaves|, 0, |leaves| - 1);
    SubtreeLeaf(f, leaves, |leaves| - 1);
  }

  lemma RootKept(f: NodeFn, sibs: map<nat, Bytes>, leaves: seq<Bytes>, h: nat)
    requires |leaves| == Pow2(h) && Frontier(f, sibs, leaves)
    ensures Sibling(sibs, h) == Root(f, leaves, h)
  {
    assert LastComplete(|leaves|, h, 0);
    SubtreeWhole(f, leaves, h);
  }

  /** Inserting leaves changes the siblings and the leaf count only. */
  lemma {:induction false} InsertAllFrame(f: NodeFn, t: TreeInfo, leaves: seq<Bytes>)
    ensures var t' := InsertAll(f, t, leaves).0;
            t' == t.(lastSiblings := t'.lastSiblings, leafCount := t.leafCount + |leaves|)
    decreases |leaves|
  {
    if |leaves| > 0 { InsertAllFrame(f, t, leaves[..|leaves| - 1]); }
  }

  // ----- The object -----

  class Merkle {
    var workingTree: Option<TreeInfo>
    const nodeGeneratorFn: NodeFn

    constructor (nodeGeneratorFn: NodeFn)
      ensures this.nodeGeneratorFn == nodeGeneratorFn && workingTree == None
    {
      this.nodeGeneratorFn := nodeGeneratorFn;
      workingTree := None;
    }

    method InitializeWorkingTree(version: nat, treeIndex: nat, startLeafIndex: nat) returns (ok: bool)
      modifies this
      ensures ok == (treeIndex >= 1 && startLeafIndex >= 1)
      ensures workingTree == if ok then Some(EmptyTree(version, treeIndex, startLeafIndex)) else old(workingTree)
    {
      if treeIndex < 1 || startLeafIndex < 1 {
        return false;
      }
      workingTree := Some(TreeInfo(version, treeIndex, startLeafIndex, 0, map[], false));
      return true;
    }

    /** Fails, leaving the raised version behind, only if the next tree index or start is 0. */
    method PrepareWorkingTree(lastWorkingTree: TreeInfo) returns (ok: bool)
      modifies this
      ensures ok == (!lastWorkingTree.done || lastWorkingTree.startLeafIndex + lastWorkingTree.leafCount >= 1)
      ensures workingTree == Some(if ok then Prepare(lastWorkingTree) else lastWorkingTree.(version := lastWorkingTree.version + 1))
    {
      workingTree := Some(lastWorkingTree.(version := lastWorkingTree.version + 1));
      var tree := workingTree.value;
      if tree.done {
        ok := InitializeWorkingTree(tree.version, tree.index + 1, tree.startLeafIndex + tree.leafCount);
        return;
      }
      return true;
    }

    method Height() returns (h: Option<nat>)
      ensures h == if workingTree.None? then None else Some(TreeHeight(workingTree.value.leafCount))
    {
      if workingTree.None? {
        return None;
      }
      var leafCount := workingTree.value.leafCount;
      if leafCount <= 1 {
        return Some(leafCount);
      }
      return Some(BitLen(leafCount - 1));
    }

    method InsertLeaf(data: Bytes) returns (newNodes: Option<seq<Node>>)
      modifies this
      ensures old(workingTree).None? ==> newNodes.None? && workingTree == None
      ensures old(workingTree).Some? ==>
                var (t, nodes) := Insert(nodeGeneratorFn, old(workingTree).value, data);
                newNodes == Some(nodes) && workingTree == Some(t)
    {
      if workingTree.None? {
        return None;
      }
      var tree := workingTree.value;
      var sibs := tree.lastSiblings;
      var height, localNodeIndex, item := 0, tree.leafCount, data;
      var nodes: seq<Node> := [];
      ghost var whole := Climb(nodeGeneratorFn, sibs, tree.index, 0, tree.leafCount, data);
      assert [] + whole.1 == whole.1;
      while true
        invariant var rest := Climb(nodeGeneratorFn, sibs, tree.index, height, localNodeIndex, item);
                  whole.0 == rest.0 && whole.1 == nodes + rest.1
        decreases localNodeIndex
      {
        ghost var rest := Climb(nodeGeneratorFn, sibs, tree.index, height, localNodeIndex, item);
        assert nodes + rest.1 == nodes + [rest.1[0]] + rest.1[1..];
        nodes := nodes + [Node(tree.index, height, localNodeIndex, item)];
        var sibling := Sibling(sibs, height);
        sibs := sibs[height := item];
        if localNodeIndex % 2 == 0 {
          break;
        }
        item := nodeGeneratorFn(sibling, item);
        localNodeIndex := localNodeIndex / 2;
        height := height + 1;
      }
      workingTree := Some(tree.(lastSiblings := sibs, leafCount := tree.leafCount + 1));
      return Some(nodes);
    }

    method FillLeaves() returns (newNodes: Option<seq<Node>>)
      modifies this
      ensures old(workingTree).None? ==> newNodes.None? && workingTree == None
      ensures old(workingTree).Some? ==>
                var (t, nodes) := Fill(nodeGeneratorFn, old(workingTree).value);
                newNodes == Some(nodes) && workingTree == Some(t)
    {
      var height := Height();
      if height.None? {
        return None;
      }
      ghost var start := workingTree.value;
      var numRestLeaves := Pow2(height.value) - workingTree.value.leafCount;
      if numRestLeaves == 0 {
        return Some([]);
      }
      var nodes: seq<Node> := [];
      var lastLeaf := Sibling(workingTree.value.lastSiblings, 0);
      for i := 0 to numRestLeaves
        invariant workingTree.Some?
        invariant InsertAll(nodeGeneratorFn, start, Repeat(lastLeaf, i)) == (workingTree.value, nodes)
        invariant workingTree.value.leafCount == start.leafCount + i
      {
        var more := InsertLeaf(lastLeaf);
        nodes := nodes + more.value;
        assert Repeat(lastLeaf, i + 1)[..i] == Repeat(lastLeaf, i);
      }
      workingTree := Some(workingTree.value.(leafCount := workingTree.value.leafCount - numRestLeaves));
      return Some(nodes);
    }

    method FinalizeWorkingTree(extraData: TreeExtraData)
      returns (info: Option<FinalizedTreeInfo>, newNodes: seq<Node>, root: Option<Bytes>)
      modifies this
      ensures old(workingTree).None? ==> root.None? && workingTree == None
      ensures old(workingTree).Some? ==>
                var r := Finalize(nodeGeneratorFn, old(workingTree).value, extraData);
                workingTree == Some(r.tree) && info == r.info && newNodes == r.nodes && root == Some(r.root)
    {
      if workingTree.None? {
        return None, [], None;
      }
      workingTree := Some(workingTree.value.(done := true));
      if workingTree.value.leafCount == 0 {
        return None, [], Some(EmptyRootHash());
      }
      InsertAllFrame(nodeGeneratorFn, workingTree.value,
                     Repeat(Sibling(workingTree.value.lastSiblings, 0),
                            Pow2(TreeHeight(workingTree.value.leafCount)) - workingTree.value.leafCount));
      var filled := FillLeaves();
      var height := Height();
      var tree := workingTree.value;
      var treeRootHash := Sibling(tree.lastSiblings, height.value);
      return Some(FinalizedTreeInfo(tree.index, height.value, treeRootHash, tree.startLeafIndex, tree.leafCount, extraData)),
             filled.value, Some(treeRootHash);
    }
  }
}
