/** The stored trees and the withdrawal proofs read back from them (merkle/db.go). */
module MerkleProofs {
  import opened Prelude
  import opened MerkleSpec
  import opened MerkleTree

  datatype NodeKey = NodeKey(treeIndex: nat, height: nat, localNodeIndex: nat)

  type NodeTable = map<NodeKey, Bytes>
  type FinalizedTable = map<nat, FinalizedTreeInfo>

  /** The node table after saving the nodes in order. */
  function SaveNodes(table: NodeTable, nodes: seq<Node>): NodeTable
  {
    if |nodes| == 0 then table
    else
      var n := nodes[|nodes| - 1];
      SaveNodes(table, nodes[..|nodes| - 1])[NodeKey(n.treeIndex, n.height, n.localNodeIndex) := n.data]
  }

  /** The table holds the root of every complete block of tree k. */
  ghost predicate Stored(f: NodeFn, table: NodeTable, k: nat, leaves: seq<Bytes>)
  {
    forall h: nat, i: nat :: Complete(|leaves|, h, i) ==> Get(table, NodeKey(k, h, i)) == Some(Subtree(f, leaves, h, i))
  }

  /** Saving the newly completed blocks stores the tree, whatever the table held, and touches no other tree. */
  lemma SaveNodesStores(f: NodeFn, table: NodeTable, k: nat, leaves: seq<Bytes>, m: nat, nodes: seq<Node>)
    requires m <= |leaves| && Stored(f, table, k, leaves[..m]) && Completing(f, k, leaves, m, nodes)
    ensures Stored(f, SaveNodes(table, nodes), k, leaves)
    ensures forall key: NodeKey :: key.treeIndex != k ==> Get(SaveNodes(table, nodes), key) == Get(table, key)
  {
    forall h: nat, i: nat | Complete(|leaves|, h, i)
      ensures Get(SaveNodes(table, nodes), NodeKey(k, h, i)) == Some(Subtree(f, leaves, h, i))
    {
      if CompletedIn(m, |leaves|, h, i) {
        var j :| 0 <= j < |nodes| && nodes[j] == Node(k, h, i, Subtree(f, leaves, h, i));
        SavedAt(table, nodes, j);
      } else {
        SubtreePrefix(f, leaves[..m], leaves, h, i);
        SavedElsewhere(table, nodes, NodeKey(k, h, i));
      }
    }
    forall key: NodeKey | key.treeIndex != k
      ensures Get(SaveNodes(table, nodes), key) == Get(table, key)
    {
      SavedElsewhere(table, nodes, key);
    }
  }

  predicate Writes(node: Node, key: NodeKey)
  {
    node.treeIndex == key.treeIndex && node.height == key.height && node.localNodeIndex == key.localNodeIndex
  }

  lemma {:induction false} SavedElsewhere(table: NodeTable, nodes: seq<Node>, key: NodeKey)
    requires forall j :: 0 <= j < |nodes| ==> !Writes(nodes[j], key)
    ensures Get(SaveNodes(table, nodes), key) == Get(table, key)
  {
    if |nodes| > 0 {
      assert !Writes(nodes[|nodes| - 1], key);
      SavedElsewhere(table, nodes[..|nodes| - 1], key);
    }
  }

  lemma {:induction false} SavedAt(table: NodeTable, nodes: seq<Node>, j: nat)
    requires j < |nodes|
    requires forall j' :: j < j' < |nodes| ==> !Writes(nodes[j'], NodeKey(nodes[j].treeIndex, nodes[j].height, nodes[j].localNodeIndex))
    ensures Get(SaveNodes(table, nodes), NodeKey(nodes[j].treeIndex, nodes[j].height, nodes[j].localNodeIndex)) == Some(nodes[j].data)
  {
    if j < |nodes| - 1 {
      assert !Writes(nodes[|nodes| - 1], NodeKey(nodes[j].treeIndex, nodes[j].height, nodes[j].localNodeIndex));
      SavedAt(table, nodes[..|nodes| - 1], j);
    }
  }

  // ----- Proofs -----

  /** The last bit flipped. */
  function Xor1(i: nat): nat
  {
    if i % 2 == 0 then i + 1 else i - 1
  }

  /** The siblings on the way from node i of height h up to height top; None if a read fails. */
  function Siblings(table: NodeTable, k: nat, h: nat, top: nat, i: nat): Option<seq<Bytes>>
    decreases top - h
  {
    if h >= top then Some([])
    else
      var key := NodeKey(k, h, Xor1(i));
      if key !in table then None
      else
        var rest := Siblings(table, k, h + 1, top, i / 2);
        if rest.None? then None else Some([table[key]] + rest.value)
  }

  /** How a proof is checked: hash the leaf with each sibling in turn. */
  function Recompute(f: NodeFn, leaf: Bytes, proof: seq<Bytes>): Bytes
    decreases |proof|
  {
    if |proof| == 0 then leaf else Recompute(f, f(leaf, proof[0]), proof[1..])
  }

  /** Greatest key at or below q. */
  function SeekPrev<V>(table: map<nat, V>, q: nat): (r: Option<nat>)
    ensures r.Some? ==> r.value in table && r.value <= q
    ensures forall n :: n in table && n <= q ==> r.Some? && n <= r.value
  {
    if q in table then Some(q) else if q == 0 then None else SeekPrev(table, q - 1)
  }

  datatype ProofResult =
    | Proof(proofs: seq<Bytes>, treeIndex: nat, root: Bytes, extraData: TreeExtraData)
    | Unfinalized
    | Failed

  /**
   What GetProofs answers. Keys exist but all lie above the leaf index: the seek yields a nil value, which does not
   decode, so the answer is an error and not Unfinalized.
   */
  function ProofsOf(trees: FinalizedTable, table: NodeTable, leafIndex: nat): ProofResult
  {
    if trees == map[] then Unfinalized
    else
      var start := SeekPrev(trees, leafIndex);
      if start.None? then Failed
      else
        var info := trees[start.value];
        if leafIndex < info.startLeafIndex then Failed
        else if leafIndex - info.startLeafIndex >= info.leafCount then Unfinalized
        else
          var proof := Siblings(table, info.treeIndex, 0, info.treeHeight, leafIndex - info.startLeafIndex);
          if proof.None? then Failed else Proof(proof.value, info.treeIndex, info.root, info.extraData)
  }

  method GetProofs(trees: FinalizedTable, table: NodeTable, leafIndex: nat) returns (r: ProofResult)
    ensures r == ProofsOf(trees, table, leafIndex)
  {
    if trees == map[] {
      return Unfinalized;
    }
    var start := SeekPrev(trees, leafIndex);
    if start.None? {
      return Failed;
    }
    var info := trees[start.value];
    if leafIndex < info.startLeafIndex {
      return Failed;
    } else if leafIndex - info.startLeafIndex >= info.leafCount {
      return Unfinalized;
    }
    var proofs: seq<Bytes> := [];
    var height: nat, localNodeIndex: nat := 0, leafIndex - info.startLeafIndex;
    ghost var whole := Siblings(table, info.treeIndex, 0, info.treeHeight, localNodeIndex);
    assert whole.Some? ==> [] + whole.value == whole.value;
    while height < info.treeHeight
      invariant height <= info.treeHeight
      invariant var rest := Siblings(table, info.treeIndex, height, info.treeHeight, localNodeIndex);
                && whole.None? == rest.None?
                && (whole.Some? ==> whole.value == proofs + rest.value)
    {
      var key := NodeKey(info.treeIndex, height, Xor1(localNodeIndex));
      if key !in table {
        return Failed;
      }
      ghost var rest := Siblings(table, info.treeIndex, height + 1, info.treeHeight, localNodeIndex / 2);
      assert rest.Some? ==> proofs + ([table[key]] + rest.value) == proofs + [table[key]] + rest.value;
      proofs := proofs + [table[key]];
      height := height + 1;
      localNodeIndex := localNodeIndex / 2;
    }
    return Proof(proofs, info.treeIndex, info.root, info.extraData);
  }

  /** A node and its sibling are stored and make their parent. */
  lemma SiblingStep(f: NodeFn, table: NodeTable, k: nat, leaves: seq<Bytes>, h: nat, top: nat, i: nat)
    requires Commutative(f) && |leaves| == Pow2(top) && Stored(f, table, k, leaves)
    requires h < top && i < Pow2(top - h)
    ensures i / 2 < Pow2(top - h - 1)
    ensures Complete(|leaves|, h, i) && Complete(|leaves|, h + 1, i / 2)
    ensures NodeKey(k, h, Xor1(i)) in table
    ensures f(Subtree(f, leaves, h, i), table[NodeKey(k, h, Xor1(i))]) == Subtree(f, leaves, h + 1, i / 2)
  {
    InsideTree(h, top, i);
    InsideTree(h, top, Xor1(i));
    InsideTree(h + 1, top, i / 2);
    SubtreeStep(f, leaves, h, i / 2);
    assert Get(table, NodeKey(k, h, Xor1(i))) == Some(Subtree(f, leaves, h, Xor1(i)));
  }

  /** Siblings of a stored perfect tree exist up to its root, and hashing a node with them gives the root. */
  lemma {:induction false} SiblingsRecompute(f: NodeFn, table: NodeTable, k: nat, leaves: seq<Bytes>, h: nat, top: nat, i: nat)
    requires Commutative(f) && |leaves| == Pow2(top) && Stored(f, table, k, leaves)
    requires h <= top && i < Pow2(top - h)
    ensures Complete(|leaves|, h, i)
    ensures var proof := Siblings(table, k, h, top, i);
            && proof.Some? && |proof.value| == top - h
            && Recompute(f, Subtree(f, leaves, h, i), proof.value) == Root(f, leaves, top)
    decreases top - h
  {
    hide Stored, Commutative, Subtree, Root, Complete;
    if h == top {
      SubtreeWhole(f, leaves, top);
    } else {
      SiblingStep(f, table, k, leaves, h, top, i);
      SiblingsRecompute(f, table, k, leaves, h + 1, top, i / 2);
      var sibling := table[NodeKey(k, h, Xor1(i))];
      var rest := Siblings(table, k, h + 1, top, i / 2).value;
      assert ([sibling] + rest)[1..] == rest;
    }
  }

  /** Index bounds at height h of a tree of height top: a node and its sibling are inside together. */
  lemma InsideTree(h: nat, top: nat, i: nat)
    requires h <= top && i < Pow2(top - h)
    ensures Complete(Pow2(top), h, i)
    ensures h < top ==> Xor1(i) < Pow2(top - h) && i / 2 < Pow2(top - h - 1)
  {
    Pow2Add(top - h, h);
    if i + 1 < Pow2(top - h) { MulLess(i + 1, Pow2(top - h), Pow2(h)); }
  }

  /**
   Every leaf of a stored tree has a proof: no read fails, it has one sibling per height, and hashing the leaf with
   the siblings gives the stored root.
   */
  lemma LeafProves(f: NodeFn, table: NodeTable, k: nat, leaves: seq<Bytes>, j: nat)
    requires Commutative(f) && j < |leaves| && Stored(f, table, k, Padded(leaves))
    ensures var proof := Siblings(table, k, 0, TreeHeight(|leaves|), j);
            && proof.Some? && |proof.value| == TreeHeight(|leaves|)
            && Recompute(f, leaves[j], proof.value) == StorageRoot(f, leaves)
  {
    SubtreeLeaf(f, Padded(leaves), j);
    SiblingsRecompute(f, table, k, Padded(leaves), 0, TreeHeight(|leaves|), j);
  }

  /**
   A tree built leaf by leaf and then finalized, over a table with any contents: every leaf proves, against the root
   FinalizeWorkingTree returned.
   */
  lemma BuiltTreeProves(f: NodeFn, table: NodeTable, version: nat, k: nat, start: nat, leaves: seq<Bytes>, extra: TreeExtraData, j: nat)
    requires Commutative(f) && j < |leaves|
    ensures var (t, nodes) := InsertAll(f, EmptyTree(version, k, start), leaves);
            var r := Finalize(f, t, extra);
            && r.info.Some?
            && var answer := ProofsOf(map[start := r.info.value], SaveNodes(SaveNodes(table, nodes), r.nodes), start + j);
            && answer.Proof? && answer.treeIndex == k && answer.root == r.root && answer.extraData == extra
            && |answer.proofs| == TreeHeight(|leaves|)
            && Recompute(f, leaves[j], answer.proofs) == r.root
  {
    hide *;
    BuiltTreeStored(f, table, version, k, start, leaves, extra);
    var (t, nodes) := InsertAll(f, EmptyTree(version, k, start), leaves);
    var r := Finalize(f, t, extra);
    StoredTreeProves(f, SaveNodes(SaveNodes(table, nodes), r.nodes), r.info.value, leaves, j);
  }

  /** The only finalized tree, with its nodes stored, answers for each of its leaves. */
  lemma StoredTreeProves(f: NodeFn, table: NodeTable, info: FinalizedTreeInfo, leaves: seq<Bytes>, j: nat)
    requires Commutative(f) && j < |leaves| && Stored(f, table, info.treeIndex, Padded(leaves))
    requires info.leafCount == |leaves| && info.treeHeight == TreeHeight(|leaves|) && info.root == StorageRoot(f, leaves)
    ensures var answer := ProofsOf(map[info.startLeafIndex := info], table, info.startLeafIndex + j);
            && answer.Proof? && answer.treeIndex == info.treeIndex && answer.root == info.root
            && answer.extraData == info.extraData && |answer.proofs| == TreeHeight(|leaves|)
            && Recompute(f, leaves[j], answer.proofs) == info.root
  {
    hide Stored, Padded, StorageRoot, Siblings, Recompute, TreeHeight, Commutative, ProofsOf;
    var start := info.startLeafIndex;
    var trees := map[start := info];
    assert start in trees && SeekPrev(trees, start + j) == Some(start);
    LeafProves(f, table, info.treeIndex, leaves, j);
    AnswersProof(trees, table, start, start + j);
  }

  /** A leaf index inside the tree found for it is answered from that tree. */
  lemma AnswersProof(trees: FinalizedTable, table: NodeTable, start: nat, leafIndex: nat)
    requires SeekPrev(trees, leafIndex) == Some(start)
    requires trees[start].startLeafIndex == start && leafIndex < start + trees[start].leafCount
    ensures var info := trees[start];
            var proof := Siblings(table, info.treeIndex, 0, info.treeHeight, leafIndex - start);
            proof.Some? ==>
              ProofsOf(trees, table, leafIndex) == Proof(proof.value, info.treeIndex, info.root, info.extraData)
  {
    assert start in trees;
  }

  lemma BuiltTreeStored(f: NodeFn, table: NodeTable, version: nat, k: nat, start: nat, leaves: seq<Bytes>, extra: TreeExtraData)
    requires |leaves| > 0
    ensures var (t, nodes) := InsertAll(f, EmptyTree(version, k, start), leaves);
            var r := Finalize(f, t, extra);
            && r.info == Some(FinalizedTreeInfo(k, TreeHeight(|leaves|), r.root, start, |leaves|, extra))
            && r.root == StorageRoot(f, leaves)
            && Stored(f, SaveNodes(SaveNodes(table, nodes), r.nodes), k, Padded(leaves))
  {
    var e := EmptyTree(version, k, start);
    EmptyFrontier(f);
    InsertAllRefines(f, e, [], leaves);
    assert [] + leaves == leaves;
    var (t, nodes) := InsertAll(f, e, leaves);
    FinalizeRefines(f, t, leaves, extra);
    EmptyStored(f, table, k);
    assert leaves[..0] == [];
    SaveNodesStores(f, table, k, leaves, 0, nodes);
    assert Padded(leaves)[..|leaves|] == leaves;
    SaveNodesStores(f, SaveNodes(table, nodes), k, Padded(leaves), |leaves|, Finalize(f, t, extra).nodes);
  }

  lemma EmptyFrontier(f: NodeFn)
    ensures Frontier(f, map[], [])
  {
    forall h: nat, i: nat | LastComplete(0, h, i)
      ensures false
    {
      BlockBounds(h, i);
    }
  }

  lemma EmptyStored(f: NodeFn, table: NodeTable, k: nat)
    ensures Stored(f, table, k, [])
  {
    forall h: nat, i: nat | Complete(0, h, i)
      ensures false
    {
      BlockBounds(h, i);
    }
  }
}
