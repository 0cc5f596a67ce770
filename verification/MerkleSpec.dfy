/**
 The reference definition of a Merkle tree: the plain recursive root of 2^h leaves.
 The incremental tree in MerkleTree.dfy is proved against it.
 */
module MerkleSpec {
  import opened Prelude

  /** The node generator of merkle/merkle.go: hashes two children into their parent. */
  type NodeFn = (Bytes, Bytes) -> Bytes

  /** The contract of the node generator: the order of the two children does not matter. */
  ghost predicate Commutative(f: NodeFn)
  {
    forall x: Bytes, y: Bytes :: f(x, y) == f(y, x)
  }

  function Pow2(h: nat): (p: nat)
    ensures p >= 1
  {
    if h == 0 then 1 else 2 * Pow2(h - 1)
  }

  /** Root of a perfect tree over s, by halving. */
  function Root(f: NodeFn, s: seq<Bytes>, h: nat): Bytes
    requires |s| == Pow2(h)
  {
    if h == 0 then s[0]
    else f(Root(f, s[..Pow2(h - 1)], h - 1), Root(f, s[Pow2(h - 1)..], h - 1))
  }

  /** The i-th block of 2^h leaves lies inside the first n leaves. */
  predicate Complete(n: nat, h: nat, i: nat)
  {
    (i + 1) * Pow2(h) <= n
  }

  /** The i-th block of 2^h leaves is the last one that is complete among n leaves. */
  predicate LastComplete(n: nat, h: nat, i: nat)
  {
    (i + 1) * Pow2(h) <= n < (i + 2) * Pow2(h)
  }

  /** Root of the i-th block of 2^h leaves. */
  function Subtree(f: NodeFn, s: seq<Bytes>, h: nat, i: nat): Bytes
    requires Complete(|s|, h, i)
  {
    BlockBounds(h, i);
    Root(f, s[i * Pow2(h)..(i + 1) * Pow2(h)], h)
  }

  lemma BlockBounds(h: nat, i: nat)
    ensures 0 <= i * Pow2(h) && (i + 1) * Pow2(h) == i * Pow2(h) + Pow2(h)
  {}

  lemma MulDouble(a: int, b: int)
    ensures 2 * (a * b) == a * (2 * b)
  {}

  lemma {:induction false} Pow2Add(a: nat, b: nat)
    ensures Pow2(a + b) == Pow2(a) * Pow2(b)
    decreases b
  {
    if b > 0 {
      Pow2Add(a, b - 1);
      MulDouble(Pow2(a), Pow2(b - 1));
    }
  }

  lemma {:induction false} Pow2Monotone(a: nat, b: nat)
    requires a <= b
    ensures Pow2(a) <= Pow2(b)
  {
    if a < b { Pow2Monotone(a, b - 1); }
  }

  lemma ChildBounds(h: nat, i: nat)
    ensures Pow2(h + 1) == 2 * Pow2(h)
    ensures (2 * i) * Pow2(h) == i * Pow2(h + 1)
    ensures (2 * i + 1) * Pow2(h) == i * Pow2(h + 1) + Pow2(h)
    ensures (2 * i + 2) * Pow2(h) == (i + 1) * Pow2(h + 1) == i * Pow2(h + 1) + Pow2(h + 1)
  {
    var p := Pow2(h);
    assert Pow2(h + 1) == 2 * p;
    assert (2 * i) * p == i * (2 * p);
  }

  /** A parent block is its two children. */
  lemma SubtreeStep(f: NodeFn, s: seq<Bytes>, h: nat, i: nat)
    requires Complete(|s|, h + 1, i)
    ensures Complete(|s|, h, 2 * i) && Complete(|s|, h, 2 * i + 1)
    ensures Subtree(f, s, h + 1, i) == f(Subtree(f, s, h, 2 * i), Subtree(f, s, h, 2 * i + 1))
  {
    ChildBounds(h, i);
    Halves(f, s, h, i * Pow2(h + 1));
  }

  lemma Halves(f: NodeFn, s: seq<Bytes>, h: nat, lo: nat)
    requires lo + Pow2(h + 1) <= |s|
    ensures Root(f, s[lo..lo + Pow2(h + 1)], h + 1) ==
            f(Root(f, s[lo..lo + Pow2(h)], h), Root(f, s[lo + Pow2(h)..lo + Pow2(h + 1)], h))
  {
    var block := s[lo..lo + Pow2(h + 1)];
    assert block[..Pow2(h)] == s[lo..lo + Pow2(h)];
    assert block[Pow2(h)..] == s[lo + Pow2(h)..lo + Pow2(h + 1)];
  }

  /** A block's root depends only on the leaves of the block. */
  lemma SubtreePrefix(f: NodeFn, s: seq<Bytes>, t: seq<Bytes>, h: nat, i: nat)
    requires s <= t && Complete(|s|, h, i)
    ensures Complete(|t|, h, i) && Subtree(f, s, h, i) == Subtree(f, t, h, i)
  {
    BlockBounds(h, i);
    assert s[i * Pow2(h)..(i + 1) * Pow2(h)] == t[i * Pow2(h)..(i + 1) * Pow2(h)];
  }

  lemma SubtreeLeaf(f: NodeFn, s: seq<Bytes>, i: nat)
    requires i < |s|
    ensures Complete(|s|, 0, i) && Subtree(f, s, 0, i) == s[i]
  {}

  lemma SubtreeWhole(f: NodeFn, s: seq<Bytes>, h: nat)
    requires |s| == Pow2(h)
    ensures Complete(|s|, h, 0) && Subtree(f, s, h, 0) == Root(f, s, h)
  {
    assert s[0 * Pow2(h)..1 * Pow2(h)] == s;
  }

  /** An odd multiple of 2^t is no multiple of a higher power of two. */
  lemma OddMultiple(t: nat, i: nat, h: nat, j: nat)
    requires i % 2 == 0 && t < h
    ensures (i + 1) * Pow2(t) != (j + 1) * Pow2(h)
  {
    var q := (j + 1) * Pow2(h - t - 1);
    assert (j + 1) * Pow2(h) == (2 * q) * Pow2(t) by {
      Pow2Add(h - t - 1, t + 1);
      MulAssoc(j + 1, Pow2(h - t - 1), 2 * Pow2(t));
      MulAssoc(q, 2, Pow2(t));
    }
    if i + 1 < 2 * q {
      MulLess(i + 1, 2 * q, Pow2(t));
    } else {
      MulLess(2 * q, i + 1, Pow2(t));
    }
  }

  lemma MulAssoc(a: int, b: int, c: int)
    ensures a * (b * c) == a * b * c
  {}

  lemma MulLess(a: int, b: int, c: int)
    requires c > 0 && a < b
    ensures a * c < b * c && (a + 1) * c <= b * c
  {
    MulDistributes(a + 1, b - a - 1, c);
  }

  lemma MulDistributes(a: int, d: int, c: int)
    ensures (a + d) * c == a * c + d * c
    ensures d >= 0 && c >= 0 ==> d * c >= 0
    ensures (a + 1) * c == a * c + c
  {
  }

  /** A height has at most one last complete block. */
  lemma LastCompleteUnique(n: nat, h: nat, i: nat, j: nat)
    requires LastComplete(n, h, i) && LastComplete(n, h, j)
    ensures i == j
  {
    if i < j { MulLess(i + 1, j + 1, Pow2(h)); }
    if j < i { MulLess(j + 1, i + 1, Pow2(h)); }
  }

  /** Number of bits needed for x, as math/bits.Len64. */
  function BitLen(x: nat): nat
  {
    if x == 0 then 0 else 1 + BitLen(x / 2)
  }

  lemma {:induction false} BitLenBounds(x: nat)
    ensures x < Pow2(BitLen(x))
    ensures x > 0 ==> Pow2(BitLen(x) - 1) <= x
  {
    if x > 0 {
      BitLenBounds(x / 2);
      if x / 2 > 0 { assert Pow2(BitLen(x) - 1) == 2 * Pow2(BitLen(x / 2) - 1); }
    }
  }

  /** The height a tree of n leaves is finalized at: the least H with 2^H >= n, but 1 for a single leaf. */
  function TreeHeight(n: nat): (h: nat)
    ensures n <= Pow2(h) && (n >= 1 ==> h >= 1)
    ensures n >= 2 ==> Pow2(h - 1) < n
  {
    if n <= 1 then n else BitLenBounds(n - 1); BitLen(n - 1)
  }

  function Repeat(x: Bytes, k: nat): (s: seq<Bytes>)
    ensures |s| == k && forall i :: 0 <= i < k ==> s[i] == x
  {
    seq(k, i => x)
  }

  /** The leaves followed by copies of the last one, up to the next power of two (and to two for a single leaf). */
  function Padded(s: seq<Bytes>): (p: seq<Bytes>)
    requires |s| >= 1
    ensures |p| == Pow2(TreeHeight(|s|)) && s <= p
  {
    s + Repeat(s[|s| - 1], Pow2(TreeHeight(|s|)) - |s|)
  }

  /** The root stored for a tree with these leaves; 32 zero bytes when there are none. */
  function StorageRoot(f: NodeFn, s: seq<Bytes>): Bytes
  {
    if |s| == 0 then EmptyRootHash() else Root(f, Padded(s), TreeHeight(|s|))
  }

  function EmptyRootHash(): Bytes
  {
    seq(32, i => 0)
  }
}
