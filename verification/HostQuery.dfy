/** The search for the output boundary a node starts from (provider/host/query.go). */
module HostQuery {
  import opened Prelude
  import opened ChildTables
  import opened L1Outputs

  /** k is the last output whose block is strictly below the height; None if there is none. */
  ghost predicate LastBelow(l1: seq<L1Output>, height: nat, r: Option<nat>)
  {
    && (r.Some? ==> 1 <= r.value <= |l1| && BlockOf(l1, r.value) < height)
    && (forall j: nat :: 1 <= j <= |l1| && (r.Some? ==> r.value < j) ==> BlockOf(l1, j) >= height)
  }

  /** Terminates and finds the last output before the height. L1 keeps its outputs in block order. */
  method QueryOutputByL2BlockNumber(l1: seq<L1Output>, l2BlockNumber: nat) returns (r: Option<nat>)
    requires Increasing(l1)
    ensures LastBelow(l1, l2BlockNumber, r)
  {
    if |l1| == 0 {
      return None;
    }
    var start: nat, end: nat := 1, |l1|;
    while true
      invariant 1 <= start <= end <= |l1|
      invariant start > 1 ==> BlockOf(l1, start) <= l2BlockNumber
      invariant end < |l1| ==> BlockOf(l1, end) > l2BlockNumber
      decreases end - start
    {
      OutputsSorted(l1);
      if BlockOf(l1, start) >= l2BlockNumber {
        return if start != 1 then Some(start - 1) else None;
      } else if BlockOf(l1, end) < l2BlockNumber {
        return Some(end);
      } else if end - start <= 1 {
        return Some(start);
      }
      var mid := (start + end) / 2;
      if BlockOf(l1, mid) <= l2BlockNumber {
        start := mid;
      } else {
        end := mid;
      }
    }
  }

  lemma OutputsSorted(l1: seq<L1Output>)
    requires Increasing(l1)
    ensures forall j: nat, k: nat :: j < k <= |l1| ==> BlockOf(l1, j) < BlockOf(l1, k)
  {
    forall j: nat, k: nat | j < k <= |l1|
      ensures BlockOf(l1, j) < BlockOf(l1, k)
    {
      BlockOrder(l1, j, k);
    }
  }

  /** The answer is unique. */
  lemma LastBelowUnique(l1: seq<L1Output>, height: nat, r: Option<nat>, r': Option<nat>)
    requires Increasing(l1) && LastBelow(l1, height, r) && LastBelow(l1, height, r')
    ensures r == r'
  {
    if r.Some? { assert BlockOf(l1, r.value) < height; }
    if r'.Some? { assert BlockOf(l1, r'.value) < height; }
  }

  /** A start at the answer is at an output boundary: the open tree's output, if L1 has it, is for a later block. */
  lemma StartsAtBoundary(ch: Chain, l1: seq<L1Output>, height: nat, r: Option<nat>)
    requires Increasing(l1) && LastBelow(l1, height, r)
    ensures var k := if r.Some? then r.value else 0;
            && Boundary(ch, l1, k).height == BlockOf(l1, k) && Boundary(ch, l1, k).index == k + 1
            && (height > 0 ==> Boundary(ch, l1, k).height < height)
            && (k + 1 <= |l1| ==> BlockOf(l1, k + 1) > Boundary(ch, l1, k).height && BlockOf(l1, k + 1) >= height)
  {
    var k := if r.Some? then r.value else 0;
    if k + 1 <= |l1| { BlockOrder(l1, k, k + 1); }
  }
}
