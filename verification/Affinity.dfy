/** Choosing one processor out of an affinity mask. A mask is the sequence of its bits, lowest first. */
module Affinity {

  type Mask = seq<bool>

  /** How many of the lowest `n` bits are set. */
  function CountBelow(mask: Mask, n: nat): (c: nat)
    requires n <= |mask|
    ensures c <= n
  {
    if n == 0 then 0 else CountBelow(mask, n - 1) + if mask[n - 1] then 1 else 0
  }

  /** `k` is the set bit with exactly `rank` set bits below it. */
  predicate IsSetBitOfRank(mask: Mask, k: nat, rank: nat) {
    k < |mask| && mask[k] && CountBelow(mask, k) == rank
  }

  function OnlyBit(width: nat, k: nat): Mask {
    seq(width, i => i == k)
  }

  predicate IsZero(mask: Mask) {
    forall i :: 0 <= i < |mask| ==> !mask[i]
  }

  lemma {:induction false} CountMonotone(mask: Mask, m: nat, n: nat)
    requires m <= n <= |mask|
    ensures CountBelow(mask, m) <= CountBelow(mask, n)
    decreases n - m
  {
    if m < n { CountMonotone(mask, m, n - 1); }
  }

  lemma {:induction false} ZeroExactly(mask: Mask, n: nat)
    requires n <= |mask|
    ensures CountBelow(mask, n) == 0 <==> forall i :: 0 <= i < n ==> !mask[i]
  {
    if n > 0 { ZeroExactly(mask, n - 1); }
  }

  /** The result is the one set bit whose rank is the logical index modulo the number of set bits; it is empty only
      for the empty mask, so the second loop always finds its bit. */
  method SelectAffinityMask(processMask: Mask, logicalIndex: nat) returns (r: Mask)
    ensures IsZero(processMask) ==> r == processMask
    ensures !IsZero(processMask) ==>
              CountBelow(processMask, |processMask|) > 0 &&
              exists k :: IsSetBitOfRank(processMask, k, logicalIndex % CountBelow(processMask, |processMask|))
                          && |r| == |processMask| && (forall i :: 0 <= i < |r| ==> (r[i] <==> i == k))
  {
    ZeroExactly(processMask, |processMask|);
    var count := 0;
    for i := 0 to |processMask|
      invariant count == CountBelow(processMask, i)
    {
      if processMask[i] {
        count := count + 1;
      }
    }
    if count == 0 {
      return processMask;
    }
    var target := logicalIndex % count;
    var seen := 0;
    for i := 0 to |processMask|
      invariant seen == CountBelow(processMask, i) <= target
    {
      if !processMask[i] {
        continue;
      }
      if seen == target {
        assert IsSetBitOfRank(processMask, i, target);
        return OnlyBit(|processMask|, i);
      }
      seen := seen + 1;
    }
    assert false;
    return processMask;
  }

  /** A rank determines its bit, so logical indices below the number of set bits get pairwise different processors. */
  lemma RankIsInjective(mask: Mask, j: nat, k: nat, rank: nat)
    requires IsSetBitOfRank(mask, j, rank) && IsSetBitOfRank(mask, k, rank)
    ensures j == k
  {
    if j < k {
      CountMonotone(mask, j + 1, k);
    } else if k < j {
      CountMonotone(mask, k + 1, j);
    }
  }

  /** Every set bit is reached: its own rank, below the number of set bits, selects it. */
  lemma EverySetBitIsSelected(mask: Mask, k: nat)
    requires k < |mask| && mask[k]
    ensures CountBelow(mask, k) < CountBelow(mask, |mask|)
    ensures IsSetBitOfRank(mask, k, CountBelow(mask, k) % CountBelow(mask, |mask|))
  {
    CountMonotone(mask, k + 1, |mask|);
    SmallModulo(CountBelow(mask, k), CountBelow(mask, |mask|));
  }

  lemma SmallModulo(a: nat, n: nat)
    requires a < n
    ensures a % n == a
  {}
}
