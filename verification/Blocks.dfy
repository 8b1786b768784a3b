/**
 Elements live in blocks of `BLOCK_SIZE` cells.  Block number `k` holds the element indices from
 `Base(k)` up to `Base(k + 1)`.  The block size is a trait of the queue; everything here holds for
 every size above one.
 */
module Blocks {
  import opened Numbers

  type BlockSize = b: nat | b > 1 witness 32

  const BLOCK_SIZE: BlockSize

  /** Blocks are named by their position in the memory of the queue. */
  type BlockId = nat

  function Base(k: int): int { k * BLOCK_SIZE }

  function BlockOf(i: int): int { i / BLOCK_SIZE }

  function Cell(i: int): nat { i % BLOCK_SIZE }

  lemma Locate(i: int)
    ensures Base(BlockOf(i)) <= i < Base(BlockOf(i)) + BLOCK_SIZE
    ensures Cell(i) == i - Base(BlockOf(i)) < BLOCK_SIZE
    ensures i >= 0 ==> BlockOf(i) >= 0
  {
  }

  lemma BaseStep(k: int)
    ensures Base(k + 1) == Base(k) + BLOCK_SIZE
  {
  }

  lemma BaseMonotone(j: int, k: int)
    requires j < k
    ensures Base(j) + BLOCK_SIZE <= Base(k)
    decreases k - j
  {
    BaseStep(k - 1);
    if j < k - 1 {
      BaseMonotone(j, k - 1);
    }
  }

  /** An index between the base of block `k` and the next base lies in block `k`. */
  lemma InBlock(i: int, k: int)
    requires Base(k) <= i < Base(k) + BLOCK_SIZE
    ensures BlockOf(i) == k && Cell(i) == i - Base(k)
  {
    Locate(i);
    if BlockOf(i) < k {
      BaseMonotone(BlockOf(i), k);
    } else if BlockOf(i) > k {
      BaseMonotone(k, BlockOf(i));
    }
  }

  /** The number of blocks that indices below `i` reach into. */
  function BlocksBelow(i: int): int { BlockOf(i - 1) + 1 }

  lemma BlocksBelowBounds(i: int)
    ensures Base(BlocksBelow(i)) - BLOCK_SIZE < i <= Base(BlocksBelow(i))
    ensures i >= 0 ==> BlocksBelow(i) >= 0
    ensures i == Base(BlocksBelow(i)) || BlockOf(i) == BlocksBelow(i) - 1
    ensures (i == Base(BlocksBelow(i))) <==> Cell(i) == 0
    ensures i == Base(BlocksBelow(i)) ==> BlockOf(i) == BlocksBelow(i)
  {
    Locate(i - 1);
    BaseStep(BlockOf(i - 1));
    if i == Base(BlocksBelow(i)) {
      InBlock(i, BlocksBelow(i));
    } else {
      InBlock(i, BlocksBelow(i) - 1);
    }
  }

  /** The index after one in block `k`: in block `k` too, or the base of the next block. */
  lemma NextIndex(i: int, k: int)
    requires Base(k) <= i < Base(k) + BLOCK_SIZE
    ensures BlocksBelow(i + 1) == k + 1
    ensures Cell(i + 1) != 0 ==> BlockOf(i + 1) == k
  {
    InBlock(i, k);
    BlocksBelowBounds(i + 1);
  }

  /** How many of the indices in [lo, hi) lie in block `k`. */
  function Overlap(lo: int, hi: int, k: int): nat {
    Max(0, Min(hi, Base(k) + BLOCK_SIZE) - Max(lo, Base(k)))
  }

  lemma OverlapSplit(lo: int, mid: int, hi: int, k: int)
    requires lo <= mid <= hi
    ensures Overlap(lo, mid, k) + Overlap(mid, hi, k) == Overlap(lo, hi, k)
  {
  }

  /** Indices inside block `k` do not count for any other block. */
  lemma OverlapElsewhere(lo: int, hi: int, k: int, other: int)
    requires Base(k) <= lo <= hi <= Base(k) + BLOCK_SIZE && k != other
    ensures Overlap(lo, hi, other) == 0
  {
    if other < k {
      BaseMonotone(other, k);
    } else {
      BaseMonotone(k, other);
    }
  }
}
