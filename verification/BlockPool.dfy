/**
 The blocks of a queue and where they come from: a pool allocated with the queue, then the free
 list, then the heap.  Used by one thread at a time, the lock-free free list is a stack; the module
 FreeList covers the interleavings.

 `blocks` holds every block there has ever been, at the position that names it.  `held` are the
 blocks handed out and not yet given back.
 */
module BlockPool {
  import opened Blocks
  import opened Options

  type Element(0, !new)

  /** `cells` are the element slots, `None` where no element is constructed. */
  datatype Block = Block(cells: seq<Option<Element>>, completed: nat, next: Option<BlockId>, dynamic: bool)

  function NoElements(): seq<Option<Element>> { seq(BLOCK_SIZE, _ => None) }

  ghost predicate Blank(b: Block) {
    b.cells == NoElements()
  }

  /** `cells` with `xs` constructed from cell `c` on. */
  function Put(cells: seq<Option<Element>>, c: nat, xs: seq<Element>): (r: seq<Option<Element>>)
    requires c + |xs| <= |cells|
    ensures |r| == |cells|
    ensures forall i :: 0 <= i < |r| ==> r[i] == if c <= i < c + |xs| then Some(xs[i - c]) else cells[i]
  {
    seq(|cells|, i requires 0 <= i < |cells| => if c <= i < c + |xs| then Some(xs[i - c]) else cells[i])
  }

  /** `cells` after the `n` elements from cell `c` on are destroyed. */
  function Wipe(cells: seq<Option<Element>>, c: nat, n: nat): (r: seq<Option<Element>>)
    requires c + n <= |cells|
    ensures |r| == |cells|
    ensures forall i :: 0 <= i < |r| ==> r[i] == if c <= i < c + n then None else cells[i]
  {
    seq(|cells|, i requires 0 <= i < |cells| => if c <= i < c + n then None else cells[i])
  }

  /** `chain` is what a walk along the `next` pointers from `first` on meets. */
  ghost predicate ChainOf(blocks: seq<Block>, first: Option<BlockId>, chain: seq<BlockId>) {
    && first == (if chain == [] then None else Some(chain[0]))
    && (forall i :: 0 <= i < |chain| ==>
          chain[i] < |blocks| && blocks[chain[i]].next == if i + 1 < |chain| then Some(chain[i + 1]) else None)
  }

  lemma ChainStart(blocks: seq<Block>, first: Option<BlockId>, chain: seq<BlockId>)
    requires ChainOf(blocks, first, chain)
    ensures first == if chain == [] then None else Some(chain[0])
  {
  }

  lemma ChainStep(blocks: seq<Block>, first: Option<BlockId>, chain: seq<BlockId>, n: nat)
    requires ChainOf(blocks, first, chain) && n < |chain|
    ensures chain[n] < |blocks| && blocks[chain[n]].next == if n + 1 < |chain| then Some(chain[n + 1]) else None
  {
  }

  /** How many blocks of a chain come back into use when the chain is given back. */
  function Returned(blocks: seq<Block>, recycle: bool, chain: seq<BlockId>): nat {
    if chain == [] then 0
    else
      var last := chain[|chain| - 1];
      Returned(blocks, recycle, chain[..|chain| - 1]) + if recycle || (last < |blocks| && !blocks[last].dynamic) then 1 else 0
  }

  lemma ReturnedNone(blocks: seq<Block>, recycle: bool, chain: seq<BlockId>)
    ensures Returned(blocks, recycle, chain[..0]) == 0
  {
  }

  lemma ReturnedMore(blocks: seq<Block>, recycle: bool, chain: seq<BlockId>, n: nat)
    requires n < |chain| && chain[n] < |blocks|
    ensures Returned(blocks, recycle, chain[..n + 1])
         == Returned(blocks, recycle, chain[..n]) + if recycle || !blocks[chain[n]].dynamic then 1 else 0
  {
    assert chain[..n + 1][..n] == chain[..n];
  }

  /** Blocks are from the heap, or they are not, for good. */
  ghost predicate SameOrigins(was: seq<Block>, now: seq<Block>) {
    |was| <= |now| && forall b :: 0 <= b < |was| ==> now[b].dynamic == was[b].dynamic
  }

  /** Of the blocks `got`, the first `spare` ones were there already, and the others came from the heap. */
  ghost predicate SpareFirst(blocks: seq<Block>, got: seq<BlockId>, spare: int) {
    forall i :: 0 <= i < |got| ==> got[i] < |blocks| && (blocks[got[i]].dynamic <==> i >= spare)
  }

  lemma StillSpareFirst(was: seq<Block>, now: seq<Block>, got: seq<BlockId>, spare: int)
    requires SpareFirst(was, got, spare) && was <= now
    ensures SpareFirst(now, got, spare)
  {
  }

  lemma SpareFirstMore(was: seq<Block>, now: seq<Block>, got: seq<BlockId>, id: BlockId, spare: int)
    requires SpareFirst(was, got, spare) && SameOrigins(was, now)
    requires id < |now| && (now[id].dynamic <==> |got| >= spare)
    ensures SpareFirst(now, got + [id], spare)
  {
  }

  /** Giving back blocks just got returns all of them when blocks are recycled, and else the spare ones. */
  lemma {:induction false} ReturnedOf(blocks: seq<Block>, recycle: bool, got: seq<BlockId>, spare: nat)
    requires !recycle ==> SpareFirst(blocks, got, spare)
    ensures Returned(blocks, recycle, got) == if recycle || |got| <= spare then |got| else spare
  {
    if got != [] {
      ReturnedOf(blocks, recycle, got[..|got| - 1], spare);
    }
  }

  class Pool {
    const recycle: bool            // Traits::RECYCLE_ALLOCATED_BLOCKS
    const initialPoolSize: nat     // the first so many blocks are the initial pool
    var initialPoolIndex: nat
    var freeList: seq<BlockId>
    var blocks: seq<Block>
    ghost var held: set<BlockId>

    ghost predicate Valid()
      reads this
    {
      && initialPoolIndex <= initialPoolSize <= |blocks|
      && (forall b :: 0 <= b < |blocks| ==> |blocks[b].cells| == BLOCK_SIZE)
      && (forall b :: initialPoolIndex <= b < initialPoolSize ==> b !in held && Blank(blocks[b]))
      && (forall i :: 0 <= i < |freeList| ==>
            && freeList[i] < |blocks| && freeList[i] !in held && Blank(blocks[freeList[i]])
            && !(initialPoolIndex <= freeList[i] < initialPoolSize) && (recycle || !blocks[freeList[i]].dynamic))
      && (forall i, j :: 0 <= i < j < |freeList| ==> freeList[i] != freeList[j])
      && (forall b :: b in held ==> b < |blocks|)
      && (forall b :: 0 <= b < |blocks| ==>   // handed out, or to be handed out, or destroyed
            b in held || initialPoolIndex <= b < initialPoolSize || b in freeList || (blocks[b].dynamic && !recycle))
      && (forall b :: 0 <= b < initialPoolSize ==> !blocks[b].dynamic)
    }

    /** How many blocks can be handed out without allocating. */
    function Spare(): int
      reads this
    {
      initialPoolSize - initialPoolIndex + |freeList|
    }

    /** populate_initial_block_list: without memory for it the pool is empty. */
    constructor (blockCount: nat, canAllocate: bool, recycle: bool)
      ensures Valid() && held == {} && this.recycle == recycle
      ensures Spare() == if canAllocate then blockCount else 0
    {
      this.recycle := recycle;
      var n := if canAllocate then blockCount else 0;
      initialPoolSize := n;
      initialPoolIndex := 0;
      freeList := [];
      blocks := seq(n, _ => Block(NoElements(), 0, None, false));
      held := {};
    }

    method TryGetFromInitialPool() returns (block: Option<BlockId>)
      requires Valid()
      modifies this`initialPoolIndex, this`held
      ensures Valid() && (block.None? <==> old(initialPoolIndex) == initialPoolSize)
      ensures block.None? ==> held == old(held) && initialPoolIndex == old(initialPoolIndex)
      ensures block.Some? ==>
                && block.value !in old(held) && held == old(held) + {block.value} && Blank(blocks[block.value])
                && !blocks[block.value].dynamic && initialPoolIndex == old(initialPoolIndex) + 1
    {
      if initialPoolIndex >= initialPoolSize {
        return None;
      }
      block := Some(initialPoolIndex);
      initialPoolIndex := initialPoolIndex + 1;
      held := held + {block.value};
    }

    method TryGetFromFreeList() returns (block: Option<BlockId>)
      requires Valid()
      modifies this`freeList, this`held
      ensures Valid() && (block.None? <==> old(freeList) == [])
      ensures block.None? ==> held == old(held) && freeList == old(freeList)
      ensures block.Some? ==>
                && block.value !in old(held) && held == old(held) + {block.value} && Blank(blocks[block.value])
                && (recycle || !blocks[block.value].dynamic) && |freeList| == |old(freeList)| - 1
    {
      if freeList == [] {
        return None;
      }
      block := Some(freeList[0]);
      freeList := freeList[1..];
      held := held + {block.value};
    }

    /** requisition_block: from the initial pool, or else the free list, or else the heap if allowed. */
    method RequisitionBlock(mayAllocate: bool, canAllocate: bool) returns (block: Option<BlockId>)
      requires Valid()
      modifies this
      ensures Valid() && old(blocks) <= blocks
      ensures block.Some? <==> old(Spare()) > 0 || (mayAllocate && canAllocate)
      ensures block.None? ==> held == old(held) && Spare() == old(Spare())
      ensures block.Some? ==>
                && block.value !in old(held) && held == old(held) + {block.value} && Blank(blocks[block.value])
                && (!recycle ==> (blocks[block.value].dynamic <==> old(Spare()) == 0))
                && Spare() == if old(Spare()) > 0 then old(Spare()) - 1 else 0
    {
      block := TryGetFromInitialPool();
      if block.Some? {
        return;
      }
      block := TryGetFromFreeList();
      if block.Some? {
        return;
      }
      if mayAllocate && canAllocate {
        block := Some(|blocks|);
        blocks := blocks + [Block(NoElements(), 0, None, true)];
        held := held + {block.value};
      }
    }

    /** add_block_to_free_list: a block from the heap is destroyed unless such blocks are recycled. */
    method AddBlockToFreeList(block: BlockId)
      requires Valid() && block in held && Blank(blocks[block])
      modifies this`freeList, this`held
      ensures Valid() && held == old(held) - {block}
      ensures Spare() == old(Spare()) + if recycle || !blocks[block].dynamic then 1 else 0
    {
      held := held - {block};
      if recycle || !blocks[block].dynamic {
        freeList := [block] + freeList;
      }
    }

    /** add_blocks_to_free_list: all blocks of the chain that starts at `first`. */
    method AddBlocksToFreeList(first: Option<BlockId>, ghost chain: seq<BlockId>)
      requires Valid()
      requires ChainOf(blocks, first, chain)
      requires forall i :: 0 <= i < |chain| ==> chain[i] in held && Blank(blocks[chain[i]])
      requires forall i, j :: 0 <= i < j < |chain| ==> chain[i] != chain[j]
      modifies this`freeList, this`held
      ensures Valid() && forall b :: b in held <==> b in old(held) && b !in chain
      ensures Spare() == old(Spare()) + Returned(blocks, recycle, chain)
    {
      hide ChainOf, Blank, Valid, Returned, Spare;
      ChainStart(blocks, first, chain);
      ReturnedNone(blocks, recycle, chain);
      var block := first;
      ghost var n := 0;
      while block.Some?
        invariant 0 <= n <= |chain| && Valid()
        invariant block == if n < |chain| then Some(chain[n]) else None
        invariant forall b :: b in held <==> b in old(held) && b !in chain[..n]
        invariant Spare() == old(Spare()) + Returned(blocks, recycle, chain[..n])
        decreases |chain| - n
      {
        ChainStep(blocks, first, chain, n);
        var next := blocks[block.value].next;
        assert chain[n] !in chain[..n];
        AddBlockToFreeList(block.value);
        assert chain[..n + 1] == chain[..n] + [chain[n]];
        ReturnedMore(blocks, recycle, chain, n);
        block := next;
        n := n + 1;
      }
      assert chain[..n] == chain;
    }

    method ResetEmpty(block: BlockId)
      requires Valid() && block in held
      modifies this`blocks
      ensures Valid() && blocks == old(blocks)[block := old(blocks[block]).(completed := 0)]
    {
      blocks := blocks[block := blocks[block].(completed := 0)];
    }

    /** set_many_empty: `count` more elements are gone; tells whether that makes all of them. */
    method SetManyEmpty(block: BlockId, count: nat) returns (empty: bool)
      requires Valid() && block in held && blocks[block].completed + count <= BLOCK_SIZE
      modifies this`blocks
      ensures Valid() && blocks == old(blocks)[block := old(blocks[block]).(completed := old(blocks[block].completed) + count)]
      ensures empty <==> blocks[block].completed == BLOCK_SIZE
    {
      var prevVal := blocks[block].completed;
      blocks := blocks[block := blocks[block].(completed := prevVal + count)];
      return prevVal + count == BLOCK_SIZE;
    }

    method SetNext(block: BlockId, next: Option<BlockId>)
      requires Valid() && block in held
      modifies this`blocks
      ensures Valid() && blocks == old(blocks)[block := old(blocks[block]).(next := next)]
    {
      blocks := blocks[block := blocks[block].(next := next)];
    }

    /** Construct `xs` in the raw cells of a block from cell `c` on, one after the other. */
    method Construct(block: BlockId, c: nat, xs: seq<Element>)
      requires Valid() && block in held && c + |xs| <= BLOCK_SIZE
      requires forall i :: c <= i < c + |xs| ==> blocks[block].cells[i] == None
      modifies this`blocks
      ensures Valid()
      ensures blocks == old(blocks)[block := old(blocks[block]).(cells := Put(old(blocks[block].cells), c, xs))]
    {
      ghost var before := blocks;
      var n := 0;
      assert Put(before[block].cells, c, []) == before[block].cells;
      while n < |xs|
        invariant 0 <= n <= |xs| && Valid() && held == old(held)
        invariant blocks == before[block := before[block].(cells := Put(before[block].cells, c, xs[..n]))]
      {
        var cells := blocks[block].cells[c + n := Some(xs[n])];
        assert cells == Put(before[block].cells, c, xs[..n + 1]);
        blocks := blocks[block := blocks[block].(cells := cells)];
        n := n + 1;
      }
      assert xs[..n] == xs;
    }

    /** Move out and destroy the `n` elements of a block from cell `c` on, one after the other. */
    method MoveOut(block: BlockId, c: nat, n: nat) returns (xs: seq<Element>)
      requires Valid() && block in held && c + n <= BLOCK_SIZE
      requires forall i :: c <= i < c + n ==> blocks[block].cells[i].Some?
      modifies this`blocks
      ensures Valid() && |xs| == n
      ensures forall i :: c <= i < c + n ==> old(blocks[block].cells[i]) == Some(xs[i - c])
      ensures blocks == old(blocks)[block := old(blocks[block]).(cells := Wipe(old(blocks[block].cells), c, n))]
    {
      ghost var before := blocks;
      xs := [];
      assert Wipe(before[block].cells, c, 0) == before[block].cells;
      while |xs| < n
        invariant |xs| <= n && Valid() && held == old(held)
        invariant forall i :: c <= i < c + |xs| ==> before[block].cells[i] == Some(xs[i - c])
        invariant blocks == before[block := before[block].(cells := Wipe(before[block].cells, c, |xs|))]
      {
        var i := c + |xs|;
        xs := xs + [blocks[block].cells[i].value];
        var cells := blocks[block].cells[i := None];
        assert cells == Wipe(before[block].cells, c, |xs|);
        blocks := blocks[block := blocks[block].(cells := cells)];
      }
    }
  }
}
