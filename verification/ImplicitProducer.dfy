/**
 An implicit producer used without interference: a FIFO queue kept in blocks that come from the
 pool as elements reach them and go back when their last element is taken.
 */
module ImplicitProducer {
  import opened BlockContents
  import opened BlockIndex
  import opened BlockPool
  import opened Blocks
  import opened Numbers
  import opened Options

  /** What malloc answers during one call when asked for the `j`-th block or for index space for it. */
  datatype Memory = Memory(index: nat -> bool, block: nat -> bool, junk: nat -> Option<BlockId>)

  /** A ring that doubles whenever it is full is full with `used` entries: they are `capacity`, or twice that, and so on. */
  ghost predicate RingFull(used: int, capacity: nat)
    decreases used - capacity
  {
    used == capacity || (0 < capacity < used && RingFull(used, 2 * capacity))
  }

  /** What the next blocks are made of: spare ones, and index entries, none when the index is missing. */
  datatype Supplies = Supplies(next: int, head: nat, spare: int, capacity: nat)

  /** The ring is full when the `j`-th block is to be entered. */
  ghost predicate IndexFull(s: Supplies, j: nat) {
    RingFull(s.next + j - BlockOf(s.head), s.capacity)
  }

  /** The supplies left after `j` blocks. */
  ghost predicate LeftOf(was: Supplies, now: Supplies, j: nat) {
    && now.next == was.next + j && now.head == was.head && now.spare == Max(0, was.spare - j)
    && (now.capacity > 0 <==> was.capacity > 0)
    && (forall used :: used >= now.next - BlockOf(now.head) ==> (RingFull(used, now.capacity) <==> RingFull(used, was.capacity)))
  }

  lemma AllLeft(s: Supplies)
    requires s.spare >= 0
    ensures LeftOf(s, s, 0)
  {
  }

  lemma SpareLeft(was: Supplies, now: Supplies, j: nat)
    requires LeftOf(was, now, j)
    ensures now.spare == Max(0, was.spare - j)
  {
  }

  lemma OneLess(was: Supplies, now: Supplies, next: Supplies, j: nat)
    requires LeftOf(was, now, j) && now.capacity > 0 && now.next - BlockOf(now.head) <= now.capacity
    requires next.next == now.next + 1 && next.head == now.head && next.spare == Max(0, now.spare - 1)
    requires next.capacity == if now.next - BlockOf(now.head) < now.capacity then now.capacity else 2 * now.capacity
    ensures LeftOf(was, next, j + 1)
  {
  }

  class Producer {
    const pool: Pool
    const ring: Ring
    const maxSize: Option<nat>     // MAX_SUBQUEUE_SIZE, None when unlimited
    var tailIndex: nat
    var headIndex: nat
    var dequeueOptimisticCount: nat
    var dequeueOvercommit: nat
    var tailBlock: Option<BlockId>

    ghost var log: seq<Element>    // everything ever enqueued

    ghost function Now(): View
      reads ring, pool
    {
      View(pool.blocks, pool.held, ring.live, ring.next)
    }

    /** The parts fit together when the first element not counted as gone is the one at `head`. */
    ghost predicate Core(head: nat)
      reads this`log, pool, ring, ring.Repr, ring.index
    {
      && this !in ring.Repr && pool !in ring.Repr
      && ring.Valid() && ring.Settled() && pool.Valid()
      && Fits(Now(), head, log)
    }

    /** The tail is where the log ends; `tailBlock` matters only inside a block. */
    ghost predicate TailFits()
      reads this`tailIndex, this`tailBlock, this`log, ring
    {
      && tailIndex == |log| && ring.next == BlocksBelow(tailIndex)
      && (Cell(tailIndex) != 0 ==> BlockOf(tailIndex) in ring.live && tailBlock == Some(ring.live[BlockOf(tailIndex)]))
    }

    ghost predicate WithinLimit()
      reads this`headIndex, ring
    {
      maxSize.Some? ==> maxSize.value % BLOCK_SIZE == 0 && Base(ring.next) - headIndex <= maxSize.value
    }

    ghost predicate Valid()
      reads this, pool, ring, ring.Repr, ring.index
    {
      && Core(headIndex) && TailFits() && WithinLimit()
      && dequeueOptimisticCount == headIndex + dequeueOvercommit
    }

    /** The elements inside, in the order they were enqueued. */
    ghost function Contents(): seq<Element>
      requires headIndex <= |log|
      reads this
    {
      log[headIndex..]
    }

    /** No room for a block that starts at `blockStart` under MAX_SUBQUEUE_SIZE. */
    predicate Full(blockStart: int)
      reads this`headIndex
    {
      maxSize.Some? && (maxSize.value == 0 || maxSize.value - BLOCK_SIZE < blockStart - headIndex)
    }

    /** A new producer is empty; its index may be missing. */
    constructor (pool: Pool, maxSize: Option<nat>, initialIndexSize: nat, indexMemory: bool, junk: nat -> Option<BlockId>)
      requires pool.Valid() && initialIndexSize > 1
      requires maxSize.Some? ==> maxSize.value % BLOCK_SIZE == 0
      ensures Valid() && log == [] && this.pool == pool && this.maxSize == maxSize && fresh(ring.Repr)
    {
      this.pool := pool;
      this.maxSize := maxSize;
      var r := new Ring(initialIndexSize, indexMemory, junk);
      ring := r;
      tailIndex, headIndex, dequeueOptimisticCount, dequeueOvercommit := 0, 0, 0, 0;
      tailBlock := None;
      log := [];
      new;
      BlocksBelowBounds(0);
      Locate(0);
      InBlock(0, 0);
    }

    /** Blocks below the tail lie below the next block. */
    lemma TailBlock()
      requires Valid()
      ensures BlockOf(tailIndex) == if Cell(tailIndex) != 0 then ring.next - 1 else ring.next
      ensures Cell(tailIndex) == 0 ==> tailIndex == Base(ring.next)
      ensures tailIndex <= Base(ring.next)
    {
      BlocksBelowBounds(tailIndex);
    }

    /** The entries of the block index, none when it is missing. */
    ghost function Capacity(): nat
      reads ring
    {
      if ring.index == null then 0 else ring.index.Length
    }

    /** Block `id` was taken from such supplies; its entry, from the ring or from one twice the size. */
    ghost predicate Drew(spare: int, capacity: nat, room: bool, blocks: seq<Block>, id: BlockId)
      reads ring, pool
    {
      && pool.Spare() == Max(0, spare - 1)
      && ring.index != null && Capacity() == (if room then capacity else 2 * capacity)
      && SameOrigins(blocks, pool.blocks) && id < |pool.blocks|
      && (!pool.recycle ==> (pool.blocks[id].dynamic <==> spare == 0))
    }

    /**
     insert_block_index_entry and requisition_block for the block with base `blockStart`, undone if
     there is no block.
     */
    method AddBlock(blockStart: int, mayAllocate: bool, indexMemory: bool, blockMemory: bool, junk: nat -> Option<BlockId>)
      returns (block: Option<BlockId>)
      requires Core(headIndex) && blockStart == Base(ring.next)
      modifies ring.Repr, pool
      ensures Core(headIndex) && fresh(ring.Repr - old(ring.Repr))
      ensures old(ring.index) != null ==> ring.index != null
      ensures block.Some? <==>
                && (old(ring.HasRoom()) || (old(ring.index) != null && mayAllocate && indexMemory))
                && (old(pool.Spare()) > 0 || (mayAllocate && blockMemory))
      ensures block.Some? ==> AddsBlock(old(Now()), Now(), block.value)
      ensures block.Some? ==> Drew(old(pool.Spare()), old(Capacity()), old(ring.HasRoom()), old(pool.blocks), block.value)
      ensures block.None? ==> Now() == old(Now()).(blocks := pool.blocks) && old(pool.blocks) <= pool.blocks
      ensures block.None? ==> pool.Spare() == old(pool.Spare())
    {
      var inserted, entry := ring.Insert(blockStart, mayAllocate, indexMemory, junk);
      if inserted {
        block := SupplyBlock(entry, mayAllocate, blockMemory);
      } else {
        block := None;
      }
    }

    lemma HeldAreBlocks()
      requires pool.Valid()
      ensures forall b :: b in pool.held ==> b < |pool.blocks|
    {
    }

    /** requisition_block for the entry just inserted. */
    method SupplyBlock(entry: Entry, mayAllocate: bool, blockMemory: bool) returns (block: Option<BlockId>)
      requires this !in ring.Repr && pool !in ring.Repr && ring.Valid() && pool.Valid()
      requires ring.index != null && ring.first < ring.limit == ring.next && entry == ring.At(0) == ring.loose
      requires Fits(Now().(top := ring.next - 1), headIndex, log)
      modifies ring`tail, ring`top, ring`first, ring`next, ring`limit, ring`loose, ring`live, entry`value, pool
      ensures Core(headIndex)
      ensures block.Some? <==> old(pool.Spare()) > 0 || (mayAllocate && blockMemory)
      ensures block.Some? ==> AddsBlock(old(Now()).(top := old(ring.next) - 1), Now(), block.value)
      ensures block.Some? ==> Drew(old(pool.Spare()), Capacity(), true, old(pool.blocks), block.value)
      ensures block.None? ==>
                Now() == old(Now()).(top := old(ring.next) - 1, blocks := pool.blocks) && old(pool.blocks) <= pool.blocks
      ensures block.None? ==> pool.Spare() == old(pool.Spare())
    {
      hide Pool.Valid, Ring.Valid, Holds;
      HeldAreBlocks();
      ghost var was := Now().(top := ring.next - 1);
      block := pool.RequisitionBlock(mayAllocate, blockMemory);
      if block.None? {
        ring.Retract(entry);
        Untouched(was.blocks, pool.blocks, was.live, headIndex, was.top, log);
        return;
      }
      pool.ResetEmpty(block.value);
      ring.Store(entry, block);
      AddedBlockFits(was, Now(), block.value, headIndex, log);
    }

    method Enqueue(x: Element, mayAllocate: bool, memory: Memory) returns (ok: bool)
      requires Valid()
      modifies this, ring.Repr, pool
      ensures Valid() && fresh(ring.Repr - old(ring.Repr))
      ensures headIndex == old(headIndex) && log == if ok then old(log) + [x] else old(log)
      ensures ok ==> Contents() == old(Contents()) + [x]
      ensures ok <==> old(Cell(tailIndex)) != 0 || old(BlockAvailable(tailIndex, mayAllocate, memory.index(0), memory.block(0)))
      ensures !ok ==> tailBlock == old(tailBlock) && Restored(old(Now()), Now()) && pool.Spare() == old(pool.Spare())
      ensures KeepsOthers(old(Now()), Now())
    {
      hide Ring.Valid, Pool.Valid, KeepsOthers, Restored, BlockAvailable;
      SelfKept();
      ok := true;
      TailBlock();
      if Cell(tailIndex) == 0 {
        ok := StartBlock(mayAllocate, memory);
      }
      if ok {
        ghost var mid := Now();
        Push(x);
        KeepsOthersTwice(old(Now()), mid, Now());
      }
    }

    /** Whether the block with base `blockStart` can be had. */
    ghost predicate BlockAvailable(blockStart: int, mayAllocate: bool, indexMemory: bool, blockMemory: bool)
      reads this`headIndex, ring, pool
    {
      && !Full(blockStart)
      && (ring.HasRoom() || (ring.index != null && mayAllocate && indexMemory))
      && (pool.Spare() > 0 || (mayAllocate && blockMemory))
    }

    /** The tail is at a block boundary: start a new block. */
    method StartBlock(mayAllocate: bool, memory: Memory) returns (ok: bool)
      requires Valid() && Cell(tailIndex) == 0
      modifies this`tailBlock, ring.Repr, pool
      ensures Core(headIndex) && WithinLimit() && fresh(ring.Repr - old(ring.Repr))
      ensures ok <==> old(BlockAvailable(tailIndex, mayAllocate, memory.index(0), memory.block(0)))
      ensures ok ==> BlockOf(tailIndex) == ring.next - 1 && BlockOf(tailIndex) in ring.live && tailBlock == Some(ring.live[BlockOf(tailIndex)])
      ensures !ok ==> Valid() && tailBlock == old(tailBlock) && Restored(old(Now()), Now()) && pool.Spare() == old(pool.Spare())
      ensures KeepsOthers(old(Now()), Now())
    {
      hide Pool.Valid;
      HeldAreBlocks();
      TailBlock();
      if Full(tailIndex) {
        return false;
      }
      var newBlock := AddBlock(tailIndex, mayAllocate, memory.index(0), memory.block(0), memory.junk);
      if newBlock.None? {
        return false;
      }
      AddedBlockKeepsOthers(old(Now()), Now(), newBlock.value, headIndex, log);
      BaseStep(ring.next - 1);
      tailBlock := newBlock;
      return true;
    }

    /** Construct an element in the tail block, and publish it. */
    method Push(x: Element)
      requires Core(headIndex) && WithinLimit()
      requires tailIndex == |log| && BlockOf(tailIndex) == ring.next - 1
      requires dequeueOptimisticCount == headIndex + dequeueOvercommit
      requires BlockOf(tailIndex) in ring.live && tailBlock == Some(ring.live[BlockOf(tailIndex)])
      modifies this`tailIndex, this`log, pool`blocks
      ensures Valid() && log == old(log) + [x] && KeepsOthers(old(Now()), Now())
    {
      hide Ring.Valid, Pool.Valid, KeepsOthers, Fits;
      Locate(tailIndex);
      BaseStep(ring.next - 1);
      NextIndex(tailIndex, ring.next - 1);
      ConstructRun(tailIndex, [x]);
      tailIndex := tailIndex + 1;
    }

    /** Construct elements in consecutive cells of the tail block. */
    method ConstructRun(currentTailIndex: nat, xs: seq<Element>)
      requires currentTailIndex == |log| && Core(headIndex) && Cell(|log|) + |xs| <= BLOCK_SIZE && |log| + |xs| <= Base(ring.next)
      requires BlockOf(|log|) in ring.live && tailBlock == Some(ring.live[BlockOf(|log|)])
      modifies this`log, pool`blocks
      ensures Core(headIndex) && log == old(log) + xs && KeepsOthers(old(Now()), Now())
      ensures SameLinks(old(pool.blocks), pool.blocks)
    {
      hide Ring.Valid, Pool.Valid;
      Append(pool.blocks, ring.live, headIndex, ring.next, log, xs);
      pool.Construct(tailBlock.value, Cell(currentTailIndex), xs);
      log := log + xs;
      OwnBlockOnly(old(Now()), Now(), tailBlock.value);
    }

    /**
     Take `n` elements from `index` on out of the block at slot `idx` and count them; the block leaves
     the index and goes back when they were its last.
     */
    method TakeRun(idx: nat, index: nat, n: nat) returns (xs: seq<Element>)
      requires Core(index) && TailFits() && BlockOf(index) in ring.live && ring.Finds(idx, BlockOf(index))
      requires index < |log| && index + n <= |log| && Cell(index) + n <= BLOCK_SIZE
      modifies EntryAt(idx)`value, ring`live, pool
      ensures Core(index + n) && TailFits() && xs == log[index..index + n]
      ensures KeepsOthers(old(Now()), Now())
    {
      ghost var was := Now();
      ring.EntryOf(idx, BlockOf(index));
      var entry := EntryAt(idx);
      var block := entry.value.value;
      var empty;
      xs, empty := MoveOutAndCount(block, index, n);
      ghost var mid := Now();
      OwnBlockOnly(was, mid, block);
      if empty {
        ReleaseBlock(idx, BlockOf(index), index + n);
        KeepsOthersTwice(was, mid, Now());
      }
    }

    function EntryAt(idx: nat): Entry
      requires ring.index != null && idx < ring.index.Length
      reads ring, ring.index
    {
      ring.index[idx]
    }

    /** Block `k` is empty: it leaves the index, then goes back to the pool. */
    method ReleaseBlock(idx: nat, ghost k: int, ghost head: nat)
      requires this !in ring.Repr && pool !in ring.Repr && ring.Valid() && ring.Settled() && pool.Valid()
      requires k in ring.live && ring.Finds(idx, k) && TailFits()
      requires forall j :: j in ring.live ==> ring.live[j] in pool.held
      requires forall j :: j in ring.live && j != k ==> ring.live[j] != ring.live[k]
      requires Blank(pool.blocks[ring.live[k]]) && Holds(pool.blocks, ring.live - {k}, head, ring.next, log)
      modifies EntryAt(idx)`value, ring`live, pool`freeList, pool`held
      ensures Core(head) && TailFits() && KeepsOthers(old(Now()), Now())
    {
      ghost var was := Now();
      ring.EntryOf(idx, k);
      var entry := EntryAt(idx);
      var block := entry.value.value;
      ring.ClearEntry(entry, idx, k);
      pool.AddBlockToFreeList(block);
      GivenBack(was, Now(), k);
      TailStaysLive(was.live, head);
    }

    /** When blocks below the tail are released, the block of the tail stays. */
    lemma TailStaysLive(wasLive: map<int, BlockId>, head: nat)
      requires Core(head) && tailIndex == |log| && ring.next == BlocksBelow(tailIndex)
      requires Cell(tailIndex) != 0 ==> BlockOf(tailIndex) in wasLive && tailBlock == Some(wasLive[BlockOf(tailIndex)])
      requires forall k :: k in ring.live ==> k in wasLive && ring.live[k] == wasLive[k]
      ensures TailFits()
    {
      if Cell(tailIndex) != 0 {
        BlocksBelowBounds(tailIndex);
        TailIsLive(pool.blocks, ring.live, head, ring.next, log);
      }
    }

    /** Move `n` elements from `index` on out of their block and count them in it. */
    method MoveOutAndCount(block: BlockId, index: nat, n: nat) returns (xs: seq<Element>, empty: bool)
      requires Core(index) && index < |log| && index + n <= |log| && Cell(index) + n <= BLOCK_SIZE
      requires BlockOf(index) in ring.live && block == ring.live[BlockOf(index)]
      modifies pool`blocks
      ensures pool.Valid() && xs == log[index..index + n] && (empty <==> Cell(index) + n == BLOCK_SIZE)
      ensures |pool.blocks| == |old(pool.blocks)|
      ensures forall b :: 0 <= b < |pool.blocks| && b != block ==> pool.blocks[b] == old(pool.blocks[b])
      ensures !empty ==> Core(index + n)
      ensures empty ==> Blank(pool.blocks[block])
      ensures empty ==> Holds(pool.blocks, ring.live - {BlockOf(index)}, index + n, ring.next, log)
    {
      hide Ring.Valid, Pool.Valid;
      ghost var was := pool.blocks;
      Front(pool.blocks, ring.live, index, ring.next, log, n);
      xs := pool.MoveOut(block, Cell(index), n);
      FrontMoved(was[block].cells, Cell(index), index, log, xs);
      empty := pool.SetManyEmpty(block, n);
      Drain(was, pool.blocks, ring.live, index, ring.next, log, n);
    }

    /** Find the element at `index` and take it. */
    method TakeOne(index: nat) returns (x: Element)
      requires Core(index) && index < |log| && TailFits()
      modifies ring.Repr, pool
      ensures Core(index + 1) && TailFits() && x == log[index] && ring.Repr == old(ring.Repr)
      ensures KeepsOthers(old(Now()), Now())
    {
      Locate(index);
      Front(pool.blocks, ring.live, index, ring.next, log, 1);
      var slot := ring.Lookup(index);
      ring.EntryOf(slot, BlockOf(index));
      hide Ring.Valid, Pool.Valid, KeepsOthers, Holds;
      var xs := TakeRun(slot, index, 1);
      return xs[0];
    }

    method Dequeue() returns (element: Option<Element>)
      requires Valid()
      modifies this, ring.Repr, pool
      ensures Valid() && ring.Repr == old(ring.Repr) && log == old(log) && tailIndex == old(tailIndex)
      ensures element == if old(Contents()) == [] then None else Some(old(Contents())[0])
      ensures Contents() == if old(Contents()) == [] then [] else old(Contents())[1..]
      ensures KeepsOthers(old(Now()), Now())
    {
      hide Ring.Valid, Pool.Valid, KeepsOthers;
      SelfKept();
      var claimed := ClaimOne();
      if claimed {
        var x := TakeOne(headIndex - 1);
        return Some(x);
      }
      return None;
    }

    /** The counters of `dequeue`: claim the element at the head if there is one. */
    method ClaimOne() returns (claimed: bool)
      requires headIndex <= tailIndex && dequeueOptimisticCount == headIndex + dequeueOvercommit
      modifies this`dequeueOptimisticCount, this`headIndex, this`dequeueOvercommit
      ensures claimed <==> old(headIndex) < tailIndex
      ensures headIndex == old(headIndex) + if claimed then 1 else 0
      ensures dequeueOptimisticCount == headIndex + dequeueOvercommit
    {
      var tail := tailIndex;
      var overcommit := dequeueOvercommit;
      if dequeueOptimisticCount - overcommit < tail {
        var myDequeueCount := dequeueOptimisticCount;
        dequeueOptimisticCount := dequeueOptimisticCount + 1;
        tail := tailIndex;
        if myDequeueCount - overcommit < tail {
          headIndex := headIndex + 1;
          return true;
        } else {
          assert false;   // nobody claims in between; ClaimProtocol has the other case
        }
      }
      return false;
    }

    /** The counters of `dequeue_bulk`: claim up to `max` elements; none at all only if there are none. */
    method ClaimMany(max: nat) returns (claimed: bool, n: nat)
      requires headIndex <= tailIndex && dequeueOptimisticCount == headIndex + dequeueOvercommit
      modifies this`dequeueOptimisticCount, this`headIndex, this`dequeueOvercommit
      ensures claimed <==> old(headIndex) < tailIndex
      ensures n == Min(max, tailIndex - old(headIndex)) && headIndex == old(headIndex) + n
      ensures dequeueOptimisticCount == headIndex + dequeueOvercommit
    {
      var tail := tailIndex;
      var overcommit := dequeueOvercommit;
      var desiredCount := tail - (dequeueOptimisticCount - overcommit);
      if 0 < desiredCount {
        desiredCount := if desiredCount < max then desiredCount else max;
        var myDequeueCount := dequeueOptimisticCount;
        dequeueOptimisticCount := dequeueOptimisticCount + desiredCount;
        tail := tailIndex;
        var actualCount := tail - (myDequeueCount - overcommit);
        if 0 < actualCount {
          actualCount := if desiredCount < actualCount then desiredCount else actualCount;
          if actualCount < desiredCount {
            assert false;   // as above
          }
          headIndex := headIndex + actualCount;
          return true, actualCount;
        } else {
          assert false;
        }
      }
      return false, 0;
    }

    method DequeueBulk(max: nat) returns (items: seq<Element>)
      requires Valid()
      modifies this, ring.Repr, pool
      ensures Valid() && ring.Repr == old(ring.Repr) && log == old(log) && tailIndex == old(tailIndex)
      ensures items == old(Contents())[..Min(max, |old(Contents())|)]
      ensures Contents() == old(Contents())[Min(max, |old(Contents())|)..]
      ensures KeepsOthers(old(Now()), Now())
    {
      hide Ring.Valid, Pool.Valid, KeepsOthers;
      SelfKept();
      var firstIndex := headIndex;
      var claimed, count := ClaimMany(max);
      items := [];
      if claimed {
        items := TakeAll(firstIndex, count);
      }
    }

    /** Iterate the blocks that hold the `count` elements from `firstIndex` on, and take them. */
    method TakeAll(firstIndex: nat, count: nat) returns (items: seq<Element>)
      requires Core(firstIndex) && firstIndex < |log| && firstIndex + count <= |log| && TailFits()
      requires this !in ring.Repr
      modifies ring.Repr, pool
      ensures ring.Repr == old(ring.Repr)
      ensures Core(firstIndex + count) && TailFits() && items == log[firstIndex..firstIndex + count]
      ensures KeepsOthers(old(Now()), Now())
    {
      hide *;
      var index := firstIndex;
      var indexIndex := FindFirst(index);
      items := [];
      while true
        invariant Core(index) && TailFits() && firstIndex <= index < |log| && index <= firstIndex + count
        invariant items == log[firstIndex..index] && KeepsOthers(old(Now()), Now())
        invariant At(indexIndex, index) && ring.Repr == old(ring.Repr)
        decreases firstIndex + count - index
      {
        var xs, next := TakeFromBlock(indexIndex, index, firstIndex + count, old(Now()));
        Slices(log, firstIndex, index, index + |xs|);
        items := items + xs;
        index := index + |xs|;
        if index == firstIndex + count {
          break;
        }
        indexIndex := next;
      }
    }

    /** Slot `idx` is the one of the block that holds index `i`. */
    ghost predicate At(idx: nat, i: int)
      reads ring, ring.index
    {
      BlockOf(i) in ring.live && ring.Finds(idx, BlockOf(i))
    }

    method FindFirst(index: nat) returns (slot: nat)
      requires Core(index) && index < |log|
      ensures At(slot, index) && KeepsOthers(Now(), Now())
    {
      Locate(index);
      Front(pool.blocks, ring.live, index, ring.next, log, 0);
      slot := ring.Lookup(index);
    }

    /** Take the elements from `index` on that are in the same block and below `stop`; go to the next slot. */
    method TakeFromBlock(idx: nat, index: nat, stop: nat, ghost was: View) returns (xs: seq<Element>, next: nat)
      requires Core(index) && index <= stop <= |log| && index < |log| && TailFits() && At(idx, index)
      requires KeepsOthers(was, Now())
      modifies ring.Repr, pool
      ensures Core(index + |xs|) && TailFits() && index + |xs| <= stop && xs == log[index..index + |xs|]
      ensures index + |xs| == stop || (index < index + |xs| && At(next, index + |xs|))
      ensures KeepsOthers(was, Now()) && ring.Repr == old(ring.Repr)
    {
      hide Ring.Valid, Pool.Valid, KeepsOthers, Holds, TailFits;
      ghost var mid := Now();
      ghost var k := BlockOf(index);
      var endIndex := EndOfRun(index, stop);
      ring.EntryOf(idx, k);
      xs := TakeRun(idx, index, endIndex - index);
      KeepsOthersTwice(was, mid, Now());
      if endIndex < stop {
        Front(pool.blocks, ring.live, endIndex, ring.next, log, 0);
        ring.SlotAfter(idx, k);
      }
      next := (idx + 1) % ring.index.Length;
    }

    /**
     One round of the reservation loop of `enqueue_bulk`: add a block, end the chain with it, and hang
     it behind the tail block if that is part of the chain.
     */
    method ReserveOne(blockStart: int, link: bool, mayAllocate: bool, indexMemory: bool, blockMemory: bool,
                      junk: nat -> Option<BlockId>, ghost r: Reservation)
      returns (block: Option<BlockId>)
      requires this !in ring.Repr && Core(headIndex) && WithinLimit() && blockStart == Base(ring.next)
      requires InProgress(r, Now(), tailBlock) && (link <==> r.start.Some? || r.got != [])
      modifies this`tailBlock, ring.Repr, pool
      ensures Core(headIndex) && WithinLimit() && fresh(ring.Repr - old(ring.Repr))
      ensures old(ring.index) != null ==> ring.index != null
      ensures block.Some? <==> old(BlockAvailable(blockStart, mayAllocate, indexMemory, blockMemory))
      ensures block.None? ==> InProgress(r, Now(), tailBlock) && ring.next == old(ring.next) && tailBlock == old(tailBlock)
      ensures block.None? ==> pool.Spare() == old(pool.Spare()) && old(pool.blocks) <= pool.blocks
      ensures block.Some? ==> Drew(old(pool.Spare()), old(Capacity()), old(ring.HasRoom()), old(pool.blocks), block.value)
      ensures block.Some? ==>
                tailBlock == block && InProgress(r.More(block.value), Now(), tailBlock) && ring.next == old(ring.next) + 1
    {
      hide Ring.Valid, Ring.HasRoom, Pool.Valid, Core, InProgress, Extended, Chained, Holds, Fits;
      if Full(blockStart) {
        return None;
      }
      ghost var mid := Now();
      block := AddBlock(blockStart, mayAllocate, indexMemory, blockMemory, junk);
      if block.None? {
        StillInProgress(r, mid, Now(), tailBlock);
      } else {
        BaseStep(ring.next - 1);
        AddsToReservation(r, mid, Now(), tailBlock, block.value);
        LinkBlock(block.value, link, r);
      }
    }

    /** The block just added becomes the tail block, and the last of the chain. */
    method LinkBlock(block: BlockId, link: bool, ghost r: Reservation)
      requires Core(headIndex) && (link <==> r.start.Some? || r.got != [])
      requires Adding(r, Now(), tailBlock, block)
      modifies this`tailBlock, pool`blocks
      ensures Core(headIndex) && tailBlock == Some(block) && InProgress(r.More(block), Now(), tailBlock)
      ensures SameOrigins(old(pool.blocks), pool.blocks) && |pool.blocks| == |old(pool.blocks)|
    {
      hide Ring.Valid, Pool.Valid, Core, Extended, Chained, Holds, Fits;
      ghost var was := pool.blocks;
      MembersOfReservation(r, Now(), tailBlock, block);
      Relink(block, None, r.was, r.got + [block]);
      if link {
        Relink(tailBlock.value, Some(block), r.was, r.got + [block]);
      }
      NowInProgress(r, was, Now(), tailBlock, block);
      tailBlock := Some(block);
    }

    /** Set where a block of the reservation points, or the block it continues. */
    method Relink(block: BlockId, next: Option<BlockId>, ghost was: View, ghost got: seq<BlockId>)
      requires Core(headIndex) && Extended(was, Now(), got) && (Uses(was.live, block) || block in got)
      requires forall k :: k in was.live ==> was.live[k] in was.held
      modifies pool`blocks
      ensures Core(headIndex) && Extended(was, Now(), got)
      ensures block < |old(pool.blocks)| && pool.blocks == old(pool.blocks)[block := old(pool.blocks[block]).(next := next)]
    {
      ghost var mid := Now();
      pool.SetNext(block, next);
      RelinkedFits(mid, Now(), block, headIndex, log);
      RelinkedExtended(was, mid, Now(), got, block);
    }

    /** Failure of a bulk enqueue: take the blocks of the chain out of the index, then give them all back. */
    method Undo(first: Option<BlockId>, firstBase: int, ghost r: Reservation, ghost last: Option<BlockId>)
      requires Core(headIndex) && InProgress(r, Now(), last) && first == r.first && firstBase == Base(r.was.top)
      requires Fits(r.was, headIndex, log)
      modifies ring.Repr, pool
      ensures Core(headIndex) && ring.Repr == old(ring.Repr) && Restored(r.was, Now())
      ensures pool.blocks == old(pool.blocks) && pool.Spare() == old(pool.Spare()) + Returned(pool.blocks, pool.recycle, r.got)
    {
      hide Ring.Valid, Pool.Valid, Blank, InProgress, Extended, Chained, Restored, Fits;
      ghost var v := Now();
      ReservationChain(r, v, last);
      UnlinkAll(first, firstBase, r.got, r.was.live, r.was.top);
      pool.AddBlocksToFreeList(first, r.got);
      UndoneIsRestored(r, v, Now(), last, headIndex, log);
    }

    method UnlinkAll(first: Option<BlockId>, firstBase: int, ghost got: seq<BlockId>, ghost live: map<int, BlockId>, ghost top: int)
      requires ring.Valid() && ring.Settled() && pool !in ring.Repr && this !in ring.Repr
      requires firstBase == Base(top) && ring.next == top + |got| && ChainOf(pool.blocks, first, got)
      requires Plus(ring.live, live, top, ring.next) && first == if got == [] then None else Some(got[0])
      modifies ring.Repr
      ensures ring.Valid() && ring.Settled() && ring.live == live && ring.next == top
      ensures ring.Repr == old(ring.Repr)
    {
      assert got != [] ==> top in ring.live && ring.first <= top;
      assert forall k :: k in live ==> k < top;
      hide Ring.Valid, Base, BlockOf, Plus, ChainOf;
      var block := first;
      var currentTailIndex := firstBase;
      ghost var n := 0;
      while block.Some?
        invariant 0 <= n <= |got| && currentTailIndex == Base(top + n)
        invariant block == if n < |got| then Some(got[n]) else None
        invariant ring.Valid() && ring.loose == null && ring.Repr == old(ring.Repr)
        invariant ring.first == old(ring.first) && ring.limit == old(ring.limit) && ring.next == old(ring.next) - n
        invariant Plus(ring.live, live, top + n, top + |got|)
        decreases |got| - n
      {
        BaseStep(top + n);
        InBlock(currentTailIndex, top + n);
        PlusLess(ring.live, live, top + n, top + |got|);
        ChainStep(pool.blocks, first, got, n);
        ring.Unlink(currentTailIndex);
        currentTailIndex := currentTailIndex + BLOCK_SIZE;
        block := pool.blocks[block.value].next;
        n := n + 1;
      }
      PlusNone(ring.live, live, top + n);
      ring.Settle();
    }

    /** The tail block if elements can still go into it. */
    ghost function Start(): Option<BlockId>
      reads this`tailIndex, this`tailBlock
    {
      if Cell(tailIndex) != 0 then tailBlock else None
    }

    ghost function Stock(): Supplies
      reads this`headIndex, ring, pool
    {
      Supplies(ring.next, headIndex, pool.Spare(), Capacity())
    }

    /** Whether the `j`-th block from now on can be had, once those before it were. */
    ghost predicate Obtainable(s: Supplies, j: nat, mayAllocate: bool, memory: Memory)
      reads this`headIndex
    {
      && !Full(Base(s.next + j)) && s.capacity > 0
      && (IndexFull(s, j) ==> mayAllocate && memory.index(j))
      && (j >= s.spare ==> mayAllocate && memory.block(j))
    }

    /**
     Whether the next `needed` blocks can be had: they are within the limit, and memory answers for
     those the pool cannot supply, and for the index whenever that is full.
     */
    ghost predicate Suffices(s: Supplies, needed: int, mayAllocate: bool, memory: Memory)
      reads this`headIndex
    {
      needed > 0 ==>
        && !Full(Base(s.next + needed - 1)) && s.capacity > 0
        && (forall j: nat :: j < needed && IndexFull(s, j) ==> mayAllocate && memory.index(j))
        && (forall j: nat :: s.spare <= j < needed ==> mayAllocate && memory.block(j))
    }

    lemma AllObtainable(s: Supplies, needed: nat, mayAllocate: bool, memory: Memory)
      requires forall j: nat :: j < needed ==> Obtainable(s, j, mayAllocate, memory)
      ensures Suffices(s, needed, mayAllocate, memory)
    {
      if needed > 0 {
        assert Obtainable(s, needed - 1, mayAllocate, memory);
      }
      forall j: nat | j < needed
        ensures IndexFull(s, j) ==> mayAllocate && memory.index(j)
        ensures j >= s.spare ==> mayAllocate && memory.block(j)
      {
        assert Obtainable(s, j, mayAllocate, memory);
      }
    }

    lemma NotObtainable(s: Supplies, j: nat, needed: nat, mayAllocate: bool, memory: Memory)
      requires j < needed && !Obtainable(s, j, mayAllocate, memory)
      ensures !Suffices(s, needed, mayAllocate, memory)
    {
      if j < needed - 1 {
        BaseMonotone(s.next + j, s.next + needed - 1);
      }
      var indexMemory, blockMemory := memory.index(j), memory.block(j);
      assert IndexFull(s, j) && !indexMemory ==> !Suffices(s, needed, mayAllocate, memory);
      assert j >= s.spare && !blockMemory ==> !Suffices(s, needed, mayAllocate, memory);
    }

    /** The entry after the tail is free as long as the blocks in use do not fill the ring. */
    lemma Room()
      requires Core(headIndex)
      ensures ring.HasRoom() <==> ring.next - BlockOf(headIndex) < Capacity()
      ensures ring.index != null ==> ring.next - BlockOf(headIndex) <= Capacity()
    {
      TopIsNext(headIndex, ring.next, |log|);
      assert BlockOf(headIndex) < ring.next <==> BlockOf(headIndex) in ring.live;
    }

    lemma NextObtainable(s: Supplies, j: nat, mayAllocate: bool, memory: Memory)
      requires Core(headIndex) && LeftOf(s, Stock(), j)
      ensures BlockAvailable(Base(ring.next), mayAllocate, memory.index(j), memory.block(j)) <==> Obtainable(s, j, mayAllocate, memory)
    {
      Room();
      hide Core;
      assert RingFull(ring.next - BlockOf(headIndex), Capacity()) <==> RingFull(ring.next - BlockOf(headIndex), s.capacity);
    }

    /** Get the blocks for `count` more elements. */
    method Reserve(count: nat, mayAllocate: bool, memory: Memory)
      returns (ok: bool, first: Option<BlockId>, ghost r: Reservation)
      requires Valid()
      modifies this`tailBlock, ring.Repr, pool
      ensures Core(headIndex) && WithinLimit() && fresh(ring.Repr - old(ring.Repr))
      ensures InProgress(r, Now(), tailBlock) && first == r.first
      ensures r.was == old(Now()) && r.start == old(Start()) && (r.got == [] ==> tailBlock == old(tailBlock))
      ensures ok ==> ring.next == BlocksBelow(tailIndex + count)
      ensures ok <==> old(Suffices(Stock(), BlocksBelow(tailIndex + count) - ring.next, mayAllocate, memory))
      ensures pool.Spare() == Max(0, old(pool.Spare()) - |r.got|)
      ensures !pool.recycle ==> SpareFirst(pool.blocks, r.got, old(pool.Spare()))
    {
      hide Valid, Core, WithinLimit, InProgress, TailFits, BlockAvailable, Full, Ring.HasRoom, Base, BlockOf, BlocksBelow;
      hide LeftOf, RingFull, Obtainable, Suffices;
      r := BeginReservation();
      first := None;
      ghost var from, target, stock := ring.next, BlocksBelow(tailIndex + count), Stock();
      AllLeft(stock);
      var startTailIndex := tailIndex;
      var blockBaseDiff := Base(BlockOf(startTailIndex + count - 1)) - Base(BlockOf(startTailIndex - 1));
      var currentTailIndex := Base(BlockOf(startTailIndex - 1));
      var j: nat := 0;
      FirstToReserve(count);
      while blockBaseDiff > 0
        invariant this !in ring.Repr && Core(headIndex) && WithinLimit() && fresh(ring.Repr - old(ring.Repr))
        invariant InProgress(r, Now(), tailBlock) && first == r.first && (first == None <==> r.got == [])
        invariant r.was == old(Now()) && r.start == old(Start()) && (r.got == [] ==> tailBlock == old(tailBlock))
        invariant currentTailIndex == Base(ring.next - 1) && blockBaseDiff == Base(target - 1) - Base(ring.next - 1)
        invariant ring.next <= target && j == ring.next - from == |r.got|
        invariant r.start.Some? <==> Cell(tailIndex) != 0
        invariant LeftOf(stock, Stock(), j) && (forall i: nat :: i < j ==> Obtainable(stock, i, mayAllocate, memory))
        invariant !pool.recycle ==> SpareFirst(pool.blocks, r.got, stock.spare)
        decreases target - ring.next
      {
        BelowTarget(ring.next, target);
        BaseStep(ring.next - 1);
        blockBaseDiff := blockBaseDiff - BLOCK_SIZE;
        currentTailIndex := currentTailIndex + BLOCK_SIZE;
        NextObtainable(stock, j, mayAllocate, memory);
        var block := ReserveNext(currentTailIndex, Cell(startTailIndex) != 0 || first.Some?, mayAllocate, memory, j, r, stock);
        if block.None? {
          NotObtainable(stock, j, target - from, mayAllocate, memory);
          return false, first, r;
        }
        first := if first == None then block else first;
        r := r.More(block.value);
        j := j + 1;
      }
      BelowTarget(ring.next, target);
      SpareLeft(stock, Stock(), j);
      AllObtainable(stock, j, mayAllocate, memory);
      ok := true;
    }

    /** The `j`-th round, and what it leaves of the supplies `stock` at the start. */
    method ReserveNext(blockStart: int, link: bool, mayAllocate: bool, memory: Memory, j: nat, ghost r: Reservation, ghost stock: Supplies)
      returns (block: Option<BlockId>)
      requires this !in ring.Repr && Core(headIndex) && WithinLimit() && blockStart == Base(ring.next)
      requires InProgress(r, Now(), tailBlock) && (link <==> r.start.Some? || r.got != [])
      requires LeftOf(stock, Stock(), j) && j == |r.got|
      requires !pool.recycle ==> SpareFirst(pool.blocks, r.got, stock.spare)
      modifies this`tailBlock, ring.Repr, pool
      ensures Core(headIndex) && WithinLimit() && fresh(ring.Repr - old(ring.Repr)) && this !in ring.Repr
      ensures block.Some? <==> old(BlockAvailable(blockStart, mayAllocate, memory.index(j), memory.block(j)))
      ensures block.None? ==> InProgress(r, Now(), tailBlock) && ring.next == old(ring.next) && tailBlock == old(tailBlock)
      ensures block.None? ==> pool.Spare() == Max(0, stock.spare - j)
      ensures block.None? && !pool.recycle ==> SpareFirst(pool.blocks, r.got, stock.spare)
      ensures block.Some? ==>
                && tailBlock == block && InProgress(r.More(block.value), Now(), tailBlock) && ring.next == old(ring.next) + 1
                && LeftOf(stock, Stock(), j + 1)
                && (!pool.recycle ==> SpareFirst(pool.blocks, r.got + [block.value], stock.spare))
    {
      ghost var now, blocks := Stock(), pool.blocks;
      Room();
      SpareLeft(stock, now, j);
      hide Core, WithinLimit, InProgress, BlockAvailable, Ring.HasRoom, Base, BlockOf, RingFull, LeftOf, SpareFirst, SameOrigins;
      block := ReserveOne(blockStart, link, mayAllocate, memory.index(j), memory.block(j), memory.junk, r);
      if block.Some? {
        OneLess(stock, now, Stock(), j);
        if !pool.recycle {
          SpareFirstMore(blocks, pool.blocks, r.got, block.value, stock.spare);
        }
      } else if !pool.recycle {
        StillSpareFirst(blocks, pool.blocks, r.got, stock.spare);
      }
    }

    /** The blocks to reserve, by number and by base. */
    lemma FirstToReserve(count: nat)
      requires Valid()
      ensures ring.next <= BlocksBelow(tailIndex + count)
      ensures Base(BlockOf(tailIndex - 1)) == Base(ring.next - 1)
      ensures Base(BlockOf(tailIndex + count - 1)) == Base(BlocksBelow(tailIndex + count) - 1)
    {
      hide Core, WithinLimit;
      InOrder(tailIndex - 1, tailIndex + count - 1);
    }

    ghost method BeginReservation() returns (r: Reservation)
      requires Valid()
      ensures r == Reservation(Now(), Start(), [], None) && InProgress(r, Now(), tailBlock)
      ensures this !in ring.Repr && Core(headIndex) && WithinLimit() && pool.Spare() >= 0
      ensures r.start.Some? <==> Cell(tailIndex) != 0
    {
      r := Reservation(Now(), Start(), [], None);
      if Cell(tailIndex) != 0 {
        assert tailBlock == Some(ring.live[BlockOf(tailIndex)]);
      }
    }

    /** Where to construct next, with the rest of the blocks linked behind. */
    ghost predicate Poised(index: nat, endBlock: Option<BlockId>)
      reads this`tailBlock, ring, pool
    {
      && BlockOf(index) in ring.live && tailBlock == Some(ring.live[BlockOf(index)])
      && Linked(Now(), BlockOf(index)) && ring.next - 1 in ring.live && endBlock == Some(ring.live[ring.next - 1])
    }

    /** The second phase of `enqueue_bulk`: construct the items, one block after the other. */
    method ConstructAll(startTailIndex: nat, items: seq<Element>, endBlock: Option<BlockId>)
      requires this !in ring.Repr && Core(headIndex)
      requires startTailIndex == |log| && ring.next == BlocksBelow(startTailIndex + |items|)
      requires if items == [] then tailBlock == endBlock else Poised(startTailIndex, endBlock)
      modifies this`log, this`tailBlock, pool`blocks
      ensures Core(headIndex) && log == old(log) + items && tailBlock == endBlock && KeepsOthers(old(Now()), Now())
    {
      hide *;
      SelfKept();
      var newTailIndex := startTailIndex + |items|;
      var n: nat := 0;
      LogGrows(log, items, 0, |items|);
      while true
        invariant this !in ring.Repr && n <= |items| && Core(headIndex) && log == old(log) + items[..n] && KeepsOthers(old(Now()), Now())
        invariant if items == [] then tailBlock == endBlock else n < |items| && Poised(startTailIndex + n, endBlock)
        decreases |items| - n
      {
        var stopIndex := EndOfRun(startTailIndex + n, newTailIndex);
        if startTailIndex + n != stopIndex {
          ghost var mid := Now();
          var m := stopIndex - startTailIndex;
          LogGrows(old(log), items, n, m);
          ConstructBlock(startTailIndex + n, newTailIndex, items[n..m], endBlock);
          KeepsOthersTwice(old(Now()), mid, Now());
          n := m;
        }
        if tailBlock == endBlock {
          break;
        }
        NextBlock(stopIndex, endBlock);
      }
    }

    lemma SelfKept()
      requires Core(headIndex)
      ensures KeepsOthers(Now(), Now())
    {
      NothingChanged(Now());
    }

    /** The tail block is full, and the next one is the one for `index`. */
    ghost predicate Leads(index: nat, endBlock: Option<BlockId>)
      reads this`tailBlock, ring, pool
    {
      && tailBlock.Some? && tailBlock.value < |pool.blocks|
      && BlockOf(index) in ring.live && pool.blocks[tailBlock.value].next == Some(ring.live[BlockOf(index)])
      && Linked(Now(), BlockOf(index)) && ring.next - 1 in ring.live && endBlock == Some(ring.live[ring.next - 1])
    }

    method NextBlock(ghost index: nat, ghost endBlock: Option<BlockId>)
      requires Leads(index, endBlock)
      modifies this`tailBlock
      ensures Poised(index, endBlock)
    {
      tailBlock := pool.blocks[tailBlock.value].next;
    }

    /** Construct the items that go into the tail block. */
    method ConstructBlock(currentTailIndex: nat, ghost newTailIndex: nat, xs: seq<Element>, ghost endBlock: Option<BlockId>)
      requires Core(headIndex) && currentTailIndex == |log| < newTailIndex && ring.next == BlocksBelow(newTailIndex)
      requires Poised(currentTailIndex, endBlock) && |xs| == EndOfRun(currentTailIndex, newTailIndex) - currentTailIndex
      modifies this`log, pool`blocks
      ensures Core(headIndex) && log == old(log) + xs && KeepsOthers(old(Now()), Now())
      ensures tailBlock == endBlock <==> currentTailIndex + |xs| == newTailIndex
      ensures tailBlock != endBlock ==> Leads(currentTailIndex + |xs|, endBlock)
    {
      hide Ring.Valid, Pool.Valid, KeepsOthers, Linked, Holds, BlocksBelow, Base, BlockOf;
      LastRun(currentTailIndex, newTailIndex);
      ghost var v, before := Now(), log;
      assert Holds(v.blocks, v.live, headIndex, v.top, before);
      hide Core;
      ConstructRun(currentTailIndex, xs);
      NextInLine(v, Now(), headIndex, before, BlockOf(currentTailIndex));
    }

    method EnqueueBulk(items: seq<Element>, mayAllocate: bool, memory: Memory) returns (ok: bool, ghost got: seq<BlockId>)
      requires Valid()
      modifies this, ring.Repr, pool
      ensures Valid() && fresh(ring.Repr - old(ring.Repr))
      ensures headIndex == old(headIndex) && log == if ok then old(log) + items else old(log)
      ensures ok ==> Contents() == old(Contents()) + items
      ensures ok ==> TookBlocks(old(pool.held), pool.held, BlocksBelow(tailIndex) - BlocksBelow(old(tailIndex)), got)
      ensures !ok ==> tailBlock == old(tailBlock) && Restored(old(Now()), Now())
      ensures ok <==> old(Suffices(Stock(), BlocksBelow(tailIndex + |items|) - ring.next, mayAllocate, memory))
      ensures pool.Spare() ==
              if ok then Max(0, old(pool.Spare()) - |got|) else if pool.recycle then Max(old(pool.Spare()), |got|) else old(pool.Spare())
      ensures KeepsOthers(old(Now()), Now())
    {
      hide Valid, Core, Ring.Valid, KeepsOthers, Restored, InProgress, TookBlocks, BlocksBelow, BlockOf, Base, Fits, Suffices, Pool.Valid;
      Facts();
      var startTailIndex: int := tailIndex;
      var startBlock := tailBlock;
      var first; ghost var r;
      ok, first, r := Reserve(|items|, mayAllocate, memory);
      got := r.got;
      if !ok {
        Undo(first, Base(BlockOf(startTailIndex - 1)) + BLOCK_SIZE, r, tailBlock);
        ReturnedOf(pool.blocks, pool.recycle, got, old(pool.Spare()));
        tailBlock := startBlock;
        ValidAgain(old(Now()));
        return;
      }
      ConstructReserved(startTailIndex, items, startBlock, first, r);
    }

    /** All blocks are there: construct the items, and publish them. */
    method ConstructReserved(startTailIndex: nat, items: seq<Element>, startBlock: Option<BlockId>, first: Option<BlockId>,
                             ghost r: Reservation)
      requires this !in ring.Repr && Core(headIndex) && WithinLimit()
      requires startTailIndex == tailIndex == |log| && dequeueOptimisticCount == headIndex + dequeueOvercommit
      requires Reserved(r, Now(), tailIndex, |items|, startBlock, tailBlock) && first == r.first
      modifies this`log, this`tailBlock, this`tailIndex, pool`blocks
      ensures Valid() && log == old(log) + items && KeepsOthers(r.was, Now())
      ensures TookBlocks(r.was.held, pool.held, BlocksBelow(tailIndex) - BlocksBelow(old(tailIndex)), r.got)
    {
      hide Valid, Core, Ring.Valid, Pool.Valid, KeepsOthers, InProgress, TookBlocks, WithinLimit, BlocksBelow, BlockOf, Base, Linked;
      ghost var v := Now();
      var endBlock := tailBlock;
      tailBlock := startBlock;
      if Cell(startTailIndex) == 0 && first.Some? {
        tailBlock := first;
      }
      ReservationTook(r, v, endBlock);
      WhereItEnds(r, v, startTailIndex, |items|, startBlock, endBlock, tailBlock);
      if items != [] {
        WhereToConstruct(r, v, startTailIndex, |items|, startBlock, endBlock, tailBlock);
      }
      ConstructAll(startTailIndex, items, endBlock);
      tailIndex := startTailIndex + |items|;
      KeepsOthersTwice(r.was, v, Now());
      Conclude();
    }

    /** What the invariant says of the tail. */
    lemma Facts()
      requires Valid()
      ensures this !in ring.Repr && tailIndex == |log| && ring.next == BlocksBelow(tailIndex) && WithinLimit()
      ensures pool.Spare() >= 0
      ensures dequeueOptimisticCount == headIndex + dequeueOvercommit
      ensures Start() == if Cell(tailIndex) != 0 then tailBlock else None
      ensures Cell(tailIndex) != 0 ==> BlockOf(tailIndex) in ring.live && tailBlock == Some(ring.live[BlockOf(tailIndex)])
      ensures Fits(Now(), headIndex, log) && Now().top == ring.next && Now().live == ring.live
      ensures forall k :: k in Now().live ==> Now().live[k] < |Now().blocks|
      ensures headIndex <= |log| && Base(BlockOf(tailIndex - 1)) + BLOCK_SIZE == Base(ring.next)
    {
      BaseStep(BlockOf(tailIndex - 1));
    }

    /** The invariant holds after everything is as it was. */
    lemma ValidAgain(was: View)
      requires Core(headIndex) && Restored(was, Now())
      requires tailIndex == |log| && was.top == BlocksBelow(tailIndex)
      requires maxSize.Some? ==> maxSize.value % BLOCK_SIZE == 0 && Base(was.top) - headIndex <= maxSize.value
      requires dequeueOptimisticCount == headIndex + dequeueOvercommit
      requires Cell(tailIndex) != 0 ==> BlockOf(tailIndex) in was.live && tailBlock == Some(was.live[BlockOf(tailIndex)])
      ensures Valid() && KeepsOthers(was, Now())
    {
      RestoredKeepsOthers(was, Now());
    }

    lemma Conclude()
      requires Core(headIndex) && WithinLimit() && tailIndex == |log| && ring.next == BlocksBelow(tailIndex)
      requires dequeueOptimisticCount == headIndex + dequeueOvercommit
      requires Cell(tailIndex) != 0 ==> BlockOf(tailIndex) in ring.live && tailBlock == Some(ring.live[BlockOf(tailIndex)])
      ensures Valid()
    {
    }
  }

  /** Block numbers are ordered as their bases are. */
  lemma BelowTarget(k: int, target: int)
    requires k <= target
    ensures k < target ==> Base(k) + BLOCK_SIZE <= Base(target) && Base(k - 1) + BLOCK_SIZE <= Base(target - 1)
    ensures Base(target - 1) - Base(k - 1) > 0 <==> k < target
  {
    if k < target {
      BaseMonotone(k, target);
      BaseMonotone(k - 1, target - 1);
    }
  }
}
