/**
 The block index of an implicit producer: a ring of entries that maps block numbers to blocks,
 found from the tail entry by offset, and unrolled into a ring of twice the size when full.

 The ghost window [first, limit) is the range of block numbers the ring stands for; `live` are the
 blocks not yet freed.  Block numbers leave the window at the old end once their entry is reused.
 The tail is the entry of block number `next - 1`.  It is the last of the window except while a
 failed bulk enqueue is undone, which moves the tail back before the entries ahead of it are clear.
 */
module BlockIndex {
  import opened Blocks
  import opened Numbers
  import opened Options

  /** Block bases are multiples of a block size above one, so this is no base. */
  const INVALID_BLOCK_BASE: int := 1

  class Entry {
    var key: int
    var value: Option<BlockId>

    /** A new entry has an invalid key and whatever value was in memory. */
    constructor (junk: Option<BlockId>)
      ensures key == INVALID_BLOCK_BASE && value == junk
    {
      key := INVALID_BLOCK_BASE;
      value := junk;
    }
  }

  /** The slot `d` places before `tail` in a ring of `capacity` slots. */
  function Back(tail: nat, d: int, capacity: nat): int {
    if d <= tail then tail - d else tail - d + capacity
  }

  /** The distance between two block bases, in blocks. */
  lemma OffsetOfBases(k: int, j: int)
    ensures (Base(k) - Base(j)) / BLOCK_SIZE == k - j
  {
    assert Base(k) - Base(j) == (k - j) * BLOCK_SIZE + 0;
    QuotientIsUnique(Base(k) - Base(j), BLOCK_SIZE, k - j, 0);
  }

  /** No block base is the invalid one. */
  lemma BasesAreValid(k: int)
    ensures Base(k) != INVALID_BLOCK_BASE
  {
    MulBounds(k, BLOCK_SIZE);
  }

  class Ring {
    var index: array?<Entry>   // null when its allocation failed in the constructor
    var tail: nat
    var nextCapacity: nat

    ghost var first: int
    ghost var next: int
    ghost var limit: int
    ghost var top: nat         // the slot of block number limit - 1
    ghost var live: map<int, BlockId>
    ghost var loose: Entry?    // an entry inserted or rewound whose value is yet to be set
    ghost var Repr: set<object>

    /** The entry `d` places before the last one of the window. */
    ghost function At(d: int): Entry
      requires index != null && top < index.Length && 0 <= d < index.Length
      reads this, index
    {
      index[Back(top, d, index.Length)]
    }

    ghost predicate IsFree(e: Entry)
      reads e
    {
      e.key == INVALID_BLOCK_BASE || e.value == None
    }

    /** The shape of the ring: distinct entries, all of them its own. */
    ghost predicate Shape()
      reads this, Repr, index
    {
      && this in Repr
      && first <= limit && next <= limit
      && (index == null ==> live == map[] && first == next == limit && loose == null)
      && (index != null ==>
            && index in Repr && tail < index.Length && nextCapacity == 2 * index.Length
            && top < index.Length && limit - next <= index.Length && tail == Back(top, limit - next, index.Length)
            && limit - first <= index.Length
            && (forall i :: 0 <= i < index.Length ==> index[i] in Repr)
            && (forall i, j :: 0 <= i < j < index.Length ==> index[i] != index[j]))
      && (loose != null ==> loose in Repr)
    }

    /** What the entry `d` places before the last one of the window has to contain. */
    ghost predicate Right(e: Entry, d: int)
      reads this`first, this`limit, this`live, this`loose, e
    {
      if d < limit - first then
        var k := limit - 1 - d;
        && e.key == Base(k)
        && (k in live ==> e.value == Some(live[k]) && e != loose)
        && (k !in live && e != loose ==> e.value == None)
      else
        e != loose ==> IsFree(e)
    }

    ghost predicate Slot(d: int)
      requires Shape() && index != null && 0 <= d < index.Length
      reads this, Repr, index
    {
      Right(At(d), d)
    }

    ghost predicate Valid()
      reads this, Repr, index
    {
      && Shape()
      && (forall k :: k in live ==> first <= k < limit)
      && (index != null ==> forall d :: 0 <= d < index.Length ==> Slot(d))
    }

    /** No undoing is going on: the tail is the last entry of the window, and its value is set. */
    ghost predicate Settled()
      reads this
    {
      limit == next && loose == null
    }

    /** The entry after the tail is free. */
    ghost predicate HasRoom()
      reads this
    {
      index != null && (next - first < index.Length || first !in live)
    }

    /** new_block_index in the constructor, with the initial capacity. */
    constructor (initial: nat, canAllocate: bool, junk: nat -> Option<BlockId>)
      requires initial > 0
      ensures Valid() && fresh(Repr)
      ensures next == 0 && live == map[] && Settled()
      ensures canAllocate <==> index != null
    {
      index := null;
      tail := 0;
      nextCapacity := initial;
      first, next, limit, top, live, loose := 0, 0, 0, 0, map[], null;
      Repr := {this};
      new;
      if canAllocate {
        var a := NewEntries(initial, junk);
        index := a;
        tail, top := initial - 1, initial - 1;
        nextCapacity := 2 * initial;
        Repr := {this, index} + set i | 0 <= i < a.Length :: a[i];
      }
    }

    /** The value left in an entry when it is inserted is set, to a block or to null. */
    method Store(e: Entry, v: Option<BlockId>)
      requires Valid() && loose == e
      requires v.Some? ==> index != null && first < next == limit && e == At(0)
      modifies e`value, this`loose, this`live
      ensures Valid() && loose == null && e.value == v
      ensures live == if v.Some? then old(live)[next - 1 := v.value] else old(live)
    {
      e.value := v;
      loose := null;
      if v.Some? {
        live := live[next - 1 := v.value];
      }
      if index != null {
        forall d | 0 <= d < index.Length ensures Slot(d) {
          assert old(Slot(d));
          if d != 0 {
            DistinctSlots(d, 0);
          }
        }
      }
    }

    lemma DistinctSlots(c: int, d: int)
      requires Shape() && index != null && 0 <= c < index.Length && 0 <= d < index.Length && c != d
      ensures At(c) != At(d)
    {
    }

    /** insert_block_index_entry: the entry after the tail, if it is free, or one of a ring twice the size. */
    method Insert(blockStart: int, mayGrow: bool, canAllocate: bool, junk: nat -> Option<BlockId>)
      returns (ok: bool, e: Entry?)
      requires Valid() && Settled() && blockStart == Base(next)
      modifies Repr
      ensures Valid() && fresh(Repr - old(Repr)) && live == old(live) && limit == next
      ensures ok ==> next == old(next) + 1 && first < next && index != null && e == loose == At(0) && e.key == blockStart
      ensures ok ==>
                old(index) != null && index.Length == if old(HasRoom()) then old(index).Length else 2 * old(index).Length
      ensures !ok ==> next == old(next) && index == old(index) && tail == old(tail) && Settled()
      ensures ok <==> old(HasRoom()) || (old(index) != null && mayGrow && canAllocate)
    {
      if index == null {
        return false, null;
      }
      var newTail, entry := AfterTail();
      if entry.key == INVALID_BLOCK_BASE || entry.value == None {
        Enter(entry, newTail, blockStart);
        return true, entry;
      }
      if !mayGrow {
        return false, null;
      }
      var grown := Grow(canAllocate, junk);
      if !grown {
        return false, null;
      }
      newTail, entry := AfterTail();
      Enter(entry, newTail, blockStart);
      return true, entry;
    }

    /** The slot and the entry after the tail: the oldest of the ring. */
    method AfterTail() returns (newTail: nat, entry: Entry)
      requires Valid() && Settled() && index != null
      ensures newTail == if tail + 1 < index.Length then tail + 1 else 0
      ensures newTail < index.Length && entry == index[newTail] == At(index.Length - 1)
      ensures IsFree(entry) <==> HasRoom()
    {
      newTail := (tail + 1) % index.Length;
      SmallMod(tail + 1, index.Length);
      entry := index[newTail];
      assert Slot(index.Length - 1);
      BasesAreValid(first);
    }

    method Enter(entry: Entry, newTail: nat, blockStart: int)
      requires Valid() && Settled() && index != null && blockStart == Base(next)
      requires entry == At(index.Length - 1) && IsFree(entry)
      requires newTail == if tail + 1 < index.Length then tail + 1 else 0
      modifies this`tail, this`top, this`first, this`next, this`limit, this`loose, entry`key
      ensures Valid() && limit == next == old(next) + 1 && first < next && loose == entry == At(0) && entry.key == blockStart
    {
      assert Slot(index.Length - 1);
      BasesAreValid(first);
      entry.key := blockStart;
      tail, top := newTail, newTail;
      if next - first == index.Length {
        first := first + 1;
      }
      next, limit := next + 1, limit + 1;
      loose := entry;
      assert At(0) == entry;
      forall d | 0 <= d < index.Length ensures Slot(d) {
        if d > 0 {
          assert old(Slot(d - 1));
          assert At(d) == old(At(d - 1));
        }
      }
    }

    /** rewind_block_index_tail: the tail moves one entry back. */
    method Rewind()
      requires Valid() && index != null && limit - next < index.Length
      modifies this`tail, this`next
      ensures Valid() && next == old(next) - 1
    {
      SmallMod(tail - 1, index.Length);
      tail := (tail - 1) % index.Length;
      next := next - 1;
      forall d | 0 <= d < index.Length ensures Slot(d) {
        assert old(Slot(d));
      }
    }

    /** The entries ahead of the tail are all clear: the window ends at the tail again. */
    ghost method Settle()
      requires Valid() && loose == null && forall k :: next <= k < limit ==> k !in live
      modifies this`limit, this`top, this`first
      ensures Valid() && Settled() && limit == next
    {
      if index != null {
        var gone := limit - next;
        top := tail;
        limit := next;
        if limit < first {
          first := limit;
        }
        forall d | 0 <= d < index.Length ensures Slot(d) {
          var was := if d + gone < index.Length then d + gone else d + gone - index.Length;
          assert old(Slot(was));
          assert At(d) == old(At(was));
        }
      }
    }

    /** An entry inserted for a block that cannot be had is taken back. */
    method Retract(e: Entry)
      requires Valid() && index != null && loose == e == At(0) && first < limit == next
      modifies this`tail, this`top, this`first, this`next, this`limit, this`loose, this`live, e`value
      ensures Valid() && Settled() && next == old(next) - 1 && live == old(live)
    {
      assert Slot(0);
      Rewind();
      Store(e, None);
      Settle();
    }

    /**
     get_block_index_index_for_index: the slot of the block that holds index `i`, by its distance
     from the block at the tail.
     */
    method Lookup(i: int) returns (idx: nat)
      requires Valid() && BlockOf(i) in live && first < next
      ensures Finds(idx, BlockOf(i))
      ensures index[idx].key == Base(BlockOf(i)) && index[idx].value == Some(live[BlockOf(i)])
    {
      var k := BlockOf(i);
      assert Slot(limit - 1 - k);
      assert Slot(limit - next);
      var tailBase := index[tail].key;
      OffsetOfBases(k, next - 1);
      var offset := (Base(k) - tailBase) / BLOCK_SIZE;
      SmallMod(tail + offset, index.Length);
      idx := (tail + offset) % index.Length;
    }

    /** Clear the entry of the block that starts at `base`, and move the tail one entry back. */
    method Unlink(base: int)
      requires Valid() && BlockOf(base) in live && first < next
      modifies Repr
      ensures Valid() && live == old(live) - {BlockOf(base)} && next == old(next) - 1
      ensures first == old(first) && limit == old(limit) && loose == old(loose) && Repr == old(Repr)
    {
      var idx := Lookup(base);
      EntryOf(idx, BlockOf(base));
      ClearEntry(index[idx], idx, BlockOf(base));
      Rewind();
    }

    /** Slot `idx` is the one of block number `k`. */
    ghost predicate Finds(idx: nat, k: int)
      reads this, index
    {
      && index != null && idx < index.Length && top < index.Length
      && first <= k < limit && limit - 1 - k < index.Length && index[idx] == At(limit - 1 - k)
    }

    /** The entry of a block in use. */
    lemma EntryOf(idx: nat, k: int)
      requires Valid() && Finds(idx, k) && k in live
      ensures {this, index[idx]} <= Repr && index[idx] != loose && index[idx].key == Base(k) && index[idx].value == Some(live[k])
    {
      assert Slot(limit - 1 - k);
    }

    /** The slot after the one of block `k` is that of block `k + 1`. */
    lemma SlotAfter(idx: nat, k: int)
      requires Valid() && Finds(idx, k) && k + 1 in live
      ensures Finds((idx + 1) % index.Length, k + 1)
    {
      SmallMod(idx + 1, index.Length);
    }

    /** A freed block leaves the index; its entry stays where it is. */
    method ClearEntry(e: Entry, ghost idx: nat, ghost k: int)
      requires Valid() && k in live && Finds(idx, k) && e == index[idx]
      modifies e`value, this`live
      ensures Valid() && live == old(live) - {k} && e.value == None
    {
      e.value := None;
      live := live - {k};
      forall d | 0 <= d < index.Length ensures Slot(d) {
        assert old(Slot(d));
        if d != limit - 1 - k {
          DistinctSlots(d, limit - 1 - k);
        }
      }
    }

    /**
     A lookup finds the same slot from any entry of the window it takes for the tail, so a tail and
     its key read before other blocks were inserted or rewound lead to the right slot all the same.
     */
    lemma AnyTailWillDo(j: int, k: int)
      requires Valid() && index != null && first <= j < limit && first <= k < limit
      ensures var capacity := index.Length;
        var slotOfJ := Back(top, limit - 1 - j, capacity);
        && At(limit - 1 - j).key == Base(j)
        && index[(slotOfJ + (Base(k) - At(limit - 1 - j).key) / BLOCK_SIZE) % capacity] == At(limit - 1 - k)
    {
      assert Slot(limit - 1 - j);
      OffsetOfBases(k, j);
      SmallMod(Back(top, limit - 1 - j, index.Length) + (k - j), index.Length);
    }

    /** new_block_index: the entries of the old ring from the oldest on, then as many new ones. */
    method Grow(canAllocate: bool, junk: nat -> Option<BlockId>) returns (ok: bool)
      requires Valid() && index != null && Settled()
      modifies this`index, this`tail, this`top, this`nextCapacity, this`Repr
      ensures Valid() && ok == canAllocate && fresh(Repr - old(Repr))
      ensures ok ==> index != null && index.Length == 2 * old(index.Length) && fresh(index) && IsFree(At(index.Length - 1))
      ensures !ok ==> index == old(index) && tail == old(tail)
    {
      if !canAllocate {
        return false;
      }
      var prevCapacity := index.Length;
      var entries := NewEntries(prevCapacity, junk);
      var unrolled := Unroll(index, tail, entries);
      Install(unrolled);
      return true;
    }

    /** The unrolled ring takes the place of the old one, with the tail on the last of the old entries. */
    method Install(unrolled: array<Entry>)
      requires Valid() && index != null && Settled() && unrolled.Length == 2 * index.Length
      requires forall i, j :: 0 <= i < j < unrolled.Length ==> unrolled[i] != unrolled[j]
      requires forall i :: 0 <= i < index.Length ==> unrolled[i] == At(index.Length - 1 - i)
      requires forall i :: index.Length <= i < unrolled.Length ==>
                 unrolled[i] !in Repr && unrolled[i].key == INVALID_BLOCK_BASE
      modifies this`index, this`tail, this`top, this`nextCapacity, this`Repr
      ensures Valid() && index == unrolled && Repr == old(Repr) + {unrolled} + set j | 0 <= j < unrolled.Length :: unrolled[j]
      ensures IsFree(At(index.Length - 1))
    {
      var prevCapacity := index.Length;
      OldSlotsAreRight(unrolled);
      hide Right;
      index := unrolled;
      tail, top := prevCapacity - 1, prevCapacity - 1;
      nextCapacity := 2 * nextCapacity;
      Repr := Repr + {unrolled} + set j | 0 <= j < unrolled.Length :: unrolled[j];
      assert Shape();
      SlotsAreRight();
    }

    lemma OldSlotsAreRight(unrolled: array<Entry>)
      requires Valid() && index != null && unrolled.Length == 2 * index.Length
      requires forall i :: 0 <= i < index.Length ==> unrolled[i] == At(index.Length - 1 - i)
      ensures limit - first <= index.Length
      ensures forall i :: 0 <= i < index.Length ==> Right(unrolled[i], index.Length - 1 - i)
    {
      forall i | 0 <= i < index.Length ensures Right(unrolled[i], index.Length - 1 - i) {
        assert Slot(index.Length - 1 - i);
      }
    }

    /** The slots of a ring whose tail is in the middle, with unused entries behind it. */
    lemma SlotsAreRight()
      requires Shape() && index != null && tail == top && index.Length == 2 * (tail + 1) && limit - first <= tail + 1
      requires forall i :: 0 <= i <= tail ==> Right(index[i], tail - i)
      requires forall i :: tail < i < index.Length ==> index[i].key == INVALID_BLOCK_BASE
      ensures forall d :: 0 <= d < index.Length ==> Slot(d)
      ensures IsFree(At(index.Length - 1))
    {
      forall d | 0 <= d < index.Length ensures Slot(d) {
        if d > tail {
          assert At(d) == index[tail - d + index.Length];
        } else {
          assert At(d) == index[tail - d];
        }
      }
    }
  }

  /** The entries of a full ring from the oldest to the one at its tail, followed by the new entries. */
  method Unroll(prev: array<Entry>, prevTail: nat, entries: array<Entry>) returns (unrolled: array<Entry>)
    requires prevTail < prev.Length == entries.Length
    requires forall i, j :: 0 <= i < j < prev.Length ==> prev[i] != prev[j] && entries[i] != entries[j]
    requires forall i, j :: 0 <= i < prev.Length && 0 <= j < prev.Length ==> prev[i] != entries[j]
    ensures fresh(unrolled) && unrolled.Length == 2 * prev.Length
    ensures forall i, j :: 0 <= i < j < 2 * prev.Length ==> unrolled[i] != unrolled[j]
    ensures forall i :: 0 <= i < 2 * prev.Length ==>
              unrolled[i] == if i < prev.Length then prev[Back(prevTail, prev.Length - 1 - i, prev.Length)]
                             else entries[i - prev.Length]
  {
    var filler := prev[prevTail];
    var prevCapacity := prev.Length;
    unrolled := new Entry[2 * prevCapacity](_ => filler);
    var prevPos := prevTail;
    var i := 0;
    while i == 0 || prevPos != prevTail
      invariant 0 <= i <= prevCapacity && (prevPos == prevTail <==> i == 0 || i == prevCapacity)
      invariant prevPos == Back(prevTail, if i == 0 then 0 else prevCapacity - i, prevCapacity) && prevPos < prevCapacity
      invariant forall j :: 0 <= j < i ==> unrolled[j] == prev[Back(prevTail, prevCapacity - 1 - j, prevCapacity)]
      decreases prevCapacity - i
    {
      SmallMod(prevPos + 1, prevCapacity);
      prevPos := (prevPos + 1) % prevCapacity;
      unrolled[i] := prev[prevPos];
      i := i + 1;
    }
    for k := 0 to prevCapacity
      invariant forall j :: 0 <= j < prevCapacity + k ==>
                  unrolled[j] == if j < prevCapacity then prev[Back(prevTail, prevCapacity - 1 - j, prevCapacity)]
                                 else entries[j - prevCapacity]
    {
      unrolled[prevCapacity + k] := entries[k];
    }
  }

  method NewEntries(n: nat, junk: nat -> Option<BlockId>) returns (a: array<Entry>)
    ensures fresh(a) && a.Length == n
    ensures forall i :: 0 <= i < n ==> fresh(a[i]) && a[i].key == INVALID_BLOCK_BASE
    ensures forall i, j :: 0 <= i < j < n ==> a[i] != a[j]
  {
    var filler := new Entry(None);
    a := new Entry[n](_ => filler);
    for i := 0 to n
      invariant forall j :: 0 <= j < i ==> fresh(a[j]) && a[j].key == INVALID_BLOCK_BASE
      invariant forall j, k :: 0 <= j < k < i ==> a[j] != a[k]
    {
      a[i] := new Entry(junk(i));
    }
  }
}
