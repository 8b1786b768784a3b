/**
 The lookups of IndexLookup on machine words: indices and keys wrap around, and the offset comes from
 a signed difference of words.  However long a consumer was stopped between its loads, it is led to
 the same slot, as long as the blocks of a whole ring fit the range of a word; and a ring never gets
 larger than that behind the guard of GuardedProducer.
 */
module WordLookup {
  import opened Blocks
  import opened Numbers
  import opened Options
  import opened Runs
  import opened Words
  import opened BlockIndex
  import opened IndexLookup
  import WordCounters

  const BITS := WordCounters.BITS

  function Word(x: int): nat { WordCounters.Word(x) }

  /** The first ring has 2^c entries, and a block 2^b elements. */
  ghost predicate PowersOfTwo(s: State, b: nat, c: nat) {
    && BLOCK_SIZE == Pow2(b) && s.x.headers != [] && |s.x.headers[0].index| == Pow2(c)
  }

  /** Each ring is twice as large as the one before. */
  ghost predicate Doubles(s: State) {
    && s.x.headers != []
    && forall i :: 0 <= i < |s.x.headers| ==> |s.x.headers[i].index| == |s.x.headers[0].index| * Pow2(i)
  }

  lemma DoublesOn(s: State, e: Event, s': State)
    requires Doubles(s) && Next(s, e, s')
    ensures Doubles(s')
  {
    hide Pow2;
    Doubled(|s.x.headers| - 1);
    var m, p := |s.x.headers[0].index|, Pow2(|s.x.headers| - 1);
    assert m * (2 * p) == 2 * (m * p);
    SameSizes(s, e, s');
  }

  lemma Doubled(n: nat)
    ensures Pow2(n + 1) == 2 * Pow2(n) && Pow2(0) == 1
  {
  }

  /** A step keeps the sizes of all rings, and may add one of twice the last. */
  lemma SameSizes(s: State, e: Event, s': State)
    requires Next(s, e, s')
    ensures |s'.x.headers| == |s.x.headers| || |s'.x.headers| == |s.x.headers| + 1
    ensures s.x.headers != [] && forall i :: 0 <= i < |s.x.headers| ==> |s'.x.headers[i].index| == |s.x.headers[i].index|
    ensures |s'.x.headers| > |s.x.headers| ==>
              |s'.x.headers[|s.x.headers|].index| == 2 * |s.x.headers[|s.x.headers| - 1].index|
  {
  }

  lemma RingsDouble(s: State)
    requires Reachable(Init, Next, s)
    ensures Doubles(s)
  {
    forall a: State | Init(a) ensures Doubles(a) {
      Doubled(0);
    }
    forall a: State, e: Event, b: State | Doubles(a) && Next(a, e, b) ensures Doubles(b) {
      DoublesOn(a, e, b);
    }
    Induction(Init, Next, Doubles, s);
  }

  lemma SizeOfRing(s: State, b: nat, c: nat, i: nat)
    requires Reachable(Init, Next, s) && PowersOfTwo(s, b, c) && i < |s.x.headers|
    ensures |s.x.headers[i].index| == Pow2(c + i)
  {
    RingsDouble(s);
    Pow2Sum(c, i);
  }

  /** What was loaded leads to the same slot on words. */
  lemma SameFound(index: int, tail: nat, key: int, b: nat, c: nat)
    requires BLOCK_SIZE == Pow2(b) && b + c <= BITS && exists n :: key == Base(n)
    ensures WordCounters.WordSlot(Word(index), Word(key), tail, Pow2(c)) == Found(BlockOf(index), tail, key, Pow2(c))
  {
    var n :| key == Base(n);
    WordCounters.SameSlot(index, n, tail, b, c);
    OffsetOfBases(BlockOf(index), n);
  }

  /** No wrapped base of a block is the invalid key. */
  lemma WordsOfKeysAreValid(n: int, b: nat)
    requires BLOCK_SIZE == Pow2(b) && b <= BITS
    ensures Word(Base(n)) != INVALID_BLOCK_BASE
  {
    WordCounters.RemainderOfWord(Base(n), b);
    assert Base(n) == n * BLOCK_SIZE + 0;
    DivisionIsUnique(Base(n), BLOCK_SIZE, n, 0);
    SmallMod(1, BLOCK_SIZE);
  }

  /**
   The next slot a consumer computes on words, for an index in the block it looks up, is the one of the
   unbounded lookup, whatever came between its loads; so by `LookupIsRight` it gets the right block.
   */
  lemma WordLookupIsRight(s: State, t: nat, index: int, b: nat, c: nat)
    requires Reachable(Init, Next, s) && PowersOfTwo(s, b, c)
    requires t < |s.readers| && s.readers[t].LoadKey? && BlockOf(index) == s.readers[t].k
    requires s.readers[t].header < |s.x.headers| ==> b + c + s.readers[t].header <= BITS
    ensures var LoadKey(k, last, i, tail) := s.readers[t];
      && i < |s.x.headers| && tail < |s.x.headers[i].index| && s.x.headers[i].index[tail] < |s.x.entries|
      && var key := s.x.entries[s.x.headers[i].index[tail]].key;
      && Word(key) != INVALID_BLOCK_BASE
      && var slot := WordCounters.WordSlot(Word(index), Word(key), tail, |s.x.headers[i].index|);
      && Next(s, Read(t), s.(readers := s.readers[t := LoadValue(k, last, i, slot)]))
      && slot < |s.x.headers[i].index| && s.x.headers[i].index[slot] < |s.x.entries|
      && k in s.x.live && s.x.entries[s.x.headers[i].index[slot]] == Slot(Base(k), Some(s.x.live[k]))
  {
    hide Pow2, WordCounters.WordSlot, Found, WordCounters.Word;
    var LoadKey(k, last, i, tail) := s.readers[t];
    LookupsGoOn(s, t);
    LookupStartsFromAKey(s, t);
    var key := KeyIsBase(s, t);
    SizeOfRing(s, b, c, i);
    SameFound(index, tail, key, b, c + i);
    var n :| key == Base(n);
    WordsOfKeysAreValid(n, b);
    var s' := Apply(s, Read(t));
    Extend(Init, Next, s, Read(t), s');
    LookupIsRight(s', t);
  }

  lemma KeyIsBase(s: State, t: nat) returns (key: int)
    requires Reachable(Init, Next, s) && t < |s.readers| && s.readers[t].LoadKey?
    ensures var LoadKey(_, _, i, tail) := s.readers[t];
      && i < |s.x.headers| && tail < |s.x.headers[i].index| && s.x.headers[i].index[tail] < |s.x.entries|
      && key == s.x.entries[s.x.headers[i].index[tail]].key && exists n :: key == Base(n)
  {
    LookupStartsFromAKey(s, t);
    var h := Invariant(s);
    key := s.x.entries[s.x.headers[s.readers[t].header].index[s.readers[t].tail]].key;
  }

  /** So does the producer, when it undoes a failed bulk enqueue. */
  lemma WordUndoIsRight(s: State, index: int, b: nat, c: nat)
    requires Reachable(Init, Next, s) && PowersOfTwo(s, b, c)
    requires s.x.prod.Undoing? && BlockOf(index) == s.x.prod.k && b + c + Last(s.x) <= BITS
    ensures var x, k := s.x, s.x.prod.k;
      && WellFormed(x) && HeaderFits(x, Last(x)) && k in x.live
      && var header := Current(x);
      && var slot := WordCounters.WordSlot(Word(index), Word(x.entries[header.index[header.tail]].key), header.tail, |header.index|);
      && slot < |header.index| && x.entries[header.index[slot]] == Slot(Base(k), Some(x.live[k]))
  {
    UndoIsRight(s);
    var header := Current(s.x);
    SizeOfRing(s, b, c, Last(s.x));
    UndoKeyIsBase(s);
    SameFound(index, header.tail, s.x.entries[header.index[header.tail]].key, b, c + Last(s.x));
  }

  lemma UndoKeyIsBase(s: State)
    requires Reachable(Init, Next, s) && s.x.prod.Undoing?
    ensures WellFormed(s.x) && HeaderFits(s.x, Last(s.x))
    ensures exists n :: s.x.entries[Current(s.x).index[Current(s.x).tail]].key == Base(n)
  {
    var h := Invariant(s);
    assert HeaderFits(s.x, Last(s.x));
    assert InWindow(s.x, h, s.x.next - 1);
    assert EntryOf(s.x, h, Last(s.x), s.x.next - 1) == Current(s.x).index[Current(s.x).tail];
  }

  /**
   A ring outgrows its size only when a block a capacity before the next one is still in use; behind
   the guard that leaves room for one more doubling below half the range.
   */
  lemma GrownRingFits(head: int, next: int, b: nat, c: nat)
    requires BLOCK_SIZE == Pow2(b)
    requires head < Base(next - Pow2(c) + 1) && Base(next + 1) - head < WordCounters.Half()
    ensures b + (c + 1) <= BITS - 1
  {
    hide Pow2;
    WordCounters.DistanceOfBases(next + 1, next - Pow2(c) + 1);
    Pow2Sum(c, b);
    if b + c >= BITS - 1 {
      Pow2Monotone(BITS - 1, b + c);
    }
  }
}
