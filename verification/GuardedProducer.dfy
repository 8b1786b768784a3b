/**
 The producer's test for room, on words: before it enters a new block a producer compares the head it
 loaded with the end of that block by `circular_less_than`.  While consumers claim, in any
 interleaving, this keeps the elements of a sub-queue below half the range of a word, which is what
 the comparisons of WordCounters need.

 `top` is the number of the next block; entering a block stands for all that follows a passed test.
 */
module GuardedProducer {
  import opened Blocks
  import opened Runs
  import opened Words
  import WordCounters
  import Claims = ClaimProtocol

  datatype Producer =
    | Quiet
    | LoadHead(n: nat)               // in an enqueue of n items: a block is missing
    | Enter(n: nat, head: int)       // has loaded the head, about to test and enter
    | Publish(n: nat)                // all blocks are there

  /**
   Where things stood when a consumer reserved units: the head, and how many units beyond the head
   were reserved by others, or given back since it loaded the overcommit.
   */
  datatype Mark = Mark(head: int, ahead: int)

  /** `marks` is a record for the statements; no step reads it. */
  datatype State = State(claim: Claims.State, prod: Producer, top: int, marks: seq<Mark>)

  datatype Event =
    | Consume(e: Claims.Event)
    | StartEnqueue(n: nat)
    | Produce(supplied: bool)        // the next step; are limit, index and pool in its favour?

  predicate Init(s: State) {
    Claims.Init(s.claim) && s.prod == Quiet && s.top == 0 && |s.marks| == |s.claim.threads|
  }

  predicate Enabled(s: State, e: Event) {
    match e
    case Consume(ce) => Claims.Enabled(s.claim, ce) && !ce.Publish?
    case StartEnqueue(_) => s.prod == Quiet
    case Produce(_) => s.prod != Quiet
  }

  /** The test on words: the head is below the end of the block to be entered. */
  predicate HasRoom(head: int, top: int) {
    WordCounters.CircularLess(WordCounters.Word(head), WordCounters.Word(Base(top) + BLOCK_SIZE))
  }

  function Goto(s: State, n: nat): State {
    s.(prod := if s.top < BlocksBelow(s.claim.tail + n) then LoadHead(n) else Publish(n))
  }

  function Marked(s: State, e: Claims.Event): seq<Mark> {
    if e.Advance? && e.thread < |s.claim.threads| && e.thread < |s.marks| && s.claim.threads[e.thread].Reserve? then
      var ahead := Claims.TotalInFlight(s.claim.threads) + s.claim.overcommit - s.claim.threads[e.thread].overcommit;
      s.marks[e.thread := Mark(s.claim.head, ahead)]
    else s.marks
  }

  function Apply(s: State, e: Event): State
    requires Enabled(s, e)
  {
    match e
    case Consume(ce) => s.(claim := Claims.Apply(s.claim, ce), marks := Marked(s, ce))
    case StartEnqueue(n) => Goto(s, n)
    case Produce(supplied) =>
      match s.prod
      case LoadHead(n) => s.(prod := Enter(n, s.claim.head))
      case Enter(n, head) =>
        if HasRoom(head, s.top) && supplied then Goto(s.(top := s.top + 1), n)
        else s.(top := BlocksBelow(s.claim.tail), prod := Quiet)
      case Publish(n) => s.(claim := Claims.Apply(s.claim, Claims.Publish(n)), prod := Quiet)
  }

  predicate Next(s: State, e: Event, s': State) {
    Enabled(s, e) && s' == Apply(s, e)
  }

  // ---------- The test ----------

  /** A block size is a power of two and a word. */
  ghost predicate BlockSizeIsAWord() {
    exists b: nat :: b < WordCounters.BITS && BLOCK_SIZE == Pow2(b)
  }

  lemma BlockFitsHalf()
    requires BlockSizeIsAWord()
    ensures BLOCK_SIZE <= WordCounters.Half()
  {
    var b: nat :| b < WordCounters.BITS && BLOCK_SIZE == Pow2(b);
    Pow2Monotone(b, WordCounters.BITS - 1);
  }

  /** For a head less than half the range behind, the test passes exactly when it still is with the new block. */
  lemma TestIsExact(head: int, top: int)
    requires BlockSizeIsAWord() && 0 <= Base(top) - head < WordCounters.Half()
    ensures HasRoom(head, top) <==> Base(top + 1) - head < WordCounters.Half()
  {
    hide Pow2, Base;
    BlockFitsHalf();
    BaseStep(top);
    WordCounters.RangeIsTwoHalves();
    var d := Base(top) + BLOCK_SIZE - head;
    WordCounters.WordsOfDifference(head, Base(top) + BLOCK_SIZE);
    WordCounters.SmallWord(-d);
  }

  // ---------- The invariant ----------

  ghost predicate ThreadOk(s: State, t: nat)
    requires t < |s.claim.threads| == |s.marks|
  {
    match s.claim.threads[t]
    case LoadOvercommit(_, tail) => tail <= s.claim.tail
    case LoadOptimistic(_, tail, _) => tail <= s.claim.tail
    case LoadTail(_, over, mine) =>
      && s.marks[t].head <= s.claim.head && 0 <= s.marks[t].ahead
      && mine - over == s.marks[t].head + s.marks[t].ahead
    case _ => true
  }

  ghost predicate ProdOk(s: State) {
    && BlocksBelow(s.claim.tail) <= s.top
    && (s.prod == Quiet ==> s.top == BlocksBelow(s.claim.tail))
    && (s.prod.LoadHead? ==> s.top < BlocksBelow(s.claim.tail + s.prod.n))
    && (s.prod.Enter? ==>
          && s.top < BlocksBelow(s.claim.tail + s.prod.n)
          && s.prod.head <= s.claim.head && Base(s.top) - s.prod.head < WordCounters.Half())
    && (s.prod.Publish? ==> s.top == BlocksBelow(s.claim.tail + s.prod.n))
  }

  ghost predicate Inv(s: State) {
    && Reachable(Claims.Init, Claims.Next, s.claim)
    && ProdOk(s)
    && Base(s.top) - s.claim.head < WordCounters.Half()
    && |s.marks| == |s.claim.threads|
    && (forall t :: 0 <= t < |s.claim.threads| ==> ThreadOk(s, t))
  }

  lemma BlocksBelowMonotone(i: int, j: int)
    requires i <= j
    ensures BlocksBelow(i) <= BlocksBelow(j)
  {
    BlocksBelowBounds(i);
    BlocksBelowBounds(j);
    if BlocksBelow(j) < BlocksBelow(i) {
      BaseMonotone(BlocksBelow(j), BlocksBelow(i));
    }
  }

  /** Blocks below the top hold the tail, and the head is not past it. */
  lemma TopBounds(s: State)
    requires Inv(s)
    ensures s.claim.head <= s.claim.tail <= Base(s.top)
  {
    Claims.HeadStaysBelowTail(s.claim);
    BlocksBelowBounds(s.claim.tail);
    if BlocksBelow(s.claim.tail) < s.top {
      BaseMonotone(BlocksBelow(s.claim.tail), s.top);
    }
  }

  lemma ConsumeKeeps(s: State, e: Event)
    requires Inv(s) && Enabled(s, e) && e.Consume?
    ensures Inv(Apply(s, e))
  {
    hide Base, BlocksBelow, Claims.Apply, Pow2;
    var s' := Apply(s, e);
    ConsumeCounts(s.claim, e.e);
    Extend(Claims.Init, Claims.Next, s.claim, e.e, s'.claim);
    forall t | 0 <= t < |s'.claim.threads| ensures ThreadOk(s', t) {
      ConsumeThread(s, e, t);
    }
  }

  lemma ConsumeCounts(c: Claims.State, e: Claims.Event)
    requires Reachable(Claims.Init, Claims.Next, c) && Claims.Enabled(c, e) && !e.Publish?
    ensures Claims.Apply(c, e).tail == c.tail && c.head <= Claims.Apply(c, e).head
    ensures |Claims.Apply(c, e).threads| == |c.threads| && Claims.Next(c, e, Claims.Apply(c, e))
  {
    Claims.ClaimsAreInOrder(c, e);
  }

  lemma ConsumeThread(s: State, e: Event, t: nat)
    requires Inv(s) && Enabled(s, e) && e.Consume? && t < |s.claim.threads| == |Apply(s, e).claim.threads|
    ensures |Apply(s, e).marks| == |s.marks| && ThreadOk(Apply(s, e), t)
  {
    hide Base, BlocksBelow, Pow2, ProdOk;
    assert ThreadOk(s, t);
    ConsumeCounts(s.claim, e.e);
    Claims.UnitsAreConserved(s.claim);
    var h := Claims.Invariant(s.claim);
    assert Claims.ThreadOk(s.claim, h, t);
  }

  lemma ProduceKeeps(s: State, e: Event)
    requires Inv(s) && Enabled(s, e) && !e.Consume? && BlockSizeIsAWord()
    ensures Inv(Apply(s, e))
  {
    var s' := Apply(s, e);
    TopBounds(s);
    forall t | 0 <= t < |s'.claim.threads| ensures ThreadOk(s', t) {
      assert ThreadOk(s, t);
    }
    if e.StartEnqueue? {
      BlocksBelowMonotone(s.claim.tail, s.claim.tail + e.n);
    } else if s.prod.Enter? {
      TestIsExact(s.prod.head, s.top);
      RollsBack(s);
    } else if s.prod.Publish? {
      Extend(Claims.Init, Claims.Next, s.claim, Claims.Publish(s.prod.n), s'.claim);
    }
  }

  /** Leaving out the blocks above the tail only moves the top back. */
  lemma RollsBack(s: State)
    requires BlocksBelow(s.claim.tail) <= s.top
    ensures Base(BlocksBelow(s.claim.tail)) <= Base(s.top)
  {
    if BlocksBelow(s.claim.tail) < s.top {
      BaseMonotone(BlocksBelow(s.claim.tail), s.top);
    }
  }

  lemma InitialInv(s: State)
    requires Init(s)
    ensures Inv(s)
  {
    WordCounters.RangeIsTwoHalves();
    BlocksBelowBounds(0);
    assert BlockOf(-1) == -1;
    assert Reaches(Claims.Init, Claims.Next, [], s.claim);
  }

  lemma Invariant(s: State)
    requires Reachable(Init, Next, s) && BlockSizeIsAWord()
    ensures Inv(s)
  {
    forall a: State | Init(a) ensures Inv(a) {
      InitialInv(a);
    }
    forall a: State, e: Event, b: State | Inv(a) && Next(a, e, b) ensures Inv(b) {
      if e.Consume? {
        ConsumeKeeps(a, e);
      } else {
        ProduceKeeps(a, e);
      }
    }
    Induction(Init, Next, Inv, s);
  }

  // ---------- What holds in every reachable state ----------

  /** The elements of a sub-queue, and the blocks they are in, always span less than half the range. */
  lemma StaysBelowHalf(s: State)
    requires Reachable(Init, Next, s) && BlockSizeIsAWord()
    ensures 0 <= s.claim.tail - s.claim.head <= Base(s.top) - s.claim.head < WordCounters.Half()
  {
    Invariant(s);
    TopBounds(s);
  }

  /**
   The producer turns an enqueue away by this test exactly when the elements from the head it loaded
   to the end of the new block would span half the range or more.
   */
  lemma TurnedAwayExactly(s: State)
    requires Reachable(Init, Next, s) && s.prod.Enter? && BlockSizeIsAWord()
    ensures HasRoom(s.prod.head, s.top) <==> Base(s.top + 1) - s.prod.head < WordCounters.Half()
  {
    Invariant(s);
    TopBounds(s);
    TestIsExact(s.prod.head, s.top);
  }

  /** An enqueue of `n` elements goes about getting the blocks that are missing for `n` more. */
  lemma WantsItsBlocks(s: State, n: nat)
    requires Reachable(Init, Next, s) && Enabled(s, StartEnqueue(n)) && BlockSizeIsAWord()
    ensures var s' := Apply(s, StartEnqueue(n));
      && s'.claim == s.claim && s'.top == s.top == BlocksBelow(s.claim.tail)
      && s'.prod == if BlocksBelow(s.claim.tail) == BlocksBelow(s.claim.tail + n) then Publish(n) else LoadHead(n)
  {
    Invariant(s);
    BlocksBelowMonotone(s.claim.tail, s.claim.tail + n);
  }

  /**
   An enqueue under way: it enters the next block if blocks are to be had and the elements then still
   span less than half the range, and else leaves everything as it was before it began; and once it has
   all its blocks it publishes its elements, no fewer and no more.
   */
  lemma EntersOrGivesUp(s: State, supplied: bool)
    requires Reachable(Init, Next, s) && s.prod != Quiet && BlockSizeIsAWord()
    ensures var s' := Apply(s, Produce(supplied));
      match s.prod
      case LoadHead(n) => s'.prod == Enter(n, s.claim.head) && s'.top == s.top && s'.claim == s.claim
      case Enter(n, head) =>
        && s'.claim == s.claim
        && (if supplied && Base(s.top + 1) - head < WordCounters.Half() then
              s'.top == s.top + 1 && s'.prod == if s'.top == BlocksBelow(s.claim.tail + n) then Publish(n) else LoadHead(n)
            else s'.prod == Quiet && s'.top == BlocksBelow(s.claim.tail))
      case Publish(n) =>
        && s'.prod == Quiet && s'.claim == s.claim.(tail := s.claim.tail + n)
        && s'.top == s.top == BlocksBelow(s.claim.tail + n)
  {
    Invariant(s);
    TopBounds(s);
    if s.prod.Enter? {
      TestIsExact(s.prod.head, s.top);
    }
  }

  /**
   What else the producer computes from the head it loaded is right on words: its assertion that the
   head is not past the new block holds, and the difference it holds against the size limit is the real one.
   */
  lemma AssertionAndLimit(s: State)
    requires Reachable(Init, Next, s) && s.prod.Enter? && BlockSizeIsAWord()
    ensures var block, head := WordCounters.Word(Base(s.top)), WordCounters.Word(s.prod.head);
      && !WordCounters.CircularLess(block, head)
      && WordCounters.Word(block - head) == Base(s.top) - s.prod.head
  {
    Invariant(s);
    TopBounds(s);
    WordCounters.RangeIsTwoHalves();
    WordCounters.WordsOfDifference(Base(s.top), s.prod.head);
    WordCounters.SmallWord(Base(s.top) - s.prod.head);
  }

  /**
   How much went by since the last load of thread `t`.  After its first look: by how much the head,
   with what is reserved beyond it, has passed the tail it saw.  After its reservation: how many
   elements there are now from the head of then on, against what was reserved ahead of it.  While it
   holds indices: how far the head has moved since it claimed them.
   */
  ghost predicate NotTooOld(s: State, t: nat)
    requires t < |s.claim.threads| == |s.marks|
  {
    var c := s.claim;
    match c.threads[t]
    case LoadOptimistic(_, tail, over) =>
      (c.head - tail) + Claims.TotalInFlight(c.threads) + (c.overcommit - over) <= WordCounters.Half()
    case LoadTail(_, _, _) =>
      && (c.tail - s.marks[t].head) - s.marks[t].ahead < WordCounters.Half()
      && s.marks[t].ahead - (c.tail - s.marks[t].head) <= WordCounters.Half()
    case Holding(first, _) => c.head - first < WordCounters.Range()
    case _ => true
  }

  lemma CloseUnlessTooOld(s: State, h: Claims.History, t: nat)
    requires Inv(s) && Claims.Inv(s.claim, h) && t < |s.claim.threads| == |s.marks|
    ensures WordCounters.CloseThread(s.claim, t) <==> NotTooOld(s, t)
  {
    hide Pow2, Base, BlocksBelow, HasRoom;
    TopBounds(s);
    Claims.UnitsAreConserved(s.claim);
    assert ThreadOk(s, t) && Claims.ThreadOk(s.claim, h, t);
  }

  /**
   Behind the guard a consumer never sees half the range or more available: what the comparisons on
   words need holds exactly when no consumer was stopped for too long.
   */
  lemma CloseExactly(s: State)
    requires Reachable(Init, Next, s) && BlockSizeIsAWord()
    ensures |s.marks| == |s.claim.threads|
    ensures WordCounters.Close(s.claim) <==> forall t :: 0 <= t < |s.claim.threads| ==> NotTooOld(s, t)
  {
    hide NotTooOld, WordCounters.CloseThread, Inv;
    Invariant(s);
    var h := ClaimHistory(s);
    forall t | 0 <= t < |s.claim.threads| ensures WordCounters.CloseThread(s.claim, t) <==> NotTooOld(s, t) {
      CloseUnlessTooOld(s, h, t);
    }
  }

  lemma ClaimHistory(s: State) returns (h: Claims.History)
    requires Inv(s)
    ensures Claims.Inv(s.claim, h)
  {
    h := Claims.Invariant(s.claim);
  }

  /**
   In particular all is close when, since each thread's last load, no more elements than half the range
   went from the head of then to the tail, and no more units than that were reserved and not claimed.
   */
  lemma CloseWhenRecent(s: State)
    requires Reachable(Init, Next, s) && BlockSizeIsAWord() && |s.marks| == |s.claim.threads|
    requires forall t :: 0 <= t < |s.claim.threads| ==>
               match s.claim.threads[t]
               case LoadOptimistic(_, tail, over) =>
                 s.claim.head <= tail && Claims.TotalInFlight(s.claim.threads) + (s.claim.overcommit - over) <= WordCounters.Half()
               case LoadTail(_, _, _) => s.claim.tail - s.marks[t].head < WordCounters.Half() && s.marks[t].ahead <= WordCounters.Half()
               case Holding(first, _) => s.claim.head - first < WordCounters.Range()
               case _ => true
    ensures WordCounters.Close(s.claim)
  {
    hide WordCounters.CloseThread;
    Invariant(s);
    TopBounds(s);
    forall t | 0 <= t < |s.claim.threads| ensures NotTooOld(s, t) {
      assert ThreadOk(s, t);
    }
    CloseExactly(s);
  }
}
