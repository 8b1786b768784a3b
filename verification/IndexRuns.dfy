/**
 What becomes of the block index over whole runs: it has the blocks that were inserted and neither
 undone nor cleared, insertions and undoing come to an end, and a lookup left alone gets its blocks.
 */
module IndexRuns {
  import opened Blocks
  import opened Options
  import opened Runs
  import opened IndexLookup

  /**
   What the events say: the blocks inserted, from number 0 on, how many were published, and which were
   cleared.  A failed enqueue takes those not published with it.
   */
  datatype Book = Book(blocks: seq<BlockId>, published: nat, cleared: set<int>)

  function Noted(book: Book, s: State, e: Event): Book {
    match e
    case Produce(step) =>
      (match step
       case StoreValue(b) => book.(blocks := book.blocks + [b])
       case Publish => book.(published := |book.blocks|)
       case Fail => if book.published <= |book.blocks| then book.(blocks := book.blocks[..book.published]) else book
       case _ => book)
    case Leave(t, true) =>
      if t < |s.readers| && s.readers[t] != Away then book.(cleared := book.cleared + {s.readers[t].k}) else book
    case _ => book
  }

  ghost function BookOf(states: seq<State>, events: seq<Event>, n: nat): Book
    requires n <= |events| < |states|
  {
    if n == 0 then Book([], 0, {}) else Noted(BookOf(states, events, n - 1), states[n - 1], events[n - 1])
  }

  /** The index has the blocks of the book; what a failed enqueue has not cleared yet comes on top. */
  ghost predicate Tallies(x: Index, book: Book) {
    && book.published == x.published <= |book.blocks|
    && (x.prod == Quiet || x.prod.Keyed? || x.prod.Rewound? ==> x.next == |book.blocks|)
    && (x.prod.Tailed? ==> x.next == |book.blocks| + 1)
    && (x.prod.Undoing? || x.prod.UndoingTail? ==> book.published == |book.blocks|)
    && (forall n :: n in book.cleared ==> n < book.published)
    && (forall n :: n in x.live ==> 0 <= n)
    && (forall n: nat :: n < |book.blocks| ==> (n in x.live <==> n !in book.cleared))
    && (forall n: nat :: n < |book.blocks| && n in x.live ==> x.live[n] == book.blocks[n])
  }

  lemma StepTallies(x: Index, h: History, e: Step, book: Book, s: State)
    requires IndexOk(x, h) && MayStep(x, e) && Tallies(x, book)
    ensures Tallies(Stepped(x, e), Noted(book, s, Produce(e)))
  {
    hide KeysFit, Agree, WindowOk, TailOk, KeysAreBases, Oldest, Unrolled, Found, HeaderFits, Back1;
    if e.Undo? && x.prod.Undoing? {
      assert x.prod.k >= x.published;
    }
  }

  lemma EventTallies(s: State, h: History, e: Event, book: Book)
    requires Inv(s, h) && Enabled(s, e) && Tallies(s.x, book)
    ensures Tallies(Apply(s, e).x, Noted(book, s, e))
  {
    hide HeaderFits, Stepped, KeysFit, Agree, WindowOk, TailOk, KeysAreBases, ProdOk;
    match e {
      case Produce(step) => StepTallies(s.x, h, step, book, s);
      case Leave(t, _) => assert Shape(s.x, h) && ReaderOk(s.x, h, s.readers[t]);
      case _ =>
    }
  }

  lemma {:induction false} RunTallies(states: seq<State>, events: seq<Event>, n: nat)
    requires Run(Init, Next, states, events) && n <= |events|
    ensures Tallies(states[n].x, BookOf(states, events, n))
  {
    hide Tallies, Inv, Init, Enabled, Apply;
    if n == 0 {
      AtFirst(states[0]);
    } else {
      RunTallies(states, events, n - 1);
      OnTheWay(Init, Next, states, events, n - 1);
      var h := Invariant(states[n - 1]);
      assert Next(states[n - 1], events[n - 1], states[n]);
      EventTallies(states[n - 1], h, events[n - 1], BookOf(states, events, n - 1));
    }
  }

  lemma AtFirst(s: State)
    requires Init(s)
    ensures Tallies(s.x, Book([], 0, {}))
  {
  }

  /**
   Over every run, whenever the producer is between its operations, the index has exactly the blocks
   that were inserted, in their order, less those of failed enqueues and those cleared.
   */
  lemma IndexIsWhatWasInserted(states: seq<State>, events: seq<Event>, n: nat)
    requires Run(Init, Next, states, events) && n <= |events| && states[n].x.prod == Quiet
    ensures var book := BookOf(states, events, n);
      && states[n].x.next == |book.blocks|
      && (forall k: int :: k in states[n].x.live <==> 0 <= k < |book.blocks| && k !in book.cleared)
      && (forall k: int :: k in states[n].x.live ==> 0 <= k < |book.blocks| && states[n].x.live[k] == book.blocks[k])
  {
    RunTallies(states, events, n);
    OnTheWay(Init, Next, states, events, n);
    var h := Invariant(states[n]);
    forall k | k in states[n].x.live ensures k < |BookOf(states, events, n).blocks| {
      assert ValueFits(states[n].x, h, k);
    }
  }

  // ---------- Operations of the producer come to an end ----------

  /** A bound on the steps that are left of the operation under way. */
  function StepsLeft(p: Producer): int {
    match p
    case Quiet => 0
    case Keyed(_) => 3
    case Tailed(_) => 2
    case Rewound(_) => 1
    case Undoing(k, top) => 2 * (top - k)
    case UndoingTail(k, top) => 2 * (top - k) - 1
  }

  /** An insertion or an undo under way can go on, and each step brings it nearer to its end. */
  lemma OperationsEnd(s: State, e: Step)
    requires Reachable(Init, Next, s) && s.x.prod != Quiet
    ensures StepsLeft(s.x.prod) > 0
    ensures MayStep(s.x, e) ==> StepsLeft(Stepped(s.x, e).prod) < StepsLeft(s.x.prod)
    ensures MayStep(s.x, match s.x.prod case Keyed(_) => StoreTail case Tailed(_) => Rewind case Rewound(_) => StoreNull case _ => Undo)
  {
    var h := Invariant(s);
    hide KeysFit, Agree, WindowOk, TailOk, KeysAreBases, Oldest, Unrolled, Found, HeaderFits, Back1;
  }

  /** The producer can take these steps in a row, and then is done, with this next block number and these blocks. */
  ghost predicate Does(x: Index, steps: seq<Step>, next: int, live: map<int, BlockId>)
    decreases |steps|
  {
    if steps == [] then x.prod == Quiet && x.next == next && x.live == live
    else MayStep(x, steps[0]) && Does(Stepped(x, steps[0]), steps[1..], next, live)
  }

  lemma FromRewound(x: Index, h: History)
    requires IndexOk(x, h) && x.prod.Rewound?
    ensures Does(x, [StoreNull], x.next, x.live)
  {
    hide KeysFit, Agree, WindowOk, TailOk, KeysAreBases, Oldest, Unrolled, Found, HeaderFits;
    assert [StoreNull][1..] == [] && Does(Stepped(x, StoreNull), [], x.next, x.live);
  }

  lemma FromTailed(x: Index, h: History, b: BlockId)
    requires IndexOk(x, h) && x.prod.Tailed?
    ensures Does(x, [StoreValue(b)], x.next, x.live[x.next - 1 := b])
    ensures Does(x, [Rewind, StoreNull], x.next - 1, x.live)
  {
    hide KeysFit, Agree, WindowOk, TailOk, KeysAreBases, Oldest, Unrolled, Found, HeaderFits;
    assert [StoreValue(b)][1..] == [] && Does(Stepped(x, StoreValue(b)), [], x.next, x.live[x.next - 1 := b]);
    RewindKeeps(x, h);
    FromRewound(Stepped(x, Rewind), h);
    assert [Rewind, StoreNull][1..] == [StoreNull];
  }

  lemma FromKeyed(x: Index, h: History, b: BlockId)
    requires IndexOk(x, h) && x.prod.Keyed?
    ensures Does(x, [StoreTail, StoreValue(b)], x.next + 1, x.live[x.next := b])
    ensures Does(x, [StoreTail, Rewind, StoreNull], x.next, x.live)
  {
    hide KeysFit, Agree, WindowOk, TailOk, KeysAreBases, Oldest, Unrolled, Found, HeaderFits;
    StoreTailKeeps(x, h);
    FromTailed(Stepped(x, StoreTail), h, b);
    assert [StoreTail, StoreValue(b)][1..] == [StoreValue(b)] && [StoreTail, Rewind, StoreNull][1..] == [Rewind, StoreNull];
  }

  /** With a free entry a block is in the index after three steps; without memory for one nothing is left of it. */
  lemma InsertAlone(s: State, b: BlockId)
    requires Reachable(Init, Next, s) && MayStep(s.x, StoreKey)
    ensures Does(s.x, [StoreKey, StoreTail, StoreValue(b)], s.x.next + 1, s.x.live[s.x.next := b])
    ensures Does(s.x, [StoreKey, StoreTail, Rewind, StoreNull], s.x.next, s.x.live)
  {
    var h := Invariant(s);
    hide KeysFit, Agree, WindowOk, TailOk, KeysAreBases, Unrolled, Found, HeaderFits;
    var h' := StoreKeyKeeps(s.x, h);
    FromKeyed(Stepped(s.x, StoreKey), h', b);
    assert [StoreKey, StoreTail, StoreValue(b)][1..] == [StoreTail, StoreValue(b)];
    assert [StoreKey, StoreTail, Rewind, StoreNull][1..] == [StoreTail, Rewind, StoreNull];
  }

  // ---------- A lookup left alone ----------

  ghost predicate Gets(s: State, t: nat, k: int, last: int) {
    && t < |s.readers| && s.readers[t].Using? && s.readers[t].k == k && s.readers[t].last == last
    && k in s.x.live && s.readers[t].block == Some(s.x.live[k])
  }

  /** After `n` loads in a row the thread has the block of number `k`. */
  ghost predicate GetsAfter(s: State, t: nat, n: nat, k: int, last: int)
    decreases n
  {
    if n == 0 then Gets(s, t, k, last)
    else Enabled(s, Read(t)) && GetsAfter(Apply(s, Read(t)), t, n - 1, k, last)
  }

  /** The loads that are left until the thread has the block. */
  function LoadsLeft(r: Reader): nat {
    match r
    case Away => 0
    case LoadHeader(_, _) => 4
    case LoadTail(_, _, _) => 3
    case LoadKey(_, _, _, _) => 2
    case LoadValue(_, _, _, _) => 1
    case Using(_, _, _, _, _) => 0
  }

  /** A lookup left alone has the block it is at after four loads, or after what is left of them. */
  lemma {:induction false} LookupAlone(s: State, t: nat)
    requires Reachable(Init, Next, s) && t < |s.readers| && s.readers[t] != Away
    ensures GetsAfter(s, t, LoadsLeft(s.readers[t]), s.readers[t].k, s.readers[t].last)
    decreases LoadsLeft(s.readers[t])
  {
    hide Init, WellFormed;
    if s.readers[t].Using? {
      LookupIsRight(s, t);
    } else {
      LookupsGoOn(s, t);
      Extend(Init, Next, s, Read(t), Apply(s, Read(t)));
      LookupAlone(Apply(s, Read(t)), t);
    }
  }

  /** Then it goes on to the next of its blocks, with one load for each. */
  lemma GoesOnToTheNext(s: State, t: nat, clear: bool)
    requires Reachable(Init, Next, s) && t < |s.readers| && s.readers[t].Using? && Enabled(s, Leave(t, clear))
    ensures var k, last, left := s.readers[t].k, s.readers[t].last, Apply(s, Leave(t, clear));
      if k == last then left.readers[t] == Away else GetsAfter(left, t, 1, k + 1, last)
  {
    var left := Apply(s, Leave(t, clear));
    Extend(Init, Next, s, Leave(t, clear), left);
    if s.readers[t].k != s.readers[t].last {
      LookupAlone(left, t);
    }
  }
}
