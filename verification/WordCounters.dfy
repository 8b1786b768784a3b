/**
 The claim protocol on machine words: counters and indices are words of `BITS` bits that wrap
 around, and comparisons are circular.  As long as all distances that are compared stay below half
 the range of a word, the word protocol does step by step what the unbounded one does.

 The states of both are those of ClaimProtocol; a word is a number below `Range()`.
 */
module WordCounters {
  import opened Blocks
  import opened Numbers
  import opened Runs
  import opened Words
  import opened Claims = ClaimProtocol

  type Width = n: nat | n >= 2 witness 32

  const BITS: Width

  function Range(): int { Pow2(BITS) }

  function Half(): int { Pow2(BITS - 1) }

  /** The word a number wraps around to. */
  function Word(x: int): nat
  {
    x % Range()
  }

  /** circular_less_than on words. */
  predicate CircularLess(a: int, b: int) {
    Word(a - b) > Half()
  }

  // ---------- Arithmetic of words ----------

  lemma RangeIsTwoHalves()
    ensures Range() == 2 * Half() && Half() >= 2
  {
    assert Pow2(BITS - 1) == 2 * Pow2(BITS - 2);
  }

  lemma WordsOfDifference(x: int, y: int)
    ensures Word(Word(x) - Word(y)) == Word(x - y)
    ensures Word(x - Word(y)) == Word(x - y) && Word(Word(x) - y) == Word(x - y)
  {
    var m := Range();
    assert x == (x / m) * m + x % m && y == (y / m) * m + y % m;
    assert (y / m - x / m) * m == (y / m) * m - (x / m) * m;
    SameRemainder(Word(x) - Word(y), x - y, m, y / m - x / m);
    SameRemainder(x - Word(y), x - y, m, y / m);
    assert (-(x / m)) * m == -((x / m) * m);
    SameRemainder(Word(x) - y, x - y, m, -(x / m));
  }

  lemma WordOfSum(x: int, y: int)
    ensures Word(Word(x) + y) == Word(x + y)
  {
    WordsOfDifference(x, -y);
  }

  /** Numbers of a small size are told from their words. */
  lemma SmallWord(x: int)
    requires -Range() <= x < Range()
    ensures Word(x) == if x < 0 then x + Range() else x
  {
    SmallMod(x, Range());
  }

  /**
   Comparing words agrees with comparing the numbers they stand for, if these are at most half the
   range apart, exactly when the first is not half the range below the second.
   */
  lemma CircularLessAgrees(x: int, y: int)
    requires -Half() <= x - y <= Half()
    ensures (CircularLess(Word(x), Word(y)) <==> x < y) <==> y - x != Half()
  {
    RangeIsTwoHalves();
    WordsOfDifference(x, y);
    SmallWord(x - y);
  }

  /** `circular_less_than(a, b)` is `circular_less_than(0, b - a)`: the bulk form of the test with one unit. */
  lemma SingleAndBulkTests(a: int, b: int)
    ensures CircularLess(a, b) <==> CircularLess(0, Word(b - a))
  {
    WordsOfDifference(0, b - a);
  }

  /** The bulk form: a word difference is positive when the number is. */
  lemma PositiveDifference(d: int)
    requires -Half() <= d < Half()
    ensures CircularLess(0, Word(d)) <==> d > 0
    ensures d > 0 ==> Word(d) == d
  {
    RangeIsTwoHalves();
    WordsOfDifference(0, d);
    SmallWord(-d);
    SmallWord(d);
  }

  // ---------- The protocol on words ----------

  function WordMove(s: State, t: nat): State
    requires t < |s.threads| && s.threads[t] != Idle
  {
    match s.threads[t]
    case LoadOvercommit(max, tail) => Goto(s, t, LoadOptimistic(max, tail, s.overcommit))
    case LoadOptimistic(max, tail, over) =>
      var desired := Word(tail - Word(s.optimistic - over));
      Goto(s, t, if CircularLess(0, desired) then Reserve(if desired < max then desired else max, over) else Idle)
    case Reserve(desired, over) =>
      Goto(s.(optimistic := Word(s.optimistic + desired)), t, LoadTail(desired, over, s.optimistic))
    case LoadTail(desired, over, mine) =>
      var actual := Word(s.tail - Word(mine - over));
      Goto(s, t,
           if !CircularLess(0, actual) then GiveBack(mine, 0, desired)
           else if actual < desired then GiveBack(mine, actual, desired - actual)
           else Claim(desired))
    case GiveBack(_, actual, excess) =>
      Goto(s.(overcommit := Word(s.overcommit + excess)), t, if actual == 0 then Idle else Claim(actual))
    case Claim(actual) => Goto(s.(head := Word(s.head + actual)), t, Holding(s.head, actual))
    case Holding(_, _) => Goto(s, t, Idle)
  }

  function WordApply(s: State, e: Event): State
    requires Enabled(s, e)
  {
    match e
    case Publish(n) => s.(tail := Word(s.tail + n))
    case StartDequeue(t, max) => Goto(s, t, LoadOvercommit(max, s.tail))
    case Advance(t) => WordMove(s, t)
  }

  function WordPc(pc: Pc): Pc {
    match pc
    case Idle => Idle
    case LoadOvercommit(max, tail) => LoadOvercommit(max, Word(tail))
    case LoadOptimistic(max, tail, over) => LoadOptimistic(max, Word(tail), Word(over))
    case Reserve(desired, over) => Reserve(desired, Word(over))
    case LoadTail(desired, over, mine) => LoadTail(desired, Word(over), Word(mine))
    case GiveBack(mine, actual, excess) => GiveBack(Word(mine), actual, excess)
    case Claim(actual) => Claim(actual)
    case Holding(first, count) => Holding(Word(first), count)
  }

  /** The state as it is when every index and counter is a word. */
  function InWords(s: State): State {
    State(Word(s.tail), Word(s.head), Word(s.optimistic), Word(s.overcommit),
          seq(|s.threads|, t requires 0 <= t < |s.threads| => WordPc(s.threads[t])))
  }

  // ---------- Refinement ----------

  /** The distances that thread `t` is about to compare are below half the range. */
  ghost predicate CloseThread(s: State, t: nat)
    requires t < |s.threads|
  {
    match s.threads[t]
    case LoadOptimistic(_, tail, over) => -Half() <= tail - (s.optimistic - over) < Half()
    case LoadTail(_, over, mine) => -Half() <= s.tail - (mine - over) < Half()
    case Holding(first, _) => s.head - first < Range()
    case _ => true
  }

  ghost predicate Close(s: State) {
    forall t :: 0 <= t < |s.threads| ==> CloseThread(s, t)
  }

  lemma ThreadInWords(s: State, t: nat, pc: Pc)
    requires t < |s.threads|
    ensures InWords(s).threads[t := WordPc(pc)] == InWords(Goto(s, t, pc)).threads
  {
  }

  /** One step on words is one step of the unbounded protocol. */
  lemma StepRefines(s: State, e: Event)
    requires Close(s)
    ensures Enabled(InWords(s), e) <==> Enabled(s, e)
    ensures Enabled(s, e) ==> WordApply(InWords(s), e) == InWords(Apply(s, e))
  {
    if Enabled(s, e) {
      match e
      case Publish(n) =>
        WordOfSum(s.tail, n);
      case StartDequeue(t, max) =>
        ThreadInWords(s, t, LoadOvercommit(max, s.tail));
      case Advance(t) =>
        MoveRefines(s, t);
    }
  }

  lemma MoveRefines(s: State, t: nat)
    requires t < |s.threads| && s.threads[t] != Idle && CloseThread(s, t)
    ensures WordMove(InWords(s), t) == InWords(Move(s, t))
  {
    hide Word, Range, Half, CircularLess, Pow2;
    ThreadInWords(s, t, Move(s, t).threads[t]);
    match s.threads[t]
    case LoadOptimistic(max, tail, over) =>
      WordsOfDifference(s.optimistic, over);
      WordsOfDifference(tail, s.optimistic - over);
      PositiveDifference(tail - (s.optimistic - over));
    case LoadTail(desired, over, mine) =>
      WordsOfDifference(mine, over);
      WordsOfDifference(s.tail, mine - over);
      PositiveDifference(s.tail - (mine - over));
    case Reserve(desired, _) => WordOfSum(s.optimistic, desired);
    case GiveBack(_, _, excess) => WordOfSum(s.overcommit, excess);
    case Claim(actual) => WordOfSum(s.head, actual);
    case LoadOvercommit(_, _) =>
    case Holding(_, _) =>
  }

  /** Two runs with the same events, one unbounded and one on words. */
  ghost predicate SideBySide(states: seq<State>, words: seq<State>, events: seq<Event>) {
    && |states| == |words| == |events| + 1
    && Init(states[0]) && words[0] == InWords(states[0])
    && (forall i :: 0 <= i < |events| ==> Close(states[i]) && Next(states[i], events[i], states[i + 1]))
    && (forall i :: 0 <= i < |events| ==> Enabled(words[i], events[i]) && words[i + 1] == WordApply(words[i], events[i]))
  }

  /** As long as all distances stay small, the word protocol is the unbounded one in words. */
  lemma {:induction false} RunsAgree(states: seq<State>, words: seq<State>, events: seq<Event>, n: nat)
    requires SideBySide(states, words, events) && n <= |events|
    ensures words[n] == InWords(states[n])
    decreases n
  {
    if n > 0 {
      RunsAgree(states, words, events, n - 1);
      StepRefines(states[n - 1], events[n - 1]);
    }
  }

  /** Every word run is matched by an unbounded one, up to where distances get large. */
  lemma WordRunIsShadowed(s: State, e: Event)
    requires Reachable(Init, Next, s) && Close(s) && Enabled(InWords(s), e)
    ensures Enabled(s, e) && Reachable(Init, Next, Apply(s, e)) && WordApply(InWords(s), e) == InWords(Apply(s, e))
  {
    StepRefines(s, e);
    Extend(Init, Next, s, e, Apply(s, e));
  }

  /** On words too, what two consumers hold are different indices. */
  lemma WordClaimsAreExclusive(s: State, t: nat, u: nat, i: int, j: int)
    requires Reachable(Init, Next, s) && Close(s) && t != u && t < |s.threads| && u < |s.threads|
    requires s.threads[t].Holding? && s.threads[t].first <= i < s.threads[t].first + s.threads[t].count
    requires s.threads[u].Holding? && s.threads[u].first <= j < s.threads[u].first + s.threads[u].count
    ensures Word(i) != Word(j)
  {
    ClaimsAreExclusive(s, t, u, i);
    ClaimsAreExclusive(s, u, t, j);
    assert CloseThread(s, t) && CloseThread(s, u);
    WordsOfDifference(i, j);
    SmallWord(i - j);
    SmallWord(0);
  }

  // ---------- The block index on words ----------

  /** The signed reading of a word. */
  function Signed(w: int): int { if w < Half() then w else w - Range() }

  /** Division that rounds towards zero. */
  function Truncated(a: int, b: int): int
    requires b > 0
  {
    if a >= 0 then a / b else -((-a) / b)
  }

  /** `index & ~(BLOCK_SIZE - 1)` on a word. */
  function WordBase(w: nat): int { w - w % BLOCK_SIZE }

  /** The slot get_block_index_index_for_index computes: all of it on words. */
  function WordSlot(index: nat, tailBase: nat, tail: nat, capacity: nat): nat
    requires capacity > 0
  {
    var offset := Word(Truncated(Signed(Word(WordBase(index) - tailBase)), BLOCK_SIZE));
    Word(tail + offset) % capacity
  }

  /** Wrapping around does not change the remainder by a smaller power of two. */
  lemma RemainderOfWord(x: int, n: nat)
    requires n <= BITS
    ensures Word(x) % Pow2(n) == x % Pow2(n)
  {
    hide Pow2;
    Pow2Sum(BITS - n, n);
    RemainderOfRemainder(x, Range(), Pow2(BITS - n), Pow2(n));
  }

  lemma RemainderOfRemainder(x: int, m: nat, q: nat, c: nat)
    requires m > 0 && c > 0 && m == q * c
    ensures x % m % c == x % c
  {
    var p := x / m;
    assert x == p * m + x % m;
    assert p * (q * c) == (p * q) * c;
    SameRemainder(x, x % m, c, p * q);
  }

  /** The base of the block of a word is the word of the base. */
  lemma BaseOfWord(i: int, b: nat)
    requires BLOCK_SIZE == Pow2(b) && b <= BITS
    ensures WordBase(Word(i)) == Word(Base(BlockOf(i)))
  {
    RemainderOfWord(i, b);
    BaseOfRemainder(i, Range(), BLOCK_SIZE);
    Locate(i);
  }

  lemma BaseOfRemainder(i: int, m: nat, b: nat)
    requires 0 < m && 0 < b && (i % m) % b == i % b
    ensures (i % m) - (i % m) % b == (i - i % b) % m
  {
    var x := i % m;
    assert x == (x / b) * b + x % b;
    MulBounds(x / b, b);
    DivisionIsUnique(i - i % b, m, i / m, x - x % b);
  }

  lemma TruncatedMultiple(d: int, m: nat)
    requires m > 0
    ensures Truncated(d * m, m) == d
  {
    MulBounds(d, m);
    assert (-d) * m == -(d * m);
    QuotientIsUnique(d * m, m, d, 0);
    QuotientIsUnique((-d) * m, m, -d, 0);
  }

  /** The signed difference of words is the difference up to whole ranges, and exactly that below half the range. */
  lemma SignedDifference(x: int, y: int) returns (q: int)
    ensures Signed(Word(Word(x) - Word(y))) == x - y + q * Range()
    ensures -Half() <= x - y < Half() ==> q == 0
  {
    RangeIsTwoHalves();
    WordsOfDifference(x, y);
    var d := x - y;
    var w := d / Range();
    assert d == w * Range() + Word(d);
    q := if Word(d) < Half() then -w else -w - 1;
    assert q * Range() == -(w * Range()) - (if Word(d) < Half() then 0 else Range());
    if -Half() <= d < Half() {
      SmallWord(d);
      MulBounds(q, Range());
    }
  }

  /**
   Across a wrap-around too, the slot computed on words for index `i` from a tail entry of block
   number `j` is as many slots from the tail as block numbers lie between them: at any distance as
   long as the blocks of a whole ring fit a word, and otherwise below half the range.
   */
  lemma SameSlot(i: int, j: int, tail: nat, b: nat, c: nat)
    requires BLOCK_SIZE == Pow2(b) && b <= BITS && c <= BITS
    requires b + c <= BITS || -Half() <= Base(BlockOf(i)) - Base(j) < Half()
    ensures WordSlot(Word(i), Word(Base(j)), tail, Pow2(c)) == (tail + (BlockOf(i) - j)) % Pow2(c)
  {
    var q := OffsetInBlocks(i, j, b);
    SlotAtDistance(BlockOf(i) - j + q * Pow2(BITS - b), tail, c);
    if b + c <= BITS {
      WholeLaps(tail + (BlockOf(i) - j), q, BITS - b, c);
    }
  }

  /** The offset is the distance in blocks up to as many blocks as fit the range. */
  lemma OffsetInBlocks(i: int, j: int, b: nat) returns (q: int)
    requires BLOCK_SIZE == Pow2(b) && b <= BITS
    ensures Truncated(Signed(Word(WordBase(Word(i)) - Word(Base(j)))), BLOCK_SIZE) == BlockOf(i) - j + q * Pow2(BITS - b)
    ensures -Half() <= Base(BlockOf(i)) - Base(j) < Half() ==> q == 0
  {
    hide Pow2, Word, Signed, Truncated, Half;
    BaseOfWord(i, b);
    q := SignedDifference(Base(BlockOf(i)), Base(j));
    DistanceOfBases(BlockOf(i), j);
    Pow2Sum(BITS - b, b);
    Regroup(BlockOf(i) - j, q, Pow2(BITS - b), BLOCK_SIZE);
    TruncatedMultiple(BlockOf(i) - j + q * Pow2(BITS - b), BLOCK_SIZE);
  }

  lemma Regroup(d: int, q: int, p: int, m: int)
    ensures d * m + q * (p * m) == (d + q * p) * m
  {
  }

  /** Multiples of a larger power of two are whole laps of a smaller one. */
  lemma WholeLaps(x: int, q: int, n: nat, c: nat)
    requires c <= n
    ensures (x + q * Pow2(n)) % Pow2(c) == x % Pow2(c)
  {
    hide Pow2;
    Pow2Sum(n - c, c);
    LapsOfLaps(x, q, Pow2(n - c), Pow2(c));
  }

  lemma LapsOfLaps(x: int, q: int, p: int, m: nat)
    requires m > 0
    ensures (x + q * (p * m)) % m == x % m
  {
    Regroup(0, q, p, m);
    SameRemainder(x + q * (p * m), x, m, q * p);
  }

  lemma DistanceOfBases(k: int, j: int)
    ensures Base(k) - Base(j) == (k - j) * BLOCK_SIZE
  {
  }

  lemma SlotAtDistance(d: int, tail: nat, c: nat)
    requires c <= BITS
    ensures Word(tail + Word(d)) % Pow2(c) == (tail + d) % Pow2(c)
  {
    WordOfSum(d, tail);
    RemainderOfWord(tail + d, c);
  }
}
