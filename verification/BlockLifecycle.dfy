/**
 The life of the blocks of one implicit producer: how the producer gets them, how consumers move
 elements out of them while the claim protocol runs, and how each goes back to the pool.

 The state extends the one of ClaimProtocol: a consumer that holds claimed indices works through
 them block by block.  One event is one atomic access or one element constructed or moved out.
 Blocks are named by their position in `mem`; a fresh block gets a fresh name.  The block index is
 a map from block numbers to blocks here; the module BlockIndex shows how the ring implements it.

 The pool is shared: other producers and their consumers take, allocate, use and return blocks of it
 in between (`Others`), bound only by what `OthersAreLeftAlone` proves of this one.

 `log`, `moved` and `released` are records for the statements (what was published, what was moved
 out at which index, which block numbers were given back); no step reads them.
 */
module BlockLifecycle {
  import opened Blocks
  import opened Numbers
  import opened Options
  import opened Runs
  import Claims = ClaimProtocol

  type Element(!new, ==, 0)

  datatype Block = Block(count: nat, cells: seq<Option<Element>>, dynamic: bool)

  /** What a consumer does with the indices [.., stop) it claimed. */
  datatype Work =
    | NoWork
    | LookUp(i: int, stop: int)                                       // load the index entry of i
    | MoveOut(from: int, i: int, end: int, stop: int, block: BlockId) // move out i of [from, end)
    | CountOut(from: int, end: int, stop: int, block: BlockId)        // add end - from to the counter
    | ClearEntry(k: int, i: int, stop: int, block: BlockId)           // the block is empty: unlink it
    | GiveBack(k: int, i: int, stop: int, block: BlockId)             // and return it; i is next

  /** The producer inside `enqueue` or `enqueue_bulk`. */
  datatype Producer =
    | Quiet
    | Reserving(items: seq<Element>, got: seq<BlockId>)                 // the next block is missing
    | Resetting(items: seq<Element>, got: seq<BlockId>, block: BlockId) // reset its counter
    | Entering(items: seq<Element>, got: seq<BlockId>, block: BlockId)  // put it into the index
    | UndoingEntries(got: seq<BlockId>, j: nat)                         // failed: clear the entries
    | UndoingBlocks(got: seq<BlockId>, j: nat)                          // and return the blocks
    | Writing(items: seq<Element>, got: seq<BlockId>, w: nat)           // construct item w, or publish

  datatype State = State(
    claim: Claims.State,
    work: seq<Work>,
    prod: Producer,
    tailBlock: Option<BlockId>,
    entries: map<int, BlockId>,
    mem: seq<Block>,
    pool: seq<BlockId>,
    freed: set<BlockId>,
    foreign: set<BlockId>,     // what other producers of the queue have from the same pool
    log: seq<Element>,
    moved: map<int, Element>,
    released: seq<int>)

  /** Where the next block comes from, if it comes. */
  datatype Source = NoBlock | FromPool(j: nat) | Fresh

  datatype Event =
    | Claim(e: Claims.Event)          // a step of the claim protocol short of working off a claim
    | DoWork(t: nat)                  // a step of a consumer on its claimed indices
    | StartEnqueue(items: seq<Element>)
    | Acquire(source: Source)         // requisition_block, or any earlier check, succeeds or fails
    | Produce                         // any other step of the producer
    | Others(o: Other)                // a step of another producer or of its consumers

  /** What others do that share the pool: they take, allocate, use and return blocks. */
  datatype Other =
    | TakeBlock(j: nat)
    | Allocate
    | Use(b: BlockId, now: Block)
    | Return(b: BlockId)

  function EmptyCells(): seq<Option<Element>> { seq(BLOCK_SIZE, _ => None) }

  /** The initial block pool is full and everything else is empty. */
  ghost predicate Init(s: State) {
    && Claims.Init(s.claim)
    && |s.work| == |s.claim.threads|
    && (forall t :: 0 <= t < |s.work| ==> s.work[t] == NoWork)
    && s.prod == Quiet && s.tailBlock == None && s.entries == map[] && s.freed == {} && s.foreign == {}
    && |s.pool| == |s.mem|
    && (forall b :: 0 <= b < |s.mem| ==> s.pool[b] == b && s.mem[b] == Block(0, EmptyCells(), false))
    && s.log == [] && s.moved == map[] && s.released == []
  }

  /** The blocks an enqueue of `n` items enters for the first time. */
  function Needed(tail: int, n: nat): int { BlocksBelow(tail + n) - BlocksBelow(tail) }

  /** The block that holds the cell of index `x`, from the producer's side. */
  function WriteTarget(s: State, got: seq<BlockId>, x: int): Option<BlockId> {
    var j := BlockOf(x) - BlocksBelow(s.claim.tail);
    if j < 0 then s.tailBlock else if j < |got| then Some(got[j]) else None
  }

  function Goto(items: seq<Element>, got: seq<BlockId>, tail: int): Producer {
    if |got| < Needed(tail, |items|) then Reserving(items, got) else Writing(items, got, 0)
  }

  ghost predicate Enabled(s: State, e: Event) {
    match e
    case Claim(ce) =>
      && Claims.Enabled(s.claim, ce) && !ce.Publish?
      && (ce.Advance? ==> !s.claim.threads[ce.thread].Holding?)
      && |s.work| == |s.claim.threads|
    case DoWork(t) =>
      && t < |s.work| == |s.claim.threads| && s.claim.threads[t].Holding?
      && (match s.work[t]
          case NoWork => false
          case LookUp(i, _) => BlockOf(i) in s.entries
          case MoveOut(_, i, _, _, b) => b < |s.mem| && Cell(i) < |s.mem[b].cells| && s.mem[b].cells[Cell(i)].Some?
          case CountOut(from, end, _, b) => b < |s.mem| && from <= end
          case ClearEntry(_, _, _, _) => true
          case GiveBack(_, _, _, b) => b < |s.mem|)
    case StartEnqueue(_) => s.prod == Quiet
    case Acquire(src) =>
      && s.prod.Reserving?
      && (src.FromPool? ==> src.j < |s.pool|)
    case Others(o) => OthersMay(s, o)
    case Produce =>
      match s.prod
      case Quiet => false
      case Reserving(_, _) => false
      case Resetting(_, _, b) => b < |s.mem|
      case Entering(_, _, _) => true
      case UndoingEntries(got, j) => j <= |got|
      case UndoingBlocks(got, j) => j <= |got| && (j < |got| ==> got[j] < |s.mem|)
      case Writing(items, got, w) =>
        && w <= |items|
        && (w < |items| ==>
              var b := WriteTarget(s, got, s.claim.tail + w);
              b.Some? && b.value < |s.mem| && Cell(s.claim.tail + w) < |s.mem[b.value].cells|)
  }

  /** Others touch only blocks they have, and return them empty, as `OthersAreLeftAlone` says this one does. */
  ghost predicate OthersMay(s: State, o: Other) {
    match o
    case TakeBlock(j) => j < |s.pool|
    case Allocate => true
    case Use(b, now) =>
      b in s.foreign && b < |s.mem| && now.dynamic == s.mem[b].dynamic && |now.cells| == BLOCK_SIZE
    case Return(b) => b in s.foreign && b < |s.mem| && s.mem[b].cells == EmptyCells()
  }

  ghost function Apply(s: State, e: Event): State
    requires Enabled(s, e)
  {
    match e
    case Claim(ce) =>
      var claim := Claims.Apply(s.claim, ce);
      if ce.Advance? && claim.threads[ce.thread].Holding? then
        var ticket := claim.threads[ce.thread];
        s.(claim := claim, work := s.work[ce.thread := LookUp(ticket.first, ticket.first + ticket.count)])
      else
        s.(claim := claim)
    case DoWork(t) => WorkStep(s, t)
    case StartEnqueue(items) => s.(prod := Goto(items, [], s.claim.tail))
    case Acquire(src) => AcquireStep(s, src)
    case Produce => ProduceStep(s)
    case Others(o) => OthersStep(s, o)
  }

  ghost function OthersStep(s: State, o: Other): State
    requires OthersMay(s, o)
  {
    match o
    case TakeBlock(j) => s.(pool := s.pool[..j] + s.pool[j + 1..], foreign := s.foreign + {s.pool[j]})
    case Allocate => s.(mem := s.mem + [Block(0, EmptyCells(), true)], foreign := s.foreign + {|s.mem|})
    case Use(b, now) => s.(mem := s.mem[b := now])
    case Return(b) => ReturnBlock(s, b).(foreign := s.foreign - {b})
  }

  /** Go on with the indices from `i`, or finish the dequeue. */
  function Onward(s: State, t: nat, i: int, stop: int): State
    requires t < |s.work| == |s.claim.threads| && s.claim.threads[t].Holding?
  {
    if i == stop then s.(work := s.work[t := NoWork], claim := Claims.Move(s.claim, t))
    else s.(work := s.work[t := LookUp(i, stop)])
  }

  /** Traits::RECYCLE_ALLOCATED_BLOCKS */
  const RECYCLE: bool

  /** A block from the heap is destroyed when it is given back, unless such blocks are recycled. */
  predicate IsDestroyed(b: Block) { b.dynamic && !RECYCLE }

  /** A block goes back to the pool, or is destroyed. */
  function ReturnBlock(s: State, b: BlockId): State
    requires b < |s.mem|
  {
    if IsDestroyed(s.mem[b]) then s.(freed := s.freed + {b}) else s.(pool := s.pool + [b])
  }

  ghost function WorkStep(s: State, t: nat): State
    requires Enabled(s, DoWork(t))
  {
    match s.work[t]
    case LookUp(i, stop) =>
      var end := Min(stop, Base(BlockOf(i)) + BLOCK_SIZE);
      s.(work := s.work[t := MoveOut(i, i, end, stop, s.entries[BlockOf(i)])])
    case MoveOut(from, i, end, stop, b) =>
      var x := s.mem[b].cells[Cell(i)].value;
      var cells := s.mem[b].cells[Cell(i) := None];
      var next := if i + 1 == end then CountOut(from, end, stop, b) else MoveOut(from, i + 1, end, stop, b);
      s.(mem := s.mem[b := s.mem[b].(cells := cells)], moved := s.moved[i := x], work := s.work[t := next])
    case CountOut(from, end, stop, b) =>
      var count := s.mem[b].count + (end - from);
      var s' := s.(mem := s.mem[b := s.mem[b].(count := count)]);
      if count == BLOCK_SIZE then s'.(work := s.work[t := ClearEntry(BlockOf(from), end, stop, b)])
      else Onward(s', t, end, stop)
    case ClearEntry(k, i, stop, b) =>
      s.(entries := s.entries - {k}, work := s.work[t := GiveBack(k, i, stop, b)])
    case GiveBack(k, i, stop, b) =>
      Onward(ReturnBlock(s, b).(released := s.released + [k]), t, i, stop)
  }

  ghost function AcquireStep(s: State, src: Source): State
    requires Enabled(s, Acquire(src))
  {
    var Reserving(items, got) := s.prod;
    match src
    case NoBlock => s.(prod := UndoingEntries(got, 0))
    case FromPool(j) =>
      s.(pool := s.pool[..j] + s.pool[j + 1..], prod := Resetting(items, got, s.pool[j]))
    case Fresh =>
      s.(mem := s.mem + [Block(0, EmptyCells(), true)], prod := Resetting(items, got, |s.mem|))
  }

  ghost function ProduceStep(s: State): State
    requires Enabled(s, Produce)
  {
    var nb := BlocksBelow(s.claim.tail);
    match s.prod
    case Resetting(items, got, b) =>
      s.(mem := s.mem[b := s.mem[b].(count := 0)], prod := Entering(items, got, b))
    case Entering(items, got, b) =>
      s.(entries := s.entries[nb + |got| := b], prod := Goto(items, got + [b], s.claim.tail))
    case UndoingEntries(got, j) =>
      if j == |got| then s.(prod := UndoingBlocks(got, 0))
      else s.(entries := s.entries - {nb + j}, prod := UndoingEntries(got, j + 1))
    case UndoingBlocks(got, j) =>
      if j == |got| then s.(prod := Quiet)
      else ReturnBlock(s, got[j]).(prod := UndoingBlocks(got, j + 1))
    case Writing(items, got, w) =>
      var x := s.claim.tail + w;
      if w < |items| then
        var b := WriteTarget(s, got, x).value;
        s.(mem := s.mem[b := s.mem[b].(cells := s.mem[b].cells[Cell(x) := Some(items[w])])],
           prod := Writing(items, got, w + 1))
      else
        s.(claim := Claims.Apply(s.claim, Claims.Publish(|items|)), log := s.log + items, prod := Quiet,
           tailBlock := if got == [] then s.tailBlock else Some(got[|got| - 1]))
  }

  ghost predicate Next(s: State, e: Event, s': State) {
    Enabled(s, e) && s' == Apply(s, e)
  }

  // ---------- Indices a consumer has left ----------

  /** The first claimed index a consumer has not yet counted as dequeued. */
  function Uncounted(w: Work): int {
    match w
    case NoWork => 0
    case LookUp(i, _) => i
    case MoveOut(from, _, _, _, _) => from
    case CountOut(from, _, _, _) => from
    case ClearEntry(_, i, _, _) => i
    case GiveBack(_, i, _, _) => i
  }

  /** The first claimed index whose element a consumer has not yet moved out. */
  function Unmoved(w: Work): int {
    match w
    case NoWork => 0
    case LookUp(i, _) => i
    case MoveOut(_, i, _, _, _) => i
    case CountOut(_, end, _, _) => end
    case ClearEntry(_, i, _, _) => i
    case GiveBack(_, i, _, _) => i
  }

  function Stop(w: Work): int {
    if w == NoWork then 0 else w.stop
  }

  /** How many indices of block `k` are claimed and not yet counted. */
  function UncountedIn(work: seq<Work>, k: int): nat {
    if work == [] then 0
    else Overlap(Uncounted(work[0]), Stop(work[0]), k) + UncountedIn(work[1..], k)
  }

  lemma {:induction false} WorkUpdate(work: seq<Work>, t: nat, w: Work, k: int)
    requires t < |work|
    ensures UncountedIn(work[t := w], k) == UncountedIn(work, k)
              - Overlap(Uncounted(work[t]), Stop(work[t]), k) + Overlap(Uncounted(w), Stop(w), k)
    ensures UncountedIn(work, k) >= Overlap(Uncounted(work[t]), Stop(work[t]), k)
  {
    if t == 0 {
      assert work[t := w][1..] == work[1..];
    } else {
      assert work[t := w][1..] == work[1..][t - 1 := w];
      WorkUpdate(work[1..], t - 1, w, k);
    }
  }

  // ---------- The invariant ----------

  datatype Status = Live | Closing(t: nat) | Gone

  /** The part a block plays: in the pool, destroyed, with others, in the producer's hands, or holding block k. */
  datatype Role = Pooled | Destroyed | Foreign | InHand | Fills(k: int)

  /**
   The history a proof carries: the block that holds each block number taken into use so far, how
   far that block number is through its life, and the role of every block.
   */
  datatype History = History(fill: seq<BlockId>, status: seq<Status>, role: seq<Role>)

  /** The blocks in the producer's hands, neither in the pool nor holding a block number. */
  function Hand(p: Producer): seq<BlockId> {
    match p
    case Resetting(_, _, b) => [b]
    case Entering(_, _, b) => [b]
    case UndoingEntries(got, _) => got
    case UndoingBlocks(got, j) => if j <= |got| then got[j..] else []
    case _ => []
  }

  /** The blocks the running enqueue has taken into use. */
  function Got(p: Producer): seq<BlockId> {
    match p
    case Reserving(_, got) => got
    case Resetting(_, got, _) => got
    case Entering(_, got, _) => got
    case Writing(_, got, _) => got
    case _ => []
  }

  /** All indices below this one have their element constructed. */
  function Written(s: State): int {
    s.claim.tail + if s.prod.Writing? then s.prod.w else 0
  }

  /** The element that belongs at a written index. */
  function ElementAt(s: State, i: int): Element
    requires |s.log| == s.claim.tail && 0 <= i < Written(s)
    requires s.prod.Writing? ==> s.prod.w <= |s.prod.items|
  {
    if i < s.claim.tail then s.log[i] else s.prod.items[i - s.claim.tail]
  }

  predicate Sane(s: State) {
    && |s.log| == s.claim.tail
    && |s.work| == |s.claim.threads|
    && (s.prod.Writing? ==> s.prod.w <= |s.prod.items|)
  }

  /** What the cell of index `i` holds while its block number is live. */
  function Expected(s: State, i: int): Option<Element>
    requires Sane(s)
  {
    if 0 <= i < Written(s) && i !in s.moved then Some(ElementAt(s, i)) else None
  }

  ghost predicate CellsOk(s: State, b: BlockId, k: int)
    requires Sane(s) && b < |s.mem| && |s.mem[b].cells| == BLOCK_SIZE
  {
    forall c :: 0 <= c < BLOCK_SIZE ==> s.mem[b].cells[c] == Expected(s, Base(k) + c)
  }

  ghost predicate AllMoved(s: State, k: int) {
    forall i :: Base(k) <= i < Base(k) + BLOCK_SIZE ==> i in s.moved
  }

  ghost predicate FillOk(s: State, h: History, k: int)
    requires Sane(s) && 0 <= k < |h.fill| == |h.status| && |h.role| == |s.mem|
  {
    var b := h.fill[k];
    && b < |s.mem| && |s.mem[b].cells| == BLOCK_SIZE
    && match h.status[k]
       case Live =>
         && h.role[b] == Fills(k)
         && k in s.entries && s.entries[k] == b
         && s.mem[b].count + UncountedIn(s.work, k) == Overlap(0, s.claim.head, k)
         && s.mem[b].count < BLOCK_SIZE
         && CellsOk(s, b, k)
         && k !in s.released
       case Closing(t) =>
         && h.role[b] == Fills(k)
         && t < |s.work|
         && (s.work[t].ClearEntry? || s.work[t].GiveBack?) && s.work[t].k == k && s.work[t].block == b
         && (s.work[t].ClearEntry? ==> k in s.entries && s.entries[k] == b)
         && (s.work[t].GiveBack? ==> k !in s.entries)
         && UncountedIn(s.work, k) == 0 && Overlap(0, s.claim.head, k) == BLOCK_SIZE
         && s.mem[b].count == BLOCK_SIZE
         && AllMoved(s, k)
         && CellsOk(s, b, k)
         && k !in s.released
       case Gone =>
         && k !in s.entries
         && UncountedIn(s.work, k) == 0 && Overlap(0, s.claim.head, k) == BLOCK_SIZE
         && AllMoved(s, k)
         && k in s.released
  }

  ghost predicate RoleOk(s: State, h: History, b: BlockId)
    requires b < |s.mem| == |h.role| && |h.fill| == |h.status|
  {
    && |s.mem[b].cells| == BLOCK_SIZE
    && (h.role[b] == Pooled <==> b in s.pool)
    && (h.role[b] == Destroyed <==> b in s.freed)
    && (h.role[b] == Foreign <==> b in s.foreign)
    && (h.role[b] == InHand <==> b in Hand(s.prod))
    && (h.role[b].Fills? ==>
          var k := h.role[b].k; 0 <= k < |h.fill| && h.fill[k] == b && h.status[k] != Gone)
    && (!h.role[b].Fills? && !h.role[b].Foreign? ==> s.mem[b].cells == EmptyCells())
    && (b in s.pool ==> !IsDestroyed(s.mem[b]))
    && (b in s.freed ==> IsDestroyed(s.mem[b]))
  }

  ghost predicate WorkOk(s: State, h: History, t: nat)
    requires t < |s.work| == |s.claim.threads| && |h.fill| == |h.status|
  {
    var w := s.work[t];
    var pc := s.claim.threads[t];
    && (w == NoWork <==> !pc.Holding?)
    && (w != NoWork ==>
          && pc.first <= Uncounted(w) <= Unmoved(w) <= w.stop == pc.first + pc.count
          && (forall i :: Unmoved(w) <= i < w.stop ==> i !in s.moved)
          && (forall i :: Uncounted(w) <= i < Unmoved(w) ==> i in s.moved))
    && match w
       case NoWork => true
       case LookUp(i, stop) => i < stop
       case MoveOut(from, i, end, stop, b) =>
         var k := BlockOf(from);
         && 0 <= k < |h.fill| && h.fill[k] == b
         && from <= i < end == Min(stop, Base(k) + BLOCK_SIZE)
       case CountOut(from, end, stop, b) =>
         var k := BlockOf(from);
         && 0 <= k < |h.fill| && h.fill[k] == b
         && from < end == Min(stop, Base(k) + BLOCK_SIZE)
       case ClearEntry(k, i, stop, b) => 0 <= k < |h.fill| && h.status[k] == Closing(t)
       case GiveBack(k, i, stop, b) => 0 <= k < |h.fill| && h.status[k] == Closing(t)
  }

  ghost predicate ProdOk(s: State, h: History)
    requires |h.fill| == |h.status|
  {
    var nb := BlocksBelow(s.claim.tail);
    var got := Got(s.prod);
    && nb >= 0
    && |h.fill| == nb + |got|
    && (forall k :: nb <= k < |h.fill| ==> h.fill[k] == got[k - nb])
    && (Cell(s.claim.tail) != 0 ==> nb >= 1 && s.tailBlock == Some(h.fill[nb - 1]))
    && (forall i, j :: 0 <= i < j < |Hand(s.prod)| ==> Hand(s.prod)[i] != Hand(s.prod)[j])
    && (forall j :: 0 <= j < |Hand(s.prod)| ==> Hand(s.prod)[j] < |s.mem|)
    && match s.prod
       case Quiet => true
       case Reserving(items, got) => |got| < Needed(s.claim.tail, |items|)
       case Resetting(items, got, b) => |got| < Needed(s.claim.tail, |items|)
       case Entering(items, got, b) => |got| < Needed(s.claim.tail, |items|) && b < |s.mem| && s.mem[b].count == 0
       case UndoingEntries(got, j) =>
         j <= |got| && forall k :: nb + j <= k < nb + |got| ==> k in s.entries && s.entries[k] == got[k - nb]
       case UndoingBlocks(got, j) => j <= |got|
       case Writing(items, got, w) => |got| == Needed(s.claim.tail, |items|) && w <= |items|
  }

  /** Entries are set only for block numbers in use, and for those a failed enqueue still has to undo. */
  ghost predicate EntriesOk(s: State, h: History) {
    forall k :: k in s.entries ==>
      || 0 <= k < |h.fill|
      || (s.prod.UndoingEntries? && |h.fill| + s.prod.j <= k < |h.fill| + |s.prod.got|)
  }

  /** Some consumer still has to move out index `i`. */
  ghost predicate PendingAt(work: seq<Work>, i: int) {
    exists t :: 0 <= t < |work| && Unmoved(work[t]) <= i < Stop(work[t])
  }

  ghost predicate MovedOk(s: State) {
    && |s.log| == s.claim.tail
    && (forall i :: i in s.moved ==> 0 <= i < s.claim.head && i < |s.log| && s.moved[i] == s.log[i])
    && (forall i :: 0 <= i < s.claim.head ==> i in s.moved || PendingAt(s.work, i))
  }

  ghost predicate Shape(s: State, h: History) {
    && Sane(s)
    && |h.fill| == |h.status| && |h.role| == |s.mem|
  }

  ghost predicate PoolOk(s: State) {
    && (forall i, j :: 0 <= i < j < |s.pool| ==> s.pool[i] != s.pool[j])
    && (forall j :: 0 <= j < |s.pool| ==> s.pool[j] < |s.mem|)
    && (forall b :: b in s.freed || b in s.foreign ==> b < |s.mem|)
  }

  ghost predicate ReleasedOk(s: State, h: History)
    requires |h.fill| == |h.status|
  {
    && (forall i, j :: 0 <= i < j < |s.released| ==> s.released[i] != s.released[j])
    && (forall j :: 0 <= j < |s.released| ==> 0 <= s.released[j] < |h.fill| && h.status[s.released[j]] == Gone)
  }

  ghost predicate FillsOk(s: State, h: History)
    requires Shape(s, h)
  {
    forall k :: 0 <= k < |h.fill| ==> FillOk(s, h, k)
  }

  ghost predicate RolesOk(s: State, h: History)
    requires Shape(s, h)
  {
    forall b :: 0 <= b < |s.mem| ==> RoleOk(s, h, b)
  }

  ghost predicate WorksOk(s: State, h: History)
    requires Shape(s, h)
  {
    forall t :: 0 <= t < |s.work| ==> WorkOk(s, h, t)
  }

  ghost predicate Inv(s: State, h: History) {
    && Shape(s, h)
    && Claims.HasHistory(s.claim)
    && ProdOk(s, h)
    && EntriesOk(s, h)
    && MovedOk(s)
    && PoolOk(s)
    && ReleasedOk(s, h)
    && FillsOk(s, h)
    && RolesOk(s, h)
    && WorksOk(s, h)
  }

  // ---------- What a step leaves alone ----------

  /** No block changes hands or content. */
  lemma RolesFrame(s: State, h: History, s': State)
    requires Shape(s, h) && Shape(s', h) && RolesOk(s, h)
    requires forall b :: 0 <= b < |s.mem| ==>
               s'.mem[b].cells == s.mem[b].cells && s'.mem[b].dynamic == s.mem[b].dynamic
    requires s'.pool == s.pool && s'.freed == s.freed && s'.foreign == s.foreign && Hand(s'.prod) == Hand(s.prod)
    ensures RolesOk(s', h)
  {
    forall b | 0 <= b < |s.mem| ensures RoleOk(s', h, b) {
      assert RoleOk(s, h, b);
    }
  }

  /** The contents of blocks in use change, nothing changes hands. */
  lemma RolesCells(s: State, h: History, s': State, b: BlockId)
    requires Shape(s, h) && Shape(s', h) && RolesOk(s, h) && b < |s.mem| && h.role[b].Fills?
    requires forall c :: 0 <= c < |s.mem| && c != b ==> s'.mem[c] == s.mem[c]
    requires |s'.mem[b].cells| == BLOCK_SIZE && s'.mem[b].dynamic == s.mem[b].dynamic
    requires s'.pool == s.pool && s'.freed == s.freed && s'.foreign == s.foreign && Hand(s'.prod) == Hand(s.prod)
    ensures RolesOk(s', h)
  {
    forall c | 0 <= c < |s.mem| ensures RoleOk(s', h, c) {
      assert RoleOk(s, h, c);
    }
  }

  /** The producer, the index, the pool and the record of releases stay as they are. */
  lemma RestFrame(s: State, h: History, s': State, h': History)
    requires |h.fill| == |h.status| == |h'.status| && h'.fill == h.fill
    requires ProdOk(s, h) && EntriesOk(s, h) && PoolOk(s) && ReleasedOk(s, h)
    requires forall k :: 0 <= k < |h.status| && h.status[k] == Gone ==> h'.status[k] == Gone
    requires s'.claim.tail == s.claim.tail && s'.prod == s.prod && s'.tailBlock == s.tailBlock && s'.entries == s.entries
    requires s'.pool == s.pool && s'.freed == s.freed && s'.foreign == s.foreign && s'.released == s.released && |s'.mem| == |s.mem|
    requires forall b :: 0 <= b < |s.mem| && b in Hand(s.prod) ==> s'.mem[b].count == s.mem[b].count
    ensures ProdOk(s', h') && EntriesOk(s', h') && PoolOk(s') && ReleasedOk(s', h')
  {
  }

  /** Only thread `t` moves, and only elements it had claimed are moved out. */
  lemma WorksFrame(s: State, h: History, s': State, h': History, t: nat)
    requires Shape(s, h) && Shape(s', h') && WorksOk(s, h) && |s'.work| == |s.work| && t < |s.work|
    requires Claims.HasHistory(s.claim)
    requires h'.fill == h.fill
    requires forall u :: 0 <= u < |s.work| && u != t ==>
               s'.work[u] == s.work[u] && s'.claim.threads[u] == s.claim.threads[u]
    requires forall k :: 0 <= k < |h.status| ==> h'.status[k] == h.status[k] || h.status[k] == Live || h.status[k] == Closing(t)
    requires forall i :: i in s.moved ==> i in s'.moved
    requires forall i :: i in s'.moved ==> i in s.moved || Unmoved(s.work[t]) <= i < Stop(s.work[t])
    requires WorkOk(s', h', t)
    ensures WorksOk(s', h')
  {
    assert WorkOk(s, h, t);
    forall u | 0 <= u < |s.work| ensures WorkOk(s', h', u) {
      if u != t {
        assert WorkOk(s, h, u);
        forall i | Unmoved(s.work[u]) <= i < Stop(s.work[u]) ensures i !in s'.moved {
          if i in s'.moved {
            Claims.Tickets(s.claim, u, t, i);
          }
        }
      }
    }
  }

  /** Only thread `t` moves: what it has pending may shrink only by elements it moves out. */
  lemma PendingFrame(s: State, s': State, t: nat)
    requires |s'.work| == |s.work| && t < |s.work| && s'.claim.head == s.claim.head
    requires MovedOk(s) && forall i :: i in s.moved ==> i in s'.moved
    requires forall u :: 0 <= u < |s.work| && u != t ==> s'.work[u] == s.work[u]
    requires forall i :: Unmoved(s.work[t]) <= i < Stop(s.work[t]) ==>
               i in s'.moved || Unmoved(s'.work[t]) <= i < Stop(s'.work[t])
    ensures forall i :: 0 <= i < s'.claim.head ==> i in s'.moved || PendingAt(s'.work, i)
  {
    forall i | 0 <= i < s'.claim.head ensures i in s'.moved || PendingAt(s'.work, i) {
      if i !in s.moved {
        var u :| 0 <= u < |s.work| && Unmoved(s.work[u]) <= i < Stop(s.work[u]);
        if u != t {
          assert Unmoved(s'.work[u]) <= i < Stop(s'.work[u]);
        }
      }
    }
  }

  /** Nothing about block number `k` changes but how its claimed indices are counted. */
  lemma FillFrame(s: State, h: History, s': State, h': History, k: int)
    requires Shape(s, h) && Shape(s', h') && 0 <= k < |h.fill| && FillOk(s, h, k)
    requires k < |h'.fill| && h'.fill[k] == h.fill[k] && h'.status[k] == h.status[k] && |s.mem| <= |s'.mem|
    requires |s'.mem[h.fill[k]].cells| == |s.mem[h.fill[k]].cells|
    requires h.status[k] != Gone ==>
               && h'.role[h.fill[k]] == h.role[h.fill[k]] && s'.mem[h.fill[k]] == s.mem[h.fill[k]]
               && (k in s.entries ==> k in s'.entries && s'.entries[k] == s.entries[k])
    requires k !in s.entries ==> k !in s'.entries
    requires h.status[k].Closing? ==>
               h.status[k].t < |s'.work| && h.status[k].t < |s.work| && s'.work[h.status[k].t] == s.work[h.status[k].t]
    requires UncountedIn(s'.work, k) - UncountedIn(s.work, k) == Overlap(0, s'.claim.head, k) - Overlap(0, s.claim.head, k)
    requires s'.claim.head >= s.claim.head
    requires forall i :: i in s.moved ==> i in s'.moved
    requires h.status[k] != Gone ==> forall i :: Base(k) <= i < Base(k) + BLOCK_SIZE ==> Expected(s', i) == Expected(s, i)
    requires k in s.released <==> k in s'.released
    ensures FillOk(s', h', k)
  {
  }

  /**
   Thread `t` moves on with its claimed indices or is handed new ones: the indices it has yet to
   count change as the head does, and it had no block to unlink or return.
   */
  lemma FillsFrame(s: State, h: History, s': State, t: nat)
    requires Shape(s, h) && Shape(s', h) && FillsOk(s, h) && t < |s.work| == |s'.work|
    requires s' == s.(claim := s'.claim, work := s.work[t := s'.work[t]])
    requires s'.claim.tail == s.claim.tail && s'.claim.head >= s.claim.head
    requires !s.work[t].ClearEntry? && !s.work[t].GiveBack?
    requires forall k :: 0 <= k < |h.fill| ==>
               Overlap(Uncounted(s'.work[t]), Stop(s'.work[t]), k) - Overlap(Uncounted(s.work[t]), Stop(s.work[t]), k)
               == Overlap(0, s'.claim.head, k) - Overlap(0, s.claim.head, k)
    ensures FillsOk(s', h)
  {
    forall k | 0 <= k < |h.fill| ensures FillOk(s', h, k) {
      assert FillOk(s, h, k);
      WorkUpdate(s.work, t, s'.work[t], k);
      FillFrame(s, h, s', h, k);
    }
  }

  // ---------- The consumers' steps keep the invariant ----------

  /** A step of the claim protocol that hands out no indices. */
  lemma PlainClaimKeeps(s: State, h: History, s': State, t: nat)
    requires Inv(s, h) && s' == s.(claim := s'.claim) && Claims.HasHistory(s'.claim)
    requires s'.claim.head == s.claim.head && s'.claim.tail == s.claim.tail
    requires t < |s'.claim.threads| == |s.claim.threads|
    requires !s'.claim.threads[t].Holding? && !s.claim.threads[t].Holding?
    requires forall u :: 0 <= u < |s.claim.threads| && u != t ==> s'.claim.threads[u] == s.claim.threads[u]
    ensures Inv(s', h)
  {
    assert WorkOk(s, h, t);
    assert s.work[t := s'.work[t]] == s.work;
    FillsFrame(s, h, s', t);
    RolesFrame(s, h, s');
    WorksFrame(s, h, s', h, t);
    PendingFrame(s, s', t);
  }

  /** Thread `t` is handed the next `n` indices. */
  lemma TicketKeeps(s: State, h: History, s': State, t: nat, n: nat)
    requires Inv(s, h) && n > 0 && t < |s.work|
    requires Claims.HasHistory(s'.claim) && s'.claim.head == s.claim.head + n && s'.claim.tail == s.claim.tail
    requires s' == s.(claim := s'.claim, work := s.work[t := LookUp(s.claim.head, s.claim.head + n)])
    requires |s'.claim.threads| == |s.claim.threads| && !s.claim.threads[t].Holding?
    requires s'.claim.threads[t] == Claims.Holding(s.claim.head, n)
    requires forall u :: 0 <= u < |s.claim.threads| && u != t ==> s'.claim.threads[u] == s.claim.threads[u]
    ensures Inv(s', h)
  {
    hide ProdOk, EntriesOk, PoolOk, RoleOk, FillOk;
    Claims.HeadBound(s.claim);
    Claims.HeadBound(s'.claim);
    assert WorkOk(s, h, t);
    forall k ensures Overlap(0, s.claim.head, k) + Overlap(s.claim.head, s'.claim.head, k) == Overlap(0, s'.claim.head, k) {
      OverlapSplit(0, s.claim.head, s'.claim.head, k);
    }
    FillsFrame(s, h, s', t);
    RolesFrame(s, h, s');
    WorksFrame(s, h, s', h, t);
    RestFrame(s, h, s', h);
    TicketMoved(s, s', t);
  }

  /** The new indices are pending with thread `t`. */
  lemma TicketMoved(s: State, s': State, t: nat)
    requires MovedOk(s) && t < |s.work| && s.work[t] == NoWork && s.claim.head <= s'.claim.head && s'.claim.tail == s.claim.tail
    requires s' == s.(claim := s'.claim, work := s.work[t := LookUp(s.claim.head, s'.claim.head)])
    ensures MovedOk(s')
  {
    forall i | 0 <= i < s'.claim.head ensures i in s'.moved || PendingAt(s'.work, i) {
      if i >= s.claim.head {
        assert Unmoved(s'.work[t]) <= i < Stop(s'.work[t]);
      } else if i !in s.moved {
        var u :| 0 <= u < |s.work| && Unmoved(s.work[u]) <= i < Stop(s.work[u]);
        assert s'.work[u] == s.work[u];
      }
    }
  }

  /** The block number of an index a consumer has yet to count is live. */
  lemma StillLive(s: State, h: History, t: nat, i: int)
    requires Inv(s, h) && t < |s.work| && Uncounted(s.work[t]) <= i < Stop(s.work[t])
    ensures var k := BlockOf(i); 0 <= k < BlocksBelow(s.claim.tail) <= |h.fill| && h.status[k] == Live && FillOk(s, h, k)
    ensures 0 <= i < s.claim.head <= s.claim.tail
  {
    var k := BlockOf(i);
    assert WorkOk(s, h, t);
    Claims.Tickets(s.claim, t, t, i);
    Locate(i);
    WorkUpdate(s.work, t, NoWork, k);
    BlocksBelowBounds(s.claim.tail);
    if k >= BlocksBelow(s.claim.tail) {
      if k > BlocksBelow(s.claim.tail) { BaseMonotone(BlocksBelow(s.claim.tail), k); }
    }
    assert FillOk(s, h, k);
  }

  lemma LookUpKeeps(s: State, h: History, s': State, t: nat)
    requires Inv(s, h) && t < |s.work| && s.work[t].LookUp?
    requires var LookUp(i, stop) := s.work[t];
      && BlockOf(i) in s.entries
      && s' == s.(work := s.work[t := MoveOut(i, i, Min(stop, Base(BlockOf(i)) + BLOCK_SIZE), stop, s.entries[BlockOf(i)])])
    ensures Inv(s', h)
  {
    var LookUp(i, stop) := s.work[t];
    assert WorkOk(s, h, t);
    StillLive(s, h, t, i);
    Locate(i);
    FillsFrame(s, h, s', t);
    RolesFrame(s, h, s');
    RestFrame(s, h, s', h);
    WorksFrame(s, h, s', h, t);
    PendingFrame(s, s', t);
  }

  /** Other block numbers that are not gone are held by other blocks. */
  lemma OtherBlock(s: State, h: History, k: int, j: int)
    requires Shape(s, h) && FillsOk(s, h) && 0 <= k < |h.fill| && 0 <= j < |h.fill| && j != k
    requires h.status[k] != Gone && h.status[j] != Gone
    ensures h.fill[j] != h.fill[k]
  {
    assert FillOk(s, h, k) && FillOk(s, h, j);
  }

  /** Index `i` of [from, end) in block `k`, which thread `t` works on, is moved out of block `b`. */
  ghost predicate MovesOut(s: State, h: History, s': State, t: nat)
    requires Shape(s, h)
  {
    && t < |s.work| == |s'.work| && s.work[t].MoveOut?
    && var MoveOut(from, i, end, stop, b) := s.work[t];
    && var k := BlockOf(from);
    && 0 <= k < |h.fill| && h.fill[k] == b && h.status[k] == Live && from <= i < end <= Base(k) + BLOCK_SIZE
    && b < |s.mem| && |s.mem[b].cells| == BLOCK_SIZE && 0 <= i < |s.log|
    && s'.mem == s.mem[b := s.mem[b].(cells := s.mem[b].cells[Cell(i) := None])]
    && s'.moved == s.moved[i := s.log[i]]
    && s'.work == s.work[t := if i + 1 == end then CountOut(from, end, stop, b) else MoveOut(from, i + 1, end, stop, b)]
    && s' == s.(mem := s'.mem, moved := s'.moved, work := s'.work)
  }

  lemma MovedCell(s: State, h: History, s': State, t: nat)
    requires Shape(s, h) && Shape(s', h) && MovesOut(s, h, s', t)
    requires CellsOk(s, s.work[t].block, BlockOf(s.work[t].from))
    ensures CellsOk(s', s.work[t].block, BlockOf(s.work[t].from))
  {
    var MoveOut(from, i, end, stop, b) := s.work[t];
    var k := BlockOf(from);
    Locate(from);
    InBlock(i, k);
    forall c | 0 <= c < BLOCK_SIZE ensures s'.mem[b].cells[c] == Expected(s', Base(k) + c) {
      assert s.mem[b].cells[c] == Expected(s, Base(k) + c);
    }
  }

  lemma MoveOutFills(s: State, h: History, s': State, t: nat)
    requires Shape(s, h) && Shape(s', h) && FillsOk(s, h) && MovesOut(s, h, s', t)
    ensures FillsOk(s', h)
  {
    var MoveOut(from, i, end, stop, b) := s.work[t];
    var k := BlockOf(from);
    Locate(from);
    InBlock(i, k);
    forall j | 0 <= j < |h.fill| ensures FillOk(s', h, j) {
      assert FillOk(s, h, j);
      WorkUpdate(s.work, t, s'.work[t], j);
      if j == k {
        MovedCell(s, h, s', t);
      } else {
        if h.status[j] != Gone {
          OtherBlock(s, h, k, j);
        }
        forall x | Base(j) <= x < Base(j) + BLOCK_SIZE ensures Expected(s', x) == Expected(s, x) {
          InBlock(x, j);
        }
        FillFrame(s, h, s', h, j);
      }
    }
  }

  lemma MoveOutMoved(s: State, h: History, s': State, t: nat)
    requires Shape(s, h) && MovedOk(s) && MovesOut(s, h, s', t) && s.work[t].i < s.claim.head
    ensures MovedOk(s')
  {
    PendingFrame(s, s', t);
  }

  lemma MoveOutWorks(s: State, h: History, s': State, t: nat)
    requires Shape(s, h) && Shape(s', h) && WorksOk(s, h) && Claims.HasHistory(s.claim) && MovesOut(s, h, s', t)
    ensures WorksOk(s', h)
  {
    assert WorkOk(s, h, t);
    WorksFrame(s, h, s', h, t);
  }

  lemma MoveOutKeeps(s: State, h: History, s': State, t: nat)
    requires Inv(s, h) && MovesOut(s, h, s', t)
    ensures Inv(s', h)
  {
    assert WorkOk(s, h, t);
    StillLive(s, h, t, s.work[t].i);
    assert FillOk(s, h, BlockOf(s.work[t].from));
    MoveOutFills(s, h, s', t);
    RolesCells(s, h, s', s.work[t].block);
    RestFrame(s, h, s', h);
    MoveOutWorks(s, h, s', t);
    MoveOutMoved(s, h, s', t);
  }

  /** Moving an element out: it is the element enqueued at that index, and nobody moved it before. */
  lemma MoveOutIsRight(s: State, h: History, t: nat)
    requires Inv(s, h) && t < |s.work| && s.work[t].MoveOut?
    ensures var MoveOut(from, i, end, stop, b) := s.work[t];
      && 0 <= i < |s.log| && i !in s.moved
      && b < |s.mem| && Cell(i) < |s.mem[b].cells| && s.mem[b].cells[Cell(i)] == Some(s.log[i])
      && b !in s.pool && b !in s.freed && b !in s.foreign
    ensures Enabled(s, DoWork(t)) && MovesOut(s, h, WorkStep(s, t), t)
  {
    var MoveOut(from, i, end, stop, b) := s.work[t];
    var k := BlockOf(from);
    assert WorkOk(s, h, t);
    StillLive(s, h, t, from);
    StillLive(s, h, t, i);
    Locate(from);
    InBlock(i, k);
    assert s.mem[b].cells[Cell(i)] == Expected(s, Base(k) + Cell(i));
    assert RoleOk(s, h, b);
  }

  /** What `Onward` does for thread `t`, short of its other effects. */
  ghost predicate GoesOnward(s: State, s': State, t: nat, i: int, stop: int) {
    && t < |s.work| == |s'.work| == |s.claim.threads| == |s'.claim.threads|
    && Claims.HasHistory(s'.claim) && s'.claim.head == s.claim.head && s'.claim.tail == s.claim.tail
    && s'.work == s.work[t := if i == stop then NoWork else LookUp(i, stop)]
    && (i == stop <==> !s'.claim.threads[t].Holding?)
    && (i != stop ==> s'.claim.threads[t] == s.claim.threads[t])
    && (forall u :: 0 <= u < |s.work| && u != t ==> s'.claim.threads[u] == s.claim.threads[u])
  }

  /** Counting [from, end) takes exactly those indices from what block `k` has uncounted. */
  lemma CountedOff(work: seq<Work>, t: nat, w: Work, k: int, j: int)
    requires t < |work| && work[t].CountOut?
    requires var CountOut(from, end, stop, _) := work[t];
      && k == BlockOf(from) && from < end == Min(stop, Base(k) + BLOCK_SIZE)
      && ((w == NoWork && end == stop) || (w != NoWork && Uncounted(w) == end && w.stop == stop))
    ensures UncountedIn(work, j) - UncountedIn(work[t := w], j) == if j == k then work[t].end - work[t].from else 0
  {
    var CountOut(from, end, stop, _) := work[t];
    WorkUpdate(work, t, w, j);
    Locate(from);
    OverlapSplit(from, end, stop, j);
    if j != k {
      OverlapElsewhere(from, end, k, j);
    }
  }

  /** Thread `t` adds [from, end) to the counter of block `b`, which holds block number `k`. */
  ghost predicate CountsOut(s: State, h: History, s': State, t: nat)
    requires Shape(s, h)
  {
    && t < |s.work| == |s'.work| && s.work[t].CountOut?
    && var CountOut(from, end, stop, b) := s.work[t];
    && var k := BlockOf(from);
    && 0 <= k < |h.fill| && h.fill[k] == b && b < |s.mem| && h.status[k] == Live
    && from < end == Min(stop, Base(k) + BLOCK_SIZE)
    && s'.mem == s.mem[b := s.mem[b].(count := s.mem[b].count + (end - from))]
    && s' == s.(mem := s'.mem, claim := s'.claim, work := s'.work)
    && s'.claim.head == s.claim.head && s'.claim.tail == s.claim.tail
  }

  lemma CountOutFills(s: State, h: History, s': State, t: nat)
    requires Shape(s, h) && Shape(s', h) && FillsOk(s, h) && CountsOut(s, h, s', t)
    requires var CountOut(from, end, stop, b) := s.work[t];
      && s.mem[b].count + (end - from) != BLOCK_SIZE
      && s'.work == s.work[t := if end == stop then NoWork else LookUp(end, stop)]
    ensures FillsOk(s', h)
  {
    var k := BlockOf(s.work[t].from);
    forall j | 0 <= j < |h.fill| ensures FillOk(s', h, j) {
      assert FillOk(s, h, j);
      CountedOff(s.work, t, s'.work[t], k, j);
      if j != k {
        if h.status[j] != Gone {
          OtherBlock(s, h, k, j);
        }
        FillFrame(s, h, s', h, j);
      }
    }
  }

  lemma CountOutOnwardKeeps(s: State, h: History, s': State, t: nat)
    requires Inv(s, h) && CountsOut(s, h, s', t)
    requires var CountOut(from, end, stop, b) := s.work[t];
      s.mem[b].count + (end - from) != BLOCK_SIZE && GoesOnward(s, s', t, end, stop)
    ensures Inv(s', h)
  {
    assert WorkOk(s, h, t);
    assert FillOk(s, h, BlockOf(s.work[t].from));
    CountOutFills(s, h, s', t);
    RolesCells(s, h, s', s.work[t].block);
    assert RoleOk(s, h, s.work[t].block);
    RestFrame(s, h, s', h);
    WorksFrame(s, h, s', h, t);
    PendingFrame(s, s', t);
  }

  /** The counter of block number `k` is complete: thread `t` goes on to unlink the block. */
  ghost predicate Completes(s: State, h: History, s': State, t: nat)
    requires Shape(s, h)
  {
    && CountsOut(s, h, s', t)
    && var CountOut(from, end, stop, b) := s.work[t];
    && s.mem[b].count + (end - from) == BLOCK_SIZE
    && s'.claim == s.claim
    && s'.work == s.work[t := ClearEntry(BlockOf(from), end, stop, b)]
  }

  /** Every index of a block that is claimed and counted in full has been moved out. */
  lemma CompletedBlockIsMoved(s: State, h: History, t: nat, k: int)
    requires Shape(s, h) && WorksOk(s, h) && MovedOk(s) && t < |s.work| && s.work[t].CountOut?
    requires k == BlockOf(s.work[t].from) && k >= 0
    requires Overlap(0, s.claim.head, k) == BLOCK_SIZE
    requires UncountedIn(s.work, k) == s.work[t].end - s.work[t].from
    ensures AllMoved(s, k)
  {
    var CountOut(from, end, stop, b) := s.work[t];
    assert WorkOk(s, h, t);
    var done := ClearEntry(k, end, stop, b);
    var work' := s.work[t := done];
    CountedOff(s.work, t, done, k, k);
    forall i | Base(k) <= i < Base(k) + BLOCK_SIZE ensures i in s.moved {
      if i !in s.moved {
        assert k >= 0 ==> Base(k) >= 0;
        var u :| 0 <= u < |s.work| && Unmoved(s.work[u]) <= i < Stop(s.work[u]);
        assert WorkOk(s, h, u);
        WorkUpdate(work', u, NoWork, k);
      }
    }
  }

  lemma CompleteFills(s: State, h: History, s': State, h': History, t: nat)
    requires Shape(s, h) && Shape(s', h') && FillsOk(s, h) && WorksOk(s, h) && MovedOk(s)
    requires Completes(s, h, s', t)
    requires h' == h.(status := h.status[BlockOf(s.work[t].from) := Closing(t)])
    ensures FillsOk(s', h')
  {
    var k := BlockOf(s.work[t].from);
    var b := s.work[t].block;
    forall j | 0 <= j < |h.fill| ensures FillOk(s', h', j) {
      assert FillOk(s, h, j);
      CountedOff(s.work, t, s'.work[t], k, j);
      if j != k {
        if h.status[j] != Gone {
          OtherBlock(s, h, k, j);
        }
        FillFrame(s, h, s', h', j);
      } else {
        assert UncountedIn(s'.work, k) >= 0;
        CompletedBlockIsMoved(s, h, t, k);
        assert CellsOk(s, b, k);
        forall c | 0 <= c < BLOCK_SIZE ensures s'.mem[b].cells[c] == Expected(s', Base(k) + c) {
          assert s.mem[b].cells[c] == Expected(s, Base(k) + c);
        }
      }
    }
  }

  lemma CompleteKeeps(s: State, h: History, s': State, t: nat) returns (h': History)
    requires Inv(s, h) && Completes(s, h, s', t)
    ensures Inv(s', h')
  {
    var k := BlockOf(s.work[t].from);
    assert WorkOk(s, h, t);
    assert FillOk(s, h, k);
    assert RoleOk(s, h, s.work[t].block);
    h' := h.(status := h.status[k := Closing(t)]);
    CompleteFills(s, h, s', h', t);
    RolesCells(s, h, s', s.work[t].block);
    RolesStatus(s', h, h', k);
    RestFrame(s, h, s', h');
    WorksFrame(s, h, s', h', t);
    PendingFrame(s, s', t);
  }

  /** A block number that is not gone may change status otherwise. */
  lemma RolesStatus(s: State, h: History, h': History, k: int)
    requires Shape(s, h) && RolesOk(s, h) && 0 <= k < |h.status|
    requires h' == h.(status := h'.status) && |h'.status| == |h.status| && h'.status[k] != Gone
    requires forall j :: 0 <= j < |h.status| && j != k ==> h'.status[j] == h.status[j]
    ensures RolesOk(s, h')
  {
    forall b | 0 <= b < |s.mem| ensures RoleOk(s, h', b) {
      assert RoleOk(s, h, b);
    }
  }

  /** Thread `t` clears the index entry of the block it emptied. */
  ghost predicate Unlinks(s: State, s': State, t: nat) {
    && t < |s.work| && s.work[t].ClearEntry?
    && var ClearEntry(k, i, stop, b) := s.work[t];
    && s' == s.(entries := s.entries - {k}, work := s.work[t := GiveBack(k, i, stop, b)])
  }

  lemma UnlinkFills(s: State, h: History, s': State, t: nat)
    requires Shape(s, h) && Shape(s', h) && FillsOk(s, h) && WorksOk(s, h) && Unlinks(s, s', t)
    ensures FillsOk(s', h)
  {
    var k := s.work[t].k;
    assert WorkOk(s, h, t);
    forall j | 0 <= j < |h.fill| ensures FillOk(s', h, j) {
      assert FillOk(s, h, j);
      WorkUpdate(s.work, t, s'.work[t], j);
      if j != k {
        FillFrame(s, h, s', h, j);
      }
    }
  }

  lemma UnlinkKeeps(s: State, h: History, s': State, t: nat)
    requires Inv(s, h) && Unlinks(s, s', t)
    ensures Inv(s', h)
  {
    assert WorkOk(s, h, t);
    UnlinkFills(s, h, s', t);
    RolesFrame(s, h, s');
    ClosedBelowTail(s, h, s.work[t].k);
    WorksFrame(s, h, s', h, t);
    PendingFrame(s, s', t);
  }

  /** A block number claimed in full lies below the tail. */
  lemma ClosedBelowTail(s: State, h: History, k: int)
    requires Shape(s, h) && FillsOk(s, h) && 0 <= k < |h.fill| && h.status[k] != Live && Claims.HasHistory(s.claim)
    ensures 0 <= k < BlocksBelow(s.claim.tail) && Base(k) + BLOCK_SIZE <= s.claim.head <= s.claim.tail
  {
    assert FillOk(s, h, k);
    Claims.HeadBound(s.claim);
    BlocksBelowBounds(s.claim.tail);
    if k >= BlocksBelow(s.claim.tail) {
      if k > BlocksBelow(s.claim.tail) {
        BaseMonotone(BlocksBelow(s.claim.tail), k);
      }
    }
  }

  /** Thread `t` gives back the block it unlinked and goes on. */
  ghost predicate GivesBack(s: State, s': State, t: nat) {
    && t < |s.work| && s.work[t].GiveBack?
    && var GiveBack(k, i, stop, b) := s.work[t];
    && b < |s.mem| && GoesOnward(s, s', t, i, stop)
    && s' == ReturnBlock(s, b).(released := s.released + [k], claim := s'.claim, work := s'.work)
  }

  lemma GiveBackFills(s: State, h: History, s': State, h': History, t: nat)
    requires Shape(s, h) && Shape(s', h') && FillsOk(s, h) && WorksOk(s, h) && GivesBack(s, s', t)
    requires 0 <= s.work[t].k < |h.status| && s.work[t].block < |h.role|
    requires h'.fill == h.fill && h'.status == h.status[s.work[t].k := Gone]
    requires h'.role == h.role[s.work[t].block := h'.role[s.work[t].block]]
    ensures FillsOk(s', h')
  {
    var GiveBack(k, i, stop, b) := s.work[t];
    assert WorkOk(s, h, t);
    assert FillOk(s, h, k);
    forall j | 0 <= j < |h.fill| ensures FillOk(s', h', j) {
      WorkUpdate(s.work, t, s'.work[t], j);
      assert j in s'.released <==> j in s.released || j == k;
      if j != k {
        GiveBackOther(s, h, s', h', t, j);
      }
    }
  }

  lemma GiveBackOther(s: State, h: History, s': State, h': History, t: nat, j: int)
    requires Shape(s, h) && Shape(s', h') && FillsOk(s, h) && GivesBack(s, s', t)
    requires 0 <= s.work[t].k < |h.status| && s.work[t].block < |h.role| && h.status[s.work[t].k] == Closing(t)
    requires h.fill[s.work[t].k] == s.work[t].block
    requires h'.fill == h.fill && h'.status == h.status[s.work[t].k := Gone]
    requires h'.role == h.role[s.work[t].block := h'.role[s.work[t].block]]
    requires 0 <= j < |h.fill| && j != s.work[t].k && UncountedIn(s'.work, j) == UncountedIn(s.work, j)
    requires j in s'.released <==> j in s.released
    ensures FillOk(s', h', j)
  {
    assert FillOk(s, h, j);
    if h.status[j] != Gone {
      OtherBlock(s, h, s.work[t].k, j);
    }
    FillFrame(s, h, s', h', j);
  }

  lemma GiveBackRoles(s: State, h: History, s': State, h': History, t: nat)
    requires Shape(s, h) && Shape(s', h') && RolesOk(s, h) && FillsOk(s, h) && WorksOk(s, h) && GivesBack(s, s', t)
    requires 0 <= s.work[t].k < |h.status| && s.work[t].block < |h.role|
    requires var b := s.work[t].block;
      h' == h.(status := h.status[s.work[t].k := Gone], role := h.role[b := if IsDestroyed(s.mem[b]) then Destroyed else Pooled])
    ensures RolesOk(s', h') && (s.work[t].block !in s.pool)
  {
    var GiveBack(k, i, stop, b) := s.work[t];
    assert WorkOk(s, h, t);
    assert FillOk(s, h, k);
    assert s.mem[b].cells == EmptyCells() by {
      forall c | 0 <= c < BLOCK_SIZE ensures s.mem[b].cells[c] == None {
        assert s.mem[b].cells[c] == Expected(s, Base(k) + c);
      }
    }
    forall c | 0 <= c < |s.mem| ensures RoleOk(s', h', c) {
      assert RoleOk(s, h, c);
      if !IsDestroyed(s.mem[b]) {
        assert c in s'.pool <==> c in s.pool || c == b;
      }
    }
    assert RoleOk(s, h, b);
  }

  lemma GiveBackProd(s: State, h: History, s': State, h': History, t: nat)
    requires Shape(s, h) && ProdOk(s, h) && EntriesOk(s, h) && GivesBack(s, s', t)
    requires h'.fill == h.fill && |h'.status| == |h.status|
    ensures ProdOk(s', h') && EntriesOk(s', h')
  {
  }

  lemma GiveBackPool(s: State, h: History, s': State, h': History, t: nat)
    requires Shape(s, h) && PoolOk(s) && ReleasedOk(s, h) && GivesBack(s, s', t)
    requires 0 <= s.work[t].k < |h.status| && s.work[t].block !in s.pool && s.work[t].k !in s.released
    requires h'.fill == h.fill && h'.status == h.status[s.work[t].k := Gone]
    ensures PoolOk(s') && ReleasedOk(s', h')
  {
  }

  lemma GiveBackKeeps(s: State, h: History, s': State, t: nat) returns (h': History)
    requires Inv(s, h) && GivesBack(s, s', t)
    ensures Inv(s', h')
  {
    hide ProdOk, EntriesOk, PoolOk, RoleOk;
    var GiveBack(k, i, stop, b) := s.work[t];
    assert WorkOk(s, h, t);
    assert FillOk(s, h, k);
    h' := h.(status := h.status[k := Gone], role := h.role[b := if IsDestroyed(s.mem[b]) then Destroyed else Pooled]);
    GiveBackFills(s, h, s', h', t);
    GiveBackRoles(s, h, s', h', t);
    GiveBackProd(s, h, s', h', t);
    GiveBackPool(s, h, s', h', t);
    WorksFrame(s, h, s', h', t);
    PendingFrame(s, s', t);
  }

  // ---------- The producer's steps keep the invariant ----------

  /** Block numbers below the tail keep what consumers know of them. */
  lemma WorksStay(s: State, h: History, s': State, h': History)
    requires Inv(s, h) && Shape(s', h')
    requires s'.work == s.work && s'.claim.threads == s.claim.threads && s'.moved == s.moved
    requires BlocksBelow(s.claim.tail) <= |h'.fill|
    requires forall k :: 0 <= k < BlocksBelow(s.claim.tail) ==> h'.fill[k] == h.fill[k] && h'.status[k] == h.status[k]
    ensures WorksOk(s', h')
  {
    forall t | 0 <= t < |s.work| ensures WorkOk(s', h', t) {
      assert WorkOk(s, h, t);
      if s.work[t].MoveOut? || s.work[t].CountOut? {
        StillLive(s, h, t, s.work[t].from);
      } else if s.work[t].ClearEntry? || s.work[t].GiveBack? {
        ClosedBelowTail(s, h, s.work[t].k);
      }
    }
  }

  /** Blocks that hold block numbers stay as they are. */
  lemma FillsStay(s: State, h: History, s': State, h': History)
    requires Shape(s, h) && Shape(s', h') && FillsOk(s, h) && |h'.fill| <= |h.fill| && |s.mem| <= |s'.mem|
    requires s'.work == s.work && s'.claim == s.claim && s'.moved == s.moved && s'.released == s.released
    requires forall i :: Expected(s', i) == Expected(s, i)
    requires forall k :: 0 <= k < |h'.fill| ==>
               && h'.fill[k] == h.fill[k] && h'.status[k] == h.status[k]
               && (k in s.entries <==> k in s'.entries) && (k in s.entries ==> s'.entries[k] == s.entries[k])
    requires forall b :: 0 <= b < |s.mem| ==> |s'.mem[b].cells| == |s.mem[b].cells|
    requires forall b :: 0 <= b < |s.mem| && h.role[b].Fills? && h.role[b].k < |h'.fill| ==>
               s'.mem[b] == s.mem[b] && h'.role[b] == h.role[b]
    ensures FillsOk(s', h')
  {
    forall k | 0 <= k < |h'.fill| ensures FillOk(s', h', k) {
      assert FillOk(s, h, k);
      FillFrame(s, h, s', h', k);
    }
  }

  lemma StartKeeps(s: State, h: History, items: seq<Element>)
    requires Inv(s, h) && s.prod == Quiet
    ensures Inv(s.(prod := Goto(items, [], s.claim.tail)), h)
  {
    var s' := s.(prod := Goto(items, [], s.claim.tail));
    BlocksBelowMonotone(s.claim.tail, s.claim.tail + |items|);
    FillsStay(s, h, s', h);
    RolesFrame(s, h, s');
    WorksStay(s, h, s', h);
  }

  /** The next block comes from the pool. */
  lemma FromPoolKeeps(s: State, h: History, s': State, j: nat) returns (h': History)
    requires Inv(s, h) && s.prod.Reserving? && j < |s.pool|
    requires s' == s.(pool := s.pool[..j] + s.pool[j + 1..], prod := Resetting(s.prod.items, s.prod.got, s.pool[j]))
    ensures Inv(s', h')
  {
    var b := s.pool[j];
    h' := h.(role := h.role[b := InHand]);
    assert RoleOk(s, h, b);
    FillsStay(s, h, s', h');
    FromPoolRoles(s, h, s', h', j);
    WorksStay(s, h, s', h');
  }

  lemma FromPoolRoles(s: State, h: History, s': State, h': History, j: nat)
    requires Shape(s, h) && RolesOk(s, h) && PoolOk(s) && s.prod.Reserving? && j < |s.pool|
    requires s' == s.(pool := s.pool[..j] + s.pool[j + 1..], prod := Resetting(s.prod.items, s.prod.got, s.pool[j]))
    requires Shape(s', h') && h' == h.(role := h.role[s.pool[j] := InHand])
    ensures RolesOk(s', h') && PoolOk(s')
  {
    forall c | 0 <= c < |s.mem| ensures RoleOk(s', h', c) {
      assert RoleOk(s, h, c);
      if c in s.pool && c != s.pool[j] {
        var i :| 0 <= i < |s.pool| && s.pool[i] == c;
        assert s'.pool[if i < j then i else i - 1] == c;
      }
    }
  }

  /** The next block is allocated. */
  lemma FreshKeeps(s: State, h: History, s': State) returns (h': History)
    requires Inv(s, h) && s.prod.Reserving?
    requires s' == s.(mem := s.mem + [Block(0, EmptyCells(), true)], prod := Resetting(s.prod.items, s.prod.got, |s.mem|))
    ensures Inv(s', h')
  {
    h' := h.(role := h.role + [InHand]);
    FillsStay(s, h, s', h');
    FreshRoles(s, h, s', h');
    WorksStay(s, h, s', h');
  }

  lemma FreshRoles(s: State, h: History, s': State, h': History)
    requires Shape(s, h) && RolesOk(s, h) && PoolOk(s) && s.prod.Reserving?
    requires s' == s.(mem := s.mem + [Block(0, EmptyCells(), true)], prod := Resetting(s.prod.items, s.prod.got, |s.mem|))
    requires Shape(s', h') && h' == h.(role := h.role + [InHand])
    ensures RolesOk(s', h') && PoolOk(s')
  {
    forall c | 0 <= c < |s'.mem| ensures RoleOk(s', h', c) {
      if c < |s.mem| {
        assert RoleOk(s, h, c);
      }
    }
  }

  lemma BlocksBelowMonotone(i: int, j: int)
    requires i <= j
    ensures BlocksBelow(i) <= BlocksBelow(j)
  {
    BlocksBelowBounds(i);
    BlocksBelowBounds(j);
    if BlocksBelow(j) < BlocksBelow(i) {
      BaseMonotone(BlocksBelow(j), BlocksBelow(i));
    }
  }

  /** The blocks a failing enqueue took into use are untouched: nothing was written to them. */
  lemma UnusedFill(s: State, h: History, k: int)
    requires Inv(s, h) && !s.prod.Writing? && BlocksBelow(s.claim.tail) <= k < |h.fill|
    ensures h.fill[k] < |s.mem| && h.status[k] == Live && s.mem[h.fill[k]].cells == EmptyCells() && k !in s.released
    ensures h.role[h.fill[k]] == Fills(k) && k in s.entries && s.entries[k] == h.fill[k]
  {
    var b := h.fill[k];
    BlocksBelowBounds(s.claim.tail);
    if BlocksBelow(s.claim.tail) < k {
      BaseMonotone(BlocksBelow(s.claim.tail), k);
    }
    assert FillOk(s, h, k);
    if h.status[k] != Live {
      ClosedBelowTail(s, h, k);
    }
    forall c | 0 <= c < BLOCK_SIZE ensures s.mem[b].cells[c] == None {
      assert s.mem[b].cells[c] == Expected(s, Base(k) + c);
    }
  }

  /** An allocation fails: the blocks taken into use so far are in the producer's hands again. */
  lemma FailKeeps(s: State, h: History) returns (h': History)
    requires Inv(s, h) && s.prod.Reserving?
    ensures Inv(s.(prod := UndoingEntries(s.prod.got, 0)), h')
  {
    var nb := BlocksBelow(s.claim.tail);
    var got := s.prod.got;
    var s' := s.(prod := UndoingEntries(got, 0));
    h' := History(h.fill[..nb], h.status[..nb], seq(|h.role|, b requires 0 <= b < |h.role| => if b in got then InHand else h.role[b]));
    forall k | nb <= k < |h.fill| ensures k in s.entries && s.entries[k] == h.fill[k] && h.status[k] == Live {
      UnusedFill(s, h, k);
    }
    FailRoles(s, h, s', h');
    FailRest(s, h, s', h');
    FillsStay(s, h, s', h');
    WorksStay(s, h, s', h');
  }

  lemma FailRest(s: State, h: History, s': State, h': History)
    requires Shape(s, h) && ProdOk(s, h) && EntriesOk(s, h) && PoolOk(s) && ReleasedOk(s, h)
    requires s.prod.Reserving? && s' == s.(prod := UndoingEntries(s.prod.got, 0))
    requires var nb := BlocksBelow(s.claim.tail);
      && h'.fill == h.fill[..nb] && h'.status == h.status[..nb]
      && (forall k :: nb <= k < |h.fill| ==> k in s.entries && s.entries[k] == h.fill[k] && h.status[k] == Live)
    requires forall i, j :: 0 <= i < j < |s.prod.got| ==> s.prod.got[i] != s.prod.got[j]
    requires forall j :: 0 <= j < |s.prod.got| ==> s.prod.got[j] < |s.mem|
    ensures ProdOk(s', h') && EntriesOk(s', h') && PoolOk(s') && ReleasedOk(s', h')
  {
    var nb := BlocksBelow(s.claim.tail);
    forall j | 0 <= j < |s.released| ensures 0 <= s.released[j] < nb && h'.status[s.released[j]] == Gone {
      assert h.status[s.released[j]] == Gone;
    }
  }

  lemma FailRoles(s: State, h: History, s': State, h': History)
    requires Inv(s, h) && s.prod.Reserving? && s' == s.(prod := UndoingEntries(s.prod.got, 0))
    requires var nb := BlocksBelow(s.claim.tail);
      && nb >= 0 && |h.fill| >= nb && |h.status| >= nb
      && h' == History(h.fill[..nb], h.status[..nb],
                    seq(|h.role|, b requires 0 <= b < |h.role| => if b in s.prod.got then InHand else h.role[b]))
    ensures RolesOk(s', h')
    ensures forall i, j :: 0 <= i < j < |s.prod.got| ==> s.prod.got[i] != s.prod.got[j]
    ensures forall j :: 0 <= j < |s.prod.got| ==> s.prod.got[j] < |s.mem|
    ensures forall b :: 0 <= b < |s.mem| && h.role[b].Fills? && h.role[b].k < |h'.fill| ==> h'.role[b] == h.role[b]
  {
    var nb := BlocksBelow(s.claim.tail);
    var got := s.prod.got;
    forall j | 0 <= j < |got|
      ensures got[j] < |s.mem| && h.role[got[j]] == Fills(nb + j) && s.mem[got[j]].cells == EmptyCells()
    {
      UnusedFill(s, h, nb + j);
      assert FillOk(s, h, nb + j);
      assert h.fill[nb + j] == got[nb + j - nb];
    }
    forall c | 0 <= c < |s.mem| ensures RoleOk(s', h', c) {
      assert RoleOk(s, h, c);
      if h.role[c].Fills? && h.role[c].k >= nb {
        assert got[h.role[c].k - nb] == c;
      }
    }
  }

  lemma ResettingKeeps(s: State, h: History, s': State)
    requires Inv(s, h) && s.prod.Resetting? && s.prod.block < |s.mem|
    requires var Resetting(items, got, b) := s.prod;
      s' == s.(mem := s.mem[b := s.mem[b].(count := 0)], prod := Entering(items, got, b))
    ensures Inv(s', h)
  {
    assert RoleOk(s, h, s.prod.block);
    FillsStay(s, h, s', h);
    RolesFrame(s, h, s');
    WorksStay(s, h, s', h);
  }

  /** No consumer has claimed anything in a block number at or above the tail. */
  lemma {:induction false} NothingClaimedAbove(work: seq<Work>, bound: int, k: int)
    requires forall t :: 0 <= t < |work| ==> Stop(work[t]) <= bound
    requires bound <= Base(k)
    ensures UncountedIn(work, k) == 0
  {
    if work != [] {
      NothingClaimedAbove(work[1..], bound, k);
    }
  }

  lemma FreshFill(s: State, h: History, k: int)
    requires Inv(s, h) && k == |h.fill| && !s.prod.Writing? && |h.fill| >= BlocksBelow(s.claim.tail)
    ensures UncountedIn(s.work, k) == 0 && Overlap(0, s.claim.head, k) == 0
    ensures forall i :: i >= Base(k) ==> Expected(s, i) == None
    ensures k !in s.released
  {
    Claims.HeadBound(s.claim);
    BlocksBelowBounds(s.claim.tail);
    if BlocksBelow(s.claim.tail) < k {
      BaseMonotone(BlocksBelow(s.claim.tail), k);
    }
    forall t | 0 <= t < |s.work| ensures Stop(s.work[t]) <= s.claim.tail {
      assert WorkOk(s, h, t);
      if s.work[t] != NoWork {
        Claims.TicketBounds(s.claim, t);
      }
    }
    NothingClaimedAbove(s.work, s.claim.tail, k);
  }

  /** The block enters the index and holds the next block number from now on. */
  lemma EnteringKeeps(s: State, h: History, s': State) returns (h': History)
    requires Inv(s, h) && s.prod.Entering?
    requires var Entering(items, got, b) := s.prod;
      s' == s.(entries := s.entries[BlocksBelow(s.claim.tail) + |got| := b], prod := Goto(items, got + [b], s.claim.tail))
    ensures Inv(s', h')
  {
    var Entering(items, got, b) := s.prod;
    var k := |h.fill|;
    assert RoleOk(s, h, b);
    h' := History(h.fill + [b], h.status + [Live], h.role[b := Fills(k)]);
    FreshFill(s, h, k);
    EnteringFills(s, h, s', h');
    EnteringRoles(s, h, s', h');
    WorksStay(s, h, s', h');
  }

  lemma EnteringFills(s: State, h: History, s': State, h': History)
    requires Shape(s, h) && Shape(s', h') && FillsOk(s, h) && s.prod.Entering? && (s'.prod.Writing? ==> s'.prod.w == 0)
    requires var Entering(items, got, b) := s.prod; var k := |h.fill|;
      && b < |s.mem| && s.mem[b] == Block(0, EmptyCells(), s.mem[b].dynamic) && h.role[b] == InHand
      && s' == s.(entries := s.entries[k := b], prod := s'.prod)
      && h' == History(h.fill + [b], h.status + [Live], h.role[b := Fills(k)])
      && UncountedIn(s.work, k) == 0 && Overlap(0, s.claim.head, k) == 0 && k !in s.released
      && (forall i :: i >= Base(k) ==> Expected(s, i) == None)
    ensures FillsOk(s', h')
  {
    var k := |h.fill|;
    forall j | 0 <= j < |h'.fill| ensures FillOk(s', h', j) {
      if j < k {
        assert FillOk(s, h, j);
        FillFrame(s, h, s', h', j);
      } else {
        forall i | i >= Base(k) ensures Expected(s', i) == None {
          assert Expected(s, i) == None;
        }
      }
    }
  }

  lemma EnteringRoles(s: State, h: History, s': State, h': History)
    requires Shape(s, h) && Shape(s', h') && RolesOk(s, h) && s.prod.Entering? && Hand(s'.prod) == []
    requires var Entering(items, got, b) := s.prod; var k := |h.fill|;
      && b < |s.mem| && s' == s.(entries := s'.entries, prod := s'.prod)
      && h' == History(h.fill + [b], h.status + [Live], h.role[b := Fills(k)])
    ensures RolesOk(s', h')
  {
    forall c | 0 <= c < |s.mem| ensures RoleOk(s', h', c) {
      assert RoleOk(s, h, c);
    }
    assert RoleOk(s, h, s.prod.block);
  }

  lemma UndoEntryKeeps(s: State, h: History, s': State)
    requires Inv(s, h) && s.prod.UndoingEntries? && s.prod.j <= |s.prod.got|
    requires var UndoingEntries(got, j) := s.prod;
      s' == if j == |got| then s.(prod := UndoingBlocks(got, 0))
            else s.(entries := s.entries - {BlocksBelow(s.claim.tail) + j}, prod := UndoingEntries(got, j + 1))
    ensures Inv(s', h)
  {
    hide FillOk, RoleOk, WorkOk, EntriesOk, ProdOk, MovedOk;
    UndoEntryProd(s, h, s');
    BelowEntries(s, h);
    FillsStay(s, h, s', h);
    RolesFrame(s, h, s');
    WorksStay(s, h, s', h);
    MovedStays(s, s');
  }

  lemma BelowEntries(s: State, h: History)
    requires Shape(s, h) && ProdOk(s, h) && s.prod.UndoingEntries?
    ensures |h.fill| == BlocksBelow(s.claim.tail)
  {
  }

  lemma MovedStays(s: State, s': State)
    requires MovedOk(s) && s'.log == s.log && s'.claim == s.claim && s'.work == s.work && s'.moved == s.moved
    ensures MovedOk(s')
  {
  }

  lemma UndoEntryProd(s: State, h: History, s': State)
    requires Shape(s, h) && ProdOk(s, h) && EntriesOk(s, h) && s.prod.UndoingEntries? && s.prod.j <= |s.prod.got|
    requires var UndoingEntries(got, j) := s.prod;
      s' == if j == |got| then s.(prod := UndoingBlocks(got, 0))
            else s.(entries := s.entries - {BlocksBelow(s.claim.tail) + j}, prod := UndoingEntries(got, j + 1))
    ensures ProdOk(s', h) && EntriesOk(s', h) && Hand(s'.prod) == Hand(s.prod)
  {
    var UndoingEntries(got, j) := s.prod;
    assert got[0..] == got;
    assert Hand(s'.prod) == Hand(s.prod);
  }

  lemma UndoBlockKeeps(s: State, h: History, s': State) returns (h': History)
    requires Inv(s, h) && s.prod.UndoingBlocks? && s.prod.j <= |s.prod.got|
    requires var UndoingBlocks(got, j) := s.prod;
      && (j < |got| ==> got[j] < |s.mem|)
      && s' == if j == |got| then s.(prod := Quiet)
               else ReturnBlock(s, got[j]).(prod := UndoingBlocks(got, j + 1))
    ensures Inv(s', h')
  {
    var UndoingBlocks(got, j) := s.prod;
    if j == |got| {
      h' := h;
      RolesFrame(s, h, s');
    } else {
      var b := got[j];
      assert Hand(s.prod)[0] == b;
      assert RoleOk(s, h, b);
      h' := h.(role := h.role[b := if IsDestroyed(s.mem[b]) then Destroyed else Pooled]);
      UndoBlockRoles(s, h, s', h');
    }
    UndoBlockProd(s, h, s', h');
    FillsStay(s, h, s', h');
    WorksStay(s, h, s', h');
  }

  lemma UndoBlockProd(s: State, h: History, s': State, h': History)
    requires Shape(s, h) && ProdOk(s, h) && EntriesOk(s, h) && s.prod.UndoingBlocks? && s.prod.j <= |s.prod.got|
    requires var UndoingBlocks(got, j) := s.prod;
      s'.prod == if j == |got| then Quiet else UndoingBlocks(got, j + 1)
    requires s'.claim == s.claim && s'.tailBlock == s.tailBlock && s'.entries == s.entries && |s'.mem| == |s.mem|
    requires h'.fill == h.fill && h'.status == h.status
    ensures ProdOk(s', h') && EntriesOk(s', h')
  {
    assert forall i :: 0 <= i < |Hand(s'.prod)| ==> Hand(s'.prod)[i] == Hand(s.prod)[i + 1];
  }

  lemma UndoBlockRoles(s: State, h: History, s': State, h': History)
    requires Shape(s, h) && RolesOk(s, h) && PoolOk(s) && s.prod.UndoingBlocks? && s.prod.j < |s.prod.got|
    requires forall i, j :: 0 <= i < j < |Hand(s.prod)| ==> Hand(s.prod)[i] != Hand(s.prod)[j]
    requires var UndoingBlocks(got, j) := s.prod; var b := got[j];
      && b < |s.mem| && s' == ReturnBlock(s, b).(prod := UndoingBlocks(got, j + 1))
      && h' == h.(role := h.role[b := if IsDestroyed(s.mem[b]) then Destroyed else Pooled])
    ensures Shape(s', h') && RolesOk(s', h') && PoolOk(s')
  {
    hide Hand;
    var UndoingBlocks(got, j) := s.prod;
    var b := got[j];
    NextInHand(s.prod);
    assert RoleOk(s, h, b);
    forall c | 0 <= c < |s.mem| ensures RoleOk(s', h', c) {
      assert RoleOk(s, h, c);
      assert c in Hand(s.prod) <==> c == b || c in Hand(s'.prod);
    }
  }

  lemma NextInHand(p: Producer)
    requires p.UndoingBlocks? && p.j < |p.got|
    requires forall i, j :: 0 <= i < j < |Hand(p)| ==> Hand(p)[i] != Hand(p)[j]
    ensures var rest := Hand(UndoingBlocks(p.got, p.j + 1));
      && p.got[p.j] !in rest && forall c :: c in Hand(p) <==> c == p.got[p.j] || c in rest
  {
    assert Hand(p) == [p.got[p.j]] + Hand(UndoingBlocks(p.got, p.j + 1));
  }

  // ---------- Writing and publishing ----------

  /** Where the next item goes: a live block the producer owns, to a cell that holds nothing. */
  lemma WriteIsRight(s: State, h: History)
    requires Inv(s, h) && s.prod.Writing? && s.prod.w < |s.prod.items|
    ensures var x := s.claim.tail + s.prod.w;
      var k := BlockOf(x);
      var b := WriteTarget(s, s.prod.got, x);
      && 0 <= k < |h.fill| && h.status[k] == Live && b == Some(h.fill[k]) && b.value < |s.mem|
      && |s.mem[b.value].cells| == BLOCK_SIZE && Cell(x) < BLOCK_SIZE && s.mem[b.value].cells[Cell(x)] == None
      && b.value !in s.pool && b.value !in s.freed && b.value !in s.foreign && s.claim.head <= x
      && h.role[b.value] == Fills(k)
  {
    var Writing(items, got, w) := s.prod;
    var tail := s.claim.tail;
    var x := tail + w;
    var k := BlockOf(x);
    var nb := BlocksBelow(tail);
    Claims.HeadBound(s.claim);
    BlocksBelowBounds(tail);
    BlocksBelowBounds(tail + |items|);
    Locate(x);
    BelowBlocks(x, tail + |items|);
    AboveBlocks(tail, x);
    if k < nb {
      assert k == nb - 1 && Cell(tail) != 0;
    }
    assert FillOk(s, h, k);
    if h.status[k] != Live {
      ClosedBelowTail(s, h, k);
    }
    assert s.mem[h.fill[k]].cells[Cell(x)] == Expected(s, Base(k) + Cell(x));
    assert RoleOk(s, h, h.fill[k]);
  }

  lemma BelowBlocks(x: int, limit: int)
    requires x < limit
    ensures BlockOf(x) < BlocksBelow(limit)
  {
    Locate(x);
    BlocksBelowBounds(limit);
    if BlockOf(x) >= BlocksBelow(limit) && BlockOf(x) > BlocksBelow(limit) {
      BaseMonotone(BlocksBelow(limit), BlockOf(x));
    }
  }

  lemma AboveBlocks(tail: int, x: int)
    requires tail <= x
    ensures BlockOf(x) >= BlocksBelow(tail) - 1
    ensures BlockOf(x) < BlocksBelow(tail) ==> Cell(tail) != 0
  {
    Locate(x);
    BlocksBelowBounds(tail);
    if BlockOf(x) < BlocksBelow(tail) - 1 {
      BaseMonotone(BlockOf(x), BlocksBelow(tail) - 1);
    }
    if BlockOf(x) < BlocksBelow(tail) {
      BaseMonotone(BlockOf(x), BlocksBelow(tail));
    }
  }

  /** The next item is written to its cell. */
  ghost predicate Writes(s: State, h: History, s': State)
    requires Shape(s, h)
  {
    && s.prod.Writing? && s.prod.w < |s.prod.items|
    && var Writing(items, got, w) := s.prod;
    && var x := s.claim.tail + w;
    && var k := BlockOf(x);
    && 0 <= k < |h.fill| && h.status[k] == Live && h.fill[k] < |s.mem|
    && var b := h.fill[k];
    && |s.mem[b].cells| == BLOCK_SIZE && Cell(x) < BLOCK_SIZE && h.role[b] == Fills(k)
    && s.claim.head <= x
    && s' == s.(mem := s.mem[b := s.mem[b].(cells := s.mem[b].cells[Cell(x) := Some(items[w])])],
                prod := Writing(items, got, w + 1))
  }

  lemma WrittenCell(s: State, h: History, s': State)
    requires Shape(s, h) && Shape(s', h) && MovedOk(s) && Writes(s, h, s')
    requires CellsOk(s, h.fill[BlockOf(s.claim.tail + s.prod.w)], BlockOf(s.claim.tail + s.prod.w))
    ensures CellsOk(s', h.fill[BlockOf(s.claim.tail + s.prod.w)], BlockOf(s.claim.tail + s.prod.w))
  {
    var x := s.claim.tail + s.prod.w;
    var k := BlockOf(x);
    var b := h.fill[k];
    Locate(x);
    forall c | 0 <= c < BLOCK_SIZE ensures s'.mem[b].cells[c] == Expected(s', Base(k) + c) {
      assert s.mem[b].cells[c] == Expected(s, Base(k) + c);
    }
  }

  lemma WriteFills(s: State, h: History, s': State)
    requires Shape(s, h) && Shape(s', h) && FillsOk(s, h) && MovedOk(s) && Writes(s, h, s')
    ensures FillsOk(s', h)
  {
    var x := s.claim.tail + s.prod.w;
    var k := BlockOf(x);
    forall j | 0 <= j < |h.fill| ensures FillOk(s', h, j) {
      assert FillOk(s, h, j);
      if j == k {
        WrittenCell(s, h, s');
      } else {
        if h.status[j] != Gone {
          OtherBlock(s, h, k, j);
        }
        forall i | Base(j) <= i < Base(j) + BLOCK_SIZE ensures Expected(s', i) == Expected(s, i) {
          InBlock(i, j);
        }
        FillFrame(s, h, s', h, j);
      }
    }
  }

  lemma WriteKeeps(s: State, h: History, s': State)
    requires Inv(s, h) && Writes(s, h, s')
    ensures Inv(s', h)
  {
    WriteFills(s, h, s');
    RolesCells(s, h, s', h.fill[BlockOf(s.claim.tail + s.prod.w)]);
    WorksStay(s, h, s', h);
  }

  /** The new tail is published. */
  lemma PublishKeeps(s: State, h: History, s': State)
    requires Inv(s, h) && s.prod.Writing? && s.prod.w == |s.prod.items|
    requires var Writing(items, got, w) := s.prod;
      s' == s.(claim := s.claim.(tail := s.claim.tail + |items|), log := s.log + items, prod := Quiet,
               tailBlock := if got == [] then s.tailBlock else Some(got[|got| - 1]))
    requires Claims.HasHistory(s'.claim)
    ensures Inv(s', h)
  {
    var Writing(items, got, w) := s.prod;
    forall k | 0 <= k < |h.fill| ensures FillOk(s', h, k) {
      forall i ensures Expected(s', i) == Expected(s, i) {
      }
      assert FillOk(s, h, k);
      FillFrame(s, h, s', h, k);
    }
    RolesFrame(s, h, s');
    WorksStay(s, h, s', h);
    BlocksBelowBounds(s.claim.tail);
    BlocksBelowBounds(s'.claim.tail);
    if got != [] {
      assert h.fill[|h.fill| - 1] == got[|h.fill| - 1 - BlocksBelow(s.claim.tail)];
    }
  }

  // ---------- Other producers ----------

  lemma OthersKeep(s: State, h: History, o: Other) returns (h': History)
    requires Inv(s, h) && OthersMay(s, o)
    ensures Inv(OthersStep(s, o), h')
  {
    var s' := OthersStep(s, o);
    match o
    case TakeBlock(j) =>
      h' := h.(role := h.role[s.pool[j] := Foreign]);
      assert RoleOk(s, h, s.pool[j]);
      OthersTakeRoles(s, h, s', h', j);
      OthersRest(s, h, s', h');
    case Allocate =>
      h' := h.(role := h.role + [Foreign]);
      OthersAllocateRoles(s, h, s', h');
      OthersRest(s, h, s', h');
    case Use(b, now) =>
      h' := h;
      assert RoleOk(s, h, b);
      OthersUseRoles(s, h, s', b);
      OthersRest(s, h, s', h');
    case Return(b) =>
      h' := h.(role := h.role[b := if IsDestroyed(s.mem[b]) then Destroyed else Pooled]);
      assert RoleOk(s, h, b);
      OthersReturnRoles(s, h, s', h', b);
      OthersRest(s, h, s', h');
  }

  /** What is this producer's own stays as it is. */
  lemma OthersRest(s: State, h: History, s': State, h': History)
    requires Inv(s, h) && Shape(s', h') && RolesOk(s', h') && PoolOk(s')
    requires s' == s.(mem := s'.mem, pool := s'.pool, freed := s'.freed, foreign := s'.foreign)
    requires h'.fill == h.fill && h'.status == h.status && |s.mem| <= |s'.mem|
    requires forall b :: 0 <= b < |s.mem| ==> |s'.mem[b].cells| == |s.mem[b].cells|
    requires forall b :: 0 <= b < |s.mem| && (h.role[b].Fills? || h.role[b].InHand?) ==>
               s'.mem[b] == s.mem[b] && h'.role[b] == h.role[b]
    ensures Inv(s', h')
  {
    if s.prod.Entering? {
      assert Hand(s.prod)[0] == s.prod.block;
      assert RoleOk(s, h, s.prod.block);
    }
    FillsStay(s, h, s', h');
    WorksStay(s, h, s', h');
  }

  lemma OthersTakeRoles(s: State, h: History, s': State, h': History, j: nat)
    requires Shape(s, h) && RolesOk(s, h) && PoolOk(s) && j < |s.pool|
    requires s' == s.(pool := s.pool[..j] + s.pool[j + 1..], foreign := s.foreign + {s.pool[j]})
    requires h' == h.(role := h.role[s.pool[j] := Foreign])
    ensures Shape(s', h') && RolesOk(s', h') && PoolOk(s')
  {
    forall c | 0 <= c < |s.mem| ensures RoleOk(s', h', c) {
      assert RoleOk(s, h, c);
      if c in s.pool && c != s.pool[j] {
        var i :| 0 <= i < |s.pool| && s.pool[i] == c;
        assert s'.pool[if i < j then i else i - 1] == c;
      }
    }
  }

  lemma OthersAllocateRoles(s: State, h: History, s': State, h': History)
    requires Shape(s, h) && RolesOk(s, h) && PoolOk(s) && ProdOk(s, h)
    requires s' == s.(mem := s.mem + [Block(0, EmptyCells(), true)], foreign := s.foreign + {|s.mem|})
    requires h' == h.(role := h.role + [Foreign])
    ensures Shape(s', h') && RolesOk(s', h') && PoolOk(s')
  {
    forall c | 0 <= c < |s'.mem| ensures RoleOk(s', h', c) {
      if c < |s.mem| {
        assert RoleOk(s, h, c);
      }
    }
  }

  lemma OthersUseRoles(s: State, h: History, s': State, b: BlockId)
    requires Shape(s, h) && RolesOk(s, h) && PoolOk(s) && b in s.foreign
    requires b < |s.mem| == |s'.mem| && s' == s.(mem := s.mem[b := s'.mem[b]])
    requires s'.mem[b].dynamic == s.mem[b].dynamic && |s'.mem[b].cells| == BLOCK_SIZE
    ensures Shape(s', h) && RolesOk(s', h) && PoolOk(s')
  {
    forall c | 0 <= c < |s.mem| ensures RoleOk(s', h, c) {
      assert RoleOk(s, h, c);
    }
  }

  lemma OthersReturnRoles(s: State, h: History, s': State, h': History, b: BlockId)
    requires Shape(s, h) && RolesOk(s, h) && PoolOk(s) && b in s.foreign && b < |s.mem| && s.mem[b].cells == EmptyCells()
    requires s' == ReturnBlock(s, b).(foreign := s.foreign - {b})
    requires h' == h.(role := h.role[b := if IsDestroyed(s.mem[b]) then Destroyed else Pooled])
    ensures Shape(s', h') && RolesOk(s', h') && PoolOk(s')
  {
    assert RoleOk(s, h, b);
    forall c | 0 <= c < |s.mem| ensures RoleOk(s', h', c) {
      assert RoleOk(s, h, c);
    }
  }

  // ---------- Every event keeps the invariant ----------

  lemma ClaimStepKeeps(s: State, h: History, ce: Claims.Event)
    requires Inv(s, h) && Enabled(s, Claim(ce))
    ensures Inv(Apply(s, Claim(ce)), h)
  {
    var s' := Apply(s, Claim(ce));
    Claims.StepKeepsHistory(s.claim, ce, s'.claim);
    var t := ce.thread;
    if ce.Advance? && s.claim.threads[t].Claim? {
      Claims.TicketBounds(s'.claim, t);
      assert WorkOk(s, h, t);
      TicketKeeps(s, h, s', t, s.claim.threads[t].actual);
    } else {
      PlainClaimKeeps(s, h, s', t);
    }
  }

  /** A consumer's next step is always possible: it never meets a missing entry or an empty cell. */
  lemma WorkIsSafe(s: State, h: History, t: nat)
    requires Inv(s, h) && t < |s.work| && s.work[t] != NoWork
    ensures Enabled(s, DoWork(t))
  {
    assert WorkOk(s, h, t);
    match s.work[t]
    case LookUp(i, stop) => StillLive(s, h, t, i);
    case MoveOut(_, _, _, _, _) => MoveOutIsRight(s, h, t);
    case CountOut(from, end, stop, b) => StillLive(s, h, t, from);
    case ClearEntry(k, i, stop, b) =>
    case GiveBack(k, i, stop, b) => assert FillOk(s, h, k);
  }

  lemma OnwardGoes(s: State, h: History, s0: State, t: nat, i: int, stop: int)
    requires Inv(s, h) && t < |s.work| && s.work[t] != NoWork
    requires s0.claim == s.claim && s0.work == s.work
    ensures s.claim.threads[t].Holding? && GoesOnward(s, Onward(s0, t, i, stop), t, i, stop)
  {
    assert WorkOk(s, h, t);
    Claims.StepKeepsHistory(s.claim, Claims.Advance(t), Claims.Move(s.claim, t));
  }

  lemma WorkStepKeeps(s: State, h: History, t: nat) returns (h': History)
    requires Inv(s, h) && Enabled(s, DoWork(t))
    ensures Inv(WorkStep(s, t), h')
  {
    var s' := WorkStep(s, t);
    assert WorkOk(s, h, t);
    h' := h;
    match s.work[t]
    case LookUp(_, _) => LookUpKeeps(s, h, s', t);
    case MoveOut(_, _, _, _, _) =>
      MoveOutIsRight(s, h, t);
      MoveOutKeeps(s, h, s', t);
    case CountOut(from, end, stop, b) => h' := CountStepKeeps(s, h, t);
    case ClearEntry(_, _, _, _) => UnlinkKeeps(s, h, s', t);
    case GiveBack(k, i, stop, b) =>
      OnwardGoes(s, h, ReturnBlock(s, b).(released := s.released + [k]), t, i, stop);
      h' := GiveBackKeeps(s, h, s', t);
  }

  lemma CountStepKeeps(s: State, h: History, t: nat) returns (h': History)
    requires Inv(s, h) && Enabled(s, DoWork(t)) && s.work[t].CountOut?
    ensures Inv(WorkStep(s, t), h')
  {
    var s' := WorkStep(s, t);
    var CountOut(from, end, stop, b) := s.work[t];
    assert WorkOk(s, h, t);
    StillLive(s, h, t, from);
    var counted := s.(mem := s.mem[b := s.mem[b].(count := s.mem[b].count + (end - from))]);
    h' := h;
    if s.mem[b].count + (end - from) == BLOCK_SIZE {
      h' := CompleteKeeps(s, h, s', t);
    } else {
      OnwardGoes(s, h, counted, t, end, stop);
      CountOutOnwardKeeps(s, h, s', t);
    }
  }

  /** The producer's next step is always possible: it never writes where it has no block. */
  lemma ProducerIsSafe(s: State, h: History)
    requires Inv(s, h) && s.prod != Quiet && !s.prod.Reserving?
    ensures Enabled(s, Produce)
  {
    if s.prod.Writing? && s.prod.w < |s.prod.items| {
      WriteIsRight(s, h);
    } else if s.prod.UndoingBlocks? && s.prod.j < |s.prod.got| {
      assert Hand(s.prod)[0] == s.prod.got[s.prod.j];
    } else if s.prod.Resetting? {
      assert Hand(s.prod)[0] == s.prod.block;
    }
  }

  lemma ProduceKeeps(s: State, h: History) returns (h': History)
    requires Inv(s, h) && Enabled(s, Produce)
    ensures Inv(ProduceStep(s), h')
  {
    hide FillsOk, RolesOk, WorksOk, ProdOk, EntriesOk, MovedOk, PoolOk, ReleasedOk, EmptyCells;
    var s' := ProduceStep(s);
    h' := h;
    match s.prod
    case Resetting(_, _, _) => ResettingKeeps(s, h, s');
    case Entering(_, _, _) => h' := EnteringKeeps(s, h, s');
    case UndoingEntries(_, _) => UndoEntryKeeps(s, h, s');
    case UndoingBlocks(_, _) => h' := UndoBlockKeeps(s, h, s');
    case Writing(items, got, w) =>
      if w < |items| {
        WriteIsRight(s, h);
        WriteKeeps(s, h, s');
      } else {
        Claims.StepKeepsHistory(s.claim, Claims.Publish(|items|), s'.claim);
        PublishKeeps(s, h, s');
      }
  }

  lemma StepKeeps(s: State, h: History, e: Event) returns (h': History)
    requires Inv(s, h) && Enabled(s, e)
    ensures Inv(Apply(s, e), h')
  {
    h' := h;
    match e
    case Claim(ce) => ClaimStepKeeps(s, h, ce);
    case DoWork(t) => h' := WorkStepKeeps(s, h, t);
    case StartEnqueue(items) => StartKeeps(s, h, items);
    case Acquire(src) =>
      match src {
        case NoBlock => h' := FailKeeps(s, h);
        case FromPool(j) => h' := FromPoolKeeps(s, h, Apply(s, e), j);
        case Fresh => h' := FreshKeeps(s, h, Apply(s, e));
      }
    case Produce => h' := ProduceKeeps(s, h);
    case Others(o) => h' := OthersKeep(s, h, o);
  }

  // ---------- What holds in every reachable state ----------

  ghost predicate HasHistory(s: State) {
    exists h: History :: Inv(s, h)
  }

  lemma InitialInv(s: State)
    requires Init(s)
    ensures HasHistory(s)
  {
    Claims.InitialInv(s.claim);
    BlocksBelowBounds(0);
    assert BlockOf(-1) == -1;
    var h := History([], [], seq(|s.mem|, _ => Pooled));
    forall b | 0 <= b < |s.mem| ensures RoleOk(s, h, b) {
      assert s.pool[b] == b;
    }
    assert Inv(s, h);
  }

  lemma StepKeepsHistory(s: State, e: Event, s': State)
    requires HasHistory(s) && Next(s, e, s')
    ensures HasHistory(s')
  {
    var h: History :| Inv(s, h);
    var h' := StepKeeps(s, h, e);
  }

  lemma Invariant(s: State) returns (h: History)
    requires Reachable(Init, Next, s)
    ensures Inv(s, h)
  {
    forall a: State | Init(a) ensures HasHistory(a) {
      InitialInv(a);
    }
    forall a: State, e: Event, b: State | HasHistory(a) && Next(a, e, b) ensures HasHistory(b) {
      StepKeepsHistory(a, e, b);
    }
    Induction(Init, Next, HasHistory, s);
    h :| Inv(s, h);
  }

  /** No thread ever gets stuck on a missing index entry, an empty cell or a block it does not have. */
  lemma NoThreadGetsStuck(s: State)
    requires Reachable(Init, Next, s)
    ensures forall t :: 0 <= t < |s.work| && s.work[t] != NoWork ==> Enabled(s, DoWork(t))
    ensures s.prod.Reserving? ==> Enabled(s, Acquire(Fresh))
    ensures s.prod != Quiet && !s.prod.Reserving? ==> Enabled(s, Produce)
  {
    var h := Invariant(s);
    forall t | 0 <= t < |s.work| && s.work[t] != NoWork ensures Enabled(s, DoWork(t)) {
      WorkIsSafe(s, h, t);
    }
    if s.prod != Quiet && !s.prod.Reserving? {
      ProducerIsSafe(s, h);
    }
  }

  /**
   Every element moved out at index i is the i-th element enqueued, and every claimed index is
   either moved out or still with exactly one consumer, never both.
   */
  lemma ElementsComeOutRight(s: State, i: int)
    requires Reachable(Init, Next, s)
    ensures i in s.moved ==> 0 <= i < s.claim.head <= |s.log| && s.moved[i] == s.log[i] && !PendingAt(s.work, i)
    ensures 0 <= i < s.claim.head && i !in s.moved ==> PendingAt(s.work, i)
    ensures forall t, u ::
              0 <= t < |s.work| && 0 <= u < |s.work| &&
              Unmoved(s.work[t]) <= i < Stop(s.work[t]) && Unmoved(s.work[u]) <= i < Stop(s.work[u]) ==>
              t == u
  {
    var h := Invariant(s);
    Claims.HeadBound(s.claim);
    forall t | 0 <= t < |s.work| && Unmoved(s.work[t]) <= i < Stop(s.work[t]) ensures i !in s.moved {
      assert WorkOk(s, h, t);
    }
    forall t, u | 0 <= t < |s.work| && 0 <= u < |s.work|
        && Unmoved(s.work[t]) <= i < Stop(s.work[t]) && Unmoved(s.work[u]) <= i < Stop(s.work[u])
      ensures t == u
    {
      assert WorkOk(s, h, t) && WorkOk(s, h, u);
      Claims.Tickets(s.claim, t, u, i);
    }
  }

  /**
   A block is given back once for each time it was filled: no block number is released twice, and
   when one is released every element of it has been moved out.
   */
  lemma ReleasedOncePerFill(s: State)
    requires Reachable(Init, Next, s)
    ensures forall i, j :: 0 <= i < j < |s.released| ==> s.released[i] != s.released[j]
    ensures forall k :: k in s.released ==> AllMoved(s, k) && k !in s.entries
  {
    var h := Invariant(s);
    forall k | k in s.released ensures AllMoved(s, k) && k !in s.entries {
      assert FillOk(s, h, k);
    }
  }

  /** Does the consumer read from or count in block `b`, or is it about to unlink or return it? */
  predicate WorksIn(w: Work, b: BlockId) {
    w != NoWork && !w.LookUp? && w.block == b
  }

  /** The block number a consumer's block holds. */
  function WorkNumber(w: Work): int
    requires w != NoWork && !w.LookUp?
  {
    if w.MoveOut? || w.CountOut? then BlockOf(w.from) else w.k
  }

  lemma WorkersBlock(s: State, h: History, t: nat, b: BlockId)
    requires Inv(s, h) && t < |s.work| && WorksIn(s.work[t], b)
    ensures var k := WorkNumber(s.work[t]);
      && 0 <= k < |h.fill| && h.fill[k] == b && h.status[k] != Gone
      && (s.work[t].ClearEntry? || s.work[t].GiveBack? ==> h.status[k] == Closing(t))
      && b < |s.mem| && h.role[b] == Fills(k)
  {
    assert WorkOk(s, h, t);
    if s.work[t].MoveOut? || s.work[t].CountOut? {
      StillLive(s, h, t, s.work[t].from);
    } else {
      assert FillOk(s, h, s.work[t].k);
    }
  }

  /**
   The consumer about to return a block is the only one in it, and the block is neither in the pool
   nor destroyed; all its elements are out and counted.
   */
  lemma ReleaseIsExclusive(s: State, t: nat, u: nat)
    requires Reachable(Init, Next, s) && t < |s.work| && s.work[t].GiveBack?
    ensures var GiveBack(k, _, _, b) := s.work[t];
      && b < |s.mem| && s.mem[b].count == BLOCK_SIZE && AllMoved(s, k)
      && b !in s.pool && b !in s.freed && b !in s.foreign && k !in s.released
      && (u < |s.work| && WorksIn(s.work[u], b) ==> u == t)
  {
    var h := Invariant(s);
    var GiveBack(k, _, _, b) := s.work[t];
    WorkersBlock(s, h, t, b);
    assert FillOk(s, h, k);
    assert RoleOk(s, h, b);
    if u < |s.work| && WorksIn(s.work[u], b) {
      WorkersBlock(s, h, u, b);
      assert WorkOk(s, h, u);
      if s.work[u].MoveOut? || s.work[u].CountOut? {
        StillLive(s, h, u, s.work[u].from);
      }
    }
  }

  /**
   requisition_block never hands out a block in use: a pooled block is in no index entry, with no
   consumer, not in the running enqueue, not the block the next item goes to, not destroyed, and
   holds no element.
   */
  lemma PooledBlocksAreFree(s: State, b: BlockId, t: nat)
    requires Reachable(Init, Next, s) && b in s.pool
    ensures b < |s.mem| && s.mem[b].cells == EmptyCells() && b !in s.freed
    ensures forall k :: k in s.entries ==> s.entries[k] != b
    ensures t < |s.work| ==> !WorksIn(s.work[t], b)
    ensures b !in Got(s.prod) && b !in Hand(s.prod)
    ensures s.prod.Writing? && s.prod.w < |s.prod.items| ==>
              WriteTarget(s, s.prod.got, s.claim.tail + s.prod.w) != Some(b)
  {
    hide FillOk, WorkOk, ProdOk, EntriesOk, MovedOk, CellsOk;
    var h := Invariant(s);
    assert RoleOk(s, h, b);
    forall k | k in s.entries ensures s.entries[k] != b {
      EntryIsInUse(s, h, k);
      assert RoleOk(s, h, s.entries[k]);
    }
    if t < |s.work| && WorksIn(s.work[t], b) {
      WorkersBlock(s, h, t, b);
    }
    GotIsInUse(s, h);
    if s.prod.Writing? && s.prod.w < |s.prod.items| {
      WriteIsRight(s, h);
    }
  }

  lemma EntryIsInUse(s: State, h: History, k: int)
    requires Inv(s, h) && k in s.entries
    ensures s.entries[k] < |s.mem| && (h.role[s.entries[k]].Fills? || s.entries[k] in Hand(s.prod))
  {
    if 0 <= k < |h.fill| {
      assert FillOk(s, h, k);
    } else {
      assert s.entries[k] == Hand(s.prod)[k - |h.fill|];
    }
  }

  lemma GotIsInUse(s: State, h: History)
    requires Inv(s, h)
    ensures forall j :: 0 <= j < |Got(s.prod)| ==> Got(s.prod)[j] < |s.mem| && h.role[Got(s.prod)[j]].Fills?
  {
    var nb := BlocksBelow(s.claim.tail);
    forall j | 0 <= j < |Got(s.prod)| ensures Got(s.prod)[j] < |s.mem| && h.role[Got(s.prod)[j]].Fills? {
      assert h.fill[nb + j] == Got(s.prod)[nb + j - nb];
      assert FillOk(s, h, nb + j);
      BlocksBelowBounds(s.claim.tail);
      if j > 0 {
        BaseMonotone(nb, nb + j);
      }
      if h.status[nb + j] != Live {
        ClosedBelowTail(s, h, nb + j);
      }
    }
  }

  /** The block a step changes or returns. */
  function Touched(s: State, e: Event): Option<BlockId> {
    match e
    case DoWork(t) =>
      if t >= |s.work| then None
      else if s.work[t].MoveOut? || s.work[t].CountOut? || s.work[t].GiveBack? then Some(s.work[t].block)
      else None
    case Produce =>
      if s.prod.Resetting? then Some(s.prod.block)
      else if s.prod.UndoingBlocks? && s.prod.j < |s.prod.got| then Some(s.prod.got[s.prod.j])
      else if s.prod.Writing? && s.prod.w < |s.prod.items| then WriteTarget(s, s.prod.got, s.claim.tail + s.prod.w)
      else None
    case _ => None
  }

  lemma TouchesOwn(s: State, h: History, e: Event)
    requires Inv(s, h) && Enabled(s, e) && Touched(s, e).Some?
    ensures var b := Touched(s, e).value; b < |s.mem| && (h.role[b].Fills? || h.role[b].InHand?)
  {
    var b := Touched(s, e).value;
    match e {
      case DoWork(t) => WorkersBlock(s, h, t, b);
      case Produce =>
        if s.prod.Writing? {
          WriteIsRight(s, h);
        } else {
          assert Hand(s.prod)[0] == b;
          assert RoleOk(s, h, b);
        }
    }
  }

  /** What is returned is empty. */
  lemma ReturnsEmpty(s: State, h: History, e: Event)
    requires Inv(s, h) && Enabled(s, e) && Touched(s, e).Some?
    requires match e case DoWork(t) => s.work[t].GiveBack? case Produce => s.prod.UndoingBlocks? case _ => false
    ensures s.mem[Touched(s, e).value].cells == EmptyCells()
  {
    var b := Touched(s, e).value;
    if e.DoWork? {
      var k := s.work[e.t].k;
      assert WorkOk(s, h, e.t);
      assert FillOk(s, h, k);
      forall c | 0 <= c < BLOCK_SIZE ensures s.mem[b].cells[c] == None {
        assert s.mem[b].cells[c] == Expected(s, Base(k) + c);
      }
    } else {
      assert Hand(s.prod)[0] == b;
      assert RoleOk(s, h, b);
    }
  }

  /** A step of this producer or its consumers changes and returns no block but the one it touches. */
  lemma StepTouches(s: State, e: Event)
    requires Enabled(s, e) && !e.Others?
    ensures var s' := Apply(s, e);
      && s'.foreign == s.foreign && |s.mem| <= |s'.mem|
      && (forall b :: 0 <= b < |s.mem| && Touched(s, e) != Some(b) ==> s'.mem[b] == s.mem[b])
      && (forall b :: (b in s'.pool && b !in s.pool) || (b in s'.freed && b !in s.freed) ==>
            && Touched(s, e) == Some(b) && b < |s.mem| && s'.mem[b] == s.mem[b]
            && (match e case DoWork(t) => s.work[t].GiveBack? case Produce => s.prod.UndoingBlocks? case _ => false))
  {
    match e {
      case DoWork(t) => WorkTouches(s, t);
      case Produce => ProduceTouches(s);
      case _ =>
    }
  }

  lemma WorkTouches(s: State, t: nat)
    requires Enabled(s, DoWork(t))
    ensures var e, s' := DoWork(t), WorkStep(s, t);
      && s'.foreign == s.foreign && |s.mem| <= |s'.mem|
      && (forall b :: 0 <= b < |s.mem| && Touched(s, e) != Some(b) ==> s'.mem[b] == s.mem[b])
      && (forall b :: (b in s'.pool && b !in s.pool) || (b in s'.freed && b !in s.freed) ==>
            Touched(s, e) == Some(b) && b < |s.mem| && s'.mem[b] == s.mem[b] && s.work[t].GiveBack?)
  {
    hide Onward, EmptyCells;
    match s.work[t] {
      case CountOut(from, end, stop, b) =>
        OnwardTouches(s.(mem := s.mem[b := s.mem[b].(count := s.mem[b].count + (end - from))]), t, end, stop);
      case GiveBack(k, i, stop, b) =>
        OnwardTouches(ReturnBlock(s, b).(released := s.released + [k]), t, i, stop);
      case _ =>
    }
  }

  /** Going on touches no block. */
  lemma OnwardTouches(s: State, t: nat, i: int, stop: int)
    requires t < |s.work| == |s.claim.threads| && s.claim.threads[t].Holding?
    ensures var s' := Onward(s, t, i, stop);
      s'.mem == s.mem && s'.pool == s.pool && s'.freed == s.freed && s'.foreign == s.foreign
  {
  }

  lemma ProduceTouches(s: State)
    requires Enabled(s, Produce)
    ensures var e, s' := Produce, ProduceStep(s);
      && s'.foreign == s.foreign && |s.mem| <= |s'.mem|
      && (forall b :: 0 <= b < |s.mem| && Touched(s, e) != Some(b) ==> s'.mem[b] == s.mem[b])
      && (forall b :: (b in s'.pool && b !in s.pool) || (b in s'.freed && b !in s.freed) ==>
            Touched(s, e) == Some(b) && b < |s.mem| && s'.mem[b] == s.mem[b] && s.prod.UndoingBlocks?)
  {
  }

  /**
   Blocks that others have are left alone, and what goes back to the pool is empty: what `OthersMay`
   asks of others this producer and its consumers keep themselves.
   */
  lemma OthersAreLeftAlone(s: State, e: Event, s': State)
    requires Reachable(Init, Next, s) && Next(s, e, s') && !e.Others?
    ensures s'.foreign == s.foreign
    ensures forall b :: b in s.foreign ==>
              b < |s.mem| <= |s'.mem| && s'.mem[b] == s.mem[b] && b !in s'.pool && b !in s'.freed
    ensures forall b :: (b in s'.pool && b !in s.pool) || (b in s'.freed && b !in s.freed) ==>
              b < |s.mem| && b !in s.foreign && s.mem[b].cells == EmptyCells()
  {
    var h := Invariant(s);
    StepTouches(s, e);
    if Touched(s, e).Some? {
      TouchesOwn(s, h, e);
    }
    forall b | b in s.foreign
      ensures b < |s.mem| && Touched(s, e) != Some(b) && b !in s.pool && b !in s.freed
    {
      assert RoleOk(s, h, b);
    }
    forall b | (b in s'.pool && b !in s.pool) || (b in s'.freed && b !in s.freed)
      ensures b < |s.mem| && b !in s.foreign && s.mem[b].cells == EmptyCells()
    {
      ReturnsEmpty(s, h, e);
    }
  }

  /**
   Nothing leaks: with no operation in progress, exactly the block numbers that are started and not
   fully dequeued are in the index, each with a block of its own, and every other block is back in
   the pool or destroyed.  In particular a failed enqueue has given back every block it took.
   */
  lemma QuiescentBlocks(s: State)
    requires Reachable(Init, Next, s) && s.prod == Quiet
    requires forall t :: 0 <= t < |s.work| ==> s.work[t] == NoWork
    ensures forall k :: k in s.entries <==> 0 <= k < BlocksBelow(s.claim.tail) && s.claim.head < Base(k) + BLOCK_SIZE
    ensures forall j, k :: j in s.entries && k in s.entries && j != k ==> s.entries[j] != s.entries[k]
    ensures forall b :: 0 <= b < |s.mem| ==>
              (b in s.pool || b in s.freed || b in s.foreign <==> forall k :: k in s.entries ==> s.entries[k] != b)
    ensures forall b :: b in s.pool ==> b !in s.freed
  {
    var h := Invariant(s);
    forall k | 0 <= k < |h.fill|
      ensures k in s.entries <==> s.claim.head < Base(k) + BLOCK_SIZE
      ensures k in s.entries ==> s.entries[k] == h.fill[k] && h.fill[k] < |s.mem| && h.role[h.fill[k]] == Fills(k)
    {
      QuiescentFill(s, h, k);
    }
    forall b | 0 <= b < |s.mem|
      ensures b in s.pool || b in s.freed || b in s.foreign <==> forall k :: k in s.entries ==> s.entries[k] != b
      ensures b in s.pool ==> b !in s.freed
    {
      assert RoleOk(s, h, b);
      if h.role[b].Fills? {
        QuiescentFill(s, h, h.role[b].k);
        assert h.role[b].k in s.entries;
      }
    }
  }

  lemma QuiescentFill(s: State, h: History, k: int)
    requires Inv(s, h) && s.prod == Quiet && 0 <= k < |h.fill|
    requires forall t :: 0 <= t < |s.work| ==> s.work[t] == NoWork
    ensures h.status[k] == Live || h.status[k] == Gone
    ensures h.status[k] == Live <==> k in s.entries
    ensures k in s.entries <==> s.claim.head < Base(k) + BLOCK_SIZE
    ensures k in s.entries ==> s.entries[k] == h.fill[k] && h.fill[k] < |s.mem| && h.role[h.fill[k]] == Fills(k)
  {
    assert FillOk(s, h, k);
    NobodyUncounted(s.work, k);
    Claims.HeadBound(s.claim);
    assert Base(k) >= 0;
  }

  lemma {:induction false} NobodyUncounted(work: seq<Work>, k: int)
    requires forall t :: 0 <= t < |work| ==> work[t] == NoWork
    ensures UncountedIn(work, k) == 0
  {
    if work != [] {
      NobodyUncounted(work[1..], k);
    }
  }
}
