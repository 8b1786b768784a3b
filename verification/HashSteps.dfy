/**
 The hash that finds the implicit producer of a thread, step by step: lookups, registrations, resizes
 and thread exits of any number of threads interleave, one atomic access at a time.

 The entries and their probes are those of ProducerHash.  Tables are listed from the oldest on, and
 `prev` is the older table each of them points to.  `owner` and `last` are records for the
 statements: the producer each registered thread has, and what its last call returned.
 */
module HashSteps {
  import opened Options
  import opened Runs
  import opened ProducerHash

  /** Where a thread is.  `main` is the table it loaded as the newest, `n` counts the steps of a probe. */
  datatype Pc =
    | Out
      // the search in get_or_add_implicit_producer
    | LoadKey(main: nat, i: nat, n: nat)
      // a thread found in an older table is added to the newest
    | MoveEmpty(main: nat, n: nat, p: ProducerId)
    | MoveReusable(main: nat, n: nat, p: ProducerId)
    | MoveValue(main: nat, c: nat, p: ProducerId)
      // a thread that was not found
    | CountUp(main: nat)
    | TestAndSet(main: nat, newCount: int)
    | Reload(newCount: int)                  // has the resize flag
    | Allocate(main: nat, newCount: int)
    | Publish(main: nat, newCount: int)
    | ClearFlag(main: nat, newCount: int)
    | FailCount                              // no memory: count down, with the flag
    | FailFlag                               // and clear the flag
    | LoadMain(newCount: int)                // the table is quite full: look for a newer one
      // recycle_or_create_producer
    | Scan(main: nat, p: nat)
    | Catch(main: nat, p: nat)
    | Create(main: nat)
    | Uncreated
      // the insertion
    | InsertReusable(main: nat, n: nat, p: ProducerId)
    | Uncount(main: nat, c: nat, p: ProducerId)
    | InsertEmpty(main: nat, n: nat, p: ProducerId)
    | InsertValue(main: nat, c: nat, p: ProducerId)
      // implicit_producer_thread_exited
    | Bury(i: nat, n: nat)
    | Retire

  datatype State = State(
    hash: ThreadId -> nat,
    tables: seq<seq<Entry>>,
    prev: seq<Option<nat>>,
    count: int,
    resizing: bool,
    inactive: seq<bool>,
    threads: map<ThreadId, Pc>,
    owner: map<ThreadId, ProducerId>,
    last: map<ThreadId, Option<ProducerId>>)

  datatype Event =
    | Start(t: ThreadId)
    | Exit(t: ThreadId)
    | Step(t: ThreadId, memory: bool)   // the next access; is memory given, where it is asked for?

  predicate Init(s: State) {
    && |s.tables| == 1 == |s.prev| && |s.tables[0]| > 0 && s.prev[0] == None
    && (forall c :: 0 <= c < |s.tables[0]| ==> s.tables[0][c].key == Empty)
    && s.count == 0 && !s.resizing && s.inactive == [] && s.owner == map[]
    && (forall t :: t in s.threads ==> s.threads[t] == Out)
  }

  function Newest(s: State): nat
    requires s.tables != []
  {
    |s.tables| - 1
  }

  /** The table a thread is at work on, if it is at one. */
  function At(pc: Pc): Option<nat> {
    match pc
    case LoadKey(_, i, _) => Some(i)
    case MoveEmpty(main, _, _) => Some(main)
    case MoveReusable(main, _, _) => Some(main)
    case MoveValue(main, _, _) => Some(main)
    case TestAndSet(main, _) => Some(main)
    case Allocate(main, _) => Some(main)
    case ClearFlag(main, _) => Some(main)
    case InsertReusable(main, _, _) => Some(main)
    case InsertEmpty(main, _, _) => Some(main)
    case InsertValue(main, _, _) => Some(main)
    case Bury(i, _) => Some(i)
    case _ => None
  }

  /** The tables exist, and so do the slots and producers a thread has its hands on. */
  predicate InRange(s: State, pc: Pc) {
    && (At(pc).Some? ==> At(pc).value < |s.tables| == |s.prev| && |s.tables[At(pc).value]| > 0)
    && (pc.MoveValue? || pc.InsertValue? ==> pc.c < |s.tables[pc.main]|)
    && (pc.Scan? ==> pc.p <= |s.inactive|)
    && (pc.Catch? ==> pc.p < |s.inactive|)
  }

  predicate Enabled(s: State, e: Event) {
    && s.tables != [] && |s.tables| == |s.prev| && |s.tables[Newest(s)]| > 0
    && e.t in s.threads && InRange(s, s.threads[e.t])
    && match e
       case Start(t) => s.threads[t] == Out
       case Exit(t) => s.threads[t] == Out && t in s.owner
       case Step(t, _) =>
         && s.threads[t] != Out
         && (s.threads[t] == Retire ==> t in s.owner && s.owner[t] < |s.inactive|)
  }

  function Goto(s: State, t: ThreadId, pc: Pc): State { s.(threads := s.threads[t := pc]) }

  function Return(s: State, t: ThreadId, r: Option<ProducerId>): State {
    s.(threads := s.threads[t := Out], last := s.last[t := r])
  }

  /** The slot a probe for thread `t` is at after `n` steps. */
  function SlotOf(s: State, t: ThreadId, i: nat, n: nat): (c: nat)
    requires i < |s.tables| && |s.tables[i]| > 0
    ensures c < |s.tables[i]|
  {
    (s.hash(t) + n) % |s.tables[i]|
  }

  function SetEntry(s: State, i: nat, c: nat, e: Entry): State
    requires i < |s.tables| && c < |s.tables[i]|
  {
    s.(tables := s.tables[i := s.tables[i][c := e]])
  }

  /** The key of slot `c` becomes that of thread `t`. */
  function TakeSlot(s: State, t: ThreadId, i: nat, c: nat): State
    requires i < |s.tables| && c < |s.tables[i]|
  {
    SetEntry(s, i, c, s.tables[i][c].(key := Thread(t)))
  }

  /** The test for room before a producer is looked for. */
  function WithRoom(s: State, main: nat, newCount: int): Pc
    requires main < |s.tables|
  {
    var capacity := |s.tables[main]|;
    if newCount < capacity / 2 + capacity / 4 then Scan(main, |s.inactive|) else LoadMain(newCount)
  }

  function Doubled(capacity: nat, newCount: int): nat
    requires capacity > 0
    decreases newCount - capacity / 2
  {
    if newCount >= capacity / 2 then Doubled(2 * capacity, newCount) else capacity
  }

  function NewTable(capacity: nat): seq<Entry> { seq(capacity, _ => Entry(Empty, None)) }

  function Apply(s: State, e: Event): State
    requires Enabled(s, e)
  {
    match e
    case Start(t) => Goto(s, t, LoadKey(Newest(s), Newest(s), 0))
    case Exit(t) => Goto(s, t, Bury(Newest(s), 0))
    case Step(t, memory) =>
      match s.threads[t]
      case LoadKey(main, i, n) => SearchStep(s, t, main, i, n)
      case MoveEmpty(_, _, _) => MoveStep(s, t)
      case MoveReusable(_, _, _) => MoveStep(s, t)
      case MoveValue(_, _, _) => MoveStep(s, t)
      case Scan(_, _) => GetStep(s, t, memory)
      case Catch(_, _) => GetStep(s, t, memory)
      case Create(_) => GetStep(s, t, memory)
      case Uncreated => GetStep(s, t, memory)
      case InsertReusable(_, _, _) => InsertStep(s, t)
      case Uncount(_, _, _) => InsertStep(s, t)
      case InsertEmpty(_, _, _) => InsertStep(s, t)
      case InsertValue(_, _, _) => InsertStep(s, t)
      case Bury(i, n) => BuryStep(s, t, i, n)
      case Retire =>
        Goto(s, t, Out).(inactive := s.inactive[s.owner[t] := true], owner := s.owner - {t})
      case _ => ResizeStep(s, t, memory)
  }

  function SearchStep(s: State, t: ThreadId, main: nat, i: nat, n: nat): State
    requires i < |s.tables| == |s.prev| && |s.tables[i]| > 0
  {
    var e := s.tables[i][SlotOf(s, t, i, n)];
    if e.key == Thread(t) then
      if i != main then Goto(s, t, MoveEmpty(main, 0, if e.value.Some? then e.value.value else 0))
      else Return(s, t, e.value)
    else if e.key == Empty then
      Goto(s, t, if s.prev[i].Some? then LoadKey(main, s.prev[i].value, 0) else CountUp(main))
    else
      Goto(s, t, LoadKey(main, i, n + 1))
  }

  function MoveStep(s: State, t: ThreadId): State
    requires t in s.threads && InRange(s, s.threads[t])
  {
    match s.threads[t]
    case MoveEmpty(main, n, p) =>
      var c := SlotOf(s, t, main, n);
      if s.tables[main][c].key == Empty then Goto(TakeSlot(s, t, main, c), t, MoveValue(main, c, p))
      else Goto(s, t, MoveReusable(main, n, p))
    case MoveReusable(main, n, p) =>
      var c := SlotOf(s, t, main, n);
      if s.tables[main][c].key == Reusable then Goto(TakeSlot(s, t, main, c), t, MoveValue(main, c, p))
      else Goto(s, t, MoveEmpty(main, n + 1, p))
    case MoveValue(main, c, p) => Return(SetEntry(s, main, c, s.tables[main][c].(value := Some(p))), t, Some(p))
    case _ => s
  }

  function ResizeStep(s: State, t: ThreadId, memory: bool): State
    requires s.tables != [] && |s.tables[Newest(s)]| > 0
    requires t in s.threads && InRange(s, s.threads[t])
  {
    match s.threads[t]
    case CountUp(main) => Goto(s.(count := s.count + 1), t, TestAndSet(main, s.count + 1))
    case TestAndSet(main, newCount) =>
      if newCount >= |s.tables[main]| / 2 && !s.resizing then Goto(s.(resizing := true), t, Reload(newCount))
      else Goto(s, t, WithRoom(s, main, newCount))
    case Reload(newCount) =>
      if newCount >= |s.tables[Newest(s)]| / 2 then Goto(s, t, Allocate(Newest(s), newCount))
      else Goto(s, t, ClearFlag(Newest(s), newCount))
    case Allocate(main, newCount) => Goto(s, t, if memory then Publish(main, newCount) else FailCount)
    case Publish(main, newCount) =>
      if main < |s.tables| && |s.tables[main]| > 0 then
        Goto(s.(tables := s.tables + [NewTable(Doubled(2 * |s.tables[main]|, newCount))], prev := s.prev + [Some(main)]),
             t, ClearFlag(|s.tables|, newCount))
      else s
    case ClearFlag(main, newCount) => Goto(s.(resizing := false), t, WithRoom(s, main, newCount))
    case FailCount => Goto(s.(count := s.count - 1), t, FailFlag)
    case FailFlag => Return(s.(resizing := false), t, None)
    case LoadMain(newCount) => Goto(s, t, TestAndSet(Newest(s), newCount))
    case _ => s
  }

  /** The first inactive producer from the newest on, caught by a compare-and-swap, or a new one. */
  function GetStep(s: State, t: ThreadId, memory: bool): State
    requires t in s.threads && InRange(s, s.threads[t])
  {
    match s.threads[t]
    case Scan(main, p) =>
      Goto(s, t, if p == 0 then Create(main) else if s.inactive[p - 1] then Catch(main, p - 1) else Scan(main, p - 1))
    case Catch(main, p) =>
      if s.inactive[p] then Goto(s.(inactive := s.inactive[p := false]), t, InsertReusable(main, 0, p))
      else Goto(s, t, Scan(main, p))
    case Create(main) =>
      if memory then Goto(s.(inactive := s.inactive + [false]), t, InsertReusable(main, 0, |s.inactive|))
      else Goto(s, t, Uncreated)
    case Uncreated => Return(s.(count := s.count - 1), t, None)
    case _ => s
  }

  function InsertStep(s: State, t: ThreadId): State
    requires t in s.threads && InRange(s, s.threads[t])
  {
    match s.threads[t]
    case InsertReusable(main, n, p) =>
      var c := SlotOf(s, t, main, n);
      if s.tables[main][c].key == Reusable then Goto(TakeSlot(s, t, main, c), t, Uncount(main, c, p))
      else Goto(s, t, InsertEmpty(main, n, p))
    case Uncount(main, c, p) => Goto(s.(count := s.count - 1), t, InsertValue(main, c, p))
    case InsertEmpty(main, n, p) =>
      var c := SlotOf(s, t, main, n);
      if s.tables[main][c].key == Empty then Goto(TakeSlot(s, t, main, c), t, InsertValue(main, c, p))
      else Goto(s, t, InsertReusable(main, n + 1, p))
    case InsertValue(main, c, p) =>
      Return(SetEntry(s, main, c, s.tables[main][c].(value := Some(p))), t, Some(p)).(owner := s.owner[t := p])
    case _ => s
  }

  /** In each table, from the newest on: the thread's key becomes reusable, or an empty slot ends the probe. */
  function BuryStep(s: State, t: ThreadId, i: nat, n: nat): State
    requires i < |s.tables| == |s.prev| && |s.tables[i]| > 0
  {
    var c := SlotOf(s, t, i, n);
    var e := s.tables[i][c];
    var next := if s.prev[i].Some? then Bury(s.prev[i].value, 0) else Retire;
    if e.key == Thread(t) then Goto(SetEntry(s, i, c, e.(key := Reusable)), t, next)
    else if e.key == Empty then Goto(s, t, next)
    else Goto(s, t, Bury(i, n + 1))
  }

  ghost predicate Next(s: State, e: Event, s': State) {
    Enabled(s, e) && s' == Apply(s, e)
  }

  // ---------- The invariant ----------

  /** Slot `c` of table `i` has the key of thread `t`. */
  predicate Mine(s: State, t: ThreadId, i: int, c: int) {
    0 <= i < |s.tables| && 0 <= c < |s.tables[i]| && s.tables[i][c].key == Thread(t)
  }

  ghost predicate Nowhere(s: State, t: ThreadId) {
    forall i, c :: !Mine(s, t, i, c)
  }

  /** The thread is in no table after table `i`. */
  ghost predicate UpTo(s: State, t: ThreadId, i: int) {
    forall j, c :: Mine(s, t, j, c) ==> j <= i
  }

  /** The thread is registered and in some table, with its producer wherever it is. */
  ghost predicate Settled(s: State, t: ThreadId) {
    && t in s.owner
    && (exists i, c :: Mine(s, t, i, c))
    && (forall i, c :: Mine(s, t, i, c) ==> s.tables[i][c].value == Some(s.owner[t]))
  }

  /** The first `n` slots of the probe are not empty. */
  ghost predicate Past(s: State, t: ThreadId, i: nat, n: nat) {
    i < |s.tables| && |s.tables[i]| > 0 && Unbroken(s.tables[i], s.hash(t), n)
  }

  /** And the thread is in none of them. */
  ghost predicate Missed(s: State, t: ThreadId, i: nat, n: nat) {
    Past(s, t, i, n) && forall m: nat :: m < n ==> Probed(s.tables[i], s.hash(t), m) != Thread(t)
  }

  ghost predicate TableOk(s: State, i: nat) {
    i < |s.tables| == |s.prev| ==>
      && |s.tables[i]| > 0 && s.prev[i] == (if i == 0 then None else Some(i - 1))
      && (forall t, c :: Mine(s, t, i, c) ==> t in s.threads && Findable(s.tables[i], s.hash(t), c))
      && (forall t, c, d :: Mine(s, t, i, c) && Mine(s, t, i, d) ==> c == d)
  }

  /** The producer a thread has, or is about to be registered with. */
  function Holds(s: State, t: ThreadId): Option<ProducerId> {
    if t in s.owner then Some(s.owner[t])
    else if t !in s.threads then None
    else
      match s.threads[t]
      case InsertReusable(_, _, p) => Some(p)
      case Uncount(_, _, p) => Some(p)
      case InsertEmpty(_, _, p) => Some(p)
      case InsertValue(_, _, p) => Some(p)
      case _ => None
  }

  predicate HasFlag(pc: Pc) {
    pc.Reload? || pc.Allocate? || pc.Publish? || pc.ClearFlag? || pc.FailCount? || pc.FailFlag?
  }

  /** Where a thread is, and what it knows of the tables there. */
  ghost predicate PlaceOk(s: State, t: ThreadId)
    requires t in s.threads
  {
    match s.threads[t]
    case Out => if t in s.owner then Settled(s, t) else Nowhere(s, t)
    case LoadKey(main, i, n) =>
      i <= main < |s.tables| && UpTo(s, t, i) && Missed(s, t, i, n) && (if t in s.owner then Settled(s, t) else Nowhere(s, t))
    case MoveEmpty(main, n, p) => Settled(s, t) && p == s.owner[t] && UpTo(s, t, main - 1) && Past(s, t, main, n)
    case MoveReusable(main, n, p) => Settled(s, t) && p == s.owner[t] && UpTo(s, t, main - 1) && Past(s, t, main, n + 1)
    case MoveValue(main, c, p) =>
      && t in s.owner && p == s.owner[t] && UpTo(s, t, main) && Mine(s, t, main, c)
      && (forall j, d :: Mine(s, t, j, d) && j != main ==> s.tables[j][d].value == Some(p))
    case InsertReusable(main, n, p) => t !in s.owner && Nowhere(s, t) && Past(s, t, main, n)
    case InsertEmpty(main, n, p) => t !in s.owner && Nowhere(s, t) && Past(s, t, main, n)
    case Uncount(main, c, p) => t !in s.owner && Mine(s, t, main, c) && forall j, d :: Mine(s, t, j, d) ==> j == main
    case InsertValue(main, c, p) => t !in s.owner && Mine(s, t, main, c) && forall j, d :: Mine(s, t, j, d) ==> j == main
    case Bury(i, n) => t in s.owner && UpTo(s, t, i) && Missed(s, t, i, n)
    case Retire => t in s.owner && Nowhere(s, t)
    case Scan(main, p) => t !in s.owner && Nowhere(s, t) && main < |s.tables| && p <= |s.inactive|
    case Catch(main, p) => t !in s.owner && Nowhere(s, t) && main < |s.tables| && p < |s.inactive|
    case CountUp(main) => t !in s.owner && Nowhere(s, t) && main < |s.tables|
    case TestAndSet(main, _) => t !in s.owner && Nowhere(s, t) && main < |s.tables|
    case ClearFlag(main, _) => t !in s.owner && Nowhere(s, t) && main < |s.tables|
    case Create(main) => t !in s.owner && Nowhere(s, t) && main < |s.tables|
    case Allocate(main, _) => t !in s.owner && Nowhere(s, t) && main == |s.tables| - 1
    case Publish(main, _) => t !in s.owner && Nowhere(s, t) && main == |s.tables| - 1
    case _ => t !in s.owner && Nowhere(s, t)
  }

  ghost predicate ProducersOk(s: State) {
    && (forall t :: t in s.owner ==> t in s.threads)
    && (forall t :: Holds(s, t).Some? ==> Holds(s, t).value < |s.inactive| && !s.inactive[Holds(s, t).value])
    && (forall t, u :: t != u && Holds(s, t).Some? ==> Holds(s, t) != Holds(s, u))
  }

  ghost predicate FlagOk(s: State) {
    && (forall t :: t in s.threads && HasFlag(s.threads[t]) ==> s.resizing)
    && (forall t, u :: t in s.threads && u in s.threads && HasFlag(s.threads[t]) && HasFlag(s.threads[u]) ==> t == u)
  }

  ghost predicate TablesOk(s: State) {
    s.tables != [] && |s.tables| == |s.prev| && forall i :: TableOk(s, i)
  }

  ghost predicate Inv(s: State) {
    && TablesOk(s) && ProducersOk(s) && FlagOk(s)
    && forall t :: t in s.threads ==> PlaceOk(s, t)
  }

  // ---------- What the steps of a thread are to others ----------

  /** A step of thread `t`: other threads' entries are theirs as before, and no slot becomes empty. */
  ghost predicate StepOf(s: State, t: ThreadId, s': State) {
    && s'.hash == s.hash && |s.tables| <= |s'.tables| && |s.inactive| <= |s'.inactive|
    && (forall i :: 0 <= i < |s.tables| ==> |s'.tables[i]| == |s.tables[i]|)
    && (forall i, c :: 0 <= i < |s.tables| && 0 <= c < |s.tables[i]| ==>
          && (s'.tables[i][c].key == Empty ==> s.tables[i][c].key == Empty)
          && (s.tables[i][c].key.Thread? && s.tables[i][c].key != Thread(t) ==> s'.tables[i][c] == s.tables[i][c])
          && (s'.tables[i][c].key.Thread? && s'.tables[i][c].key != Thread(t) ==> s'.tables[i][c] == s.tables[i][c]))
    && (forall i, c :: |s.tables| <= i < |s'.tables| && 0 <= c < |s'.tables[i]| ==> s'.tables[i][c].key == Empty)
    && s'.threads.Keys == s.threads.Keys
    && (forall u :: u != t ==> (u in s'.owner <==> u in s.owner) && (u in s.owner ==> s'.owner[u] == s.owner[u]))
    && (forall u :: u != t && u in s.threads ==> s'.threads[u] == s.threads[u])
    && (|s'.tables| > |s.tables| ==> t in s.threads && HasFlag(s.threads[t]))
  }

  lemma MineStays(s: State, t: ThreadId, s': State, u: ThreadId, i: int, c: int)
    requires StepOf(s, t, s') && u != t
    ensures Mine(s', u, i, c) <==> Mine(s, u, i, c)
    ensures Mine(s, u, i, c) ==> s'.tables[i][c] == s.tables[i][c]
  {
  }

  lemma PastStays(s: State, t: ThreadId, s': State, u: ThreadId, i: nat, n: nat)
    requires StepOf(s, t, s') && Past(s, u, i, n)
    ensures Past(s', u, i, n)
  {
    forall m: nat | m < n ensures Probed(s'.tables[i], s'.hash(u), m) != Empty {
      assert Probed(s.tables[i], s.hash(u), m) != Empty;
      var c := (s.hash(u) + m) % |s.tables[i]|;
      assert s.tables[i][c].key != Empty;
    }
  }

  lemma MissedStays(s: State, t: ThreadId, s': State, u: ThreadId, i: nat, n: nat)
    requires StepOf(s, t, s') && u != t && Missed(s, u, i, n)
    ensures Missed(s', u, i, n)
  {
    PastStays(s, t, s', u, i, n);
    forall m: nat | m < n ensures Probed(s'.tables[i], s'.hash(u), m) != Thread(u) {
      assert Probed(s.tables[i], s.hash(u), m) != Thread(u);
      MineStays(s, t, s', u, i, (s.hash(u) + m) % |s.tables[i]|);
    }
  }

  /** Another thread's place stays right. */
  lemma PlaceStays(s: State, t: ThreadId, s': State, u: ThreadId)
    requires StepOf(s, t, s') && u != t && u in s.threads && PlaceOk(s, u) && FlagOk(s)
    ensures PlaceOk(s', u)
  {
    hide StepOf, Past, Missed, FlagOk;
    SameElsewhere(s, t, s', u);
    match s.threads[u]
    case LoadKey(_, i, n) => MissedStays(s, t, s', u, i, n);
    case Bury(i, n) => MissedStays(s, t, s', u, i, n);
    case MoveEmpty(main, n, _) => PastStays(s, t, s', u, main, n);
    case MoveReusable(main, n, _) => PastStays(s, t, s', u, main, n + 1);
    case InsertReusable(main, n, _) => PastStays(s, t, s', u, main, n);
    case InsertEmpty(main, n, _) => PastStays(s, t, s', u, main, n);
    case _ =>
  }

  lemma SameElsewhere(s: State, t: ThreadId, s': State, u: ThreadId)
    requires StepOf(s, t, s') && u != t && u in s.threads && FlagOk(s)
    ensures s'.threads.Keys == s.threads.Keys && s'.threads[u] == s.threads[u] && |s.tables| <= |s'.tables|
    ensures |s.inactive| <= |s'.inactive|
    ensures (u in s'.owner <==> u in s.owner) && (u in s.owner ==> s'.owner[u] == s.owner[u])
    ensures forall i, c :: Mine(s', u, i, c) <==> Mine(s, u, i, c)
    ensures forall i, c :: Mine(s, u, i, c) ==> s'.tables[i][c] == s.tables[i][c]
    ensures HasFlag(s.threads[u]) ==> |s'.tables| == |s.tables|
  {
    forall i, c ensures Mine(s', u, i, c) <==> Mine(s, u, i, c) {
      MineStays(s, t, s', u, i, c);
    }
  }

  /** Findable entries of others stay so: no slot before them becomes empty. */
  lemma TableStays(s: State, t: ThreadId, s': State, i: nat)
    requires StepOf(s, t, s') && TableOk(s, i) && i < |s.tables| == |s.prev| && i < |s'.prev| == |s'.tables| && s'.prev[i] == s.prev[i]
    requires forall c :: Mine(s', t, i, c) ==> t in s.threads && Findable(s'.tables[i], s.hash(t), c)
    requires forall c, d :: Mine(s', t, i, c) && Mine(s', t, i, d) ==> c == d
    ensures TableOk(s', i)
  {
    forall u, c | Mine(s', u, i, c) ensures u in s'.threads && Findable(s'.tables[i], s'.hash(u), c) {
      if u != t {
        MineStays(s, t, s', u, i, c);
        var n: nat :| (s.hash(u) + n) % |s.tables[i]| == c && Unbroken(s.tables[i], s.hash(u), n);
        PastStays(s, t, s', u, i, n);
      }
    }
    forall u, c, d | Mine(s', u, i, c) && Mine(s', u, i, d) ensures c == d {
      if u != t {
        MineStays(s, t, s', u, i, c);
        MineStays(s, t, s', u, i, d);
      }
    }
  }

  // ---------- Every step keeps the invariant ----------

  /** What has to be shown of a step of thread `t`. */
  ghost predicate Kept(s: State, t: ThreadId, s': State) {
    && t in s'.threads && StepOf(s, t, s') && TablesOk(s') && PlaceOk(s', t) && ProducersOk(s') && FlagOk(s')
  }

  lemma KeptKeeps(s: State, t: ThreadId, s': State)
    requires Inv(s) && t in s.threads && Kept(s, t, s')
    ensures Inv(s')
  {
    hide StepOf, PlaceOk, ProducersOk, FlagOk, TablesOk;
    SameThreads(s, t, s');
    forall u | u in s'.threads ensures PlaceOk(s', u) {
      if u != t {
        PlaceStays(s, t, s', u);
      }
    }
  }

  lemma SameThreads(s: State, t: ThreadId, s': State)
    requires StepOf(s, t, s')
    ensures s'.threads.Keys == s.threads.Keys
  {
  }

  /** The tables are the same. */
  ghost predicate SameTables(s: State, s': State) {
    s'.hash == s.hash && s'.tables == s.tables && s'.prev == s.prev
  }

  lemma TablesAsBefore(s: State, s': State)
    requires TablesOk(s) && SameTables(s, s') && s'.threads.Keys == s.threads.Keys
    ensures TablesOk(s')
  {
    assert forall t, i, c :: Mine(s', t, i, c) <==> Mine(s, t, i, c);
    forall i: nat ensures TableOk(s', i) {
      assert TableOk(s, i);
    }
  }

  /** What a thread knows of the tables when they are the same. */
  lemma KnowsTheSame(s: State, s': State, t: ThreadId)
    requires SameTables(s, s')
    requires (t in s'.owner <==> t in s.owner) && (t in s.owner ==> s'.owner[t] == s.owner[t])
    ensures forall i, c :: Mine(s', t, i, c) <==> Mine(s, t, i, c)
    ensures (Settled(s', t) <==> Settled(s, t)) && (Nowhere(s', t) <==> Nowhere(s, t))
    ensures forall i :: UpTo(s', t, i) <==> UpTo(s, t, i)
    ensures forall i: nat, n: nat :: Past(s', t, i, n) <==> Past(s, t, i, n)
    ensures forall i: nat, n: nat :: Missed(s', t, i, n) <==> Missed(s, t, i, n)
  {
    assert forall i, c :: Mine(s', t, i, c) <==> Mine(s, t, i, c);
  }

  /** The flag when thread `t` goes to `pc`, from where it did or did not have it. */
  ghost predicate FlagStep(s: State, t: ThreadId, s': State)
    requires t in s.threads && t in s'.threads
  {
    && (HasFlag(s'.threads[t]) ==> s'.resizing && (HasFlag(s.threads[t]) || !s.resizing))
    && (!HasFlag(s.threads[t]) && s.resizing ==> s'.resizing)
  }

  lemma FlagKept(s: State, t: ThreadId, s': State)
    requires FlagOk(s) && t in s.threads && s'.threads.Keys == s.threads.Keys && FlagStep(s, t, s')
    requires forall u :: u != t && u in s.threads ==> s'.threads[u] == s.threads[u]
    ensures FlagOk(s')
  {
  }

  /** Producers when nobody gets or loses one. */
  lemma ProducersAsBefore(s: State, t: ThreadId, s': State)
    requires ProducersOk(s) && s'.inactive == s.inactive && s'.threads.Keys == s.threads.Keys
    requires forall u :: Holds(s', u) == Holds(s, u) || (u == t && Holds(s', u) == None)
    requires forall u :: u in s'.owner ==> u in s.owner || u in s.threads
    ensures ProducersOk(s')
  {
  }

  lemma HoldsElsewhere(s: State, t: ThreadId, s': State)
    requires t in s.threads && t in s'.threads && s'.threads == s.threads[t := s'.threads[t]]
    requires forall u :: u != t ==> (u in s'.owner <==> u in s.owner) && (u in s.owner ==> s'.owner[u] == s.owner[u])
    ensures forall u :: u != t ==> Holds(s', u) == Holds(s, u)
  {
  }

  /** A step that changes neither the tables nor who has which producer. */
  lemma PlainKept(s: State, t: ThreadId, s': State)
    requires Inv(s) && t in s.threads && SameTables(s, s') && s'.owner == s.owner && s'.inactive == s.inactive
    requires t in s'.threads && s'.threads == s.threads[t := s'.threads[t]] && FlagStep(s, t, s')
    requires Holds(s', t) == Holds(s, t) || Holds(s', t) == None
    requires PlaceOk(s', t)
    ensures Kept(s, t, s')
  {
    TablesAsBefore(s, s');
    FlagKept(s, t, s');
    HoldsElsewhere(s, t, s');
    ProducersAsBefore(s, t, s');
  }

  /** A step that changes tables, but not who has which producer. */
  lemma ChangedKept(s: State, t: ThreadId, s': State)
    requires Inv(s) && t in s.threads && s'.owner == s.owner && s'.inactive == s.inactive
    requires t in s'.threads && s'.threads == s.threads[t := s'.threads[t]] && FlagStep(s, t, s')
    requires Holds(s', t) == Holds(s, t) || Holds(s', t) == None
    requires StepOf(s, t, s') && TablesOk(s') && PlaceOk(s', t)
    ensures Kept(s, t, s')
  {
    FlagKept(s, t, s');
    HoldsElsewhere(s, t, s');
    ProducersAsBefore(s, t, s');
  }

  lemma StartKept(s: State, e: Event)
    requires Inv(s) && Enabled(s, e) && !e.Step?
    ensures Kept(s, e.t, Apply(s, e))
  {
    hide Settled, Nowhere, UpTo, Past, Missed, Kept;
    var s' := Apply(s, e);
    assert PlaceOk(s, e.t);
    KnowsTheSame(s, s', e.t);
    ProbeBegins(s, e.t);
    PlainKept(s, e.t, s');
  }

  /** The key met by a probe is that of the slot it is at. */
  lemma Meets(s: State, t: ThreadId, i: nat, n: nat)
    requires i < |s.tables| && |s.tables[i]| > 0
    ensures Probed(s.tables[i], s.hash(t), n) == s.tables[i][SlotOf(s, t, i, n)].key
  {
  }

  /** An empty slot ends the probe: the thread is not in the table. */
  lemma NotThere(s: State, t: ThreadId, i: nat, n: nat)
    requires TableOk(s, i) && i < |s.tables| == |s.prev| && Missed(s, t, i, n)
    requires Probed(s.tables[i], s.hash(t), n) == Empty
    ensures forall c :: !Mine(s, t, i, c)
  {
    forall c ensures !Mine(s, t, i, c) {
      if Mine(s, t, i, c) {
        var m: nat :| (s.hash(t) + m) % |s.tables[i]| == c && Unbroken(s.tables[i], s.hash(t), m);
        Meets(s, t, i, m);
      }
    }
  }

  /** A probe that starts at the newest table has passed everything so far. */
  lemma ProbeBegins(s: State, t: ThreadId)
    requires TablesOk(s)
    ensures forall i: nat :: i < |s.tables| ==> Missed(s, t, i, 0) && Past(s, t, i, 0)
    ensures UpTo(s, t, |s.tables| - 1)
  {
    forall i: nat | i < |s.tables| ensures Missed(s, t, i, 0) && Past(s, t, i, 0) {
      assert TableOk(s, i);
    }
  }

  /** What the search finds in a slot, and what it knows then. */
  lemma SearchKnows(s: State, t: ThreadId, main: nat, i: nat, n: nat)
    requires TablesOk(s) && i <= main < |s.tables| && UpTo(s, t, i) && Missed(s, t, i, n)
    requires if t in s.owner then Settled(s, t) else Nowhere(s, t)
    ensures s.prev[i] == (if i == 0 then None else Some(i - 1)) && |s.tables[i]| > 0
    ensures var e := s.tables[i][SlotOf(s, t, i, n)];
      if e.key == Thread(t) then t in s.owner && e.value == Some(s.owner[t])
      else if e.key == Empty then UpTo(s, t, i - 1) && (i == 0 ==> t !in s.owner)
      else Missed(s, t, i, n + 1)
  {
    assert TableOk(s, i);
    Meets(s, t, i, n);
    var c := SlotOf(s, t, i, n);
    if s.tables[i][c].key == Thread(t) {
      assert Mine(s, t, i, c);
    } else if s.tables[i][c].key == Empty {
      NotThere(s, t, i, n);
    }
  }

  lemma SearchPlace(s: State, t: ThreadId, main: nat, i: nat, n: nat, s': State)
    requires Inv(s) && t in s.threads && s.threads[t] == LoadKey(main, i, n) && InRange(s, s.threads[t])
    requires s' == SearchStep(s, t, main, i, n)
    ensures t in s'.threads && PlaceOk(s', t)
  {
    hide Settled, Nowhere, UpTo, Past, Missed, Kept, SlotOf;
    assert PlaceOk(s, t);
    KnowsTheSame(s, s', t);
    ProbeBegins(s, t);
    SearchKnows(s, t, main, i, n);
    FurtherDown(s, t, i, main - 1);
  }

  lemma SearchKept(s: State, t: ThreadId, main: nat, i: nat, n: nat, s': State)
    requires Inv(s) && t in s.threads && s.threads[t] == LoadKey(main, i, n) && InRange(s, s.threads[t])
    requires s' == SearchStep(s, t, main, i, n)
    ensures Kept(s, t, s')
  {
    hide PlaceOk, Kept, ProducersOk, FlagOk, TablesOk, SlotOf, WithRoom;
    SearchPlace(s, t, main, i, n, s');
    PlainKept(s, t, s');
  }

  lemma FurtherDown(s: State, t: ThreadId, i: int, j: int)
    ensures i <= j && UpTo(s, t, i) ==> UpTo(s, t, j)
  {
  }

  /** The slots a probe has passed are not empty, and the next one was not either. */
  lemma OneFurther(s: State, t: ThreadId, i: nat, n: nat)
    requires Past(s, t, i, n) && s.tables[i][SlotOf(s, t, i, n)].key != Empty
    ensures Past(s, t, i, n + 1)
  {
    Meets(s, t, i, n);
  }

  /** A free slot on its probe becomes the thread's. */
  lemma TakesSlot(s: State, t: ThreadId, i: nat, n: nat, s': State)
    requires TablesOk(s) && t in s.threads && Past(s, t, i, n)
    requires var c := SlotOf(s, t, i, n); !s.tables[i][c].key.Thread? && s'.tables == TakeSlot(s, t, i, c).tables
    requires s'.prev == s.prev && s'.hash == s.hash && s'.threads.Keys == s.threads.Keys
    requires forall c :: !Mine(s, t, i, c)
    requires |s'.inactive| >= |s.inactive|
    requires forall u :: u != t ==> (u in s'.owner <==> u in s.owner) && (u in s.owner ==> s'.owner[u] == s.owner[u])
    requires forall u :: u != t && u in s.threads ==> s'.threads[u] == s.threads[u]
    ensures StepOf(s, t, s') && TablesOk(s')
    ensures forall j, d :: Mine(s', t, j, d) <==> Mine(s, t, j, d) || (j == i && d == SlotOf(s, t, i, n))
    ensures forall j, d :: Mine(s, t, j, d) ==> Mine(s', t, j, d) && s'.tables[j][d] == s.tables[j][d]
  {
    var c := SlotOf(s, t, i, n);
    assert StepOf(s, t, s');
    assert forall j, d :: Mine(s', t, j, d) <==> Mine(s, t, j, d) || (j == i && d == c);
    PastStays(s, t, s', t, i, n);
    forall j: nat ensures TableOk(s', j) {
      assert TableOk(s, j);
      if 0 <= j < |s.tables| {
        forall d | Mine(s', t, j, d) ensures t in s.threads && Findable(s'.tables[j], s.hash(t), d) {
          if j != i {
            assert s'.tables[j] == s.tables[j] && Mine(s, t, j, d);
          }
        }
        TableStays(s, t, s', j);
      }
    }
  }

  /** Thread `t` has just been put into slot `c` of table `i`, or sets its value there. */
  ghost predicate SetsValue(s: State, t: ThreadId, i: nat, c: nat, p: ProducerId, s': State) {
    && Mine(s, t, i, c) && s'.tables == SetEntry(s, i, c, s.tables[i][c].(value := Some(p))).tables
    && s'.prev == s.prev && s'.hash == s.hash && s'.threads.Keys == s.threads.Keys && s'.inactive == s.inactive
    && (forall u :: u != t ==> (u in s'.owner <==> u in s.owner) && (u in s.owner ==> s'.owner[u] == s.owner[u]))
    && (forall u :: u != t && u in s.threads ==> s'.threads[u] == s.threads[u])
  }

  lemma ValueSet(s: State, t: ThreadId, i: nat, c: nat, p: ProducerId, s': State)
    requires TablesOk(s) && t in s.threads && SetsValue(s, t, i, c, p, s')
    ensures StepOf(s, t, s') && TablesOk(s')
    ensures forall j, d :: Mine(s', t, j, d) <==> Mine(s, t, j, d)
    ensures forall j, d :: Mine(s, t, j, d) ==> s'.tables[j][d].value == if j == i then Some(p) else s.tables[j][d].value
  {
    assert StepOf(s, t, s');
    assert forall j, d :: Mine(s', t, j, d) <==> Mine(s, t, j, d);
    assert TableOk(s, i);
    forall j: nat ensures TableOk(s', j) {
      assert TableOk(s, j);
      if j < |s.tables| {
        forall d | Mine(s', t, j, d) ensures t in s.threads && Findable(s'.tables[j], s.hash(t), d) {
          assert Mine(s, t, j, d);
          var n: nat :| (s.hash(t) + n) % |s.tables[j]| == d && Unbroken(s.tables[j], s.hash(t), n);
          PastStays(s, t, s', t, j, n);
        }
        TableStays(s, t, s', j);
      }
    }
  }

  /** The thread of a taken slot had none in that table. */
  lemma NotIn(s: State, t: ThreadId, i: nat)
    requires UpTo(s, t, i - 1) || Nowhere(s, t)
    ensures forall c :: !Mine(s, t, i, c)
  {
  }

  lemma PastLess(s: State, t: ThreadId, i: nat, n: nat)
    requires Past(s, t, i, n + 1)
    ensures Past(s, t, i, n)
  {
  }

  /** Moving on along the probe. */
  lemma MoveOnPlace(s: State, t: ThreadId, s': State)
    requires Inv(s) && t in s.threads && InRange(s, s.threads[t]) && (s.threads[t].MoveEmpty? || s.threads[t].MoveReusable?)
    requires s' == MoveStep(s, t) && s'.tables == s.tables && !s'.threads[t].MoveValue?
    ensures t in s'.threads && PlaceOk(s', t)
  {
    hide Settled, Nowhere, UpTo, Past, Missed, Kept, SlotOf;
    assert PlaceOk(s, t);
    KnowsTheSame(s, s', t);
    var main, n := s.threads[t].main, s.threads[t].n;
    if s.threads[t].MoveEmpty? {
      OneFurther(s, t, main, n);
    }
  }

  lemma MoveOnKept(s: State, t: ThreadId, s': State)
    requires Inv(s) && t in s.threads && InRange(s, s.threads[t]) && (s.threads[t].MoveEmpty? || s.threads[t].MoveReusable?)
    requires s' == MoveStep(s, t) && s'.tables == s.tables && !s'.threads[t].MoveValue?
    ensures Kept(s, t, s')
  {
    hide PlaceOk, Kept, ProducersOk, FlagOk, TablesOk, SlotOf, WithRoom;
    MoveOnPlace(s, t, s');
    PlainKept(s, t, s');
  }

  lemma MovedIn(s: State, t: ThreadId, i: nat, c: nat, s': State)
    requires Settled(s, t) && UpTo(s, t, i - 1)
    requires forall j, d :: Mine(s', t, j, d) <==> Mine(s, t, j, d) || (j == i && d == c)
    requires forall j, d :: Mine(s, t, j, d) ==> Mine(s', t, j, d) && s'.tables[j][d] == s.tables[j][d]
    ensures t in s.owner && UpTo(s', t, i) && Mine(s', t, i, c)
    ensures forall j, d :: Mine(s', t, j, d) && j != i ==> s'.tables[j][d].value == Some(s.owner[t])
  {
  }

  /** A registered thread takes a slot in the newest table. */
  lemma MoveTakesKept(s: State, t: ThreadId, main: nat, n: nat, p: ProducerId, s': State)
    requires Inv(s) && t in s.threads && (s.threads[t] == MoveEmpty(main, n, p) || s.threads[t] == MoveReusable(main, n, p))
    requires InRange(s, s.threads[t]) && !s.tables[main][SlotOf(s, t, main, n)].key.Thread?
    requires s' == Goto(TakeSlot(s, t, main, SlotOf(s, t, main, n)), t, MoveValue(main, SlotOf(s, t, main, n), p))
    ensures Kept(s, t, s')
  {
    hide Past, StepOf, TablesOk, SlotOf, Settled, UpTo, Mine, Missed, Kept, ProducersOk, FlagOk, InRange, PlaceOk;
    MovePlaces(s, t, main, n, p);
    NotIn(s, t, main);
    TakesSlot(s, t, main, n, s');
    MovedIn(s, t, main, SlotOf(s, t, main, n), s');
    NowMoved(s', t, main, SlotOf(s, t, main, n), p);
    ChangedKept(s, t, s');
  }

  lemma MovePlaces(s: State, t: ThreadId, main: nat, n: nat, p: ProducerId)
    requires t in s.threads && PlaceOk(s, t) && (s.threads[t] == MoveEmpty(main, n, p) || s.threads[t] == MoveReusable(main, n, p))
    ensures Settled(s, t) && t in s.owner && p == s.owner[t] && UpTo(s, t, main - 1) && Past(s, t, main, n)
  {
    if s.threads[t].MoveReusable? {
      PastLess(s, t, main, n);
    }
  }

  lemma NowMoved(s: State, t: ThreadId, main: nat, c: nat, p: ProducerId)
    requires t in s.threads && s.threads[t] == MoveValue(main, c, p)
    requires t in s.owner && p == s.owner[t] && UpTo(s, t, main) && Mine(s, t, main, c)
    requires forall j, d :: Mine(s, t, j, d) && j != main ==> s.tables[j][d].value == Some(p)
    ensures PlaceOk(s, t)
  {
  }

  lemma MoveEndsKept(s: State, t: ThreadId, s': State)
    requires Inv(s) && t in s.threads && InRange(s, s.threads[t]) && s.threads[t].MoveValue? && s' == MoveStep(s, t)
    ensures Kept(s, t, s')
  {
    hide StepOf, TablesOk, Kept, ProducersOk, FlagOk;
    assert PlaceOk(s, t);
    ValueSet(s, t, s.threads[t].main, s.threads[t].c, s.threads[t].p, s');
    assert Mine(s', t, s.threads[t].main, s.threads[t].c);
    ChangedKept(s, t, s');
  }

  /** A new thread moves on along the probe, or counts the tombstone it took. */
  lemma InsertOnPlace(s: State, t: ThreadId, s': State)
    requires Inv(s) && t in s.threads && InRange(s, s.threads[t])
    requires s.threads[t].InsertReusable? || s.threads[t].InsertEmpty? || s.threads[t].Uncount?
    requires s' == InsertStep(s, t) && s'.tables == s.tables
    requires s.threads[t].Uncount? || (t in s'.threads && !s'.threads[t].Uncount? && !s'.threads[t].InsertValue?)
    ensures t in s'.threads && PlaceOk(s', t)
  {
    hide Settled, Nowhere, UpTo, Past, Missed, Kept, SlotOf, ProducersOk, FlagOk, TablesOk;
    assert PlaceOk(s, t);
    KnowsTheSame(s, s', t);
    if s.threads[t].InsertEmpty? {
      OneFurther(s, t, s.threads[t].main, s.threads[t].n);
    }
  }

  lemma InsertOnKept(s: State, t: ThreadId, s': State)
    requires Inv(s) && t in s.threads && InRange(s, s.threads[t])
    requires s.threads[t].InsertReusable? || s.threads[t].InsertEmpty? || s.threads[t].Uncount?
    requires s' == InsertStep(s, t) && s'.tables == s.tables
    requires s.threads[t].Uncount? || (t in s'.threads && !s'.threads[t].Uncount? && !s'.threads[t].InsertValue?)
    ensures Kept(s, t, s')
  {
    hide PlaceOk, Kept, ProducersOk, FlagOk, TablesOk, SlotOf, WithRoom;
    InsertOnPlace(s, t, s');
    PlainKept(s, t, s');
  }

  lemma InsertedIn(s: State, t: ThreadId, i: nat, c: nat, s': State)
    requires Nowhere(s, t) && forall j, d :: Mine(s', t, j, d) <==> Mine(s, t, j, d) || (j == i && d == c)
    ensures Mine(s', t, i, c) && forall j, d :: Mine(s', t, j, d) ==> j == i
  {
  }

  /** A new thread takes a tombstone. */
  lemma TombstoneKept(s: State, t: ThreadId, main: nat, n: nat, p: ProducerId, s': State)
    requires Inv(s) && t in s.threads && s.threads[t] == InsertReusable(main, n, p) && InRange(s, s.threads[t])
    requires s.tables[main][SlotOf(s, t, main, n)].key == Reusable
    requires s' == Goto(TakeSlot(s, t, main, SlotOf(s, t, main, n)), t, Uncount(main, SlotOf(s, t, main, n), p))
    ensures Kept(s, t, s')
  {
    hide Past, StepOf, TablesOk, SlotOf, Nowhere, Kept, ProducersOk, FlagOk, Settled, UpTo, Missed, InRange;
    assert PlaceOk(s, t);
    NotIn(s, t, main);
    TakesSlot(s, t, main, n, s');
    InsertedIn(s, t, main, SlotOf(s, t, main, n), s');
    ChangedKept(s, t, s');
  }

  /** Or an empty slot. */
  lemma EmptySlotKept(s: State, t: ThreadId, main: nat, n: nat, p: ProducerId, s': State)
    requires Inv(s) && t in s.threads && s.threads[t] == InsertEmpty(main, n, p) && InRange(s, s.threads[t])
    requires s.tables[main][SlotOf(s, t, main, n)].key == Empty
    requires s' == Goto(TakeSlot(s, t, main, SlotOf(s, t, main, n)), t, InsertValue(main, SlotOf(s, t, main, n), p))
    ensures Kept(s, t, s')
  {
    hide Past, StepOf, TablesOk, SlotOf, Nowhere, Kept, ProducersOk, FlagOk, Settled, UpTo, Missed, InRange;
    assert PlaceOk(s, t);
    NotIn(s, t, main);
    TakesSlot(s, t, main, n, s');
    InsertedIn(s, t, main, SlotOf(s, t, main, n), s');
    ChangedKept(s, t, s');
  }

  lemma InsertEndsKept(s: State, t: ThreadId, s': State)
    requires Inv(s) && t in s.threads && InRange(s, s.threads[t]) && s.threads[t].InsertValue? && s' == InsertStep(s, t)
    ensures Kept(s, t, s')
  {
    hide StepOf, TablesOk;
    assert PlaceOk(s, t);
    ValueSet(s, t, s.threads[t].main, s.threads[t].c, s.threads[t].p, s');
    assert Mine(s', t, s.threads[t].main, s.threads[t].c);
    FlagKept(s, t, s');
    HoldsElsewhere(s, t, s');
    ProducersAsBefore(s, t, s');
  }

  // ---------- Producers ----------

  /** Only thread `t` comes to hold a producer, one that nobody held. */
  lemma ProducerTaken(s: State, t: ThreadId, s': State, p: ProducerId)
    requires ProducersOk(s) && Holds(s, t) == None && Holds(s', t) == Some(p)
    requires forall u :: u != t ==> Holds(s', u) == Holds(s, u)
    requires |s.inactive| <= |s'.inactive| && p < |s'.inactive| && (p < |s.inactive| ==> s.inactive[p])
    requires !s'.inactive[p] && forall q :: 0 <= q < |s.inactive| && q != p ==> s'.inactive[q] == s.inactive[q]
    requires s'.owner == s.owner && s'.threads.Keys == s.threads.Keys
    ensures ProducersOk(s')
  {
  }

  /** A producer is looked at, or cannot be made. */
  lemma GetOnPlace(s: State, t: ThreadId, memory: bool, s': State)
    requires Inv(s) && t in s.threads && InRange(s, s.threads[t]) && s' == GetStep(s, t, memory)
    requires s.threads[t].Scan? || s.threads[t].Catch? || s.threads[t].Create? || s.threads[t] == Uncreated
    requires t in s'.threads && !s'.threads[t].InsertReusable?
    ensures t in s'.threads && PlaceOk(s', t)
  {
    hide Settled, Nowhere, UpTo, Past, Missed, Kept, ProducersOk, FlagOk, TablesOk;
    assert PlaceOk(s, t);
    KnowsTheSame(s, s', t);
  }

  lemma GetOnKept(s: State, t: ThreadId, memory: bool, s': State)
    requires Inv(s) && t in s.threads && InRange(s, s.threads[t]) && s' == GetStep(s, t, memory)
    requires s.threads[t].Scan? || s.threads[t].Catch? || s.threads[t].Create? || s.threads[t] == Uncreated
    requires t in s'.threads && !s'.threads[t].InsertReusable?
    ensures Kept(s, t, s')
  {
    hide PlaceOk, Kept, ProducersOk, FlagOk, TablesOk, SlotOf, WithRoom;
    GetOnPlace(s, t, memory, s');
    PlainKept(s, t, s');
  }

  /** A producer is caught, or made. */
  lemma GetTakesKept(s: State, t: ThreadId, memory: bool, s': State)
    requires Inv(s) && t in s.threads && InRange(s, s.threads[t]) && s' == GetStep(s, t, memory)
    requires s.threads[t].Catch? || s.threads[t].Create?
    requires t in s'.threads && s'.threads[t].InsertReusable?
    ensures Kept(s, t, s')
  {
    hide Settled, Nowhere, UpTo, Past, Missed, StepOf, ProducersOk, FlagOk, TablesOk;
    assert PlaceOk(s, t);
    KnowsTheSame(s, s', t);
    TablesAsBefore(s, s');
    ProbeBegins(s, t);
    SameTablesStep(s, t, s');
    FlagKept(s, t, s');
    HoldsElsewhere(s, t, s');
    ProducerTaken(s, t, s', s'.threads[t].p);
  }

  lemma SameTablesStep(s: State, t: ThreadId, s': State)
    requires SameTables(s, s') && t in s.threads && t in s'.threads && s'.threads == s.threads[t := s'.threads[t]]
    requires |s.inactive| <= |s'.inactive|
    requires forall u :: u != t ==> (u in s'.owner <==> u in s.owner) && (u in s.owner ==> s'.owner[u] == s.owner[u])
    ensures StepOf(s, t, s')
  {
  }

  /** A thread that is in no table any more gives its producer back. */
  lemma RetireKept(s: State, t: ThreadId, s': State)
    requires Inv(s) && t in s.threads && s.threads[t] == Retire && t in s.owner && s.owner[t] < |s.inactive|
    requires s' == Goto(s, t, Out).(inactive := s.inactive[s.owner[t] := true], owner := s.owner - {t})
    ensures Kept(s, t, s')
  {
    hide StepOf, ProducersOk, FlagOk, TablesOk;
    assert PlaceOk(s, t);
    TablesAsBefore(s, s');
    SameTablesStep(s, t, s');
    FlagKept(s, t, s');
    HoldsElsewhere(s, t, s');
    ProducerReturned(s, t, s');
    assert forall i, c :: Mine(s', t, i, c) <==> Mine(s, t, i, c);
  }

  /** Thread `t` stops holding a producer, which nobody else holds. */
  lemma ProducerReturned(s: State, t: ThreadId, s': State)
    requires ProducersOk(s) && t in s.owner && Holds(s', t) == None && s.owner[t] < |s.inactive|
    requires forall u :: u != t ==> Holds(s', u) == Holds(s, u)
    requires s'.inactive == s.inactive[s.owner[t] := true] && s'.owner == s.owner - {t} && s'.threads.Keys == s.threads.Keys
    ensures ProducersOk(s')
  {
    assert Holds(s, t) == Some(s.owner[t]);
  }

  // ---------- Resizing ----------

  /** From counting itself to looking for a producer a thread is not registered, and in no table. */
  predicate Registers(s: State, pc: Pc) {
    match pc
    case CountUp(main) => main < |s.tables|
    case TestAndSet(main, _) => main < |s.tables|
    case ClearFlag(main, _) => main < |s.tables|
    case Allocate(main, _) => main == |s.tables| - 1
    case Publish(main, _) => main == |s.tables| - 1
    case Scan(main, p) => main < |s.tables| && p <= |s.inactive|
    case Reload(_) => true
    case LoadMain(_) => true
    case FailCount => true
    case FailFlag => true
    case Out => true
    case _ => false
  }

  lemma KnownUnregistered(s: State, t: ThreadId)
    requires t in s.threads && PlaceOk(s, t)
    requires var pc := s.threads[t]; HasFlag(pc) || pc.CountUp? || pc.TestAndSet? || pc.LoadMain?
    ensures t !in s.owner && Nowhere(s, t) && Registers(s, s.threads[t])
  {
    hide Nowhere;
  }

  lemma UnregisteredPlace(s: State, t: ThreadId)
    requires t in s.threads && t !in s.owner && Nowhere(s, t) && Registers(s, s.threads[t])
    ensures PlaceOk(s, t)
  {
    hide Nowhere;
  }

  /** A thread counts itself, and looks for room. */
  lemma CountPlace(s: State, t: ThreadId, memory: bool, s': State)
    requires Inv(s) && t in s.threads && InRange(s, s.threads[t]) && s.tables != [] && |s.tables[Newest(s)]| > 0
    requires var pc := s.threads[t]; pc.CountUp? || pc.TestAndSet? || pc.LoadMain?
    requires s' == ResizeStep(s, t, memory)
    ensures t in s'.threads && PlaceOk(s', t)
  {
    hide PlaceOk, Settled, Nowhere, UpTo, Past, Missed, Kept, WithRoom, ProducersOk, FlagOk, TablesOk;
    KnownUnregistered(s, t);
    KnowsTheSame(s, s', t);
    if s.threads[t].TestAndSet? || s.threads[t].ClearFlag? {
      AfterTheTest(s, s.threads[t].main, s.threads[t].newCount);
    }
    UnregisteredPlace(s', t);
  }

  lemma CountKept(s: State, t: ThreadId, memory: bool, s': State)
    requires Inv(s) && t in s.threads && InRange(s, s.threads[t]) && s.tables != [] && |s.tables[Newest(s)]| > 0
    requires var pc := s.threads[t]; pc.CountUp? || pc.TestAndSet? || pc.LoadMain?
    requires s' == ResizeStep(s, t, memory)
    ensures Kept(s, t, s')
  {
    hide PlaceOk, Kept, ProducersOk, FlagOk, TablesOk, WithRoom;
    CountPlace(s, t, memory, s');
    if HasFlag(s.threads[t]) {
      FlagIsSet(s, t);
    }
    if s.threads[t].TestAndSet? || s.threads[t].ClearFlag? {
      AfterTheTest(s, s.threads[t].main, s.threads[t].newCount);
    }
    PlainKept(s, t, s');
  }

  /** A thread with the resize flag, short of publishing a table. */
  lemma FlagStepsPlace(s: State, t: ThreadId, memory: bool, s': State)
    requires Inv(s) && t in s.threads && InRange(s, s.threads[t]) && s.tables != [] && |s.tables[Newest(s)]| > 0
    requires var pc := s.threads[t]; pc.Reload? || pc.Allocate? || pc.ClearFlag? || pc == FailCount || pc == FailFlag
    requires s' == ResizeStep(s, t, memory)
    ensures t in s'.threads && PlaceOk(s', t)
  {
    hide PlaceOk, Settled, Nowhere, UpTo, Past, Missed, Kept, WithRoom, ProducersOk, FlagOk, TablesOk;
    KnownUnregistered(s, t);
    KnowsTheSame(s, s', t);
    if s.threads[t].TestAndSet? || s.threads[t].ClearFlag? {
      AfterTheTest(s, s.threads[t].main, s.threads[t].newCount);
    }
    UnregisteredPlace(s', t);
  }

  lemma FlagStepsKept(s: State, t: ThreadId, memory: bool, s': State)
    requires Inv(s) && t in s.threads && InRange(s, s.threads[t]) && s.tables != [] && |s.tables[Newest(s)]| > 0
    requires var pc := s.threads[t]; pc.Reload? || pc.Allocate? || pc.ClearFlag? || pc == FailCount || pc == FailFlag
    requires s' == ResizeStep(s, t, memory)
    ensures Kept(s, t, s')
  {
    hide PlaceOk, Kept, ProducersOk, FlagOk, TablesOk, WithRoom;
    FlagStepsPlace(s, t, memory, s');
    if HasFlag(s.threads[t]) {
      FlagIsSet(s, t);
    }
    if s.threads[t].TestAndSet? || s.threads[t].ClearFlag? {
      AfterTheTest(s, s.threads[t].main, s.threads[t].newCount);
    }
    PlainKept(s, t, s');
  }

  lemma ResizeKept(s: State, t: ThreadId, memory: bool)
    requires Inv(s) && t in s.threads && InRange(s, s.threads[t]) && s.tables != [] && |s.tables[Newest(s)]| > 0
    requires var pc := s.threads[t];
      pc.CountUp? || pc.TestAndSet? || pc.LoadMain?
      || pc.Reload? || pc.Allocate? || pc.ClearFlag? || pc == FailCount || pc == FailFlag
    ensures Kept(s, t, ResizeStep(s, t, memory))
  {
    hide Inv, Kept, InRange;
    var s' := ResizeStep(s, t, memory);
    if HasFlag(s.threads[t]) {
      FlagStepsKept(s, t, memory, s');
    } else {
      CountKept(s, t, memory, s');
    }
  }

  lemma AfterTheTest(s: State, main: nat, newCount: int)
    requires main < |s.tables|
    ensures WithRoom(s, main, newCount) == Scan(main, |s.inactive|) || WithRoom(s, main, newCount) == LoadMain(newCount)
  {
  }

  lemma PublishKept(s: State, t: ThreadId, memory: bool, s': State)
    requires Inv(s) && t in s.threads && s.threads[t].Publish? && s.tables != [] && |s.tables[Newest(s)]| > 0
    requires InRange(s, s.threads[t]) && s' == ResizeStep(s, t, memory)
    ensures Kept(s, t, s')
  {
    hide Kept, StepOf, TablesOk, ProducersOk, FlagOk, TableOk, Doubled;
    assert PlaceOk(s, t);
    var capacity := Doubled(2 * |s.tables[s.threads[t].main]|, s.threads[t].newCount);
    DoubledIsPositive(2 * |s.tables[s.threads[t].main]|, s.threads[t].newCount);
    Appended(s, t, capacity, s');
    assert forall i, c :: !Mine(s', t, i, c);
    FlagIsSet(s, t);
    ChangedKept(s, t, s');
  }

  lemma FlagIsSet(s: State, t: ThreadId)
    requires FlagOk(s) && t in s.threads && HasFlag(s.threads[t])
    ensures s.resizing
  {
  }

  /** A table without entries, which points to the newest one, becomes the newest. */
  lemma Appended(s: State, t: ThreadId, capacity: nat, s': State)
    requires TablesOk(s) && t in s.threads && HasFlag(s.threads[t]) && capacity > 0
    requires s'.tables == s.tables + [NewTable(capacity)] && s'.prev == s.prev + [Some(|s.tables| - 1)] && s'.hash == s.hash
    requires t in s'.threads && s'.threads == s.threads[t := s'.threads[t]] && s'.owner == s.owner && s'.inactive == s.inactive
    ensures StepOf(s, t, s') && TablesOk(s')
    ensures forall u, i, c :: Mine(s', u, i, c) <==> Mine(s, u, i, c)
  {
    forall u, i, c ensures Mine(s', u, i, c) <==> Mine(s, u, i, c) {
      if i == |s.tables| && 0 <= c < capacity {
        assert s'.tables[i][c].key == Empty;
      }
    }
    forall i: nat ensures TableOk(s', i) {
      assert TableOk(s, i);
    }
  }

  lemma {:induction false} DoubledIsPositive(capacity: nat, newCount: int)
    requires capacity > 0
    ensures Doubled(capacity, newCount) >= capacity && newCount < Doubled(capacity, newCount) / 2
    decreases newCount - capacity / 2
  {
    if newCount >= capacity / 2 {
      DoubledIsPositive(2 * capacity, newCount);
    }
  }

  // ---------- Exits ----------

  /** The thread's key in slot `c` of table `i` becomes reusable. */
  lemma Buries(s: State, t: ThreadId, i: nat, c: nat, s': State)
    requires TablesOk(s) && t in s.threads && Mine(s, t, i, c) && t in s'.threads
    requires s'.tables == SetEntry(s, i, c, s.tables[i][c].(key := Reusable)).tables && s'.prev == s.prev && s'.hash == s.hash
    requires s'.owner == s.owner && s'.inactive == s.inactive && s'.threads == s.threads[t := s'.threads[t]]
    ensures StepOf(s, t, s') && TablesOk(s')
    ensures forall j, d :: Mine(s', t, j, d) <==> Mine(s, t, j, d) && j != i
  {
    assert StepOf(s, t, s');
    assert TableOk(s, i);
    assert forall j, d :: Mine(s', t, j, d) <==> Mine(s, t, j, d) && !(j == i && d == c);
    forall j: nat ensures TableOk(s', j) {
      assert TableOk(s, j);
      if j < |s.tables| {
        forall d | Mine(s', t, j, d) ensures t in s.threads && Findable(s'.tables[j], s.hash(t), d) {
          assert Mine(s, t, j, d) && s'.tables[j] == s.tables[j];
        }
        TableStays(s, t, s', j);
      }
    }
  }

  lemma BuryTakesKept(s: State, t: ThreadId, i: nat, n: nat, s': State)
    requires Inv(s) && t in s.threads && s.threads[t] == Bury(i, n) && InRange(s, s.threads[t])
    requires s.tables[i][SlotOf(s, t, i, n)].key == Thread(t) && s' == BuryStep(s, t, i, n)
    ensures Kept(s, t, s')
  {
    hide StepOf, TablesOk, Missed, Kept, ProducersOk, FlagOk;
    assert PlaceOk(s, t);
    PrevIs(s, i);
    Buries(s, t, i, SlotOf(s, t, i, n), s');
    ProbeBegins(s', t);
    ChangedKept(s, t, s');
  }

  lemma PrevIs(s: State, i: nat)
    requires TablesOk(s) && i < |s.tables|
    ensures i < |s.prev| == |s.tables| && s.prev[i] == (if i == 0 then None else Some(i - 1))
  {
    assert TableOk(s, i);
  }

  lemma BuryOnPlace(s: State, t: ThreadId, i: nat, n: nat, s': State)
    requires Inv(s) && t in s.threads && s.threads[t] == Bury(i, n) && InRange(s, s.threads[t])
    requires s.tables[i][SlotOf(s, t, i, n)].key != Thread(t) && s' == BuryStep(s, t, i, n)
    ensures t in s'.threads && PlaceOk(s', t)
  {
    hide Settled, Past, Missed, UpTo, Nowhere, Kept, SlotOf, ProducersOk, FlagOk, TablesOk;
    assert PlaceOk(s, t);
    PrevIs(s, i);
    KnowsTheSame(s, s', t);
    ProbeBegins(s, t);
    BuryKnows(s, t, i, n);
    BelowAll(s, t);
  }

  lemma BuryOnKept(s: State, t: ThreadId, i: nat, n: nat, s': State)
    requires Inv(s) && t in s.threads && s.threads[t] == Bury(i, n) && InRange(s, s.threads[t])
    requires s.tables[i][SlotOf(s, t, i, n)].key != Thread(t) && s' == BuryStep(s, t, i, n)
    ensures Kept(s, t, s')
  {
    hide PlaceOk, Kept, ProducersOk, FlagOk, TablesOk, SlotOf, WithRoom;
    BuryOnPlace(s, t, i, n, s');
    PlainKept(s, t, s');
  }

  lemma BelowAll(s: State, t: ThreadId)
    ensures UpTo(s, t, -1) ==> Nowhere(s, t)
  {
  }

  lemma BuryKnows(s: State, t: ThreadId, i: nat, n: nat)
    requires TablesOk(s) && i < |s.tables| && UpTo(s, t, i) && Missed(s, t, i, n)
    requires s.tables[i][SlotOf(s, t, i, n)].key != Thread(t)
    ensures s.tables[i][SlotOf(s, t, i, n)].key == Empty ==> UpTo(s, t, i - 1)
    ensures s.tables[i][SlotOf(s, t, i, n)].key != Empty ==> Missed(s, t, i, n + 1)
  {
    assert TableOk(s, i);
    Meets(s, t, i, n);
    if s.tables[i][SlotOf(s, t, i, n)].key == Empty {
      NotThere(s, t, i, n);
    }
  }

  // ---------- What holds in every reachable state ----------

  lemma StepKept(s: State, e: Event)
    requires Inv(s) && Enabled(s, e)
    ensures Kept(s, e.t, Apply(s, e))
  {
    hide Inv, Kept, SearchStep, MoveStep, ResizeStep, GetStep, InsertStep, BuryStep, InRange;
    if !e.Step? {
      StartKept(s, e);
    } else {
      var t, memory := e.t, e.memory;
      var s' := Apply(s, e);
      match s.threads[t]
      case LoadKey(main, i, n) => SearchKept(s, t, main, i, n, s');
      case MoveEmpty(_, _, _) => MoveKept(s, t);
      case MoveReusable(_, _, _) => MoveKept(s, t);
      case MoveValue(_, _, _) => MoveEndsKept(s, t, s');
      case Publish(_, _) => PublishKept(s, t, memory, s');
      case Scan(_, _) => GetKept(s, t, memory);
      case Catch(_, _) => GetKept(s, t, memory);
      case Create(_) => GetKept(s, t, memory);
      case Uncreated => GetKept(s, t, memory);
      case InsertReusable(_, _, _) => InsertKept(s, t);
      case Uncount(_, _, _) => InsertKept(s, t);
      case InsertEmpty(_, _, _) => InsertKept(s, t);
      case InsertValue(_, _, _) => InsertEndsKept(s, t, s');
      case Bury(i, n) => BuryKept(s, t, i, n);
      case Retire => RetireKept(s, t, s');
      case _ => ResizeKept(s, t, memory);
    }
  }

  lemma MoveKept(s: State, t: ThreadId)
    requires Inv(s) && t in s.threads && InRange(s, s.threads[t]) && (s.threads[t].MoveEmpty? || s.threads[t].MoveReusable?)
    ensures Kept(s, t, MoveStep(s, t))
  {
    hide Inv, Kept, SlotOf, TakeSlot;
    var s' := MoveStep(s, t);
    var main, n, p := s.threads[t].main, s.threads[t].n, s.threads[t].p;
    if s'.threads[t].MoveValue? {
      MoveTakesKept(s, t, main, n, p, s');
    } else {
      MoveOnKept(s, t, s');
    }
  }

  lemma InsertKept(s: State, t: ThreadId)
    requires Inv(s) && t in s.threads && InRange(s, s.threads[t])
    requires s.threads[t].InsertReusable? || s.threads[t].InsertEmpty? || s.threads[t].Uncount?
    ensures Kept(s, t, InsertStep(s, t))
  {
    hide Inv, Kept, SlotOf, TakeSlot;
    var s' := InsertStep(s, t);
    match s.threads[t] {
      case InsertReusable(main, n, p) =>
        if s.tables[main][SlotOf(s, t, main, n)].key == Reusable {
          TombstoneKept(s, t, main, n, p, s');
        } else {
          InsertOnKept(s, t, s');
        }
      case InsertEmpty(main, n, p) =>
        if s.tables[main][SlotOf(s, t, main, n)].key == Empty {
          EmptySlotKept(s, t, main, n, p, s');
        } else {
          InsertOnKept(s, t, s');
        }
      case _ => InsertOnKept(s, t, s');
    }
  }

  lemma GetKept(s: State, t: ThreadId, memory: bool)
    requires Inv(s) && t in s.threads && InRange(s, s.threads[t])
    requires s.threads[t].Scan? || s.threads[t].Catch? || s.threads[t].Create? || s.threads[t] == Uncreated
    ensures Kept(s, t, GetStep(s, t, memory))
  {
    hide Inv, Kept;
    if GetStep(s, t, memory).threads[t].InsertReusable? {
      GetTakesKept(s, t, memory, GetStep(s, t, memory));
    } else {
      GetOnKept(s, t, memory, GetStep(s, t, memory));
    }
  }

  lemma BuryKept(s: State, t: ThreadId, i: nat, n: nat)
    requires Inv(s) && t in s.threads && s.threads[t] == Bury(i, n) && InRange(s, s.threads[t])
    ensures Kept(s, t, BuryStep(s, t, i, n))
  {
    hide Inv, Kept, SlotOf;
    if s.tables[i][SlotOf(s, t, i, n)].key == Thread(t) {
      BuryTakesKept(s, t, i, n, BuryStep(s, t, i, n));
    } else {
      BuryOnKept(s, t, i, n, BuryStep(s, t, i, n));
    }
  }

  lemma InitialInv(s: State)
    requires Init(s)
    ensures Inv(s)
  {
    assert forall t, i, c :: !Mine(s, t, i, c);
  }

  lemma Invariant(s: State)
    requires Reachable(Init, Next, s)
    ensures Inv(s)
  {
    hide Inv, Kept, Apply, Enabled, Init;
    forall a: State | Init(a) ensures Inv(a) {
      InitialInv(a);
    }
    forall a: State, e: Event, b: State | Inv(a) && Next(a, e, b) ensures Inv(b) {
      StepKept(a, e);
      EnabledThread(a, e);
      KeptKeeps(a, e.t, b);
    }
    Induction(Init, Next, Inv, s);
  }

  lemma EnabledThread(s: State, e: Event)
    requires Enabled(s, e)
    ensures e.t in s.threads
  {
  }

  /**
   However calls interleave, a registered thread gets the producer it has: its lookup never goes on to
   register it anew, and when a call of get_or_add_implicit_producer returns it returns that producer.
   */
  lemma LookupIsRight(s: State, t: ThreadId, memory: bool)
    requires Reachable(Init, Next, s) && t in s.owner && t in s.threads && Enabled(s, Step(t, memory))
    ensures var pc := s.threads[t]; pc.LoadKey? || pc.MoveEmpty? || pc.MoveReusable? || pc.MoveValue? || pc.Bury? || pc == Retire
    ensures var s' := Apply(s, Step(t, memory));
      !s.threads[t].Bury? && s.threads[t] != Retire && s'.threads[t] == Out ==>
        s'.last[t] == Some(s.owner[t]) && s'.owner == s.owner
  {
    Invariant(s);
    hide UpTo, Missed, Past, SlotOf;
    assert PlaceOk(s, t);
    if s.threads[t].LoadKey? {
      SearchKnows(s, t, s.threads[t].main, s.threads[t].i, s.threads[t].n);
    }
  }

  /** No two threads ever have the same producer, registered or about to be: each has one enqueueing thread. */
  lemma ProducersAreExclusive(s: State, t: ThreadId, u: ThreadId)
    requires Reachable(Init, Next, s) && t != u && Holds(s, t).Some?
    ensures Holds(s, u) != Holds(s, t)
    ensures Holds(s, t).value < |s.inactive| && !s.inactive[Holds(s, t).value]
  {
    Invariant(s);
  }

  /** Between its calls a thread is in some table with its producer if it is registered, and in none if it is not. */
  lemma BetweenCalls(s: State, t: ThreadId)
    requires Reachable(Init, Next, s) && t in s.threads && s.threads[t] == Out
    ensures t in s.owner <==> exists i, c :: Mine(s, t, i, c)
    ensures t in s.owner ==> forall i, c :: Mine(s, t, i, c) ==> s.tables[i][c].value == Some(s.owner[t])
  {
    Invariant(s);
    assert PlaceOk(s, t);
  }

  /** A key is in a table once, and a probe for it meets no empty slot before it, whoever inserts meanwhile. */
  lemma KeysAreFindable(s: State, t: ThreadId, i: int, c: int, d: int)
    requires Reachable(Init, Next, s) && Mine(s, t, i, c)
    ensures Findable(s.tables[i], s.hash(t), c) && (Mine(s, t, i, d) ==> d == c)
  {
    Invariant(s);
    assert TableOk(s, i);
  }

  /** One thread resizes at a time, so the new table points to the newest one, and the tables stay one chain. */
  lemma PublishExtendsTheChain(s: State, t: ThreadId, u: ThreadId)
    requires Reachable(Init, Next, s) && t in s.threads && s.threads[t].Publish?
    ensures s.threads[t].main == |s.tables| - 1 && s.resizing
    ensures u in s.threads && HasFlag(s.threads[u]) ==> u == t
    ensures |s.prev| == |s.tables| && forall i: nat :: i < |s.tables| ==> s.prev[i] == (if i == 0 then None else Some(i - 1))
  {
    Invariant(s);
    assert PlaceOk(s, t);
    forall i: nat | i < |s.tables| ensures s.prev[i] == (if i == 0 then None else Some(i - 1)) {
      assert TableOk(s, i);
    }
  }

  /** No call gets stuck on a table, a slot or a producer that is not there. */
  lemma CallsGoOn(s: State, t: ThreadId, memory: bool)
    requires Reachable(Init, Next, s) && t in s.threads && s.threads[t] != Out
    ensures Enabled(s, Step(t, memory))
  {
    Invariant(s);
    hide PlaceOk, ProducersOk, TableOk, InRange;
    PlaceInRange(s, t);
    if s.threads[t] == Retire {
      RetiresItsProducer(s, t);
    }
  }

  lemma PlaceInRange(s: State, t: ThreadId)
    requires Inv(s) && t in s.threads
    ensures InRange(s, s.threads[t]) && s.tables != [] && |s.tables| == |s.prev| && |s.tables[Newest(s)]| > 0
  {
    hide Settled, Nowhere, UpTo, ProducersOk, FlagOk, Unbroken;
    assert PlaceOk(s, t) && TableOk(s, Newest(s));
    if At(s.threads[t]).Some? {
      assert TableOk(s, At(s.threads[t]).value);
    }
  }

  lemma RetiresItsProducer(s: State, t: ThreadId)
    requires Inv(s) && t in s.threads && s.threads[t] == Retire
    ensures t in s.owner && s.owner[t] < |s.inactive|
  {
    assert PlaceOk(s, t);
    assert Holds(s, t) == Some(s.owner[t]);
  }
}
