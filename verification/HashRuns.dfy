/**
 What calls of get_or_add_implicit_producer and thread exits come to in the midst of others: which
 results they return, when they fail, when they make a new producer, and what they leave behind.
 */
module HashRuns {
  import opened Options
  import opened Runs
  import Hash = ProducerHash
  import opened HashSteps

  /** A thread at `pc` is in a call of get_or_add_implicit_producer. */
  predicate Gets(pc: Pc) { pc != Out && !pc.Bury? && pc != Retire }

  // ---------- Results ----------

  /** What a registered thread's last call returned is the producer it is registered with. */
  ghost predicate ResultsOk(s: State) {
    forall t :: t in s.owner ==> t in s.last && s.last[t] == Some(s.owner[t])
  }

  /** What a step may do to a thread's result and registration. */
  ghost predicate StepReturns(s: State, t: Hash.ThreadId, s': State)
    requires t in s.threads && t in s'.threads
  {
    var pc := s.threads[t];
    && (forall u :: u != t ==> (u in s'.owner <==> u in s.owner) && (u in s.owner ==> s'.owner[u] == s.owner[u]))
    && (forall u :: u != t ==> (u in s'.last <==> u in s.last) && (u in s.last ==> s'.last[u] == s.last[u]))
    && (s'.threads[t] == Out && Gets(pc) ==>
          && t in s'.last
          && if t in s'.owner then s'.last[t] == Some(s'.owner[t]) else s'.last[t] == None && (pc == FailFlag || pc == Uncreated))
    && (s'.threads[t] != Out || !Gets(pc) ==>
          && (t in s'.owner ==> t in s.owner && s'.owner[t] == s.owner[t])
          && (t in s.last ==> t in s'.last && s'.last[t] == s.last[t]))
  }

  /** A thread asks for memory. */
  predicate Asks(pc: Pc) { pc.Allocate? || pc.Create? }

  predicate Fails(pc: Pc) { pc == FailCount || pc == FailFlag || pc == Uncreated }

  /** What a call under way counts for in the count of the hash. */
  function Counted(pc: Pc): int {
    match pc
    case TestAndSet(_, _) => 1
    case Reload(_) => 1
    case Allocate(_, _) => 1
    case Publish(_, _) => 1
    case ClearFlag(_, _) => 1
    case FailCount => 1
    case LoadMain(_) => 1
    case Scan(_, _) => 1
    case Catch(_, _) => 1
    case Create(_) => 1
    case Uncreated => 1
    case InsertReusable(_, _, _) => 1
    case Uncount(_, _, _) => 1
    case InsertEmpty(_, _, _) => 1
    case _ => 0
  }

  /** What each step keeps to: results, failures and the count. */
  ghost predicate StepLaw(s: State, t: Hash.ThreadId, memory: bool, s': State) {
    && t in s.threads && t in s'.threads && StepReturns(s, t, s')
    && (Fails(s'.threads[t]) ==> Fails(s.threads[t]) || (Asks(s.threads[t]) && !memory))
    && s'.count - s.count == Counted(s'.threads[t]) - Counted(s.threads[t])
                               + if s.threads[t].InsertEmpty? && s'.threads[t].InsertValue? then 1 else 0
  }

  lemma StepLaws(s: State, t: Hash.ThreadId, memory: bool)
    requires Inv(s) && Enabled(s, Step(t, memory))
    ensures StepLaw(s, t, memory, Apply(s, Step(t, memory)))
  {
    hide Inv, StepLaw, SearchStep, ResizeStep, GetStep, InsertStep, MoveStep, BuryStep, InRange;
    match s.threads[t] {
      case LoadKey(main, i, n) => SearchLaw(s, t, memory, main, i, n);
      case MoveEmpty(_, _, _) => MoveLaw(s, t, memory);
      case MoveReusable(_, _, _) => MoveLaw(s, t, memory);
      case MoveValue(_, _, _) => MoveLaw(s, t, memory);
      case Scan(_, _) => GetLaw(s, t, memory);
      case Catch(_, _) => GetLaw(s, t, memory);
      case Create(_) => GetLaw(s, t, memory);
      case Uncreated => GetLaw(s, t, memory);
      case InsertReusable(_, _, _) => InsertLaw(s, t, memory);
      case Uncount(_, _, _) => InsertLaw(s, t, memory);
      case InsertEmpty(_, _, _) => InsertLaw(s, t, memory);
      case InsertValue(_, _, _) => InsertLaw(s, t, memory);
      case Bury(i, n) => BuryLaw(s, t, memory, i, n);
      case Retire => RetireLaw(s, t, memory);
      case _ => ResizeLaw(s, t, memory);
    }
  }

  lemma SearchLaw(s: State, t: Hash.ThreadId, memory: bool, main: nat, i: nat, n: nat)
    requires Inv(s) && t in s.threads && s.threads[t] == LoadKey(main, i, n) && InRange(s, s.threads[t])
    ensures StepLaw(s, t, memory, SearchStep(s, t, main, i, n))
  {
    hide Settled, HashSteps.Nowhere, UpTo, Missed, Past, SlotOf, ProducersOk, FlagOk;
    assert PlaceOk(s, t);
    SearchKnows(s, t, main, i, n);
  }

  lemma MoveLaw(s: State, t: Hash.ThreadId, memory: bool)
    requires Inv(s) && t in s.threads && InRange(s, s.threads[t])
    requires s.threads[t].MoveEmpty? || s.threads[t].MoveReusable? || s.threads[t].MoveValue?
    ensures StepLaw(s, t, memory, MoveStep(s, t))
  {
    hide UpTo, Missed, Past, SlotOf, Mine, ProducersOk, FlagOk, TablesOk;
    assert PlaceOk(s, t);
  }

  lemma Unregistered(s: State, t: Hash.ThreadId)
    requires Inv(s) && t in s.threads && (Counted(s.threads[t]) == 1 || s.threads[t].CountUp? || s.threads[t] == FailFlag)
    ensures t !in s.owner
  {
    hide HashSteps.Nowhere, Past, Mine;
    assert PlaceOk(s, t);
  }

  lemma GetLaw(s: State, t: Hash.ThreadId, memory: bool)
    requires Inv(s) && t in s.threads && InRange(s, s.threads[t])
    requires s.threads[t].Scan? || s.threads[t].Catch? || s.threads[t].Create? || s.threads[t] == Uncreated
    ensures StepLaw(s, t, memory, GetStep(s, t, memory))
  {
    hide Inv;
    Unregistered(s, t);
  }

  /** A step that does not return, and touches neither registrations nor results. */
  lemma PlainLaw(s: State, t: Hash.ThreadId, memory: bool, s': State)
    requires t in s.threads && t in s'.threads && s'.owner == s.owner && s'.last == s.last && s'.threads[t] != Out
    requires Fails(s'.threads[t]) ==> Fails(s.threads[t]) || (Asks(s.threads[t]) && !memory)
    requires s'.count - s.count == Counted(s'.threads[t]) - Counted(s.threads[t])
                                   + if s.threads[t].InsertEmpty? && s'.threads[t].InsertValue? then 1 else 0
    ensures StepLaw(s, t, memory, s')
  {
  }

  lemma InsertLaw(s: State, t: Hash.ThreadId, memory: bool)
    requires Inv(s) && t in s.threads && InRange(s, s.threads[t])
    requires s.threads[t].InsertReusable? || s.threads[t].InsertEmpty? || s.threads[t].Uncount? || s.threads[t].InsertValue?
    ensures StepLaw(s, t, memory, InsertStep(s, t))
  {
    hide Inv, StepLaw, InsertStep;
    if s.threads[t].InsertValue? {
      RegisterLaw(s, t, memory);
    } else {
      TakeLaw(s, t, memory);
    }
  }

  lemma RegisterLaw(s: State, t: Hash.ThreadId, memory: bool)
    requires t in s.threads && InRange(s, s.threads[t]) && s.threads[t].InsertValue?
    ensures StepLaw(s, t, memory, InsertStep(s, t))
  {
    hide SlotOf, TakeSlot, SetEntry;
    SameBooks(s, t);
  }

  lemma TakeLaw(s: State, t: Hash.ThreadId, memory: bool)
    requires t in s.threads && InRange(s, s.threads[t])
    requires s.threads[t].InsertReusable? || s.threads[t].InsertEmpty? || s.threads[t].Uncount?
    ensures StepLaw(s, t, memory, InsertStep(s, t))
  {
    hide InsertStep, StepLaw, Asks, Fails, Counted;
    TakesOnly(s, t);
    PlainLaw(s, t, memory, InsertStep(s, t));
  }

  lemma TakesOnly(s: State, t: Hash.ThreadId)
    requires t in s.threads && InRange(s, s.threads[t])
    requires s.threads[t].InsertReusable? || s.threads[t].InsertEmpty? || s.threads[t].Uncount?
    ensures var s' := InsertStep(s, t);
      && t in s'.threads && s'.owner == s.owner && s'.last == s.last && s'.threads[t] != Out && !Fails(s'.threads[t])
      && s'.count - s.count == Counted(s'.threads[t]) - Counted(s.threads[t])
                               + if s.threads[t].InsertEmpty? && s'.threads[t].InsertValue? then 1 else 0
  {
    hide SlotOf, TakeSlot, SetEntry;
    SameBooks(s, t);
  }

  /** Taking a slot and setting a value leaves the other records alone. */
  lemma SameBooks(s: State, t: Hash.ThreadId)
    ensures forall i: nat, c: nat {:trigger TakeSlot(s, t, i, c)} :: i < |s.tables| && c < |s.tables[i]| ==>
              TakeSlot(s, t, i, c) == s.(tables := TakeSlot(s, t, i, c).tables)
    ensures forall i: nat, c: nat, e {:trigger SetEntry(s, i, c, e)} :: i < |s.tables| && c < |s.tables[i]| ==>
              SetEntry(s, i, c, e) == s.(tables := SetEntry(s, i, c, e).tables)
  {
  }

  lemma ResizeLaw(s: State, t: Hash.ThreadId, memory: bool)
    requires Inv(s) && t in s.threads && InRange(s, s.threads[t]) && s.tables != [] && |s.tables[Newest(s)]| > 0
    requires Resizes(s.threads[t])
    ensures StepLaw(s, t, memory, ResizeStep(s, t, memory))
  {
    hide Inv, StepLaw, ResizeStep;
    if s.threads[t] == FailFlag {
      Unregistered(s, t);
      FailLaw(s, t, memory);
    } else {
      if s.threads[t].Publish? {
        PublishesAt(s, t);
      }
      RoomLaw(s, t, memory);
    }
  }

  lemma FailLaw(s: State, t: Hash.ThreadId, memory: bool)
    requires t in s.threads && s.tables != [] && |s.tables[Newest(s)]| > 0 && s.threads[t] == FailFlag && t !in s.owner
    ensures StepLaw(s, t, memory, ResizeStep(s, t, memory))
  {
  }

  lemma RoomLaw(s: State, t: Hash.ThreadId, memory: bool)
    requires t in s.threads && InRange(s, s.threads[t]) && s.tables != [] && |s.tables[Newest(s)]| > 0
    requires Resizes(s.threads[t]) && s.threads[t] != FailFlag
    requires s.threads[t].Publish? ==> s.threads[t].main < |s.tables| && |s.tables[s.threads[t].main]| > 0
    ensures StepLaw(s, t, memory, ResizeStep(s, t, memory))
  {
    hide WithRoom, Doubled, NewTable, StepLaw, Counted, Fails, Asks;
    LeavesTheBooks(s, t, memory);
    CountLaw(s, t, memory);
    PlainLaw(s, t, memory, ResizeStep(s, t, memory));
  }

  lemma LeavesTheBooks(s: State, t: Hash.ThreadId, memory: bool)
    requires t in s.threads && InRange(s, s.threads[t]) && s.tables != [] && |s.tables[Newest(s)]| > 0
    requires Resizes(s.threads[t]) && s.threads[t] != FailFlag
    ensures var s' := ResizeStep(s, t, memory);
      t in s'.threads && s'.owner == s.owner && s'.last == s.last && s'.threads[t] != Out && !s'.threads[t].InsertValue?
  {
    hide WithRoom, Doubled, NewTable;
    if s.threads[t].TestAndSet? || s.threads[t].ClearFlag? {
      AfterTheTest(s, s.threads[t].main, s.threads[t].newCount);
    }
  }

  lemma CountLaw(s: State, t: Hash.ThreadId, memory: bool)
    requires t in s.threads && InRange(s, s.threads[t]) && s.tables != [] && |s.tables[Newest(s)]| > 0
    requires Resizes(s.threads[t]) && s.threads[t] != FailFlag
    requires s.threads[t].Publish? ==> s.threads[t].main < |s.tables| && |s.tables[s.threads[t].main]| > 0
    ensures var s' := ResizeStep(s, t, memory);
      && t in s'.threads && s'.count - s.count == Counted(s'.threads[t]) - Counted(s.threads[t])
      && (Fails(s'.threads[t]) ==> Fails(s.threads[t]) || (Asks(s.threads[t]) && !memory))
  {
    hide WithRoom, Doubled, NewTable;
    if s.threads[t].TestAndSet? || s.threads[t].ClearFlag? {
      AfterTheTest(s, s.threads[t].main, s.threads[t].newCount);
    }
  }

  lemma PublishesAt(s: State, t: Hash.ThreadId)
    requires Inv(s) && t in s.threads && s.threads[t].Publish?
    ensures s.threads[t].main < |s.tables| && |s.tables[s.threads[t].main]| > 0
  {
    hide Settled, HashSteps.Nowhere, UpTo, Missed, Past;
    assert PlaceOk(s, t) && TableOk(s, s.threads[t].main);
  }

  lemma BuryLaw(s: State, t: Hash.ThreadId, memory: bool, i: nat, n: nat)
    requires t in s.threads && s.threads[t] == Bury(i, n) && InRange(s, s.threads[t])
    ensures StepLaw(s, t, memory, BuryStep(s, t, i, n))
  {
    hide SlotOf;
  }

  lemma RetireLaw(s: State, t: Hash.ThreadId, memory: bool)
    requires Enabled(s, Step(t, memory)) && s.threads[t] == Retire
    ensures StepLaw(s, t, memory, Apply(s, Step(t, memory)))
  {
  }

  lemma Returns(s: State, e: Event)
    requires Inv(s) && Enabled(s, e)
    ensures e.t in s.threads && e.t in Apply(s, e).threads && StepReturns(s, e.t, Apply(s, e))
  {
    hide Inv;
    if e.Step? {
      StepLaws(s, e.t, e.memory);
    }
  }

  ghost predicate InvResults(s: State) { Inv(s) && ResultsOk(s) }

  lemma ResultsHold(s: State)
    requires Reachable(Init, Next, s)
    ensures ResultsOk(s) && Inv(s)
  {
    hide Inv, Init, Apply, Enabled, Kept;
    forall a: State | Init(a) ensures InvResults(a) {
      InitialInv(a);
      NobodyRegistered(a);
    }
    forall a: State, e: Event, b: State | InvResults(a) && Next(a, e, b) ensures InvResults(b) {
      Returns(a, e);
      StepKept(a, e);
      KeptKeeps(a, e.t, b);
      ResultsStay(a, e.t, b);
    }
    Induction(Init, Next, InvResults, s);
  }

  lemma NobodyRegistered(s: State)
    requires Init(s)
    ensures s.owner == map[]
  {
  }

  lemma ResultsStay(s: State, t: Hash.ThreadId, s': State)
    requires ResultsOk(s) && t in s.threads && t in s'.threads && StepReturns(s, t, s')
    ensures ResultsOk(s')
  {
  }

  /**
   Every call of get_or_add_implicit_producer that ends, a thread's first one or a later one, returns
   the producer the thread is registered with then; or it returns none, and the thread is not registered.
   */
  lemma CallsReturnTheirProducer(s: State, t: Hash.ThreadId, memory: bool)
    requires Reachable(Init, Next, s) && Enabled(s, Step(t, memory)) && Gets(s.threads[t])
    requires t in Apply(s, Step(t, memory)).threads && Apply(s, Step(t, memory)).threads[t] == Out
    ensures var s' := Apply(s, Step(t, memory));
      t in s'.last && s'.last[t] == if t in s'.owner then Some(s'.owner[t]) else None
  {
    Invariant(s);
    Returns(s, Step(t, memory));
  }

  /** What two registered threads were returned by their last calls are different producers. */
  lemma ResultsDiffer(s: State, t: Hash.ThreadId, u: Hash.ThreadId)
    requires Reachable(Init, Next, s) && t in s.owner && u in s.owner && t != u
    ensures t in s.last && u in s.last && s.last[t].Some? && s.last[u].Some? && s.last[t] != s.last[u]
  {
    ResultsHold(s);
    ProducersAreExclusive(s, t, u);
  }

  // ---------- Failure, and new producers ----------

  predicate Begins(e: Event, t: Hash.ThreadId) { e.t == t && !e.Step? }

  /** Event `m` is the last one before `n` by which thread `t` begins a call or an exit. */
  ghost predicate BeganAt(events: seq<Event>, n: nat, t: Hash.ThreadId, m: nat) {
    m < n <= |events| && Begins(events[m], t) && forall k :: m < k < n ==> !Begins(events[k], t)
  }

  /** After event `m` and before event `n` thread `t` asked for memory and was refused. */
  ghost predicate WasRefused(states: seq<State>, events: seq<Event>, m: nat, n: nat, t: Hash.ThreadId) {
    exists k :: m < k < n && k < |events| && k < |states| && events[k] == Step(t, false)
      && t in states[k].threads && Asks(states[k].threads[t])
  }

  lemma OthersThreads(s: State, e: Event, t: Hash.ThreadId)
    requires Inv(s) && Enabled(s, e) && t in s.threads && e.t != t
    ensures t in Apply(s, e).threads && Apply(s, e).threads[t] == s.threads[t]
  {
    hide Inv, Apply, Enabled;
    StepKept(s, e);
  }

  lemma ThreadsStay(s: State, e: Event)
    requires Inv(s) && Enabled(s, e)
    ensures Apply(s, e).threads.Keys == s.threads.Keys
  {
    hide Inv, Apply, Enabled;
    StepKept(s, e);
  }

  lemma {:induction false} FailedForMemory(states: seq<State>, events: seq<Event>, m: nat, n: nat, t: Hash.ThreadId)
    requires Run(Init, Next, states, events) && BeganAt(events, n, t, m)
    ensures t in states[n].threads && (Fails(states[n].threads[t]) ==> WasRefused(states, events, m, n, t))
    decreases n
  {
    hide Init, Inv, Apply;
    var s, e, s' := states[n - 1], events[n - 1], states[n];
    assert Next(s, e, s');
    OnTheWay(Init, Next, states, events, n - 1);
    Invariant(s);
    ThreadsStay(s, e);
    if n > m + 1 {
      FailedForMemory(states, events, m, n - 1, t);
      if e.t == t {
        StepLaws(s, t, e.memory);
      } else {
        OthersThreads(s, e, t);
      }
    } else {
      NotAtOnce(s, e);
    }
  }

  lemma NotAtOnce(s: State, e: Event)
    requires Enabled(s, e) && !e.Step?
    ensures e.t in s.threads && e.t in Apply(s, e).threads && !Fails(Apply(s, e).threads[e.t])
  {
  }

  /** A call returns no producer only if it asked for memory, for a table or a producer, and was refused. */
  lemma FailsOnlyIfRefused(states: seq<State>, events: seq<Event>, m: nat, n: nat, t: Hash.ThreadId)
    requires Run(Init, Next, states, events) && n < |events| && BeganAt(events, n, t, m)
    requires events[n].Step? && events[n].t == t && t in states[n].threads && Gets(states[n].threads[t])
    requires t in states[n + 1].threads && states[n + 1].threads[t] == Out
    ensures t in states[n + 1].last && (states[n + 1].last[t] == None ==> t !in states[n + 1].owner && WasRefused(states, events, m, n, t))
  {
    assert Next(states[n], events[n], states[n + 1]);
    OnTheWay(Init, Next, states, events, n);
    Invariant(states[n]);
    Returns(states[n], events[n]);
    FailedForMemory(states, events, m, n, t);
  }

  /** Between events `m` and `n` producer `q` was found in use. */
  ghost predicate SeenInUse(states: seq<State>, m: nat, n: nat, q: nat) {
    exists k :: m < k < n && k < |states| && q < |states[k].inactive| && !states[k].inactive[q]
  }

  ghost predicate AllSeen(states: seq<State>, m: nat, n: nat, p: nat, end: nat) {
    forall q: nat :: p <= q < end ==> SeenInUse(states, m, n, q)
  }

  /** Of the producers there were at some moment of the call those from `p` on were found in use. */
  ghost predicate LookedDownTo(states: seq<State>, m: nat, n: nat, p: nat) {
    exists k :: m < k < n && k < |states| && p <= |states[k].inactive| && AllSeen(states, m, n, p, |states[k].inactive|)
  }

  /** How far down the list of producers the thread has looked. */
  ghost predicate Looked(states: seq<State>, m: nat, n: nat, pc: Pc) {
    match pc
    case Scan(_, p) => LookedDownTo(states, m, n, p)
    case Catch(_, p) => LookedDownTo(states, m, n, p + 1)
    case Create(_) => LookedDownTo(states, m, n, 0)
    case _ => true
  }

  lemma LookedStill(states: seq<State>, m: nat, n: nat, p: nat)
    requires LookedDownTo(states, m, n, p)
    ensures LookedDownTo(states, m, n + 1, p)
  {
    var k :| m < k < n && k < |states| && p <= |states[k].inactive| && AllSeen(states, m, n, p, |states[k].inactive|);
    SeenStill(states, m, n, p, |states[k].inactive|);
    assert m < k < n + 1;
  }

  lemma SeenStill(states: seq<State>, m: nat, n: nat, p: nat, end: nat)
    requires AllSeen(states, m, n, p, end)
    ensures AllSeen(states, m, n + 1, p, end)
  {
    var n' := n + 1;
    forall q: nat | p <= q < end ensures SeenInUse(states, m, n', q) {
      assert SeenInUse(states, m, n, q);
    }
  }

  lemma StillLooked(states: seq<State>, m: nat, n: nat, pc: Pc)
    requires Looked(states, m, n, pc)
    ensures Looked(states, m, n + 1, pc)
  {
    hide LookedDownTo;
    if pc.Scan? {
      LookedStill(states, m, n, pc.p);
    } else if pc.Catch? {
      LookedStill(states, m, n, pc.p + 1);
    } else if pc.Create? {
      LookedStill(states, m, n, 0);
    }
  }

  /** One more producer was found in use. */
  lemma OneMoreSeen(states: seq<State>, m: nat, n: nat, p: nat)
    requires LookedDownTo(states, m, n, p + 1) && m < n < |states| && p < |states[n].inactive| && !states[n].inactive[p]
    ensures LookedDownTo(states, m, n + 1, p)
  {
    var k :| m < k < n && k < |states| && p + 1 <= |states[k].inactive| && AllSeen(states, m, n, p + 1, |states[k].inactive|);
    SeenStill(states, m, n, p + 1, |states[k].inactive|);
    assert SeenInUse(states, m, n + 1, p);
    assert m < k < n + 1 && AllSeen(states, m, n + 1, p, |states[k].inactive|);
  }

  /** Whoever begins to look begins with the last producer there is. */
  ghost predicate BeginsToLook(s: State, pc: Pc, pc': Pc) {
    pc'.Scan? && !pc.Scan? && !pc.Catch? ==> pc'.p == |s.inactive|
  }

  lemma LooksFromTheLast(s: State, t: Hash.ThreadId, memory: bool)
    requires Enabled(s, Step(t, memory)) && !s.threads[t].Scan? && !s.threads[t].Catch?
    ensures var s' := Apply(s, Step(t, memory));
      t in s'.threads && BeginsToLook(s, s.threads[t], s'.threads[t]) && !s'.threads[t].Catch? && !s'.threads[t].Create?
  {
    hide SearchStep, ResizeStep, GetStep, InsertStep, MoveStep, BuryStep, BeginsToLook;
    var pc := s.threads[t];
    if pc.LoadKey? || pc.Bury? {
      TableStepsDoNotLook(s, t);
    } else if pc.MoveEmpty? || pc.MoveReusable? || pc.MoveValue? || pc.InsertReusable? || pc.Uncount? || pc.InsertEmpty? || pc.InsertValue? {
      InsertionsDoNotLook(s, t);
    } else if pc.Create? || pc == Uncreated {
      GetsDoNotLook(s, t, memory);
    } else if pc != Retire {
      ResizeLooks(s, t, memory);
    } else {
      RetireDoesNotLook(s, t, memory);
    }
  }

  ghost predicate LooksRightly(s: State, t: Hash.ThreadId, s': State) {
    && t in s.threads && t in s'.threads
    && BeginsToLook(s, s.threads[t], s'.threads[t]) && !s'.threads[t].Catch? && !s'.threads[t].Create?
  }

  lemma TableStepsDoNotLook(s: State, t: Hash.ThreadId)
    requires t in s.threads && InRange(s, s.threads[t]) && (s.threads[t].LoadKey? || s.threads[t].Bury?)
    ensures s.threads[t].LoadKey? ==> LooksRightly(s, t, SearchStep(s, t, s.threads[t].main, s.threads[t].i, s.threads[t].n))
    ensures s.threads[t].Bury? ==> LooksRightly(s, t, BuryStep(s, t, s.threads[t].i, s.threads[t].n))
  {
    hide SlotOf, SetEntry;
    SameBooks(s, t);
  }

  lemma InsertionsDoNotLook(s: State, t: Hash.ThreadId)
    requires t in s.threads && InRange(s, s.threads[t])
    ensures var pc := s.threads[t];
      && (pc.MoveEmpty? || pc.MoveReusable? || pc.MoveValue? ==> LooksRightly(s, t, MoveStep(s, t)))
      && (pc.InsertReusable? || pc.InsertEmpty? || pc.Uncount? || pc.InsertValue? ==> LooksRightly(s, t, InsertStep(s, t)))
  {
    hide SlotOf, TakeSlot, SetEntry;
    SameBooks(s, t);
  }

  lemma GetsDoNotLook(s: State, t: Hash.ThreadId, memory: bool)
    requires t in s.threads && InRange(s, s.threads[t]) && (s.threads[t].Create? || s.threads[t] == Uncreated)
    ensures LooksRightly(s, t, GetStep(s, t, memory))
  {
  }

  lemma ResizeLooks(s: State, t: Hash.ThreadId, memory: bool)
    requires Enabled(s, Step(t, memory)) && Resizes(s.threads[t])
    ensures LooksRightly(s, t, ResizeStep(s, t, memory))
  {
    hide Doubled, NewTable, Apply;
  }

  predicate Resizes(pc: Pc) {
    pc.CountUp? || pc.TestAndSet? || pc.LoadMain? || pc.Reload? || pc.Allocate? || pc.Publish? || pc.ClearFlag? || pc == FailCount || pc == FailFlag
  }

  lemma RetireDoesNotLook(s: State, t: Hash.ThreadId, memory: bool)
    requires Enabled(s, Step(t, memory)) && s.threads[t] == Retire
    ensures LooksRightly(s, t, Apply(s, Step(t, memory)))
  {
  }

  lemma LooksOn(states: seq<State>, m: nat, n: nat, t: Hash.ThreadId, memory: bool)
    requires m < n < |states| && Enabled(states[n], Step(t, memory)) && Looked(states, m, n, states[n].threads[t])
    requires states[n].threads[t].Scan? || states[n].threads[t].Catch?
    ensures t in GetStep(states[n], t, memory).threads && Looked(states, m, n + 1, GetStep(states[n], t, memory).threads[t])
  {
    hide LookedDownTo;
    var s := states[n];
    match s.threads[t] {
      case Scan(_, p) =>
        if p > 0 && !s.inactive[p - 1] {
          OneMoreSeen(states, m, n, p - 1);
        } else {
          LookedStill(states, m, n, p);
        }
      case Catch(_, p) =>
        if !s.inactive[p] {
          OneMoreSeen(states, m, n, p);
        }
    }
  }

  /**
   A call makes a new producer only if each one there was when it began to look was in use at some
   moment of the call.
   */
  lemma {:induction false} RecyclesFirst(states: seq<State>, events: seq<Event>, m: nat, n: nat, t: Hash.ThreadId)
    requires Run(Init, Next, states, events) && BeganAt(events, n, t, m)
    ensures t in states[n].threads && Looked(states, m, n, states[n].threads[t])
    ensures states[n].threads[t].Create? ==>
              exists k :: m < k < n && AllSeen(states, m, n, 0, |states[k].inactive|)
    decreases n
  {
    hide Init, Inv, Apply, SeenInUse, Looked, Enabled;
    var s, e, s' := states[n - 1], events[n - 1], states[n];
    assert Next(s, e, s');
    OnTheWay(Init, Next, states, events, n - 1);
    Invariant(s);
    ThreadsStay(s, e);
    if n > m + 1 {
      RecyclesFirst(states, events, m, n - 1, t);
      if e.t != t {
        OthersThreads(s, e, t);
        StillLooked(states, m, n - 1, s.threads[t]);
      } else {
        OwnStepLooks(states, m, n - 1, t, e.memory);
      }
    } else {
      DoesNotLookAtOnce(states, m, n, s, e);
    }
    NothingLeft(states, m, n, s'.threads[t]);
  }

  lemma OwnStepLooks(states: seq<State>, m: nat, n: nat, t: Hash.ThreadId, memory: bool)
    requires m < n < |states| && Enabled(states[n], Step(t, memory)) && Looked(states, m, n, states[n].threads[t])
    ensures var s' := Apply(states[n], Step(t, memory)); t in s'.threads && Looked(states, m, n + 1, s'.threads[t])
  {
    var s := states[n];
    if s.threads[t].Scan? || s.threads[t].Catch? {
      LooksOn(states, m, n, t, memory);
      IsGetStep(s, t, memory);
    } else {
      hide Apply, Enabled;
      LooksFromTheLast(s, t, memory);
    }
  }

  lemma IsGetStep(s: State, t: Hash.ThreadId, memory: bool)
    requires Enabled(s, Step(t, memory)) && (s.threads[t].Scan? || s.threads[t].Catch?)
    ensures Apply(s, Step(t, memory)) == GetStep(s, t, memory)
  {
    hide GetStep;
  }

  lemma DoesNotLookAtOnce(states: seq<State>, m: nat, n: nat, s: State, e: Event)
    requires Enabled(s, e) && !e.Step?
    ensures e.t in Apply(s, e).threads && Looked(states, m, n, Apply(s, e).threads[e.t])
  {
  }

  lemma NothingLeft(states: seq<State>, m: nat, n: nat, pc: Pc)
    requires Looked(states, m, n, pc) && n < |states|
    ensures pc.Create? ==> exists k :: m < k < n && AllSeen(states, m, n, 0, |states[k].inactive|)
  {
  }

  /**
   The count is that of the empty slots new threads have used up, and of the calls under way that may
   yet: over a step it changes by what the call counts for, and for good by an empty slot taken.
   */
  lemma CountFollows(s: State, t: Hash.ThreadId, memory: bool)
    requires Reachable(Init, Next, s) && Enabled(s, Step(t, memory))
    ensures var s' := Apply(s, Step(t, memory));
      t in s'.threads
      && s'.count - s.count == Counted(s'.threads[t]) - Counted(s.threads[t])
           + if s.threads[t].InsertEmpty? && s'.threads[t].InsertValue? then 1 else 0
  {
    hide Inv;
    Invariant(s);
    StepLaws(s, t, memory);
  }

  /** A thread that has exited is in no table, and its producer can be recycled. */
  lemma ExitGivesBack(s: State, t: Hash.ThreadId, memory: bool)
    requires Reachable(Init, Next, s) && Enabled(s, Step(t, memory)) && s.threads[t] == Retire
    ensures var s' := Apply(s, Step(t, memory));
      && t in s.owner && s.owner[t] < |s.inactive|
      && s'.owner == s.owner - {t} && s'.inactive == s.inactive[s.owner[t] := true] && t !in s'.owner
      && (forall i, c :: !Mine(s', t, i, c)) && s'.threads[t] == Out
  {
    Invariant(s);
    assert PlaceOk(s, t);
    var s' := Apply(s, Step(t, memory));
    assert forall i, c :: Mine(s', t, i, c) <==> Mine(s, t, i, c);
  }
}
