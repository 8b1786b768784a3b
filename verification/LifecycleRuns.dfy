/**
 Whole runs of the block lifecycle, told from what was asked: which elements the enqueues were given,
 and which of them failed for want of a block.  Nothing here looks into the steps themselves.
 */
module LifecycleRuns {
  import opened Blocks
  import opened Runs
  import opened BlockLifecycle
  import Claims = ClaimProtocol

  /** The enqueue under way: with what it was called, and whether it was refused a block. */
  datatype Call = NoCall | Trying(items: seq<Element>) | Refused(items: seq<Element>)

  /** The call after an event: an enqueue starts, or is refused a block, or goes on. */
  function Heard(call: Call, e: Event): Call {
    match e
    case StartEnqueue(items) => Trying(items)
    case Acquire(NoBlock) => if call.Trying? then Refused(call.items) else call
    case _ => call
  }

  /** The enqueue under way after `n` events; it is over when the producer is quiet again. */
  ghost function CallAt(states: seq<State>, events: seq<Event>, n: nat): Call
    requires n <= |events| && |states| == |events| + 1
  {
    if n == 0 || states[n].prod == Quiet then NoCall else Heard(CallAt(states, events, n - 1), events[n - 1])
  }

  /** The items of the enqueues that were over after `n` events without having been refused a block, in order. */
  ghost function Enqueued(states: seq<State>, events: seq<Event>, n: nat): seq<Element>
    requires n <= |events| && |states| == |events| + 1
  {
    if n == 0 then []
    else
      var call := Heard(CallAt(states, events, n - 1), events[n - 1]);
      Enqueued(states, events, n - 1) + if states[n].prod == Quiet && call.Trying? then call.items else []
  }

  /** What the producer has in mind is what it was called with. */
  ghost predicate InMind(call: Call, p: Producer) {
    match p
    case Quiet => call == NoCall
    case Reserving(items, _) => call == Trying(items)
    case Resetting(items, _, _) => call == Trying(items)
    case Entering(items, _, _) => call == Trying(items)
    case Writing(items, _, _) => call == Trying(items)
    case UndoingEntries(_, _) => call.Refused?
    case UndoingBlocks(_, _) => call.Refused?
  }

  /** What one step has to do to the log and to what the producer has in mind. */
  ghost predicate StepSays(s: State, e: Event, s': State, call: Call) {
    var heard := Heard(call, e);
    && (s'.prod != Quiet ==> InMind(heard, s'.prod))
    && s'.log == s.log + (if s'.prod == Quiet && heard.Trying? then heard.items else [])
    && s'.claim.tail == s.claim.tail + (if s'.prod == Quiet && heard.Trying? then |heard.items| else 0)
  }

  lemma WorkStepSays(s: State, t: nat, call: Call)
    requires Enabled(s, DoWork(t)) && InMind(call, s.prod)
    ensures StepSays(s, DoWork(t), WorkStep(s, t), call)
  {
    hide Onward, EmptyCells, InMind;
    match s.work[t] {
      case CountOut(from, end, stop, b) =>
        OnwardSays(s.(mem := s.mem[b := s.mem[b].(count := s.mem[b].count + (end - from))]), t, end, stop);
      case GiveBack(k, i, stop, b) =>
        OnwardSays(ReturnBlock(s, b).(released := s.released + [k]), t, i, stop);
      case _ =>
    }
    QuietIsNoCall(call, s.prod);
  }

  lemma QuietIsNoCall(call: Call, p: Producer)
    requires InMind(call, p)
    ensures p == Quiet <==> call == NoCall
  {
  }

  lemma OnwardSays(s: State, t: nat, i: int, stop: int)
    requires t < |s.work| == |s.claim.threads| && s.claim.threads[t].Holding?
    ensures var s' := Onward(s, t, i, stop); s'.log == s.log && s'.claim.tail == s.claim.tail && s'.prod == s.prod
  {
  }

  lemma ProduceSays(s: State, call: Call)
    requires Enabled(s, Produce) && InMind(call, s.prod)
    ensures StepSays(s, Produce, ProduceStep(s), call)
  {
    hide EmptyCells, WriteTarget;
  }

  lemma OneStep(s: State, e: Event, s': State, call: Call)
    requires Next(s, e, s') && InMind(call, s.prod)
    ensures StepSays(s, e, s', call)
  {
    hide WorkStep, ProduceStep, WriteTarget, EmptyCells;
    match e {
      case DoWork(t) => WorkStepSays(s, t, call);
      case Produce => ProduceSays(s, call);
      case _ =>
    }
  }

  /**
   Over every run the log is the items of the enqueues that were not refused a block, in the order of
   the enqueues, and the tail is their number.
   */
  lemma {:induction false} LogIsWhatWasEnqueued(states: seq<State>, events: seq<Event>, n: nat)
    requires Run(Init, Next, states, events) && n <= |events|
    ensures states[n].log == Enqueued(states, events, n) && states[n].claim.tail == |Enqueued(states, events, n)|
    ensures InMind(CallAt(states, events, n), states[n].prod)
    decreases n
  {
    hide Init, Next, InMind;
    if n > 0 {
      LogIsWhatWasEnqueued(states, events, n - 1);
      StepOfRun(states, events, n - 1);
      OneStep(states[n - 1], events[n - 1], states[n], CallAt(states, events, n - 1));
      if states[n].prod == Quiet {
        NothingInMind();
      }
    } else {
      AtFirst(states[0]);
    }
  }

  lemma NothingInMind()
    ensures InMind(NoCall, Quiet)
  {
  }

  lemma AtFirst(s: State)
    requires Init(s)
    ensures s.log == [] && s.claim.tail == 0 && InMind(NoCall, s.prod)
  {
  }

  lemma StepOfRun(states: seq<State>, events: seq<Event>, n: nat)
    requires Run(Init, Next, states, events) && n < |events|
    ensures Next(states[n], events[n], states[n + 1])
  {
  }

  /** Was the enqueue refused a block after event `m` and before event `n`? */
  ghost predicate WasRefused(events: seq<Event>, m: nat, n: nat) {
    exists k :: m < k < n && k < |events| && events[k] == Acquire(NoBlock)
  }

  /** While an enqueue is under way the log and the tail stay as they were when it began. */
  lemma {:induction false} Meanwhile(states: seq<State>, events: seq<Event>, m: nat, n: nat, items: seq<Element>)
    requires Run(Init, Next, states, events) && m < n <= |events| && events[m] == StartEnqueue(items)
    requires forall k :: m < k <= n ==> states[k].prod != Quiet
    ensures CallAt(states, events, n) == if WasRefused(events, m, n) then Refused(items) else Trying(items)
    ensures states[n].log == states[m].log && states[n].claim.tail == states[m].claim.tail
    decreases n
  {
    hide Init, Next, InMind;
    LogIsWhatWasEnqueued(states, events, n - 1);
    StepOfRun(states, events, n - 1);
    OneStep(states[n - 1], events[n - 1], states[n], CallAt(states, events, n - 1));
    if n > m + 1 {
      Meanwhile(states, events, m, n - 1, items);
      StartsQuiet(states[n - 1], events[n - 1]);
      assert WasRefused(events, m, n) <==> WasRefused(events, m, n - 1) || events[n - 1] == Acquire(NoBlock);
    }
  }

  lemma StartsQuiet(s: State, e: Event)
    requires Enabled(s, e)
    ensures e.StartEnqueue? ==> s.prod == Quiet
  {
  }

  /**
   Each enqueue is all or nothing: when it is over, either it was refused a block on the way, and the log
   and the tail are as when it began, or it was not, and they have grown by exactly its items.
   */
  lemma EnqueueIsAllOrNothing(states: seq<State>, events: seq<Event>, m: nat, n: nat, items: seq<Element>)
    requires Run(Init, Next, states, events) && m < n <= |events| && events[m] == StartEnqueue(items)
    requires states[n].prod == Quiet && forall k :: m < k < n ==> states[k].prod != Quiet
    ensures if WasRefused(events, m, n) then states[n].log == states[m].log && states[n].claim.tail == states[m].claim.tail
            else states[n].log == states[m].log + items && states[n].claim.tail == states[m].claim.tail + |items|
  {
    hide Init, Next, InMind;
    LogIsWhatWasEnqueued(states, events, n - 1);
    StepOfRun(states, events, n - 1);
    OneStep(states[n - 1], events[n - 1], states[n], CallAt(states, events, n - 1));
    if n > m + 1 {
      Meanwhile(states, events, m, n - 1, items);
      StartsQuiet(states[n - 1], events[n - 1]);
      assert WasRefused(events, m, n) <==> WasRefused(events, m, n - 1) || events[n - 1] == Acquire(NoBlock);
    }
  }

  // ---------- Calls come to an end ----------

  /** A bound on the steps a running enqueue still takes. */
  function EnqueueAhead(s: State): int {
    match s.prod
    case Quiet => 0
    case Reserving(items, got) => var n := Needed(s.claim.tail, |items|); 3 * (n - |got|) + 2 * n + |items| + 3
    case Resetting(items, got, _) => var n := Needed(s.claim.tail, |items|); 3 * (n - |got|) + 2 * n + |items| + 2
    case Entering(items, got, _) => var n := Needed(s.claim.tail, |items|); 3 * (n - |got|) + 2 * n + |items| + 1
    case UndoingEntries(got, j) => (|got| - j) + |got| + 2
    case UndoingBlocks(got, j) => |got| - j + 1
    case Writing(items, _, w) => |items| - w + 1
  }

  /** Every step of a running enqueue brings its end nearer, and no other step puts it off. */
  lemma EnqueueAdvances(s: State, e: Event)
    requires Reachable(Init, Next, s) && Enabled(s, e) && s.prod != Quiet
    ensures EnqueueAhead(s) > 0
    ensures e.Acquire? || e.Produce? ==> EnqueueAhead(Apply(s, e)) < EnqueueAhead(s)
    ensures !e.Acquire? && !e.Produce? ==> EnqueueAhead(Apply(s, e)) == EnqueueAhead(s)
  {
    hide WorkStep, ProduceStep, AcquireStep, EnqueueAhead, Inv, Bounded;
    var h := Invariant(s);
    ProducerBounds(s, h);
    AheadOfAll(s);
    var s' := Apply(s, e);
    if e.Produce? {
      ProduceAdvances(s);
    } else if e.Acquire? {
      AcquireAdvances(s, e.source);
    } else {
      ProducerStays(s, e);
      SameAhead(s, s');
    }
  }

  lemma ProducerStays(s: State, e: Event)
    requires Enabled(s, e) && !e.Acquire? && !e.Produce? && s.prod != Quiet
    ensures Apply(s, e).prod == s.prod && Apply(s, e).claim.tail == s.claim.tail
  {
    hide WorkStep, EmptyCells;
    if e.DoWork? {
      WorkKeepsProducer(s, e.t);
    }
  }

  lemma SameAhead(s: State, s': State)
    requires s'.prod == s.prod && s'.claim.tail == s.claim.tail
    ensures EnqueueAhead(s') == EnqueueAhead(s)
  {
  }

  lemma AheadOfAll(s: State)
    requires Bounded(s) && s.prod != Quiet
    ensures EnqueueAhead(s) > 0
  {
    hide Needed;
  }

  lemma AcquireAdvances(s: State, src: Source)
    requires Bounded(s) && Enabled(s, Acquire(src))
    ensures EnqueueAhead(AcquireStep(s, src)) < EnqueueAhead(s)
  {
    hide Needed, EmptyCells;
  }

  /** Where the producer can be. */
  ghost predicate Bounded(s: State) {
    match s.prod
    case Quiet => true
    case Reserving(items, got) => |got| < Needed(s.claim.tail, |items|)
    case Resetting(items, got, _) => |got| < Needed(s.claim.tail, |items|)
    case Entering(items, got, _) => |got| < Needed(s.claim.tail, |items|)
    case UndoingEntries(got, j) => j <= |got|
    case UndoingBlocks(got, j) => j <= |got|
    case Writing(items, _, w) => w <= |items|
  }

  lemma ProducerBounds(s: State, h: History)
    requires Inv(s, h)
    ensures Bounded(s)
  {
  }

  lemma ProduceAdvances(s: State)
    requires Bounded(s) && Enabled(s, Produce)
    ensures EnqueueAhead(ProduceStep(s)) < EnqueueAhead(s)
  {
    hide WriteTarget, EmptyCells, Needed;
  }

  lemma WorkKeepsProducer(s: State, t: nat)
    requires Enabled(s, DoWork(t))
    ensures WorkStep(s, t).prod == s.prod && WorkStep(s, t).claim.tail == s.claim.tail
  {
    hide EmptyCells, Cell, Base, BlockOf;
  }

  /** A bound on the steps a consumer still takes with its claimed indices. */
  function WorkAhead(w: Work): int {
    match w
    case NoWork => 0
    case LookUp(i, stop) => 6 * (stop - i) + 1
    case MoveOut(_, i, _, stop, _) => 6 * (stop - i)
    case CountOut(_, end, stop, _) => 6 * (stop - end) + 4
    case ClearEntry(_, i, stop, _) => 6 * (stop - i) + 3
    case GiveBack(_, i, stop, _) => 6 * (stop - i) + 2
  }

  ghost predicate WorkBounded(w: Work) {
    match w
    case NoWork => true
    case LookUp(i, stop) => i < stop
    case MoveOut(from, i, end, stop, _) => from <= i < end <= stop
    case CountOut(from, end, stop, _) => from < end <= stop
    case ClearEntry(_, i, stop, _) => i <= stop
    case GiveBack(_, i, stop, _) => i <= stop
  }

  lemma WorkBounds(s: State, h: History, t: nat)
    requires Inv(s, h) && t < |s.work|
    ensures WorkBounded(s.work[t])
  {
    assert WorkOk(s, h, t);
  }

  lemma OnwardAhead(s: State, t: nat, i: int, stop: int)
    requires t < |s.work| == |s.claim.threads| && s.claim.threads[t].Holding? && i <= stop
    ensures 0 <= WorkAhead(Onward(s, t, i, stop).work[t]) <= 6 * (stop - i) + 1
  {
  }

  /** Every step of a consumer with its claimed indices brings the end of its dequeue nearer. */
  lemma WorkAdvances(s: State, t: nat)
    requires Reachable(Init, Next, s) && Enabled(s, DoWork(t))
    ensures 0 <= WorkAhead(WorkStep(s, t).work[t]) < WorkAhead(s.work[t])
  {
    hide Inv, Onward, EmptyCells, BlockOf, Base;
    var h := Invariant(s);
    WorkBounds(s, h, t);
    match s.work[t] {
      case CountOut(from, end, stop, b) =>
        OnwardAhead(s.(mem := s.mem[b := s.mem[b].(count := s.mem[b].count + (end - from))]), t, end, stop);
      case GiveBack(k, i, stop, b) =>
        OnwardAhead(ReturnBlock(s, b).(released := s.released + [k]), t, i, stop);
      case _ =>
    }
  }

  /** The other consumers and the tickets stay where they are. */
  lemma OthersStayPut(s: State, t: nat)
    requires Enabled(s, DoWork(t))
    ensures var s' := WorkStep(s, t);
      && |s'.work| == |s.work| && s'.claim.head == s.claim.head
      && forall u :: 0 <= u < |s.work| && u != t ==> s'.work[u] == s.work[u]
  {
    hide EmptyCells;
  }

  /** When a dequeue is over, every index it claimed has been moved out. */
  lemma DequeueDelivers(s: State, t: nat, i: int)
    requires Reachable(Init, Next, s) && Enabled(s, DoWork(t)) && WorkStep(s, t).work[t] == NoWork
    requires s.claim.threads[t].first <= i < s.claim.threads[t].first + s.claim.threads[t].count
    ensures var s' := WorkStep(s, t); i in s'.moved && 0 <= i < |s'.log| && s'.moved[i] == s'.log[i]
  {
    hide WorkStep;
    var h := Invariant(s);
    var s' := Apply(s, DoWork(t));
    Extend(Init, Next, s, DoWork(t), s');
    ElementsComeOutRight(s', i);
    OthersStayPut(s, t);
    Claims.Tickets(s.claim, t, t, i);
    if i !in s'.moved {
      var u :| 0 <= u < |s'.work| && Unmoved(s'.work[u]) <= i < Stop(s'.work[u]);
      assert WorkOk(s, h, u);
      Claims.Tickets(s.claim, t, u, i);
    }
  }
}
