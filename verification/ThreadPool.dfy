/**
 The thread pool of the DDS side: workers that wait for tasks under one mutex and one condition
 variable, threads that enqueue, and a destructor that stops and joins the workers.

 One event is one access to the mutex or the condition variable with the local code around it.  A
 task is run inside the critical section of its worker.  `accepted` and `executed` are records for
 the statements; no step reads them.
 */
module ThreadPool {
  import opened Runs

  type Task(!new, ==)

  datatype Worker =
    | Outside              // about to lock the mutex
    | Checking             // holds it, about to test the condition
    | Waiting              // waits for a notification, without the mutex
    | Woken                // notified, or spuriously awake: about to lock the mutex again
    | Running(task: Task)  // holds the mutex
    | Gone                 // returned

  datatype Client = Idle | Locked(task: Task) | MustNotify

  datatype Destructor = NotYet | Stopping | MustNotifyAll | Joining(next: nat) | Done

  datatype Owner = Free | ByWorker(w: nat) | ByClient(c: nat) | ByDestructor

  datatype State = State(
    mutex: Owner,
    workers: seq<Worker>,
    clients: seq<Client>,
    destructor: Destructor,
    tasks: seq<Task>,
    stop: bool,
    accepted: seq<Task>,
    executed: seq<Task>)

  /** Whom `notify_one` wakes. */
  datatype Choice = Nobody | Wake(w: nat)

  datatype Event =
    | Spawn
    | Work(w: nat)
    | SpuriousWakeup(w: nat)
    | StartEnqueue(c: nat, task: Task)
    | Push(c: nat)
    | NotifyOne(c: nat, choice: Choice)
    | Destroy

  predicate Init(s: State) {
    && s.mutex == Free && s.workers == [] && s.destructor == NotYet && s.tasks == [] && !s.stop
    && s.accepted == [] && s.executed == []
    && forall c :: 0 <= c < |s.clients| ==> s.clients[c] == Idle
  }

  predicate NobodyWaits(s: State) {
    forall w :: 0 <= w < |s.workers| ==> s.workers[w] != Waiting
  }

  predicate Enabled(s: State, e: Event) {
    match e
    case Spawn => s.destructor == NotYet
    case Work(w) =>
      && w < |s.workers|
      && (match s.workers[w]
          case Outside => s.mutex == Free
          case Woken => s.mutex == Free
          case Checking => true
          case Running(_) => true
          case Waiting => false
          case Gone => false)
    case SpuriousWakeup(w) => w < |s.workers| && s.workers[w] == Waiting
    case StartEnqueue(c, _) => c < |s.clients| && s.clients[c] == Idle && s.mutex == Free
    case Push(c) => c < |s.clients| && s.clients[c].Locked?
    case NotifyOne(c, choice) =>
      && c < |s.clients| && s.clients[c] == MustNotify
      && (match choice
          case Nobody => NobodyWaits(s)
          case Wake(w) => w < |s.workers| && s.workers[w] == Waiting)
    case Destroy =>
      match s.destructor
      case NotYet => s.mutex == Free
      case Stopping => true
      case MustNotifyAll => true
      case Joining(i) => i < |s.workers| ==> s.workers[i] == Gone
      case Done => false
  }

  function Goto(s: State, w: nat, pc: Worker): State
    requires w < |s.workers|
  {
    s.(workers := s.workers[w := pc])
  }

  function WorkerStep(s: State, w: nat): State
    requires Enabled(s, Work(w))
  {
    match s.workers[w]
    case Outside => Goto(s, w, Checking).(mutex := ByWorker(w))
    case Woken => Goto(s, w, Checking).(mutex := ByWorker(w))
    case Checking =>
      if !s.stop && s.tasks == [] then Goto(s, w, Waiting).(mutex := Free)
      else if s.stop && s.tasks == [] then Goto(s, w, Gone).(mutex := Free)
      else Goto(s, w, Running(s.tasks[0])).(tasks := s.tasks[1..])
    case Running(task) => Goto(s, w, Outside).(mutex := Free, executed := s.executed + [task])
  }

  function NotifiedAll(workers: seq<Worker>): (r: seq<Worker>)
    ensures |r| == |workers|
    ensures forall w :: 0 <= w < |r| ==> r[w] == if workers[w] == Waiting then Woken else workers[w]
  {
    seq(|workers|, w requires 0 <= w < |workers| => if workers[w] == Waiting then Woken else workers[w])
  }

  function Apply(s: State, e: Event): State
    requires Enabled(s, e)
  {
    match e
    case Spawn => s.(workers := s.workers + [Outside])
    case Work(w) => WorkerStep(s, w)
    case SpuriousWakeup(w) => Goto(s, w, Woken)
    case StartEnqueue(c, task) => s.(clients := s.clients[c := Locked(task)], mutex := ByClient(c))
    case Push(c) =>
      var task := s.clients[c].task;
      if s.stop then s.(clients := s.clients[c := Idle], mutex := Free)   // throws
      else s.(clients := s.clients[c := MustNotify], mutex := Free, tasks := s.tasks + [task], accepted := s.accepted + [task])
    case NotifyOne(c, choice) =>
      var t := s.(clients := s.clients[c := Idle]);
      (match choice
       case Nobody => t
       case Wake(w) => Goto(t, w, Woken))
    case Destroy =>
      match s.destructor
      case NotYet => s.(destructor := Stopping, mutex := ByDestructor)
      case Stopping => s.(destructor := MustNotifyAll, mutex := Free, stop := true)
      case MustNotifyAll => s.(destructor := Joining(0), workers := NotifiedAll(s.workers))
      case Joining(i) => s.(destructor := if i < |s.workers| then Joining(i + 1) else Done)
  }

  predicate Next(s: State, e: Event, s': State) {
    Enabled(s, e) && s' == Apply(s, e)
  }

  // ---------- The invariant ----------

  /** The mutex is held by whoever is in a critical section, so by one at most. */
  ghost predicate Exclusive(s: State) {
    && (forall w :: 0 <= w < |s.workers| ==> (s.workers[w].Checking? || s.workers[w].Running? <==> s.mutex == ByWorker(w)))
    && (forall c :: 0 <= c < |s.clients| ==> (s.clients[c].Locked? <==> s.mutex == ByClient(c)))
    && (s.destructor == Stopping <==> s.mutex == ByDestructor)
    && (s.mutex.ByWorker? ==> s.mutex.w < |s.workers|)
    && (s.mutex.ByClient? ==> s.mutex.c < |s.clients|)
  }

  /** The task being run, if any. */
  function InProgress(s: State): seq<Task> {
    if s.mutex.ByWorker? && s.mutex.w < |s.workers| && s.workers[s.mutex.w].Running? then [s.workers[s.mutex.w].task] else []
  }

  predicate Awake(pc: Worker) { !pc.Waiting? && !pc.Gone? }

  ghost predicate SomebodyAwake(s: State) {
    exists w :: 0 <= w < |s.workers| && Awake(s.workers[w])
  }

  ghost predicate NotifyPending(s: State) {
    exists c :: 0 <= c < |s.clients| && s.clients[c] == MustNotify
  }

  /** With tasks in the queue somebody will look at it. */
  ghost predicate NoLostWakeups(s: State) {
    s.tasks != [] && s.workers != [] ==> SomebodyAwake(s) || NotifyPending(s)
  }

  ghost predicate Shutdown(s: State) {
    && (s.stop <==> s.destructor.MustNotifyAll? || s.destructor.Joining? || s.destructor.Done?)
    && (forall w :: 0 <= w < |s.workers| && s.workers[w] == Gone ==> s.stop && s.tasks == [])
    && (s.destructor.Joining? || s.destructor.Done? ==> NobodyWaits(s))
    && (s.destructor.Joining? ==>
          s.destructor.next <= |s.workers| && forall w :: 0 <= w < s.destructor.next ==> s.workers[w] == Gone)
    && (s.destructor.Done? ==> forall w :: 0 <= w < |s.workers| ==> s.workers[w] == Gone)
  }

  ghost predicate Inv(s: State) {
    && Exclusive(s)
    && s.accepted == s.executed + InProgress(s) + s.tasks
    && NoLostWakeups(s)
    && Shutdown(s)
  }

  lemma ExclusiveKept(s: State, e: Event)
    requires Exclusive(s) && Enabled(s, e)
    ensures Exclusive(Apply(s, e))
  {
    hide NobodyWaits;
    if e.Work? {
      WorkKeepsExclusive(s, e.w);
    } else if e.Push? || e.StartEnqueue? || e.NotifyOne? {
      ClientKeepsExclusive(s, e);
    }
  }

  lemma WorkKeepsExclusive(s: State, w: nat)
    requires Exclusive(s) && Enabled(s, Work(w))
    ensures Exclusive(WorkerStep(s, w))
  {
    hide NobodyWaits;
  }

  lemma ClientKeepsExclusive(s: State, e: Event)
    requires Exclusive(s) && Enabled(s, e) && (e.Push? || e.StartEnqueue? || e.NotifyOne?)
    ensures Exclusive(Apply(s, e))
  {
    hide NobodyWaits, WorkerStep, NotifiedAll;
  }

  lemma TasksKept(s: State, e: Event)
    requires Inv(s) && Enabled(s, e)
    ensures var s' := Apply(s, e); s'.accepted == s'.executed + InProgress(s') + s'.tasks
  {
    hide NoLostWakeups, Shutdown, NobodyWaits, NotifiedAll, WorkerStep;
    if e.Work? {
      WorkKeepsTasks(s, e.w);
    } else {
      assert InProgress(Apply(s, e)) == InProgress(s);
    }
  }

  lemma WorkKeepsTasks(s: State, w: nat)
    requires Exclusive(s) && Enabled(s, Work(w)) && s.accepted == s.executed + InProgress(s) + s.tasks
    ensures var s' := WorkerStep(s, w); s'.accepted == s'.executed + InProgress(s') + s'.tasks
  {
    hide NobodyWaits;
    if s.workers[w].Checking? && s.tasks != [] {
      assert s.tasks == [s.tasks[0]] + s.tasks[1..];
    }
  }

  lemma WakeupsKept(s: State, e: Event)
    requires Inv(s) && Enabled(s, e)
    ensures NoLostWakeups(Apply(s, e))
  {
    var s' := Apply(s, e);
    if s'.tasks != [] && s'.workers != [] {
      match e
      case Spawn => assert Awake(s'.workers[|s.workers|]);
      case Work(w) => assert Awake(s'.workers[w]);
      case SpuriousWakeup(w) => assert Awake(s'.workers[w]);
      case StartEnqueue(c, _) => Others(s, s', c);
      case Push(c) =>
        if s.stop {
          Others(s, s', c);
        } else {
          assert s'.clients[c] == MustNotify;
        }
      case NotifyOne(_, choice) =>
        if choice.Wake? {
          assert Awake(s'.workers[choice.w]);
        } else {
          assert s.workers[0] != Waiting && s.workers[0] != Gone;
          assert Awake(s'.workers[0]);
        }
      case Destroy =>
        if SomebodyAwake(s) {
          var w :| 0 <= w < |s.workers| && Awake(s.workers[w]);
          assert Awake(s'.workers[w]);
        } else {
          var c :| 0 <= c < |s.clients| && s.clients[c] == MustNotify;
          assert s'.clients[c] == MustNotify;
        }
    }
  }

  /** What a client does that is not about to notify takes no wakeup away. */
  lemma Others(s: State, s': State, c: nat)
    requires NoLostWakeups(s) && s.tasks == s'.tasks && s.workers == s'.workers
    requires c < |s.clients| == |s'.clients| && s.clients[c] != MustNotify
    requires s'.clients == s.clients[c := s'.clients[c]]
    ensures NoLostWakeups(s')
  {
    if NotifyPending(s) {
      var d :| 0 <= d < |s.clients| && s.clients[d] == MustNotify;
      assert s'.clients[d] == MustNotify;
    }
  }

  lemma ShutdownKept(s: State, e: Event)
    requires Inv(s) && Enabled(s, e)
    ensures Shutdown(Apply(s, e))
  {
    hide Exclusive, NoLostWakeups, InProgress;
    if e.Work? {
      WorkKeepsShutdown(s, e.w);
    }
  }

  lemma WorkKeepsShutdown(s: State, w: nat)
    requires Shutdown(s) && Enabled(s, Work(w))
    ensures Shutdown(Apply(s, Work(w)))
  {
  }

  lemma StepKeeps(s: State, e: Event, s': State)
    requires Inv(s) && Next(s, e, s')
    ensures Inv(s')
  {
    ExclusiveKept(s, e);
    TasksKept(s, e);
    WakeupsKept(s, e);
    ShutdownKept(s, e);
  }

  lemma Invariant(s: State)
    requires Reachable(Init, Next, s)
    ensures Inv(s)
  {
    forall a: State, e: Event, b: State | Inv(a) && Next(a, e, b) ensures Inv(b) {
      StepKeeps(a, e, b);
    }
    Induction(Init, Next, Inv, s);
  }

  // ---------- Theorems ----------

  /** What was executed, what is being executed and what is queued are the accepted tasks in order. */
  lemma ExecutesInOrder(s: State)
    requires Reachable(Init, Next, s)
    ensures s.accepted == s.executed + InProgress(s) + s.tasks && s.executed <= s.accepted
  {
    Invariant(s);
  }

  /** Tasks run one at a time. */
  lemma OneAtATime(s: State, v: nat, w: nat)
    requires Reachable(Init, Next, s)
    requires v < |s.workers| && w < |s.workers| && s.workers[v].Running? && s.workers[w].Running?
    ensures v == w && InProgress(s) == [s.workers[v].task]
  {
    Invariant(s);
  }

  /** With tasks queued and a worker there, a worker is awake or a notification is on its way. */
  lemma NoWakeupIsLost(s: State)
    requires Reachable(Init, Next, s) && s.tasks != [] && s.workers != []
    ensures SomebodyAwake(s) || NotifyPending(s)
  {
    Invariant(s);
  }

  /** When the workers wait and no enqueue is under way, every accepted task has been executed. */
  lemma IdleMeansAllExecuted(s: State)
    requires Reachable(Init, Next, s) && s.workers != []
    requires forall w :: 0 <= w < |s.workers| ==> !Awake(s.workers[w])
    requires forall c :: 0 <= c < |s.clients| ==> s.clients[c] == Idle
    ensures s.executed == s.accepted
  {
    Invariant(s);
  }

  /** A worker returns only when nothing is queued, and nothing will be. */
  lemma NobodyLeavesEarly(s: State, w: nat)
    requires Reachable(Init, Next, s) && w < |s.workers| && s.workers[w] == Gone
    ensures s.tasks == [] && s.stop
    ensures forall e :: Enabled(s, e) ==> Apply(s, e).accepted == s.accepted
  {
    Invariant(s);
  }

  /** A destructor that returns leaves every accepted task executed, if there was any worker. */
  lemma DestroyedMeansAllExecuted(s: State)
    requires Reachable(Init, Next, s) && s.destructor == Done && s.workers != []
    ensures s.executed == s.accepted
  {
    Invariant(s);
    assert s.workers[0] == Gone;
  }

  // ---------- What is accepted and executed ----------

  /** The task of the last enqueue client `c` started. */
  ghost function Submitted(events: seq<Event>, c: nat): seq<Task> {
    if events == [] then []
    else
      var e := events[|events| - 1];
      if e.StartEnqueue? && e.c == c then [e.task] else Submitted(events[..|events| - 1], c)
  }

  /** The steps the destructor has taken. */
  ghost function Destroys(events: seq<Event>): nat {
    if events == [] then 0 else Destroys(events[..|events| - 1]) + if events[|events| - 1] == Destroy then 1 else 0
  }

  /** The tasks of the enqueues that got to the queue before the destructor's second step, which stops the pool. */
  ghost function Admitted(events: seq<Event>): seq<Task> {
    if events == [] then []
    else
      var before, e := events[..|events| - 1], events[|events| - 1];
      Admitted(before) + if e.Push? && Destroys(before) < 2 then Submitted(before, e.c) else []
  }

  /** The destructor is as far as its steps have brought it. */
  ghost predicate StepsTaken(s: State, destroys: nat) {
    destroys == match s.destructor
                case NotYet => 0
                case Stopping => 1
                case MustNotifyAll => 2
                case Joining(i) => 3 + i
                case Done => 4 + |s.workers|
  }

  /** Who has the mutex to enqueue has it for the task it submitted. */
  ghost predicate LockedFor(s: State, events: seq<Event>) {
    forall c :: 0 <= c < |s.clients| && s.clients[c].Locked? ==> Submitted(events, c) == [s.clients[c].task]
  }

  /** What was accepted is what was enqueued before the pool was stopped, every task and in order. */
  lemma {:induction false} AcceptsWhatIsEnqueued(states: seq<State>, events: seq<Event>, n: nat)
    requires Run(Init, Next, states, events) && n <= |events|
    ensures states[n].accepted == Admitted(events[..n])
    ensures StepsTaken(states[n], Destroys(events[..n])) && LockedFor(states[n], events[..n])
  {
    hide Inv, LockedFor, StepsTaken, Apply, Enabled, Admitted, Destroys, Submitted;
    if n == 0 {
      AtFirst(states[0]);
    } else {
      var before, e := events[..n - 1], events[n - 1];
      AcceptsWhatIsEnqueued(states, events, n - 1);
      OnTheWay(Init, Next, states, events, n - 1);
      Invariant(states[n - 1]);
      assert events[..n] == before + [e] && Next(states[n - 1], e, states[n]);
      DestroyCounts(states[n - 1], before, e);
      LocksFor(states[n - 1], before, e);
      StopIsTheSecond(states[n - 1], Destroys(before));
      PushAccepts(states[n - 1], e);
      OneMoreAdmitted(before, e);
      if e.Push? {
        Submits(states[n - 1], before, e);
      }
    }
  }

  lemma AtFirst(s: State)
    requires Init(s)
    ensures s.accepted == Admitted([]) && StepsTaken(s, Destroys([])) && LockedFor(s, [])
  {
  }

  lemma DestroyCounts(s: State, events: seq<Event>, e: Event)
    requires Inv(s) && StepsTaken(s, Destroys(events)) && Enabled(s, e)
    ensures StepsTaken(Apply(s, e), Destroys(events + [e]))
  {
    hide NoLostWakeups, InProgress, Exclusive, NobodyWaits;
    assert (events + [e])[..|events|] == events;
  }

  lemma LocksFor(s: State, events: seq<Event>, e: Event)
    requires LockedFor(s, events) && Enabled(s, e)
    ensures LockedFor(Apply(s, e), events + [e])
  {
    assert (events + [e])[..|events|] == events;
  }

  lemma StopIsTheSecond(s: State, destroys: nat)
    requires Inv(s) && StepsTaken(s, destroys)
    ensures s.stop <==> destroys >= 2
  {
    hide NoLostWakeups, InProgress, Exclusive, NobodyWaits;
  }

  /** Only a push before the stop accepts anything, and it accepts its own task. */
  lemma PushAccepts(s: State, e: Event)
    requires Enabled(s, e)
    ensures Apply(s, e).accepted == s.accepted + if e.Push? && !s.stop then [s.clients[e.c].task] else []
  {
    hide NotifiedAll, NobodyWaits;
  }

  lemma Submits(s: State, events: seq<Event>, e: Event)
    requires LockedFor(s, events) && Enabled(s, e) && e.Push?
    ensures Submitted(events, e.c) == [s.clients[e.c].task]
  {
  }

  lemma OneMoreAdmitted(events: seq<Event>, e: Event)
    ensures Admitted(events + [e]) == Admitted(events) + if e.Push? && Destroys(events) < 2 then Submitted(events, e.c) else []
  {
    hide Destroys, Submitted;
    assert (events + [e])[..|events|] == events;
  }

  /** A worker that gets the mutex executes the first task and is back for the next; without a task it sleeps or returns. */
  lemma WorkerExecutes(s: State, w: nat)
    requires Reachable(Init, Next, s) && w < |s.workers| && (s.workers[w] == Outside || s.workers[w] == Woken) && s.mutex == Free
    ensures Enabled(s, Work(w)) && Enabled(Apply(s, Work(w)), Work(w))
    ensures var t := Apply(Apply(s, Work(w)), Work(w));
      if s.tasks == [] then t == Goto(s, w, if s.stop then Gone else Waiting)
      else Enabled(t, Work(w)) && Apply(t, Work(w)) == Goto(s, w, Outside).(tasks := s.tasks[1..], executed := s.executed + [s.tasks[0]])
  {
    var checking := Apply(s, Work(w));
    assert checking.workers == s.workers[w := Checking];
    var t := Apply(checking, Work(w));
    assert t.workers[w := Outside] == s.workers[w := Outside];
    assert t.workers == s.workers[w := t.workers[w]];
  }

  // ---------- The destructor does not hang ----------

  function Rank(pc: Worker): nat {
    match pc
    case Gone => 0
    case Checking => 1
    case Outside => 2
    case Woken => 2
    case Waiting => 2
    case Running(_) => 3
  }

  function Ranks(workers: seq<Worker>): nat {
    if workers == [] then 0 else Rank(workers[0]) + Ranks(workers[1..])
  }

  /** A bound on the steps the workers will still take once the pool is stopped. */
  function Ahead(s: State): nat { 4 * |s.tasks| + Ranks(s.workers) }

  lemma {:induction false} RanksUpdate(workers: seq<Worker>, w: nat, pc: Worker)
    requires w < |workers|
    ensures Ranks(workers[w := pc]) == Ranks(workers) - Rank(workers[w]) + Rank(pc)
  {
    if w == 0 {
      assert workers[w := pc][1..] == workers[1..];
    } else {
      assert workers[w := pc][1..] == workers[1..][w - 1 := pc];
      RanksUpdate(workers[1..], w - 1, pc);
    }
  }

  /** A notification changes no rank. */
  lemma {:induction false} RanksOfNotified(workers: seq<Worker>)
    ensures Ranks(NotifiedAll(workers)) == Ranks(workers)
  {
    if workers != [] {
      RanksOfNotified(workers[1..]);
      assert NotifiedAll(workers)[1..] == NotifiedAll(workers[1..]);
    }
  }

  /** Once the pool is stopped, every step of a worker brings the end nearer, and no other step puts it off. */
  lemma ShutdownAdvances(s: State, e: Event)
    requires Reachable(Init, Next, s) && s.stop && Enabled(s, e)
    ensures Apply(s, e).stop
    ensures Ahead(Apply(s, e)) <= Ahead(s) && (e.Work? ==> Ahead(Apply(s, e)) < Ahead(s))
  {
    Invariant(s);
    hide Exclusive, NoLostWakeups, InProgress;
    match e {
      case Work(w) => RanksUpdate(s.workers, w, Apply(s, e).workers[w]);
      case SpuriousWakeup(w) => RanksUpdate(s.workers, w, Woken);
      case NotifyOne(_, choice) =>
        if choice.Wake? {
          RanksUpdate(s.workers, choice.w, Woken);
        }
      case Destroy => RanksOfNotified(s.workers);
      case _ =>
    }
  }

  /** From when the destructor has the mutex to its end, it or a worker can take a step, or the mutex is about to be released. */
  lemma ShutdownIsNeverStuck(s: State)
    requires Reachable(Init, Next, s) && s.destructor != NotYet && s.destructor != Done
    ensures || (exists w :: Enabled(s, Work(w)))
            || (s.mutex.ByClient? && Enabled(s, Push(s.mutex.c)) && Apply(s, Push(s.mutex.c)).mutex == Free)
            || Enabled(s, Destroy)
  {
    Invariant(s);
    var i := if s.destructor.Joining? then s.destructor.next else |s.workers|;
    if i < |s.workers| && s.workers[i] != Gone {
      if s.mutex == Free {
        assert Enabled(s, Work(i));
      } else if s.mutex.ByWorker? {
        assert Enabled(s, Work(s.mutex.w));
      }
    }
  }
}
