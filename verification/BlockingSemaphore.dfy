/**
 The blocking queue with the semaphore it has: `signal`, `tryWaitMany` and `waitMany` run step by step,
 in any interleaving with each other and with the dequeues on the sub-queues.

 Every run of this machine is a run of BlockingQueue once the inside of the semaphore is hidden: its
 permits are those available in the semaphore, and a client has taken what its call was granted so far.
 */
module BlockingSemaphore {
  import opened Numbers
  import opened Options
  import opened Runs
  import Claims = ClaimProtocol
  import Sema = Semaphore
  import Queue = BlockingQueue
  import InnerQueue

  /** What a client thread is doing. */
  datatype Client =
    | Resting
    | Unsignalled(n: nat)                   // enqueued n elements, about to call signal(n)
    | Signalling                            // inside signal
    | Waiting                               // inside tryWaitMany or waitMany
    | Owing(owed: nat, at: Option<nat>)     // has permits for `owed` elements; inside sub-queue `at`

  datatype State = State(subs: seq<Claims.State>, sema: Sema.State, clients: seq<Client>)

  datatype Event =
    | Enqueue(thread: nat, sub: nat, n: nat)
    | Call(thread: nat, e: Sema.Event)       // call the semaphore
    | Inside(thread: nat, succeeds: bool)    // the next step of that call
    | Return(thread: nat)                    // go on with its result
    | Try(thread: nat, sub: nat, max: nat)
    | Advance(thread: nat)

  /** The semaphore starts without permits. */
  predicate Init(s: State) {
    && Sema.Init(s.sema) && s.sema.initial == 0 && |s.sema.threads| == |s.clients|
    && (forall t :: 0 <= t < |s.clients| ==> s.clients[t] == Resting)
    && (forall p :: 0 <= p < |s.subs| ==> Claims.Init(s.subs[p]) && |s.subs[p].threads| == |s.clients|)
  }

  /** A client signals what it enqueued, and waits when it has nothing else to do. */
  predicate MayCall(c: Client, t: nat, e: Sema.Event) {
    match e
    case Signal(u, n) => u == t && c == Unsignalled(n)
    case StartTry(u, _) => u == t && c == Resting
    case StartWait(u, _, _) => u == t && c == Resting
    case Advance(_, _) => false
  }

  predicate Enabled(s: State, e: Event) {
    && e.thread < |s.clients|
    && match e
       case Enqueue(t, p, _) => s.clients[t] == Resting && p < |s.subs|
       case Call(t, call) => MayCall(s.clients[t], t, call) && Sema.Enabled(s.sema, call)
       case Inside(t, ok) => (s.clients[t].Signalling? || s.clients[t].Waiting?) && Sema.Enabled(s.sema, Sema.Advance(t, ok))
       case Return(t) =>
         (s.clients[t].Signalling? || s.clients[t].Waiting?) && t < |s.sema.threads| && s.sema.threads[t].Idle?
       case Try(t, p, max) =>
         && s.clients[t].Owing? && s.clients[t].at == None && 0 < max <= s.clients[t].owed
         && p < |s.subs| && Claims.Enabled(s.subs[p], Claims.StartDequeue(t, max))
       case Advance(t) =>
         && s.clients[t].Owing? && s.clients[t].at.Some? && s.clients[t].at.value < |s.subs|
         && Claims.Enabled(s.subs[s.clients[t].at.value], Claims.Advance(t))
  }

  /** Without permits the call is over; with some, as many elements are to be dequeued. */
  function AfterWait(result: int): Client {
    if result <= 0 then Resting else Owing(result, None)
  }

  function Apply(s: State, e: Event): State
    requires Enabled(s, e)
  {
    var t := e.thread;
    match e
    case Enqueue(_, p, n) =>
      s.(subs := s.subs[p := Claims.Apply(s.subs[p], Claims.Publish(n))], clients := s.clients[t := Unsignalled(n)])
    case Call(_, call) =>
      s.(sema := Sema.Apply(s.sema, call), clients := s.clients[t := if call.Signal? then Signalling else Waiting])
    case Inside(_, ok) => s.(sema := Sema.Move(s.sema, t, ok))
    case Return(_) =>
      s.(clients := s.clients[t := if s.clients[t].Signalling? then Resting else AfterWait(s.sema.threads[t].result)])
    case Try(_, p, max) =>
      s.(subs := s.subs[p := Claims.Apply(s.subs[p], Claims.StartDequeue(t, max))],
         clients := s.clients[t := Owing(s.clients[t].owed, Some(p))])
    case Advance(_) =>
      var Owing(owed, at) := s.clients[t];
      var sub := Claims.Move(s.subs[at.value], t);
      var left := Queue.StillOwed(owed, s.subs[at.value].threads[t], sub.threads[t]);
      var client :=
        if sub.threads[t] != Claims.Idle then Owing(Max(left, 0), at)
        else if left <= 0 then Resting
        else Owing(left, None);
      s.(subs := s.subs[at.value := sub], clients := s.clients[t := client])
  }

  predicate Next(s: State, e: Event, s': State) {
    Enabled(s, e) && s' == Apply(s, e)
  }

  // ---------- The inside of the semaphore, hidden ----------

  /** What a client looks like when its call to the semaphore was granted `got` permits so far. */
  function Seen(c: Client, got: int): Queue.Client {
    match c
    case Resting => Queue.Resting
    case Unsignalled(n) => Queue.Unsignalled(n)
    case Signalling => Queue.Resting
    case Waiting => if got <= 0 then Queue.Resting else Queue.Owing(got, None)
    case Owing(owed, at) => Queue.Owing(owed, at)
  }

  function Granted(s: State, t: nat): int {
    if t < |s.sema.got| then s.sema.got[t] else 0
  }

  function Outside(s: State): Queue.State {
    Queue.State(s.subs, Sema.Available(s.sema), seq(|s.clients|, t requires 0 <= t < |s.clients| => Seen(s.clients[t], Granted(s, t))))
  }

  /** A thread is inside the semaphore only when its client is, and in the right call. */
  ghost predicate CallOk(s: State, t: nat)
    requires t < |s.clients| == |s.sema.threads|
  {
    var pc := s.sema.threads[t];
    && (!pc.Idle? ==> s.clients[t].Signalling? || s.clients[t].Waiting?)
    && (pc.Posting? ==> s.clients[t].Signalling?)
    && (s.clients[t].Signalling? ==> pc.Idle? || pc.Posting?)
    && (s.clients[t].Owing? && s.clients[t].at == None ==> s.clients[t].owed > 0)
  }

  ghost predicate Inv(s: State) {
    SemaOk(s) && Reachable(Queue.Init, Queue.Next, Outside(s))
  }

  /** What a step inside the semaphore does to the calls. */
  lemma CallsStay(s: State, t: nat, ok: bool)
    requires Sema.Enabled(s.sema, Sema.Advance(t, ok)) && t < |s.clients| == |s.sema.threads| && CallOk(s, t)
    ensures var sema := Sema.Move(s.sema, t, ok);
      && sema.threads == s.sema.threads[t := sema.threads[t]] && sema.initial == s.sema.initial
      && CallOk(s.(sema := sema), t)
      && (s.clients[t].Signalling? ==> sema.granted == s.sema.granted)
  {
  }

  lemma CallsBegin(s: State, e: Sema.Event)
    requires e.thread < |s.clients| == |s.sema.threads| && Sema.Enabled(s.sema, e) && !e.Advance?
    ensures var sema := Sema.Apply(s.sema, e);
      && sema.threads == s.sema.threads[e.thread := sema.threads[e.thread]] && sema.initial == s.sema.initial
      && CallOk(s.(sema := sema, clients := s.clients[e.thread := if e.Signal? then Signalling else Waiting]), e.thread)
      && sema.granted == s.sema.granted
  {
  }

  /** Seen from outside, only client `t` changes. */
  lemma OneClient(s: State, s': State, t: nat)
    requires |s.clients| == |s'.clients| && t < |s.clients| && s'.clients == s.clients[t := s'.clients[t]]
    requires forall u :: 0 <= u < |s.clients| && u != t ==> Granted(s', u) == Granted(s, u)
    ensures Outside(s').clients == Outside(s).clients[t := Seen(s'.clients[t], Granted(s', t))]
  {
  }

  /** The numbers of a step of the semaphore. */
  lemma SemaNumbers(sema: Sema.State, call: Sema.Event)
    requires Reachable(Sema.Init, Sema.Next, sema) && Sema.Enabled(sema, call)
    ensures var sema' := Sema.Apply(sema, call);
      && Reachable(Sema.Init, Sema.Next, sema')
      && 0 <= sema'.granted - sema.granted && Sema.Available(sema') >= 0
      && Sema.Credited(sema, call, sema')
      && Sema.Available(sema')
           == Sema.Available(sema) + (if call.Signal? then call.n else 0) - (sema'.granted - sema.granted)
    ensures 0 <= sema.got[call.thread]
  {
    var sema' := Sema.Apply(sema, call);
    Sema.StepsLikeACounter(sema, call);
    Extend(Sema.Init, Sema.Next, sema, call, sema');
    Sema.Invariant(sema');
    Sema.Invariant(sema);
    assert Sema.GotOk(sema.threads[call.thread], sema.got[call.thread]) && Sema.PcOk(sema.threads[call.thread]);
  }

  /** Only thread `t` makes a step in the semaphore, and its client is in the right call. */
  lemma OnlyOneCall(s: State, s': State, t: nat)
    requires SemaOk(s) && t < |s.clients| == |s'.clients| && s'.clients == s.clients[t := s'.clients[t]]
    requires |s'.sema.threads| == |s.sema.threads| && s'.sema.threads == s.sema.threads[t := s'.sema.threads[t]]
    requires |s'.sema.got| == |s.sema.got| && Reachable(Sema.Init, Sema.Next, s'.sema) && s'.sema.initial == 0
    requires CallOk(s', t)
    ensures SemaOk(s')
  {
    forall u | 0 <= u < |s'.clients| ensures CallOk(s', u) {
      assert CallOk(s, u);
    }
  }

  /** Beginning a call is a signal, or nothing. */
  lemma CallSeen(s: State, e: Event) returns (seen: Option<Queue.Event>)
    requires Inv(s) && Enabled(s, e) && e.Call?
    ensures Simulates(s, Apply(s, e), seen) && SemaOk(Apply(s, e)) && Mirrors(e, seen)
  {
    hide Sema.Apply, Sema.Available;
    var s' := Apply(s, e);
    SemaNumbers(s.sema, e.e);
    CallsBegin(s, e.e);
    OnlyOneCall(s, s', e.thread);
    OneClient(s, s', e.thread);
    if e.e.Signal? {
      seen := Some(Queue.Signal(e.thread));
    } else {
      seen := None;
      assert Outside(s').clients == Outside(s).clients;
    }
  }

  /** A step inside the semaphore takes permits, or is nothing. */
  lemma InsideSeen(s: State, e: Event) returns (seen: Option<Queue.Event>)
    requires Inv(s) && Enabled(s, e) && e.Inside?
    ensures Simulates(s, Apply(s, e), seen) && SemaOk(Apply(s, e)) && Mirrors(e, seen)
  {
    hide Sema.Move, Sema.Available;
    var s' := Apply(s, e);
    var t := e.thread;
    var granted := s'.sema.granted - s.sema.granted;
    SemaNumbers(s.sema, Sema.Advance(t, e.succeeds));
    CallsStay(s, t, e.succeeds);
    assert s'.clients == s.clients[t := s'.clients[t]];
    OnlyOneCall(s, s', t);
    OneClient(s, s', t);
    if granted > 0 {
      seen := Some(Queue.TakePermits(t, granted));
    } else {
      seen := None;
      assert s'.sema.got == s.sema.got;
      assert Outside(s').clients == Outside(s).clients;
    }
  }

  /** Enqueues, signals and tries are seen for what they are; in a call that waits nothing but the taking of permits is seen. */
  ghost predicate Mirrors(e: Event, seen: Option<Queue.Event>) {
    match e
    case Enqueue(t, p, n) => seen == Some(Queue.Enqueue(t, p, n))
    case Call(t, call) => seen == if call.Signal? then Some(Queue.Signal(t)) else None
    case Inside(t, _) => seen == None || (seen.value.TakePermits? && seen.value.thread == t)
    case Return(_) => seen == None
    case Try(t, p, max) => seen == Some(Queue.Try(t, p, max))
    case Advance(t) => seen == Some(Queue.Advance(t))
  }

  ghost predicate Simulates(s: State, s': State, seen: Option<Queue.Event>) {
    if seen == None then Outside(s') == Outside(s) else Queue.Next(Outside(s), seen.value, Outside(s'))
  }

  /** The part of the invariant that is about the semaphore. */
  ghost predicate SemaOk(s: State) {
    && Reachable(Sema.Init, Sema.Next, s.sema) && s.sema.initial == 0
    && |s.sema.got| == |s.sema.threads| == |s.clients|
    && (forall t :: 0 <= t < |s.clients| ==> CallOk(s, t))
  }

  /** What a call returns is what it was granted, so going on with it changes nothing. */
  lemma ReturnSeen(s: State, e: Event) returns (seen: Option<Queue.Event>)
    requires Inv(s) && Enabled(s, e) && e.Return?
    ensures Simulates(s, Apply(s, e), seen) && SemaOk(Apply(s, e)) && Mirrors(e, seen)
  {
    var s' := Apply(s, e);
    Sema.ResultIsWhatWasGranted(s.sema, e.thread);
    forall t | 0 <= t < |s.clients| ensures CallOk(s', t) {
      assert CallOk(s, t);
    }
    OneClient(s, s', e.thread);
    assert Outside(s').clients == Outside(s).clients;
    seen := None;
  }

  /** The other steps are the same on both sides. */
  lemma SameSeen(s: State, e: Event) returns (seen: Option<Queue.Event>)
    requires Inv(s) && Enabled(s, e) && (e.Enqueue? || e.Try? || e.Advance?)
    ensures Simulates(s, Apply(s, e), seen) && SemaOk(Apply(s, e)) && Mirrors(e, seen)
  {
    var s' := Apply(s, e);
    forall t | 0 <= t < |s.clients| ensures CallOk(s', t) {
      assert CallOk(s, t);
    }
    OneClient(s, s', e.thread);
    seen := Some(match e
                 case Enqueue(t, p, n) => Queue.Enqueue(t, p, n)
                 case Try(t, p, max) => Queue.Try(t, p, max)
                 case _ => Queue.Advance(e.thread));
  }

  /**
   Each step is nothing, seen from outside the semaphore, or one step of the blocking queue behind a
   plain counter of permits.
   */
  lemma StepSimulates(s: State, e: Event) returns (seen: Option<Queue.Event>)
    requires Inv(s) && Enabled(s, e)
    ensures Simulates(s, Apply(s, e), seen) && Mirrors(e, seen) && Inv(Apply(s, e))
  {
    match e {
      case Call(_, _) => seen := CallSeen(s, e);
      case Inside(_, _) => seen := InsideSeen(s, e);
      case Return(_) => seen := ReturnSeen(s, e);
      case _ => seen := SameSeen(s, e);
    }
    if seen.Some? {
      Extend(Queue.Init, Queue.Next, Outside(s), seen.value, Outside(Apply(s, e)));
    }
  }

  lemma InitialInv(s: State)
    requires Init(s)
    ensures Inv(s)
  {
    Sema.NobodyWaits(s.sema.threads);
    assert Queue.Init(Outside(s));
    assert Reaches(Queue.Init, Queue.Next, [], Outside(s));
    assert Reaches(Sema.Init, Sema.Next, [], s.sema);
  }

  lemma Invariant(s: State)
    requires Reachable(Init, Next, s)
    ensures Inv(s)
  {
    forall a: State | Init(a) ensures Inv(a) {
      InitialInv(a);
    }
    forall a: State, e: Event, b: State | Inv(a) && Next(a, e, b) ensures Inv(b) {
      var seen := StepSimulates(a, e);
    }
    Induction(Init, Next, Inv, s);
  }

  // ---------- What holds in every reachable state ----------

  /** With the inside of the semaphore hidden, every reachable state is one of the blocking queue. */
  lemma RefinesTheCounter(s: State)
    requires Reachable(Init, Next, s)
    ensures Reachable(Queue.Init, Queue.Next, Outside(s))
    ensures Reachable(Sema.Init, Sema.Next, s.sema)
  {
    Invariant(s);
  }

  /** Elements a client has permits for, or has enqueued without their permits being signalled. */
  function Promised(s: State): int { Sum(Queue.Dues(Outside(s))) }

  /**
   No lost wakeup, for elements: a consumer sleeps, with no signal under way to wake it, only while
   every element inside is promised to a client that has its permit or is yet to be signalled.
   */
  lemma SleepsOnlyWhenAllIsPromised(s: State, t: nat)
    requires Reachable(Init, Next, s) && t < |s.sema.threads| && Sema.Waits(s.sema.threads[t])
    requires s.sema.kernel == 0 && Sema.PostsInFlight(s.sema.threads) == 0
    ensures Sum(Queue.Sizes(Outside(s))) == Promised(s)
  {
    Invariant(s);
    Queue.Conservation(Outside(s));
    Sema.Conservation(s.sema);
    Sema.TotalsUpdate(s.sema.threads, t, s.sema.threads[t]);
  }

  // ---------- A permit holder that runs alone ----------

  /** Steps of client `t` and of nobody else lead from `s` to `s'`. */
  ghost predicate RunsAlone(s: State, t: nat, events: seq<Event>, s': State)
    decreases |events|
  {
    if events == [] then s' == s
    else events[0].thread == t && exists mid :: Next(s, events[0], mid) && RunsAlone(mid, t, events[1..], s')
  }

  lemma StaysPut(s: State, t: nat) returns (events: seq<Event>)
    ensures RunsAlone(s, t, events, s)
  {
    events := [];
  }

  lemma FirstStep(s: State, t: nat, e: Event, mid: State, after: seq<Event>, s': State)
    requires e.thread == t && Next(s, e, mid) && RunsAlone(mid, t, after, s')
    ensures RunsAlone(s, t, [e] + after, s')
  {
    assert ([e] + after)[1..] == after;
  }

  lemma {:induction false} RunsOn(s: State, t: nat, before: seq<Event>, mid: State, after: seq<Event>, s': State)
    requires RunsAlone(s, t, before, mid) && RunsAlone(mid, t, after, s')
    ensures RunsAlone(s, t, before + after, s')
    decreases |before|
  {
    hide Next;
    if before == [] {
      assert before + after == after;
    } else {
      var next :| Next(s, before[0], next) && RunsAlone(next, t, before[1..], mid);
      RunsOn(next, t, before[1..], mid, after, s');
      assert (before + after)[1..] == before[1..] + after;
    }
  }

  /** `s` with sub-queue `p` and client `t` as given. */
  function With(s: State, p: nat, c: Claims.State, t: nat, client: Client): State
    requires p < |s.subs| && t < |s.clients|
  {
    s.(subs := s.subs[p := c], clients := s.clients[t := client])
  }

  /** Client `t` in the middle of a dequeue on sub-queue `p` takes a step. */
  function Inward(s: State, p: nat, c: Claims.State, t: nat, owed: nat): State
    requires p < |s.subs| && t < |s.clients| && t < |c.threads| && c.threads[t] != Claims.Idle
  {
    var c' := Claims.Move(c, t);
    var left := Queue.StillOwed(owed, c.threads[t], c'.threads[t]);
    With(s, p, c', t,
         if c'.threads[t] != Claims.Idle then Owing(Max(left, 0), Some(p))
         else if left <= 0 then Resting
         else Owing(left, None))
  }

  lemma StepsInward(s: State, p: nat, c: Claims.State, t: nat, owed: nat)
    requires p < |s.subs| && t < |s.clients| && t < |c.threads| && c.threads[t] != Claims.Idle
    ensures Next(With(s, p, c, t, Owing(owed, Some(p))), Advance(t), Inward(s, p, c, t, owed))
  {
    var x := With(s, p, c, t, Owing(owed, Some(p)));
    assert x.subs[p := Claims.Move(c, t)] == s.subs[p := Claims.Move(c, t)];
    assert x.clients[t := Inward(s, p, c, t, owed).clients[t]] == Inward(s, p, c, t, owed).clients;
  }

  /** A dequeue from its reservation on, when nobody else comes in between. */
  lemma ReservedAlone(s: State, p: nat, c: Claims.State, t: nat, owed: nat, n: nat) returns (events: seq<Event>)
    requires p < |s.subs| && t < |s.clients| && t < |c.threads| && c.threads[t].Reserve?
    requires c.threads[t].desired == n && 0 < n <= owed && n <= c.tail - (c.optimistic - c.threads[t].overcommit)
    ensures RunsAlone(With(s, p, c, t, Owing(owed, Some(p))), t, events,
                      With(s, p, InnerQueue.TakeAlone(c, n).(threads := c.threads[t := Claims.Idle]), t,
                           if n == owed then Resting else Owing(owed - n, None)))
  {
    var c1 := Claims.Move(c, t);
    var c2 := Claims.Move(c1, t);
    var c3 := Claims.Move(c2, t);
    var end := Claims.Move(c3, t);
    StepsInward(s, p, c, t, owed);
    StepsInward(s, p, c1, t, owed);
    StepsInward(s, p, c2, t, owed);
    StepsInward(s, p, c3, t, owed - n);
    assert end.threads == c.threads[t := Claims.Idle];
    var last := Inward(s, p, c3, t, owed - n);
    assert RunsAlone(last, t, [], last);
    events := [];
    FirstStep(With(s, p, c3, t, Owing(owed - n, Some(p))), t, Advance(t), last, events, last);
    events := [Advance(t)] + events;
    FirstStep(With(s, p, c2, t, Owing(owed, Some(p))), t, Advance(t), With(s, p, c3, t, Owing(owed - n, Some(p))), events, last);
    events := [Advance(t)] + events;
    FirstStep(With(s, p, c1, t, Owing(owed, Some(p))), t, Advance(t), With(s, p, c2, t, Owing(owed, Some(p))), events, last);
    events := [Advance(t)] + events;
    FirstStep(With(s, p, c, t, Owing(owed, Some(p))), t, Advance(t), With(s, p, c1, t, Owing(owed, Some(p))), events, last);
    events := [Advance(t)] + events;
  }

  /** One try on sub-queue `p`, with nobody in between: as much as is free there, up to what is owed. */
  lemma TriesAlone(s: State, p: nat, t: nat, owed: nat) returns (events: seq<Event>)
    requires p < |s.subs| && t < |s.clients| && s.clients[t] == Owing(owed, None) && owed > 0
    requires t < |s.subs[p].threads| && s.subs[p].threads[t] == Claims.Idle
    ensures var n := InnerQueue.Yield(s.subs[p], owed);
      RunsAlone(s, t, events,
                With(s, p, InnerQueue.TakeAlone(s.subs[p], n), t, if n == owed then Resting else Owing(owed - n, None)))
  {
    hide RunsAlone;
    var c := s.subs[p];
    var n := InnerQueue.Yield(c, owed);
    var c0 := Claims.Apply(c, Claims.StartDequeue(t, owed));
    var c1 := Claims.Move(c0, t);
    var c2 := Claims.Move(c1, t);
    StepsInward(s, p, c0, t, owed);
    StepsInward(s, p, c1, t, owed);
    assert c.threads[t := Claims.Idle] == c.threads;
    var end := With(s, p, InnerQueue.TakeAlone(c, n), t, if n == owed then Resting else Owing(owed - n, None));
    var mid := Inward(s, p, c1, t, owed);
    if n == 0 {
      assert c2.threads == c.threads;
      assert mid == end;
      events := StaysPut(end, t);
    } else {
      assert c2.threads == c.threads[t := Claims.Reserve(n, c.overcommit)];
      events := ReservedAlone(s, p, c2, t, owed, n);
      assert c2.threads[t := Claims.Idle] == c.threads;
    }
    FirstStep(With(s, p, c1, t, Owing(owed, Some(p))), t, Advance(t), mid, events, end);
    events := [Advance(t)] + events;
    FirstStep(With(s, p, c0, t, Owing(owed, Some(p))), t, Advance(t), With(s, p, c1, t, Owing(owed, Some(p))), events, end);
    events := [Advance(t)] + events;
    FirstStep(s, t, Try(t, p, owed), With(s, p, c0, t, Owing(owed, Some(p))), events, end);
    events := [Try(t, p, owed)] + events;
  }

  /** The scan of the sub-queues from `p` on, which have enough for what is owed. */
  lemma {:induction false} ScansAlone(s: State, p: nat, t: nat, owed: nat)
    returns (events: seq<Event>, s': State, amounts: seq<int>)
    requires p <= |s.subs| && t < |s.clients| && s.clients[t] == Owing(owed, None) && owed > 0
    requires InnerQueue.Ready(s.subs, t) && owed <= InnerQueue.AllFree(s.subs[p..])
    ensures RunsAlone(s, t, events, s') && s' == s.(subs := s'.subs, clients := s.clients[t := Resting])
    ensures InnerQueue.Took(s.subs, s'.subs, amounts, |s.subs|) && Sum(amounts) == owed && |amounts| == |s.subs|
    ensures forall q :: 0 <= q < p ==> amounts[q] == 0
    decreases |s.subs| - p
  {
    hide RunsAlone, InnerQueue.Took, InnerQueue.TakeAlone;
    FreeFromHere(s.subs, p);
    var n := InnerQueue.Yield(s.subs[p], owed);
    events := TriesAlone(s, p, t, owed);
    var mid := With(s, p, InnerQueue.TakeAlone(s.subs[p], n), t, if n == owed then Resting else Owing(owed - n, None));
    if n == owed {
      s' := mid;
      amounts := TookNothing(mid.subs);
    } else {
      StaysReady(s.subs, p, t, n);
      var more;
      more, s', amounts := ScansAlone(mid, p + 1, t, owed - n);
      RunsOn(s, t, events, mid, more, s');
      events := events + more;
      assert mid.clients[t := Resting] == s.clients[t := Resting];
    }
    TookFirst(s.subs, s'.subs, amounts, p, n);
    amounts := amounts[p := n];
  }

  lemma FreeFromHere(subs: seq<Claims.State>, p: nat)
    requires p <= |subs| && InnerQueue.AllFree(subs[p..]) > 0
    ensures p < |subs| && InnerQueue.AllFree(subs[p..]) == Max(0, Queue.Free(subs[p])) + InnerQueue.AllFree(subs[p + 1..])
  {
    assert p < |subs|;
    assert Queue.FreeParts(subs[p..])[1..] == Queue.FreeParts(subs[p + 1..]);
  }

  lemma StaysReady(subs: seq<Claims.State>, p: nat, t: nat, n: nat)
    requires p < |subs| && InnerQueue.Ready(subs, t) && n <= Max(0, Queue.Free(subs[p]))
    ensures InnerQueue.Ready(subs[p := InnerQueue.TakeAlone(subs[p], n)], t)
    ensures subs[p := InnerQueue.TakeAlone(subs[p], n)][p + 1..] == subs[p + 1..]
  {
  }

  lemma TookNothing(subs: seq<Claims.State>) returns (amounts: seq<int>)
    ensures InnerQueue.Took(subs, subs, amounts, |subs|) && Sum(amounts) == 0 && |amounts| == |subs|
    ensures forall p :: 0 <= p < |amounts| ==> amounts[p] == 0
  {
    amounts := seq(|subs|, _ => 0);
    SumZeros(amounts);
  }

  /** What was taken from sub-queue `p` before others. */
  lemma TookFirst(subs: seq<Claims.State>, now: seq<Claims.State>, amounts: seq<int>, p: nat, n: nat)
    requires p < |subs| && n <= Max(0, Queue.Free(subs[p]))
    requires InnerQueue.Took(subs[p := InnerQueue.TakeAlone(subs[p], n)], now, amounts, |subs|)
    requires |amounts| == |subs| ==> amounts[p] == 0
    ensures |amounts| == |subs| && InnerQueue.Took(subs, now, amounts[p := n], |subs|) && Sum(amounts[p := n]) == Sum(amounts) + n
  {
    SumUpdate(amounts, p, n);
    var mid := subs[p := InnerQueue.TakeAlone(subs[p], n)];
    forall q | 0 <= q < |now| ensures now[q] == InnerQueue.TakeAlone(subs[q], amounts[p := n][q]) {
      assert now[q] == InnerQueue.TakeAlone(mid[q], amounts[q]);
    }
  }

  /**
   A client that came back from the semaphore with permits, and runs alone, gets an element for each
   and is done, however the others were stopped in the semaphore or in a sub-queue: they are claimed
   from what is free in the sub-queues.
   */
  lemma PermitsAreRedeemed(s: State, t: nat) returns (events: seq<Event>, s': State, amounts: seq<int>)
    requires Reachable(Init, Next, s) && t < |s.clients| && s.clients[t].Owing? && s.clients[t].at == None
    ensures RunsAlone(s, t, events, s') && s'.clients == s.clients[t := Resting] && s'.sema == s.sema
    ensures InnerQueue.Took(s.subs, s'.subs, amounts, |s.subs|) && Sum(amounts) == s.clients[t].owed
  {
    Invariant(s);
    InnerQueue.PermitHolderRedeemsAlone(Outside(s), t);
    assert CallOk(s, t);
    assert s.subs[0..] == s.subs;
    events, s', amounts := ScansAlone(s, 0, t, s.clients[t].owed);
  }
}
