/**
 The blocking queue: sub-queues run by the claim protocol, behind a semaphore whose permits count
 the elements.  An element is enqueued before its permit is signalled, and a consumer takes permits
 before it looks for elements, retrying until it has one element for each permit.

 The semaphore is a counter of permits here, from which a waiting client may take several times;
 the module BlockingSemaphore shows that the real semaphore in its place makes no other runs.
 */
module BlockingQueue {
  import opened Numbers
  import opened Options
  import opened Runs
  import Claims = ClaimProtocol

  /** What a client thread is doing. */
  datatype Client =
    | Resting
    | Unsignalled(n: nat)                    // enqueued n elements, about to signal n permits
    | Owing(owed: nat, at: Option<nat>)      // holds permits for `owed` elements; inside sub-queue `at`

  datatype State = State(subs: seq<Claims.State>, permits: int, clients: seq<Client>)

  datatype Event =
    | Enqueue(thread: nat, sub: nat, n: nat)
    | Signal(thread: nat)
    | TakePermits(thread: nat, n: nat)
    | Try(thread: nat, sub: nat, max: nat)   // begin a dequeue on a sub-queue
    | Advance(thread: nat)                   // its next atomic access

  predicate Init(s: State) {
    && s.permits == 0
    && (forall t :: 0 <= t < |s.clients| ==> s.clients[t] == Resting)
    && (forall p :: 0 <= p < |s.subs| ==> Claims.Init(s.subs[p]) && |s.subs[p].threads| == |s.clients|)
  }

  /** A client takes permits between operations, and more of them before it first tries. */
  predicate MayTake(c: Client) { c == Resting || (c.Owing? && c.at == None) }

  predicate Enabled(s: State, e: Event) {
    && e.thread < |s.clients|
    && match e
       case Enqueue(t, p, n) => s.clients[t] == Resting && p < |s.subs|
       case Signal(t) => s.clients[t].Unsignalled?
       case TakePermits(t, n) => MayTake(s.clients[t]) && 0 < n <= s.permits
       case Try(t, p, max) =>
         && s.clients[t].Owing? && s.clients[t].at == None && 0 < max <= s.clients[t].owed
         && p < |s.subs| && Claims.Enabled(s.subs[p], Claims.StartDequeue(t, max))
       case Advance(t) =>
         && s.clients[t].Owing? && s.clients[t].at.Some? && s.clients[t].at.value < |s.subs|
         && Claims.Enabled(s.subs[s.clients[t].at.value], Claims.Advance(t))
  }

  /** What is owed once a step of the sub-queue leads to `pc`. */
  function StillOwed(owed: nat, was: Claims.Pc, pc: Claims.Pc): int {
    if pc.Holding? && !was.Holding? then owed - pc.count else owed
  }

  function Apply(s: State, e: Event): State
    requires Enabled(s, e)
  {
    var t := e.thread;
    match e
    case Enqueue(_, p, n) =>
      s.(subs := s.subs[p := Claims.Apply(s.subs[p], Claims.Publish(n))], clients := s.clients[t := Unsignalled(n)])
    case Signal(_) => s.(permits := s.permits + s.clients[t].n, clients := s.clients[t := Resting])
    case TakePermits(_, n) => s.(permits := s.permits - n, clients := s.clients[t := Owing(Due(s.clients[t]) + n, None)])
    case Try(_, p, max) =>
      s.(subs := s.subs[p := Claims.Apply(s.subs[p], Claims.StartDequeue(t, max))],
         clients := s.clients[t := Owing(s.clients[t].owed, Some(p))])
    case Advance(_) =>
      var Owing(owed, at) := s.clients[t];
      var sub := Claims.Move(s.subs[at.value], t);
      var left := StillOwed(owed, s.subs[at.value].threads[t], sub.threads[t]);
      var client :=
        if sub.threads[t] != Claims.Idle then Owing(Max(left, 0), at)
        else if left <= 0 then Resting
        else Owing(left, None);
      s.(subs := s.subs[at.value := sub], clients := s.clients[t := client])
  }

  predicate Next(s: State, e: Event, s': State) {
    Enabled(s, e) && s' == Apply(s, e)
  }

  // ---------- What the sums are taken over ----------

  /** Elements in a sub-queue. */
  function Size(c: Claims.State): int { c.tail - c.head }

  /** Elements of a sub-queue that no dequeue under way has reserved; negative if too many were. */
  function Free(c: Claims.State): int { c.tail - (c.optimistic - c.overcommit) }

  /** Elements the queue owes on account of a client: enqueued and unsignalled, or permitted and not claimed. */
  function Due(c: Client): nat {
    match c
    case Resting => 0
    case Unsignalled(n) => n
    case Owing(owed, _) => owed
  }

  /** Units of a sub-queue a client has reserved and not yet claimed or given back. */
  function Reserved(s: State, t: nat): nat
    requires t < |s.clients|
  {
    var c := s.clients[t];
    if c.Owing? && c.at.Some? && c.at.value < |s.subs| && t < |s.subs[c.at.value].threads|
    then Claims.InFlight(s.subs[c.at.value].threads[t]) else 0
  }

  function Sizes(s: State): seq<int> { seq(|s.subs|, p requires 0 <= p < |s.subs| => Size(s.subs[p])) }

  function Frees(s: State): seq<int> { seq(|s.subs|, p requires 0 <= p < |s.subs| => Free(s.subs[p])) }

  function Dues(s: State): seq<int> { seq(|s.clients|, t requires 0 <= t < |s.clients| => Due(s.clients[t])) }

  function Unreserved(s: State): seq<int> {
    seq(|s.clients|, t requires 0 <= t < |s.clients| => Due(s.clients[t]) - Reserved(s, t))
  }

  // ---------- The invariant ----------

  /** The units a dequeue may still reserve or has in flight. */
  function Stake(pc: Claims.Pc): nat {
    match pc
    case LoadOvercommit(max, _) => max
    case LoadOptimistic(max, _, _) => max
    case Reserve(desired, _) => desired
    case _ => Claims.InFlight(pc)
  }

  ghost predicate ClientOk(s: State, t: nat, p: nat)
    requires t < |s.clients| && p < |s.subs| && t < |s.subs[p].threads|
  {
    var pc := s.subs[p].threads[t];
    && (pc != Claims.Idle ==> s.clients[t].Owing? && s.clients[t].at == Some(p) && Stake(pc) <= s.clients[t].owed)
    && (s.clients[t].Owing? && s.clients[t].at == Some(p) ==> pc != Claims.Idle)
  }

  ghost predicate Shape(s: State) {
    && (forall p :: 0 <= p < |s.subs| ==> |s.subs[p].threads| == |s.clients|)
    && (forall t :: 0 <= t < |s.clients| && s.clients[t].Owing? && s.clients[t].at.Some? ==> s.clients[t].at.value < |s.subs|)
  }

  ghost predicate Inv(s: State) {
    && Shape(s)
    && s.permits >= 0
    && (forall p :: 0 <= p < |s.subs| ==> Claims.HasHistory(s.subs[p]))
    && (forall t, p :: 0 <= t < |s.clients| && 0 <= p < |s.subs| ==> ClientOk(s, t, p))
    && Sum(Sizes(s)) == s.permits + Sum(Dues(s))
    && Sum(Frees(s)) == s.permits + Sum(Unreserved(s))
  }

  // ---------- Every step keeps the invariant ----------

  /** What one step of the claim protocol does to the numbers of its sub-queue. */
  lemma MoveCounts(c: Claims.State, t: nat)
    requires t < |c.threads| && c.threads[t] != Claims.Idle
    ensures var c' := Claims.Move(c, t); var pc := c.threads[t]; var pc' := c'.threads[t];
      var ticket := if pc'.Holding? && !pc.Holding? then pc'.count else 0;
      && c'.threads == c.threads[t := pc']
      && Size(c') == Size(c) - ticket
      && Free(c') == Free(c) - Claims.InFlight(pc') + Claims.InFlight(pc) - ticket
      && Stake(pc') + ticket <= Stake(pc)
  {
  }

  /** The sums after one client and one sub-queue changed. */
  lemma SumsUpdate(s: State, s': State, p: nat, t: nat)
    requires Shape(s) && Shape(s') && p < |s.subs| == |s'.subs| && t < |s.clients| == |s'.clients|
    requires s'.subs == s.subs[p := s'.subs[p]] && s'.clients == s.clients[t := s'.clients[t]]
    requires forall u :: 0 <= u < |s.clients| && u != t ==> s'.subs[p].threads[u] == s.subs[p].threads[u]
    ensures Sum(Sizes(s')) == Sum(Sizes(s)) - Size(s.subs[p]) + Size(s'.subs[p])
    ensures Sum(Frees(s')) == Sum(Frees(s)) - Free(s.subs[p]) + Free(s'.subs[p])
    ensures Sum(Dues(s')) == Sum(Dues(s)) - Due(s.clients[t]) + Due(s'.clients[t])
    ensures Sum(Unreserved(s')) == Sum(Unreserved(s)) - (Due(s.clients[t]) - Reserved(s, t)) + (Due(s'.clients[t]) - Reserved(s', t))
  {
    SumUpdate(Sizes(s), p, Size(s'.subs[p]));
    assert Sizes(s') == Sizes(s)[p := Size(s'.subs[p])];
    SumUpdate(Frees(s), p, Free(s'.subs[p]));
    assert Frees(s') == Frees(s)[p := Free(s'.subs[p])];
    SumUpdate(Dues(s), t, Due(s'.clients[t]));
    assert Dues(s') == Dues(s)[t := Due(s'.clients[t])];
    SumUpdate(Unreserved(s), t, Due(s'.clients[t]) - Reserved(s', t));
    forall u | 0 <= u < |s.clients| && u != t ensures Reserved(s', u) == Reserved(s, u) {
      assert s'.clients[u] == s.clients[u];
    }
    assert Unreserved(s') == Unreserved(s)[t := Due(s'.clients[t]) - Reserved(s', t)];
  }

  /** Only the pair of client `t` and sub-queue `p` needs a look after a step. */
  lemma ClientsFrame(s: State, s': State, p: nat, t: nat)
    requires Shape(s) && Shape(s') && p < |s.subs| == |s'.subs| && t < |s.clients| == |s'.clients|
    requires forall u, q :: 0 <= u < |s.clients| && 0 <= q < |s.subs| ==> ClientOk(s, u, q)
    requires s'.subs == s.subs[p := s'.subs[p]] && s'.clients == s.clients[t := s'.clients[t]]
    requires forall u :: 0 <= u < |s.clients| && u != t ==> s'.subs[p].threads[u] == s.subs[p].threads[u]
    requires ClientOk(s', t, p)
    requires forall q :: 0 <= q < |s.subs| && q != p ==> s.subs[q].threads[t] == Claims.Idle
    requires s'.clients[t].Owing? && s'.clients[t].at.Some? ==> s'.clients[t].at == Some(p)
    ensures forall u, q :: 0 <= u < |s'.clients| && 0 <= q < |s'.subs| ==> ClientOk(s', u, q)
  {
    forall u, q | 0 <= u < |s'.clients| && 0 <= q < |s'.subs| ensures ClientOk(s', u, q) {
      assert ClientOk(s, u, q);
    }
  }

  /** The event works on this sub-queue; for the others, any will do. */
  lemma EnqueueKeeps(s: State, e: Event)
    requires Inv(s) && Enabled(s, e) && e.Enqueue?
    ensures Inv(Apply(s, e))
  {
    var s' := Apply(s, e);
    var p := e.sub;
    Claims.StepKeepsHistory(s.subs[p], Claims.Publish(e.n), s'.subs[p]);
    forall q | 0 <= q < |s.subs| ensures s.subs[q].threads[e.thread] == Claims.Idle {
      assert ClientOk(s, e.thread, q);
    }
    SumsUpdate(s, s', p, e.thread);
    ClientsFrame(s, s', p, e.thread);
  }

  lemma PermitsKeep(s: State, e: Event)
    requires Inv(s) && Enabled(s, e) && (e.Signal? || e.TakePermits?)
    ensures Inv(Apply(s, e))
  {
    var s' := Apply(s, e);
    forall u, q | 0 <= u < |s'.clients| && 0 <= q < |s'.subs| ensures ClientOk(s', u, q) {
      assert ClientOk(s, u, q);
    }
    BetweenTries(s, s', e.thread);
  }

  /** A client between tries has nothing reserved, so only what it is due changes. */
  lemma BetweenTries(s: State, s': State, t: nat)
    requires t < |s.clients| == |s'.clients|
    requires s' == s.(permits := s'.permits, clients := s.clients[t := s'.clients[t]])
    requires Reserved(s, t) == 0 && Reserved(s', t) == 0
    ensures Sizes(s') == Sizes(s) && Frees(s') == Frees(s)
    ensures Sum(Dues(s')) == Sum(Dues(s)) - Due(s.clients[t]) + Due(s'.clients[t])
    ensures Sum(Unreserved(s')) == Sum(Unreserved(s)) - Due(s.clients[t]) + Due(s'.clients[t])
  {
    SumUpdate(Dues(s), t, Due(s'.clients[t]));
    assert Dues(s') == Dues(s)[t := Due(s'.clients[t])];
    SumUpdate(Unreserved(s), t, Due(s'.clients[t]));
    assert Unreserved(s') == Unreserved(s)[t := Due(s'.clients[t])];
  }

  lemma TryKeeps(s: State, e: Event)
    requires Inv(s) && Enabled(s, e) && e.Try?
    ensures Inv(Apply(s, e))
  {
    var s' := Apply(s, e);
    var p := e.sub;
    Claims.StepKeepsHistory(s.subs[p], Claims.StartDequeue(e.thread, e.max), s'.subs[p]);
    forall q | 0 <= q < |s.subs| ensures s.subs[q].threads[e.thread] == Claims.Idle {
      assert ClientOk(s, e.thread, q);
    }
    SumsUpdate(s, s', p, e.thread);
    ClientsFrame(s, s', p, e.thread);
  }

  lemma AdvanceKeeps(s: State, e: Event)
    requires Inv(s) && Enabled(s, e) && e.Advance?
    ensures Inv(Apply(s, e))
  {
    var s' := Apply(s, e);
    var t := e.thread;
    var p := s.clients[t].at.value;
    Claims.StepKeepsHistory(s.subs[p], Claims.Advance(t), s'.subs[p]);
    MoveCounts(s.subs[p], t);
    forall q | 0 <= q < |s.subs| ensures q != p ==> s.subs[q].threads[t] == Claims.Idle {
      assert ClientOk(s, t, q);
    }
    assert ClientOk(s, t, p);
    SumsUpdate(s, s', p, t);
    ClientsFrame(s, s', p, t);
  }

  lemma StepKeeps(s: State, e: Event)
    requires Inv(s) && Enabled(s, e)
    ensures Inv(Apply(s, e))
  {
    match e
    case Enqueue(_, _, _) => EnqueueKeeps(s, e);
    case Signal(_) => PermitsKeep(s, e);
    case TakePermits(_, _) => PermitsKeep(s, e);
    case Try(_, _, _) => TryKeeps(s, e);
    case Advance(_) => AdvanceKeeps(s, e);
  }

  lemma InitialInv(s: State)
    requires Init(s)
    ensures Inv(s)
  {
    forall p | 0 <= p < |s.subs| ensures Claims.HasHistory(s.subs[p]) {
      Claims.InitialInv(s.subs[p]);
    }
    SumZeros(Sizes(s));
    SumZeros(Frees(s));
    SumZeros(Dues(s));
    SumZeros(Unreserved(s));
  }

  lemma Invariant(s: State)
    requires Reachable(Init, Next, s)
    ensures Inv(s)
  {
    forall a: State | Init(a) ensures Inv(a) {
      InitialInv(a);
    }
    forall a: State, e: Event, b: State | Inv(a) && Next(a, e, b) ensures Inv(b) {
      StepKeeps(a, e);
    }
    Induction(Init, Next, Inv, s);
  }

  // ---------- What holds in every reachable state ----------

  /** Elements inside = free permits + elements owed to permit holders + elements not yet signalled. */
  lemma Conservation(s: State)
    requires Reachable(Init, Next, s)
    ensures Sum(Sizes(s)) == s.permits + Sum(Dues(s))
    ensures s.permits >= 0
  {
    Invariant(s);
  }

  /** A client that holds permits for `owed` elements never faces fewer than that many in the queue. */
  lemma PermitHolderFacesElements(s: State, t: nat)
    requires Reachable(Init, Next, s) && t < |s.clients|
    ensures Due(s.clients[t]) <= Sum(Sizes(s))
  {
    Invariant(s);
    SumBounds(Dues(s));
    assert Dues(s)[t] == Due(s.clients[t]);
  }

  /** The elements the events say were enqueued into sub-queue `p`. */
  ghost function EnqueuedIn(events: seq<Event>, p: nat): nat {
    if events == [] then 0
    else
      var e := events[|events| - 1];
      EnqueuedIn(events[..|events| - 1], p) + if e.Enqueue? && e.sub == p then e.n else 0
  }

  /** Over every run a sub-queue gets just the elements enqueued into it; those not claimed since are its elements. */
  lemma {:induction false} NoneIsLost(states: seq<State>, events: seq<Event>, n: nat, p: nat)
    requires Run(Init, Next, states, events) && n <= |events| && p < |states[0].subs|
    ensures p < |states[n].subs| == |states[0].subs|
    ensures states[n].subs[p].tail == EnqueuedIn(events[..n], p)
    ensures EnqueuedIn(events[..n], p) == states[n].subs[p].head + Size(states[n].subs[p])
  {
    if n > 0 {
      NoneIsLost(states, events, n - 1, p);
      assert events[..n][..n - 1] == events[..n - 1] && Next(states[n - 1], events[n - 1], states[n]);
      TailsFollow(states[n - 1], events[n - 1], p);
    }
  }

  lemma TailsFollow(s: State, e: Event, p: nat)
    requires Enabled(s, e) && p < |s.subs|
    ensures var s' := Apply(s, e);
      |s'.subs| == |s.subs| && s'.subs[p].tail == s.subs[p].tail + if e.Enqueue? && e.sub == p then e.n else 0
  {
  }

  /**
   Between two tries, a client owed `owed` elements finds at least that many that no dequeue of any
   other client has reserved, wherever those clients were stopped.
   */
  lemma PermitHolderFindsFreeElements(s: State, t: nat)
    requires Reachable(Init, Next, s) && t < |s.clients| && s.clients[t].Owing? && s.clients[t].at == None
    ensures s.clients[t].owed <= Sum(Frees(s)) <= Sum(FreeParts(s.subs))
  {
    Invariant(s);
    forall u | 0 <= u < |s.clients| ensures 0 <= Unreserved(s)[u] {
      if s.clients[u].Owing? && s.clients[u].at.Some? {
        assert ClientOk(s, u, s.clients[u].at.value);
      }
    }
    SumBounds(Unreserved(s));
    assert Unreserved(s)[t] == s.clients[t].owed;
    SumMonotone(Frees(s), FreeParts(s.subs));
  }

  function FreeParts(subs: seq<Claims.State>): seq<int> {
    seq(|subs|, p requires 0 <= p < |subs| => Max(0, Free(subs[p])))
  }
}
