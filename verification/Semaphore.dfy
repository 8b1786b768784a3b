/**
 LightweightSemaphore: a signed user-space count backed by a kernel semaphore.

 A positive count is that many free permits; a negative one is that many threads which decremented
 it and went to sleep, or are about to, without a kernel post meant for them.  One event is one
 atomic access of one thread.  `tryWait` and `wait` are the many-forms with a limit of one, which
 is what their code computes.

 `granted`, `signalled`, `got` and `settled` are records for the statements; no step reads them:
 `got[t]` is what thread `t` was granted since its last call began, and `settled` is what all calls
 before those were granted.
 */
module Semaphore {
  import opened Numbers
  import opened Runs

  /** What a call still has to do when its `tryWaitMany` comes away with nothing. */
  datatype Plan =
    | TryOnly                    // tryWaitMany(limit)
    | ThenWait(timeout: int)     // waitMany(limit, timeout)
    | Trailing                   // one permit is in hand; tryWaitMany(limit - 1) for more

  /** `limit` is the caller's max. */
  datatype Pc =
    | Idle(result: int, limit: nat)                           // the last call returned `result`
    | TryLoad(limit: nat, plan: Plan)
    | TryCas(limit: nat, plan: Plan, seen: int)
    | Spin(limit: nat, timeout: int, spins: nat)
    | SpinCas(limit: nat, timeout: int, spins: nat, seen: int)
    | FetchSub(limit: nat, timeout: int)
    | Sleep(limit: nat, timeout: int)                         // in the kernel wait, or timing out
    | Repair(limit: nat)                                      // timed out: load the count
    | RepairAct(limit: nat, seen: int)                         // and act on it
    | Posting(n: nat)                                         // n kernel posts to go

  datatype State = State(
    count: int,
    kernel: nat,
    threads: seq<Pc>,
    maxSpins: nat,
    initial: nat,
    granted: int,
    signalled: int,
    got: seq<int>,
    settled: int)

  datatype Event =
    | StartTry(thread: nat, max: nat)
    | StartWait(thread: nat, max: nat, timeout: int)
    | Signal(thread: nat, n: nat)
      // the next step; a weak compare-and-swap or a kernel wait may fail
    | Advance(thread: nat, succeeds: bool)

  predicate Init(s: State) {
    && s.count == s.initial && s.kernel == 0 && s.granted == 0 && s.signalled == 0 && s.settled == 0
    && |s.got| == |s.threads| && (forall t :: 0 <= t < |s.got| ==> s.got[t] == 0)
    && (forall t :: 0 <= t < |s.threads| ==> s.threads[t] == Idle(0, 0))
  }

  predicate Enabled(s: State, e: Event) {
    && e.thread < |s.threads| == |s.got|
    && (!e.Advance? ==> s.threads[e.thread].Idle?)
    && (e.Advance? ==>
          && !s.threads[e.thread].Idle?
          && (s.threads[e.thread].Sleep? && e.succeeds ==> s.kernel > 0 && s.threads[e.thread].timeout != 0))
  }

  function Goto(s: State, t: nat, pc: Pc): State
    requires t < |s.threads|
  {
    s.(threads := s.threads[t := pc])
  }

  /** `n` permits change from free to granted, to thread `t`. */
  function Grant(s: State, t: nat, n: int): State
    requires t < |s.got|
  {
    s.(granted := s.granted + n, got := s.got[t := s.got[t] + n])
  }

  /** A new call of thread `t` begins. */
  function Begin(s: State, t: nat): State
    requires t < |s.got|
  {
    s.(settled := s.settled + s.got[t], got := s.got[t := 0])
  }

  /** The count left by a compare-and-swap that takes up to `max` of `seen`. */
  function Leave(seen: int, max: int): int { if seen > max then seen - max else 0 }

  function TryMax(limit: nat, plan: Plan): int { if plan.Trailing? then limit - 1 else limit }

  function InHand(plan: Plan): nat { if plan.Trailing? then 1 else 0 }

  /** tryWaitMany came away with nothing. */
  function Missed(s: State, limit: nat, plan: Plan): Pc {
    match plan
    case TryOnly => Idle(0, limit)
    case ThenWait(timeout) => if limit > 0 then Spin(limit, timeout, s.maxSpins) else Idle(0, limit)
    case Trailing => Idle(1, limit)
  }

  /** One permit came from the count or the kernel semaphore. */
  function GotOne(limit: nat): Pc {
    if limit > 1 then TryLoad(limit, Trailing) else Idle(1, limit)
  }

  function Apply(s: State, e: Event): State
    requires Enabled(s, e)
  {
    match e
    case StartTry(t, max) => Goto(Begin(s, t), t, TryLoad(max, TryOnly))
    case StartWait(t, max, timeout) => Goto(Begin(s, t), t, TryLoad(max, ThenWait(timeout)))
    case Signal(t, n) =>
      var toRelease := Min(-s.count, n);
      Goto(Begin(s, t).(count := s.count + n, signalled := s.signalled + n), t,
           if toRelease > 0 then Posting(toRelease) else Idle(0, 0))
    case Advance(t, ok) => Move(s, t, ok)
  }

  function Move(s: State, t: nat, ok: bool): State
    requires Enabled(s, Advance(t, ok))
  {
    match s.threads[t]
    case TryLoad(limit, plan) =>
      Goto(s, t, if s.count > 0 then TryCas(limit, plan, s.count) else Missed(s, limit, plan))
    case TryCas(limit, plan, seen) =>
      if ok && s.count == seen then
        var n := seen - Leave(seen, TryMax(limit, plan));
        Grant(Goto(s.(count := seen - n), t, Idle(InHand(plan) + n, limit)), t, n)
      else Goto(s, t, if s.count > 0 then TryCas(limit, plan, s.count) else Missed(s, limit, plan))
    case Spin(limit, timeout, spins) =>
      Goto(s, t,
           if spins == 0 then FetchSub(limit, timeout)
           else if s.count > 0 then SpinCas(limit, timeout, spins - 1, s.count)
           else Spin(limit, timeout, spins - 1))
    case SpinCas(limit, timeout, spins, seen) =>
      if s.count == seen then
        var n := seen - Leave(seen, limit);
        Grant(Goto(s.(count := seen - n), t, Idle(n, limit)), t, n)
      else Goto(s, t, Spin(limit, timeout, spins))
    case FetchSub(limit, timeout) =>
      var s' := s.(count := s.count - 1);
      if s.count > 0 then Grant(Goto(s', t, GotOne(limit)), t, 1) else Goto(s', t, Sleep(limit, timeout))
    case Sleep(limit, timeout) =>
      if ok then Grant(Goto(s.(kernel := s.kernel - 1), t, GotOne(limit)), t, 1) else Goto(s, t, Repair(limit))
    case Repair(limit) => Goto(s, t, RepairAct(limit, s.count))
    case RepairAct(limit, seen) =>
      if seen >= 0 then
        if s.kernel > 0 then Grant(Goto(s.(kernel := s.kernel - 1), t, GotOne(limit)), t, 1)
        else Goto(s, t, Repair(limit))
      else if s.count == seen then Goto(s.(count := seen + 1), t, Idle(0, limit))
      else Goto(s, t, Repair(limit))
    case Posting(n) => Goto(s.(kernel := s.kernel + 1), t, if n > 1 then Posting(n - 1) else Idle(0, 0))
  }

  predicate Next(s: State, e: Event, s': State) {
    Enabled(s, e) && s' == Apply(s, e)
  }

  // ---------- The invariant ----------

  /** Is a thread at `pc` waiting for a kernel post it has not had? */
  predicate Waits(pc: Pc) {
    pc.Sleep? || pc.Repair? || pc.RepairAct?
  }

  function Waiters(threads: seq<Pc>): nat {
    if threads == [] then 0 else (if Waits(threads[0]) then 1 else 0) + Waiters(threads[1..])
  }

  /** Kernel posts decided on and not yet made. */
  function PostsInFlight(threads: seq<Pc>): nat {
    if threads == [] then 0
    else (if threads[0].Posting? then threads[0].n else 0) + PostsInFlight(threads[1..])
  }

  /** Permits nobody has been granted. */
  function Available(s: State): int {
    Max(s.count, 0) + s.kernel + PostsInFlight(s.threads)
  }

  ghost predicate PcOk(pc: Pc) {
    match pc
    case Idle(result, limit) => 0 <= result <= limit
    case TryLoad(limit, plan) => plan.Trailing? ==> limit > 1
    case TryCas(limit, plan, seen) => seen > 0 && (plan.Trailing? ==> limit > 1)
    case Spin(limit, _, _) => limit > 0
    case SpinCas(limit, _, _, seen) => limit > 0 && seen > 0
    case FetchSub(limit, _) => limit > 0
    case Sleep(limit, _) => limit > 0
    case Repair(limit) => limit > 0
    case RepairAct(limit, _) => limit > 0
    case Posting(n) => n > 0
  }

  /** What a thread at `pc` was granted by its call so far. */
  ghost predicate GotOk(pc: Pc, got: int) {
    match pc
    case Idle(result, _) => got == result
    case TryLoad(_, plan) => got == InHand(plan)
    case TryCas(_, plan, _) => got == InHand(plan)
    case _ => got == 0
  }

  ghost predicate Inv(s: State) {
    && |s.got| == |s.threads|
    && (forall t :: 0 <= t < |s.threads| ==> GotOk(s.threads[t], s.got[t]))
    && s.granted == s.settled + Sum(s.got)
    && s.granted + Available(s) == s.initial + s.signalled
    && Waiters(s.threads) == Max(-s.count, 0) + s.kernel + PostsInFlight(s.threads)
    && (forall t :: 0 <= t < |s.threads| ==> PcOk(s.threads[t]))
  }

  lemma {:induction false} TotalsUpdate(threads: seq<Pc>, t: nat, pc: Pc)
    requires t < |threads|
    ensures Waiters(threads[t := pc])
         == Waiters(threads) - (if Waits(threads[t]) then 1 else 0) + (if Waits(pc) then 1 else 0)
    ensures PostsInFlight(threads[t := pc])
         == PostsInFlight(threads) - (if threads[t].Posting? then threads[t].n else 0) + (if pc.Posting? then pc.n else 0)
    ensures Waits(threads[t]) ==> Waiters(threads) >= 1
    ensures Waiters(threads) <= |threads|
  {
    if t == 0 {
      assert threads[t := pc][1..] == threads[1..];
    } else {
      assert threads[t := pc][1..] == threads[1..][t - 1 := pc];
    }
    if |threads| > 1 {
      TotalsUpdate(threads[1..], if t == 0 then 0 else t - 1, if t == 0 then threads[1] else pc);
    }
  }

  /**
   One step, seen as a step of a plain counter of permits: it adds what is signalled, or moves what
   it grants from the available permits, or changes neither.
   */
  ghost predicate CountsRight(s: State, e: Event, s': State) {
    && s'.initial == s.initial
    && s'.signalled == s.signalled + (if e.Signal? then e.n else 0)
    && s'.granted >= s.granted
    && Credited(s, e, s')
    && Available(s') - Available(s) == (s'.signalled - s.signalled) - (s'.granted - s.granted)
  }

  /** What a step grants, it grants to the thread that takes it. */
  ghost predicate Credited(s: State, e: Event, s': State) {
    && |s'.got| == |s.got| && e.thread < |s.got|
    && s'.got == s.got[e.thread := (if e.Advance? then s.got[e.thread] else 0) + s'.granted - s.granted]
  }

  ghost predicate Keeps(s: State, e: Event)
    requires Enabled(s, e)
  {
    Inv(Apply(s, e)) && CountsRight(s, e, Apply(s, e))
  }

  function Posts(pc: Pc): nat { if pc.Posting? then pc.n else 0 }

  function WaitsOne(pc: Pc): nat { if Waits(pc) then 1 else 0 }

  /** A step of thread `t` keeps the invariant if its own numbers add up. */
  lemma LocalSums(s: State, e: Event, s': State, t: nat)
    requires Inv(s) && t < |s.threads| == |s'.threads| && s'.threads == s.threads[t := s'.threads[t]]
    requires e.thread == t && Credited(s, e, s') && GotOk(s'.threads[t], s'.got[t])
    requires s'.settled == s.settled + if e.Advance? then 0 else s.got[t]
    requires PcOk(s'.threads[t]) && s'.initial == s.initial && s'.granted >= s.granted
    requires s'.signalled == s.signalled + (if e.Signal? then e.n else 0)
    requires Max(s'.count, 0) + s'.kernel + Posts(s'.threads[t]) - Max(s.count, 0) - s.kernel - Posts(s.threads[t])
          == (s'.signalled - s.signalled) - (s'.granted - s.granted)
    requires WaitsOne(s'.threads[t]) - WaitsOne(s.threads[t])
          == Max(-s'.count, 0) + s'.kernel + Posts(s'.threads[t]) - Max(-s.count, 0) - s.kernel - Posts(s.threads[t])
    ensures Inv(s') && CountsRight(s, e, s')
  {
    TotalsUpdate(s.threads, t, s'.threads[t]);
    SumUpdate(s.got, t, s'.got[t]);
  }

  lemma StartKeeps(s: State, e: Event)
    requires Inv(s) && Enabled(s, e) && !e.Advance?
    ensures Keeps(s, e)
  {
    var s' := Apply(s, e);
    LocalSums(s, e, s', e.thread);
  }

  lemma TryKeeps(s: State, t: nat, ok: bool)
    requires Inv(s) && Enabled(s, Advance(t, ok)) && (s.threads[t].TryLoad? || s.threads[t].TryCas?)
    ensures Keeps(s, Advance(t, ok))
  {
    var s' := Move(s, t, ok);
    assert PcOk(s.threads[t]) && GotOk(s.threads[t], s.got[t]);
    LocalSums(s, Advance(t, ok), s', t);
  }

  lemma SpinKeeps(s: State, t: nat, ok: bool)
    requires Inv(s) && Enabled(s, Advance(t, ok))
    requires s.threads[t].Spin? || s.threads[t].SpinCas? || s.threads[t].FetchSub?
    ensures Keeps(s, Advance(t, ok))
  {
    var s' := Move(s, t, ok);
    assert PcOk(s.threads[t]) && GotOk(s.threads[t], s.got[t]);
    LocalSums(s, Advance(t, ok), s', t);
  }

  lemma SleepKeeps(s: State, t: nat, ok: bool)
    requires Inv(s) && Enabled(s, Advance(t, ok)) && (Waits(s.threads[t]) || s.threads[t].Posting?)
    ensures Keeps(s, Advance(t, ok))
  {
    var s' := Move(s, t, ok);
    assert PcOk(s.threads[t]) && GotOk(s.threads[t], s.got[t]);
    LocalSums(s, Advance(t, ok), s', t);
  }

  lemma StepKeeps(s: State, e: Event)
    requires Inv(s) && Enabled(s, e)
    ensures Keeps(s, e)
  {
    if !e.Advance? {
      StartKeeps(s, e);
    } else {
      match s.threads[e.thread]
      case TryLoad(_, _) => TryKeeps(s, e.thread, e.succeeds);
      case TryCas(_, _, _) => TryKeeps(s, e.thread, e.succeeds);
      case Spin(_, _, _) => SpinKeeps(s, e.thread, e.succeeds);
      case SpinCas(_, _, _, _) => SpinKeeps(s, e.thread, e.succeeds);
      case FetchSub(_, _) => SpinKeeps(s, e.thread, e.succeeds);
      case Sleep(_, _) => SleepKeeps(s, e.thread, e.succeeds);
      case Repair(_) => SleepKeeps(s, e.thread, e.succeeds);
      case RepairAct(_, _) => SleepKeeps(s, e.thread, e.succeeds);
      case Posting(_) => SleepKeeps(s, e.thread, e.succeeds);
    }
  }

  lemma {:induction false} NobodyWaits(threads: seq<Pc>)
    requires forall t :: 0 <= t < |threads| ==> threads[t].Idle?
    ensures Waiters(threads) == 0 && PostsInFlight(threads) == 0
  {
    if threads != [] {
      NobodyWaits(threads[1..]);
    }
  }

  lemma Invariant(s: State)
    requires Reachable(Init, Next, s)
    ensures Inv(s)
  {
    forall a: State | Init(a) ensures Inv(a) {
      NobodyWaits(a.threads);
      SumZeros(a.got);
    }
    forall a: State, e: Event, b: State | Inv(a) && Next(a, e, b) ensures Inv(b) {
      StepKeeps(a, e);
    }
    Induction(Init, Next, Inv, s);
  }

  // ---------- What holds in every reachable state ----------

  /**
   Conservation: permits granted, free in the count, in the kernel semaphore and on the way to it
   are the initial ones and those signalled.  Threads waiting without a permit are matched, one for
   one, by the negative count, kernel permits and posts on the way.
   */
  lemma Conservation(s: State)
    requires Reachable(Init, Next, s)
    ensures s.granted + Max(s.count, 0) + s.kernel + PostsInFlight(s.threads) == s.initial + s.signalled
    ensures Waiters(s.threads) == Max(-s.count, 0) + s.kernel + PostsInFlight(s.threads)
  {
    Invariant(s);
  }

  /** Seen from outside the semaphore is a counter of permits: no step makes or loses one. */
  lemma StepsLikeACounter(s: State, e: Event)
    requires Reachable(Init, Next, s) && Enabled(s, e)
    ensures Available(s) >= 0 && CountsRight(s, e, Apply(s, e))
  {
    Invariant(s);
    StepKeeps(s, e);
  }

  /** Every permit granted was granted to a call, and a call returns exactly what it was granted. */
  lemma ResultIsWhatWasGranted(s: State, t: nat)
    requires Reachable(Init, Next, s) && t < |s.threads|
    ensures |s.got| == |s.threads| && s.granted == s.settled + Sum(s.got)
    ensures s.threads[t].Idle? ==> s.got[t] == s.threads[t].result
  {
    Invariant(s);
    assert GotOk(s.threads[t], s.got[t]);
  }

  /**
   A wait that gives up takes nothing: from its first step to its return it is granted no permit, and
   the step that gives up leaves all that were available, having taken back the thread's own decrement.
   */
  lemma TimeoutTakesNothing(s: State, t: nat, ok: bool)
    requires Reachable(Init, Next, s) && Enabled(s, Advance(t, ok)) && Waits(s.threads[t])
    requires Move(s, t, ok).threads[t].Idle? && Move(s, t, ok).threads[t].result == 0
    ensures var s' := Move(s, t, ok);
      && s'.got == s.got && s'.got[t] == 0
      && Available(s') == Available(s) && Waiters(s'.threads) == Waiters(s.threads) - 1
  {
    Invariant(s);
    assert GotOk(s.threads[t], s.got[t]) && PcOk(s.threads[t]);
    StepKeeps(s, Advance(t, ok));
    TotalsUpdate(s.threads, t, Move(s, t, ok).threads[t]);
  }

  /** A thread in the repair loop always has a way out: a count to undo, or a post made or on the way. */
  lemma RepairHasReason(s: State, t: nat)
    requires Reachable(Init, Next, s) && t < |s.threads| && Waits(s.threads[t])
    ensures s.count < 0 || s.kernel > 0 || PostsInFlight(s.threads) > 0
  {
    Invariant(s);
    TotalsUpdate(s.threads, t, s.threads[t]);
  }

  /** With no post on the way, a thread in the repair loop that runs alone leaves it in two steps. */
  lemma RepairEndsAlone(s: State, t: nat)
    requires Reachable(Init, Next, s) && t < |s.threads| && s.threads[t].Repair? && PostsInFlight(s.threads) == 0
    ensures !Waits(Move(Move(s, t, true), t, true).threads[t])
  {
    Invariant(s);
    TotalsUpdate(s.threads, t, s.threads[t]);
  }

  /**
   No lost wakeup: when a thread sleeps and there is nothing in the kernel semaphore or on the way
   to it, every permit there ever was has been granted.
   */
  lemma NoLostWakeup(s: State, t: nat)
    requires Reachable(Init, Next, s) && t < |s.threads| && Waits(s.threads[t])
    requires s.kernel == 0 && PostsInFlight(s.threads) == 0
    ensures s.granted == s.initial + s.signalled
  {
    Invariant(s);
    TotalsUpdate(s.threads, t, s.threads[t]);
  }

  /** No call returns more permits than it asked for, and no signal posts more than there are threads. */
  lemma ResultsWithinLimits(s: State, t: nat)
    requires Reachable(Init, Next, s) && t < |s.threads|
    ensures s.threads[t].Idle? ==> 0 <= s.threads[t].result <= s.threads[t].limit
    ensures s.threads[t].Posting? ==> PostsInFlight(s.threads) <= |s.threads|
    ensures -s.count <= |s.threads|
  {
    Invariant(s);
    assert PcOk(s.threads[t]);
    TotalsUpdate(s.threads, t, s.threads[t]);
  }
}
