/**
 What calls on the semaphore come to: when a call may come away with nothing, told from the call that was
 made and from what its thread met on the way, and what a call gets that runs alone.
 */
module SemaphoreRuns {
  import opened Numbers
  import opened Runs
  import opened Semaphore

  predicate Begins(e: Event, t: nat) { e.thread == t && !e.Advance? }

  /** Event `m` is the last one before `n` by which thread `t` begins a call. */
  ghost predicate BeganAt(events: seq<Event>, n: nat, t: nat, m: nat) {
    m < n <= |events| && Begins(events[m], t) && forall k :: m < k < n ==> !Begins(events[k], t)
  }

  /** After event `m` and before event `n` thread `t` was in the kernel wait, and that did not succeed. */
  ghost predicate WaitedInVain(states: seq<State>, events: seq<Event>, m: nat, n: nat, t: nat) {
    exists k :: m < k < n && k < |events| && k < |states| && events[k] == Advance(t, false)
      && t < |states[k].threads| && states[k].threads[t].Sleep?
  }

  /** The thread is in a call of tryWaitMany for up to `max`. */
  predicate InTry(pc: Pc, max: nat) {
    match pc
    case Idle(_, limit) => limit == max
    case TryLoad(limit, plan) => limit == max && plan == TryOnly
    case TryCas(limit, plan, _) => limit == max && plan == TryOnly
    case _ => false
  }

  /** The thread is in a call of waitMany for up to `max`. */
  predicate InWait(pc: Pc, max: nat, timeout: int) {
    match pc
    case Idle(_, limit) => limit == max
    case TryLoad(limit, plan) => limit == max && (plan == ThenWait(timeout) || plan == Trailing)
    case TryCas(limit, plan, _) => limit == max && (plan == ThenWait(timeout) || plan == Trailing)
    case Spin(limit, patience, _) => limit == max && patience == timeout
    case SpinCas(limit, patience, _, _) => limit == max && patience == timeout
    case FetchSub(limit, patience) => limit == max && patience == timeout
    case Sleep(limit, patience) => limit == max && patience == timeout
    case Repair(limit) => limit == max
    case RepairAct(limit, _) => limit == max
    case Posting(_) => false
  }

  predicate HasGivenUp(pc: Pc) { pc.Repair? || pc.RepairAct? }

  /** One step of a thread in a call of tryWaitMany. */
  lemma TryStep(s: State, t: nat, ok: bool, max: nat)
    requires Enabled(s, Advance(t, ok)) && PcOk(s.threads[t]) && InTry(s.threads[t], max)
    ensures var pc' := Move(s, t, ok).threads[t];
      InTry(pc', max) && (max > 0 && pc'.Idle? && pc'.result == 0 ==> s.count <= 0)
  {
  }

  /** One step of a thread in a call of waitMany. */
  lemma WaitStep(s: State, t: nat, ok: bool, max: nat, timeout: int)
    requires Enabled(s, Advance(t, ok)) && PcOk(s.threads[t]) && InWait(s.threads[t], max, timeout)
    ensures var pc, pc' := s.threads[t], Move(s, t, ok).threads[t];
      && InWait(pc', max, timeout)
      && (HasGivenUp(pc') ==> HasGivenUp(pc) || (pc.Sleep? && !ok))
      && (max > 0 && pc'.Idle? && pc'.result == 0 ==> HasGivenUp(pc))
  {
  }

  /** The thread is in the call it began, and has given up only after it waited in vain. */
  ghost predicate InCall(states: seq<State>, events: seq<Event>, m: nat, n: nat, t: nat)
    requires m < |events| && n < |states|
  {
    t < |states[n].threads|
    && match events[m]
       case StartTry(_, max) => InTry(states[n].threads[t], max)
       case StartWait(_, max, timeout) =>
         && InWait(states[n].threads[t], max, timeout)
         && (HasGivenUp(states[n].threads[t]) ==> WaitedInVain(states, events, m, n, t))
       case _ => true
  }

  lemma CallGoesOn(states: seq<State>, events: seq<Event>, m: nat, n: nat, t: nat)
    requires |states| == |events| + 1 && m < n < |events| && InCall(states, events, m, n, t) && Next(states[n], events[n], states[n + 1])
    requires !Begins(events[n], t) && t < |states[n].threads| && PcOk(states[n].threads[t])
    ensures InCall(states, events, m, n + 1, t)
  {
    var e := events[n];
    assert WaitedInVain(states, events, m, n, t) ==> WaitedInVain(states, events, m, n + 1, t);
    if e.thread != t {
      assert states[n + 1].threads[t] == states[n].threads[t];
    } else {
      match events[m] {
        case StartTry(_, max) => TryStep(states[n], t, e.succeeds, max);
        case StartWait(_, max, timeout) => WaitStep(states[n], t, e.succeeds, max, timeout);
        case _ =>
      }
    }
  }

  /** Between its calls and inside them a thread is where its last call leads. */
  lemma {:induction false} InItsCall(states: seq<State>, events: seq<Event>, m: nat, n: nat, t: nat)
    requires Run(Init, Next, states, events) && BeganAt(events, n, t, m)
    ensures InCall(states, events, m, n, t)
    decreases n
  {
    hide InCall, Next, Init, Inv, Begins;
    if n > m + 1 {
      InItsCall(states, events, m, n - 1, t);
      OnTheWay(Init, Next, states, events, n - 1);
      Invariant(states[n - 1]);
      InsideBounds(states, events, m, n - 1, t);
      ThreadIsOk(states[n - 1], t);
      CallGoesOn(states, events, m, n - 1, t);
    } else {
      CallBegins(states, events, m, t);
    }
  }

  lemma ThreadIsOk(s: State, t: nat)
    requires Inv(s) && t < |s.threads|
    ensures PcOk(s.threads[t])
  {
  }

  lemma CallBegins(states: seq<State>, events: seq<Event>, m: nat, t: nat)
    requires |states| == |events| + 1 && m < |events| && Begins(events[m], t) && Next(states[m], events[m], states[m + 1])
    ensures InCall(states, events, m, m + 1, t)
  {
  }

  lemma InsideBounds(states: seq<State>, events: seq<Event>, m: nat, n: nat, t: nat)
    requires m < |events| && n < |states| && InCall(states, events, m, n, t)
    ensures t < |states[n].threads|
  {
  }

  /**
   A wait for at least one permit that returns none was in the kernel wait, and that wait did not succeed:
   it timed out or failed.  No wait comes back without having waited.
   */
  lemma WaitReturnsNothingOnlyAfterWaiting(states: seq<State>, events: seq<Event>, m: nat, n: nat, t: nat, max: nat, timeout: int)
    requires Run(Init, Next, states, events) && n < |events| && BeganAt(events, n, t, m) && events[m] == StartWait(t, max, timeout)
    requires max > 0 && events[n].Advance? && events[n].thread == t
    requires t < |states[n + 1].threads| && states[n + 1].threads[t].Idle? && states[n + 1].threads[t].result == 0
    ensures WaitedInVain(states, events, m, n, t)
  {
    InItsCall(states, events, m, n, t);
    assert Next(states[n], events[n], states[n + 1]);
    OnTheWay(Init, Next, states, events, n);
    Invariant(states[n]);
    WaitStep(states[n], t, events[n].succeeds, max, timeout);
  }

  /** A try for at least one permit returns none only at a moment when the count is not positive. */
  lemma TryReturnsNothingOnlyAtNone(states: seq<State>, events: seq<Event>, m: nat, n: nat, t: nat, max: nat)
    requires Run(Init, Next, states, events) && n < |events| && BeganAt(events, n, t, m) && events[m] == StartTry(t, max)
    requires max > 0 && events[n].Advance? && events[n].thread == t
    requires t < |states[n + 1].threads| && states[n + 1].threads[t].Idle? && states[n + 1].threads[t].result == 0
    ensures states[n].count <= 0
  {
    InItsCall(states, events, m, n, t);
    assert Next(states[n], events[n], states[n + 1]);
    OnTheWay(Init, Next, states, events, n);
    Invariant(states[n]);
    TryStep(states[n], t, events[n].succeeds, max);
  }

  /** No call returns more than it was called for. */
  lemma ReturnsWithinTheCall(states: seq<State>, events: seq<Event>, m: nat, n: nat, t: nat)
    requires Run(Init, Next, states, events) && BeganAt(events, n, t, m) && !events[m].Signal?
    requires t < |states[n].threads| && states[n].threads[t].Idle?
    ensures 0 <= states[n].threads[t].result <= events[m].max
  {
    InItsCall(states, events, m, n, t);
    OnTheWay(Init, Next, states, events, n);
    ResultsWithinLimits(states[n], t);
  }

  // ---------- Calls that run alone ----------

  /** Thread `t` takes `k` steps in a row, each of which succeeds if it can. */
  function Solo(s: State, t: nat, k: nat): (s': State)
    ensures |s'.threads| == |s.threads|
    decreases k
  {
    if k == 0 || !Enabled(s, Advance(t, true)) then s else Solo(Move(s, t, true), t, k - 1)
  }

  /** Alone, with permits in the count, a try and a wait get as many as they may at once. */
  lemma CallsGetWhatIsThere(s: State, t: nat, e: Event)
    requires Enabled(s, e) && e.thread == t && (e.StartTry? || e.StartWait?) && s.count > 0
    ensures var s' := Solo(Apply(s, e), t, 2);
      s'.threads[t] == Idle(Min(e.max, s.count), e.max) && s'.count == s.count - Min(e.max, s.count)
  {
    var a := Apply(s, e);
    var b := Move(a, t, true);
    assert Solo(a, t, 2) == Solo(b, t, 1) == Solo(Move(b, t, true), t, 0);
  }

  /** Alone, with no permit in the count, a try gets nothing and changes nothing. */
  lemma TryLeavesNoTrace(s: State, t: nat, max: nat)
    requires Enabled(s, StartTry(t, max)) && s.count <= 0
    ensures var s' := Solo(Apply(s, StartTry(t, max)), t, 1);
      s'.threads[t] == Idle(0, max) && s'.count == s.count && s'.kernel == s.kernel
  {
    var a := Apply(s, StartTry(t, max));
    assert Solo(a, t, 1) == Solo(Move(a, t, true), t, 0);
  }

  /** Spinning alone on a count that is not positive ends with the decrement. */
  lemma {:induction false} SpinsOut(s: State, t: nat, limit: nat, timeout: int, spins: nat)
    requires t < |s.threads| == |s.got| && s.threads[t] == Spin(limit, timeout, spins) && s.count <= 0
    ensures Solo(s, t, spins + 1) == s.(threads := s.threads[t := FetchSub(limit, timeout)])
    decreases spins
  {
    var s1 := Move(s, t, true);
    if spins > 0 {
      SpinsOut(s1, t, limit, timeout, spins - 1);
      assert s1.threads[t := FetchSub(limit, timeout)] == s.threads[t := FetchSub(limit, timeout)];
    }
  }

  lemma {:induction false} SoloTwice(s: State, t: nat, j: nat, k: nat)
    ensures Solo(Solo(s, t, j), t, k) == Solo(s, t, j + k)
    decreases j
  {
    if j > 0 {
      if Enabled(s, Advance(t, true)) {
        SoloTwice(Move(s, t, true), t, j - 1, k);
      } else {
        assert Solo(s, t, k) == s;
      }
    }
  }

  /**
   Alone, with no permit in the count, a wait takes one off the count and is in the kernel wait: it is
   counted as waiting before it sleeps.
   */
  lemma WaitGoesToSleep(s: State, t: nat, max: nat, timeout: int)
    requires Enabled(s, StartWait(t, max, timeout)) && s.count <= 0 && max > 0
    ensures var s' := Solo(Apply(s, StartWait(t, max, timeout)), t, s.maxSpins + 3);
      s'.threads[t] == Sleep(max, timeout) && s'.count == s.count - 1 && s'.kernel == s.kernel
  {
    var a := Apply(s, StartWait(t, max, timeout));
    var b := Move(a, t, true);
    assert Solo(a, t, 1) == Solo(b, t, 0) == b;
    SpinsOut(b, t, max, timeout, s.maxSpins);
    var c := Solo(b, t, s.maxSpins + 1);
    var d := Move(c, t, true);
    assert Solo(c, t, 1) == Solo(d, t, 0) == d;
    SoloTwice(b, t, s.maxSpins + 1, 1);
    SoloTwice(a, t, 1, s.maxSpins + 2);
  }

  /** Posting alone adds all its posts to the kernel semaphore. */
  lemma {:induction false} PostsAll(s: State, t: nat, n: nat)
    requires t < |s.threads| == |s.got| && s.threads[t] == Posting(n) && n > 0
    ensures Solo(s, t, n) == s.(kernel := s.kernel + n, threads := s.threads[t := Idle(0, 0)])
    decreases n
  {
    var s1 := Move(s, t, true);
    if n > 1 {
      PostsAll(s1, t, n - 1);
      assert s1.threads[t := Idle(0, 0)] == s.threads[t := Idle(0, 0)];
    }
  }

  /** Alone, a signal of `n` permits raises the count by `n` and wakes as many as wait, up to `n`. */
  lemma SignalWakes(s: State, t: nat, n: nat)
    requires Enabled(s, Signal(t, n))
    ensures var waiting := Max(0, Min(-s.count, n));
      var s' := Solo(Apply(s, Signal(t, n)), t, waiting);
      s'.count == s.count + n && s'.kernel == s.kernel + waiting && s'.threads[t] == Idle(0, 0)
  {
    var a := Apply(s, Signal(t, n));
    if Min(-s.count, n) > 0 {
      PostsAll(a, t, Min(-s.count, n));
    }
  }

  /** A sleeper gets a post that is there, and then what more the count has for it. */
  lemma SleeperWakes(s: State, t: nat)
    requires t < |s.threads| == |s.got| && s.threads[t].Sleep? && s.kernel > 0 && s.threads[t].timeout != 0 && s.threads[t].limit > 0
    ensures var limit := s.threads[t].limit;
      var more := Max(0, Min(limit - 1, s.count));
      var s' := Solo(s, t, 3);
      s'.threads[t] == Idle(1 + more, limit) && s'.kernel == s.kernel - 1 && s'.count == s.count - more
  {
    var limit := s.threads[t].limit;
    var a := Move(s, t, true);
    if limit > 1 {
      var b := Move(a, t, true);
      if s.count > 0 {
        var c := Move(b, t, true);
        assert Solo(s, t, 3) == Solo(a, t, 2) == Solo(b, t, 1) == Solo(c, t, 0);
      } else {
        assert b.threads[t] == Idle(1, limit);
        assert Solo(s, t, 3) == Solo(a, t, 2) == Solo(b, t, 1) == b;
      }
    } else {
      assert a.threads[t] == Idle(1, limit);
      assert Solo(s, t, 3) == Solo(a, t, 2) == a;
    }
  }
}
