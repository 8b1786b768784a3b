/**
 What a dequeue comes away with in the midst of others: it takes as many elements as it asked for, or
 all that the counters showed it at the moments it loaded them.
 */
module ClaimRuns {
  import opened Runs
  import opened ClaimProtocol

  /** Event `m` is the one by which thread `t` begins its last dequeue before event `n`, asking for `max`. */
  ghost predicate BeganAt(events: seq<Event>, m: nat, n: nat, t: nat, max: nat) {
    m < n <= |events| && events[m] == StartDequeue(t, max) && forall k :: m < k < n ==> !Begins(events[k], t)
  }

  predicate Begins(e: Event, t: nat) { e.StartDequeue? && e.thread == t }

  /** What the overcommit of state `i`, the optimistic count of state `j` and the tail of state `k` leave. */
  function Showed(states: seq<State>, i: nat, j: nat, k: nat): int
    requires i < |states| && j < |states| && k < |states|
  {
    states[k].tail - (states[j].optimistic - states[i].overcommit)
  }

  /**
   In the call from event `m` on and before event `n` the overcommit was loaded at event `i`, then the
   optimistic count at event `j`, and the tail at the beginning or after that, and no more than `a` was left.
   */
  ghost predicate NoMoreThan(states: seq<State>, m: nat, n: nat, a: nat) {
    exists i: nat, j: nat, k: nat :: m < i < j < n <= |states| && (k == m || j < k < n) && Showed(states, i, j, k) <= a
  }

  /** How far the dequeue is, and what its locals are. */
  ghost predicate Sees(states: seq<State>, m: nat, n: nat, max: nat, pc: Pc)
    requires m < n <= |states|
  {
    max > 0 && match pc
    case LoadOvercommit(max', tail) => max' == max && tail == states[m].tail
    case LoadOptimistic(max', tail, over) =>
      max' == max && tail == states[m].tail && exists i: nat :: m < i < n && over == states[i].overcommit
    case Reserve(desired, over) =>
      && 0 < desired <= max && (desired == max || NoMoreThan(states, m, n, desired))
      && exists i: nat :: m < i < n && over == states[i].overcommit
    case LoadTail(desired, over, mine) =>
      && 0 < desired <= max && (desired == max || NoMoreThan(states, m, n, desired))
      && exists i: nat, j: nat :: m < i < j < n && over == states[i].overcommit && mine == states[j].optimistic
    case GiveBack(_, actual, _) => actual < max && NoMoreThan(states, m, n, actual)
    case Claim(actual) => 0 < actual <= max && (actual == max || NoMoreThan(states, m, n, actual))
    case Holding(_, actual) => 0 < actual <= max && (actual == max || NoMoreThan(states, m, n, actual))
    case Idle => NoMoreThan(states, m, n, 0)
  }

  lemma LaterStill(states: seq<State>, m: nat, n: nat, a: nat)
    requires NoMoreThan(states, m, n, a) && n < |states|
    ensures NoMoreThan(states, m, n + 1, a)
  {
    var i: nat, j: nat, k: nat :| m < i < j < n <= |states| && (k == m || j < k < n) && Showed(states, i, j, k) <= a;
    assert m < i < j < n + 1;
  }

  /** The thread takes its next step at event `n`. */
  lemma StepSees(states: seq<State>, m: nat, n: nat, max: nat, t: nat)
    requires m < n < |states| && t < |states[n].threads|
    requires Sees(states, m, n, max, states[n].threads[t])
    requires states[n].threads[t] != Idle && !states[n].threads[t].Holding?
    ensures Sees(states, m, n + 1, max, Move(states[n], t).threads[t])
  {
    hide NoMoreThan;
    var s := states[n];
    match s.threads[t] {
      case LoadOvercommit(_, _) =>
        assert s.overcommit == states[n].overcommit;
      case LoadOptimistic(_, tail, over) =>
        var i: nat :| m < i < n && over == states[i].overcommit;
        ShowedAt(states, m, n + 1, i, n, m);
      case Reserve(desired, over) =>
        var i: nat :| m < i < n && over == states[i].overcommit;
        assert m < i < n < n + 1 && s.optimistic == states[n].optimistic;
        Later(states, m, n, desired);
      case LoadTail(desired, over, mine) =>
        var i: nat, j: nat :| m < i < j < n && over == states[i].overcommit && mine == states[j].optimistic;
        ShowedAt(states, m, n + 1, i, j, n);
        Later(states, m, n, desired);
      case GiveBack(_, actual, _) => Later(states, m, n, actual);
      case Claim(actual) => Later(states, m, n, actual);
    }
  }

  lemma Later(states: seq<State>, m: nat, n: nat, a: nat)
    requires n < |states|
    ensures NoMoreThan(states, m, n, a) ==> NoMoreThan(states, m, n + 1, a)
  {
    if NoMoreThan(states, m, n, a) {
      LaterStill(states, m, n, a);
    }
  }

  lemma ShowedAt(states: seq<State>, m: nat, n: nat, i: nat, j: nat, k: nat)
    requires m < i < j < n <= |states| && (k == m || j < k < n)
    ensures forall a: nat :: Showed(states, i, j, k) <= a ==> NoMoreThan(states, m, n, a)
  {
  }

  lemma SeesLater(states: seq<State>, m: nat, n: nat, max: nat, pc: Pc)
    requires m < n < |states| && Sees(states, m, n, max, pc)
    ensures Sees(states, m, n + 1, max, pc)
  {
    hide NoMoreThan;
    match pc {
      case LoadOvercommit(_, _) =>
      case LoadOptimistic(_, _, over) =>
        var i: nat :| m < i < n && over == states[i].overcommit;
        assert m < i < n + 1;
      case Reserve(desired, over) =>
        var i: nat :| m < i < n && over == states[i].overcommit;
        assert m < i < n + 1;
        Later(states, m, n, desired);
      case LoadTail(desired, over, mine) =>
        var i: nat, j: nat :| m < i < j < n && over == states[i].overcommit && mine == states[j].optimistic;
        assert m < i < j < n + 1;
        Later(states, m, n, desired);
      case GiveBack(_, actual, _) => Later(states, m, n, actual);
      case Claim(actual) => Later(states, m, n, actual);
      case Holding(_, actual) => Later(states, m, n, actual);
      case Idle => Later(states, m, n, 0);
    }
  }

  lemma OthersStay(s: State, e: Event, t: nat)
    requires Enabled(s, e) && t < |s.threads| && (e.Publish? || e.thread != t)
    ensures t < |Apply(s, e).threads| && Apply(s, e).threads[t] == s.threads[t]
  {
  }

  /** In the call from event `m` on thread `t` has not got its elements, or given up, before event `n`. */
  ghost predicate StillAt(states: seq<State>, m: nat, n: nat, t: nat) {
    forall k :: m < k < n && k < |states| ==> t < |states[k].threads| && !states[k].threads[t].Holding? && states[k].threads[t] != Idle
  }

  /**
   A dequeue that asked for at most `max` ends, whatever others do meanwhile, with `max` elements; or
   with fewer, and then with as many as were left by the tail, the optimistic count and the overcommit
   at the moments it loaded them; or with none, and then none were left.
   */
  lemma {:induction false} DequeueTakesWhatItSees(states: seq<State>, events: seq<Event>, m: nat, n: nat, t: nat, max: nat)
    requires Run(Init, Next, states, events) && BeganAt(events, m, n, t, max) && StillAt(states, m, n, t)
    ensures t < |states[n].threads| && Sees(states, m, n, max, states[n].threads[t])
    ensures states[n].threads[t] == Idle ==> NoMoreThan(states, m, n, 0)
    ensures states[n].threads[t].Holding? ==>
              var count := states[n].threads[t].count; 0 < count <= max && (count == max || NoMoreThan(states, m, n, count))
    decreases n
  {
    hide Sees, NoMoreThan, Init, Move, Showed;
    var s, e, s' := states[n - 1], events[n - 1], states[n];
    assert Next(s, e, s');
    if n == m + 1 {
      Begun(states, m, max, t);
    } else {
      DequeueTakesWhatItSees(states, events, m, n - 1, t, max);
      if e.Publish? || e.thread != t {
        SeesLater(states, m, n - 1, max, s.threads[t]);
        OthersStay(s, e, t);
      } else {
        assert !Begins(e, t) && e == Advance(t);
        StepSees(states, m, n - 1, max, t);
        MovesOnly(s, t);
      }
    }
    Outcome(states, m, n, max, s'.threads[t]);
  }

  lemma MovesOnly(s: State, t: nat)
    requires t < |s.threads| && s.threads[t] != Idle
    ensures |Move(s, t).threads| == |s.threads|
  {
  }

  lemma Begun(states: seq<State>, m: nat, max: nat, t: nat)
    requires m + 1 < |states| && Next(states[m], StartDequeue(t, max), states[m + 1])
    ensures t < |states[m + 1].threads| && Sees(states, m, m + 1, max, states[m + 1].threads[t])
  {
  }

  lemma Outcome(states: seq<State>, m: nat, n: nat, max: nat, pc: Pc)
    requires m < n <= |states| && Sees(states, m, n, max, pc)
    ensures pc == Idle ==> NoMoreThan(states, m, n, 0)
    ensures pc.Holding? ==> 0 < pc.count <= max && (pc.count == max || NoMoreThan(states, m, n, pc.count))
  {
  }
}
