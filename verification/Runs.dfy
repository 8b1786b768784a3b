/** Runs of a state machine, and induction over them.  Every protocol model uses these. */
module Runs {

  /** Some run with these events, from some initial state, ends in `s`. */
  ghost predicate Reaches<S(!new), E>(init: S -> bool, next: (S, E, S) -> bool, events: seq<E>, s: S)
    decreases |events|
  {
    if events == [] then init(s)
    else
      var last := |events| - 1;
      exists p: S :: Reaches(init, next, events[..last], p) && next(p, events[last], s)
  }

  ghost predicate Reachable<S(!new), E(!new)>(init: S -> bool, next: (S, E, S) -> bool, s: S) {
    exists events: seq<E> :: Reaches(init, next, events, s)
  }

  /** What holds initially and is kept by every step holds in every reachable state. */
  lemma {:induction false} Induction<S(!new), E(!new)>(
    init: S -> bool, next: (S, E, S) -> bool, inv: S -> bool, s: S)
    requires forall a: S :: init(a) ==> inv(a)
    requires forall a: S, e: E, b: S :: inv(a) && next(a, e, b) ==> inv(b)
    requires Reachable(init, next, s)
    ensures inv(s)
  {
    var events: seq<E> :| Reaches(init, next, events, s);
    RunInduction(init, next, inv, events, s);
  }

  lemma {:induction false} RunInduction<S(!new), E(!new)>(
    init: S -> bool, next: (S, E, S) -> bool, inv: S -> bool, events: seq<E>, s: S)
    requires forall a: S :: init(a) ==> inv(a)
    requires forall a: S, e: E, b: S :: inv(a) && next(a, e, b) ==> inv(b)
    requires Reaches(init, next, events, s)
    ensures inv(s)
    decreases |events|
  {
    if events != [] {
      var last := |events| - 1;
      var p: S :| Reaches(init, next, events[..last], p) && next(p, events[last], s);
      RunInduction(init, next, inv, events[..last], p);
    }
  }

  /** A step from a reachable state leads to a reachable state. */
  lemma Extend<S(!new), E(!new)>(init: S -> bool, next: (S, E, S) -> bool, s: S, e: E, s': S)
    requires Reachable(init, next, s) && next(s, e, s')
    ensures Reachable(init, next, s')
  {
    var events: seq<E> :| Reaches(init, next, events, s);
    assert (events + [e])[..|events|] == events;
    assert Reaches(init, next, events + [e], s');
  }

  /** A run with all its states. */
  ghost predicate Run<S(!new), E>(init: S -> bool, next: (S, E, S) -> bool, states: seq<S>, events: seq<E>) {
    && |states| == |events| + 1 && init(states[0])
    && forall i :: 0 <= i < |events| ==> next(states[i], events[i], states[i + 1])
  }

  /** Every state of a run is reachable. */
  lemma {:induction false} OnTheWay<S(!new), E(!new)>(init: S -> bool, next: (S, E, S) -> bool, states: seq<S>, events: seq<E>, n: nat)
    requires Run(init, next, states, events) && n <= |events|
    ensures Reachable(init, next, states[n])
  {
    if n == 0 {
      assert Reaches(init, next, [], states[0]);
    } else {
      OnTheWay(init, next, states, events, n - 1);
      Extend(init, next, states[n - 1], events[n - 1], states[n]);
    }
  }
}
