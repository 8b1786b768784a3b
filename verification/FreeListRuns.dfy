/**
 What calls on the free list come to: a call that runs alone, however the others were stopped, and a
 `try_get` that comes away with nothing in the midst of others.
 */
module FreeListRuns {
  import opened Options
  import opened Runs
  import opened FreeList

  // ---------- Calls that run alone ----------

  /** Thread `t` takes `k` steps in a row from `s`, and is at `s'` then. */
  ghost predicate StepsAlone(s: State, t: nat, k: nat, s': State)
    decreases k
  {
    if k == 0 then s' == s else exists mid :: Next(s, Advance(t), mid) && StepsAlone(mid, t, k - 1, s')
  }

  lemma NoSteps(s: State, t: nat)
    ensures StepsAlone(s, t, 0, s)
  {
  }

  lemma StepFirst(s: State, t: nat, mid: State, k: nat, s': State)
    requires Next(s, Advance(t), mid) && StepsAlone(mid, t, k, s')
    ensures StepsAlone(s, t, k + 1, s')
  {
  }

  /** The next step of a call. */
  lemma GoOn(s: State, t: nat) returns (s': State)
    requires Reachable(Init, Next, s) && t < |s.threads| && s.threads[t] != Idle
    ensures Next(s, Advance(t), s') && s' == Move(s, t) && Reachable(Init, Next, s')
  {
    var h := Invariant(s);
    s' := Apply(s, Advance(t));
    Extend(Init, Next, s, Advance(t), s');
  }

  /** A node at the head is on the list, with a reference count that is not zero under the flag. */
  lemma HeadIsListed(s: State)
    requires Reachable(Init, Next, s) && s.head.Some?
    ensures s.head.value < |s.refs| == |s.next| && s.head.value !in s.owned
    ensures 0 < s.refs[s.head.value] < SHOULD_BE_ON_FREELIST - 1
  {
    var h := Invariant(s);
    assert h.list[0] == s.head.value;
    assert RoleOk(s, h, s.head.value);
    HoldersBounds(s.threads, s.head.value);
  }

  /** What is left of the walk, or is new in it. */
  function Walked(s: State): seq<Node> { Walk(s.next, s.head, |s.refs|) }

  lemma WalkStartsAtHead(s: State)
    requires Reachable(Init, Next, s)
    ensures Walked(s) == [] <==> s.head == None
    ensures s.head.Some? ==> Walked(s)[0] == s.head.value
  {
    var h := Invariant(s);
    WalkIsWholeList(s, h);
  }

  /** A list that begins after the first node of another, or before it. */
  lemma WalkAfter(s: State, s': State)
    requires Reachable(Init, Next, s) && Reachable(Init, Next, s') && s.head.Some? && s.head.value < |s.next|
    requires s'.next == s.next && s'.head == s.next[s.head.value]
    ensures Walked(s) != [] && Walked(s') == Walked(s)[1..]
  {
    var h := Invariant(s);
    var h' := Invariant(s');
    WalkIsWholeList(s, h);
    WalkIsWholeList(s', h');
    LinkedPop(s.head, s.next, h.list);
    SameLists(s'.head, s'.next, h'.list, h.list[1..]);
  }

  lemma {:induction false} SameLists(head: Option<Node>, next: seq<Option<Node>>, a: seq<Node>, b: seq<Node>)
    requires Linked(head, next, a) && Linked(head, next, b)
    ensures a == b
    decreases |a|
  {
    if a != [] && b != [] {
      LinkedPop(head, next, a);
      LinkedPop(head, next, b);
      SameLists(next[a[0]], next, a[1..], b[1..]);
      assert a == [a[0]] + a[1..] && b == [b[0]] + b[1..];
    }
  }

  /**
   However the others were stopped, a `try_get` that runs alone takes the first node of the list, and
   comes away with nothing only from an empty list.
   */
  lemma GetAlone(s: State, t: nat) returns (k: nat, s': State)
    requires Reachable(Init, Next, s) && Enabled(s, StartGet(t))
    ensures WellFormed(s) && StepsAlone(Apply(s, StartGet(t)), t, k, s') && s'.threads == s.threads
    ensures if Walked(s) == [] then s' == s
            else s'.owned == s.owned + {Walked(s)[0]} && Walked(s)[0] !in s.owned && Walked(s') == Walked(s)[1..]
  {
    hide StepsAlone, Walked, Next, WellFormed;
    WalkStartsAtHead(s);
    var s0 := BeginsGet(s, t);
    var s1 := GoOn(s0, t);
    assert s1.threads == s.threads[t := Loop(s.head)];
    if s.head == None {
      k, s' := 1, s1;
      assert s1.threads == s.threads;
      NoSteps(s1, t);
    } else {
      HeadIsListed(s);
      k, s' := TakesHead(s, s1, t);
      WalkAfter(s, s');
    }
    StepFirst(s0, t, s1, k - 1, s');
  }

  lemma BeginsGet(s: State, t: nat) returns (s0: State)
    requires Reachable(Init, Next, s) && Enabled(s, StartGet(t))
    ensures WellFormed(s) && s0 == Apply(s, StartGet(t)) == s.(threads := s.threads[t := LoadHead]) && Reachable(Init, Next, s0)
  {
    var h := Invariant(s);
    s0 := Apply(s, StartGet(t));
    Extend(Init, Next, s, StartGet(t), s0);
  }

  lemma TakesHead(s: State, s1: State, t: nat) returns (k: nat, s': State)
    requires Reachable(Init, Next, s) && Reachable(Init, Next, s1) && s.head.Some? && t < |s.threads| && s.threads[t] == Idle
    requires s1 == s.(threads := s.threads[t := LoadRefs(s.head.value)])
    ensures k > 0 && StepsAlone(s1, t, k - 1, s') && s'.threads == s.threads && Reachable(Init, Next, s')
    ensures s.head.value < |s.next| && s'.owned == s.owned + {s.head.value} && s'.next == s.next && s'.head == s.next[s.head.value]
  {
    hide StepsAlone, Next, WellFormed;
    HeadIsListed(s);
    var n := s.head.value;
    var s2 := GoOn(s1, t);
    assert s2.threads[t] == CasRefs(n, s.refs[n]);
    var s3 := GoOn(s2, t);
    assert s3.threads[t] == LoadNext(n);
    var s4 := GoOn(s3, t);
    assert s4.threads[t] == CasHead(n, s.next[n]);
    var s5 := GoOn(s4, t);
    assert s5.threads[t] == DropTwo(n);
    s' := GoOn(s5, t);
    assert s'.threads == s.threads;
    k := 6;
    NoSteps(s', t);
    StepFirst(s5, t, s', 0, s');
    StepFirst(s4, t, s5, 1, s');
    StepFirst(s3, t, s4, 2, s');
    StepFirst(s2, t, s3, 3, s');
    StepFirst(s1, t, s2, 4, s');
  }

  /**
   An `add` that runs alone puts the node in front of the list, unless some stopped thread still counts
   a reference on it; then the node waits for the last of those.
   */
  lemma AddAlone(s: State, t: nat, n: Node) returns (k: nat, s': State)
    requires Reachable(Init, Next, s) && Enabled(s, StartAdd(t, n))
    ensures WellFormed(s) && StepsAlone(Apply(s, StartAdd(t, n)), t, k, s') && s'.threads == s.threads && s'.owned == s.owned - {n}
    ensures Walked(s') == if Holders(s.threads, n) == 0 then [n] + Walked(s) else Walked(s)
  {
    var h := Invariant(s);
    assert RoleOk(s, h, n);
    HoldersBounds(s.threads, n);
    var s0 := Apply(s, StartAdd(t, n));
    Extend(Init, Next, s, StartAdd(t, n), s0);
    if s.refs[n] != 0 {
      k, s' := 0, s0;
      assert s0.threads == s.threads;
    } else {
      k, s' := PutsAlone(s0, t, n);
      assert s'.threads == s.threads;
      assert s'.next[n] == s.head;
      WalkBefore(s, s', n);
    }
  }

  lemma PutsAlone(s: State, t: nat, n: Node) returns (k: nat, s': State)
    requires Reachable(Init, Next, s) && t < |s.threads| && s.threads[t] == PutLoadHead(n, ReturnFromAdd)
    requires n < |s.next| == |s.refs|
    ensures StepsAlone(s, t, k, s') && Reachable(Init, Next, s')
    ensures s'.threads == s.threads[t := Idle] && s'.owned == s.owned && s'.next == s.next[n := s.head] && s'.head == Some(n)
    ensures |s'.refs| == |s.refs|
  {
    hide StepsAlone, Next, WellFormed;
    var s1 := GoOn(s, t);
    var s2 := GoOn(s1, t);
    var s3 := GoOn(s2, t);
    s' := GoOn(s3, t);
    k := 4;
    NoSteps(s', t);
    StepFirst(s3, t, s', 0, s');
    StepFirst(s2, t, s3, 1, s');
    StepFirst(s1, t, s2, 2, s');
    StepFirst(s, t, s1, 3, s');
  }

  lemma WalkBefore(s: State, s': State, n: Node)
    requires Reachable(Init, Next, s) && Reachable(Init, Next, s') && n < |s.next| && |s'.refs| == |s.refs|
    requires n in s.owned && s'.head == Some(n) && s'.next == s.next[n := s.head]
    ensures Walked(s') == [n] + Walked(s)
  {
    var h := Invariant(s);
    var h' := Invariant(s');
    WalkIsWholeList(s, h);
    WalkIsWholeList(s', h');
    assert RoleOk(s, h, n);
    LinkedElsewhere(s.head, s.next, h.list, n, s.head);
    LinkedPush(s.head, s'.next, h.list, n);
    SameLists(s'.head, s'.next, h'.list, [n] + h.list);
  }

  lemma LinkedElsewhere(head: Option<Node>, next: seq<Option<Node>>, list: seq<Node>, n: Node, p: Option<Node>)
    requires Linked(head, next, list) && n !in list && n < |next|
    ensures Linked(head, next[n := p], list)
  {
  }

  // ---------- Coming away with nothing ----------

  predicate Begins(e: Event, t: nat) { e.thread == t && !e.Advance? }

  /** Event `m` is the last one before `n` by which thread `t` begins a call. */
  ghost predicate BeganAt(events: seq<Event>, n: nat, t: nat, m: nat) {
    m < n <= |events| && Begins(events[m], t) && forall k :: m < k < n ==> !Begins(events[k], t)
  }

  /** After event `m` and before event `n` thread `t` read the head when there was none. */
  ghost predicate SawNothing(states: seq<State>, events: seq<Event>, m: nat, n: nat, t: nat) {
    exists k :: m < k < n && k < |events| && k < |states| && events[k] == Advance(t) && t < |states[k].threads|
      && ReadsHead(states[k].threads[t]) && states[k].head == None
  }

  predicate ReadsHead(pc: Pc) { pc.LoadHead? || pc.CasHead? }

  predicate Resumes(pc: Pc) { pc.PutLoadHead? || pc.PutStoreNext? || pc.PutStoreRefs? || pc.PutCasHead? || pc.PutGiveUp? }

  /** What a thread has in mind of a call of `try_get`, and whether it knows of an empty list. */
  predicate Getting(pc: Pc) { pc != Idle && (Resumes(pc) ==> pc.resume.Retry?) }

  predicate KnowsNothing(pc: Pc) {
    (pc.DropOne? && pc.newHead == None) || (Resumes(pc) && pc.resume == Retry(None))
  }

  lemma {:induction false} OnceEmpty(states: seq<State>, events: seq<Event>, m: nat, n: nat, t: nat)
    requires Run(Init, Next, states, events) && BeganAt(events, n, t, m) && events[m] == StartGet(t)
    ensures t < |states[n].threads| && (states[n].threads[t] != Idle ==> Getting(states[n].threads[t]))
    ensures KnowsNothing(states[n].threads[t]) ==> SawNothing(states, events, m, n, t)
    decreases n
  {
    hide Init, Getting, KnowsNothing, SawNothing, Apply;
    var s, e, s' := states[n - 1], events[n - 1], states[n];
    assert Next(s, e, s');
    if n > m + 1 {
      OnceEmpty(states, events, m, n - 1, t);
      assert !Begins(e, t);
      if e.thread == t {
        OwnStep(states, events, m, n - 1, t);
      } else {
        SawStill(states, events, m, n - 1, t);
        OthersLeave(s, e, t);
      }
    } else {
      GetBegins(s, t);
    }
  }

  lemma OwnStep(states: seq<State>, events: seq<Event>, m: nat, n: nat, t: nat)
    requires m < n < |events| && |states| == |events| + 1 && events[n] == Advance(t) && Next(states[n], events[n], states[n + 1])
    requires t < |states[n].threads| && (states[n].threads[t] != Idle ==> Getting(states[n].threads[t]))
    requires KnowsNothing(states[n].threads[t]) ==> SawNothing(states, events, m, n, t)
    ensures t < |states[n + 1].threads| && (states[n + 1].threads[t] != Idle ==> Getting(states[n + 1].threads[t]))
    ensures KnowsNothing(states[n + 1].threads[t]) ==> SawNothing(states, events, m, n + 1, t)
  {
    hide Move, KnowsNothing, Getting;
    EmptyStep(states[n], t);
    assert |Move(states[n], t).threads| == |states[n].threads| by {
      SameThreads(states[n], t);
    }
    if ReadsHead(states[n].threads[t]) && states[n].head == None {
      assert SawNothing(states, events, m, n + 1, t);
    }
  }

  lemma SameThreads(s: State, t: nat)
    requires WellFormed(s) && t < |s.threads| && s.threads[t] != Idle
    ensures |Move(s, t).threads| == |s.threads|
  {
  }

  lemma SawStill(states: seq<State>, events: seq<Event>, m: nat, n: nat, t: nat)
    ensures SawNothing(states, events, m, n, t) ==> SawNothing(states, events, m, n + 1, t)
  {
  }

  lemma OthersLeave(s: State, e: Event, t: nat)
    requires WellFormed(s) && Enabled(s, e) && t < |s.threads| && e.thread != t
    ensures t < |Apply(s, e).threads| && Apply(s, e).threads[t] == s.threads[t]
  {
  }

  lemma GetBegins(s: State, t: nat)
    requires WellFormed(s) && Enabled(s, StartGet(t))
    ensures var s' := Apply(s, StartGet(t)); t < |s'.threads| && Getting(s'.threads[t]) && !KnowsNothing(s'.threads[t])
  {
  }

  /** What a step of a `try_get` can come to know. */
  lemma EmptyStep(s: State, t: nat)
    requires WellFormed(s) && t < |s.threads| && Getting(s.threads[t])
    ensures var pc, s' := s.threads[t], Move(s, t);
      && (s'.threads[t] != Idle ==> Getting(s'.threads[t]))
      && (KnowsNothing(s'.threads[t]) ==> KnowsNothing(pc) || (ReadsHead(pc) && s.head == None))
      && (s'.threads[t] == Idle ==> pc.DropTwo? || KnowsNothing(pc) || (ReadsHead(pc) && s.head == None))
      && s'.owned == s.owned + if pc.DropTwo? then {pc.node} else {}
  {
  }

  /**
   A `try_get` that ends has been handed a node, or it came upon an empty list: when it loaded the head,
   or when its compare-and-swap failed and told it the head.
   */
  lemma EmptyHandedOnlyWhenEmpty(states: seq<State>, events: seq<Event>, m: nat, n: nat, t: nat)
    requires Run(Init, Next, states, events) && n < |events| && BeganAt(events, n, t, m) && events[m] == StartGet(t)
    requires events[n] == Advance(t) && t < |states[n + 1].threads| && states[n + 1].threads[t] == Idle
    ensures || (exists x :: x !in states[n].owned && states[n + 1].owned == states[n].owned + {x})
            || (states[n + 1].owned == states[n].owned && SawNothing(states, events, m, n + 1, t))
  {
    OnceEmpty(states, events, m, n, t);
    assert Next(states[n], events[n], states[n + 1]);
    EmptyStep(states[n], t);
    OnTheWay(Init, Next, states, events, n);
    var pc := states[n].threads[t];
    if pc.DropTwo? {
      var h := Invariant(states[n]);
      assert ThreadOk(states[n], h, t) && RoleOk(states[n], h, pc.node);
    } else if KnowsNothing(pc) {
      var k :| m < k < n && k < |events| && k < |states| && events[k] == Advance(t) && t < |states[k].threads|
        && ReadsHead(states[k].threads[t]) && states[k].head == None;
    }
  }
}
