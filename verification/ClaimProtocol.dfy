/**
 The optimistic claim protocol of one sub-queue: one producer publishes elements by advancing
 `tailIndex`, any number of consumers claim them through `dequeueOptimisticCount`,
 `dequeueOvercommit` and `headIndex`.

 One event is one atomic access of one thread with the local code around it.  A single dequeue is
 the bulk dequeue with `max == 1`: with one unit the bulk arithmetic is the single comparison.
 The counters are unbounded here; the module WordCounters takes them to machine words.
 */
module ClaimProtocol {
  import opened Numbers
  import opened Runs

  /** The program counter of a consumer, with its live locals. */
  datatype Pc =
    | Idle
    | LoadOvercommit(max: nat, tail: int)
    | LoadOptimistic(max: nat, tail: int, overcommit: int)
    | Reserve(desired: nat, overcommit: int)                  // about to add to dequeueOptimisticCount
    | LoadTail(desired: nat, overcommit: int, mine: int)      // reserved positions [mine, mine + desired)
    | GiveBack(mine: int, actual: nat, excess: nat)           // about to add excess to dequeueOvercommit
    | Claim(actual: nat)                                      // about to add to headIndex
    | Holding(first: int, count: nat)                         // owns the indices [first, first + count)

  datatype State = State(tail: int, head: int, optimistic: int, overcommit: int, threads: seq<Pc>)

  datatype Event =
    | Publish(count: nat)                 // the producer stores the new tail index
    | StartDequeue(thread: nat, max: nat) // loads tailIndex
    | Advance(thread: nat)                // the next atomic access of a running dequeue

  predicate Init(s: State) {
    s.tail == s.head == s.optimistic == s.overcommit == 0
    && forall t :: 0 <= t < |s.threads| ==> s.threads[t] == Idle
  }

  predicate Enabled(s: State, e: Event) {
    match e
    case Publish(_) => true
    case StartDequeue(t, max) => t < |s.threads| && s.threads[t] == Idle && max > 0
    case Advance(t) => t < |s.threads| && s.threads[t] != Idle
  }

  function Goto(s: State, t: nat, pc: Pc): State
    requires t < |s.threads|
  {
    s.(threads := s.threads[t := pc])
  }

  function Apply(s: State, e: Event): State
    requires Enabled(s, e)
  {
    match e
    case Publish(n) => s.(tail := s.tail + n)
    case StartDequeue(t, max) => Goto(s, t, LoadOvercommit(max, s.tail))
    case Advance(t) => Move(s, t)
  }

  function Move(s: State, t: nat): State
    requires t < |s.threads| && s.threads[t] != Idle
  {
    match s.threads[t]
    case LoadOvercommit(max, tail) => Goto(s, t, LoadOptimistic(max, tail, s.overcommit))
    case LoadOptimistic(max, tail, over) =>
      var desired := tail - (s.optimistic - over);
      Goto(s, t, if desired > 0 then Reserve(Min(desired, max), over) else Idle)
    case Reserve(desired, over) =>
      Goto(s.(optimistic := s.optimistic + desired), t, LoadTail(desired, over, s.optimistic))
    case LoadTail(desired, over, mine) =>
      var room := s.tail - (mine - over);
      Goto(s, t,
           if room <= 0 then GiveBack(mine, 0, desired)
           else if room < desired then GiveBack(mine, room, desired - room)
           else Claim(desired))
    case GiveBack(_, actual, excess) =>
      Goto(s.(overcommit := s.overcommit + excess), t, if actual == 0 then Idle else Claim(actual))
    case Claim(actual) => Goto(s.(head := s.head + actual), t, Holding(s.head, actual))
    case Holding(_, _) => Goto(s, t, Idle)
  }

  predicate Next(s: State, e: Event, s': State) {
    Enabled(s, e) && s' == Apply(s, e)
  }

  // ---------- Sums over the threads ----------

  /** Units a thread added to the optimistic count and not yet to the head or the overcommit. */
  function InFlight(pc: Pc): nat {
    match pc
    case LoadTail(desired, _, _) => desired
    case GiveBack(_, actual, excess) => actual + excess
    case Claim(actual) => actual
    case _ => 0
  }

  /** Units a thread has made sure of and will add to the head. */
  function Assured(pc: Pc): nat {
    match pc
    case GiveBack(_, actual, _) => actual
    case Claim(actual) => actual
    case _ => 0
  }

  function TotalInFlight(threads: seq<Pc>): nat {
    if threads == [] then 0 else InFlight(threads[0]) + TotalInFlight(threads[1..])
  }

  function TotalAssured(threads: seq<Pc>): nat {
    if threads == [] then 0 else Assured(threads[0]) + TotalAssured(threads[1..])
  }

  lemma {:induction false} TotalsUpdate(threads: seq<Pc>, t: nat, pc: Pc)
    requires t < |threads|
    ensures TotalInFlight(threads[t := pc]) == TotalInFlight(threads) - InFlight(threads[t]) + InFlight(pc)
    ensures TotalAssured(threads[t := pc]) == TotalAssured(threads) - Assured(threads[t]) + Assured(pc)
  {
    if t == 0 {
      assert threads[t := pc][1..] == threads[1..];
    } else {
      assert threads[t := pc][1..] == threads[1..][t - 1 := pc];
      TotalsUpdate(threads[1..], t - 1, pc);
    }
  }

  // ---------- The invariant ----------

  /** What becomes of a position of the optimistic count. */
  datatype Fate = Open(t: nat) | Taken | Owed(t: nat) | Returned

  /**
   The history a proof carries: the fate of every position of the optimistic count, in the order
   the positions were handed out, and the thread each head index was issued to.
   */
  datatype History = History(fates: seq<Fate>, issued: seq<nat>)

  function Count(fates: seq<Fate>, f: Fate): nat {
    if fates == [] then 0
    else Count(fates[..|fates| - 1], f) + if fates[|fates| - 1] == f then 1 else 0
  }

  /** The positions [from, from + n) all have fate `f`. */
  ghost predicate Stretch(fates: seq<Fate>, from: int, n: nat, f: Fate) {
    0 <= from && from + n <= |fates| && forall i :: from <= i < from + n ==> fates[i] == f
  }

  ghost predicate ThreadOk(s: State, h: History, t: nat)
    requires t < |s.threads|
  {
    match s.threads[t]
    case LoadOptimistic(max, _, over) => max > 0 && over <= s.overcommit
    case LoadOvercommit(max, _) => max > 0
    case Reserve(desired, over) => desired > 0 && over <= s.overcommit
    case LoadTail(desired, over, mine) =>
      && desired > 0
      && Stretch(h.fates, mine, desired, Open(t)) && over <= Count(h.fates[..mine], Returned)
    case GiveBack(mine, actual, excess) => mine >= 0 && Stretch(h.fates, mine + actual, excess, Owed(t))
    case Claim(actual) => actual > 0
    case Holding(first, count) =>
      && 0 <= first && 0 < count && first + count <= |h.issued|
      && forall i :: first <= i < first + count ==> h.issued[i] == t
    case Idle => true
  }

  /** Enough was published for the taken position `p` and all those before it not given back. */
  ghost predicate Covered(s: State, fates: seq<Fate>, p: int)
    requires 0 <= p < |fates|
  {
    p + 1 - Count(fates[..p + 1], Returned) <= s.tail
  }

  ghost predicate Inv(s: State, h: History) {
    && |h.fates| == s.optimistic
    && |h.issued| == s.head
    && Count(h.fates, Returned) == s.overcommit
    && Count(h.fates, Taken) == s.head + TotalAssured(s.threads)
    && s.optimistic == s.head + s.overcommit + TotalInFlight(s.threads)
    && 0 <= s.tail
    && (forall t :: 0 <= t < |s.threads| ==> ThreadOk(s, h, t))
    && (forall p :: 0 <= p < |h.fates| && h.fates[p] == Taken ==> Covered(s, h.fates, p))
  }

  // ---------- Counting fates ----------

  lemma {:induction false} CountUpdate(fates: seq<Fate>, i: nat, f: Fate, g: Fate)
    requires i < |fates|
    ensures Count(fates[i := f], g)
         == Count(fates, g) - (if fates[i] == g then 1 else 0) + (if f == g then 1 else 0)
  {
    var last := |fates| - 1;
    if i == last {
      assert fates[i := f][..last] == fates[..last];
    } else {
      assert fates[i := f][..last] == fates[..last][i := f];
      CountUpdate(fates[..last], i, f, g);
    }
  }

  /** The fates with the stretch [from, from + n) set to `f`. */
  ghost function Paint(fates: seq<Fate>, from: nat, n: nat, f: Fate): (painted: seq<Fate>)
    requires from + n <= |fates|
    ensures |painted| == |fates|
    ensures forall i :: 0 <= i < |fates| ==> painted[i] == if from <= i < from + n then f else fates[i]
    decreases n
  {
    if n == 0 then fates else Paint(fates, from, n - 1, f)[from + n - 1 := f]
  }

  lemma {:induction false} PaintCount(fates: seq<Fate>, from: nat, n: nat, was: Fate, f: Fate, g: Fate)
    requires Stretch(fates, from, n, was)
    ensures Count(Paint(fates, from, n, f), g)
         == Count(fates, g) - (if was == g then n else 0) + (if f == g then n else 0)
    decreases n
  {
    if n > 0 {
      PaintCount(fates, from, n - 1, was, f, g);
      CountUpdate(Paint(fates, from, n - 1, f), from + n - 1, f, g);
    }
  }

  lemma {:induction false} CountAppend(fates: seq<Fate>, n: nat, f: Fate, g: Fate)
    ensures Count(fates + seq(n, _ => f), g) == Count(fates, g) + if f == g then n else 0
    decreases n
  {
    if n == 0 {
      assert fates + seq(n, _ => f) == fates;
    } else {
      assert (fates + seq(n, _ => f))[..|fates| + n - 1] == fates + seq(n - 1, _ => f);
      CountAppend(fates, n - 1, f, g);
    }
  }

  lemma {:induction false} CountMonotone(a: seq<Fate>, b: seq<Fate>, f: Fate)
    requires |a| <= |b| && forall i :: 0 <= i < |a| && a[i] == f ==> b[i] == f
    ensures Count(a, f) <= Count(b, f)
    decreases |b|
  {
    if b != [] {
      var last := |b| - 1;
      CountMonotone(if |a| == |b| then a[..last] else a, b[..last], f);
    }
  }

  /** The taken positions up to and including the last one are covered, so they all are. */
  lemma {:induction false} TakenCovered(s: State, fates: seq<Fate>)
    requires 0 <= s.tail
    requires forall p :: 0 <= p < |fates| && fates[p] == Taken ==> Covered(s, fates, p)
    ensures Count(fates, Taken) <= s.tail
    decreases |fates|
  {
    if fates != [] {
      var last := |fates| - 1;
      if fates[last] == Taken {
        assert Covered(s, fates, last) && fates[..last + 1] == fates;
        TwoCounts(fates);
      } else {
        forall p | 0 <= p < last && fates[..last][p] == Taken ensures Covered(s, fates[..last], p) {
          assert Covered(s, fates, p) && fates[..last][..p + 1] == fates[..p + 1];
        }
        TakenCovered(s, fates[..last]);
      }
    }
  }

  lemma {:induction false} TwoCounts(fates: seq<Fate>)
    ensures Count(fates, Taken) + Count(fates, Returned) <= |fates|
  {
    if fates != [] {
      TwoCounts(fates[..|fates| - 1]);
    }
  }

  // ---------- Every step keeps the invariant ----------

  /**
   The frame of a step that changes fates only from open or owed by thread `t`, appends fates, and
   never lowers the tail or the overcommit: the other threads and the covered positions stay so.
   */
  lemma Frame(s: State, h: History, s': State, h': History, t: nat)
    requires Inv(s, h) && t < |s.threads| == |s'.threads| && s'.threads == s.threads[t := s'.threads[t]]
    requires s.tail <= s'.tail && s.overcommit <= s'.overcommit
    requires |h.fates| <= |h'.fates| && |h.issued| <= |h'.issued| && h'.issued[..|h.issued|] == h.issued
    requires forall i :: 0 <= i < |h.fates| && h.fates[i] != Open(t) && h.fates[i] != Owed(t) ==> h'.fates[i] == h.fates[i]
    requires forall i :: 0 <= i < |h'.fates| && h'.fates[i] == Taken ==>
               (i < |h.fates| && h.fates[i] == Taken) || Covered(s', h'.fates, i)
    requires ThreadOk(s', h', t)
    ensures forall u :: 0 <= u < |s'.threads| ==> ThreadOk(s', h', u)
    ensures forall p :: 0 <= p < |h'.fates| && h'.fates[p] == Taken ==> Covered(s', h'.fates, p)
  {
    forall u | 0 <= u < |s.threads| ensures ThreadOk(s', h', u) {
      if u != t {
        assert ThreadOk(s, h, u) && s'.threads[u] == s.threads[u];
        if s.threads[u].LoadTail? {
          CountMonotone(h.fates[..s.threads[u].mine], h'.fates[..s.threads[u].mine], Returned);
        }
        if s.threads[u].Holding? {
          assert forall i :: 0 <= i < |h.issued| ==> h'.issued[i] == h'.issued[..|h.issued|][i];
        }
      }
    }
    forall p | 0 <= p < |h'.fates| && h'.fates[p] == Taken ensures Covered(s', h'.fates, p) {
      if p < |h.fates| && h.fates[p] == Taken {
        assert Covered(s, h.fates, p);
        CountMonotone(h.fates[..p + 1], h'.fates[..p + 1], Returned);
      }
    }
  }

  lemma LookKeeps(s: State, h: History, e: Event)
    requires Inv(s, h) && Enabled(s, e)
    requires e.Publish? || e.StartDequeue?
             || (var pc := s.threads[e.thread]; pc.LoadOvercommit? || pc.LoadOptimistic? || pc.Holding?)
    ensures Inv(Apply(s, e), h)
  {
    var s' := Apply(s, e);
    if e.Publish? {
      forall t | 0 <= t < |s'.threads| ensures ThreadOk(s', h, t) {
        assert ThreadOk(s, h, t);
      }
      forall p | 0 <= p < |h.fates| && h.fates[p] == Taken ensures Covered(s', h.fates, p) {
        assert Covered(s, h.fates, p);
      }
    } else {
      TotalsUpdate(s.threads, e.thread, s'.threads[e.thread]);
      assert ThreadOk(s, h, e.thread);
      Frame(s, h, s', h, e.thread);
    }
  }

  lemma ReserveKeeps(s: State, h: History, t: nat) returns (h': History)
    requires Inv(s, h) && Enabled(s, Advance(t)) && s.threads[t].Reserve?
    ensures Inv(Apply(s, Advance(t)), h')
  {
    var s' := Apply(s, Advance(t));
    var n := s.threads[t].desired;
    assert ThreadOk(s, h, t);
    h' := h.(fates := h.fates + seq(n, _ => Open(t)));
    TotalsUpdate(s.threads, t, s'.threads[t]);
    CountAppend(h.fates, n, Open(t), Returned);
    CountAppend(h.fates, n, Open(t), Taken);
    assert h'.fates[..s.optimistic] == h.fates;
    Frame(s, h, s', h', t);
  }

  /** The decision: of the reserved positions the first `actual` are taken, the others are owed back. */
  lemma Decide(fates: seq<Fate>, mine: nat, actual: nat, excess: nat, t: nat) returns (fates': seq<Fate>)
    requires Stretch(fates, mine, actual + excess, Open(t))
    ensures |fates'| == |fates|
    ensures forall i :: 0 <= i < |fates| ==>
              fates'[i] == if mine <= i < mine + actual then Taken
                           else if mine + actual <= i < mine + actual + excess then Owed(t)
                           else fates[i]
    ensures Count(fates', Returned) == Count(fates, Returned)
    ensures Count(fates', Taken) == Count(fates, Taken) + actual
  {
    var mid := Paint(fates, mine, actual, Taken);
    fates' := Paint(mid, mine + actual, excess, Owed(t));
    PaintCount(fates, mine, actual, Open(t), Taken, Returned);
    PaintCount(fates, mine, actual, Open(t), Taken, Taken);
    PaintCount(mid, mine + actual, excess, Open(t), Owed(t), Returned);
    PaintCount(mid, mine + actual, excess, Open(t), Owed(t), Taken);
  }

  lemma DecideKeeps(s: State, h: History, t: nat) returns (h': History)
    requires Inv(s, h) && Enabled(s, Advance(t)) && s.threads[t].LoadTail?
    ensures Inv(Apply(s, Advance(t)), h')
  {
    var s' := Apply(s, Advance(t));
    var LoadTail(desired, over, mine) := s.threads[t];
    assert ThreadOk(s, h, t);
    var room := s.tail - (mine - over);
    var actual: nat := if room <= 0 then 0 else if room < desired then room else desired;
    var fates := Decide(h.fates, mine, actual, desired - actual, t);
    h' := h.(fates := fates);
    TotalsUpdate(s.threads, t, s'.threads[t]);
    forall i | 0 <= i < |fates| && fates[i] == Taken && h.fates[i] != Taken ensures Covered(s', fates, i) {
      assert mine <= i < mine + actual;
      CountMonotone(h.fates[..mine], fates[..i + 1], Returned);
    }
    Frame(s, h, s', h', t);
  }

  lemma Settle(fates: seq<Fate>, from: nat, excess: nat, t: nat) returns (fates': seq<Fate>)
    requires Stretch(fates, from, excess, Owed(t))
    ensures |fates'| == |fates|
    ensures forall i :: 0 <= i < |fates| ==>
              fates'[i] == if from <= i < from + excess then Returned else fates[i]
    ensures Count(fates', Returned) == Count(fates, Returned) + excess
    ensures Count(fates', Taken) == Count(fates, Taken)
  {
    fates' := Paint(fates, from, excess, Returned);
    PaintCount(fates, from, excess, Owed(t), Returned, Returned);
    PaintCount(fates, from, excess, Owed(t), Returned, Taken);
  }

  lemma GiveBackKeeps(s: State, h: History, t: nat) returns (h': History)
    requires Inv(s, h) && Enabled(s, Advance(t)) && s.threads[t].GiveBack?
    ensures Inv(Apply(s, Advance(t)), h')
  {
    var s' := Apply(s, Advance(t));
    var GiveBack(mine, actual, excess) := s.threads[t];
    assert ThreadOk(s, h, t);
    var fates := Settle(h.fates, mine + actual, excess, t);
    h' := h.(fates := fates);
    TotalsUpdate(s.threads, t, s'.threads[t]);
    Frame(s, h, s', h', t);
  }

  lemma ClaimKeeps(s: State, h: History, t: nat) returns (h': History)
    requires Inv(s, h) && Enabled(s, Advance(t)) && s.threads[t].Claim?
    ensures Inv(Apply(s, Advance(t)), h')
  {
    var s' := Apply(s, Advance(t));
    assert ThreadOk(s, h, t);
    h' := h.(issued := h.issued + seq(s.threads[t].actual, _ => t));
    TotalsUpdate(s.threads, t, s'.threads[t]);
    Frame(s, h, s', h', t);
  }

  lemma StepKeeps(s: State, h: History, e: Event) returns (h': History)
    requires Inv(s, h) && Enabled(s, e)
    ensures Inv(Apply(s, e), h')
  {
    if e.Advance? {
      match s.threads[e.thread]
      case Reserve(_, _) => h' := ReserveKeeps(s, h, e.thread);
      case LoadTail(_, _, _) => h' := DecideKeeps(s, h, e.thread);
      case GiveBack(_, _, _) => h' := GiveBackKeeps(s, h, e.thread);
      case Claim(_) => h' := ClaimKeeps(s, h, e.thread);
      case _ => LookKeeps(s, h, e); h' := h;
    } else {
      LookKeeps(s, h, e);
      h' := h;
    }
  }

  // ---------- What holds in every reachable state ----------

  ghost predicate HasHistory(s: State) {
    exists h: History :: Inv(s, h)
  }

  lemma InitialInv(s: State)
    requires Init(s)
    ensures HasHistory(s)
  {
    NoneInFlight(s.threads);
    assert Inv(s, History([], []));
  }

  lemma {:induction false} NoneInFlight(threads: seq<Pc>)
    requires forall t :: 0 <= t < |threads| ==> InFlight(threads[t]) == 0
    ensures TotalInFlight(threads) == TotalAssured(threads) == 0
  {
    if threads != [] {
      NoneInFlight(threads[1..]);
    }
  }

  lemma StepKeepsHistory(s: State, e: Event, s': State)
    requires HasHistory(s) && Next(s, e, s')
    ensures HasHistory(s')
  {
    var h: History :| Inv(s, h);
    var h' := StepKeeps(s, h, e);
  }

  lemma Invariant(s: State) returns (h: History)
    requires Reachable(Init, Next, s)
    ensures Inv(s, h)
  {
    forall a: State | Init(a) ensures HasHistory(a) {
      InitialInv(a);
    }
    forall a: State, e: Event, b: State | HasHistory(a) && Next(a, e, b) ensures HasHistory(b) {
      StepKeepsHistory(a, e, b);
    }
    Induction(Init, Next, HasHistory, s);
    h :| Inv(s, h);
  }

  lemma HeadBound(s: State)
    requires HasHistory(s)
    ensures 0 <= s.head <= s.head + TotalAssured(s.threads) <= s.tail
  {
    var h: History :| Inv(s, h);
    TakenCovered(s, h.fates);
  }

  lemma Tickets(s: State, t: nat, u: nat, i: int)
    requires HasHistory(s)
    requires t < |s.threads| && s.threads[t].Holding? && s.threads[t].first <= i < s.threads[t].first + s.threads[t].count
    ensures 0 <= i < s.head <= s.tail
    ensures u < |s.threads| && s.threads[u].Holding? && s.threads[u].first <= i < s.threads[u].first + s.threads[u].count
            ==> u == t
  {
    HeadBound(s);
    var h: History :| Inv(s, h);
    assert ThreadOk(s, h, t) && h.issued[i] == t;
    if u < |s.threads| {
      assert ThreadOk(s, h, u);
    }
  }

  lemma TicketBounds(s: State, t: nat)
    requires HasHistory(s) && t < |s.threads| && s.threads[t].Holding?
    ensures 0 <= s.threads[t].first < s.threads[t].first + s.threads[t].count <= s.head
  {
    var h: History :| Inv(s, h);
    assert ThreadOk(s, h, t);
  }

  /**
   The head, with everything consumers have made sure of but not yet added to it, never passes the
   tail: a consumer that saw room finds an element published at every index it claims.
   */
  lemma HeadStaysBelowTail(s: State)
    requires Reachable(Init, Next, s)
    ensures 0 <= s.head <= s.head + TotalAssured(s.threads) <= s.tail
  {
    var h := Invariant(s);
    HeadBound(s);
  }

  /** The accounting: every optimistic unit is in the head, given back as overcommit, or in flight. */
  lemma UnitsAreConserved(s: State)
    requires Reachable(Init, Next, s)
    ensures s.optimistic == s.head + s.overcommit + TotalInFlight(s.threads)
    ensures 0 <= s.overcommit
  {
    var h := Invariant(s);
  }

  /** A claimed index lies below the head and is held by exactly one consumer. */
  lemma ClaimsAreExclusive(s: State, t: nat, u: nat, i: int)
    requires Reachable(Init, Next, s)
    requires t < |s.threads| && s.threads[t].Holding? && s.threads[t].first <= i < s.threads[t].first + s.threads[t].count
    ensures 0 <= i < s.head <= s.tail
    ensures u < |s.threads| && s.threads[u].Holding? && s.threads[u].first <= i < s.threads[u].first + s.threads[u].count
            ==> u == t
  {
    var h := Invariant(s);
    Tickets(s, t, u, i);
  }

  /** Indices are issued in order: a claim takes the next ones after all the indices issued before it. */
  lemma ClaimsAreInOrder(s: State, e: Event)
    requires Reachable(Init, Next, s) && Enabled(s, e)
    ensures var s' := Apply(s, e);
      if s'.head != s.head then
        && e.Advance? && s.threads[e.thread].Claim?
        && s'.threads[e.thread] == Holding(s.head, s'.head - s.head) && s.head < s'.head <= s.tail
      else
        forall t :: 0 <= t < |s'.threads| && s'.threads[t].Holding? ==> s'.threads[t] == s.threads[t]
  {
    var h := Invariant(s);
    if e.Advance? {
      assert ThreadOk(s, h, e.thread);
    }
    Extend(Init, Next, s, e, Apply(s, e));
    HeadStaysBelowTail(Apply(s, e));
  }

  // ---------- A dequeue that runs alone ----------

  /** The state after thread `t` takes `n` steps in a row. */
  function Solo(s: State, t: nat, n: nat): State
    requires t < |s.threads|
    decreases n
  {
    if n == 0 || s.threads[t] == Idle then s else Solo(Move(s, t), t, n - 1)
  }

  /**
   A dequeue of at most `max` that meets no interference takes `min(max, available)` elements from
   the head, where `available` discounts what consumers stopped in mid-flight have reserved; with
   nothing available it takes nothing and leaves no trace.
   */
  lemma SoloDequeue(s: State, t: nat, max: nat)
    requires Enabled(s, StartDequeue(t, max))
    ensures var available := s.tail - (s.optimistic - s.overcommit);
      var n := if available <= 0 then 0 else Min(max, available);
      var s' := Solo(Apply(s, StartDequeue(t, max)), t, 5);
      && s' == s.(head := s.head + n, optimistic := s.optimistic + n,
                  threads := s.threads[t := if n == 0 then Idle else Holding(s.head, n)])
  {
    var a := Apply(s, StartDequeue(t, max));
    var b := Move(a, t);
    var c := Move(b, t);
    if c.threads[t] != Idle {
      var d := Move(c, t);
      var e := Move(d, t);
      var f := Move(e, t);
      assert Solo(a, t, 5) == Solo(b, t, 4) == Solo(c, t, 3) == Solo(d, t, 2) == Solo(e, t, 1) == Solo(f, t, 0);
      assert f.threads == s.threads[t := f.threads[t]];
    } else {
      assert Solo(a, t, 5) == Solo(b, t, 4) == Solo(c, t, 3) == c;
      assert c.threads == s.threads;
    }
  }

  /**
   Why a dequeue asks for at least one: a bulk dequeue of nothing, `StartDequeue` with a limit of zero,
   would go on to look up the index at the head although it claims none, and while it does another
   dequeue can claim that very index and release its block.
   */
  lemma DequeueOfNothing(s: State, t: nat, u: nat)
    requires t < |s.threads| && u < |s.threads| && t != u && s.threads[u] == Idle
    requires s.threads[t] == LoadOvercommit(0, s.tail) && s.optimistic - s.overcommit < s.tail
    ensures var looking := Solo(s, t, 5);
      && looking == s.(threads := s.threads[t := Holding(s.head, 0)])
      && var both := Solo(Apply(looking, StartDequeue(u, 1)), u, 5);
      && both.threads[t] == Holding(s.head, 0) && both.threads[u] == Holding(s.head, 1)
  {
    var a := Move(s, t);
    var b := Move(a, t);
    var c := Move(b, t);
    var d := Move(c, t);
    var e := Move(d, t);
    assert Solo(s, t, 5) == Solo(a, t, 4) == Solo(b, t, 3) == Solo(c, t, 2) == Solo(d, t, 1) == Solo(e, t, 0);
    assert e.threads == s.threads[t := Holding(s.head, 0)];
    SoloDequeue(e, u, 1);
  }

  lemma {:induction false} NothingInFlight(threads: seq<Pc>)
    ensures TotalInFlight(threads) == 0 <==> forall t :: 0 <= t < |threads| ==> InFlight(threads[t]) == 0
  {
    if threads != [] {
      NothingInFlight(threads[1..]);
      assert forall t :: 0 < t < |threads| ==> threads[t] == threads[1..][t - 1];
    }
  }

  /**
   What is available is never more than what is there, and it is all of it exactly when no consumer
   has a unit in flight; what is missing is what those consumers have in flight.
   */
  lemma AvailableUnits(s: State)
    requires Reachable(Init, Next, s)
    ensures var available := s.tail - (s.optimistic - s.overcommit);
      && available == s.tail - s.head - TotalInFlight(s.threads)
      && available <= s.tail - s.head
      && (available == s.tail - s.head <==> forall t :: 0 <= t < |s.threads| ==> InFlight(s.threads[t]) == 0)
  {
    UnitsAreConserved(s);
    NothingInFlight(s.threads);
  }
}
