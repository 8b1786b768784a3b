/**
 The CAS-based lock-free free list on which blocks are recycled.

 One event is one atomic step of one thread: an atomic load, store, fetch-add, fetch-sub or
 compare-and-swap together with the purely local code up to the next atomic access.  Threads
 interleave in any order, each thread runs any sequence of `add` and `try_get` calls, and there
 may be any number of threads below the width of the reference count.

 The client contract is the one the list relies on: a node is added only by whoever owns it.
 */
module FreeList {
  import opened Options
  import opened Runs

  type Node = nat

  const SHOULD_BE_ON_FREELIST: nat := 0x8000_0000
  const WORD: nat := 0x1_0000_0000

  /** What a thread goes on with once `add_knowing_refcount_is_zero` returns. */
  datatype Resume = ReturnFromAdd | Retry(head: Option<Node>)

  /** The program counter of a thread, with its live locals. */
  datatype Pc =
    | Idle
      // try_get
    | LoadHead
    | LoadRefs(node: Node)
    | CasRefs(node: Node, refs: nat)
    | LoadNext(node: Node)
    | CasHead(node: Node, next: Option<Node>)
    | DropTwo(node: Node)
    | DropOne(node: Node, newHead: Option<Node>)
      // add_knowing_refcount_is_zero
    | PutLoadHead(node: Node, resume: Resume)
    | PutStoreNext(node: Node, head: Option<Node>, resume: Resume)
    | PutStoreRefs(node: Node, head: Option<Node>, resume: Resume)
    | PutCasHead(node: Node, head: Option<Node>, resume: Resume)
    | PutGiveUp(node: Node, head: Option<Node>, resume: Resume)

  /** `owned` is the set of nodes in the hands of clients. */
  datatype State = State(
    head: Option<Node>,
    refs: seq<nat>,
    next: seq<Option<Node>>,
    owned: set<Node>,
    threads: seq<Pc>)

  datatype Event =
    | StartAdd(thread: nat, node: Node)   // the fetch_add that opens `add`
    | StartGet(thread: nat)               // a call of `try_get`
    | Advance(thread: nat)                // the next atomic step of a running call

  /** All nodes start in the hands of clients: constructed with no references and no successor. */
  ghost predicate Init(s: State) {
    && s.head == None
    && |s.refs| == |s.next|
    && (forall n :: 0 <= n < |s.refs| ==> s.refs[n] == 0 && s.next[n] == None)
    && (forall n :: n in s.owned <==> 0 <= n < |s.refs|)
    && (forall t :: 0 <= t < |s.threads| ==> s.threads[t] == Idle)
    && |s.threads| + 2 < SHOULD_BE_ON_FREELIST
  }

  ghost predicate Enabled(s: State, e: Event) {
    && e.thread < |s.threads|
    && match e
       case StartAdd(t, n) => s.threads[t] == Idle && n in s.owned
       case StartGet(t) => s.threads[t] == Idle
       case Advance(t) => s.threads[t] != Idle
  }

  /** The loop test of `try_get`: with a null head the call returns null. */
  function Loop(head: Option<Node>): Pc {
    if head.None? then Idle else LoadRefs(head.value)
  }

  function AfterPut(resume: Resume): Pc {
    match resume
    case ReturnFromAdd => Idle
    case Retry(head) => Loop(head)
  }

  function Goto(s: State, t: nat, pc: Pc): State
    requires t < |s.threads|
  {
    s.(threads := s.threads[t := pc])
  }

  /** An atomic addition of `delta` to the reference word of `n`, modulo the word size. */
  function AddRefs(s: State, n: Node, delta: int): State
    requires n < |s.refs|
  {
    s.(refs := s.refs[n := (s.refs[n] + delta) % WORD])
  }

  /** Every node a program counter mentions exists. */
  ghost predicate PcInRange(pc: Pc, nodes: nat) {
    match pc
    case Idle => true
    case LoadHead => true
    case LoadRefs(n) => n < nodes
    case CasRefs(n, _) => n < nodes
    case LoadNext(n) => n < nodes
    case CasHead(n, x) => n < nodes && InRange(x, nodes)
    case DropTwo(n) => n < nodes
    case DropOne(n, h) => n < nodes && InRange(h, nodes)
    case PutLoadHead(n, k) => n < nodes && ResumeInRange(k, nodes)
    case PutStoreNext(n, h, k) => n < nodes && InRange(h, nodes) && ResumeInRange(k, nodes)
    case PutStoreRefs(n, h, k) => n < nodes && InRange(h, nodes) && ResumeInRange(k, nodes)
    case PutCasHead(n, h, k) => n < nodes && InRange(h, nodes) && ResumeInRange(k, nodes)
    case PutGiveUp(n, h, k) => n < nodes && InRange(h, nodes) && ResumeInRange(k, nodes)
  }

  ghost predicate InRange(p: Option<Node>, nodes: nat) {
    p.Some? ==> p.value < nodes
  }

  ghost predicate ResumeInRange(k: Resume, nodes: nat) {
    k.Retry? ==> InRange(k.head, nodes)
  }

  ghost predicate WellFormed(s: State) {
    && |s.refs| == |s.next|
    && InRange(s.head, |s.refs|)
    && (forall n :: n in s.owned ==> n < |s.refs|)
    && (forall n :: 0 <= n < |s.next| ==> InRange(s.next[n], |s.refs|))
    && (forall t :: 0 <= t < |s.threads| ==> PcInRange(s.threads[t], |s.refs|))
  }

  ghost function Apply(s: State, e: Event): State
    requires WellFormed(s) && Enabled(s, e)
  {
    match e
    case StartAdd(t, n) =>
      var s' := AddRefs(s, n, SHOULD_BE_ON_FREELIST).(owned := s.owned - {n});
      Goto(s', t, if s.refs[n] == 0 then PutLoadHead(n, ReturnFromAdd) else Idle)
    case StartGet(t) => Goto(s, t, LoadHead)
    case Advance(t) => Move(s, t)
  }

  ghost function Move(s: State, t: nat): State
    requires WellFormed(s) && t < |s.threads| && s.threads[t] != Idle
  {
    match s.threads[t]
    case LoadHead => Goto(s, t, Loop(s.head))
    case LoadRefs(n) =>
      Goto(s, t, if s.refs[n] % SHOULD_BE_ON_FREELIST == 0 then LoadHead else CasRefs(n, s.refs[n]))
    case CasRefs(n, r) =>
      if s.refs[n] == r then Goto(AddRefs(s, n, 1), t, LoadNext(n)) else Goto(s, t, LoadHead)
    case LoadNext(n) => Goto(s, t, CasHead(n, s.next[n]))
    case CasHead(n, x) =>
      if s.head == Some(n) then Goto(s.(head := x), t, DropTwo(n)) else Goto(s, t, DropOne(n, s.head))
    case DropTwo(n) => Goto(AddRefs(s, n, -2).(owned := s.owned + {n}), t, Idle)
    case DropOne(n, h) =>
      Goto(AddRefs(s, n, -1), t,
           if s.refs[n] == SHOULD_BE_ON_FREELIST + 1 then PutLoadHead(n, Retry(h)) else Loop(h))
    case PutLoadHead(n, k) => Goto(s, t, PutStoreNext(n, s.head, k))
    case PutStoreNext(n, h, k) => Goto(s.(next := s.next[n := h]), t, PutStoreRefs(n, h, k))
    case PutStoreRefs(n, h, k) => Goto(s.(refs := s.refs[n := 1]), t, PutCasHead(n, h, k))
    case PutCasHead(n, h, k) =>
      if s.head == h then Goto(s.(head := Some(n)), t, AfterPut(k)) else Goto(s, t, PutGiveUp(n, s.head, k))
    case PutGiveUp(n, h, k) =>
      Goto(AddRefs(s, n, SHOULD_BE_ON_FREELIST - 1), t,
           if s.refs[n] == 1 then PutStoreNext(n, h, k) else AfterPut(k))
  }

  ghost predicate Next(s: State, e: Event, s': State) {
    WellFormed(s) && Enabled(s, e) && s' == Apply(s, e)
  }

  // ---------- The invariant ----------

  /** Does a thread at `pc` hold a reference it counted on node `n`? */
  predicate Holds(pc: Pc, n: Node) {
    match pc
    case LoadNext(m) => m == n
    case CasHead(m, _) => m == n
    case DropTwo(m) => m == n
    case DropOne(m, _) => m == n
    case _ => false
  }

  function Holders(threads: seq<Pc>, n: Node): nat {
    if threads == [] then 0
    else (if Holds(threads[0], n) then 1 else 0) + Holders(threads[1..], n)
  }

  /** The life of a node, as the proof follows it. */
  datatype Role =
    | Out              // owned by a client
    | Adding(t: nat)   // thread t runs add_knowing_refcount_is_zero on it
    | Pending          // added, waiting for the last reference to go
    | Listed           // on the list
    | Taken(t: nat)    // thread t popped it and has yet to drop its two references

  /** The history a proof carries: the nodes on the list in order, and the role of every node. */
  datatype History = History(list: seq<Node>, role: seq<Role>)

  predicate PutsBeforeRefs(pc: Pc, n: Node) {
    match pc
    case PutLoadHead(m, _) => m == n
    case PutStoreNext(m, _, _) => m == n
    case PutStoreRefs(m, _, _) => m == n
    case _ => false
  }

  predicate PutsAfterRefs(pc: Pc, n: Node) {
    match pc
    case PutCasHead(m, _, _) => m == n
    case PutGiveUp(m, _, _) => m == n
    case _ => false
  }

  predicate Puts(pc: Pc, n: Node) {
    PutsBeforeRefs(pc, n) || PutsAfterRefs(pc, n)
  }

  ghost predicate RoleOk(s: State, h: History, n: Node)
    requires n < |s.refs| && |h.role| == |s.refs|
  {
    var held := Holders(s.threads, n);
    && (h.role[n].Listed? <==> n in h.list)
    && (h.role[n].Out? <==> n in s.owned)
    && match h.role[n]
       case Out => s.refs[n] == held
       case Listed => s.refs[n] == 1 + held
       case Pending => held >= 1 && s.refs[n] == SHOULD_BE_ON_FREELIST + held
       case Taken(t) => t < |s.threads| && s.threads[t] == DropTwo(n) && s.refs[n] == 1 + held
       case Adding(t) =>
      && t < |s.threads|
      && Puts(s.threads[t], n)
      && (PutsBeforeRefs(s.threads[t], n) ==> s.refs[n] == SHOULD_BE_ON_FREELIST && held == 0)
      && (PutsAfterRefs(s.threads[t], n) ==> s.refs[n] == 1 + held)
  }

  ghost predicate ThreadOk(s: State, h: History, t: nat)
    requires t < |s.threads| && WellFormed(s) && |h.role| == |s.refs|
  {
    match s.threads[t]
    case CasRefs(n, r) => r % SHOULD_BE_ON_FREELIST != 0
    case CasHead(n, x) => s.next[n] == x
    case DropTwo(n) => h.role[n] == Taken(t)
    case PutLoadHead(n, _) => h.role[n] == Adding(t)
    case PutStoreNext(n, _, _) => h.role[n] == Adding(t)
    case PutStoreRefs(n, x, _) => h.role[n] == Adding(t) && s.next[n] == x
    case PutCasHead(n, x, _) => h.role[n] == Adding(t) && s.next[n] == x
    case PutGiveUp(n, _, _) => h.role[n] == Adding(t)
    case _ => true
  }

  /** The list hangs together: its nodes are distinct and linked from the head by `next`. */
  ghost predicate Linked(head: Option<Node>, next: seq<Option<Node>>, list: seq<Node>) {
    && (forall i :: 0 <= i < |list| ==> list[i] < |next|)
    && (forall i, j :: 0 <= i < j < |list| ==> list[i] != list[j])
    && head == First(list)
    && (forall i :: 0 <= i < |list| ==> next[list[i]] == First(list[i + 1..]))
  }

  ghost function First(list: seq<Node>): Option<Node> {
    if list == [] then None else Some(list[0])
  }

  lemma LinkedPop(head: Option<Node>, next: seq<Option<Node>>, list: seq<Node>)
    requires Linked(head, next, list) && list != []
    ensures Linked(next[list[0]], next, list[1..])
  {
    var rest := list[1..];
    forall i | 0 <= i < |rest| ensures next[rest[i]] == First(rest[i + 1..]) {
      assert next[list[i + 1]] == First(list[i + 1 + 1..]);
      assert rest[i + 1..] == list[i + 1 + 1..];
    }
  }

  lemma LinkedPush(head: Option<Node>, next: seq<Option<Node>>, list: seq<Node>, n: Node)
    requires Linked(head, next, list) && n < |next| && n !in list && next[n] == head
    ensures Linked(Some(n), next, [n] + list)
  {
    var more := [n] + list;
    forall i | 0 <= i < |more| ensures next[more[i]] == First(more[i + 1..]) {
      if i == 0 {
        assert more[1..] == list;
      } else {
        assert next[list[i - 1]] == First(list[i - 1 + 1..]);
        assert more[i + 1..] == list[i - 1 + 1..];
      }
    }
  }

  ghost predicate Inv(s: State, h: History) {
    && WellFormed(s)
    && |h.role| == |s.refs|
    && |s.threads| + 2 < SHOULD_BE_ON_FREELIST
    && Linked(s.head, s.next, h.list)
    && (forall n :: 0 <= n < |s.refs| ==> RoleOk(s, h, n))
    && (forall t :: 0 <= t < |s.threads| ==> ThreadOk(s, h, t))
  }

  lemma {:induction false} HoldersUpdate(threads: seq<Pc>, t: nat, pc: Pc, n: Node)
    requires t < |threads|
    ensures Holders(threads[t := pc], n)
         == Holders(threads, n) - (if Holds(threads[t], n) then 1 else 0) + (if Holds(pc, n) then 1 else 0)
  {
    if t == 0 {
      assert threads[t := pc][1..] == threads[1..];
    } else {
      assert threads[t := pc][1..] == threads[1..][t - 1 := pc];
      HoldersUpdate(threads[1..], t - 1, pc, n);
    }
  }

  lemma {:induction false} HoldersBounds(threads: seq<Pc>, n: Node)
    ensures Holders(threads, n) <= |threads|
    ensures (exists t :: 0 <= t < |threads| && Holds(threads[t], n)) ==> Holders(threads, n) >= 1
    ensures (forall t :: 0 <= t < |threads| ==> !Holds(threads[t], n)) ==> Holders(threads, n) == 0
  {
    if threads != [] {
      HoldersBounds(threads[1..], n);
      if t :| 0 <= t < |threads| && Holds(threads[t], n) {
        assert t > 0 ==> threads[1..][t - 1] == threads[t];
      }
    }
  }

  // ---------- Every step keeps the invariant ----------

  /** What one step of thread `t` does to the holders of `n`. */
  lemma HoldersStep(before: seq<Pc>, after: seq<Pc>, t: nat, n: Node)
    requires t < |before| == |after| && after == before[t := after[t]]
    ensures Holders(after, n) ==
              Holders(before, n) - (if Holds(before[t], n) then 1 else 0) + (if Holds(after[t], n) then 1 else 0)
    ensures Holders(before, n) <= |before|
    ensures Holds(before[t], n) ==> Holders(before, n) >= 1
  {
    HoldersUpdate(before, t, after[t], n);
    HoldersBounds(before, n);
  }

  lemma StaysWellFormed(s: State, e: Event)
    requires WellFormed(s) && Enabled(s, e)
    ensures WellFormed(Apply(s, e))
  {
    var s' := Apply(s, e);
    assert PcInRange(s.threads[e.thread], |s.refs|);
    assert s'.threads == s.threads[e.thread := s'.threads[e.thread]];
    assert PcInRange(s'.threads[e.thread], |s.refs|);
  }

  /** Is a thread at `pc` at work on node `n`? */
  ghost predicate About(pc: Pc, n: Node) {
    Holds(pc, n) || Puts(pc, n)
  }

  /** The role of a node that thread `t` is not at work on. */
  lemma FrameRole(s: State, h: History, s': State, h': History, t: nat, n: Node)
    requires n < |s.refs| == |s'.refs| == |h.role| == |h'.role| && RoleOk(s, h, n)
    requires t < |s.threads| == |s'.threads| && s'.threads == s.threads[t := s'.threads[t]]
    requires !About(s.threads[t], n) && !About(s'.threads[t], n)
    requires (n in h'.list <==> n in h.list) && (n in s'.owned <==> n in s.owned)
    requires s'.refs[n] == s.refs[n] && h'.role[n] == h.role[n]
    ensures RoleOk(s', h', n)
  {
    HoldersStep(s.threads, s'.threads, t, n);
  }

  /**
   The frame of a step: a step of thread `t` that touches no node but `n0` leaves in place the roles
   of all the other nodes and what the other threads rely on.
   */
  lemma Frame(s: State, h: History, e: Event, h': History, n0: Node)
    requires Inv(s, h) && Enabled(s, e) && |h'.role| == |s.refs|
    requires var s' := Apply(s, e); var t := e.thread;
      && s'.threads == s.threads[t := s'.threads[t]] && WellFormed(s') && |s'.refs| == |s.refs|
      && Linked(s'.head, s'.next, h'.list)
      && (forall n: Node :: n != n0 ==> !About(s.threads[t], n) && !About(s'.threads[t], n))
      && (forall n: Node :: n != n0 ==> (n in h'.list <==> n in h.list) && (n in s'.owned <==> n in s.owned))
      && (forall n :: 0 <= n < |s.refs| && n != n0 ==>
            s'.refs[n] == s.refs[n] && s'.next[n] == s.next[n] && h'.role[n] == h.role[n])
      && ThreadOk(s', h', t)
      && (n0 < |s.refs| ==>
            && RoleOk(s', h', n0)
            && (s'.next[n0] == s.next[n0] || (h.role[n0] == Adding(t) && Holders(s.threads, n0) == 0))
            && (h'.role[n0] == h.role[n0] || h.role[n0].Out? || h.role[n0].Pending? || h.role[n0].Listed?
                || h.role[n0] == Adding(t) || h.role[n0] == Taken(t)))
    ensures Inv(Apply(s, e), h')
  {
    var s' := Apply(s, e);
    forall n | 0 <= n < |s.refs| ensures RoleOk(s', h', n) {
      if n != n0 {
        FrameRole(s, h, s', h', e.thread, n);
      }
    }
    forall u | 0 <= u < |s.threads| ensures ThreadOk(s', h', u) {
      if u != e.thread {
        assert ThreadOk(s, h, u);
        HoldersBounds(s.threads, n0);
        assert s'.threads[u] == s.threads[u];
      }
    }
  }

  lemma StartKeeps(s: State, h: History, e: Event) returns (h': History)
    requires Inv(s, h) && Enabled(s, e) && !e.Advance?
    ensures Inv(Apply(s, e), h')
  {
    hide Linked;
    StaysWellFormed(s, e);
    var s' := Apply(s, e);
    match e
    case StartGet(t) =>
      h' := h;
      Frame(s, h, e, h', |s.refs|);
    case StartAdd(t, n) =>
      assert RoleOk(s, h, n);
      HoldersStep(s.threads, s'.threads, t, n);
      h' := h.(role := h.role[n := if s.refs[n] == 0 then Adding(t) else Pending]);
      Frame(s, h, e, h', n);
  }

  lemma LookKeeps(s: State, h: History, t: nat)
    requires Inv(s, h) && Enabled(s, Advance(t)) && (s.threads[t].LoadHead? || s.threads[t].LoadRefs?)
    ensures Inv(Apply(s, Advance(t)), h)
  {
    hide Linked;
    StaysWellFormed(s, Advance(t));
    var s' := Apply(s, Advance(t));
    Frame(s, h, Advance(t), h, |s.refs|);
  }

  lemma CasRefsKeeps(s: State, h: History, t: nat)
    requires Inv(s, h) && Enabled(s, Advance(t)) && s.threads[t].CasRefs?
    ensures Inv(Apply(s, Advance(t)), h)
  {
    hide Linked;
    StaysWellFormed(s, Advance(t));
    var s' := Apply(s, Advance(t));
    var n := s.threads[t].node;
    HoldersStep(s.threads, s'.threads, t, n);
    assert ThreadOk(s, h, t) && RoleOk(s, h, n);
    assert s.refs[n] + 1 < WORD;
    assert s'.refs[n] == if s.refs[n] == s.threads[t].refs then s.refs[n] + 1 else s.refs[n];
    Frame(s, h, Advance(t), h, n);
  }

  lemma LoadNextKeeps(s: State, h: History, t: nat)
    requires Inv(s, h) && Enabled(s, Advance(t)) && s.threads[t].LoadNext?
    ensures Inv(Apply(s, Advance(t)), h)
  {
    hide Linked;
    StaysWellFormed(s, Advance(t));
    var s' := Apply(s, Advance(t));
    var n := s.threads[t].node;
    HoldersStep(s.threads, s'.threads, t, n);
    assert RoleOk(s, h, n);
    Frame(s, h, Advance(t), h, n);
  }

  /** The head node leaves the list. */
  lemma Popped(head: Option<Node>, next: seq<Option<Node>>, list: seq<Node>, n: Node)
    requires Linked(head, next, list) && head == Some(n)
    ensures list != [] && n in list && n < |next| && Linked(next[n], next, list[1..])
    ensures n !in list[1..] && forall m: Node :: m != n ==> (m in list[1..] <==> m in list)
  {
    LinkedPop(head, next, list);
    assert list == [n] + list[1..];
  }

  lemma CasHeadTakes(s: State, h: History, t: nat) returns (h': History)
    requires Inv(s, h) && Enabled(s, Advance(t)) && s.threads[t].CasHead? && s.head == Some(s.threads[t].node)
    ensures Inv(Apply(s, Advance(t)), h')
  {
    hide Linked;
    StaysWellFormed(s, Advance(t));
    var s' := Apply(s, Advance(t));
    var n := s.threads[t].node;
    HoldersStep(s.threads, s'.threads, t, n);
    assert ThreadOk(s, h, t) && RoleOk(s, h, n);
    Popped(s.head, s.next, h.list, n);
    h' := History(h.list[1..], h.role[n := Taken(t)]);
    Frame(s, h, Advance(t), h', n);
  }

  lemma CasHeadKeeps(s: State, h: History, t: nat) returns (h': History)
    requires Inv(s, h) && Enabled(s, Advance(t)) && s.threads[t].CasHead?
    ensures Inv(Apply(s, Advance(t)), h')
  {
    hide Linked;
    if s.head == Some(s.threads[t].node) {
      h' := CasHeadTakes(s, h, t);
    } else {
      h' := h;
      StaysWellFormed(s, Advance(t));
      var s' := Apply(s, Advance(t));
      var n := s.threads[t].node;
      HoldersStep(s.threads, s'.threads, t, n);
      assert ThreadOk(s, h, t) && RoleOk(s, h, n);
      Frame(s, h, Advance(t), h', n);
    }
  }

  lemma DropTwoKeeps(s: State, h: History, t: nat) returns (h': History)
    requires Inv(s, h) && Enabled(s, Advance(t)) && s.threads[t].DropTwo?
    ensures Inv(Apply(s, Advance(t)), h')
  {
    hide Linked;
    StaysWellFormed(s, Advance(t));
    var s' := Apply(s, Advance(t));
    var n := s.threads[t].node;
    HoldersStep(s.threads, s'.threads, t, n);
    assert ThreadOk(s, h, t) && RoleOk(s, h, n);
    assert s'.refs[n] == s.refs[n] - 2;
    h' := h.(role := h.role[n := Out]);
    Frame(s, h, Advance(t), h', n);
  }

  lemma DropOneKeeps(s: State, h: History, t: nat) returns (h': History)
    requires Inv(s, h) && Enabled(s, Advance(t)) && s.threads[t].DropOne?
    ensures Inv(Apply(s, Advance(t)), h')
  {
    hide Linked;
    StaysWellFormed(s, Advance(t));
    var s' := Apply(s, Advance(t));
    var n := s.threads[t].node;
    HoldersStep(s.threads, s'.threads, t, n);
    assert ThreadOk(s, h, t) && RoleOk(s, h, n);
    assert s'.refs[n] == s.refs[n] - 1;
    if s.refs[n] == SHOULD_BE_ON_FREELIST + 1 {
      assert Holders(s'.threads, n) == 0;
      h' := h.(role := h.role[n := Adding(t)]);
    } else {
      h' := h;
    }
    Frame(s, h, Advance(t), h', n);
  }

  lemma PutLinkKeeps(s: State, h: History, t: nat)
    requires Inv(s, h) && Enabled(s, Advance(t))
    requires var pc := s.threads[t]; pc.PutLoadHead? || pc.PutStoreNext? || pc.PutStoreRefs?
    ensures Inv(Apply(s, Advance(t)), h)
  {
    StaysWellFormed(s, Advance(t));
    var s' := Apply(s, Advance(t));
    var n := s.threads[t].node;
    HoldersStep(s.threads, s'.threads, t, n);
    assert ThreadOk(s, h, t) && RoleOk(s, h, n);
    assert n !in h.list;
    assert forall i :: 0 <= i < |h.list| ==> h.list[i] != n && s'.next[h.list[i]] == s.next[h.list[i]];
    Frame(s, h, Advance(t), h, n);
  }

  /** A node not on the list becomes its head. */
  lemma Pushed(head: Option<Node>, next: seq<Option<Node>>, list: seq<Node>, n: Node)
    requires Linked(head, next, list) && n < |next| && n !in list && next[n] == head
    ensures Linked(Some(n), next, [n] + list)
    ensures forall m: Node :: m in [n] + list <==> m == n || m in list
  {
    LinkedPush(head, next, list, n);
  }

  lemma PutCasKeeps(s: State, h: History, t: nat) returns (h': History)
    requires Inv(s, h) && Enabled(s, Advance(t)) && s.threads[t].PutCasHead?
    ensures Inv(Apply(s, Advance(t)), h')
  {
    hide Linked;
    StaysWellFormed(s, Advance(t));
    var s' := Apply(s, Advance(t));
    var n := s.threads[t].node;
    HoldersStep(s.threads, s'.threads, t, n);
    assert ThreadOk(s, h, t) && RoleOk(s, h, n);
    h' := h;
    if s.head == s.threads[t].head {
      h' := History([n] + h.list, h.role[n := Listed]);
      Pushed(s.head, s.next, h.list, n);
    }
    Frame(s, h, Advance(t), h', n);
  }

  lemma PutGiveUpKeeps(s: State, h: History, t: nat) returns (h': History)
    requires Inv(s, h) && Enabled(s, Advance(t)) && s.threads[t].PutGiveUp?
    ensures Inv(Apply(s, Advance(t)), h')
  {
    hide Linked;
    StaysWellFormed(s, Advance(t));
    var s' := Apply(s, Advance(t));
    var n := s.threads[t].node;
    HoldersStep(s.threads, s'.threads, t, n);
    assert ThreadOk(s, h, t) && RoleOk(s, h, n);
    assert s'.refs[n] == s.refs[n] + SHOULD_BE_ON_FREELIST - 1;
    h' := if s.refs[n] == 1 then h else h.(role := h.role[n := Pending]);
    Frame(s, h, Advance(t), h', n);
  }

  lemma StepKeeps(s: State, h: History, e: Event) returns (h': History)
    requires Inv(s, h) && Enabled(s, e)
    ensures Inv(Apply(s, e), h')
  {
    if !e.Advance? {
      h' := StartKeeps(s, h, e);
    } else {
      var t := e.thread;
      match s.threads[t]
      case LoadHead => LookKeeps(s, h, t); h' := h;
      case LoadRefs(_) => LookKeeps(s, h, t); h' := h;
      case CasRefs(_, _) => CasRefsKeeps(s, h, t); h' := h;
      case LoadNext(_) => LoadNextKeeps(s, h, t); h' := h;
      case CasHead(_, _) => h' := CasHeadKeeps(s, h, t);
      case DropTwo(_) => h' := DropTwoKeeps(s, h, t);
      case DropOne(_, _) => h' := DropOneKeeps(s, h, t);
      case PutLoadHead(_, _) => PutLinkKeeps(s, h, t); h' := h;
      case PutStoreNext(_, _, _) => PutLinkKeeps(s, h, t); h' := h;
      case PutStoreRefs(_, _, _) => PutLinkKeeps(s, h, t); h' := h;
      case PutCasHead(_, _, _) => h' := PutCasKeeps(s, h, t);
      case PutGiveUp(_, _, _) => h' := PutGiveUpKeeps(s, h, t);
    }
  }

  // ---------- What holds in every reachable state ----------

  lemma {:induction false} InitialInv(s: State) returns (h: History)
    requires Init(s)
    ensures Inv(s, h)
  {
    h := History([], seq(|s.refs|, _ => Out));
    forall n | 0 <= n < |s.refs| ensures RoleOk(s, h, n) {
      HoldersBounds(s.threads, n);
    }
  }

  ghost predicate HasHistory(s: State) {
    exists h: History :: Inv(s, h)
  }

  lemma StepKeepsHistory(s: State, e: Event, s': State)
    requires HasHistory(s) && Next(s, e, s')
    ensures HasHistory(s')
  {
    var h: History :| Inv(s, h);
    var h' := StepKeeps(s, h, e);
  }

  lemma Invariant(s: State) returns (h: History)
    requires Reachable(Init, Next, s)
    ensures Inv(s, h)
  {
    forall a: State | Init(a) ensures HasHistory(a) {
      var g := InitialInv(a);
    }
    forall a: State, e: Event, b: State | HasHistory(a) && Next(a, e, b) ensures HasHistory(b) {
      StepKeepsHistory(a, e, b);
    }
    Induction(Init, Next, HasHistory, s);
    h :| Inv(s, h);
  }

  /**
   No ABA: whenever a thread's head CAS in `try_get` is about to succeed, the successor it loaded
   earlier is still the successor of the node it takes, and the reference word of that node does
   not carry the should-be-on-list flag.
   */
  lemma NoAba(s: State, t: nat)
    requires Reachable(Init, Next, s) && t < |s.threads| && s.threads[t].CasHead?
    requires WellFormed(s) && s.head == Some(s.threads[t].node)
    ensures s.threads[t].next == s.next[s.threads[t].node]
    ensures s.refs[s.threads[t].node] < SHOULD_BE_ON_FREELIST
  {
    var h := Invariant(s);
    var n := s.threads[t].node;
    assert ThreadOk(s, h, t) && RoleOk(s, h, n);
    HoldersBounds(s.threads, n);
    assert h.list[0] == n;
  }

  /** The link of a node is written only while no thread holds a reference on the node. */
  lemma LinkWrittenOnlyUnreferenced(s: State, e: Event, n: Node)
    requires Reachable(Init, Next, s) && WellFormed(s) && Enabled(s, e)
    requires n < |s.next| && Apply(s, e).next[n] != s.next[n]
    ensures forall u :: 0 <= u < |s.threads| ==> !Holds(s.threads[u], n)
  {
    var h := Invariant(s);
    assert ThreadOk(s, h, e.thread) && RoleOk(s, h, n);
    HoldersBounds(s.threads, n);
  }

  /**
   Exclusive ownership: a node that `try_get` hands out belongs to nobody else at that moment. No
   client owns it, it is not on the list, no other thread is handing it out and none is adding it.
   */
  lemma HandedToOneOwner(s: State, t: nat, u: nat)
    requires Reachable(Init, Next, s) && WellFormed(s)
    requires t < |s.threads| && u < |s.threads| && t != u && s.threads[t].DropTwo?
    ensures s.threads[t].node !in s.owned
    ensures s.threads[u] != s.threads[t] && !Puts(s.threads[u], s.threads[t].node)
    ensures s.head != Some(s.threads[t].node)
    ensures s.threads[t].node in Apply(s, Advance(t)).owned
  {
    var h := Invariant(s);
    assert ThreadOk(s, h, t) && ThreadOk(s, h, u) && RoleOk(s, h, s.threads[t].node);
    assert h.list != [] ==> h.list[0] in h.list;
  }

  /**
   The reference word never wraps: it is a count of at most one more than the threads, with or
   without the flag, and never with it while a client owns the node.
   */
  lemma RefsNeverWrap(s: State, n: Node)
    requires Reachable(Init, Next, s) && n < |s.refs|
    ensures s.refs[n] <= |s.threads| + 1 || SHOULD_BE_ON_FREELIST <= s.refs[n] <= SHOULD_BE_ON_FREELIST + |s.threads|
    ensures n in s.owned ==> s.refs[n] <= |s.threads|
    ensures s.refs[n] < WORD
  {
    var h := Invariant(s);
    assert RoleOk(s, h, n);
    HoldersBounds(s.threads, n);
  }

  // ---------- Quiescence ----------

  /** The nodes met by following links from `p`, at most `fuel` of them. */
  function Walk(next: seq<Option<Node>>, p: Option<Node>, fuel: nat): seq<Node>
    decreases fuel
  {
    if fuel == 0 || p.None? || p.value >= |next| then []
    else [p.value] + Walk(next, next[p.value], fuel - 1)
  }

  lemma {:induction false} WalkIsList(s: State, list: seq<Node>, i: nat, fuel: nat)
    requires Linked(s.head, s.next, list) && i <= |list| <= i + fuel
    ensures Walk(s.next, if i < |list| then Some(list[i]) else None, fuel) == list[i..]
    decreases fuel
  {
    if i < |list| {
      assert s.next[list[i]] == First(list[i + 1..]);
      WalkIsList(s, list, i + 1, fuel - 1);
      assert list[i..] == [list[i]] + list[i + 1..];
    }
  }

  lemma {:induction false} DistinctFits(list: seq<nat>, bound: nat)
    requires forall i :: 0 <= i < |list| ==> list[i] < bound
    requires forall i, j :: 0 <= i < j < |list| ==> list[i] != list[j]
    ensures |list| <= bound
    decreases bound
  {
    if list != [] {
      assert list[0] < bound;
      if k :| 0 <= k < |list| && list[k] == bound - 1 {
        DistinctFits(list[..k] + list[k + 1..], bound - 1);
      } else {
        DistinctFits(list, bound - 1);
      }
    }
  }

  lemma WalkIsWholeList(s: State, h: History)
    requires Inv(s, h)
    ensures Walk(s.next, s.head, |s.refs|) == h.list
  {
    DistinctFits(h.list, |s.refs|);
    WalkIsList(s, h.list, 0, |s.refs|);
    assert h.list[0..] == h.list;
  }

  /**
   At any moment a walk from the head meets no node twice, and none that a client owns, that a thread
   is handing out or that a thread is adding.
   */
  lemma ListedOnceAndNowhereElse(s: State, n: Node, t: nat)
    requires Reachable(Init, Next, s)
    ensures var walk := Walk(s.next, s.head, |s.refs|);
      && (forall i, j :: 0 <= i < j < |walk| ==> walk[i] != walk[j])
      && (n in walk ==> n < |s.refs| && n !in s.owned)
      && (n in walk && t < |s.threads| ==> s.threads[t] != DropTwo(n) && !Puts(s.threads[t], n))
  {
    var h := Invariant(s);
    WalkIsWholeList(s, h);
    if n in h.list {
      assert RoleOk(s, h, n);
      if t < |s.threads| {
        assert ThreadOk(s, h, t);
        if Puts(s.threads[t], n) {
          AdderRole(s, h, t, n);
        }
      }
    }
  }

  lemma AdderRole(s: State, h: History, t: nat, n: Node)
    requires Inv(s, h) && t < |s.threads| && n < |s.refs| && Puts(s.threads[t], n)
    ensures h.role[n] == Adding(t)
  {
    assert ThreadOk(s, h, t);
  }

  /** A node is added by one thread at a time, and by nobody while a client owns it. */
  lemma OneAdder(s: State, t: nat, u: nat, n: Node)
    requires Reachable(Init, Next, s) && t < |s.threads| && u < |s.threads| && n < |s.refs|
    requires Puts(s.threads[t], n) && Puts(s.threads[u], n)
    ensures t == u && n !in s.owned
  {
    var h := Invariant(s);
    AdderRole(s, h, t, n);
    AdderRole(s, h, u, n);
    assert RoleOk(s, h, n);
  }

  lemma QuiescentRole(s: State, h: History, n: Node)
    requires Inv(s, h) && n < |s.refs| && forall t :: 0 <= t < |s.threads| ==> s.threads[t] == Idle
    ensures n in h.list <==> n !in s.owned
  {
    assert RoleOk(s, h, n);
    HoldersBounds(s.threads, n);
  }

  /**
   With no call in progress nothing is lost: walking the list from the head meets exactly the nodes
   no client owns, each of them once.
   */
  lemma QuiescentListIsComplete(s: State)
    requires Reachable(Init, Next, s) && forall t :: 0 <= t < |s.threads| ==> s.threads[t] == Idle
    ensures var walk := Walk(s.next, s.head, |s.refs|);
      && (forall i, j :: 0 <= i < j < |walk| ==> walk[i] != walk[j])
      && (forall n: Node :: n in walk <==> n < |s.refs| && n !in s.owned)
  {
    var h := Invariant(s);
    WalkIsWholeList(s, h);
    forall n: Node ensures n in h.list <==> n < |s.refs| && n !in s.owned {
      if n < |s.refs| {
        QuiescentRole(s, h, n);
      }
    }
  }
}
