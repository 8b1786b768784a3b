/**
 Blocks on their way through the pool: the machine of BlockLifecycle, whose pool is a sequence that is
 changed in one step, put together with the lock-free list of FreeList and the index into the initial
 pool, whose steps interleave with each other and with everything else.

 A block given back by an implicit producer, one of its consumers or another producer is added to the
 list by a call of `add`, and whoever needs a block counts the index of the initial pool up and then
 calls `try_get`.  Thread 0 of the list is the producer, the next ones are its consumers, and the
 rest are others.  The nodes of the list are the blocks there are and those still to be allocated.
 */
module BlockRecycling {
  import opened Blocks
  import opened Options
  import opened Runs
  import Life = BlockLifecycle
  import Lists = FreeList

  /** `size` blocks are in the initial pool, and those below `index` were handed out. */
  datatype State = State(life: Life.State, list: Lists.State, index: nat, size: nat)

  datatype Event =
    | Local(e: Life.Event)                   // neither takes a block from the pool nor gives one back
    | GiveBack(thread: nat, e: Life.Event)   // the block goes back, with the first step of `add`
    | TakeInitial(thread: nat)               // try_get_block_from_initial_pool
    | StartGet(thread: nat)                  // try_get_block_from_free_list
    | Step(thread: nat)                      // the next step of `add` or `try_get`

  ghost predicate Init(s: State) {
    && Life.Init(s.life) && Lists.Init(s.list)
    && s.index == 0 && s.size == |s.life.mem| <= |s.list.refs|
    && OthersFrom(s) <= |s.list.threads|
  }

  /** Threads of the list from this one on are neither the producer nor its consumers. */
  function OthersFrom(s: State): nat { 1 + |s.life.work| }

  /** The block a step gives back. */
  function Returned(life: Life.State, e: Life.Event): Option<BlockId> {
    match e
    case DoWork(t) => if t < |life.work| && life.work[t].GiveBack? then Some(life.work[t].block) else None
    case Produce =>
      if life.prod.UndoingBlocks? && life.prod.j < |life.prod.got| then Some(life.prod.got[life.prod.j]) else None
    case Others(o) => if o.Return? then Some(o.b) else None
    case _ => None
  }

  predicate Takes(e: Life.Event) {
    (e.Acquire? && e.source.FromPool?) || (e.Others? && e.o.TakeBlock?)
  }

  /** The thread of the list that takes a step of the producer or of a consumer. */
  function Agent(e: Life.Event): Option<nat> {
    match e
    case Claim(ce) => if ce.Publish? then None else Some(1 + ce.thread)
    case DoWork(t) => Some(1 + t)
    case Others(_) => None
    case _ => Some(0)
  }

  /** A thread does nothing else until its call returns, and others use what they have fully got. */
  ghost predicate Free(s: State, e: Life.Event) {
    && (Agent(e).Some? ==> Agent(e).value < |s.list.threads| && s.list.threads[Agent(e).value] == Lists.Idle)
    && (e.Others? && e.o.Use? ==> e.o.b in s.list.owned)
    && (e.Others? && e.o.Return? ==> e.o.b in s.list.owned)
  }

  predicate Allocates(e: Life.Event) {
    (e.Acquire? && e.source.Fresh?) || (e.Others? && e.o.Allocate?)
  }

  ghost predicate Destroys(life: Life.State, b: BlockId) {
    b < |life.mem| && Life.IsDestroyed(life.mem[b])
  }

  /** The producer gets a block when one is missing, others whenever they like. */
  predicate MayGet(s: State, t: nat) {
    t < |s.list.threads| && s.list.threads[t] == Lists.Idle && if t == 0 then s.life.prod.Reserving? else OthersFrom(s) <= t
  }

  ghost predicate Enabled(s: State, e: Event) {
    && Lists.WellFormed(s.list)
    && match e
       case Local(le) =>
         && Life.Enabled(s.life, le) && !Takes(le) && Free(s, le)
         && (Returned(s.life, le).Some? ==> Destroys(s.life, Returned(s.life, le).value))
         && (Allocates(le) ==> |s.life.mem| < |s.list.refs|)
       case GiveBack(t, le) =>
         && Life.Enabled(s.life, le) && Free(s, le)
         && Returned(s.life, le).Some? && !Destroys(s.life, Returned(s.life, le).value)
         && (if Agent(le).Some? then Agent(le).value == t else OthersFrom(s) <= t)
         && Lists.Enabled(s.list, Lists.StartAdd(t, Returned(s.life, le).value))
       case TakeInitial(t) => MayGet(s, t)
       case StartGet(t) => MayGet(s, t)
       case Step(t) => Lists.Enabled(s.list, Lists.Advance(t))
  }

  /** The step of the lifecycle by which thread `t` is handed the `j`-th block of the pool. */
  function TakeEvent(t: nat, j: nat): Life.Event {
    if t == 0 then Life.Acquire(Life.FromPool(j)) else Life.Others(Life.TakeBlock(j))
  }

  ghost predicate CanTake(life: Life.State, t: nat, b: BlockId, j: nat) {
    j < |life.pool| && life.pool[j] == b && Life.Enabled(life, TakeEvent(t, j))
  }

  /** Thread `t` is handed block `b`. */
  ghost function Handed(life: Life.State, t: nat, b: BlockId): Life.State {
    if j: nat :| CanTake(life, t, b, j) then Life.Apply(life, TakeEvent(t, j)) else life
  }

  /** The node a step of the list hands out: its head compare-and-swap succeeds. */
  function HandsOut(l: Lists.State, e: Lists.Event): Option<Lists.Node> {
    if e.Advance? && e.thread < |l.threads| && l.threads[e.thread].CasHead? && l.head == Some(l.threads[e.thread].node)
    then l.head else None
  }

  ghost function Apply(s: State, e: Event): State
    requires Enabled(s, e)
  {
    match e
    case Local(le) => s.(life := Life.Apply(s.life, le))
    case GiveBack(t, le) =>
      s.(life := Life.Apply(s.life, le), list := Lists.Apply(s.list, Lists.StartAdd(t, Returned(s.life, le).value)))
    case TakeInitial(t) =>
      s.(life := if s.index < s.size then Handed(s.life, t, s.index) else s.life, index := s.index + 1)
    case StartGet(t) => s.(list := Lists.Apply(s.list, Lists.StartGet(t)))
    case Step(t) =>
      var n := HandsOut(s.list, Lists.Advance(t));
      s.(list := Lists.Apply(s.list, Lists.Advance(t)), life := if n.Some? then Handed(s.life, t, n.value) else s.life)
  }

  ghost predicate Next(s: State, e: Event, s': State) {
    Enabled(s, e) && s' == Apply(s, e)
  }

  // ---------- The list as a pool ----------

  /** The node was given to the list and not handed out since. */
  ghost predicate InList(l: Lists.State, n: Lists.Node) {
    && n < |l.refs| && n !in l.owned
    && forall t :: 0 <= t < |l.threads| ==> l.threads[t] != Lists.DropTwo(n)
  }

  /** What a step of the list does to the set of nodes in it. */
  ghost predicate ListStep(l: Lists.State, e: Lists.Event, l': Lists.State) {
    match HandsOut(l, e)
    case Some(n) => InList(l, n) && forall m :: InList(l', m) <==> InList(l, m) && m != n
    case None =>
      if e.StartAdd? then !InList(l, e.node) && forall m :: InList(l', m) <==> InList(l, m) || m == e.node
      else forall m :: InList(l', m) <==> InList(l, m)
  }

  lemma ListSteps(l: Lists.State, e: Lists.Event, l': Lists.State)
    requires Reachable(Lists.Init, Lists.Next, l) && Lists.Next(l, e, l')
    ensures ListStep(l, e, l')
    ensures Reachable(Lists.Init, Lists.Next, l') && |l'.threads| == |l.threads| && |l'.refs| == |l.refs|
    ensures l'.threads == l.threads[e.thread := l'.threads[e.thread]]
  {
    hide InList, Lists.Inv, Lists.Apply, Lists.Enabled, Lists.WellFormed, ListStep;
    OneThread(l, e, l');
    var h := Lists.Invariant(l);
    Extend(Lists.Init, Lists.Next, l, e, l');
    if HandsOut(l, e).Some? {
      HandsOutListed(l, e, l', h);
    } else if e.StartAdd? {
      StartsAdding(l, e, l', h);
    } else {
      StaysListed(l, e, l', h);
    }
  }

  lemma OneThread(l: Lists.State, e: Lists.Event, l': Lists.State)
    requires Lists.Next(l, e, l')
    ensures e.thread < |l.threads| == |l'.threads| && |l'.refs| == |l.refs|
    ensures l'.threads == l.threads[e.thread := l'.threads[e.thread]]
  {
  }

  lemma HandsOutListed(l: Lists.State, e: Lists.Event, l': Lists.State, h: Lists.History)
    requires Lists.Inv(l, h) && Lists.Next(l, e, l') && HandsOut(l, e).Some?
    ensures ListStep(l, e, l')
  {
    var n := l.head.value;
    assert Lists.RoleOk(l, h, n) && n in h.list;
    forall t | 0 <= t < |l.threads| ensures l.threads[t] != Lists.DropTwo(n) {
      assert Lists.ThreadOk(l, h, t);
    }
    forall m ensures InList(l', m) <==> InList(l, m) && m != n {
      if m != n && InList(l', m) {
        forall t | 0 <= t < |l.threads| ensures l.threads[t] != Lists.DropTwo(m) {
          assert t != e.thread ==> l'.threads[t] == l.threads[t];
        }
      }
      assert l'.threads[e.thread] == Lists.DropTwo(n);
    }
  }

  lemma StartsAdding(l: Lists.State, e: Lists.Event, l': Lists.State, h: Lists.History)
    requires Lists.Inv(l, h) && Lists.Next(l, e, l') && e.StartAdd?
    ensures ListStep(l, e, l')
  {
    assert Lists.RoleOk(l, h, e.node);
    forall t | 0 <= t < |l.threads| ensures l.threads[t] != Lists.DropTwo(e.node) {
      assert Lists.ThreadOk(l, h, t);
    }
    forall m ensures InList(l', m) <==> InList(l, m) || m == e.node {
      if m != e.node && InList(l', m) {
        forall t | 0 <= t < |l.threads| ensures l.threads[t] != Lists.DropTwo(m) {
          assert t != e.thread ==> l'.threads[t] == l.threads[t];
        }
      }
    }
  }

  lemma StaysListed(l: Lists.State, e: Lists.Event, l': Lists.State, h: Lists.History)
    requires Lists.Inv(l, h) && Lists.Next(l, e, l') && HandsOut(l, e) == None && !e.StartAdd?
    ensures ListStep(l, e, l')
  {
    var t := e.thread;
    assert Lists.ThreadOk(l, h, t);
    assert forall u :: 0 <= u < |l.threads| && u != t ==> l'.threads[u] == l.threads[u];
    assert !l'.threads[t].DropTwo?;
    forall m ensures InList(l', m) <==> InList(l, m) {
      if l.threads[t] == Lists.DropTwo(m) {
        assert m in l'.owned;
      }
    }
  }

  // ---------- What the list mentions ----------

  predicate Points(p: Option<Lists.Node>, n: Lists.Node) { p == Some(n) }

  predicate PcMentions(pc: Lists.Pc, n: Lists.Node) {
    match pc
    case Idle => false
    case LoadHead => false
    case LoadRefs(m) => m == n
    case CasRefs(m, _) => m == n
    case LoadNext(m) => m == n
    case CasHead(m, x) => m == n || Points(x, n)
    case DropTwo(m) => m == n
    case DropOne(m, x) => m == n || Points(x, n)
    case PutLoadHead(m, k) => m == n || ResumeMentions(k, n)
    case PutStoreNext(m, x, k) => m == n || Points(x, n) || ResumeMentions(k, n)
    case PutStoreRefs(m, x, k) => m == n || Points(x, n) || ResumeMentions(k, n)
    case PutCasHead(m, x, k) => m == n || Points(x, n) || ResumeMentions(k, n)
    case PutGiveUp(m, x, k) => m == n || Points(x, n) || ResumeMentions(k, n)
  }

  predicate ResumeMentions(k: Lists.Resume, n: Lists.Node) {
    k.Retry? && Points(k.head, n)
  }

  /** The node is at the head, behind another node, or in the hands of a thread. */
  ghost predicate Mentions(l: Lists.State, n: Lists.Node) {
    || Points(l.head, n)
    || (exists m :: 0 <= m < |l.next| && Points(l.next[m], n))
    || (exists t :: 0 <= t < |l.threads| && PcMentions(l.threads[t], n))
  }

  /** A node is first mentioned when it is added. */
  lemma MentionedBefore(l: Lists.State, e: Lists.Event, l': Lists.State, n: Lists.Node)
    requires Lists.Next(l, e, l') && Mentions(l', n)
    ensures Mentions(l, n) || (e.StartAdd? && e.node == n)
  {
    var t := e.thread;
    assert forall u :: 0 <= u < |l.threads| && u != t ==> l'.threads[u] == l.threads[u];
    if PcMentions(l'.threads[t], n) {
      NewlyMentioned(l, e, l', n);
    } else if Points(l'.head, n) {
      assert Points(l.head, n) || PcMentions(l.threads[t], n);
    } else if m :| 0 <= m < |l'.next| && Points(l'.next[m], n) {
      assert Points(l.next[m], n) || PcMentions(l.threads[t], n);
    }
  }

  lemma NewlyMentioned(l: Lists.State, e: Lists.Event, l': Lists.State, n: Lists.Node)
    requires Lists.Next(l, e, l') && PcMentions(l'.threads[e.thread], n)
    ensures Points(l.head, n) || PcMentions(l.threads[e.thread], n) || (e.StartAdd? && e.node == n)
            || (l.threads[e.thread].LoadNext? && Points(l.next[l.threads[e.thread].node], n))
  {
  }

  // ---------- What a step of the lifecycle does to blocks ----------

  /** Blocks keep where they came from, the producer its place in the code unless it moves, and others their blocks. */
  ghost predicate LifeStep(life: Life.State, e: Life.Event, life': Life.State) {
    && |life'.work| == |life.work| && |life.mem| <= |life'.mem|
    && |life'.mem| <= |life.mem| + (if Allocates(e) then 1 else 0)
    && (forall b :: 0 <= b < |life.mem| ==> life'.mem[b].dynamic == life.mem[b].dynamic)
    && (Agent(e) != Some(0) ==> life'.prod == life.prod)
    && (forall b :: b in life.foreign && e != Life.Others(Life.Return(b)) ==> b in life'.foreign)
  }

  /** What it does to the pool when it takes nothing. */
  ghost predicate PoolStep(life: Life.State, e: Life.Event, life': Life.State) {
    forall b :: b in life'.pool <==> b in life.pool || (Returned(life, e) == Some(b) && !Destroys(life, b))
  }

  lemma WorkSteps(life: Life.State, t: nat)
    requires Life.Enabled(life, Life.DoWork(t))
    ensures LifeStep(life, Life.DoWork(t), Life.WorkStep(life, t)) && PoolStep(life, Life.DoWork(t), Life.WorkStep(life, t))
  {
    hide Life.Onward, Life.EmptyCells;
    match life.work[t] {
      case CountOut(from, end, stop, b) =>
        OnwardSteps(life.(mem := life.mem[b := life.mem[b].(count := life.mem[b].count + (end - from))]), t, end, stop);
      case GiveBack(k, i, stop, b) =>
        OnwardSteps(Life.ReturnBlock(life, b).(released := life.released + [k]), t, i, stop);
      case _ =>
    }
  }

  lemma OnwardSteps(life: Life.State, t: nat, i: int, stop: int)
    requires t < |life.work| == |life.claim.threads| && life.claim.threads[t].Holding?
    ensures var life' := Life.Onward(life, t, i, stop);
      life'.mem == life.mem && life'.pool == life.pool && life'.foreign == life.foreign && life'.prod == life.prod && |life'.work| == |life.work|
  {
  }

  lemma ProduceSteps(life: Life.State)
    requires Life.Enabled(life, Life.Produce)
    ensures LifeStep(life, Life.Produce, Life.ProduceStep(life)) && PoolStep(life, Life.Produce, Life.ProduceStep(life))
  {
    hide Life.EmptyCells, Life.WriteTarget, Life.Goto;
  }

  lemma LifeSteps(life: Life.State, e: Life.Event)
    requires Life.Enabled(life, e)
    ensures LifeStep(life, e, Life.Apply(life, e)) && (!Takes(e) ==> PoolStep(life, e, Life.Apply(life, e)))
  {
    hide Life.EmptyCells;
    match e {
      case DoWork(t) => WorkSteps(life, t);
      case Produce => ProduceSteps(life);
      case _ =>
    }
  }

  /** Taking the `j`-th block of the pool. */
  lemma TakeSteps(life: Life.State, t: nat, j: nat)
    requires Reachable(Life.Init, Life.Next, life) && Life.Enabled(life, TakeEvent(t, j))
    ensures var life' := Life.Apply(life, TakeEvent(t, j));
      && j < |life.pool|
      && (forall b :: b in life'.pool <==> b in life.pool && b != life.pool[j])
      && (if t == 0 then life'.prod.Resetting? && life'.prod.block == life.pool[j] else life.pool[j] in life'.foreign)
  {
    var h := Life.Invariant(life);
    WithoutOne(life.pool, j);
  }

  lemma WithoutOne(pool: seq<BlockId>, j: nat)
    requires j < |pool| && forall i, k :: 0 <= i < k < |pool| ==> pool[i] != pool[k]
    ensures forall b :: b in pool[..j] + pool[j + 1..] <==> b in pool && b != pool[j]
  {
    var pool' := pool[..j] + pool[j + 1..];
    forall b ensures b in pool' <==> b in pool && b != pool[j] {
      if b in pool && b != pool[j] {
        var i :| 0 <= i < |pool| && pool[i] == b;
        assert pool'[if i < j then i else i - 1] == b;
      }
      if b in pool' {
        var i :| 0 <= i < |pool'| && pool'[i] == b;
        assert b == pool[if i < j then i else i + 1];
      }
    }
  }

  // ---------- The invariant ----------

  /** The part of a call of `try_get`. */
  predicate InGet(pc: Lists.Pc) {
    match pc
    case Idle => false
    case LoadHead => true
    case LoadRefs(_) => true
    case CasRefs(_, _) => true
    case LoadNext(_) => true
    case CasHead(_, _) => true
    case DropTwo(_) => false
    case DropOne(_, _) => true
    case PutLoadHead(_, k) => k.Retry?
    case PutStoreNext(_, _, k) => k.Retry?
    case PutStoreRefs(_, _, k) => k.Retry?
    case PutCasHead(_, _, k) => k.Retry?
    case PutGiveUp(_, _, k) => k.Retry?
  }

  /** The pool is the rest of the initial pool and what is in the list. */
  ghost predicate PoolOk(s: State, b: BlockId) {
    && (b in s.life.pool <==> s.index <= b < s.size || InList(s.list, b))
    && (s.index <= b < s.size ==> b in s.list.owned)
  }

  /** A thread gets a block only for who lacks one, and what it is about to get belongs to nobody else. */
  ghost predicate ThreadOk(s: State, t: nat)
    requires t < |s.list.threads|
  {
    var pc := s.list.threads[t];
    && (InGet(pc) ==> if t == 0 then s.life.prod.Reserving? else OthersFrom(s) <= t)
    && (pc.DropTwo? ==> if t == 0 then s.life.prod.Resetting? && s.life.prod.block == pc.node
                        else OthersFrom(s) <= t && pc.node in s.life.foreign)
  }

  /** No thread of the list will ever look at a block that was destroyed. */
  ghost predicate NotDestroyed(s: State, n: Lists.Node) {
    Mentions(s.list, n) ==> n < |s.life.mem| && !Life.IsDestroyed(s.life.mem[n])
  }

  ghost predicate Inv(s: State) {
    && Reachable(Life.Init, Life.Next, s.life) && Reachable(Lists.Init, Lists.Next, s.list)
    && s.size <= |s.life.mem| <= |s.list.refs| && OthersFrom(s) <= |s.list.threads|
    && (forall b :: PoolOk(s, b))
    && (forall t :: 0 <= t < |s.list.threads| ==> ThreadOk(s, t))
    && (forall n :: NotDestroyed(s, n))
  }

  // ---------- Every step keeps the invariant ----------

  /** A node about to be handed over is in nobody's hands. */
  lemma HandedOverNotOwned(l: Lists.State, t: nat)
    requires Reachable(Lists.Init, Lists.Next, l) && t < |l.threads| && l.threads[t].DropTwo?
    ensures l.threads[t].node < |l.refs| && l.threads[t].node !in l.owned
  {
    var h := Lists.Invariant(l);
    assert Lists.ThreadOk(l, h, t);
    assert Lists.RoleOk(l, h, l.threads[t].node);
  }

  lemma LocalKeeps(s: State, le: Life.Event)
    requires Inv(s) && Enabled(s, Local(le))
    ensures Inv(Apply(s, Local(le)))
  {
    hide Life.Apply, InList, Mentions, Life.Enabled;
    var s' := Apply(s, Local(le));
    LifeSteps(s.life, le);
    Extend(Life.Init, Life.Next, s.life, le, s'.life);
    forall b ensures PoolOk(s', b) && NotDestroyed(s', b) {
      assert PoolOk(s, b) && NotDestroyed(s, b);
    }
    forall t | 0 <= t < |s.list.threads| ensures ThreadOk(s', t) {
      assert ThreadOk(s, t);
      if s.list.threads[t].DropTwo? {
        HandedOverNotOwned(s.list, t);
      }
    }
  }

  /** A block that is given back is not in the pool. */
  lemma ReturnedNotPooled(life: Life.State, e: Life.Event)
    requires Reachable(Life.Init, Life.Next, life) && Life.Enabled(life, e) && Returned(life, e).Some?
    ensures Returned(life, e).value < |life.mem| && Returned(life, e).value !in life.pool
  {
    var h := Life.Invariant(life);
    var b := Returned(life, e).value;
    match e {
      case DoWork(t) => Life.WorkersBlock(life, h, t, b);
      case Produce => assert Life.Hand(life.prod)[0] == b;
      case Others(_) =>
    }
    assert Life.RoleOk(life, h, b);
  }

  lemma GiveBackKeeps(s: State, t: nat, le: Life.Event)
    requires Inv(s) && Enabled(s, GiveBack(t, le))
    ensures Inv(Apply(s, GiveBack(t, le)))
  {
    hide Life.Apply, InList, Mentions, Life.Enabled, Lists.WellFormed;
    var s' := Apply(s, GiveBack(t, le));
    var b := Returned(s.life, le).value;
    var add := Lists.StartAdd(t, b);
    LifeSteps(s.life, le);
    Extend(Life.Init, Life.Next, s.life, le, s'.life);
    ReturnedNotPooled(s.life, le);
    ListSteps(s.list, add, s'.list);
    forall c ensures PoolOk(s', c) && NotDestroyed(s', c) {
      assert PoolOk(s, c) && NotDestroyed(s, c) && PoolOk(s, b);
      if Mentions(s'.list, c) {
        MentionedBefore(s.list, add, s'.list, c);
      }
    }
    forall u | 0 <= u < |s'.list.threads| ensures ThreadOk(s', u) {
      assert ThreadOk(s, u);
      if s.list.threads[u].DropTwo? {
        HandedOverNotOwned(s.list, u);
      }
    }
  }

  lemma MayTake(life: Life.State, t: nat, b: BlockId)
    requires b in life.pool && (t == 0 ==> life.prod.Reserving?)
    ensures exists j: nat :: CanTake(life, t, b, j)
  {
    var i: nat :| i < |life.pool| && life.pool[i] == b;
    assert CanTake(life, t, b, i);
  }

  /** Who lacks a block is handed `b` out of the pool. */
  lemma HandsOver(life: Life.State, t: nat, b: BlockId) returns (j: nat)
    requires Reachable(Life.Init, Life.Next, life) && b in life.pool && (t == 0 ==> life.prod.Reserving?)
    ensures CanTake(life, t, b, j) && Reachable(Life.Init, Life.Next, Handed(life, t, b))
    ensures LifeStep(life, TakeEvent(t, j), Handed(life, t, b))
    ensures forall c :: c in Handed(life, t, b).pool <==> c in life.pool && c != b
    ensures if t == 0 then Handed(life, t, b).prod.Resetting? && Handed(life, t, b).prod.block == b
            else b in Handed(life, t, b).foreign
  {
    hide Life.Apply, Life.Enabled;
    MayTake(life, t, b);
    j :| CanTake(life, t, b, j) && Handed(life, t, b) == Life.Apply(life, TakeEvent(t, j));
    LifeSteps(life, TakeEvent(t, j));
    TakeSteps(life, t, j);
    Extend(Life.Init, Life.Next, life, TakeEvent(t, j), Handed(life, t, b));
  }

  lemma TakeInitialKeeps(s: State, t: nat)
    requires Inv(s) && Enabled(s, TakeInitial(t))
    ensures Inv(Apply(s, TakeInitial(t)))
  {
    hide Life.Apply, InList, Mentions, Life.Enabled, Lists.WellFormed, Handed;
    var s' := Apply(s, TakeInitial(t));
    assert PoolOk(s, s.index);
    if s.index < s.size {
      var j := HandsOver(s.life, t, s.index);
      if InList(s.list, s.index) {
        InListNotOwned(s.list, s.index);
      }
    }
    forall b ensures PoolOk(s', b) && NotDestroyed(s', b) {
      assert PoolOk(s, b) && NotDestroyed(s, b);
    }
    forall u | 0 <= u < |s.list.threads| ensures ThreadOk(s', u) {
      assert ThreadOk(s, u);
    }
  }

  lemma InListNotOwned(l: Lists.State, b: BlockId)
    requires InList(l, b)
    ensures b !in l.owned
  {
  }

  lemma StartGetKeeps(s: State, t: nat)
    requires Inv(s) && Enabled(s, StartGet(t))
    ensures Inv(Apply(s, StartGet(t)))
  {
    hide InList, Mentions, Lists.WellFormed;
    var s' := Apply(s, StartGet(t));
    ListSteps(s.list, Lists.StartGet(t), s'.list);
    forall b ensures PoolOk(s', b) && NotDestroyed(s', b) {
      assert PoolOk(s, b) && NotDestroyed(s, b);
      if Mentions(s'.list, b) {
        MentionedBefore(s.list, Lists.StartGet(t), s'.list, b);
      }
    }
    forall u | 0 <= u < |s.list.threads| ensures ThreadOk(s', u) {
      assert ThreadOk(s, u);
    }
  }

  /** How a call goes on. */
  lemma CallGoesOn(l: Lists.State, t: nat)
    requires Lists.WellFormed(l) && Lists.Enabled(l, Lists.Advance(t))
    ensures var l' := Lists.Apply(l, Lists.Advance(t));
      && |l'.threads| == |l.threads|
      && (InGet(l'.threads[t]) ==> InGet(l.threads[t]))
      && (l'.threads[t].DropTwo? <==> HandsOut(l, Lists.Advance(t)).Some?)
      && (l'.threads[t].DropTwo? ==> InGet(l.threads[t]) && HandsOut(l, Lists.Advance(t)) == Some(l'.threads[t].node))
      && (forall n :: n in l.owned ==> n in l'.owned)
  {
  }

  lemma StepKeeps(s: State, t: nat)
    requires Inv(s) && Enabled(s, Step(t))
    ensures Inv(Apply(s, Step(t)))
  {
    hide Life.Apply, InList, Mentions, Life.Enabled, Lists.WellFormed, Handed, Lists.Apply, HandsOut;
    var s' := Apply(s, Step(t));
    var e := Lists.Advance(t);
    ListSteps(s.list, e, s'.list);
    CallGoesOn(s.list, t);
    assert ThreadOk(s, t);
    var n := HandsOut(s.list, e);
    if n.Some? {
      assert PoolOk(s, n.value);
      InListNotOwned(s.list, n.value);
      var j := HandsOver(s.life, t, n.value);
    }
    forall b ensures PoolOk(s', b) && NotDestroyed(s', b) {
      assert PoolOk(s, b) && NotDestroyed(s, b);
      if Mentions(s'.list, b) {
        MentionedBefore(s.list, e, s'.list, b);
      }
    }
    forall u | 0 <= u < |s.list.threads| ensures ThreadOk(s', u) {
      assert ThreadOk(s, u);
    }
  }

  lemma InitialInv(s: State)
    requires Init(s)
    ensures Inv(s)
  {
    assert Reaches(Life.Init, Life.Next, [], s.life);
    assert Reaches(Lists.Init, Lists.Next, [], s.list);
    forall b: BlockId ensures PoolOk(s, b) {
      if b < |s.life.pool| {
        assert s.life.pool[b] == b;
      }
    }
  }

  lemma Invariant(s: State)
    requires Reachable(Init, Next, s)
    ensures Inv(s)
  {
    forall a: State | Init(a) ensures Inv(a) {
      InitialInv(a);
    }
    forall a: State, e: Event, b: State | Inv(a) && Next(a, e, b) ensures Inv(b) {
      match e {
        case Local(le) => LocalKeeps(a, le);
        case GiveBack(t, le) => GiveBackKeeps(a, t, le);
        case TakeInitial(t) => TakeInitialKeeps(a, t);
        case StartGet(t) => StartGetKeeps(a, t);
        case Step(t) => StepKeeps(a, t);
      }
    }
    Induction(Init, Next, Inv, s);
  }

  // ---------- What holds in every reachable state ----------

  /**
   The lifecycle with the real pool makes no other runs: with the insides of the list hidden, every
   reachable state is one of BlockLifecycle, and the list is used as FreeList asks of its clients.
   So the theorems of both modules hold here.
   */
  lemma RefinesTheLifecycle(s: State)
    requires Reachable(Init, Next, s)
    ensures Reachable(Life.Init, Life.Next, s.life) && Reachable(Lists.Init, Lists.Next, s.list)
  {
    Invariant(s);
  }

  /** The pool of the lifecycle is, at any moment, the rest of the initial pool and what is in the list. */
  lemma PoolIsTheList(s: State, b: BlockId)
    requires Reachable(Init, Next, s)
    ensures b in s.life.pool <==> s.index <= b < s.size || InList(s.list, b)
    ensures s.index <= b < s.size ==> !InList(s.list, b)
  {
    Invariant(s);
    assert PoolOk(s, b);
  }

  /** A block the producer or a consumer is about to give back is its own, as `add` asks, and `add` can begin. */
  lemma GiveBackIsLegal(s: State, le: Life.Event)
    requires Reachable(Init, Next, s) && Life.Enabled(s.life, le) && Agent(le).Some? && Free(s, le)
    requires Returned(s.life, le).Some? && !Destroys(s.life, Returned(s.life, le).value)
    ensures Enabled(s, GiveBack(Agent(le).value, le))
  {
    Invariant(s);
    var b := Returned(s.life, le).value;
    var h := Life.Invariant(s.life);
    var lh := Lists.Invariant(s.list);
    ReturnedNotPooled(s.life, le);
    assert PoolOk(s, b) && Life.RoleOk(s.life, h, b);
    match le {
      case DoWork(t) => Life.WorkersBlock(s.life, h, t, b);
      case Produce => assert Life.Hand(s.life.prod)[0] == b;
    }
    if s.life.prod.Resetting? {
      assert Life.Hand(s.life.prod)[0] == s.life.prod.block;
      assert Life.RoleOk(s.life, h, s.life.prod.block);
    }
    forall t | 0 <= t < |s.list.threads| ensures s.list.threads[t] != Lists.DropTwo(b) {
      assert ThreadOk(s, t);
    }
  }

  /**
   While blocks of the initial pool are left, whoever asks gets the next of them, which is in no use;
   when none is left nothing happens to any block.
   */
  lemma TakesTheNextInitialBlock(s: State, t: nat)
    requires Reachable(Init, Next, s) && Enabled(s, TakeInitial(t))
    ensures var b, s' := s.index, Apply(s, TakeInitial(t));
      if b < s.size then
        && b in s.life.pool && b < |s.life.mem| && s.life.mem[b].cells == Life.EmptyCells() && b !in s.life.freed
        && (forall k :: k in s.life.entries ==> s.life.entries[k] != b)
        && b !in s'.life.pool && (forall c :: c in s.life.pool && c != b ==> c in s'.life.pool)
        && (if t == 0 then s'.life.prod.Resetting? && s'.life.prod.block == b else b in s'.life.foreign)
        && s'.index == b + 1 && s'.list == s.list
      else s'.life == s.life && s'.list == s.list
  {
    hide Life.Apply, InList, Mentions, Life.Enabled, Lists.WellFormed, Handed;
    Invariant(s);
    if s.index < s.size {
      assert PoolOk(s, s.index);
      Life.PooledBlocksAreFree(s.life, s.index, 0);
      var j := HandsOver(s.life, t, s.index);
    }
  }

  /**
   A head compare-and-swap that succeeds hands out a block that is in the pool: no index entry has it,
   no consumer is in it, it holds no element; and then who asked for it has it.
   */
  lemma HandsOutAFreeBlock(s: State, t: nat)
    requires Reachable(Init, Next, s) && Enabled(s, Step(t)) && HandsOut(s.list, Lists.Advance(t)).Some?
    ensures var b := HandsOut(s.list, Lists.Advance(t)).value;
      && b in s.life.pool && b < |s.life.mem| && s.life.mem[b].cells == Life.EmptyCells() && b !in s.life.freed
      && (forall k :: k in s.life.entries ==> s.life.entries[k] != b)
      && (forall u :: 0 <= u < |s.life.work| ==> !Life.WorksIn(s.life.work[u], b))
      && var life' := Apply(s, Step(t)).life;
      && b !in life'.pool
      && if t == 0 then life'.prod.Resetting? && life'.prod.block == b else b in life'.foreign
  {
    Invariant(s);
    var e := Lists.Advance(t);
    var b := HandsOut(s.list, e).value;
    ListSteps(s.list, e, Lists.Apply(s.list, e));
    assert PoolOk(s, b) && ThreadOk(s, t);
    Life.PooledBlocksAreFree(s.life, b, 0);
    forall u | 0 <= u < |s.life.work| ensures !Life.WorksIn(s.life.work[u], b) {
      Life.PooledBlocksAreFree(s.life, b, u);
    }
    var j := HandsOver(s.life, t, b);
  }

  /** Destroyed blocks are never looked at again: no thread of the list and no link leads to one. */
  lemma DestroyedBlocksAreForgotten(s: State, b: BlockId)
    requires Reachable(Init, Next, s) && b in s.life.freed
    ensures !Mentions(s.list, b)
  {
    Invariant(s);
    assert NotDestroyed(s, b);
    FreedWereDestroyed(s.life, b);
  }

  lemma FreedWereDestroyed(life: Life.State, b: BlockId)
    requires Reachable(Life.Init, Life.Next, life) && b in life.freed
    ensures b < |life.mem| && Life.IsDestroyed(life.mem[b])
  {
    var h := Life.Invariant(life);
    assert Life.RoleOk(life, h, b);
  }
}
