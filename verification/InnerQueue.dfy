/**
 The dequeue methods of the queue proper, when one thread runs alone: every other thread may be
 stopped anywhere inside its own dequeue, but takes no step.  The sub-queues are listed from
 `producerListTail` on.
 */
module InnerQueue {
  import opened Numbers
  import opened Options
  import opened Runs
  import Claims = ClaimProtocol
  import opened BlockingQueue

  /** The sub-queue after `n` elements were claimed from its head in one uninterrupted dequeue. */
  function TakeAlone(c: Claims.State, n: int): Claims.State {
    c.(head := c.head + n, optimistic := c.optimistic + n)
  }

  /** What one uninterrupted dequeue of at most `max` comes away with. */
  function Yield(c: Claims.State, max: nat): nat { Max(0, Min(max, Free(c))) }

  /** All that is free, over all sub-queues. */
  function AllFree(subs: seq<Claims.State>): nat {
    SumBounds(FreeParts(subs));
    Sum(FreeParts(subs))
  }

  /** Thread `t` is between operations in every sub-queue, and no sub-queue has lost units. */
  ghost predicate Ready(subs: seq<Claims.State>, t: nat) {
    forall p :: 0 <= p < |subs| ==>
      && t < |subs[p].threads| && subs[p].threads[t] == Claims.Idle
      && Free(subs[p]) <= Size(subs[p])
  }

  /** Running its five atomic steps and the return, thread `t` performs exactly `TakeAlone`. */
  lemma RunsAlone(c: Claims.State, t: nat, max: nat)
    requires t < |c.threads| && c.threads[t] == Claims.Idle && max > 0
    ensures var end := Claims.Solo(Claims.Apply(c, Claims.StartDequeue(t, max)), t, 5);
      && (if Yield(c, max) == 0 then end == c
          else end.threads[t] == Claims.Holding(c.head, Yield(c, max)) && Claims.Move(end, t) == TakeAlone(c, Yield(c, max)))
  {
    Claims.SoloDequeue(c, t, max);
    assert c.threads[t := Claims.Idle] == c.threads;
    assert c.threads[t := Claims.Holding(c.head, Yield(c, max))][t := Claims.Idle] == c.threads;
  }

  /** From each sub-queue `amounts[p]` elements were taken, no more than were free; from `i` on none. */
  ghost predicate Took(before: seq<Claims.State>, now: seq<Claims.State>, amounts: seq<int>, i: nat) {
    && |amounts| == |before| == |now|
    && (forall p :: 0 <= p < |now| ==>
          0 <= amounts[p] <= Max(0, Free(before[p])) && now[p] == TakeAlone(before[p], amounts[p]))
    && (forall p :: i <= p < |now| ==> amounts[p] == 0)
  }

  /** The non-empty sub-queues among the first `i`. */
  function NonEmptyBefore(subs: seq<Claims.State>, i: nat): nat
    requires i <= |subs|
  {
    if i == 0 then 0 else NonEmptyBefore(subs, i - 1) + if Size(subs[i - 1]) > 0 then 1 else 0
  }

  /** Sub-queue `b` is one of the first three that are not empty, and the longest of them, the first of the longest ones. */
  ghost predicate Longest(subs: seq<Claims.State>, b: nat) {
    && b < |subs| && Size(subs[b]) > 0 && NonEmptyBefore(subs, b) < 3
    && forall p :: 0 <= p < |subs| && NonEmptyBefore(subs, p) < 3 ==>
         Size(subs[p]) <= Size(subs[b]) && (p < b ==> Size(subs[p]) < Size(subs[b]))
  }

  /** Sub-queue `b` if it has something free, and else the first one that has. */
  ghost predicate FirstChoice(subs: seq<Claims.State>, b: nat, p: nat) {
    && p < |subs| && Free(subs[p]) > 0
    && (p != b ==> b < |subs| && Free(subs[b]) <= 0 && forall q :: 0 <= q < p ==> Free(subs[q]) <= 0)
  }

  lemma {:induction false} CountsUp(subs: seq<Claims.State>, i: nat, j: nat)
    requires i <= j <= |subs|
    ensures NonEmptyBefore(subs, i) <= NonEmptyBefore(subs, j)
    decreases j
  {
    if i < j {
      CountsUp(subs, i, j - 1);
    }
  }

  /** The scan that has seen three, or all, has the longest of the first three. */
  lemma ScanIsOver(subs: seq<Claims.State>, i: nat)
    requires i <= |subs| && (i == |subs| || NonEmptyBefore(subs, i) >= 3)
    ensures forall p :: i <= p < |subs| ==> NonEmptyBefore(subs, p) >= 3
  {
    forall p | i <= p < |subs| ensures NonEmptyBefore(subs, p) >= 3 {
      CountsUp(subs, i, p);
    }
  }

  lemma LongestIsThere(subs: seq<Claims.State>, b: nat)
    requires Longest(subs, b)
    ensures b < |subs|
  {
  }

  lemma NoneTaken(subs: seq<Claims.State>, p: nat)
    requires p < |subs|
    ensures subs[p := TakeAlone(subs[p], 0)] == subs
  {
  }

  /** Of the first `i` sub-queues each gave what was still wanted when its turn came, as far as it had that. */
  ghost predicate InOrder(subs: seq<Claims.State>, amounts: seq<int>, max: nat, i: nat) {
    i <= |subs| == |amounts| && forall p :: 0 <= p < i ==> amounts[p] == Yield(subs[p], max - Min(max, AllFree(subs[..p])))
  }

  /** Those after where enough was got gave nothing. */
  lemma EnoughByThen(subs: seq<Claims.State>, amounts: seq<int>, max: nat, i: nat)
    requires InOrder(subs, amounts, max, i) && max <= AllFree(subs[..i])
    requires forall p :: i <= p < |amounts| ==> amounts[p] == 0
    ensures InOrder(subs, amounts, max, |subs|)
  {
    forall p | i <= p < |subs| ensures amounts[p] == Yield(subs[p], max - Min(max, AllFree(subs[..p]))) {
      FreeRest(subs[..p], i);
      assert subs[..p][..i] == subs[..i];
    }
  }

  lemma NotTakenYet(was: seq<Claims.State>, now: seq<Claims.State>, amounts: seq<int>, i: nat)
    requires Took(was, now, amounts, i) && i < |was|
    ensures |amounts| == |now| == |was| && now[i] == was[i] && amounts[i] == 0
  {
  }

  /** Sub-queue `i` gives what is still wanted, as far as it has that. */
  lemma OneMoreTook(was: seq<Claims.State>, now: seq<Claims.State>, amounts: seq<int>, i: nat, n: nat, max: nat, count: nat)
    requires Took(was, now, amounts, i) && InOrder(was, amounts, max, i) && i < |was| == |now|
    requires count == Min(max, AllFree(was[..i])) && n == Yield(was[i], max - count)
    ensures Took(was, now[i := TakeAlone(now[i], n)], amounts[i := n], i + 1)
    ensures InOrder(was, amounts[i := n], max, i + 1)
    ensures |amounts| == |was| && amounts[i] == 0
    ensures count + n == Min(max, AllFree(was[..i + 1]))
  {
    FreeStep(was, i);
  }

  lemma NoneAfter(was: seq<Claims.State>, now: seq<Claims.State>, amounts: seq<int>, i: nat)
    requires Took(was, now, amounts, i) && i <= |was|
    ensures |amounts| == |was| && Took(was, now, amounts, |was|) && forall p :: i <= p < |amounts| ==> amounts[p] == 0
  {
  }

  lemma NothingTaken(subs: seq<Claims.State>, amounts: seq<int>)
    requires |amounts| == |subs| && forall p :: 0 <= p < |amounts| ==> amounts[p] == 0
    ensures Took(subs, subs, amounts, 0) && (forall max: nat :: InOrder(subs, amounts, max, 0)) && AllFree(subs[..0]) == 0
  {
  }

  class Inner {
    var subs: seq<Claims.State>

    /** A dequeue on one sub-queue. */
    method DequeueFrom(p: nat, t: nat, max: nat) returns (n: nat)
      requires p < |subs| && Ready(subs, t) && max > 0
      modifies this
      ensures n == Yield(old(subs[p]), max)
      ensures subs == old(subs)[p := TakeAlone(old(subs[p]), n)]
      ensures Ready(subs, t)
    {
      RunsAlone(subs[p], t, max);
      var end := Claims.Solo(Claims.Apply(subs[p], Claims.StartDequeue(t, max)), t, 5);
      if end.threads[t] != Claims.Idle {
        n := end.threads[t].count;
        subs := subs[p := Claims.Move(end, t)];
      } else {
        n := 0;
        assert subs[p := TakeAlone(subs[p], 0)] == subs;
      }
    }

    /** The scan of try_dequeue: the longest of the first three non-empty sub-queues, if there is any. */
    method FindBest() returns (best: Option<nat>)
      ensures best.Some? ==> Longest(subs, best.value)
      ensures best == None ==> forall p :: 0 <= p < |subs| ==> Size(subs[p]) <= 0
    {
      hide Claims.Apply;
      best := None;
      var nonEmptyCount := 0;
      var bestSize := 0;
      var i := 0;
      while i < |subs| && nonEmptyCount < 3
        invariant 0 <= i <= |subs| && nonEmptyCount == NonEmptyBefore(subs, i)
        invariant if nonEmptyCount > 0 then best.Some? else bestSize == 0 && best == None
        invariant best.Some? ==> best.value < i && bestSize == Size(subs[best.value]) > 0 && NonEmptyBefore(subs, best.value) < 3
        invariant best.Some? ==> forall p :: 0 <= p < best.value ==> Size(subs[p]) < bestSize
        invariant forall p :: 0 <= p < i ==> Size(subs[p]) <= bestSize
      {
        var size := if subs[i].head < subs[i].tail then Size(subs[i]) else 0;
        if size > 0 {
          if size > bestSize {
            bestSize := size;
            best := Some(i);
          }
          nonEmptyCount := nonEmptyCount + 1;
        }
        i := i + 1;
      }
      ScanIsOver(subs, i);
    }

    /**
     try_dequeue: look for the longest of the first three non-empty sub-queues, try that one, then
     all the others.  It fails only when nothing is free anywhere.
     */
    method TryDequeue(t: nat) returns (found: bool, ghost best: nat, ghost from: nat)
      requires Ready(subs, t)
      modifies this
      ensures found <==> exists p :: 0 <= p < |old(subs)| && Free(old(subs)[p]) > 0
      ensures found ==> Longest(old(subs), best) && FirstChoice(old(subs), best, from)
      ensures subs == if found then old(subs)[from := TakeAlone(old(subs)[from], 1)] else old(subs)
      ensures Ready(subs, t)
    {
      hide TakeAlone, Longest;
      found, best, from := false, 0, 0;
      var candidate := FindBest();
      if candidate == None {
        return;
      }
      LongestIsThere(subs, candidate.value);
      best := candidate.value;
      from := best;
      var n := DequeueFrom(candidate.value, t, 1);
      if n == 1 {
        found := true;
        return;
      }
      NoneTaken(old(subs), best);
      var i := 0;
      while i < |subs|
        invariant 0 <= i <= |subs| && subs == old(subs) && !found
        invariant forall p :: 0 <= p < i ==> Free(subs[p]) <= 0
        invariant Ready(subs, t)
      {
        if i != candidate.value {
          n := DequeueFrom(i, t, 1);
          if n == 1 {
            from := i;
            found := true;
            return;
          }
          NoneTaken(old(subs), i);
        }
        i := i + 1;
      }
    }

    /** try_dequeue_bulk: take what is free from one sub-queue after the other until `max` is reached. */
    method TryDequeueBulk(t: nat, max: nat) returns (count: nat, ghost amounts: seq<int>)
      requires Ready(subs, t) && max > 0
      modifies this
      ensures count == Min(max, AllFree(old(subs)))
      ensures Sum(amounts) == count && Took(old(subs), subs, amounts, |subs|) && InOrder(old(subs), amounts, max, |subs|)
      ensures Ready(subs, t)
    {
      hide TakeAlone, Took, InOrder, AllFree, Sum, Yield;
      count := 0;
      amounts := seq(|subs|, _ => 0);
      SumZeros(amounts);
      NothingTaken(subs, amounts);
      var i := 0;
      while i < |subs|
        invariant 0 <= i <= |subs| == |old(subs)|
        invariant count == Min(max, AllFree(old(subs)[..i])) && count < max
        invariant Took(old(subs), subs, amounts, i) && Sum(amounts) == count && InOrder(old(subs), amounts, max, i)
        invariant Ready(subs, t)
      {
        ghost var now := subs;
        NotTakenYet(old(subs), now, amounts, i);
        var n := DequeueFrom(i, t, max - count);
        FreeStep(old(subs), i);
        OneMoreTook(old(subs), now, amounts, i, n, max, count);
        SumUpdate(amounts, i, n);
        count := count + n;
        amounts := amounts[i := n];
        i := i + 1;
        if count == max {
          FreeRest(old(subs), i);
          NoneAfter(old(subs), subs, amounts, i);
          EnoughByThen(old(subs), amounts, max, i);
          return;
        }
      }
      assert old(subs)[..i] == old(subs);
    }

    /** The retry loop of the blocking bulk forms: until the owed elements are in hand, each claimed from a sub-queue. */
    method Redeem(t: nat, owed: nat) returns (count: nat, ghost amounts: seq<int>)
      requires Ready(subs, t) && owed <= AllFree(subs)
      modifies this
      ensures count == owed
      ensures Sum(amounts) == owed && Took(old(subs), subs, amounts, |subs|)
      ensures Ready(subs, t)
    {
      count := 0;
      amounts := seq(|subs|, _ => 0);
      SumZeros(amounts);
      while count != owed
        invariant count == 0 || count == owed
        invariant count == 0 ==> subs == old(subs)
        invariant Sum(amounts) == count && Took(old(subs), subs, amounts, |subs|)
        invariant Ready(subs, t)
        decreases owed - count
      {
        var n;
        n, amounts := TryDequeueBulk(t, owed - count);
        count := count + n;
      }
    }

    /** The retry loop of the blocking single forms: one element, claimed from one sub-queue. */
    method RedeemOne(t: nat)
      requires Ready(subs, t) && 1 <= AllFree(subs)
      modifies this
      ensures exists p :: 0 <= p < |old(subs)| && Free(old(subs)[p]) > 0
                && subs == old(subs)[p := TakeAlone(old(subs)[p], 1)]
      ensures Ready(subs, t)
    {
      var found := false;
      while !found
        invariant !found ==> subs == old(subs)
        invariant found ==> exists p :: 0 <= p < |old(subs)| && Free(old(subs)[p]) > 0
                              && subs == old(subs)[p := TakeAlone(old(subs)[p], 1)]
        invariant Ready(subs, t)
        decreases !found
      {
        SomewhereFree(subs);
        ghost var best, from;
        found, best, from := TryDequeue(t);
      }
    }
  }

  lemma {:induction false} SomewhereFree(subs: seq<Claims.State>)
    requires 1 <= AllFree(subs)
    ensures exists p :: 0 <= p < |subs| && Free(subs[p]) > 0
  {
    if forall p :: 0 <= p < |subs| ==> Free(subs[p]) <= 0 {
      SumZeros(FreeParts(subs));
    }
  }

  lemma FreeStep(subs: seq<Claims.State>, i: nat)
    requires i < |subs|
    ensures AllFree(subs[..i + 1]) == AllFree(subs[..i]) + Max(0, Free(subs[i]))
  {
    SumAppend(FreeParts(subs[..i]), Max(0, Free(subs[i])));
    assert FreeParts(subs[..i + 1]) == FreeParts(subs[..i]) + [Max(0, Free(subs[i]))];
  }

  lemma {:induction false} FreeRest(subs: seq<Claims.State>, i: nat)
    requires i <= |subs|
    ensures AllFree(subs[..i]) <= AllFree(subs)
    decreases |subs| - i
  {
    if i < |subs| {
      FreeStep(subs, i);
      FreeRest(subs, i + 1);
    } else {
      assert subs[..i] == subs;
    }
  }

  /**
   The permits justify the unbounded retry loop: in every reachable state a client that holds
   permits and runs alone, however the others were stopped, meets the precondition of `Redeem` and
   so gets all its elements.
   */
  lemma PermitHolderRedeemsAlone(s: State, t: nat)
    requires Reachable(Init, Next, s) && t < |s.clients| && s.clients[t].Owing? && s.clients[t].at == None
    ensures Ready(s.subs, t) && s.clients[t].owed <= AllFree(s.subs)
  {
    Invariant(s);
    PermitHolderFindsFreeElements(s, t);
    forall p | 0 <= p < |s.subs| ensures s.subs[p].threads[t] == Claims.Idle && Free(s.subs[p]) <= Size(s.subs[p]) {
      assert ClientOk(s, t, p);
      var h: Claims.History :| Claims.Inv(s.subs[p], h);
    }
  }
}
