/** Any sequence of operations on one implicit producer is one on a plain FIFO queue. */
module ProducerRuns {
  import BlockContents
  import opened BlockPool
  import opened ImplicitProducer
  import opened Numbers

  datatype Operation =
    | Enqueue(x: Element, mayAllocate: bool, memory: Memory)
    | EnqueueBulk(items: seq<Element>, mayAllocate: bool, memory: Memory)
    | Dequeue
    | DequeueBulk(max: nat)

  datatype Outcome = Accepted | Rejected | Took(items: seq<Element>)

  /** What an operation offers to the queue. */
  function Offered(op: Operation): seq<Element> {
    match op
    case Enqueue(x, _, _) => [x]
    case EnqueueBulk(items, _, _) => items
    case Dequeue => []
    case DequeueBulk(_) => []
  }

  /** How many elements an operation asks for. */
  function Wanted(op: Operation): nat {
    match op
    case Enqueue(_, _, _) => 0
    case EnqueueBulk(_, _, _) => 0
    case Dequeue => 1
    case DequeueBulk(max) => max
  }

  /** One operation of a queue that takes in all that is offered or nothing, and gives from the front all it has of what is wanted. */
  ghost predicate FifoStep(was: seq<Element>, op: Operation, outcome: Outcome, now: seq<Element>) {
    match op
    case Enqueue(_, _, _) => (outcome == Accepted && now == was + Offered(op)) || (outcome == Rejected && now == was)
    case EnqueueBulk(_, _, _) => (outcome == Accepted && now == was + Offered(op)) || (outcome == Rejected && now == was)
    case Dequeue => outcome.Took? && |outcome.items| == Min(Wanted(op), |was|) && was == outcome.items + now
    case DequeueBulk(_) => outcome.Took? && |outcome.items| == Min(Wanted(op), |was|) && was == outcome.items + now
  }

  ghost predicate FifoRun(was: seq<Element>, ops: seq<Operation>, outcomes: seq<Outcome>, now: seq<Element>)
    decreases |ops|
  {
    && |outcomes| == |ops|
    && if ops == [] then now == was
       else
         var last := |ops| - 1;
         exists mid :: FifoRun(was, ops[..last], outcomes[..last], mid) && FifoStep(mid, ops[last], outcomes[last], now)
  }

  /** All that was accepted, in order. */
  function AllIn(ops: seq<Operation>, outcomes: seq<Outcome>): seq<Element>
    requires |outcomes| == |ops|
  {
    if ops == [] then []
    else
      var last := |ops| - 1;
      AllIn(ops[..last], outcomes[..last]) + if outcomes[last] == Accepted then Offered(ops[last]) else []
  }

  /** All that was taken, in order. */
  function AllOut(outcomes: seq<Outcome>): seq<Element> {
    if outcomes == [] then []
    else
      var last := |outcomes| - 1;
      AllOut(outcomes[..last]) + if outcomes[last].Took? then outcomes[last].items else []
  }

  /** First in, first out: what came out and what is left, one after the other, is what was there and what came in. */
  lemma {:induction false} FirstInFirstOut(was: seq<Element>, ops: seq<Operation>, outcomes: seq<Outcome>, now: seq<Element>)
    requires FifoRun(was, ops, outcomes, now)
    ensures was + AllIn(ops, outcomes) == AllOut(outcomes) + now
    decreases |ops|
  {
    if ops != [] {
      var last := |ops| - 1;
      var mid :| FifoRun(was, ops[..last], outcomes[..last], mid) && FifoStep(mid, ops[last], outcomes[last], now);
      FirstInFirstOut(was, ops[..last], outcomes[..last], mid);
      var before, out, o := AllIn(ops[..last], outcomes[..last]), AllOut(outcomes[..last]), outcomes[last];
      hide FifoRun;
      if o.Took? {
        assert out + (o.items + now) == (out + o.items) + now;
      } else {
        AtTheEnd(was, before, out, mid, if o == Accepted then Offered(ops[last]) else []);
      }
    }
  }

  lemma AtTheEnd(was: seq<Element>, before: seq<Element>, out: seq<Element>, mid: seq<Element>, offered: seq<Element>)
    requires was + before == out + mid
    ensures was + (before + offered) == out + (mid + offered)
  {
    assert was + (before + offered) == (was + before) + offered;
    assert (out + mid) + offered == out + (mid + offered);
  }

  method Perform(p: Producer, op: Operation) returns (outcome: Outcome)
    requires p.Valid()
    modifies p, p.ring.Repr, p.pool
    ensures p.Valid() && fresh(p.ring.Repr - old(p.ring.Repr))
    ensures FifoStep(old(p.Contents()), op, outcome, p.Contents())
  {
    hide Producer.Core, Producer.TailFits, Producer.WithinLimit, Producer.BlockAvailable, Producer.Suffices;
    hide BlockContents.Restored, BlockContents.KeepsOthers, BlockContents.TookBlocks;
    match op
    case Enqueue(x, mayAllocate, memory) =>
      var ok := p.Enqueue(x, mayAllocate, memory);
      outcome := if ok then Accepted else Rejected;
    case EnqueueBulk(items, mayAllocate, memory) =>
      var ok, got := p.EnqueueBulk(items, mayAllocate, memory);
      outcome := if ok then Accepted else Rejected;
    case Dequeue =>
      var element := p.Dequeue();
      outcome := Took(if element.Some? then [element.value] else []);
    case DequeueBulk(max) =>
      var items := p.DequeueBulk(max);
      outcome := Took(items);
  }

  /** A producer run through any operations behaves as a FIFO queue throughout. */
  method PerformAll(p: Producer, ops: seq<Operation>) returns (outcomes: seq<Outcome>)
    requires p.Valid()
    modifies p, p.ring.Repr, p.pool
    ensures p.Valid() && FifoRun(old(p.Contents()), ops, outcomes, p.Contents())
    ensures old(p.Contents()) + AllIn(ops, outcomes) == AllOut(outcomes) + p.Contents()
  {
    outcomes := [];
    ghost var was := p.Contents();
    for i := 0 to |ops|
      invariant p.Valid() && fresh(p.ring.Repr - old(p.ring.Repr))
      invariant FifoRun(was, ops[..i], outcomes, p.Contents())
    {
      ghost var mid := p.Contents();
      var outcome := Perform(p, ops[i]);
      assert ops[..i + 1][..i] == ops[..i] && (outcomes + [outcome])[..i] == outcomes;
      outcomes := outcomes + [outcome];
    }
    assert ops[..|ops|] == ops;
    FirstInFirstOut(was, ops, outcomes, p.Contents());
  }
}
