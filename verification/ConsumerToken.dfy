/**
 Consumer tokens: how rotations of the global offset spread them over the producers, and how a bulk
 dequeue with a token walks the circular list of producers.

 The list of producers is fixed; they are numbered from `producerListTail` on, and each is a queue of
 its own that one thread uses without interference.
 */
module ConsumerToken {
  import opened Numbers
  import opened Options

  type Element(==, !new, 0)

  /** 32-bit counters wrap around. */
  const WORDS := 0x1_0000_0000

  /** EXPLICIT_CONSUMER_CONSUMPTION_QUOTA_BEFORE_ROTATE */
  const QUOTA: nat := 256

  function Total(producers: seq<seq<Element>>): nat {
    if producers == [] then 0 else |producers[0]| + Total(producers[1..])
  }

  lemma {:induction false} TotalUpdate(producers: seq<seq<Element>>, p: nat, rest: seq<Element>)
    requires p < |producers|
    ensures Total(producers[p := rest]) == Total(producers) - |producers[p]| + |rest|
  {
    if p == 0 {
      assert producers[p := rest][1..] == producers[1..];
    } else {
      assert producers[p := rest][1..] == producers[1..][p - 1 := rest];
      TotalUpdate(producers[1..], p - 1, rest);
    }
  }

  lemma {:induction false} AllEmpty(producers: seq<seq<Element>>)
    requires forall p :: 0 <= p < |producers| ==> producers[p] == []
    ensures Total(producers) == 0
  {
    if producers != [] {
      AllEmpty(producers[1..]);
    }
  }

  /** One dequeue of the walk: `n` elements from the front of producer `p`. */
  datatype Take = Take(p: nat, n: nat)

  /** What is left after some dequeues. */
  ghost function Left(producers: seq<seq<Element>>, takes: seq<Take>): (left: seq<seq<Element>>)
    ensures |left| == |producers|
  {
    if takes == [] then producers
    else
      var before, t := Left(producers, takes[..|takes| - 1]), takes[|takes| - 1];
      if t.p < |before| && t.n <= |before[t.p]| then before[t.p := before[t.p][t.n..]] else before
  }

  /** What they took, in order. */
  ghost function Items(producers: seq<seq<Element>>, takes: seq<Take>): seq<Element> {
    if takes == [] then []
    else
      var before, t := Left(producers, takes[..|takes| - 1]), takes[|takes| - 1];
      Items(producers, takes[..|takes| - 1]) + if t.p < |before| && t.n <= |before[t.p]| then before[t.p][..t.n] else []
  }

  lemma OneMore(producers: seq<seq<Element>>, takes: seq<Take>, t: Take)
    requires var before := Left(producers, takes); t.p < |before| && t.n <= |before[t.p]|
    ensures var before := Left(producers, takes);
      && Left(producers, takes + [t]) == before[t.p := before[t.p][t.n..]]
      && Items(producers, takes + [t]) == Items(producers, takes) + before[t.p][..t.n]
  {
    assert (takes + [t])[..|takes|] == takes;
  }

  /** Nothing is lost, invented or reordered within a producer: each keeps a suffix. */
  lemma {:induction false} EachKeepsASuffix(producers: seq<seq<Element>>, takes: seq<Take>, p: nat) returns (gone: nat)
    requires p < |producers|
    ensures gone <= |producers[p]| && Left(producers, takes)[p] == producers[p][gone..]
  {
    if takes == [] {
      gone := 0;
    } else {
      gone := EachKeepsASuffix(producers, takes[..|takes| - 1], p);
      var before, t := Left(producers, takes[..|takes| - 1]), takes[|takes| - 1];
      if t.p == p && t.n <= |before[p]| {
        assert before[p][t.n..] == producers[p][gone + t.n..];
        gone := gone + t.n;
      }
    }
  }

  lemma {:induction false} LosesAtMost(producers: seq<seq<Element>>, takes: seq<Take>, p: nat)
    requires p < |producers|
    ensures |Left(producers, takes)[p]| + |Items(producers, takes)| >= |producers[p]|
  {
    if takes != [] {
      LosesAtMost(producers, takes[..|takes| - 1], p);
    }
  }

  lemma {:induction false} NothingIsLost(producers: seq<seq<Element>>, takes: seq<Take>)
    ensures |Items(producers, takes)| + Total(Left(producers, takes)) == Total(producers)
  {
    if takes != [] {
      NothingIsLost(producers, takes[..|takes| - 1]);
      var before, t := Left(producers, takes[..|takes| - 1]), takes[|takes| - 1];
      if t.p < |before| && t.n <= |before[t.p]| {
        TotalUpdate(before, t.p, before[t.p][t.n..]);
      }
    }
  }

  // ---------- Places in the circle ----------

  /** The place of the token with id `id` when `g` rotations have been seen. */
  function Place(g: int, id: nat, n: nat): nat
    requires n > 0
  {
    (g - id) % n
  }

  lemma StepsAdd(x: int, k: int, n: nat)
    requires n > 0
    ensures (x % n + k) % n == (x + k) % n && (x + k % n) % n == (x + k) % n
  {
    assert x == (x / n) * n + x % n && k == (k / n) * n + k % n;
    SameRemainder(x + k, x % n + k, n, x / n);
    SameRemainder(x + k, x + k % n, n, k / n);
  }

  /** Whole laps may be left out, and nothing else: `wraps` steps less lead to the same place only then. */
  lemma Arrives(known: int, g: int, id: nat, n: nat, wraps: nat, delta: nat)
    requires n > 0 && g - known - wraps >= 0
    requires delta == if g - known - wraps >= n then (g - known - wraps) % n else g - known - wraps
    ensures (Place(known, id, n) + delta) % n == Place(g, id, n) <==> wraps % n == 0
  {
    var missed := g - known - wraps;
    StepsAdd(Place(known, id, n), missed, n);
    StepsAdd(known - id, missed, n);
    assert known - id + missed == g - id - wraps;
    SameOnlyByLaps(g - id, wraps, n);
  }

  lemma SameOnlyByLaps(x: int, w: int, n: nat)
    requires n > 0
    ensures (x - w) % n == x % n <==> w % n == 0
  {
    var p, q := x / n, (x - w) / n;
    assert x == p * n + x % n && x - w == q * n + (x - w) % n;
    if (x - w) % n == x % n {
      assert w == (p - q) * n + 0;
      DivisionIsUnique(w, n, p - q, 0);
    }
    if w % n == 0 {
      assert x == (x - w) + (w / n) * n;
      SameRemainder(x, x - w, n, w / n);
    }
  }

  /** The starting place of a token is the one for -1 rotations. */
  lemma StartingPlace(id: nat, n: nat)
    requires n > 0
    ensures n - 1 - id % n == Place(-1, id, n)
  {
    assert id == (id / n) * n + id % n;
    assert -1 - id == (-(id / n) - 1) * n + (n - 1 - id % n) by {
      assert (-(id / n) - 1) * n == -((id / n) * n) - n;
    }
    DivisionIsUnique(-1 - id, n, -(id / n) - 1, n - 1 - id % n);
  }

  /** Tokens whose ids are less than `n` apart are at different places. */
  lemma DifferentPlaces(g: int, i: nat, j: nat, n: nat)
    requires i < j < i + n
    ensures Place(g, i, n) != Place(g, j, n)
  {
    if Place(g, i, n) == Place(g, j, n) {
      var q, r := (g - i) / n, (g - j) / n;
      assert g - i == q * n + Place(g, i, n) && g - j == r * n + Place(g, j, n);
      assert (q - r) * n == j - i;
      MulBounds(q - r, n);
    }
  }

  function Around(from: nat, j: nat, n: nat): nat
    requires n > 0
  {
    (from + j) % n
  }

  /** The producers from place `from` on for `d` places, around the circle, are empty. */
  ghost predicate EmptyFor(producers: seq<seq<Element>>, from: nat, d: nat) {
    |producers| > 0 && forall j: nat :: j < d ==> producers[Around(from, j, |producers|)] == []
  }

  /** Taking the first elements of the next producer, or all of them. */
  lemma EmptyStep(producers: seq<seq<Element>>, from: nat, d: nat, n: nat)
    requires EmptyFor(producers, from, d) && var p := Around(from, d, |producers|); n <= |producers[p]|
    ensures var p := Around(from, d, |producers|);
      var now := producers[p := producers[p][n..]];
      && EmptyFor(now, from, d)
      && (n == |producers[p]| ==> EmptyFor(now, from, d + 1))
  {
  }

  lemma EmptyHere(producers: seq<seq<Element>>, p: nat)
    requires p < |producers| && producers[p] == []
    ensures EmptyFor(producers, p, 1)
  {
    SmallMod(p, |producers|);
  }

  lemma Onward(from: nat, d: nat, n: nat)
    requires n > 0 && from < n
    ensures Around(from, d, n) < n
    ensures Around(from, d + 1, n) == if Around(from, d, n) + 1 < n then Around(from, d, n) + 1 else 0
    ensures 0 < d < n ==> Around(from, d, n) != from
    ensures Around(from, n, n) == from && Around(from, 0, n) == from
  {
    StepsAdd(from + d, 1, n);
    SmallMod(Around(from, d, n) + 1, n);
    SmallMod(from, n);
    SmallMod(from + n, n);
    if d < n {
      SmallMod(from + d, n);
    }
  }

  /** Once around the circle is everywhere. */
  lemma OnceAround(producers: seq<seq<Element>>, from: nat)
    requires from < |producers| && EmptyFor(producers, from, |producers|)
    ensures Total(producers) == 0
  {
    var n := |producers|;
    forall p | 0 <= p < n ensures producers[p] == [] {
      var j: nat := if p >= from then p - from else p - from + n;
      SmallMod(from + j, n);
      assert producers[Around(from, j, n)] == [];
    }
    AllEmpty(producers);
  }

  // ---------- The walk ----------

  /**
   The dequeues of one call, from producer `from` on and around the circle: each takes as many as there
   are and the call still wants, and there is another only while it wants more.
   */
  ghost predicate Walks(was: seq<seq<Element>>, from: nat, max: nat, takes: seq<Take>) {
    |was| > 0 && forall i :: 0 <= i < |takes| ==> TakesAll(was, from, max, takes[..i], takes[i])
  }

  ghost predicate TakesAll(was: seq<seq<Element>>, from: nat, max: nat, before: seq<Take>, t: Take)
    requires |was| > 0
  {
    var got := |Items(was, before)|;
    got < max && t.p == Around(from, |before|, |was|) && t.n == Min(max - got, |Left(was, before)[t.p]|)
  }

  lemma WalksOn(was: seq<seq<Element>>, from: nat, max: nat, takes: seq<Take>, t: Take)
    requires Walks(was, from, max, takes) && TakesAll(was, from, max, takes, t)
    ensures Walks(was, from, max, takes + [t])
  {
    hide TakesAll;
    var more := takes + [t];
    assert more[..|takes|] == takes;
    forall i | 0 <= i < |more| ensures TakesAll(was, from, max, more[..i], more[i]) {
      if i < |takes| {
        assert more[..i] == takes[..i];
      }
    }
  }

  /** The last dequeue of a walk that got anything, or the first one. */
  ghost function LastTake(takes: seq<Take>): (k: nat)
    requires takes != []
    ensures k < |takes| && (k == 0 || takes[k].n > 0) && forall i :: k < i < |takes| ==> takes[i].n == 0
  {
    if |takes| == 1 || takes[|takes| - 1].n > 0 then |takes| - 1 else LastTake(takes[..|takes| - 1])
  }

  /** The token stays at the producer it last got items from, and counts what it got there in a row. */
  ghost predicate Stands(current: Option<nat>, count: nat, takes: seq<Take>, consumed: nat) {
    && takes != []
    && var k := LastTake(takes);
       current == Some(takes[k].p) && count == (takes[k].n + if k == 0 then consumed else 0) % WORDS
  }

  lemma StandsOn(current: Option<nat>, count: nat, takes: seq<Take>, consumed: nat, t: Take)
    requires Stands(current, count, takes, consumed)
    ensures Stands(if t.n > 0 then Some(t.p) else current, if t.n > 0 then t.n % WORDS else count, takes + [t], consumed)
  {
    assert (takes + [t])[..|takes|] == takes;
  }

  class Token {
    var initialOffset: nat
    var lastKnownGlobalOffset: nat
    var itemsConsumedFromCurrent: nat
    var currentProducer: Option<nat>
    var desiredProducer: Option<nat>

    ghost var known: int           // the rotations seen when last synchronised, -1 before

    constructor (id: nat)
      requires id < WORDS
      ensures Fresh() && initialOffset == id && known == -1
    {
      initialOffset := id;
      lastKnownGlobalOffset := WORDS - 1;
      itemsConsumedFromCurrent := 0;
      currentProducer, desiredProducer := None, None;
      known := -1;
    }

    ghost predicate StandsAfter(takes: seq<Take>, consumed: nat)
      reads this
    {
      Stands(currentProducer, itemsConsumedFromCurrent, takes, consumed)
    }

    ghost predicate Fresh()
      reads this
    {
      desiredProducer == currentProducer == None && lastKnownGlobalOffset == WORDS - 1
    }
  }

  class Queue {
    var producers: seq<seq<Element>>
    var globalOffset: nat          // globalExplicitConsumerOffset
    ghost var rotations: nat       // the same without wrap-around

    constructor (producers: seq<seq<Element>>)
      ensures Valid() && this.producers == producers && rotations == 0
    {
      this.producers := producers;
      globalOffset := 0;
      rotations := 0;
    }

    ghost predicate Valid()
      reads this
    {
      globalOffset == rotations % WORDS
    }

    /** The token is new, or it stands where it belongs for the rotations it has seen. */
    ghost predicate Knows(t: Token)
      reads this, t
    {
      && t.lastKnownGlobalOffset < WORDS
      && (t.desiredProducer == None ==> t.Fresh() && t.known == -1)
      && (t.desiredProducer.Some? ==>
            && t.desiredProducer.value < |producers|
            && t.currentProducer.Some? && t.currentProducer.value < |producers|
            && -1 <= t.known <= rotations && t.lastKnownGlobalOffset == t.known % WORDS)
    }

    ghost predicate InPlace(t: Token)
      reads this, t
    {
      t.desiredProducer.Some? ==> producers != [] && t.desiredProducer.value == Place(t.known, t.initialOffset, |producers|)
    }

    /** The wraps of the offset since `known` rotations were seen amount to whole laps around the list. */
    ghost predicate WholeLaps(known: int)
      reads this
    {
      producers != [] ==> (rotations - known) / WORDS * WORDS % |producers| == 0
    }

    /** The token has not seen the latest rotation. */
    ghost predicate Behind(t: Token)
      reads this, t
    {
      t.desiredProducer.None? || t.lastKnownGlobalOffset != globalOffset
    }

    /** `next_prod`, and back to the tail at the end of the list. */
    function NextProducer(p: nat): nat
      reads this`producers
    {
      if p + 1 < |producers| then p + 1 else 0
    }

    method Walk(from: nat, steps: nat) returns (p: nat)
      requires from < |producers|
      ensures p < |producers| && p == (from + steps) % |producers|
    {
      p := from;
      SmallMod(from, |producers|);
      for i := 0 to steps
        invariant p < |producers| && p == (from + i) % |producers|
      {
        StepsAdd(from + i, 1, |producers|);
        SmallMod(p + 1, |producers|);
        p := NextProducer(p);
      }
    }

    /** update_current_producer_after_rotation. */
    method UpdateCurrentProducer(t: Token) returns (ok: bool)
      requires Valid() && Knows(t)
      modifies t
      ensures Knows(t) && t.initialOffset == old(t.initialOffset)
      ensures ok <==> producers != []
      ensures !ok ==> t.Fresh()
      ensures ok ==> t.desiredProducer.Some? && t.currentProducer == t.desiredProducer && t.known == rotations
      ensures ok ==> t.itemsConsumedFromCurrent == 0 && t.lastKnownGlobalOffset == globalOffset
      ensures ok && old(InPlace(t)) ==> (InPlace(t) <==> old(WholeLaps(t.known)))
    {
      hide Place;
      if t.desiredProducer.None? && producers == [] {
        return false;
      }
      var prodCount := |producers|;
      ghost var x := if t.desiredProducer == None then -1 else t.known;
      if t.desiredProducer.None? {
        var offset := prodCount - 1 - t.initialOffset % prodCount;
        StartingPlace(t.initialOffset, prodCount);
        var p := Walk(0, offset);
        SmallMod(offset, prodCount);
        t.desiredProducer := Some(p);
      }
      var delta := (globalOffset - t.lastKnownGlobalOffset) % WORDS;
      if delta >= prodCount {
        delta := delta % prodCount;
      }
      CaughtUp(x, rotations, globalOffset, t.lastKnownGlobalOffset, t.initialOffset, prodCount, delta);
      var p := Walk(t.desiredProducer.value, delta);
      t.desiredProducer := Some(p);
      t.lastKnownGlobalOffset := globalOffset;
      t.currentProducer := t.desiredProducer;
      t.itemsConsumedFromCurrent := 0;
      t.known := rotations;
      ok := true;
    }

    /** `dequeue_bulk` on one producer. */
    method DequeueFrom(p: nat, max: nat, ghost takes: seq<Take>, ghost was: seq<seq<Element>>)
      returns (items: seq<Element>, ghost more: seq<Take>)
      requires p < |producers| && producers == Left(was, takes)
      modifies this`producers
      ensures |items| == Min(max, |old(producers)[p]|) && producers == old(producers)[p := old(producers)[p][|items|..]]
      ensures more == takes + [Take(p, |items|)]
      ensures producers == Left(was, more) && Items(was, more) == Items(was, takes) + items
    {
      hide Left, Items;
      var n := if max < |producers[p]| then max else |producers[p]|;
      items := producers[p][..n];
      more := takes + [Take(p, n)];
      OneMore(was, takes, Take(p, n));
      producers := producers[p := producers[p][n..]];
    }

    method Rotate()
      requires Valid()
      modifies this`globalOffset, this`rotations
      ensures Valid() && rotations == old(rotations) + 1 && globalOffset == (old(globalOffset) + 1) % WORDS
    {
      globalOffset := (globalOffset + 1) % WORDS;
      rotations := rotations + 1;
    }

    /** try_dequeue_bulk with a token: as many as there are, up to `max`. */
    method TryDequeueBulk(t: Token, max: nat) returns (items: seq<Element>, ghost takes: seq<Take>)
      requires Valid() && Knows(t) && max > 0
      modifies this, t
      ensures Valid() && Knows(t) && t.initialOffset == old(t.initialOffset)
      ensures |items| == Min(max, Total(old(producers)))
      ensures producers == Left(old(producers), takes) && items == Items(old(producers), takes)
      ensures producers != [] ==>
                && (old(Behind(t)) ==> t.known == old(rotations))
                && (!old(Behind(t)) ==> t.known == old(t.known) && t.desiredProducer == old(t.desiredProducer))
                && var from := if old(Behind(t)) then t.desiredProducer else old(t.currentProducer);
                   var consumed := if old(Behind(t)) then 0 else old(t.itemsConsumedFromCurrent);
                   && from.Some? && Walks(old(producers), from.value, max, takes) && t.StandsAfter(takes, consumed)
                   && rotations == old(rotations) + (if takes[0].n == max && (consumed + max) % WORDS >= QUOTA then 1 else 0)
      ensures rotations == old(rotations) || (rotations == old(rotations) + 1 && |items| == max)
      ensures old(InPlace(t) && WholeLaps(t.known)) ==> InPlace(t)
      ensures old(Behind(t) && producers != [] && forall p :: 0 <= p < |producers| ==> |producers[p]| >= max)
              && QUOTA <= max < WORDS ==>
                rotations == old(rotations) + 1 && |items| == max && Behind(t)
    {
      hide Left, Items, Total, Place, EmptyFor, Valid, WholeLaps, Walks, LastTake, Stands;
      if t.desiredProducer.None? || t.lastKnownGlobalOffset != globalOffset {
        var ok := UpdateCurrentProducer(t);
        if !ok {
          items := [];
          takes := NothingThere();
          return;
        }
      }
      items, takes := DequeueInStep(t, max);
    }

    ghost method NothingThere() returns (takes: seq<Take>)
      requires producers == []
      ensures producers == Left(producers, takes) && Items(producers, takes) == [] && Total(producers) == 0
    {
      takes := [];
    }

    /** The dequeue of a token that has seen the latest rotation: from its producer, then around the circle. */
    method DequeueInStep(t: Token, max: nat) returns (items: seq<Element>, ghost takes: seq<Take>)
      requires Valid() && max > 0
      requires t.currentProducer.Some? && t.currentProducer.value < |producers|
      modifies this`producers, this`globalOffset, this`rotations, t`currentProducer, t`itemsConsumedFromCurrent
      ensures Valid() && t.currentProducer.Some? && t.currentProducer.value < |producers| == |old(producers)|
      ensures |items| == Min(max, Total(old(producers)))
      ensures producers == Left(old(producers), takes) && items == Items(old(producers), takes)
      ensures Walks(old(producers), old(t.currentProducer.value), max, takes)
      ensures t.StandsAfter(takes, old(t.itemsConsumedFromCurrent))
      ensures takes[0].n == Min(max, |old(producers)[old(t.currentProducer.value)]|)
      ensures if old(|producers[t.currentProducer.value]| >= max && (t.itemsConsumedFromCurrent + max) % WORDS >= QUOTA) then
                rotations == old(rotations) + 1 && globalOffset == (old(globalOffset) + 1) % WORDS && |items| == max
              else
                rotations == old(rotations) && globalOffset == old(globalOffset)
    {
      hide Left, Items, Total, EmptyFor, Walks, TakesAll;
      takes := [];
      ghost var from, consumed := t.currentProducer.value, t.itemsConsumedFromCurrent;
      NothingTaken(producers, from, max);
      items, takes := DequeueFrom(t.currentProducer.value, max, takes, old(producers));
      WalksOn(old(producers), from, max, [], Take(from, |items|));
      assert takes == [Take(from, |items|)];
      if |items| == max {
        NothingIsLost(old(producers), takes);
        t.itemsConsumedFromCurrent := (t.itemsConsumedFromCurrent + max) % WORDS;
        if t.itemsConsumedFromCurrent >= QUOTA {
          Rotate();
        }
        return;
      }
      t.itemsConsumedFromCurrent := (t.itemsConsumedFromCurrent + |items|) % WORDS;
      items, takes := WalkOn(t, max, items, takes, old(producers), from, consumed);
    }

    lemma NothingTaken(was: seq<seq<Element>>, from: nat, max: nat)
      requires from < |was| && max > 0
      ensures was == Left(was, []) && Items(was, []) == [] && Walks(was, from, max, [])
      ensures forall n :: n == Min(max, |was[from]|) ==> TakesAll(was, from, max, [], Take(from, n))
    {
      SmallMod(from, |was|);
    }

    /** The walk around the circle from the current producer, which has just been emptied. */
    method WalkOn(t: Token, all: nat, taken: seq<Element>, ghost takes0: seq<Take>, ghost was: seq<seq<Element>>,
                  ghost from: nat, ghost consumed: nat)
      returns (items: seq<Element>, ghost takes: seq<Take>)
      requires t.currentProducer.Some? && t.currentProducer.value < |producers|
      requires from == t.currentProducer.value && |takes0| == 1 && Walks(was, from, all, takes0) && t.StandsAfter(takes0, consumed)
      requires producers[t.currentProducer.value] == [] && |taken| < all
      requires producers == Left(was, takes0) && taken == Items(was, takes0)
      modifies this`producers, t`currentProducer, t`itemsConsumedFromCurrent
      ensures t.currentProducer.Some? && t.currentProducer.value < |producers|
      ensures producers == Left(was, takes) && items == Items(was, takes)
      ensures |items| == Min(all, Total(was))
      ensures takes0 <= takes && Walks(was, from, all, takes) && t.StandsAfter(takes, consumed)
    {
      hide Around, EmptyFor, Left, Items, Total, Walks, Stands;
      items, takes := taken, takes0;
      var max := all - |items|;
      var ptr := NextProducer(t.currentProducer.value);
      ghost var n, d: nat := |producers|, 1;
      EmptyHere(producers, t.currentProducer.value);
      Onward(t.currentProducer.value, 0, n);
      Onward(t.currentProducer.value, 1, n);
      while ptr != t.currentProducer.value
        invariant t.currentProducer.Some? && t.currentProducer.value < n == |producers|
        invariant 1 <= d <= n && ptr == Around(t.currentProducer.value, d, n) < n
        invariant EmptyFor(producers, t.currentProducer.value, d)
        invariant producers == Left(was, takes) && items == Items(was, takes) && |items| + max == all && max > 0
        invariant takes0 <= takes && Walks(was, from, all, takes) && t.StandsAfter(takes, consumed) && ptr == Around(from, |takes|, n)
        decreases max, n - d
      {
        Onward(t.currentProducer.value, d, n);
        Onward(t.currentProducer.value, n, n);
        Onward(from, |takes|, n);
        ghost var before, walked := producers, takes;
        var dequeued;
        dequeued, takes := DequeueFrom(ptr, max, takes, was);
        EmptyStep(before, t.currentProducer.value, d, |dequeued|);
        WalksOn(was, from, all, walked, Take(ptr, |dequeued|));
        StandsOn(t.currentProducer, t.itemsConsumedFromCurrent, walked, consumed, Take(ptr, |dequeued|));
        items := items + dequeued;
        if dequeued != [] {
          t.currentProducer := Some(ptr);
          t.itemsConsumedFromCurrent := |dequeued| % WORDS;
        }
        if |dequeued| == max {
          NothingIsLost(was, takes);
          return;
        }
        if dequeued != [] {
          EmptyHere(producers, ptr);
          Onward(ptr, 0, n);
          d := 0;
        }
        max := max - |dequeued|;
        ptr := NextProducer(ptr);
        d := d + 1;
      }
      Onward(ptr, d, n);
      OnceAround(producers, ptr);
      NothingIsLost(was, takes);
    }
  }

  /** The wrapped difference of offsets is the number of rotations missed, less whole wraps. */
  lemma MissedRotations(known: int, g: nat, offset: nat, lastKnown: nat)
    requires -1 <= known <= g && offset == g % WORDS && lastKnown == known % WORDS
    ensures (offset - lastKnown) % WORDS == g - known - (g - known) / WORDS * WORDS
  {
    var w: nat := WORDS;
    assert g == (g / w) * w + offset && known == (known / w) * w + lastKnown;
    SameRemainder(g - known, offset - lastKnown, w, g / w - known / w);
  }

  /** The steps computed from the offsets lead from place to place exactly when the missed wraps are whole laps. */
  lemma CaughtUp(known: int, g: nat, offset: nat, lastKnown: nat, id: nat, n: nat, delta: nat)
    requires n > 0 && -1 <= known <= g && offset == g % WORDS && lastKnown == known % WORDS
    requires var missed := (offset - lastKnown) % WORDS; delta == if missed >= n then missed % n else missed
    ensures (Place(known, id, n) + delta) % n == Place(g, id, n) <==> (g - known) / WORDS * WORDS % n == 0
  {
    MissedRotations(known, g, offset, lastKnown);
    Arrives(known, g, id, n, (g - known) / WORDS * WORDS, delta);
  }

  /** Tokens whose ids are less than the number of producers apart stand at different producers. */
  lemma TokensSpread(q: Queue, s: Token, t: Token)
    requires q.InPlace(s) && q.InPlace(t) && s.desiredProducer.Some? && t.desiredProducer.Some? && s.known == t.known
    requires s.initialOffset < t.initialOffset < s.initialOffset + |q.producers|
    ensures s.desiredProducer != t.desiredProducer
  {
    DifferentPlaces(s.known, s.initialOffset, t.initialOffset, |q.producers|);
  }

  /**
   The bound on rotations is needed: a run of 2^32 - 1 rotations by one token over three producers,
   after which a new token starts elsewhere than in its place.
   */
  method OneRotationTooMany() returns (q: Queue, late: Token)
    ensures q.Valid() && q.Knows(late) && |q.producers| == 3
    ensures late.desiredProducer.Some? && late.known == q.rotations == WORDS - 1 && !q.InPlace(late)
  {
    hide Place, Left, Items, Total, Queue.Valid;
    var x: Element := *;
    var plenty := seq(QUOTA * (WORDS - 1), _ => x);
    q := new Queue([plenty, plenty, plenty]);
    var early := new Token(0);
    for i := 0 to WORDS - 1
      invariant q.Valid() && q.Knows(early) && q.Behind(early) && q.rotations == i && |q.producers| == 3
      invariant forall p :: 0 <= p < 3 ==> |q.producers[p]| >= QUOTA * (WORDS - 1 - i)
    {
      ghost var before := q.producers;
      var items, takes := q.TryDequeueBulk(early, QUOTA);
      forall p | 0 <= p < 3 ensures |q.producers[p]| >= QUOTA * (WORDS - 1 - i - 1) {
        LosesAtMost(before, takes, p);
      }
    }
    late := new Token(2);
    var ok := q.UpdateCurrentProducer(late);
  }

  /** A bulk dequeue with token number `token`. */
  datatype Call = Call(token: nat, max: nat)

  /** One bulk dequeue: as many items as there are, up to the limit, from the fronts of the producers. */
  ghost predicate DequeueStep(was: seq<seq<Element>>, call: Call, answer: seq<Element>, now: seq<seq<Element>>) {
    && |answer| == Min(call.max, Total(was))
    && exists takes :: now == Left(was, takes) && answer == Items(was, takes)
  }

  ghost predicate DequeueRun(was: seq<seq<Element>>, calls: seq<Call>, answers: seq<seq<Element>>, now: seq<seq<Element>>)
    decreases |calls|
  {
    && |answers| == |calls|
    && if calls == [] then now == was
       else
         var last := |calls| - 1;
         exists mid :: DequeueRun(was, calls[..last], answers[..last], mid) && DequeueStep(mid, calls[last], answers[last], now)
  }

  lemma OneMoreCall(was: seq<seq<Element>>, calls: seq<Call>, answers: seq<seq<Element>>, mid: seq<seq<Element>>,
                    call: Call, answer: seq<Element>, now: seq<seq<Element>>)
    requires DequeueRun(was, calls, answers, mid) && DequeueStep(mid, call, answer, now)
    ensures DequeueRun(was, calls + [call], answers + [answer], now)
  {
    assert (calls + [call])[..|calls|] == calls && (answers + [answer])[..|answers|] == answers;
  }

  function AllItems(answers: seq<seq<Element>>): seq<Element> {
    if answers == [] then [] else AllItems(answers[..|answers| - 1]) + answers[|answers| - 1]
  }

  /** Over any calls, what came out and what is left add up, and each producer keeps a suffix of what it had. */
  lemma {:induction false} CallsLoseNothing(was: seq<seq<Element>>, calls: seq<Call>, answers: seq<seq<Element>>, now: seq<seq<Element>>)
    requires DequeueRun(was, calls, answers, now)
    ensures |AllItems(answers)| + Total(now) == Total(was) && |now| == |was|
    ensures forall p :: 0 <= p < |was| ==> |now[p]| <= |was[p]| && now[p] == was[p][|was[p]| - |now[p]|..]
    decreases |calls|
  {
    hide Left, Items, Total;
    if calls != [] {
      var last := |calls| - 1;
      var mid :| DequeueRun(was, calls[..last], answers[..last], mid) && DequeueStep(mid, calls[last], answers[last], now);
      CallsLoseNothing(was, calls[..last], answers[..last], mid);
      var takes :| now == Left(mid, takes) && answers[last] == Items(mid, takes);
      NothingIsLost(mid, takes);
      forall p | 0 <= p < |was| ensures |now[p]| <= |was[p]| && now[p] == was[p][|was[p]| - |now[p]|..] {
        var gone := EachKeepsASuffix(mid, takes, p);
      }
    }
  }

  ghost predicate AllKnown(q: Queue, tokens: seq<Token>)
    reads q, tokens
  {
    && (forall i :: 0 <= i < |tokens| ==> q.Knows(tokens[i]))
    && (forall i, j :: 0 <= i < j < |tokens| ==> tokens[i] != tokens[j])
  }

  ghost predicate AllInPlace(q: Queue, tokens: seq<Token>)
    reads q, tokens
  {
    forall i :: 0 <= i < |tokens| ==> q.InPlace(tokens[i])
  }

  /** Whatever dequeues are made with whatever tokens, none of them loses its place. */
  method DequeueInTurn(q: Queue, tokens: seq<Token>, calls: seq<Call>) returns (answers: seq<seq<Element>>)
    requires q.Valid() && AllKnown(q, tokens) && AllInPlace(q, tokens)
    requires forall c :: 0 <= c < |calls| ==> calls[c].token < |tokens| && calls[c].max > 0
    modifies q, tokens
    ensures q.Valid() && AllKnown(q, tokens) && |q.producers| == |old(q.producers)|
    ensures DequeueRun(old(q.producers), calls, answers, q.producers)
    ensures q.rotations < WORDS - 1 ==> AllInPlace(q, tokens)
    ensures forall i :: 0 <= i < |tokens| ==> tokens[i].initialOffset == old(tokens[i].initialOffset)
  {
    hide Place, Left, Items, Total, Queue.Valid, Queue.WholeLaps, DequeueRun;
    answers := NoCalls(q.producers);
    for c := 0 to |calls|
      invariant DequeueRun(old(q.producers), calls[..c], answers, q.producers)
      invariant q.Valid() && AllKnown(q, tokens) && |q.producers| == |old(q.producers)|
      invariant q.rotations < WORDS - 1 ==> AllInPlace(q, tokens)
      invariant forall i :: 0 <= i < |tokens| ==> tokens[i].initialOffset == old(tokens[i].initialOffset)
    {
      var t := tokens[calls[c].token];
      if q.rotations < WORDS - 1 {
        FewRotations(q, t);
      }
      ghost var mid := q.producers;
      var items, takes := q.TryDequeueBulk(t, calls[c].max);
      OneMoreCall(old(q.producers), calls[..c], answers, mid, calls[c], items, q.producers);
      assert calls[..c + 1] == calls[..c] + [calls[c]];
      answers := answers + [items];
    }
    assert calls[..|calls|] == calls;
  }

  method NoCalls(ghost producers: seq<seq<Element>>) returns (answers: seq<seq<Element>>)
    ensures answers == [] && DequeueRun(producers, [], answers, producers)
  {
    answers := [];
  }

  /** Below 2^32 - 1 rotations there are no wraps to speak of. */
  lemma FewRotations(q: Queue, t: Token)
    requires q.Knows(t) && q.rotations < WORDS - 1
    ensures q.WholeLaps(t.known)
  {
    assert (q.rotations - t.known) / WORDS == 0;
    if q.producers != [] {
      SmallMod(0, |q.producers|);
    }
  }

  /**
   After any dequeues with any of the tokens, once all tokens have seen the same rotations those with
   ids less than the number of producers apart stand at different producers.
   */
  method SpreadAfter(q: Queue, tokens: seq<Token>, calls: seq<Call>) returns (answers: seq<seq<Element>>)
    requires q.Valid() && AllKnown(q, tokens) && AllInPlace(q, tokens) && q.producers != []
    requires forall c :: 0 <= c < |calls| ==> calls[c].token < |tokens| && calls[c].max > 0
    modifies q, tokens
    ensures DequeueRun(old(q.producers), calls, answers, q.producers)
    ensures q.rotations < WORDS - 1 ==>
              forall i, j :: 0 <= i < |tokens| && 0 <= j < |tokens|
                             && tokens[i].initialOffset < tokens[j].initialOffset < tokens[i].initialOffset + |q.producers|
                             ==> tokens[i].desiredProducer != tokens[j].desiredProducer
    ensures forall i :: 0 <= i < |tokens| ==> tokens[i].initialOffset == old(tokens[i].initialOffset)
  {
    hide Place, Queue.Valid, Queue.WholeLaps, DequeueRun;
    answers := DequeueInTurn(q, tokens, calls);
    ghost var left := q.producers;
    for c := 0 to |tokens|
      invariant q.producers == left
      invariant q.Valid() && AllKnown(q, tokens) && q.producers != []
      invariant q.rotations < WORDS - 1 ==> AllInPlace(q, tokens)
      invariant forall i :: 0 <= i < c ==> tokens[i].desiredProducer.Some? && tokens[i].known == q.rotations
      invariant forall i :: 0 <= i < |tokens| ==> tokens[i].initialOffset == old(tokens[i].initialOffset)
    {
      if q.rotations < WORDS - 1 {
        FewRotations(q, tokens[c]);
      }
      var ok := q.UpdateCurrentProducer(tokens[c]);
    }
    if q.rotations < WORDS - 1 {
      forall i, j | 0 <= i < |tokens| && 0 <= j < |tokens|
          && tokens[i].initialOffset < tokens[j].initialOffset < tokens[i].initialOffset + |q.producers|
        ensures tokens[i].desiredProducer != tokens[j].desiredProducer
      {
        TokensSpread(q, tokens[i], tokens[j]);
      }
    }
  }
}
