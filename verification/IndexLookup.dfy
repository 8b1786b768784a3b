/**
 Lookups in the block index while the producer changes it.  A consumer loads the header, its tail, the
 key at the tail and the value it is led to one after the other; in between the producer may insert
 blocks, rewind the tail, undo a failed bulk enqueue, or unroll the ring into one twice the size, and
 other consumers may clear entries.  An older header goes on being used by those who loaded it, and
 shares its entries with the newer ones.

 A consumer looks up the blocks [k, last] of the indices it claimed.  They are in the index from
 before it starts, and none is cleared before it is done with that block: the module BlockLifecycle
 proves this of claimed indices, and here it is what `StartLookup` and `Leave` ask for.

 `live` records which block numbers have their block in the index; no step of a lookup reads it.
 */
module IndexLookup {
  import opened Blocks
  import opened Numbers
  import opened Options
  import opened Runs
  import opened BlockIndex

  /** The key and value of a BlockIndexEntry. */
  datatype Slot = Slot(key: int, value: Option<BlockId>)

  /** A ring: which entries are in its slots, and the slot of its tail. */
  datatype Header = Header(index: seq<nat>, tail: nat)

  datatype Producer =
    | Quiet
    | Keyed(e: nat)                    // has set the key of entry e; the tail comes next
    | Tailed(e: nat)                   // and the tail; now to get a block and store it
    | Rewound(e: nat)                  // no block: has rewound the tail; clears the value next
    | Undoing(k: int, top: int)        // a bulk enqueue failed: clear the entry of block k
    | UndoingTail(k: int, top: int)    // and rewind the tail

  /** A consumer that looks up the blocks [k, last], with what it has loaded so far. */
  datatype Reader =
    | Away
    | LoadHeader(k: int, last: int)
    | LoadTail(k: int, last: int, header: nat)
    | LoadKey(k: int, last: int, header: nat, tail: nat)
    | LoadValue(k: int, last: int, header: nat, slot: nat)
    | Using(k: int, last: int, header: nat, slot: nat, block: Option<BlockId>)

  datatype Index = Index(
    headers: seq<Header>,        // the last one is current
    entries: seq<Slot>,
    next: int,                   // the number of the next block to insert
    published: int,              // block numbers below this one lie below the published tail
    live: map<int, BlockId>,
    prod: Producer)

  datatype State = State(x: Index, readers: seq<Reader>)

  /** What the producer does to the index. */
  datatype Step =
    | StoreKey
    | Grow(junk: nat -> Option<BlockId>)
    | StoreTail
    | StoreValue(block: BlockId)
    | Rewind
    | StoreNull
    | Publish
    | Fail                       // give up the blocks inserted since the last publish
    | Undo

  datatype Event =
    | Produce(step: Step)
    | StartLookup(thread: nat, k: int, last: int)
    | Read(thread: nat)          // the next load of a lookup
    | Leave(thread: nat, clear: bool)

  function Last(x: Index): nat
    requires x.headers != []
  {
    |x.headers| - 1
  }

  function Current(x: Index): Header
    requires x.headers != []
  {
    x.headers[Last(x)]
  }

  /** Slots and entries mentioned anywhere exist. */
  ghost predicate WellFormed(x: Index) {
    && x.headers != []
    && (forall i :: 0 <= i < |x.headers| ==> HeaderFits(x, i))
  }

  ghost predicate HeaderFits(x: Index, i: nat)
    requires i < |x.headers|
  {
    var header := x.headers[i];
    && header.tail < |header.index|
    && (forall c :: 0 <= c < |header.index| ==> header.index[c] < |x.entries|)
    && (forall c, d :: 0 <= c < d < |header.index| ==> header.index[c] != header.index[d])
  }

  predicate Free(e: Slot) {
    e.key == INVALID_BLOCK_BASE || e.value == None
  }

  /** The slot after the tail, and the entry in it. */
  function NewTail(header: Header): nat
    requires header.tail < |header.index|
  {
    (header.tail + 1) % |header.index|
  }

  ghost function Oldest(x: Index): (e: nat)
    requires WellFormed(x)
    ensures e < |x.entries|
  {
    assert HeaderFits(x, Last(x));
    Current(x).index[NewTail(Current(x))]
  }

  /** get_block_index_index_for_index from what was loaded. */
  function Found(k: int, tail: nat, key: int, capacity: nat): nat
    requires capacity > 0
  {
    (tail + (Base(k) - key) / BLOCK_SIZE) % capacity
  }

  predicate Pins(r: Reader, k: int) {
    r != Away && r.k <= k <= r.last
  }

  ghost predicate MayStep(x: Index, e: Step) {
    && WellFormed(x)
    && match e
       case StoreKey => x.prod == Quiet && Free(x.entries[Oldest(x)])
       case Grow(_) => x.prod == Quiet && !Free(x.entries[Oldest(x)])
       case StoreTail => x.prod.Keyed?
       case StoreValue(_) => x.prod.Tailed? && x.prod.e < |x.entries|
       case Rewind => x.prod.Tailed?
       case StoreNull => x.prod.Rewound? && x.prod.e < |x.entries|
       case Publish => x.prod == Quiet
       case Fail => x.prod == Quiet && x.published < x.next
       case Undo => x.prod.Undoing? || x.prod.UndoingTail?
  }

  ghost predicate Enabled(s: State, e: Event) {
    && WellFormed(s.x)
    && match e
       case Produce(step) => MayStep(s.x, step)
       case StartLookup(t, k, last) =>
         && t < |s.readers| && s.readers[t] == Away && 0 <= k <= last < s.x.published
         && forall j :: k <= j <= last ==> j in s.x.live
       case Read(t) => t < |s.readers| && Reads(s.readers[t]) && HasLoaded(s.x, s.readers[t])
       case Leave(t, clear) =>
         && t < |s.readers| && s.readers[t].Using? && HasLoaded(s.x, s.readers[t])
         && (clear ==> forall u :: 0 <= u < |s.readers| && u != t ==> !Pins(s.readers[u], s.readers[t].k))
  }

  predicate Reads(r: Reader) {
    r.LoadHeader? || r.LoadTail? || r.LoadKey? || r.LoadValue?
  }

  /** What a reader has loaded exists. */
  predicate HasLoaded(x: Index, r: Reader) {
    && (r != Away && !r.LoadHeader? ==> r.header < |x.headers|)
    && (r.LoadKey? ==> r.tail < |x.headers[r.header].index|)
    && (r.LoadValue? || r.Using? ==> r.slot < |x.headers[r.header].index|)
  }

  function SetValue(x: Index, e: nat, v: Option<BlockId>): Index
    requires e < |x.entries|
  {
    x.(entries := x.entries[e := x.entries[e].(value := v)])
  }

  function SetTail(x: Index, tail: nat): Index
    requires x.headers != []
  {
    x.(headers := x.headers[Last(x) := Current(x).(tail := tail)])
  }

  function Back1(header: Header): nat
    requires header.tail < |header.index|
  {
    (header.tail - 1) % |header.index|
  }

  /** new_block_index: the entries from the oldest to the one at the tail, then as many new ones. */
  function Unrolled(header: Header, entries: nat): Header
    requires header.tail < |header.index|
  {
    var n := |header.index|;
    Header(seq(2 * n, i requires 0 <= i < 2 * n => if i < n then header.index[(header.tail + 1 + i) % n] else entries + (i - n)), n - 1)
  }

  ghost function Stepped(x: Index, e: Step): Index
    requires MayStep(x, e)
  {
    assert HeaderFits(x, Last(x));
    var header := Current(x);
    match e
    case StoreKey =>
      var o := Oldest(x);
      x.(entries := x.entries[o := x.entries[o].(key := Base(x.next))], prod := Keyed(o))
    case Grow(junk) =>
      x.(headers := x.headers + [Unrolled(header, |x.entries|)],
         entries := x.entries + seq(|header.index|, i requires i >= 0 => Slot(INVALID_BLOCK_BASE, junk(i))))
    case StoreTail => SetTail(x, NewTail(header)).(next := x.next + 1, prod := Tailed(x.prod.e))
    case StoreValue(b) => SetValue(x, x.prod.e, Some(b)).(live := x.live[x.next - 1 := b], prod := Quiet)
    case Rewind => SetTail(x, Back1(header)).(next := x.next - 1, prod := Rewound(x.prod.e))
    case StoreNull => SetValue(x, x.prod.e, None).(prod := Quiet)
    case Publish => x.(published := x.next)
    case Fail => x.(prod := Undoing(x.published, x.next))
    case Undo =>
      var k, top := x.prod.k, x.prod.top;
      if x.prod.Undoing? then
        var slot := Found(k, header.tail, x.entries[header.index[header.tail]].key, |header.index|);
        SetValue(x, header.index[slot], None).(live := x.live - {k}, prod := UndoingTail(k, top))
      else
        SetTail(x, Back1(header)).(next := x.next - 1, prod := if k + 1 == top then Quiet else Undoing(k + 1, top))
  }

  /** A reader after its next load. */
  ghost function AfterLoad(x: Index, r: Reader): Reader
    requires WellFormed(x) && Reads(r) && HasLoaded(x, r)
  {
    match r
    case LoadHeader(k, last) => LoadTail(k, last, Last(x))
    case LoadTail(k, last, i) => LoadKey(k, last, i, x.headers[i].tail)
    case LoadKey(k, last, i, tail) =>
      assert HeaderFits(x, i);
      LoadValue(k, last, i, Found(k, tail, x.entries[x.headers[i].index[tail]].key, |x.headers[i].index|))
    case LoadValue(k, last, i, c) =>
      assert HeaderFits(x, i);
      Using(k, last, i, c, x.entries[x.headers[i].index[c]].value)
  }

  /** And after it is done with a block: it goes on to the next slot. */
  ghost function AfterUse(x: Index, r: Reader): Reader
    requires WellFormed(x) && r.Using? && HasLoaded(x, r)
  {
    if r.k == r.last then Away else LoadValue(r.k + 1, r.last, r.header, (r.slot + 1) % |x.headers[r.header].index|)
  }

  /** The entry of a block that nobody needs any more is cleared. */
  ghost function Cleared(x: Index, r: Reader): Index
    requires WellFormed(x) && r.Using? && HasLoaded(x, r)
  {
    assert HeaderFits(x, r.header);
    SetValue(x, x.headers[r.header].index[r.slot], None).(live := x.live - {r.k})
  }

  ghost function Apply(s: State, e: Event): State
    requires Enabled(s, e)
  {
    match e
    case Produce(step) => s.(x := Stepped(s.x, step))
    case StartLookup(t, k, last) => s.(readers := s.readers[t := LoadHeader(k, last)])
    case Read(t) => s.(readers := s.readers[t := AfterLoad(s.x, s.readers[t])])
    case Leave(t, clear) =>
      s.(readers := s.readers[t := AfterUse(s.x, s.readers[t])], x := if clear then Cleared(s.x, s.readers[t]) else s.x)
  }

  ghost predicate Next(s: State, e: Event, s': State) {
    Enabled(s, e) && s' == Apply(s, e)
  }

  /** One ring of unused entries, with the tail on its last slot. */
  ghost predicate Init(s: State) {
    var x := s.x;
    && |x.headers| == 1 && |x.headers[0].index| > 0 && x.headers[0].tail == |x.headers[0].index| - 1
    && |x.entries| == |x.headers[0].index|
    && (forall c :: 0 <= c < |x.entries| ==> x.headers[0].index[c] == c && x.entries[c].key == INVALID_BLOCK_BASE)
    && x.next == x.published == 0 && x.live == map[] && x.prod == Quiet
    && (forall t :: 0 <= t < |s.readers| ==> s.readers[t] == Away)
  }

  // ---------- The invariant ----------

  /**
   The history a proof carries: for each header the number to add to a block number to get to its
   slot, and the window [first, limit) of block numbers whose keys the current ring has.
   */
  datatype History = History(offset: seq<int>, first: int, limit: int)

  ghost predicate Shape(x: Index, h: History) {
    WellFormed(x) && |h.offset| == |x.headers|
  }

  ghost function SlotOf(x: Index, h: History, i: nat, n: int): (c: nat)
    requires Shape(x, h) && i < |x.headers|
    ensures |x.headers[i].index| > 0 && c < |x.headers[i].index|
  {
    assert HeaderFits(x, i);
    (h.offset[i] + n) % |x.headers[i].index|
  }

  /** The entry for block number `n` in header `i`. */
  ghost function EntryOf(x: Index, h: History, i: nat, n: int): (e: nat)
    requires Shape(x, h) && i < |x.headers|
    ensures e < |x.entries|
  {
    assert HeaderFits(x, i);
    x.headers[i].index[SlotOf(x, h, i, n)]
  }

  ghost function Capacity(x: Index): (n: nat)
    requires WellFormed(x)
    ensures n > 0
  {
    assert HeaderFits(x, Last(x));
    |Current(x).index|
  }

  /** Whatever key an entry has, its slot is the one for that block number. */
  ghost predicate KeyFits(x: Index, h: History, i: nat, c: nat)
    requires Shape(x, h) && i < |x.headers| && c < |x.headers[i].index| && HeaderFits(x, i)
  {
    forall n :: x.entries[x.headers[i].index[c]].key == Base(n) ==> SlotOf(x, h, i, n) == c
  }

  ghost predicate KeysFit(x: Index, h: History)
    requires Shape(x, h)
  {
    forall i, c :: 0 <= i < |x.headers| && 0 <= c < |x.headers[i].index| ==> HeaderFits(x, i) && KeyFits(x, h, i, c)
  }

  /** An older header has an entry in the slot where it puts all the block numbers the current one puts there. */
  ghost predicate Agree(x: Index, h: History)
    requires Shape(x, h)
  {
    forall i, n, m :: 0 <= i < |x.headers| && EntryOf(x, h, i, m) == EntryOf(x, h, Last(x), n) ==>
      SlotOf(x, h, i, n) == SlotOf(x, h, i, m)
  }

  ghost predicate InWindow(x: Index, h: History, n: int)
    requires Shape(x, h)
  {
    h.first <= n < h.limit ==> x.entries[EntryOf(x, h, Last(x), n)].key == Base(n)
  }

  ghost predicate BeforeWindow(x: Index, h: History, n: int)
    requires Shape(x, h)
  {
    h.limit - Capacity(x) <= n < h.first ==> Free(x.entries[EntryOf(x, h, Last(x), n)])
  }

  /** The entry whose value the producer is about to set. */
  predicate Loose(p: Producer, e: nat) {
    (p.Keyed? || p.Tailed? || p.Rewound?) && p.e == e
  }

  /** A block in the index is found through its entry; without a block the value is null. */
  ghost predicate ValueFits(x: Index, h: History, n: int)
    requires Shape(x, h)
  {
    var e := x.entries[EntryOf(x, h, Last(x), n)];
    && (n in x.live ==> h.first <= n < h.limit && e.value == Some(x.live[n]) && !Loose(x.prod, EntryOf(x, h, Last(x), n)))
    && (h.first <= n < h.limit && n !in x.live && !Loose(x.prod, EntryOf(x, h, Last(x), n)) ==> e.value == None)
  }

  ghost predicate WindowOk(x: Index, h: History)
    requires Shape(x, h)
  {
    && h.first <= h.limit <= h.first + Capacity(x) && x.next <= h.limit
    && forall n :: InWindow(x, h, n) && BeforeWindow(x, h, n) && ValueFits(x, h, n)
  }

  predicate KeySet(e: Slot) { e.key != INVALID_BLOCK_BASE }

  /** The tail is on the block before the next one; wherever a lookup can start from, there is a key. */
  ghost predicate TailOk(x: Index, h: History)
    requires Shape(x, h)
  {
    && Current(x).tail == SlotOf(x, h, Last(x), x.next - 1)
    && (forall i :: 0 <= i < Last(x) ==> HeaderFits(x, i) && KeySet(x.entries[x.headers[i].index[x.headers[i].tail]]))
    && (forall k, n :: k in x.live && k <= n < x.next ==> KeySet(x.entries[EntryOf(x, h, Last(x), n)]))
  }

  ghost predicate ProdOk(x: Index, h: History)
    requires Shape(x, h)
  {
    && 0 <= x.published <= x.next
    && match x.prod
       case Quiet => h.limit == x.next && (forall k :: x.published <= k < x.next <==> k in x.live && x.published <= k)
       case Keyed(e) =>
         && h.limit == x.next + 1 && h.first <= x.next && e == EntryOf(x, h, Last(x), x.next)
         && (forall k :: x.published <= k < x.next <==> k in x.live && x.published <= k)
       case Tailed(e) =>
         && h.limit == x.next && h.first < x.next && e == EntryOf(x, h, Last(x), x.next - 1) && x.published < x.next
         && (forall k :: x.published <= k < x.next - 1 <==> k in x.live && x.published <= k)
       case Rewound(e) =>
         && h.limit == x.next + 1 && h.first <= x.next && e == EntryOf(x, h, Last(x), x.next)
         && (forall k :: x.published <= k < x.next <==> k in x.live && x.published <= k)
       case Undoing(k0, top) =>
         && h.limit == top && h.first <= x.published <= k0 < top && x.next == top - (k0 - x.published)
         && (forall k :: k0 <= k < top <==> k in x.live && x.published <= k)
       case UndoingTail(k0, top) =>
         && h.limit == top && h.first <= x.published <= k0 < top && x.next == top - (k0 - x.published)
         && (forall k :: k0 < k < top <==> k in x.live && x.published <= k)
  }

  /** The header a reader has loaded leads to the entry of block `j`. */
  ghost predicate Knows(x: Index, h: History, i: nat, j: int)
    requires Shape(x, h)
  {
    i < |x.headers| && EntryOf(x, h, i, j) == EntryOf(x, h, Last(x), j)
  }

  ghost predicate ReaderOk(x: Index, h: History, r: Reader)
    requires Shape(x, h)
  {
    && (r != Away ==>
          && 0 <= r.k <= r.last < x.published
          && forall j :: r.k <= j <= r.last ==> j in x.live)
    && (r != Away && !r.LoadHeader? ==> forall j :: r.k <= j <= r.last ==> Knows(x, h, r.header, j))
    && match r
       case LoadKey(_, _, i, tail) =>
         && i < |x.headers| && HeaderFits(x, i) && tail < |x.headers[i].index| && KeySet(x.entries[x.headers[i].index[tail]])
       case LoadValue(k, _, i, c) => i < |x.headers| && c == SlotOf(x, h, i, k)
       case Using(k, _, i, c, b) => i < |x.headers| && c == SlotOf(x, h, i, k) && k in x.live && b == Some(x.live[k])
       case _ => true
  }

  ghost predicate KeysAreBases(x: Index) {
    forall e :: 0 <= e < |x.entries| && KeySet(x.entries[e]) ==> exists n :: x.entries[e].key == Base(n)
  }

  ghost predicate IndexOk(x: Index, h: History) {
    && Shape(x, h)
    && KeysAreBases(x)
    && KeysFit(x, h)
    && Agree(x, h)
    && WindowOk(x, h)
    && TailOk(x, h)
    && ProdOk(x, h)
  }

  ghost predicate Inv(s: State, h: History) {
    && IndexOk(s.x, h)
    && forall t :: 0 <= t < |s.readers| ==> ReaderOk(s.x, h, s.readers[t])
  }

  // ---------- Arithmetic of slots ----------

  /** Numbers less than `m` apart with the same remainder are equal. */
  lemma Uncollide(a: int, b: int, m: nat)
    requires m > 0 && a % m == b % m && a - b < m && b - a < m
    ensures a == b
  {
    var q := a / m - b / m;
    assert a == (a / m) * m + a % m && b == (b / m) * m + b % m;
    assert q * m == a - b;
    MulBounds(q, m);
  }

  lemma BasesDiffer(n: int, m: int)
    requires Base(n) == Base(m)
    ensures n == m
  {
    if n < m {
      BaseMonotone(n, m);
    } else if m < n {
      BaseMonotone(m, n);
    }
  }

  /** Block numbers less than a capacity apart have different entries. */
  lemma DifferentEntries(x: Index, h: History, i: nat, n: int, m: int)
    requires Shape(x, h) && i < |x.headers|
    requires SlotOf(x, h, i, n) == SlotOf(x, h, i, m) || EntryOf(x, h, i, n) == EntryOf(x, h, i, m)
    ensures SlotOf(x, h, i, n) == SlotOf(x, h, i, m)
    ensures n - m < |x.headers[i].index| && m - n < |x.headers[i].index| ==> n == m
  {
    assert HeaderFits(x, i);
    if n - m < |x.headers[i].index| && m - n < |x.headers[i].index| {
      Uncollide(h.offset[i] + n, h.offset[i] + m, |x.headers[i].index|);
    }
  }

  /** A remainder may be taken before or after adding. */
  lemma AddRemainders(x: int, y: int, m: nat)
    requires m > 0
    ensures (x % m + y) % m == (x + y) % m
  {
    assert x == (x / m) * m + x % m;
    SameRemainder(x + y, x % m + y, m, x / m);
  }

  /** The slot after the one of `n` is that of `n + 1`. */
  lemma SlotAfter(x: Index, h: History, i: nat, n: int)
    requires Shape(x, h) && i < |x.headers|
    ensures |x.headers[i].index| > 0 && (SlotOf(x, h, i, n) + 1) % |x.headers[i].index| == SlotOf(x, h, i, n + 1)
    ensures (SlotOf(x, h, i, n) - 1) % |x.headers[i].index| == SlotOf(x, h, i, n - 1)
  {
    assert HeaderFits(x, i);
    AddRemainders(h.offset[i] + n, 1, |x.headers[i].index|);
    AddRemainders(h.offset[i] + n, -1, |x.headers[i].index|);
    assert h.offset[i] + n + 1 == h.offset[i] + (n + 1);
    assert h.offset[i] + n + -1 == h.offset[i] + (n - 1);
  }

  /**
   The heart of a lookup: from whatever slot, with whatever key its entry has by now, it leads to the
   slot for block `k`.
   */
  lemma FindsTheSlot(x: Index, h: History, i: nat, tail: nat, k: int)
    requires Shape(x, h) && KeysFit(x, h) && KeysAreBases(x)
    requires i < |x.headers| && HeaderFits(x, i) && tail < |x.headers[i].index| && KeySet(x.entries[x.headers[i].index[tail]])
    ensures Found(k, tail, x.entries[x.headers[i].index[tail]].key, |x.headers[i].index|) == SlotOf(x, h, i, k)
  {
    var m := |x.headers[i].index|;
    var n :| x.entries[x.headers[i].index[tail]].key == Base(n);
    assert KeyFits(x, h, i, tail);
    OffsetOfBases(k, n);
    AddRemainders(h.offset[i] + n, k - n, m);
    assert h.offset[i] + n + (k - n) == h.offset[i] + k;
  }

  /** Block numbers a capacity apart have the same entry. */
  lemma OnceRound(x: Index, h: History, n: int)
    requires Shape(x, h)
    ensures EntryOf(x, h, Last(x), n - Capacity(x)) == EntryOf(x, h, Last(x), n)
  {
    SameRemainder(h.offset[Last(x)] + n, h.offset[Last(x)] + (n - Capacity(x)), Capacity(x), 1);
  }

  // ---------- What a step leaves alone ----------

  /** The same entries in the same slots, with the same keys. */
  ghost predicate SameRings(x: Index, x': Index) {
    && |x'.headers| == |x.headers| && |x'.entries| == |x.entries|
    && (forall i :: 0 <= i < |x.headers| ==>
          x'.headers[i].index == x.headers[i].index && x'.headers[i].tail < |x.headers[i].index|)
    && (forall i :: 0 <= i < |x.headers| - 1 ==> x'.headers[i] == x.headers[i])
    && (forall e :: 0 <= e < |x.entries| ==> x'.entries[e].key == x.entries[e].key)
  }

  /** Slots and entries of block numbers are the same. */
  ghost predicate SameSlots(x: Index, h: History, x': Index, h': History)
    requires Shape(x, h)
  {
    && Shape(x', h') && Last(x') == Last(x) && Capacity(x') == Capacity(x)
    && (forall i, n :: 0 <= i < |x.headers| ==> SlotOf(x', h', i, n) == SlotOf(x, h, i, n))
    && (forall i, n :: 0 <= i < |x.headers| ==> EntryOf(x', h', i, n) == EntryOf(x, h, i, n))
  }

  lemma SlotsStay(x: Index, h: History, x': Index, h': History)
    requires Shape(x, h) && SameRings(x, x') && h'.offset == h.offset
    ensures SameSlots(x, h, x', h')
  {
    forall i | 0 <= i < |x.headers| ensures HeaderFits(x', i) {
      assert HeaderFits(x, i);
    }
  }

  lemma KeysStay(x: Index, h: History, x': Index, h': History)
    requires Shape(x, h) && SameRings(x, x') && h'.offset == h.offset
    requires KeysAreBases(x) && KeysFit(x, h) && Agree(x, h)
    ensures SameSlots(x, h, x', h') && KeysAreBases(x') && KeysFit(x', h') && Agree(x', h')
  {
    SlotsStay(x, h, x', h');
    forall e | 0 <= e < |x'.entries| && KeySet(x'.entries[e]) ensures exists n :: x'.entries[e].key == Base(n) {
      assert KeySet(x.entries[e]);
    }
    forall i, c | 0 <= i < |x'.headers| && 0 <= c < |x'.headers[i].index| ensures HeaderFits(x', i) && KeyFits(x', h', i, c) {
      assert HeaderFits(x, i) && KeyFits(x, h, i, c);
    }
  }

  /** A reader does not notice as long as the blocks it pins stay. */
  lemma ReaderStays(x: Index, h: History, x': Index, h': History, r: Reader)
    requires Shape(x, h) && SameRings(x, x') && h'.offset == h.offset && SameSlots(x, h, x', h')
    requires ReaderOk(x, h, r) && x.published <= x'.published
    requires forall k :: Pins(r, k) && k in x.live ==> k in x'.live && x'.live[k] == x.live[k]
    ensures ReaderOk(x', h', r)
  {
    if r != Away {
      forall j | r.k <= j <= r.last ensures j in x'.live {
        assert Pins(r, j);
      }
      assert Pins(r, r.k);
      if !r.LoadHeader? {
        forall j | r.k <= j <= r.last ensures Knows(x', h', r.header, j) {
          assert Knows(x, h, r.header, j);
        }
      }
    }
    if r.LoadKey? {
      assert HeaderFits(x, r.header) && HeaderFits(x', r.header);
    }
  }

  // ---------- The producer's steps keep the invariant ----------

  /** The part of the invariant that is about the entries. */
  ghost predicate EntriesOk(x: Index, h: History) {
    Shape(x, h) && KeysAreBases(x) && KeysFit(x, h) && Agree(x, h) && WindowOk(x, h) && TailOk(x, h)
  }

  lemma StoreTailKeeps(x: Index, h: History)
    requires IndexOk(x, h) && MayStep(x, StoreTail)
    ensures IndexOk(Stepped(x, StoreTail), h) && SameRings(x, Stepped(x, StoreTail))
  {
    var x' := Stepped(x, StoreTail);
    SlotAfter(x, h, Last(x), x.next - 1);
    assert HeaderFits(x, Last(x));
    KeysStay(x, h, x', h);
    assert InWindow(x, h, x.next);
    BasesAreValid(x.next);
    TailMoved(x, h, x');
    WindowStays(x, h, x');
  }

  /** The tail is where the next block number says it is. */
  lemma TailMoved(x: Index, h: History, x': Index)
    requires Shape(x, h) && TailOk(x, h) && SameRings(x, x') && SameSlots(x, h, x', h)
    requires Current(x').tail == SlotOf(x, h, Last(x), x'.next - 1) && x'.live == x.live && x'.next <= x.next + 1
    requires x'.next > x.next ==> KeySet(x.entries[EntryOf(x, h, Last(x), x.next)])
    ensures TailOk(x', h)
  {
    forall i | 0 <= i < Last(x') ensures HeaderFits(x', i) && KeySet(x'.entries[x'.headers[i].index[x'.headers[i].tail]]) {
      assert HeaderFits(x, i);
    }
  }

  /** Keys, values and blocks in the index are the same. */
  lemma WindowStays(x: Index, h: History, x': Index)
    requires Shape(x, h) && WindowOk(x, h) && SameSlots(x, h, x', h)
    requires x'.entries == x.entries && x'.live == x.live && x'.next <= h.limit
    requires forall e :: Loose(x'.prod, e) <==> Loose(x.prod, e)
    ensures WindowOk(x', h)
  {
    forall n ensures InWindow(x', h, n) && BeforeWindow(x', h, n) && ValueFits(x', h, n) {
      assert InWindow(x, h, n) && BeforeWindow(x, h, n) && ValueFits(x, h, n);
    }
  }

  lemma RewindKeeps(x: Index, h: History)
    requires IndexOk(x, h) && MayStep(x, Rewind)
    ensures IndexOk(Stepped(x, Rewind), h) && SameRings(x, Stepped(x, Rewind))
  {
    var x' := Stepped(x, Rewind);
    SlotAfter(x, h, Last(x), x.next - 1);
    assert HeaderFits(x, Last(x));
    KeysStay(x, h, x', h);
    TailMoved(x, h, x');
    WindowStays(x, h, x');
  }

  lemma StoreValueKeeps(x: Index, h: History, b: BlockId)
    requires IndexOk(x, h) && MayStep(x, StoreValue(b))
    ensures IndexOk(Stepped(x, StoreValue(b)), h) && SameRings(x, Stepped(x, StoreValue(b)))
  {
    var x' := Stepped(x, StoreValue(b));
    assert forall i :: 0 <= i < |x.headers| ==> HeaderFits(x, i);
    KeysStay(x, h, x', h);
    StoreValueWindow(x, h, x', b);
    assert InWindow(x, h, x.next - 1);
    BasesAreValid(x.next - 1);
    TailKept(x, h, x');
  }

  lemma StoreValueWindow(x: Index, h: History, x': Index, b: BlockId)
    requires Shape(x, h) && WindowOk(x, h) && ProdOk(x, h) && MayStep(x, StoreValue(b)) && x' == Stepped(x, StoreValue(b))
    requires SameSlots(x, h, x', h)
    ensures WindowOk(x', h)
  {
    hide SlotOf, EntryOf;
    forall n ensures InWindow(x', h, n) && BeforeWindow(x', h, n) && ValueFits(x', h, n) {
      assert InWindow(x, h, n) && BeforeWindow(x, h, n) && ValueFits(x, h, n);
      if EntryOf(x, h, Last(x), n) == x.prod.e {
        DifferentEntries(x, h, Last(x), n, x.next - 1);
      }
    }
  }

  /** The tail stays, and no block is added but the one at the tail. */
  lemma TailKept(x: Index, h: History, x': Index)
    requires Shape(x, h) && TailOk(x, h) && SameRings(x, x') && SameSlots(x, h, x', h)
    requires x'.headers == x.headers && x'.next == x.next
    requires forall k :: k in x'.live ==> k in x.live || (k == x.next - 1 && KeySet(x.entries[EntryOf(x, h, Last(x), k)]))
    ensures TailOk(x', h)
  {
    forall i | 0 <= i < Last(x') ensures HeaderFits(x', i) && KeySet(x'.entries[x'.headers[i].index[x'.headers[i].tail]]) {
      assert HeaderFits(x, i);
    }
  }

  lemma StoreNullKeeps(x: Index, h: History) returns (h': History)
    requires IndexOk(x, h) && MayStep(x, StoreNull)
    ensures IndexOk(Stepped(x, StoreNull), h') && h'.offset == h.offset && SameRings(x, Stepped(x, StoreNull))
  {
    var x' := Stepped(x, StoreNull);
    h' := h.(limit := x.next);
    assert forall i :: 0 <= i < |x.headers| ==> HeaderFits(x, i);
    KeysStay(x, h, x', h);
    KeysStay(x, h, x', h');
    TailKept(x, h, x');
    StoreNullWindow(x, h, x', h');
  }

  lemma StoreNullWindow(x: Index, h: History, x': Index, h': History)
    requires Shape(x, h) && WindowOk(x, h) && ProdOk(x, h) && MayStep(x, StoreNull) && x' == Stepped(x, StoreNull)
    requires SameSlots(x, h, x', h') && h' == h.(limit := x.next)
    ensures WindowOk(x', h')
  {
    hide SlotOf, EntryOf;
    OnceRound(x, h, x.next);
    forall n ensures InWindow(x', h', n) && BeforeWindow(x', h', n) && ValueFits(x', h', n) {
      assert InWindow(x, h, n) && BeforeWindow(x, h, n) && ValueFits(x, h, n);
    }
  }

  /** The entry of block `k` is cleared. */
  ghost function Unlinked(x: Index, h: History, k: int): Index
    requires Shape(x, h)
  {
    SetValue(x, EntryOf(x, h, Last(x), k), None).(live := x.live - {k})
  }

  lemma UnlinkKeeps(x: Index, h: History, k: int)
    requires EntriesOk(x, h) && k in x.live
    ensures SameRings(x, Unlinked(x, h, k)) && EntriesOk(Unlinked(x, h, k), h)
  {
    var x' := Unlinked(x, h, k);
    assert forall i :: 0 <= i < |x.headers| ==> HeaderFits(x, i);
    KeysStay(x, h, x', h);
    TailKept(x, h, x');
    assert ValueFits(x, h, k);
    forall n ensures InWindow(x', h, n) && BeforeWindow(x', h, n) && ValueFits(x', h, n) {
      assert InWindow(x, h, n) && BeforeWindow(x, h, n) && ValueFits(x, h, n);
      if EntryOf(x, h, Last(x), n) == EntryOf(x, h, Last(x), k) {
        DifferentEntries(x, h, Last(x), n, k);
      }
    }
  }

  /** While a bulk enqueue is undone, the producer's own lookups find the entries of its blocks. */
  lemma UndoFinds(x: Index, h: History)
    requires IndexOk(x, h) && x.prod.Undoing?
    ensures Stepped(x, Undo) == Unlinked(x, h, x.prod.k).(prod := UndoingTail(x.prod.k, x.prod.top))
    ensures x.prod.k in x.live
  {
    assert HeaderFits(x, Last(x));
    assert InWindow(x, h, x.next - 1);
    BasesAreValid(x.next - 1);
    assert EntryOf(x, h, Last(x), x.next - 1) == Current(x).index[Current(x).tail];
    FindsTheSlot(x, h, Last(x), Current(x).tail, x.prod.k);
  }

  lemma UndoEntryKeeps(x: Index, h: History)
    requires IndexOk(x, h) && x.prod.Undoing?
    ensures IndexOk(Stepped(x, Undo), h) && SameRings(x, Stepped(x, Undo))
  {
    var x' := Stepped(x, Undo);
    var x0 := Unlinked(x, h, x.prod.k);
    UndoFinds(x, h);
    UnlinkKeeps(x, h, x.prod.k);
    KeysStay(x0, h, x', h);
    WindowStays(x0, h, x');
    TailKept(x0, h, x');
  }

  /** The window ends at the tail again when no block of it is left beyond. */
  lemma WindowEnds(x: Index, h: History, x': Index, h': History)
    requires Shape(x, h) && WindowOk(x, h) && SameSlots(x, h, x', h')
    requires x'.entries == x.entries && x'.live == x.live
    requires h' == h.(limit := x'.next) && h.first <= h'.limit <= h.limit
    requires forall e :: !Loose(x.prod, e) && !Loose(x'.prod, e)
    requires forall k :: k in x.live ==> k < h'.limit
    ensures WindowOk(x', h')
  {
    forall n ensures InWindow(x', h', n) && BeforeWindow(x', h', n) && ValueFits(x', h', n) {
      assert InWindow(x, h, n) && BeforeWindow(x, h, n) && ValueFits(x, h, n);
      assert ValueFits(x, h, n + Capacity(x)) && BeforeWindow(x, h, n + Capacity(x));
      OnceRound(x, h, n + Capacity(x));
    }
  }

  lemma UndoTailKeeps(x: Index, h: History) returns (h': History)
    requires IndexOk(x, h) && x.prod.UndoingTail?
    ensures IndexOk(Stepped(x, Undo), h') && h'.offset == h.offset && SameRings(x, Stepped(x, Undo))
  {
    var x' := Stepped(x, Undo);
    SlotAfter(x, h, Last(x), x.next - 1);
    assert HeaderFits(x, Last(x));
    h' := if x'.prod == Quiet then h.(limit := x'.next) else h;
    KeysStay(x, h, x', h);
    KeysStay(x, h, x', h');
    TailMoved(x, h, x');
    if x'.prod == Quiet {
      WindowEnds(x, h, x', h');
    } else {
      WindowStays(x, h, x');
    }
  }

  lemma PublishKeeps(x: Index, h: History, e: Step)
    requires IndexOk(x, h) && MayStep(x, e) && (e.Publish? || e.Fail?)
    ensures IndexOk(Stepped(x, e), h) && SameRings(x, Stepped(x, e))
  {
    var x' := Stepped(x, e);
    assert forall i :: 0 <= i < |x.headers| ==> HeaderFits(x, i);
    KeysStay(x, h, x', h);
    WindowStays(x, h, x');
    TailKept(x, h, x');
    assert ValueFits(x, h, x.published);
  }

  // ---------- Inserting a key, and growing ----------

  /** The slot after the tail is that of the next block number, and of the one a capacity before. */
  lemma OldestIsNext(x: Index, h: History)
    requires Shape(x, h) && TailOk(x, h)
    ensures Oldest(x) == EntryOf(x, h, Last(x), x.next) == EntryOf(x, h, Last(x), x.next - Capacity(x))
    ensures HeaderFits(x, Last(x)) && NewTail(Current(x)) == SlotOf(x, h, Last(x), x.next)
  {
    SlotAfter(x, h, Last(x), x.next - 1);
    OnceRound(x, h, x.next);
    assert HeaderFits(x, Last(x));
  }

  /** The entry `e` of block number `n` in the current ring gets its key; everything else stays. */
  ghost predicate SetsKey(x: Index, h: History, x': Index, n: int)
    requires Shape(x, h)
  {
    && x'.headers == x.headers && x'.live == x.live && x'.next == x.next
    && x'.entries == x.entries[EntryOf(x, h, Last(x), n) := x.entries[EntryOf(x, h, Last(x), n)].(key := Base(n))]
  }

  lemma SlotsOfSetKey(x: Index, h: History, x': Index, h': History, n: int)
    requires Shape(x, h) && SetsKey(x, h, x', n) && h'.offset == h.offset
    ensures SameSlots(x, h, x', h')
  {
    forall i | 0 <= i < |x.headers| ensures HeaderFits(x', i) {
      assert HeaderFits(x, i);
    }
  }

  lemma SetKeyFits(x: Index, h: History, x': Index, h': History, n: int)
    requires Shape(x, h) && SetsKey(x, h, x', n) && h'.offset == h.offset && SameSlots(x, h, x', h')
    requires KeysAreBases(x) && KeysFit(x, h) && Agree(x, h)
    ensures KeysAreBases(x') && KeysFit(x', h') && Agree(x', h')
  {
    var e := EntryOf(x, h, Last(x), n);
    forall d | 0 <= d < |x'.entries| && KeySet(x'.entries[d]) ensures exists m :: x'.entries[d].key == Base(m) {
      if d != e {
        assert KeySet(x.entries[d]);
      }
    }
    forall i, c | 0 <= i < |x'.headers| && 0 <= c < |x'.headers[i].index| ensures HeaderFits(x', i) && KeyFits(x', h', i, c) {
      assert HeaderFits(x, i) && HeaderFits(x', i);
      if x.headers[i].index[c] == e {
        KeyFitsElsewhere(x, h, i, c, n);
        forall m | Base(n) == Base(m) ensures SlotOf(x', h', i, m) == c {
          BasesDiffer(n, m);
        }
      } else {
        assert KeyFits(x, h, i, c);
      }
    }
  }

  /** Wherever a header has the entry of block number `n`, it is in the slot for `n`. */
  lemma KeyFitsElsewhere(x: Index, h: History, i: nat, c: nat, n: int)
    requires Shape(x, h) && Agree(x, h) && i < |x.headers| && c < |x.headers[i].index|
    requires x.headers[i].index[c] == EntryOf(x, h, Last(x), n)
    ensures SlotOf(x, h, i, n) == c
  {
    assert HeaderFits(x, i);
    var m := c - h.offset[i];
    SmallMod(c, |x.headers[i].index|);
    assert SlotOf(x, h, i, m) == c;
    assert EntryOf(x, h, i, m) == EntryOf(x, h, Last(x), n);
  }

  lemma StoreKeyKeeps(x: Index, h: History) returns (h': History)
    requires IndexOk(x, h) && MayStep(x, StoreKey)
    ensures IndexOk(Stepped(x, StoreKey), h') && h'.offset == h.offset
    ensures SetsKey(x, h, Stepped(x, StoreKey), x.next) && SameSlots(x, h, Stepped(x, StoreKey), h')
  {
    var x' := Stepped(x, StoreKey);
    h' := h.(limit := x.next + 1, first := Max(h.first, x.next + 1 - Capacity(x)));
    OldestIsNext(x, h);
    SlotsOfSetKey(x, h, x', h', x.next);
    SetKeyFits(x, h, x', h', x.next);
    StoreKeyWindow(x, h, x', h');
    StoreKeyTail(x, h, x', h');
  }

  lemma StoreKeyTail(x: Index, h: History, x': Index, h': History)
    requires Shape(x, h) && TailOk(x, h) && SetsKey(x, h, x', x.next) && SameSlots(x, h, x', h')
    ensures TailOk(x', h')
  {
    BasesAreValid(x.next);
    forall i | 0 <= i < Last(x') ensures HeaderFits(x', i) && KeySet(x'.entries[x'.headers[i].index[x'.headers[i].tail]]) {
      assert HeaderFits(x, i);
    }
  }

  /** The window moves on by one. */
  ghost predicate MovesOn(x: Index, h: History, x': Index, h': History)
    requires Shape(x, h)
  {
    && SetsKey(x, h, x', x.next) && SameSlots(x, h, x', h')
    && h.limit == x.next && x.prod == Quiet && x'.prod == Keyed(EntryOf(x, h, Last(x), x.next))
    && Free(x.entries[EntryOf(x, h, Last(x), x.next)])
    && h'.limit == x.next + 1 && h'.first == Max(h.first, x.next + 1 - Capacity(x))
  }

  lemma StoreKeyWindow(x: Index, h: History, x': Index, h': History)
    requires Shape(x, h) && WindowOk(x, h) && MovesOn(x, h, x', h')
    ensures WindowOk(x', h')
  {
    forall n ensures InWindow(x', h', n) && BeforeWindow(x', h', n) && ValueFits(x', h', n) {
      assert InWindow(x, h, n) && BeforeWindow(x, h, n) && ValueFits(x, h, n);
      StoreKeyKeys(x, h, x', h', n);
      StoreKeyValue(x, h, x', h', n);
    }
  }

  lemma StoreKeyKeys(x: Index, h: History, x': Index, h': History, n: int)
    requires Shape(x, h) && InWindow(x, h, n) && BeforeWindow(x, h, n) && MovesOn(x, h, x', h') && h.first <= h.limit
    ensures InWindow(x', h', n) && BeforeWindow(x', h', n)
  {
    hide SlotOf, EntryOf;
    assert EntryOf(x', h', Last(x'), n) == EntryOf(x, h, Last(x), n);
    if h'.limit - Capacity(x) <= n < h'.limit && EntryOf(x, h, Last(x), n) == EntryOf(x, h, Last(x), x.next) {
      DifferentEntries(x, h, Last(x), n, x.next);
      assert n == x.next;
    }
  }

  lemma StoreKeyValue(x: Index, h: History, x': Index, h': History, n: int)
    requires Shape(x, h) && WindowOk(x, h) && InWindow(x, h, n) && ValueFits(x, h, n) && MovesOn(x, h, x', h')
    ensures ValueFits(x', h', n)
  {
    OnceRound(x, h, x.next);
    BasesAreValid(n);
    if n == x.next {
      assert n !in x.live;
    }
  }

  /** The slots of the unrolled ring: the window comes first, the new entries behind it. */
  lemma UnrolledSlots(x: Index, h: History, x': Index, h': History, n: int)
    requires Shape(x, h) && TailOk(x, h) && Grows(x, h, x', h') && Shape(x', h')
    requires x.next - 2 * Capacity(x) <= n < x.next
    ensures n >= x.next - Capacity(x) ==> EntryOf(x', h', Last(x'), n) == EntryOf(x, h, Last(x), n)
    ensures n < x.next - Capacity(x) ==> EntryOf(x', h', Last(x'), n) >= |x.entries|
  {
    var m := Capacity(x);
    assert HeaderFits(x, Last(x)) && HeaderFits(x', Last(x'));
    SmallMod(m - x.next + n, 2 * m);
    if n >= x.next - m {
      var i := m - x.next + n;
      AddRemainders(h.offset[Last(x)] + (x.next - 1), 1 + i, m);
      assert h.offset[Last(x)] + (x.next - 1) + (1 + i) == h.offset[Last(x)] + n + m;
      SameRemainder(h.offset[Last(x)] + n + m, h.offset[Last(x)] + n, m, 1);
    }
  }

  /** A ring of twice the size, with as many new entries, becomes the current one. */
  ghost predicate Grows(x: Index, h: History, x': Index, h': History)
    requires Shape(x, h)
  {
    assert HeaderFits(x, Last(x));
    && x'.headers == x.headers + [Unrolled(Current(x), |x.entries|)]
    && |x'.entries| == |x.entries| + Capacity(x) && x'.entries[..|x.entries|] == x.entries
    && (forall e :: |x.entries| <= e < |x'.entries| ==> x'.entries[e].key == INVALID_BLOCK_BASE)
    && x' == x.(headers := x'.headers, entries := x'.entries)
    && h' == h.(offset := h.offset + [Capacity(x) - x.next])
  }

  lemma GrownShape(x: Index, h: History, x': Index, h': History)
    requires Shape(x, h) && Grows(x, h, x', h')
    ensures Shape(x', h')
    ensures forall i, n :: 0 <= i < |x.headers| ==> SlotOf(x', h', i, n) == SlotOf(x, h, i, n)
    ensures forall i, n :: 0 <= i < |x.headers| ==> EntryOf(x', h', i, n) == EntryOf(x, h, i, n)
  {
    var was := Current(x);
    var m := |was.index|;
    assert HeaderFits(x, Last(x));
    var header := Unrolled(was, |x.entries|);
    forall c, d | 0 <= c < d < 2 * m ensures header.index[c] != header.index[d] {
      if d < m && header.index[c] == header.index[d] {
        Uncollide(was.tail + 1 + c, was.tail + 1 + d, m);
      }
    }
    forall i | 0 <= i < |x'.headers| ensures HeaderFits(x', i) {
      if i < |x.headers| {
        assert HeaderFits(x, i);
      }
    }
  }

  lemma GrownAgree(x: Index, h: History, x': Index, h': History)
    requires Shape(x, h) && TailOk(x, h) && Agree(x, h) && Grows(x, h, x', h') && Shape(x', h')
    requires forall i, n :: 0 <= i < |x.headers| ==> SlotOf(x', h', i, n) == SlotOf(x, h, i, n)
    requires forall i, n :: 0 <= i < |x.headers| ==> EntryOf(x', h', i, n) == EntryOf(x, h, i, n)
    ensures Agree(x', h')
  {
    forall i, n, m | 0 <= i < |x'.headers| && EntryOf(x', h', i, m) == EntryOf(x', h', Last(x'), n)
      ensures SlotOf(x', h', i, n) == SlotOf(x', h', i, m)
    {
      if i == Last(x') {
        DifferentEntries(x', h', i, n, m);
      } else {
        SharedEntry(x, h, x', h', n);
        assert EntryOf(x, h, i, m) == EntryOf(x, h, Last(x), n);
      }
    }
  }

  /** An entry the new ring shares with the old one is the one for the same block numbers in both. */
  lemma SharedEntry(x: Index, h: History, x': Index, h': History, n: int)
    requires Shape(x, h) && TailOk(x, h) && Grows(x, h, x', h') && Shape(x', h')
    requires EntryOf(x', h', Last(x'), n) < |x.entries|
    ensures EntryOf(x', h', Last(x'), n) == EntryOf(x, h, Last(x), n)
  {
    var m := Capacity(x);
    var c := SlotOf(x', h', Last(x'), n);
    assert HeaderFits(x, Last(x)) && HeaderFits(x', Last(x'));
    var q := (m - x.next + n) / (2 * m);
    assert m - x.next + n == q * (2 * m) + c;
    var i := x.next - m + c;
    SmallMod(c, 2 * m);
    UnrolledSlots(x, h, x', h', i);
    assert q * (2 * m) == (2 * q) * m;
    SameRemainder(h.offset[Last(x)] + n, h.offset[Last(x)] + i, m, 2 * q);
  }

  lemma GrownKeysFit(x: Index, h: History, x': Index, h': History)
    requires Shape(x, h) && TailOk(x, h) && WindowOk(x, h) && KeysFit(x, h) && Grows(x, h, x', h') && Shape(x', h')
    requires h.limit == x.next && h.first == x.next - Capacity(x)
    requires forall i, n :: 0 <= i < |x.headers| ==> SlotOf(x', h', i, n) == SlotOf(x, h, i, n)
    ensures KeysFit(x', h')
  {
    forall i, c | 0 <= i < |x'.headers| && 0 <= c < |x'.headers[i].index| ensures HeaderFits(x', i) && KeyFits(x', h', i, c) {
      assert HeaderFits(x', i);
      if i < |x.headers| {
        assert HeaderFits(x, i) && KeyFits(x, h, i, c);
      } else {
        GrownKeyFits(x, h, x', h', c);
      }
    }
  }

  lemma GrownKeyFits(x: Index, h: History, x': Index, h': History, c: nat)
    requires Shape(x, h) && TailOk(x, h) && WindowOk(x, h) && Grows(x, h, x', h') && Shape(x', h')
    requires h.limit == x.next && h.first == x.next - Capacity(x)
    requires HeaderFits(x', Last(x')) && c < |x'.headers[Last(x')].index|
    ensures KeyFits(x', h', Last(x'), c)
  {
    var m := Capacity(x);
    var k := if c < m then x.next - m + c else x.next - 3 * m + c;
    SmallMod(m - x.next + k, 2 * m);
    UnrolledSlots(x, h, x', h', k);
    assert SlotOf(x', h', Last(x'), k) == c;
    assert InWindow(x, h, k);
    forall n | x'.entries[x'.headers[Last(x')].index[c]].key == Base(n) ensures SlotOf(x', h', Last(x'), n) == c {
      BasesAreValid(n);
      BasesDiffer(n, k);
    }
  }

  lemma GrownWindow(x: Index, h: History, x': Index, h': History)
    requires Shape(x, h) && TailOk(x, h) && WindowOk(x, h) && Grows(x, h, x', h') && Shape(x', h') && x.prod == Quiet
    requires h.limit == x.next && h.first == x.next - Capacity(x)
    ensures WindowOk(x', h')
  {
    forall n ensures InWindow(x', h', n) && BeforeWindow(x', h', n) && ValueFits(x', h', n) {
      assert InWindow(x, h, n) && ValueFits(x, h, n);
      if x.next - 2 * Capacity(x) <= n < x.next {
        UnrolledSlots(x, h, x', h', n);
      }
    }
  }

  lemma GrownTail(x: Index, h: History, x': Index, h': History)
    requires Shape(x, h) && TailOk(x, h) && WindowOk(x, h) && Grows(x, h, x', h') && Shape(x', h')
    requires h.limit == x.next && h.first == x.next - Capacity(x)
    ensures TailOk(x', h')
  {
    assert HeaderFits(x, Last(x)) && HeaderFits(x', Last(x'));
    SmallMod(Capacity(x) - 1, 2 * Capacity(x));
    forall i | 0 <= i < Last(x') ensures HeaderFits(x', i) && KeySet(x'.entries[x'.headers[i].index[x'.headers[i].tail]]) {
      assert HeaderFits(x, i) && HeaderFits(x', i);
      if i == Last(x) {
        assert InWindow(x, h, x.next - 1);
        BasesAreValid(x.next - 1);
      }
    }
    forall k, n | k in x'.live && k <= n < x'.next ensures KeySet(x'.entries[EntryOf(x', h', Last(x'), n)]) {
      assert ValueFits(x, h, k) && InWindow(x, h, n);
      UnrolledSlots(x, h, x', h', n);
      BasesAreValid(n);
    }
  }

  lemma GrowKeeps(x: Index, h: History, junk: nat -> Option<BlockId>) returns (h': History)
    requires IndexOk(x, h) && MayStep(x, Grow(junk))
    ensures IndexOk(Stepped(x, Grow(junk)), h') && Grows(x, h, Stepped(x, Grow(junk)), h')
    ensures h.limit == x.next && h.first == x.next - Capacity(x)
  {
    var x' := Stepped(x, Grow(junk));
    h' := h.(offset := h.offset + [Capacity(x) - x.next]);
    OldestIsNext(x, h);
    assert BeforeWindow(x, h, x.next - Capacity(x));
    GrownShape(x, h, x', h');
    GrownKeysFit(x, h, x', h');
    GrownAgree(x, h, x', h');
    GrownWindow(x, h, x', h');
    GrownTail(x, h, x', h');
    forall e | 0 <= e < |x'.entries| && KeySet(x'.entries[e]) ensures exists n :: x'.entries[e].key == Base(n) {
      assert x'.entries[e] == x.entries[e];
    }
  }

  // ---------- The consumers' loads keep the invariant ----------

  /** A lookup can start from the tail of any header while a block is in the index. */
  lemma TailHasKey(x: Index, h: History, i: nat, k: int)
    requires Shape(x, h) && TailOk(x, h) && i < |x.headers| && k in x.live && k < x.next
    ensures HeaderFits(x, i) && KeySet(x.entries[x.headers[i].index[x.headers[i].tail]])
  {
    assert HeaderFits(x, i);
    if i == Last(x) {
      assert EntryOf(x, h, i, x.next - 1) == x.headers[i].index[x.headers[i].tail];
    }
  }

  lemma LoadKeeps(x: Index, h: History, r: Reader)
    requires IndexOk(x, h) && ReaderOk(x, h, r) && Reads(r) && HasLoaded(x, r)
    ensures ReaderOk(x, h, AfterLoad(x, r))
  {
    match r
    case LoadHeader(k, last) =>
    case LoadTail(k, last, i) => TailHasKey(x, h, i, k);
    case LoadKey(k, last, i, tail) => FindsTheSlot(x, h, i, tail, k);
    case LoadValue(k, last, i, c) =>
      assert HeaderFits(x, i) && Knows(x, h, i, k) && ValueFits(x, h, k);
  }

  lemma UseKeeps(x: Index, h: History, r: Reader)
    requires IndexOk(x, h) && ReaderOk(x, h, r) && r.Using? && HasLoaded(x, r)
    ensures ReaderOk(x, h, AfterUse(x, r))
  {
    SlotAfter(x, h, r.header, r.k);
  }

  // ---------- What a lookup under way does not notice ----------

  lemma ReaderSeesKey(x: Index, h: History, x': Index, h': History, r: Reader, n: int)
    requires Shape(x, h) && SetsKey(x, h, x', n) && SameSlots(x, h, x', h') && x'.published == x.published && ReaderOk(x, h, r)
    ensures ReaderOk(x', h', r)
  {
    BasesAreValid(n);
    if r != Away && !r.LoadHeader? {
      forall j | r.k <= j <= r.last ensures Knows(x', h', r.header, j) {
        assert Knows(x, h, r.header, j);
      }
    }
    if r.LoadKey? {
      assert HeaderFits(x, r.header) && HeaderFits(x', r.header);
    }
  }

  /** A lookup that started on the older header stays right on it. */
  lemma ReaderSeesGrowth(x: Index, h: History, x': Index, h': History, r: Reader)
    requires IndexOk(x, h) && Grows(x, h, x', h') && ReaderOk(x, h, r) && x.prod == Quiet && h.first == x.next - Capacity(x)
    ensures Shape(x', h') && ReaderOk(x', h', r)
  {
    GrownShape(x, h, x', h');
    if r != Away && !r.LoadHeader? {
      forall j | r.k <= j <= r.last ensures Knows(x', h', r.header, j) {
        assert Knows(x, h, r.header, j) && ValueFits(x, h, j);
        UnrolledSlots(x, h, x', h', j);
      }
    }
    if r.LoadKey? {
      assert HeaderFits(x, r.header) && HeaderFits(x', r.header);
    }
  }

  // ---------- Every event keeps the invariant ----------

  /** A step of the producer that leaves all entries in their slots. */
  lemma PlainStepKeeps(x: Index, h: History, e: Step, readers: seq<Reader>) returns (h': History)
    requires Inv(State(x, readers), h) && MayStep(x, e) && !e.StoreKey? && !e.Grow?
    ensures Inv(State(Stepped(x, e), readers), h')
  {
    var x' := Stepped(x, e);
    h' := h;
    match e {
      case StoreTail => StoreTailKeeps(x, h);
      case StoreValue(b) => StoreValueKeeps(x, h, b);
      case Rewind => RewindKeeps(x, h);
      case StoreNull => h' := StoreNullKeeps(x, h);
      case Publish => PublishKeeps(x, h, e);
      case Fail => PublishKeeps(x, h, e);
      case Undo =>
        if x.prod.Undoing? {
          UndoFinds(x, h);
          UndoEntryKeeps(x, h);
        } else {
          h' := UndoTailKeeps(x, h);
        }
    }
    SlotsStay(x, h, x', h');
    PublishedBlocksStay(x, h, e);
    forall t | 0 <= t < |readers| ensures ReaderOk(x', h', readers[t]) {
      assert ReaderOk(x, h, State(x, readers).readers[t]);
      ReaderStays(x, h, x', h', readers[t]);
    }
  }

  lemma PublishedBlocksStay(x: Index, h: History, e: Step)
    requires IndexOk(x, h) && MayStep(x, e)
    requires e.Undo? && x.prod.Undoing? ==> Stepped(x, e).live == x.live - {x.prod.k}
    ensures var x' := Stepped(x, e);
      && x.published <= x'.published
      && forall k :: k in x.live && k < x.published ==> k in x'.live && x'.live[k] == x.live[k]
  {
  }

  lemma ProduceKeeps(x: Index, h: History, e: Step, readers: seq<Reader>) returns (h': History)
    requires Inv(State(x, readers), h) && MayStep(x, e)
    ensures Inv(State(Stepped(x, e), readers), h')
  {
    match e {
      case StoreKey =>
        h' := StoreKeyKeeps(x, h);
        forall t | 0 <= t < |readers| ensures ReaderOk(Stepped(x, e), h', readers[t]) {
          assert ReaderOk(x, h, State(x, readers).readers[t]);
          ReaderSeesKey(x, h, Stepped(x, e), h', readers[t], x.next);
        }
      case Grow(junk) =>
        h' := GrowKeeps(x, h, junk);
        forall t | 0 <= t < |readers| ensures ReaderOk(Stepped(x, e), h', readers[t]) {
          assert ReaderOk(x, h, State(x, readers).readers[t]);
          ReaderSeesGrowth(x, h, Stepped(x, e), h', readers[t]);
        }
      case _ => h' := PlainStepKeeps(x, h, e, readers);
    }
  }

  lemma ClearsOwn(x: Index, h: History, r: Reader)
    requires IndexOk(x, h) && ReaderOk(x, h, r) && r.Using? && HasLoaded(x, r)
    ensures var x' := Cleared(x, r);
      && x'.live == x.live - {r.k} && x'.published == x.published
      && IndexOk(x', h) && SameRings(x, x') && SameSlots(x, h, x', h)
  {
    assert Knows(x, h, r.header, r.k);
    assert Cleared(x, r) == Unlinked(x, h, r.k);
    UnlinkKeeps(x, h, r.k);
    SlotsStay(x, h, Cleared(x, r), h);
  }

  /** Clearing the entry of a block that nobody else needs. */
  lemma ClearKeeps(s: State, h: History, t: nat)
    requires Inv(s, h) && Enabled(s, Leave(t, true))
    ensures Inv(Apply(s, Leave(t, true)), h)
  {
    var r := s.readers[t];
    var s' := Apply(s, Leave(t, true));
    assert ReaderOk(s.x, h, r);
    ClearsOwn(s.x, h, r);
    UseKeeps(s.x, h, r);
    forall u | 0 <= u < |s.readers| ensures ReaderOk(s'.x, h, s'.readers[u]) {
      assert ReaderOk(s.x, h, s.readers[u]);
      ReaderStays(s.x, h, s'.x, h, s'.readers[u]);
    }
  }

  lemma ReadKeeps(s: State, h: History, e: Event)
    requires Inv(s, h) && Enabled(s, e) && (e.StartLookup? || e.Read? || (e.Leave? && !e.clear))
    ensures Inv(Apply(s, e), h)
  {
    var t := e.thread;
    assert ReaderOk(s.x, h, s.readers[t]);
    match e {
      case Read(_) => LoadKeeps(s.x, h, s.readers[t]);
      case Leave(_, _) => UseKeeps(s.x, h, s.readers[t]);
      case _ =>
    }
  }

  lemma StepKeeps(s: State, h: History, e: Event) returns (h': History)
    requires Inv(s, h) && Enabled(s, e)
    ensures Inv(Apply(s, e), h')
  {
    h' := h;
    match e
    case Produce(step) => h' := ProduceKeeps(s.x, h, step, s.readers);
    case Leave(t, clear) => if clear { ClearKeeps(s, h, t); } else { ReadKeeps(s, h, e); }
    case _ => ReadKeeps(s, h, e);
  }

  ghost predicate HasHistory(s: State) {
    exists h: History :: Inv(s, h)
  }

  lemma InitialInv(s: State)
    requires Init(s)
    ensures HasHistory(s)
  {
    var h := History([0], 0, 0);
    assert HeaderFits(s.x, 0);
    SmallMod(-1, |s.x.entries|);
    forall c | 0 <= c < |s.x.headers[0].index| ensures KeyFits(s.x, h, 0, c) {
      forall n ensures s.x.entries[c].key != Base(n) {
        BasesAreValid(n);
      }
    }
    forall n, m | EntryOf(s.x, h, 0, m) == EntryOf(s.x, h, 0, n) ensures SlotOf(s.x, h, 0, n) == SlotOf(s.x, h, 0, m) {
      DifferentEntries(s.x, h, 0, n, m);
    }
    assert Inv(s, h);
  }

  lemma StepKeepsHistory(s: State, e: Event, s': State)
    requires HasHistory(s) && Next(s, e, s')
    ensures HasHistory(s')
  {
    var h: History :| Inv(s, h);
    var h' := StepKeeps(s, h, e);
  }

  lemma Invariant(s: State) returns (h: History)
    requires Reachable(Init, Next, s)
    ensures Inv(s, h)
  {
    forall a: State | Init(a) ensures HasHistory(a) {
      InitialInv(a);
    }
    forall a: State, e: Event, b: State | HasHistory(a) && Next(a, e, b) ensures HasHistory(b) {
      StepKeepsHistory(a, e, b);
    }
    Induction(Init, Next, HasHistory, s);
    h :| Inv(s, h);
  }

  // ---------- What holds in every reachable state ----------

  /**
   Whatever was inserted, rewound, cleared or unrolled since it loaded header, tail and key, a lookup
   of block `k` is led to an entry with the key and the block of `k`, and comes away with that block.
   */
  lemma LookupIsRight(s: State, t: nat)
    requires Reachable(Init, Next, s) && t < |s.readers| && s.readers[t] != Away
    ensures s.readers[t].k in s.x.live
    ensures s.readers[t].LoadValue? ==>
              var LoadValue(k, _, i, c) := s.readers[t];
              && i < |s.x.headers| && c < |s.x.headers[i].index| && s.x.headers[i].index[c] < |s.x.entries|
              && s.x.entries[s.x.headers[i].index[c]] == Slot(Base(k), Some(s.x.live[k]))
    ensures s.readers[t].Using? ==> s.readers[t].block == Some(s.x.live[s.readers[t].k])
  {
    var h := Invariant(s);
    var r := s.readers[t];
    assert ReaderOk(s.x, h, r) && InWindow(s.x, h, r.k) && ValueFits(s.x, h, r.k);
    if r.LoadValue? {
      assert Knows(s.x, h, r.header, r.k) && HeaderFits(s.x, r.header);
    }
  }

  /** The entry a lookup starts from has a key by the time it loads the tail, and keeps one for good. */
  lemma LookupStartsFromAKey(s: State, t: nat)
    requires Reachable(Init, Next, s) && t < |s.readers| && s.readers[t].LoadKey?
    ensures var LoadKey(_, _, i, tail) := s.readers[t];
      && i < |s.x.headers| && tail < |s.x.headers[i].index| && s.x.headers[i].index[tail] < |s.x.entries|
      && s.x.entries[s.x.headers[i].index[tail]].key != INVALID_BLOCK_BASE
  {
    var h := Invariant(s);
    assert ReaderOk(s.x, h, s.readers[t]);
  }

  /** Every lookup under way can take its next load. */
  lemma LookupsGoOn(s: State, t: nat)
    requires Reachable(Init, Next, s) && t < |s.readers| && Reads(s.readers[t])
    ensures Enabled(s, Read(t))
  {
    var h := Invariant(s);
    var r := s.readers[t];
    assert ReaderOk(s.x, h, r);
    if !r.LoadHeader? {
      assert Knows(s.x, h, r.header, r.k);
    }
  }

  /** The producer's own lookup, when it undoes a failed bulk enqueue, finds the entry of each of its blocks. */
  lemma UndoIsRight(s: State)
    requires Reachable(Init, Next, s) && s.x.prod.Undoing?
    ensures var x, k := s.x, s.x.prod.k;
      && WellFormed(x) && HeaderFits(x, Last(x)) && k in x.live
      && var header := Current(x);
      && var c := Found(k, header.tail, x.entries[header.index[header.tail]].key, |header.index|);
      && x.entries[header.index[c]] == Slot(Base(k), Some(x.live[k]))
  {
    var h := Invariant(s);
    UndoFinds(s.x, h);
    assert HeaderFits(s.x, Last(s.x));
    assert InWindow(s.x, h, s.x.next - 1);
    BasesAreValid(s.x.next - 1);
    assert EntryOf(s.x, h, Last(s.x), s.x.next - 1) == Current(s.x).index[Current(s.x).tail];
    FindsTheSlot(s.x, h, Last(s.x), Current(s.x).tail, s.x.prod.k);
    assert InWindow(s.x, h, s.x.prod.k) && ValueFits(s.x, h, s.x.prod.k);
  }

  /** After unrolling, the entry to be used next is a new one. */
  lemma RoomAfterGrowth(s: State, junk: nat -> Option<BlockId>)
    requires Reachable(Init, Next, s) && MayStep(s.x, Grow(junk))
    ensures var x' := Stepped(s.x, Grow(junk)); WellFormed(x') && x'.entries[Oldest(x')].key == INVALID_BLOCK_BASE
  {
    var h := Invariant(s);
    var x' := Stepped(s.x, Grow(junk));
    var h' := GrowKeeps(s.x, h, junk);
    OldestIsNext(x', h');
    UnrolledSlots(s.x, h, x', h', s.x.next - 2 * Capacity(s.x));
  }
}
