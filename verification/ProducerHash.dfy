/**
 The hash that finds the implicit producer of a thread, with calls taken one at a time: open
 addressing with tombstones, tables chained from the newest to older ones, threads moved to the
 newest table when they are next looked up, and producers recycled when their thread has ended.

 A capacity is a power of two, so the masked index is the remainder by the capacity.
 */
module ProducerHash {
  import opened Numbers
  import opened Options

  type ThreadId(==, !new)

  type ProducerId = nat

  /** A key: invalid_thread_id, invalid_thread_id2 (what a thread that ended leaves), or a thread. */
  datatype Key = Empty | Reusable | Thread(id: ThreadId)

  datatype Entry = Entry(key: Key, value: Option<ProducerId>)

  // ---------- One table, as a value ----------

  /** The key met after `n` steps of a probe that starts at `h`. */
  function Probed(es: seq<Entry>, h: nat, n: nat): Key
    requires |es| > 0
  {
    es[(h + n) % |es|].key
  }

  /** A probe for the thread in slot `s` gets there: it meets no empty slot before. */
  ghost predicate Findable(es: seq<Entry>, h: nat, s: nat)
    requires s < |es|
  {
    exists n: nat :: (h + n) % |es| == s && Unbroken(es, h, n)
  }

  ghost predicate Unbroken(es: seq<Entry>, h: nat, n: nat)
    requires |es| > 0
  {
    forall m: nat :: m < n ==> Probed(es, h, m) != Empty
  }

  ghost predicate HasEmpty(es: seq<Entry>) {
    exists s :: 0 <= s < |es| && es[s].key == Empty
  }

  /** Every thread in the table is findable, and is there once; a probe ends. */
  ghost predicate WellFormed(es: seq<Entry>, hash: ThreadId -> nat) {
    && HasEmpty(es)
    && (forall s :: 0 <= s < |es| && es[s].key.Thread? ==> Findable(es, hash(es[s].key.id), s))
    && (forall r, s :: 0 <= r < s < |es| && es[r].key.Thread? ==> es[s].key != es[r].key)
  }

  function Used(es: seq<Entry>): nat {
    if es == [] then 0 else (if es[0].key == Empty then 0 else 1) + Used(es[1..])
  }

  ghost function Threads(es: seq<Entry>): set<ThreadId> {
    set s | 0 <= s < |es| && es[s].key.Thread? :: es[s].key.id
  }

  lemma {:induction false} UsedUpdate(es: seq<Entry>, s: nat, e: Entry)
    requires s < |es|
    ensures Used(es[s := e]) == Used(es) - (if es[s].key == Empty then 0 else 1) + (if e.key == Empty then 0 else 1)
  {
    if s == 0 {
      assert es[s := e][1..] == es[1..];
    } else {
      assert es[s := e][1..] == es[1..][s - 1 := e];
      UsedUpdate(es[1..], s - 1, e);
    }
  }

  lemma {:induction false} RoomLeft(es: seq<Entry>)
    requires Used(es) < |es|
    ensures HasEmpty(es)
  {
    if es[0].key != Empty {
      RoomLeft(es[1..]);
      var s :| 0 <= s < |es[1..]| && es[1..][s].key == Empty;
      assert es[s + 1].key == Empty;
    }
  }

  lemma {:induction false} NoMoreThreadsThanUsed(es: seq<Entry>)
    ensures |Threads(es)| <= Used(es)
  {
    if es != [] {
      NoMoreThreadsThanUsed(es[1..]);
      var rest := Threads(es[1..]);
      if es[0].key.Thread? {
        assert Threads(es) == rest + {es[0].key.id} by {
          forall id | id in Threads(es) ensures id in rest + {es[0].key.id} {
            var s :| 0 <= s < |es| && es[s].key == Thread(id);
            assert s > 0 ==> es[1..][s - 1].key == Thread(id);
          }
          forall id | id in rest ensures id in Threads(es) {
            var s :| 0 <= s < |es[1..]| && es[1..][s].key == Thread(id);
            assert es[s + 1].key == Thread(id);
          }
        }
      } else {
        assert Threads(es) == rest by {
          forall id | id in Threads(es) ensures id in rest {
            var s :| 0 <= s < |es| && es[s].key == Thread(id);
            assert es[1..][s - 1].key == Thread(id);
          }
          forall id | id in rest ensures id in Threads(es) {
            var s :| 0 <= s < |es[1..]| && es[1..][s].key == Thread(id);
            assert es[s + 1].key == Thread(id);
          }
        }
      }
    }
  }

  lemma {:induction false} FreshTable(es: seq<Entry>, hash: ThreadId -> nat)
    requires |es| > 0 && forall s :: 0 <= s < |es| ==> es[s].key == Empty
    ensures WellFormed(es, hash) && Used(es) == 0 && Threads(es) == {}
  {
    assert es[0].key == Empty;
    AllUnused(es);
  }

  lemma {:induction false} AllUnused(es: seq<Entry>)
    requires forall s :: 0 <= s < |es| ==> es[s].key == Empty
    ensures Used(es) == 0
  {
    if es != [] {
      AllUnused(es[1..]);
    }
  }

  // ---------- Probing ----------

  lemma NextProbe(h: nat, n: nat, capacity: nat)
    requires capacity > 0
    ensures ((h + n) % capacity + 1) % capacity == (h + n + 1) % capacity
  {
    var q := (h + n) / capacity;
    assert h + n == q * capacity + (h + n) % capacity;
    SameRemainder(h + n + 1, (h + n) % capacity + 1, capacity, q);
  }

  /** A slot is met by a probe from anywhere. */
  lemma Meets(h: nat, s: nat, capacity: nat) returns (d: nat)
    requires s < capacity
    ensures d < capacity && (h + d) % capacity == s
  {
    var r := h % capacity;
    d := if r <= s then s - r else s - r + capacity;
    var q := h / capacity;
    assert h == q * capacity + r;
    if r <= s {
      DivisionIsUnique(h + d, capacity, q, s);
    } else {
      assert (q + 1) * capacity == q * capacity + capacity;
      DivisionIsUnique(h + d, capacity, q + 1, s);
    }
  }

  /** An unbroken probe has not passed the empty slot. */
  lemma StopsInTime(es: seq<Entry>, h: nat, n: nat, d: nat)
    requires |es| > 0 && Unbroken(es, h, n) && Probed(es, h, d) == Empty
    ensures n <= d
  {
  }

  /** A thread is not in the table when a probe for it meets an empty slot before it. */
  lemma NotInTable(es: seq<Entry>, hash: ThreadId -> nat, id: ThreadId, n: nat)
    requires WellFormed(es, hash) && Probed(es, hash(id), n) == Empty
    requires forall m: nat :: m < n ==> Probed(es, hash(id), m) != Thread(id)
    ensures id !in Threads(es)
  {
    if id in Threads(es) {
      var k := ProbeOf(es, hash, id);
      assert false;
    }
  }

  /** The number of steps a probe takes to a thread in the table. */
  lemma ProbeOf(es: seq<Entry>, hash: ThreadId -> nat, id: ThreadId) returns (n: nat)
    requires WellFormed(es, hash) && id in Threads(es)
    ensures Probed(es, hash(id), n) == Thread(id) && Unbroken(es, hash(id), n)
  {
    var s :| 0 <= s < |es| && es[s].key == Thread(id);
    assert Findable(es, hash(id), s);
    n :| (hash(id) + n) % |es| == s && Unbroken(es, hash(id), n);
  }

  /** Putting a thread into the first free slot of its probe keeps the table well formed. */
  lemma PutKeeps(es: seq<Entry>, hash: ThreadId -> nat, id: ThreadId, n: nat, value: ProducerId)
    requires WellFormed(es, hash) && id !in Threads(es) && Unbroken(es, hash(id), n)
    requires !Probed(es, hash(id), n).Thread?
    ensures var now := es[(hash(id) + n) % |es| := Entry(Thread(id), Some(value))];
      && (HasEmpty(now) ==> WellFormed(now, hash)) && Threads(now) == Threads(es) + {id}
      && Used(now) == Used(es) + if Probed(es, hash(id), n) == Empty then 1 else 0
  {
    var s := (hash(id) + n) % |es|;
    var now := es[s := Entry(Thread(id), Some(value))];
    UsedUpdate(es, s, Entry(Thread(id), Some(value)));
    assert Threads(now) == Threads(es) + {id} by {
      assert now[s].key == Thread(id);
      forall other | other in Threads(es) ensures other in Threads(now) {
        var r :| 0 <= r < |es| && es[r].key == Thread(other);
        assert now[r].key == Thread(other);
      }
    }
    StillFindable(es, now, hash, s);
    forall m: nat | m < n ensures Probed(now, hash(id), m) != Empty {
      assert Probed(es, hash(id), m) != Empty;
    }
    assert Unbroken(now, hash(id), n) && Findable(now, hash(id), s);
    forall r, t | 0 <= r < t < |now| && now[r].key.Thread? ensures now[t].key != now[r].key {
      assert r != s ==> es[r].key.id in Threads(es);
      assert t != s && es[t].key.Thread? ==> es[t].key.id in Threads(es);
    }
  }

  /** Nothing becomes unfindable while no slot becomes empty. */
  lemma StillFindable(es: seq<Entry>, now: seq<Entry>, hash: ThreadId -> nat, s: nat)
    requires WellFormed(es, hash) && s < |es| && |now| == |es| && now == es[s := now[s]] && now[s].key != Empty
    ensures forall r :: 0 <= r < |now| && r != s && now[r].key.Thread? ==> Findable(now, hash(now[r].key.id), r)
  {
    forall r | 0 <= r < |now| && r != s && now[r].key.Thread? ensures Findable(now, hash(now[r].key.id), r) {
      var h := hash(es[r].key.id);
      assert Findable(es, h, r);
      var n: nat :| (h + n) % |es| == r && Unbroken(es, h, n);
      forall m: nat | m < n ensures Probed(now, h, m) != Empty {
        assert Probed(es, h, m) != Empty;
      }
      assert Unbroken(now, h, n);
    }
  }

  /** A tombstone in place of a thread keeps the table well formed. */
  lemma BuryKeeps(es: seq<Entry>, hash: ThreadId -> nat, s: nat)
    requires WellFormed(es, hash) && s < |es| && es[s].key.Thread?
    ensures var now := es[s := es[s].(key := Reusable)];
      WellFormed(now, hash) && Threads(now) == Threads(es) - {es[s].key.id} && Used(now) == Used(es)
  {
    var now := es[s := es[s].(key := Reusable)];
    UsedUpdate(es, s, es[s].(key := Reusable));
    StillFindable(es, now, hash, s);
    var e :| 0 <= e < |es| && es[e].key == Empty;
    assert now[e].key == Empty;
    assert Threads(now) == Threads(es) - {es[s].key.id} by {
      forall other | other in Threads(es) && other != es[s].key.id ensures other in Threads(now) {
        var r :| 0 <= r < |es| && es[r].key == Thread(other);
        assert now[r].key == Thread(other);
      }
      forall other | other in Threads(now) ensures other in Threads(es) && other != es[s].key.id {
        var r :| 0 <= r < |now| && now[r].key == Thread(other);
        assert es[r].key == Thread(other);
      }
    }
  }

  /** The slot of `id`, if it is in the table. */
  method Find(entries: array<Entry>, ghost hash: ThreadId -> nat, id: ThreadId, hashedId: nat)
    returns (found: bool, slot: nat)
    requires WellFormed(entries[..], hash) && hashedId == hash(id)
    ensures found <==> id in Threads(entries[..])
    ensures found ==> slot < entries.Length && entries[slot].key == Thread(id)
  {
    var index := hashedId;
    ghost var n: nat := 0;
    ghost var e :| 0 <= e < entries.Length && entries[e].key == Empty;
    ghost var d := Meets(hashedId, e, entries.Length);
    while true
      invariant index % entries.Length == (hashedId + n) % entries.Length
      invariant Unbroken(entries[..], hashedId, n) && n <= d
      invariant forall m: nat :: m < n ==> Probed(entries[..], hashedId, m) != Thread(id)
      decreases d - n
    {
      index := index % entries.Length;
      var probedKey := entries[index].key;
      assert probedKey == Probed(entries[..], hashedId, n);
      if probedKey == Thread(id) {
        assert entries[..][index].key == Thread(id);
        return true, index;
      }
      if probedKey == Empty {
        NotInTable(entries[..], hash, id, n);
        return false, index;
      }
      NextProbe(hashedId, n, entries.Length);
      index := index + 1;
      n := n + 1;
      StopsInTime(entries[..], hashedId, n, d);
    }
  }

  /** Enter a thread that is not in the table; tells whether an empty slot was used up for it. */
  method Put(entries: array<Entry>, ghost hash: ThreadId -> nat, id: ThreadId, hashedId: nat, value: ProducerId)
    returns (usedUp: bool)
    requires WellFormed(entries[..], hash) && hashedId == hash(id) && id !in Threads(entries[..])
    requires Used(entries[..]) + 1 < entries.Length
    modifies entries
    ensures WellFormed(entries[..], hash) && Threads(entries[..]) == old(Threads(entries[..])) + {id}
    ensures Used(entries[..]) == old(Used(entries[..])) + if usedUp then 1 else 0
    ensures forall s :: 0 <= s < entries.Length ==>
              entries[s] == old(entries[s]) || entries[s] == Entry(Thread(id), Some(value))
  {
    var index := hashedId;
    ghost var n: nat := 0;
    ghost var e :| 0 <= e < entries.Length && entries[e].key == Empty;
    ghost var d := Meets(hashedId, e, entries.Length);
    while true
      invariant index % entries.Length == (hashedId + n) % entries.Length && entries[..] == old(entries[..])
      invariant Unbroken(entries[..], hashedId, n) && n <= d
      decreases d - n
    {
      index := index % entries.Length;
      var key := entries[index].key;
      assert key == Probed(entries[..], hashedId, n);
      if key == Empty || key == Reusable {
        PutKeeps(entries[..], hash, id, n, value);
        entries[index] := Entry(Thread(id), Some(value));
        assert entries[..] == old(entries[..])[index := Entry(Thread(id), Some(value))];
        RoomLeft(entries[..]);
        return key == Empty;
      }
      NextProbe(hashedId, n, entries.Length);
      index := index + 1;
      n := n + 1;
      StopsInTime(entries[..], hashedId, n, d);
    }
  }

  /** Leave a tombstone for a thread, if it is in the table. */
  method Bury(entries: array<Entry>, ghost hash: ThreadId -> nat, id: ThreadId, hashedId: nat)
    requires WellFormed(entries[..], hash) && hashedId == hash(id)
    modifies entries
    ensures WellFormed(entries[..], hash) && Threads(entries[..]) == old(Threads(entries[..])) - {id}
    ensures Used(entries[..]) == old(Used(entries[..]))
    ensures forall s :: 0 <= s < entries.Length ==>
              entries[s] == old(entries[s]) || entries[s].key == Reusable
  {
    var found, slot := Find(entries, hash, id, hashedId);
    if found {
      BuryKeeps(entries[..], hash, slot);
      entries[slot] := entries[slot].(key := Reusable);
      assert entries[..] == old(entries[..])[slot := old(entries[slot]).(key := Reusable)];
    }
  }

  // ---------- The chain of tables ----------

  class Table {
    const entries: array<Entry>
    const prev: Table?

    constructor (capacity: nat, prev: Table?)
      ensures fresh(entries) && entries.Length == capacity && this.prev == prev
      ensures forall s :: 0 <= s < capacity ==> entries[s].key == Empty
    {
      entries := new Entry[capacity](_ => Entry(Empty, None));
      this.prev := prev;
    }
  }

  /** Every thread in the table is a live one, with its producer. */
  ghost predicate Names(es: seq<Entry>, owner: map<ThreadId, ProducerId>) {
    forall s :: 0 <= s < |es| && es[s].key.Thread? ==>
      es[s].key.id in owner && es[s].value == Some(owner[es[s].key.id])
  }

  /** The threads that have to be moved to the newest table when they are next seen. */
  ghost function Pending(es: seq<Entry>, owner: map<ThreadId, ProducerId>): set<ThreadId> {
    owner.Keys - Threads(es)
  }

  /** What `implicitProducerHashCount` guarantees: room for all the live threads in the newest table. */
  ghost predicate Reserved(es: seq<Entry>, owner: map<ThreadId, ProducerId>, count: nat) {
    Used(es) + |Pending(es, owner)| <= count < |es|
  }

  ghost predicate Distinct(owner: map<ThreadId, ProducerId>) {
    forall id, other :: id in owner && other in owner && id != other ==> owner[id] != owner[other]
  }

  lemma MovedIn(es: seq<Entry>, now: seq<Entry>, owner: map<ThreadId, ProducerId>, count: nat, id: ThreadId)
    requires Reserved(es, owner, count) && id in owner && id !in Threads(es)
    requires |now| == |es| && Threads(now) == Threads(es) + {id} && Used(now) <= Used(es) + 1
    ensures Reserved(now, owner, count)
  {
    assert Pending(now, owner) == Pending(es, owner) - {id};
  }

  lemma Registered(es: seq<Entry>, now: seq<Entry>, owner: map<ThreadId, ProducerId>, count: nat, id: ThreadId, p: ProducerId)
    requires Reserved(es, owner, count) && id !in owner && id !in Threads(es)
    requires Threads(now) == Threads(es) + {id} && count + Used(now) - Used(es) < |now|
    ensures Reserved(now, owner[id := p], count + Used(now) - Used(es))
  {
    assert Pending(now, owner[id := p]) == Pending(es, owner);
  }

  lemma Ended(es: seq<Entry>, now: seq<Entry>, owner: map<ThreadId, ProducerId>, count: nat, id: ThreadId)
    requires Reserved(es, owner, count) && |now| == |es| && Threads(now) == Threads(es) - {id} && Used(now) == Used(es)
    ensures Reserved(now, owner - {id}, count)
  {
    assert Pending(now, owner - {id}) <= Pending(es, owner);
    Subset(Pending(now, owner - {id}), Pending(es, owner));
  }

  /** A bigger table starts empty, and the count covers all live threads. */
  lemma Resized(es: seq<Entry>, now: seq<Entry>, owner: map<ThreadId, ProducerId>, count: nat)
    requires Reserved(es, owner, count) && Used(now) == 0 && Threads(now) == {} && count < |now|
    ensures Reserved(now, owner, count) && Names(now, owner)
  {
    NoMoreThreadsThanUsed(es);
    assert Pending(now, owner) == owner.Keys;
    forall s | 0 <= s < |now| ensures now[s].key.Thread? ==> now[s].key.id in Threads(now) {
    }
    Subset(owner.Keys, Threads(es) + Pending(es, owner));
  }

  lemma {:induction false} Subset<T>(a: set<T>, b: set<T>)
    requires a <= b
    ensures |a| <= |b|
  {
    assert b == a + (b - a);
  }

  /** Live threads have active producers, and no two the same. */
  ghost predicate Active(owner: map<ThreadId, ProducerId>, inactive: seq<bool>) {
    Distinct(owner) && forall id :: id in owner ==> owner[id] < |inactive| && !inactive[owner[id]]
  }

  /** A producer that was not active, or not there, is nobody's. */
  lemma ActiveMore(owner: map<ThreadId, ProducerId>, was: seq<bool>, now: seq<bool>, id: ThreadId, p: ProducerId)
    requires Active(owner, was) && |was| <= |now| && p < |now| && !now[p] && (p < |was| ==> was[p])
    requires forall i :: 0 <= i < |was| && i != p ==> now[i] == was[i]
    ensures Active(owner[id := p], now)
    ensures forall other :: other in owner ==> owner[other] != p
  {
  }

  lemma ActiveLess(owner: map<ThreadId, ProducerId>, inactive: seq<bool>, id: ThreadId)
    requires Active(owner, inactive) && id in owner
    ensures owner[id] < |inactive| && Active(owner - {id}, inactive[owner[id] := true])
  {
  }

  /** The thread is in one of the tables. */
  ghost predicate Somewhere(tables: seq<seq<Entry>>, id: ThreadId) {
    exists i :: 0 <= i < |tables| && id in Threads(tables[i])
  }

  /**
   The tables, newest first, are well formed, name exactly the live threads and their producers, and
   the newest has room for all that may still move there.
   */
  ghost predicate Good(tables: seq<seq<Entry>>, owner: map<ThreadId, ProducerId>, count: nat, hash: ThreadId -> nat) {
    && |tables| > 0
    && (forall i :: 0 <= i < |tables| ==> WellFormed(tables[i], hash) && Names(tables[i], owner))
    && (forall id :: id in owner ==> Somewhere(tables, id))
    && Reserved(tables[0], owner, count)
  }

  lemma GoodMove(tables: seq<seq<Entry>>, now: seq<Entry>, owner: map<ThreadId, ProducerId>, count: nat, hash: ThreadId -> nat, id: ThreadId)
    requires Good(tables, owner, count, hash) && id in owner && id !in Threads(tables[0])
    requires WellFormed(now, hash) && Names(now, owner) && |now| == |tables[0]|
    requires Threads(now) == Threads(tables[0]) + {id} && Used(now) <= Used(tables[0]) + 1
    ensures Good(tables[0 := now], owner, count, hash)
  {
    hide WellFormed, Threads, Names, Reserved, Used;
    MovedIn(tables[0], now, owner, count, id);
    forall other | other in owner ensures Somewhere(tables[0 := now], other) {
      var i :| 0 <= i < |tables| && other in Threads(tables[i]);
      assert other in Threads(tables[0 := now][i]);
    }
  }

  lemma GoodRegistration(tables: seq<seq<Entry>>, now: seq<Entry>, owner: map<ThreadId, ProducerId>, count: nat, count': nat,
                         hash: ThreadId -> nat, id: ThreadId, p: ProducerId)
    requires Good(tables, owner, count, hash) && id !in owner
    requires WellFormed(now, hash) && Names(now, owner[id := p]) && |now| == |tables[0]|
    requires Threads(now) == Threads(tables[0]) + {id}
    requires count' == count + Used(now) - Used(tables[0]) && count' < |now|
    ensures Good(tables[0 := now], owner[id := p], count', hash)
  {
    hide WellFormed, Threads, Names, Reserved, Used;
    NotNamed(tables[0], owner, id);
    Registered(tables[0], now, owner, count, id, p);
    var tables', owner' := tables[0 := now], owner[id := p];
    forall other | other in owner' ensures Somewhere(tables', other) {
      if other == id {
        assert id in Threads(tables'[0]);
      } else {
        assert Somewhere(tables, other);
        var i :| 0 <= i < |tables| && other in Threads(tables[i]);
        assert other in Threads(tables'[i]);
      }
    }
    forall i | 0 <= i < |tables| ensures Names(tables'[i], owner') {
      if i > 0 {
        NotNamed(tables[i], owner, id);
        NamesMore(tables[i], owner, id, p);
      }
    }
  }

  lemma NotNamed(es: seq<Entry>, owner: map<ThreadId, ProducerId>, id: ThreadId)
    requires Names(es, owner) && id !in owner
    ensures id !in Threads(es)
  {
  }

  lemma NamesMore(es: seq<Entry>, owner: map<ThreadId, ProducerId>, id: ThreadId, p: ProducerId)
    requires Names(es, owner) && id !in owner
    ensures Names(es, owner[id := p])
  {
  }

  lemma GoodResize(tables: seq<seq<Entry>>, now: seq<Entry>, owner: map<ThreadId, ProducerId>, count: nat, hash: ThreadId -> nat)
    requires Good(tables, owner, count, hash) && count < |now|
    requires forall s :: 0 <= s < |now| ==> now[s].key == Empty
    ensures Good([now] + tables, owner, count, hash)
  {
    hide WellFormed, Threads, Names, Reserved, Used;
    FreshTable(now, hash);
    Resized(tables[0], now, owner, count);
    forall id | id in owner ensures Somewhere([now] + tables, id) {
      var i :| 0 <= i < |tables| && id in Threads(tables[i]);
      assert id in Threads(([now] + tables)[i + 1]);
    }
  }

  /** The thread is buried in every table. */
  lemma GoodEnd(tables: seq<seq<Entry>>, now: seq<seq<Entry>>, owner: map<ThreadId, ProducerId>, count: nat, hash: ThreadId -> nat, id: ThreadId)
    requires Good(tables, owner, count, hash) && |now| == |tables|
    requires forall i :: 0 <= i < |now| ==> Buried(tables[i], now[i], hash, id)
    ensures Good(now, owner - {id}, count, hash)
  {
    hide WellFormed, Reserved, Used, Names, Threads;
    assert Buried(tables[0], now[0], hash, id);
    Ended(tables[0], now[0], owner, count, id);
    forall other | other in owner - {id} ensures Somewhere(now, other) {
      assert Somewhere(tables, other);
      var i :| 0 <= i < |tables| && other in Threads(tables[i]);
      assert Buried(tables[i], now[i], hash, id);
      assert other in Threads(now[i]);
    }
    forall i | 0 <= i < |now| ensures WellFormed(now[i], hash) && Names(now[i], owner - {id}) {
      assert Buried(tables[i], now[i], hash, id);
      BuriedNames(tables[i], now[i], hash, owner, id);
    }
  }

  lemma BuriedNames(es: seq<Entry>, now: seq<Entry>, hash: ThreadId -> nat, owner: map<ThreadId, ProducerId>, id: ThreadId)
    requires Names(es, owner) && Buried(es, now, hash, id)
    ensures Names(now, owner - {id})
  {
    forall s | 0 <= s < |now| && now[s].key.Thread?
      ensures now[s].key.id in owner - {id} && now[s].value == Some((owner - {id})[now[s].key.id])
    {
      assert now[s].key.id in Threads(now);
      assert now[s] == es[s];
    }
  }

  /** A table without a thread it may have had. */
  ghost predicate Buried(es: seq<Entry>, now: seq<Entry>, hash: ThreadId -> nat, id: ThreadId) {
    && |now| == |es| && WellFormed(now, hash) && Threads(now) == Threads(es) - {id} && Used(now) == Used(es)
    && (forall s :: 0 <= s < |now| ==> now[s] == es[s] || now[s].key == Reusable)
  }

  ghost function TablesOf(chain: seq<Table>): (tables: seq<seq<Entry>>)
    reads set t | t in chain :: t.entries
    ensures |tables| == |chain| && forall i :: 0 <= i < |chain| ==> tables[i] == chain[i].entries[..]
  {
    if chain == [] then [] else TablesOf(chain[..|chain| - 1]) + [chain[|chain| - 1].entries[..]]
  }

  /** Each table points to the one after it, and has entries of its own. */
  ghost predicate IsChain(chain: seq<Table>) {
    && (chain != [] ==> chain[|chain| - 1].prev == null)
    && (forall i, j :: 0 <= i && j == i + 1 < |chain| ==> chain[i].prev == chain[j])
    && (forall i, j :: 0 <= i < j < |chain| ==> chain[i].entries != chain[j].entries)
  }

  lemma LongerChain(t: Table, chain: seq<Table>)
    requires IsChain(chain) && t.prev == (if chain == [] then null else chain[0])
    requires forall i :: 0 <= i < |chain| ==> chain[i].entries != t.entries
    ensures IsChain([t] + chain)
  {
    var more := [t] + chain;
    forall i, j | 0 <= i && j == i + 1 < |more| ensures more[i].prev == more[j] {
      assert more[j] == chain[i];
      if i > 0 {
        assert more[i] == chain[i - 1];
      }
    }
  }

  class ProducerHash {
    const hash: ThreadId -> nat
    var main: Table
    var count: nat                         // implicitProducerHashCount
    var inactive: seq<bool>                // of the producers, in the order they were added
    ghost var chain: seq<Table>            // from the newest table on
    ghost var owner: map<ThreadId, ProducerId>

    ghost function Arrays(): set<array<Entry>>
      reads this`chain
    {
      set t | t in chain :: t.entries
    }

    ghost function Tables(): (tables: seq<seq<Entry>>)
      reads this`chain, Arrays()
      ensures |tables| == |chain| && forall i :: 0 <= i < |chain| ==> tables[i] == chain[i].entries[..]
    {
      TablesOf(chain)
    }

    /** The tables are the chain that starts at `main`. */
    ghost predicate Linked()
      reads this`main, this`chain
    {
      chain != [] && chain[0] == main && IsChain(chain)
    }

    ghost predicate Valid()
      reads this, Arrays()
    {
      Linked() && Good(Tables(), owner, count, hash) && Active(owner, inactive)
    }

    constructor (hash: ThreadId -> nat, initialSize: nat)
      requires initialSize > 0
      ensures Valid() && fresh(Arrays()) && owner == map[] && this.hash == hash
    {
      this.hash := hash;
      var t := new Table(initialSize, null);
      main := t;
      count := 0;
      inactive := [];
      chain := [t];
      owner := map[];
      new;
      FreshTable(t.entries[..], hash);
      assert Pending(t.entries[..], owner) == {};
    }

    /** recycle_or_create_producer: the first inactive producer from the tail of the list, or a new one. */
    method RecycleOrCreate(canAllocate: bool) returns (p: Option<ProducerId>)
      modifies this`inactive
      ensures p.None? ==> inactive == old(inactive) && !canAllocate && forall i :: 0 <= i < |inactive| ==> !inactive[i]
      ensures p.Some? ==>
                && p.value < |inactive| && !inactive[p.value] && |inactive| >= |old(inactive)|
                && (if p.value < |old(inactive)| then old(inactive)[p.value]
                    else p.value == |old(inactive)| && forall i :: 0 <= i < |old(inactive)| ==> !old(inactive)[i])
                && (forall i :: 0 <= i < |old(inactive)| && i != p.value ==> inactive[i] == old(inactive)[i])
    {
      var i := |inactive|;
      while i > 0
        invariant 0 <= i <= |inactive| && inactive == old(inactive)
        invariant forall j :: i <= j < |inactive| ==> !inactive[j]
      {
        i := i - 1;
        if inactive[i] {
          inactive := inactive[i := false];
          return Some(i);
        }
      }
      if !canAllocate {
        return None;
      }
      p := Some(|inactive|);
      inactive := inactive + [false];
    }

    /** The search through the tables; a thread found in an old one is moved to the newest. */
    method Lookup(id: ThreadId, hashedId: nat) returns (p: Option<ProducerId>)
      requires Valid() && hashedId == hash(id)
      modifies main.entries
      ensures Valid()
      ensures p == if id in owner then Some(owner[id]) else None
      ensures if id in owner then id in Threads(main.entries[..]) else main.entries[..] == old(main.entries[..])
    {
      hide Good, WellFormed, Threads, Names, Active, TablesOf, IsChain;
      var inMain;
      p, inMain := Search(id, hashedId);
      if p.Some? && !inMain {
        MoveToMain(id, hashedId, p.value);
      }
    }

    /** The producer of a thread, from the newest table that has it. */
    method Search(id: ThreadId, hashedId: nat) returns (p: Option<ProducerId>, inMain: bool)
      requires Valid() && hashedId == hash(id)
      ensures p == if id in owner then Some(owner[id]) else None
      ensures p.Some? ==> (inMain <==> id in Threads(main.entries[..]))
    {
      hide Good, WellFormed, Threads, Names, Active, TablesOf, IsChain;
      var table: Table? := main;
      ghost var i := 0;
      while table != null
        invariant 0 <= i <= |chain| && table == (if i < |chain| then chain[i] else null)
        invariant forall j :: 0 <= j < i ==> id !in Threads(Tables()[j])
        decreases |chain| - i
      {
        TableIsGood(Tables(), owner, count, hash, i);
        var found, slot := Find(table.entries, hash, id, hashedId);
        if found {
          Named(table.entries[..], owner, slot);
          assert table != main ==> id !in Threads(Tables()[0]);
          return table.entries[slot].value, table == main;
        }
        NextTable(i);
        table := table.prev;
        i := i + 1;
      }
      Nowhere(Tables(), owner, count, hash, id);
      return None, false;
    }

    lemma NextTable(i: nat)
      requires Linked() && i < |chain|
      ensures chain[i].prev == if i + 1 < |chain| then chain[i + 1] else null
    {
    }

    /** Add a live thread that was found in an old table to the newest one. */
    method MoveToMain(id: ThreadId, hashedId: nat, value: ProducerId)
      requires Valid() && hashedId == hash(id) && id in owner && value == owner[id] && id !in Threads(main.entries[..])
      modifies main.entries
      ensures Valid() && id in Threads(main.entries[..])
    {
      hide Good, WellFormed, Names, Active, Reserved, Threads, Used, TablesOf;
      ghost var tables, es := Tables(), main.entries[..];
      TableIsGood(tables, owner, count, hash, 0);
      HasRoom(es, owner, count, id);
      var usedUp := Put(main.entries, hash, id, hashedId, value);
      StillNames(es, main.entries[..], owner, id, value);
      GoodMove(tables, main.entries[..], owner, count, hash, id);
      assert Tables() == tables[0 := main.entries[..]];
    }

    /** get_or_add_implicit_producer. */
    method GetOrAdd(id: ThreadId, canAllocateTable: bool, canAllocateProducer: bool) returns (p: Option<ProducerId>)
      requires Valid()
      modifies this, Arrays()
      ensures Valid() && fresh(Arrays() - old(Arrays()))
      ensures id in old(owner) ==> p == Some(old(owner)[id]) && owner == old(owner)
      ensures id !in old(owner) && p.Some? ==>
                owner == old(owner)[id := p.value] && forall other :: other in old(owner) ==> old(owner)[other] != p.value
      ensures id !in old(owner) && p.Some? ==>
                if p.value < |old(inactive)| then old(inactive)[p.value]
                else forall i :: 0 <= i < |old(inactive)| ==> !old(inactive)[i]
      ensures p.None? ==> owner == old(owner) && count == old(count) && !(canAllocateTable && canAllocateProducer)
      ensures p.Some? ==> id in Threads(main.entries[..])
      ensures id in old(owner) ==> count == old(count) && main == old(main)
      ensures id !in old(owner) && p.Some? ==>
                count - Used(main.entries[..]) == old(count) - if main == old(main) then old(Used(main.entries[..])) else 0
    {
      hide Good, WellFormed, Names, Active, Reserved, Threads, Used, TablesOf, IsChain;
      var hashedId := hash(id);
      p := Lookup(id, hashedId);
      if p.None? {
        p := Add(id, hashedId, canAllocateTable, canAllocateProducer);
      }
    }

    /** A thread that is in no table gets a producer, and its place in the newest table. */
    method Add(id: ThreadId, hashedId: nat, canAllocateTable: bool, canAllocateProducer: bool) returns (p: Option<ProducerId>)
      requires Valid() && hashedId == hash(id) && id !in owner
      modifies this, main.entries
      ensures Valid() && fresh(Arrays() - old(Arrays()))
      ensures p.None? ==> owner == old(owner) && count == old(count) && !(canAllocateTable && canAllocateProducer)
      ensures p.Some? ==>
                && id in Threads(main.entries[..]) && owner == old(owner)[id := p.value]
                && (forall other :: other in old(owner) ==> old(owner)[other] != p.value)
                && (if p.value < |old(inactive)| then old(inactive)[p.value]
                    else forall i :: 0 <= i < |old(inactive)| ==> !old(inactive)[i])
                && count - Used(main.entries[..]) == old(count) - if main == old(main) then old(Used(main.entries[..])) else 0
    {
      hide Good, WellFormed, Names, Active, Reserved, Threads, Used, TablesOf, IsChain;
      count := count + 1;
      var newCount := count;
      if newCount >= main.entries.Length / 2 {
        if !canAllocateTable {
          count := count - 1;
          return None;
        }
        Resize(newCount);
      }
      if newCount < main.entries.Length / 2 + main.entries.Length / 4 {
        ghost var was := inactive;
        p := RecycleOrCreate(canAllocateProducer);
        if p.None? {
          count := count - 1;
          return;
        }
        ActiveMore(owner, was, inactive, id, p.value);
        Register(id, hashedId, p.value);
      } else {
        assert false;   // nobody else resizes, so there is no second round
      }
    }

    /** Put a table in front that is more than twice as large as the count. */
    method Resize(newCount: nat)
      requires Linked() && newCount > 0 && Good(Tables(), owner, newCount - 1, hash) && newCount >= main.entries.Length / 2
      modifies this`main, this`chain
      ensures Linked() && Good(Tables(), owner, newCount - 1, hash) && fresh(Arrays() - old(Arrays()))
      ensures newCount < main.entries.Length / 2 && main != old(main) && fresh(main.entries) && Used(main.entries[..]) == 0
    {
      hide Good, WellFormed, Names, Active, Reserved, Threads, Used, TablesOf;
      ghost var tables := Tables();
      TableIsGood(tables, owner, newCount - 1, hash, 0);
      UsedWithin(tables[0], owner, newCount - 1);
      var newCapacity := 2 * main.entries.Length;
      while newCount >= newCapacity / 2
        invariant newCapacity > 0
        decreases newCount - newCapacity / 2
      {
        newCapacity := 2 * newCapacity;
      }
      var newHash := new Table(newCapacity, main);
      LongerChain(newHash, chain);
      main := newHash;
      chain := [newHash] + chain;
      GoodResize(tables, newHash.entries[..], owner, newCount - 1, hash);
      AllUnused(newHash.entries[..]);
      assert Tables() == [newHash.entries[..]] + tables;
    }

    /** Enter a new thread with its producer into the newest table. */
    method Register(id: ThreadId, hashedId: nat, producer: ProducerId)
      requires Linked() && count > 0 && Good(Tables(), owner, count - 1, hash)
      requires hashedId == hash(id) && id !in owner && count < main.entries.Length
      modifies this`count, this`owner, main.entries
      ensures Linked() && Good(Tables(), owner, count, hash) && owner == old(owner)[id := producer]
      ensures id in Threads(main.entries[..])
      ensures count - Used(main.entries[..]) == old(count) - 1 - old(Used(main.entries[..]))
    {
      hide Good, WellFormed, Names, Reserved, Threads, Used, TablesOf;
      ghost var tables, es, room := Tables(), main.entries[..], count - 1;
      TableIsGood(tables, owner, room, hash, 0);
      NotNamed(es, owner, id);
      UsedWithin(es, owner, room);
      var usedUp := Put(main.entries, hash, id, hashedId, producer);
      if !usedUp {
        count := count - 1;   // the tombstone was counted already
      }
      NamesMore(es, owner, id, producer);
      StillNames(es, main.entries[..], owner[id := producer], id, producer);
      GoodRegistration(tables, main.entries[..], owner, room, count, hash, id, producer);
      owner := owner[id := producer];
      assert Tables() == tables[0 := main.entries[..]];
    }

    /** implicit_producer_thread_exited: tombstones in all tables, and the producer can be used again. */
    method ThreadExited(id: ThreadId, producer: ProducerId)
      requires Valid() && id in owner && producer == owner[id]
      modifies this`inactive, this`owner, Arrays()
      ensures Valid() && owner == old(owner) - {id} && inactive == old(inactive)[producer := true]
    {
      hide Good, WellFormed, Names, Reserved, Threads, Used, TablesOf, Buried, Active;
      ghost var tables := Tables();
      AllWellFormed(tables, owner, count, hash);
      ActiveLess(owner, inactive, id);
      BuryEverywhere(id, hash(id), tables);
      GoodEnd(tables, Tables(), owner, count, hash, id);
      inactive := inactive[producer := true];
      owner := owner - {id};
    }

    method BuryEverywhere(id: ThreadId, hashedId: nat, ghost tables: seq<seq<Entry>>)
      requires Linked() && hashedId == hash(id) && tables == Tables()
      requires forall i :: 0 <= i < |tables| ==> WellFormed(tables[i], hash)
      modifies Arrays()
      ensures forall i :: 0 <= i < |tables| ==> Buried(tables[i], Tables()[i], hash, id)
    {
      hide WellFormed, Threads, Used, TablesOf, Buried;
      var table: Table? := main;
      ghost var now, i := tables, 0;
      while table != null
        invariant 0 <= i <= |chain| && table == (if i < |chain| then chain[i] else null) && now == Tables()
        invariant forall j :: 0 <= j < i ==> Buried(tables[j], now[j], hash, id)
        invariant forall j :: i <= j < |chain| ==> now[j] == tables[j]
        decreases |chain| - i
      {
        BuryIn(table.entries, id, hashedId, tables[i]);
        assert Tables() == now[i := table.entries[..]];
        now := Tables();
        NextTable(i);
        table := table.prev;
        i := i + 1;
      }
    }

    method BuryIn(entries: array<Entry>, id: ThreadId, hashedId: nat, ghost es: seq<Entry>)
      requires WellFormed(es, hash) && entries[..] == es && hashedId == hash(id)
      modifies entries
      ensures Buried(es, entries[..], hash, id)
    {
      Bury(entries, hash, id, hashedId);
    }
  }

  lemma UsedWithin(es: seq<Entry>, owner: map<ThreadId, ProducerId>, count: nat)
    requires Reserved(es, owner, count)
    ensures Used(es) <= count < |es|
  {
  }

  lemma TableIsGood(tables: seq<seq<Entry>>, owner: map<ThreadId, ProducerId>, count: nat, hash: ThreadId -> nat, i: nat)
    requires Good(tables, owner, count, hash) && i < |tables|
    ensures WellFormed(tables[i], hash) && Names(tables[i], owner) && Reserved(tables[0], owner, count)
  {
  }

  lemma AllWellFormed(tables: seq<seq<Entry>>, owner: map<ThreadId, ProducerId>, count: nat, hash: ThreadId -> nat)
    requires Good(tables, owner, count, hash)
    ensures forall i :: 0 <= i < |tables| ==> WellFormed(tables[i], hash)
  {
  }

  lemma Named(es: seq<Entry>, owner: map<ThreadId, ProducerId>, s: nat)
    requires Names(es, owner) && s < |es| && es[s].key.Thread?
    ensures es[s].key.id in owner && es[s].value == Some(owner[es[s].key.id])
  {
  }

  lemma Nowhere(tables: seq<seq<Entry>>, owner: map<ThreadId, ProducerId>, count: nat, hash: ThreadId -> nat, id: ThreadId)
    requires Good(tables, owner, count, hash) && forall i :: 0 <= i < |tables| ==> id !in Threads(tables[i])
    ensures id !in owner
  {
    assert !Somewhere(tables, id);
  }

  lemma HasRoom(es: seq<Entry>, owner: map<ThreadId, ProducerId>, count: nat, id: ThreadId)
    requires Reserved(es, owner, count) && id in owner && id !in Threads(es)
    ensures Used(es) + 1 < |es|
  {
    assert id in Pending(es, owner);
  }

  lemma StillNames(es: seq<Entry>, now: seq<Entry>, owner: map<ThreadId, ProducerId>, id: ThreadId, value: ProducerId)
    requires Names(es, owner) && id in owner && value == owner[id] && |now| == |es|
    requires forall s :: 0 <= s < |now| ==> now[s] == es[s] || now[s] == Entry(Thread(id), Some(value))
    ensures Names(now, owner)
  {
    forall s | 0 <= s < |now| && now[s].key.Thread?
      ensures now[s].key.id in owner && now[s].value == Some(owner[now[s].key.id])
    {
      assert now[s] == es[s] || now[s] == Entry(Thread(id), Some(value));
    }
  }
}
