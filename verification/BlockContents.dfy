/**
 How the elements of one implicit producer lie in its blocks, on values: `log` is everything ever
 enqueued, of which `log[head..]` is still inside; `live` maps block numbers to blocks.
 */
module BlockContents {
  import opened BlockPool
  import opened Blocks
  import opened Numbers
  import opened Options

  /** What the cell of index `i` contains. */
  function CellOf(i: int, head: nat, log: seq<Element>): Option<Element> {
    if head <= i < |log| then Some(log[i]) else None
  }

  /** Block `k` has its elements in it, and has counted those that are gone. */
  ghost predicate Filled(b: Block, k: int, head: nat, log: seq<Element>) {
    && |b.cells| == BLOCK_SIZE
    && b.completed == Max(0, head - Base(k))
    && (forall c :: 0 <= c < BLOCK_SIZE ==> b.cells[c] == CellOf(Base(k) + c, head, log))
  }

  /** Exactly the blocks from the one at `head` up to `top` are in use, by one block each. */
  ghost predicate Holds(blocks: seq<Block>, live: map<int, BlockId>, head: nat, top: int, log: seq<Element>) {
    && head <= |log| <= Base(top)
    && (forall k :: k in live <==> BlockOf(head) <= k < top)
    && (forall k :: k in live ==> live[k] < |blocks| && Filled(blocks[live[k]], k, head, log))
    && (forall j, k :: j in live && k in live && j != k ==> live[j] != live[k])
  }

  /** A block with the same elements and the same count. */
  ghost predicate SameFill(a: Block, b: Block) {
    a.cells == b.cells && a.completed == b.completed
  }

  /** The block at the end of a log is in use unless the log ends at a block boundary. */
  lemma TailIsLive(blocks: seq<Block>, live: map<int, BlockId>, head: nat, top: int, log: seq<Element>)
    requires Holds(blocks, live, head, top, log) && |log| < Base(top)
    ensures BlockOf(|log|) in live && BlockOf(|log|) < top
  {
    InOrder(head, |log|);
    Locate(|log|);
    if BlockOf(|log|) >= top {
      if BlockOf(|log|) > top {
        BaseMonotone(top, BlockOf(|log|));
      }
    }
  }

  lemma InOrder(i: int, j: int)
    requires i <= j
    ensures BlockOf(i) <= BlockOf(j)
  {
    Locate(i);
    Locate(j);
    if BlockOf(j) < BlockOf(i) {
      BaseMonotone(BlockOf(j), BlockOf(i));
    }
  }

  /** What other blocks contain, and where blocks point, is of no concern. */
  lemma Untouched(blocks: seq<Block>, now: seq<Block>, live: map<int, BlockId>, head: nat, top: int, log: seq<Element>)
    requires Holds(blocks, live, head, top, log) && |blocks| <= |now|
    requires forall k :: k in live ==> SameFill(blocks[live[k]], now[live[k]])
    ensures Holds(now, live, head, top, log)
  {
    forall k | k in live ensures live[k] < |now| && Filled(now[live[k]], k, head, log) {
      assert Filled(blocks[live[k]], k, head, log);
      assert SameFill(blocks[live[k]], now[live[k]]);
    }
  }

  /** A blank block becomes the one at `top`. */
  lemma Extend(blocks: seq<Block>, now: seq<Block>, live: map<int, BlockId>, id: BlockId, head: nat, top: int, log: seq<Element>)
    requires Holds(blocks, live, head, top, log) && |blocks| <= |now|
    requires forall k :: k in live ==> live[k] != id && SameFill(blocks[live[k]], now[live[k]])
    requires id < |now| && Blank(now[id]) && now[id].completed == 0
    ensures Holds(now, live[top := id], head, top + 1, log)
  {
    BaseStep(top);
    InOrder(head, |log|);
    if |log| > 0 {
      Locate(|log| - 1);
    }
    TopIsNext(head, top, |log|);
    Untouched(blocks, now, live, head, top, log);
    assert Filled(now[id], top, head, log);
    var live' := live[top := id];
    assert forall k :: k in live' <==> BlockOf(head) <= k < top + 1;
    forall k | k in live' ensures live'[k] < |now| && Filled(now[live'[k]], k, head, log) {
      if k != top {
        assert k in live;
      }
    }
    forall j, k | j in live' && k in live' && j != k ensures live'[j] != live'[k] {
      if j != top {
        assert j in live;
      }
      if k != top {
        assert k in live;
      }
    }
  }

  lemma TopIsNext(head: nat, top: int, tail: int)
    requires head <= tail <= Base(top)
    ensures BlockOf(head) <= top
  {
    Locate(head);
    if top < BlockOf(head) {
      BaseMonotone(top, BlockOf(head));
    }
  }

  /** Elements constructed in the block at the end of the log extend the log. */
  lemma Append(blocks: seq<Block>, live: map<int, BlockId>, head: nat, top: int, log: seq<Element>, xs: seq<Element>)
    requires Holds(blocks, live, head, top, log) && |log| + |xs| <= Base(top)
    requires Cell(|log|) + |xs| <= BLOCK_SIZE && BlockOf(|log|) in live
    ensures |blocks[live[BlockOf(|log|)]].cells| == BLOCK_SIZE
    ensures forall c :: Cell(|log|) <= c < BLOCK_SIZE ==> blocks[live[BlockOf(|log|)]].cells[c] == None
    ensures var b := live[BlockOf(|log|)];
      Holds(blocks[b := blocks[b].(cells := Put(blocks[b].cells, Cell(|log|), xs))], live, head, top, log + xs)
  {
    var t := BlockOf(|log|);
    var b := live[t];
    Locate(|log|);
    assert Filled(blocks[b], t, head, log);
    var now := blocks[b := blocks[b].(cells := Put(blocks[b].cells, Cell(|log|), xs))];
    forall k | k in live ensures live[k] < |now| && Filled(now[live[k]], k, head, log + xs) {
      if k != t {
        OtherBlock(k, t, |log|, |log| + |xs|);
        StaysFilled(blocks[live[k]], k, head, log, xs);
      } else {
        FillsUp(blocks[b], t, head, log, xs);
      }
    }
  }

  lemma StaysFilled(b: Block, k: int, head: nat, log: seq<Element>, xs: seq<Element>)
    requires Filled(b, k, head, log)
    requires Base(k) + BLOCK_SIZE <= |log| || |log| + |xs| <= Base(k)
    ensures Filled(b, k, head, log + xs)
  {
    forall c | 0 <= c < BLOCK_SIZE ensures b.cells[c] == CellOf(Base(k) + c, head, log + xs) {
      assert b.cells[c] == CellOf(Base(k) + c, head, log);
    }
  }

  lemma FillsUp(b: Block, k: int, head: nat, log: seq<Element>, xs: seq<Element>)
    requires Filled(b, k, head, log) && Base(k) <= |log| && |log| - Base(k) + |xs| <= BLOCK_SIZE && head <= |log|
    ensures Filled(b.(cells := Put(b.cells, |log| - Base(k), xs)), k, head, log + xs)
  {
    var cells := Put(b.cells, |log| - Base(k), xs);
    forall c | 0 <= c < BLOCK_SIZE ensures cells[c] == CellOf(Base(k) + c, head, log + xs) {
      assert b.cells[c] == CellOf(Base(k) + c, head, log);
    }
  }

  /** A range within block `t` does not reach into another block. */
  lemma OtherBlock(k: int, t: int, lo: int, hi: int)
    requires k != t && Base(t) <= lo && hi <= Base(t) + BLOCK_SIZE
    ensures Base(k) + BLOCK_SIZE <= lo || hi <= Base(k)
  {
    if k < t {
      BaseMonotone(k, t);
    } else {
      BaseMonotone(t, k);
    }
  }

  /** The cells of the `n` elements from `head` on, when they are in one block. */
  lemma Front(blocks: seq<Block>, live: map<int, BlockId>, head: nat, top: int, log: seq<Element>, n: nat)
    requires Holds(blocks, live, head, top, log)
    requires head < |log| && head + n <= |log| && Cell(head) + n <= BLOCK_SIZE
    ensures BlockOf(head) in live
    ensures var b := live[BlockOf(head)];
      && |blocks[b].cells| == BLOCK_SIZE && blocks[b].completed == Cell(head)
      && (forall c :: Cell(head) <= c < Cell(head) + n ==> blocks[b].cells[c] == Some(log[head + c - Cell(head)]))
  {
    Locate(head);
    TopIsNext(head, top, |log|);
    assert BlockOf(head) < top;
    var b := live[BlockOf(head)];
    assert Filled(blocks[b], BlockOf(head), head, log);
    forall c | Cell(head) <= c < Cell(head) + n ensures blocks[b].cells[c] == Some(log[head + c - Cell(head)]) {
      assert blocks[b].cells[c] == CellOf(Base(BlockOf(head)) + c, head, log);
    }
  }

  /** What is moved out of those cells is the front of the log. */
  lemma FrontMoved(cells: seq<Option<Element>>, c: nat, head: nat, log: seq<Element>, xs: seq<Element>)
    requires c + |xs| <= |cells| && head + |xs| <= |log|
    requires forall i :: c <= i < c + |xs| ==> cells[i] == Some(log[head + i - c]) && cells[i] == Some(xs[i - c])
    ensures xs == log[head..head + |xs|]
  {
    forall i | 0 <= i < |xs| ensures xs[i] == log[head + i] {
      assert cells[c + i] == Some(xs[i]);
    }
  }

  lemma Slices(log: seq<Element>, i: nat, j: nat, k: nat)
    requires i <= j <= k <= |log|
    ensures log[i..j] + log[j..k] == log[i..k]
  {
  }

  lemma LogGrows(log: seq<Element>, items: seq<Element>, n: nat, m: nat)
    requires n <= m <= |items|
    ensures log + items[..0] == log && log + items[..|items|] == log + items
    ensures (log + items[..n]) + items[n..m] == log + items[..m]
  {
    assert items[..n] + items[n..m] == items[..m];
  }

  /** Moving the `n` elements at `head` out of their block and counting them moves the head. */
  lemma Drain(blocks: seq<Block>, now: seq<Block>, live: map<int, BlockId>, head: nat, top: int, log: seq<Element>, n: nat)
    requires Holds(blocks, live, head, top, log)
    requires head < |log| && head + n <= |log| && Cell(head) + n <= BLOCK_SIZE
    requires BlockOf(head) in live && var b := live[BlockOf(head)];
      && |now| == |blocks| && |blocks[b].cells| == BLOCK_SIZE
      && SameFill(now[b], blocks[b].(cells := Wipe(blocks[b].cells, Cell(head), n), completed := blocks[b].completed + n))
      && (forall k :: k in live && k != BlockOf(head) ==> SameFill(now[live[k]], blocks[live[k]]))
    ensures var b := live[BlockOf(head)];
      && (now[b].completed == BLOCK_SIZE <==> Cell(head) + n == BLOCK_SIZE)
      && (Cell(head) + n == BLOCK_SIZE ==> Blank(now[b]) && Holds(now, live - {BlockOf(head)}, head + n, top, log))
      && (Cell(head) + n < BLOCK_SIZE ==> Holds(now, live, head + n, top, log))
  {
    var t := BlockOf(head);
    var b := live[t];
    Locate(head);
    assert Filled(blocks[b], t, head, log);
    assert Filled(now[b], t, head + n, log);
    forall k | k in live && k != t ensures Filled(now[live[k]], k, head + n, log) {
      assert Filled(blocks[live[k]], k, head, log) && SameFill(now[live[k]], blocks[live[k]]);
      OtherBlock(k, t, head, head + n);
      BaseMonotone(t, k);
    }
    BaseStep(t);
    InBlock(head + n, if Cell(head) + n == BLOCK_SIZE then t + 1 else t);
    if Cell(head) + n == BLOCK_SIZE {
      assert now[b].cells == NoElements();
    }
  }

  /** What a producer and its pool look like; `top` is the number of the next block. */
  datatype View = View(blocks: seq<Block>, held: set<BlockId>, live: map<int, BlockId>, top: int)

  /** The blocks in use hold the log from `head` on, and are handed out by the pool. */
  ghost predicate Fits(v: View, head: nat, log: seq<Element>) {
    && Holds(v.blocks, v.live, head, v.top, log)
    && (forall k :: k in v.live ==> v.live[k] in v.held)
  }

  ghost predicate Uses(live: map<int, BlockId>, b: BlockId) {
    exists k :: k in live && live[k] == b
  }

  /** Handed-out blocks that are not this producer's are left alone. */
  ghost predicate KeepsOthers(was: View, now: View) {
    && |was.blocks| <= |now.blocks|
    && (forall b :: b in was.held && !Uses(was.live, b) ==>
          b in now.held && !Uses(now.live, b) && b < |was.blocks| && now.blocks[b] == was.blocks[b])
    && (forall b :: b in now.held && !Uses(now.live, b) ==> b in was.held && !Uses(was.live, b))
  }

  /** The same blocks are in use, at the same block numbers, and handed out, and all contain the same. */
  ghost predicate Restored(was: View, now: View) {
    && now == was.(blocks := now.blocks) && |was.blocks| <= |now.blocks|
    && (forall b :: b in was.held ==> b < |was.blocks| && SameFill(was.blocks[b], now.blocks[b]))
    && (forall b :: b in was.held && !Uses(was.live, b) ==> now.blocks[b] == was.blocks[b])
  }

  lemma KeepsOthersTwice(was: View, mid: View, now: View)
    requires KeepsOthers(was, mid) && KeepsOthers(mid, now)
    ensures KeepsOthers(was, now)
  {
  }

  /** Changing what is in one of its own blocks leaves the others alone. */
  lemma OwnBlockOnly(was: View, now: View, id: BlockId)
    requires Uses(was.live, id) && now == was.(blocks := now.blocks) && |now.blocks| == |was.blocks|
    requires forall b :: 0 <= b < |was.blocks| && b != id ==> now.blocks[b] == was.blocks[b]
    requires forall b :: b in was.held ==> b < |was.blocks|
    ensures KeepsOthers(was, now)
  {
  }

  /** The blank blocks `got`, none of them handed out before, were added at the top. */
  ghost predicate Extended(was: View, now: View, got: seq<BlockId>) {
    && now.top == was.top + |got| && |was.blocks| <= |now.blocks|
    && (forall i :: 0 <= i < |got| ==>
          && got[i] !in was.held && got[i] < |now.blocks| && Blank(now.blocks[got[i]])
          && was.top + i in now.live && now.live[was.top + i] == got[i])
    && (forall i, j :: 0 <= i < j < |got| ==> got[i] != got[j])
    && (forall k :: k in now.live <==> k in was.live || was.top <= k < now.top)
    && (forall k :: k in was.live ==> k < was.top && now.live[k] == was.live[k])
    && (forall b :: b in now.held <==> b in was.held || b in got)
    && (forall b :: b in was.held ==>
          b < |was.blocks| && SameFill(was.blocks[b], now.blocks[b])
          && (!Uses(was.live, b) ==> now.blocks[b] == was.blocks[b]))
  }

  /** The blocks `got` are chained from `first` to `last`, after the block `start` if there is one. */
  ghost predicate Chained(blocks: seq<Block>, start: Option<BlockId>, got: seq<BlockId>, first: Option<BlockId>, last: Option<BlockId>) {
    && ChainOf(blocks, first, got)
    && (got != [] ==> last == Some(got[|got| - 1]))
    && (start.Some? && got != [] ==> start.value < |blocks| && blocks[start.value].next == first)
  }

  lemma ChainedMore(was: seq<Block>, now: seq<Block>, start: Option<BlockId>, got: seq<BlockId>,
                    first: Option<BlockId>, last: Option<BlockId>, id: BlockId)
    requires Chained(was, start, got, first, last) && |was| <= |now|
    requires id < |now| && now[id].next == None && (start.Some? ==> start.value < |was|)
    requires forall i :: 0 <= i < |got| - 1 ==> now[got[i]].next == was[got[i]].next
    requires got != [] ==> now[got[|got| - 1]].next == Some(id)
    requires start.Some? ==> now[start.value].next == if got == [] then Some(id) else was[start.value].next
    ensures Chained(now, start, got + [id], if got == [] then Some(id) else first, Some(id))
  {
    var more := got + [id];
    forall i | 0 <= i < |more|
      ensures more[i] < |now| && now[more[i]].next == if i + 1 < |more| then Some(more[i + 1]) else None
    {
      if i < |got| {
        assert more[i] == got[i];
      }
    }
  }

  /** The blocks from number `from` on are linked in order. */
  ghost predicate Linked(v: View, from: int) {
    && (forall k :: from <= k < v.top ==> k in v.live && v.live[k] < |v.blocks|)
    && (forall k :: from <= k < v.top - 1 ==> v.blocks[v.live[k]].next == Some(v.live[k + 1]))
  }

  lemma ChainIsLinked(was: View, now: View, start: Option<BlockId>, got: seq<BlockId>, first: Option<BlockId>, last: Option<BlockId>, from: int)
    requires Extended(was, now, got) && Chained(now.blocks, start, got, first, last)
    requires from == was.top || (from == was.top - 1 && from in was.live && start == Some(was.live[from]) && was.live[from] < |was.blocks|)
    ensures Linked(now, from)
  {
    forall k | from <= k < now.top ensures k in now.live && now.live[k] < |now.blocks| {
      if k >= was.top {
        assert now.live[k] == got[k - was.top];
      }
    }
    forall k | from <= k < now.top - 1 ensures now.blocks[now.live[k]].next == Some(now.live[k + 1]) {
      assert now.live[k + 1] == got[k + 1 - was.top];
      if k >= was.top {
        assert now.live[k] == got[k - was.top];
      }
    }
  }

  /** One more block is put at the top. */
  ghost predicate AddsBlock(was: View, now: View, id: BlockId) {
    && id !in was.held && id < |now.blocks| && Blank(now.blocks[id]) && now.blocks[id].completed == 0
    && now.held == was.held + {id} && now.live == was.live[was.top := id] && now.top == was.top + 1
    && |was.blocks| <= |now.blocks|
    && (forall b :: b in was.held ==> b < |was.blocks| && now.blocks[b] == was.blocks[b])
  }

  lemma AddedBlockFits(was: View, now: View, id: BlockId, head: nat, log: seq<Element>)
    requires Fits(was, head, log) && AddsBlock(was, now, id)
    ensures Fits(now, head, log)
  {
    Extend(was.blocks, now.blocks, was.live, id, head, was.top, log);
  }

  lemma AddedBlockKeepsOthers(was: View, now: View, id: BlockId, head: nat, log: seq<Element>)
    requires Fits(was, head, log) && AddsBlock(was, now, id)
    ensures KeepsOthers(was, now)
  {
    assert now.live[was.top] == id;
    assert was.top !in was.live;
    assert forall k :: k in was.live ==> k in now.live && now.live[k] == was.live[k];
  }

  lemma ExtendedMore(was: View, mid: View, now: View, got: seq<BlockId>, id: BlockId)
    requires Extended(was, mid, got) && AddsBlock(mid, now, id)
    requires forall k :: k in was.live ==> was.live[k] in was.held
    ensures Extended(was, now, got + [id])
  {
    var more := got + [id];
    assert mid.top !in mid.live;
    forall i | 0 <= i < |more|
      ensures more[i] !in was.held && more[i] < |now.blocks| && Blank(now.blocks[more[i]])
      ensures was.top + i in now.live && now.live[was.top + i] == more[i]
    {
      if i < |got| {
        assert got[i] in mid.held && more[i] == got[i];
        assert was.top + i != mid.top;
      }
    }
    forall b ensures b in now.held <==> b in was.held || b in more {
    }
  }

  /** Where blocks in use point is of no concern. */
  ghost predicate Relinks(was: View, now: View, id: BlockId) {
    && id < |was.blocks| == |now.blocks| && SameFill(was.blocks[id], now.blocks[id])
    && (forall b :: 0 <= b < |was.blocks| && b != id ==> now.blocks[b] == was.blocks[b])
    && now.held == was.held && now.live == was.live && now.top == was.top
  }

  lemma RelinkedFits(was: View, now: View, id: BlockId, head: nat, log: seq<Element>)
    requires Relinks(was, now, id) && Fits(was, head, log)
    ensures Fits(now, head, log)
  {
    Untouched(was.blocks, now.blocks, was.live, head, was.top, log);
  }

  lemma RelinkedExtended(was: View, mid: View, now: View, got: seq<BlockId>, id: BlockId)
    requires Relinks(mid, now, id) && Extended(was, mid, got) && (Uses(was.live, id) || id in got)
    ensures Extended(was, now, got)
  {
    forall b | b in was.held
      ensures b < |was.blocks| && SameFill(was.blocks[b], now.blocks[b])
      ensures !Uses(was.live, b) ==> now.blocks[b] == was.blocks[b]
    {
      assert SameFill(was.blocks[b], mid.blocks[b]);
    }
  }

  /** A reservation that keeps its blocks leaves the others alone. */
  lemma ExtendedKeepsOthers(was: View, now: View, got: seq<BlockId>)
    requires Extended(was, now, got) && forall k :: k in was.live ==> was.live[k] in was.held
    ensures KeepsOthers(was, now)
  {
    forall k | k in now.live ensures Uses(was.live, now.live[k]) || now.live[k] in got {
      if k !in was.live {
        assert now.live[k] == got[k - was.top];
      }
    }
    forall k | k in was.live ensures now.live[k] == was.live[k] {
    }
    forall i | 0 <= i < |got| ensures Uses(now.live, got[i]) {
      assert now.live[was.top + i] == got[i];
    }
  }

  /** Giving back the block `k` leaves the others alone. */
  lemma GivenBack(was: View, now: View, k: int)
    requires k in was.live && now.live == was.live - {k} && now.held == was.held - {was.live[k]}
    requires |now.blocks| == |was.blocks| && forall b :: 0 <= b < |was.blocks| && b != was.live[k] ==> now.blocks[b] == was.blocks[b]
    requires forall b :: b in was.held ==> b < |was.blocks|
    requires forall j :: j in was.live && j != k ==> was.live[j] != was.live[k]
    ensures KeepsOthers(was, now)
  {
    forall b | b in now.held && !Uses(now.live, b) ensures !Uses(was.live, b) {
      forall j | j in was.live ensures was.live[j] != b {
        if j != k {
          assert now.live[j] == was.live[j];
        }
      }
    }
  }

  /** A bulk reservation: what there was, the block it continues, the blocks it got, the first of them. */
  datatype Reservation = Reservation(was: View, start: Option<BlockId>, got: seq<BlockId>, first: Option<BlockId>) {
    function More(id: BlockId): Reservation {
      this.(got := got + [id], first := if got == [] then Some(id) else first)
    }
  }

  /** The reservation so far fits what is there. */
  ghost predicate InProgress(r: Reservation, v: View, last: Option<BlockId>) {
    && Extended(r.was, v, r.got) && Chained(v.blocks, r.start, r.got, r.first, last) && Founded(r, last)
  }

  /** The block added last is not yet part of the chain. */
  ghost predicate Adding(r: Reservation, v: View, last: Option<BlockId>, id: BlockId) {
    && Extended(r.was, v, r.got + [id]) && Chained(v.blocks, r.start, r.got, r.first, last) && Founded(r, last)
  }

  ghost predicate Founded(r: Reservation, last: Option<BlockId>) {
    && (forall k :: k in r.was.live ==> r.was.live[k] in r.was.held)
    && (r.start.Some? ==> Uses(r.was.live, r.start.value))
    && (r.start.Some? && r.got == [] ==> last == r.start)
  }

  lemma ChainUntouched(v: View, now: View, start: Option<BlockId>, got: seq<BlockId>, first: Option<BlockId>, last: Option<BlockId>)
    requires Chained(v.blocks, start, got, first, last) && |v.blocks| <= |now.blocks|
    requires forall b :: b in v.held ==> b < |v.blocks| && now.blocks[b] == v.blocks[b]
    requires forall i :: 0 <= i < |got| ==> got[i] in v.held
    requires start.Some? ==> start.value in v.held
    ensures Chained(now.blocks, start, got, first, last)
  {
  }

  /** A reservation does not notice new blocks that nobody got. */
  lemma StillInProgress(r: Reservation, v: View, now: View, last: Option<BlockId>)
    requires InProgress(r, v, last) && now == v.(blocks := now.blocks) && v.blocks <= now.blocks
    ensures InProgress(r, now, last)
  {
    forall b | b in v.held ensures b < |v.blocks| && now.blocks[b] == v.blocks[b] {
    }
    forall i | 0 <= i < |r.got| ensures r.got[i] in v.held {
    }
    ChainUntouched(v, now, r.start, r.got, r.first, last);
  }

  lemma AddsToReservation(r: Reservation, v: View, now: View, last: Option<BlockId>, id: BlockId)
    requires InProgress(r, v, last) && AddsBlock(v, now, id)
    ensures Adding(r, now, last, id)
  {
    ExtendedMore(r.was, v, now, r.got, id);
    ChainUntouched(v, now, r.start, r.got, r.first, last);
  }

  lemma MembersOfReservation(r: Reservation, v: View, last: Option<BlockId>, id: BlockId)
    requires Adding(r, v, last, id)
    ensures id in r.got + [id]
    ensures r.got != [] ==> last.Some? && last.value in r.got + [id]
    ensures r.got == [] && r.start.Some? ==> last.Some? && Uses(r.was.live, last.value)
  {
    assert (r.got + [id])[|r.got|] == id;
    if r.got != [] {
      assert (r.got + [id])[|r.got| - 1] == last.value;
    }
  }

  /** Once the new block ends the chain and what was last points to it, the reservation has one more block. */
  lemma NowInProgress(r: Reservation, was: seq<Block>, now: View, last: Option<BlockId>, id: BlockId)
    requires Extended(r.was, now, r.got + [id]) && Chained(was, r.start, r.got, r.first, last) && Founded(r, last)
    requires id < |was|
    requires var ended := was[id := was[id].(next := None)];
      if r.start.Some? || r.got != [] then
        && last.Some? && last.value < |was|
        && now.blocks == ended[last.value := ended[last.value].(next := Some(id))]
      else
        now.blocks == ended
    ensures InProgress(r.More(id), now, Some(id))
  {
    var got := r.got + [id];
    forall i | 0 <= i < |r.got| ensures r.got[i] == got[i] != id {
      assert got[|r.got|] == id;
    }
    assert got[|r.got|] == id && id !in r.was.held;
    ChainedMore(was, now.blocks, r.start, r.got, r.first, last, id);
  }

  /** `now` is `was` and the block numbers from `lo` to `hi`, which lie above. */
  ghost predicate Plus(now: map<int, BlockId>, was: map<int, BlockId>, lo: int, hi: int) {
    && (forall k :: k in now <==> k in was || lo <= k < hi)
    && (forall k :: k in was ==> k < lo && now[k] == was[k])
  }

  lemma PlusLess(now: map<int, BlockId>, was: map<int, BlockId>, lo: int, hi: int)
    requires Plus(now, was, lo, hi) && lo < hi
    ensures lo in now && Plus(now - {lo}, was, lo + 1, hi)
  {
  }

  lemma PlusNone(now: map<int, BlockId>, was: map<int, BlockId>, lo: int)
    requires Plus(now, was, lo, lo)
    ensures now == was
  {
    forall k | k in now ensures k in was && now[k] == was[k] {
    }
    forall k | k in was ensures k in now {
    }
  }

  /** The blocks of a reservation, as a walk along the `next` pointers sees them. */
  lemma ReservationChain(r: Reservation, v: View, last: Option<BlockId>)
    requires InProgress(r, v, last)
    ensures ChainOf(v.blocks, r.first, r.got) && v.top == r.was.top + |r.got|
    ensures forall i :: 0 <= i < |r.got| ==> r.got[i] in v.held && Blank(v.blocks[r.got[i]])
    ensures forall i, j :: 0 <= i < j < |r.got| ==> r.got[i] != r.got[j]
    ensures Plus(v.live, r.was.live, r.was.top, v.top)
  {
  }

  /** Without its blocks a reservation leaves everything as it was. */
  lemma UndoneIsRestored(r: Reservation, v: View, now: View, last: Option<BlockId>, head: nat, log: seq<Element>)
    requires InProgress(r, v, last) && Fits(r.was, head, log)
    requires now.blocks == v.blocks && now.live == r.was.live && now.top == r.was.top
    requires forall b :: b in now.held <==> b in v.held && b !in r.got
    ensures Restored(r.was, now) && Fits(now, head, log)
  {
    assert now.held == r.was.held;
    Untouched(r.was.blocks, now.blocks, r.was.live, head, r.was.top, log);
  }

  ghost predicate SameLinks(was: seq<Block>, now: seq<Block>) {
    |was| == |now| && forall b :: 0 <= b < |was| ==> now[b].next == was[b].next
  }

  /** The end of the block that holds `index`, or `stop` if that comes first. */
  function EndOfRun(index: nat, stop: nat): (end: nat)
    requires index <= stop
    ensures index <= end <= stop && Cell(index) + (end - index) <= BLOCK_SIZE
    ensures end < stop ==> index < end && BlockOf(end) == BlockOf(index) + 1
  {
    Locate(index);
    BaseStep(BlockOf(index));
    InBlock(Base(BlockOf(index) + 1), BlockOf(index) + 1);
    Min(stop, Base(BlockOf(index)) + BLOCK_SIZE)
  }

  /** The run that ends at `stop` is the one in the last block below it. */
  lemma LastRun(index: nat, stop: nat)
    requires index < stop
    ensures EndOfRun(index, stop) == stop <==> BlockOf(index) == BlocksBelow(stop) - 1
    ensures BlockOf(index) <= BlocksBelow(stop) - 1 && stop <= Base(BlocksBelow(stop))
    ensures index < EndOfRun(index, stop)
  {
    Locate(index);
    Locate(stop - 1);
    InOrder(index, stop - 1);
    BlocksBelowBounds(stop);
    if BlockOf(index) < BlockOf(stop - 1) {
      BaseMonotone(BlockOf(index), BlockOf(stop - 1));
    }
  }

  lemma NothingChanged(v: View)
    requires forall b :: b in v.held ==> b < |v.blocks|
    ensures KeepsOthers(v, v)
  {
  }

  /** Links do not change when elements are constructed; the block after `k` is linked behind it. */
  lemma NextInLine(v: View, now: View, head: nat, log: seq<Element>, k: int)
    requires Linked(v, k) && SameLinks(v.blocks, now.blocks) && now.live == v.live && now.top == v.top
    requires Holds(v.blocks, v.live, head, v.top, log) && k < v.top
    ensures v.top - 1 in v.live && k in v.live && (v.live[k] == v.live[v.top - 1] <==> k == v.top - 1)
    ensures v.live[k] < |now.blocks|
    ensures k < v.top - 1 ==>
              && k + 1 in v.live && now.blocks[v.live[k]].next == Some(v.live[k + 1]) && Linked(now, k + 1)
  {
  }

  /** Exactly the blocks `got`, `n` of them, were newly taken. */
  ghost predicate TookBlocks(was: set<BlockId>, now: set<BlockId>, n: int, got: seq<BlockId>) {
    && |got| == n
    && (forall i :: 0 <= i < |got| ==> got[i] !in was)
    && (forall i, j :: 0 <= i < j < |got| ==> got[i] != got[j])
    && (forall b :: b in now <==> b in was || b in got)
  }

  lemma ReservationTook(r: Reservation, v: View, last: Option<BlockId>)
    requires InProgress(r, v, last)
    ensures TookBlocks(r.was.held, v.held, v.top - r.was.top, r.got) && KeepsOthers(r.was, v)
  {
    ExtendedKeepsOthers(r.was, v, r.got);
  }

  /** The blocks from the tail on, given what was reserved for `n` more items. */
  ghost predicate Reserved(r: Reservation, v: View, tail: nat, n: nat, startBlock: Option<BlockId>, endBlock: Option<BlockId>) {
    && InProgress(r, v, endBlock) && r.was.top == BlocksBelow(tail) && v.top == BlocksBelow(tail + n)
    && r.start == (if Cell(tail) != 0 then startBlock else None)
    && (Cell(tail) != 0 ==> BlockOf(tail) in r.was.live && startBlock == Some(r.was.live[BlockOf(tail)]))
    && (forall k :: k in r.was.live ==> r.was.live[k] < |r.was.blocks|)
    && (r.got == [] ==> endBlock == startBlock)
  }

  lemma ReservedMembers(r: Reservation, v: View, last: Option<BlockId>)
    requires InProgress(r, v, last)
    ensures v.top == r.was.top + |r.got|
    ensures forall k :: k in r.was.live ==> k in v.live && v.live[k] == r.was.live[k]
    ensures r.got == [] ==> r.first == None
    ensures r.got != [] ==>
              && r.was.top in v.live && r.first == Some(v.live[r.was.top])
              && v.top - 1 in v.live && last == Some(v.live[v.top - 1])
  {
    if r.got != [] {
      assert v.live[r.was.top] == r.got[0];
      assert v.live[v.top - 1] == r.got[|r.got| - 1];
    }
  }

  /** Where a bulk enqueue starts to construct. */
  lemma WhereToConstruct(r: Reservation, v: View, tail: nat, n: nat, startBlock: Option<BlockId>, endBlock: Option<BlockId>, tailBlock: Option<BlockId>)
    requires Reserved(r, v, tail, n, startBlock, endBlock) && n > 0
    requires tailBlock == if Cell(tail) == 0 && r.first.Some? then r.first else startBlock
    ensures BlockOf(tail) in v.live && tailBlock == Some(v.live[BlockOf(tail)]) && Linked(v, BlockOf(tail))
    ensures v.top - 1 in v.live && endBlock == Some(v.live[v.top - 1])
  {
    ReservedMembers(r, v, endBlock);
    BlocksBelowBounds(tail);
    BlocksBelowBounds(tail + n);
    InOrder(tail, tail + n - 1);
    ChainIsLinked(r.was, v, r.start, r.got, r.first, endBlock, BlockOf(tail));
  }

  /** What a bulk enqueue leaves as the tail. */
  lemma WhereItEnds(r: Reservation, v: View, tail: nat, n: nat, startBlock: Option<BlockId>, endBlock: Option<BlockId>, tailBlock: Option<BlockId>)
    requires Reserved(r, v, tail, n, startBlock, endBlock)
    requires tailBlock == if Cell(tail) == 0 && r.first.Some? then r.first else startBlock
    ensures Cell(tail + n) != 0 ==> BlockOf(tail + n) in v.live && endBlock == Some(v.live[BlockOf(tail + n)])
    ensures n == 0 ==> tailBlock == endBlock
  {
    ReservedMembers(r, v, endBlock);
    BlocksBelowBounds(tail);
    BlocksBelowBounds(tail + n);
  }

  lemma RestoredKeepsOthers(was: View, now: View)
    requires Restored(was, now)
    ensures KeepsOthers(was, now)
  {
  }
}
