/** The batched flush: acknowledge up to 4096 orders a call, and clear the book
    in the call that reaches the end. */
module Flushing {
  import opened Orders
  import opened Sequences
  import PriceTime
  import opened OrderPool
  import opened PriceLevels
  import ProbeTable
  import opened BookState
  import opened OrderBook
  import opened Matching
  import opened BookOps
  import opened Cancelling
  import opened ClientCancel

  lemma AcksAppend(symbol: string, a: seq<Resting>, b: seq<Resting>)
    ensures PriceTime.Acks(symbol, a + b) == PriceTime.Acks(symbol, a) + PriceTime.Acks(symbol, b)
  {
  }

  // ----- The cursor -----

  /** Level `level` and order `current` are `n` orders into the flattened side;
      NIL stands for the start of the level. */
  ghost predicate Cursor(ids: seq<seq<nat>>, level: nat, current: int, n: nat) {
    && level <= |ids|
    && var k := n - |Concat(ids[..level])|;
       if current == NIL then k == 0
       else level < |ids| && 0 <= k < |ids[level]| && ids[level][k] == current
  }

  /** The cursor inside level `level`, before its `k`-th order. */
  ghost predicate Within(list: seq<nat>, current: int, k: nat) {
    k <= |list| && current == if k < |list| then list[k] else NIL
  }

  /** Acknowledge orders of one level, from the `k`-th on. */
  method FlushLevel(b: Book, out: OutputBuffer, side: Side, ghost l: nat, start: int, ghost k: nat, budget: nat)
    returns (current: int, done: nat)
    requires b.Valid() && out.Valid() && l < |b.At(side).ids| && Within(b.At(side).ids[l], start, k)
    modifies out, out.messages
    ensures b.Valid() && out.Valid()
    ensures done == (if budget < |b.At(side).ids[l]| - k then budget else |b.At(side).ids[l]| - k)
    ensures Within(b.At(side).ids[l], current, k + done)
    ensures out.sent == Keep(old(out.sent) + PriceTime.Acks(b.symbol, View(b.pool.os, b.At(side).ids[l][k..k + done])))
  {
    hide Coherent, NoneEmpty, PriceTime.Acks, View, Chain, Pool.Valid, BookSide.Valid, OutputBuffer.Valid, Keep, Book.Wf;
    ghost var list, os, sent := b.At(side).ids[l], b.pool.os, out.sent;
    LevelHead(b.S(), side, l);
    ChainStart(os, list, b.At(side).levels[l].head, b.At(side).levels[l].tail, 0);
    current, done := start, 0;
    NoAcks(b.symbol, os, list, k, out);
    while current != NIL && done < budget
      invariant b.Valid() && out.Valid() && b.pool.os == os && b.At(side).ids[l] == list
      invariant done <= budget && k + done <= |list| && Within(list, current, k + done)
      invariant out.sent == Keep(sent + PriceTime.Acks(b.symbol, View(os, list[k..k + done])))
      decreases budget - done
    {
      ChainNext(os, list, b.At(side).levels[l].head, b.At(side).levels[l].tail, k + done);
      var order := b.pool.Get(current);
      OneAck(b.symbol, os, list, k, k + done, sent);
      current := order.next;
      out.Add(CancelAck(b.symbol, order.userId, order.userOrderId));
      assert b.Valid();
      done := done + 1;
    }
  }

  lemma NoAcks(symbol: string, os: seq<Order>, list: seq<nat>, k: nat, out: OutputBuffer)
    requires k <= |list| && out.Valid()
    ensures out.sent == Keep(out.sent + PriceTime.Acks(symbol, View(os, list[k..k + 0])))
  {
    KeepValid(out);
    assert PriceTime.Acks(symbol, View(os, list[k..k + 0])) == [];
  }

  lemma OneAck(symbol: string, os: seq<Order>, list: seq<nat>, k: nat, i: nat, sent: seq<Msg>)
    requires k <= i < |list| && list[i] < |os|
    ensures Keep(Keep(sent + PriceTime.Acks(symbol, View(os, list[k..i])))
                 + [CancelAck(symbol, os[list[i]].userId, os[list[i]].userOrderId)])
         == Keep(sent + PriceTime.Acks(symbol, View(os, list[k..i + 1])))
  {
    hide Keep;
    var acks, ack := PriceTime.Acks(symbol, View(os, list[k..i])), CancelAck(symbol, os[list[i]].userId, os[list[i]].userOrderId);
    assert list[k..i + 1] == list[k..i] + [list[i]];
    assert PriceTime.Acks(symbol, View(os, list[k..i + 1])) == acks + [ack];
    KeepAppend(sent, acks, [ack]);
  }

  lemma CursorStart(ids: seq<seq<nat>>, level: nat, current: int, n: nat)
    requires Cursor(ids, level, current, n) && level < |ids| && NoneEmpty(ids)
    ensures |Concat(ids[..level])| <= n < |Concat(ids)|
    ensures n - |Concat(ids[..level])| < |ids[level]| && ids[level] != []
    ensures Within(ids[level], if current == NIL then ids[level][0] else current, n - |Concat(ids[..level])|)
  {
    ConcatSplit(ids, level);
  }

  /** Moving the cursor by `d` orders within its level. */
  lemma CursorMove(ids: seq<seq<nat>>, level: nat, n: nat, current: int, d: nat)
    requires level < |ids| && |Concat(ids[..level])| <= n && NoneEmpty(ids)
    requires Within(ids[level], current, n - |Concat(ids[..level])| + d)
    ensures n + d <= |Concat(ids)| && n <= |Concat(ids)|
    ensures Cursor(ids, if current == NIL then level + 1 else level, current, n + d)
    ensures n - |Concat(ids[..level])| + d <= |ids[level]|
    ensures Concat(ids)[n..n + d] == ids[level][n - |Concat(ids[..level])|..n - |Concat(ids[..level])| + d]
    ensures current != NIL ==> n + d < |Concat(ids)|
    ensures current == NIL ==> n - |Concat(ids[..level])| + d == |ids[level]|
  {
    hide Concat;
    ConcatSplit(ids, level);
    SplitBehind(ids, level);
    SliceInside(Concat(ids[..level]), ids[level], Concat(ids[level + 1..]), n - |Concat(ids[..level])|, d);
  }

  lemma SliceInside<T>(a: seq<T>, b: seq<T>, c: seq<T>, i: nat, d: nat)
    requires i + d <= |b|
    ensures (a + b + c)[|a| + i..|a| + i + d] == b[i..i + d]
  {
  }

  lemma CursorEnd(ids: seq<seq<nat>>, level: nat, current: int, n: nat)
    requires Cursor(ids, level, current, n) && level >= |ids|
    ensures n == |Concat(ids)| && current == NIL
  {
    assert ids[..level] == ids;
  }

  lemma CursorBound(ids: seq<seq<nat>>, level: nat, current: int, n: nat)
    requires Cursor(ids, level, current, n) && NoneEmpty(ids)
    ensures n <= |Concat(ids)|
  {
    if level < |ids| {
      CursorStart(ids, level, current, n);
    } else {
      CursorEnd(ids, level, current, n);
    }
  }

  lemma ViewSlice(os: seq<Order>, ids: seq<nat>, i: nat, j: nat)
    requires i <= j <= |ids|
    ensures View(os, ids[i..j]) == View(os, ids)[i..j]
  {
  }

  lemma AcksMore(symbol: string, v: seq<Resting>, n: nat, m: nat, d: nat, sent: seq<Msg>)
    requires n <= m && m + d <= |v|
    ensures Keep(Keep(sent + PriceTime.Acks(symbol, v[n..m])) + PriceTime.Acks(symbol, v[m..m + d]))
         == Keep(sent + PriceTime.Acks(symbol, v[n..m + d]))
  {
    hide Keep;
    assert v[n..m] + v[m..m + d] == v[n..m + d];
    AcksAppend(symbol, v[n..m], v[m..m + d]);
    KeepAppend(sent, PriceTime.Acks(symbol, v[n..m]), PriceTime.Acks(symbol, v[m..m + d]));
  }

  /** Acknowledge up to `budget` orders of one side, from the cursor on. */
  method FlushSide(b: Book, out: OutputBuffer, side: Side, level0: nat, current0: int, ghost n: nat, budget: nat)
    returns (level: nat, current: int, sideDone: bool, processed: nat)
    requires b.Valid() && out.Valid() && Cursor(b.At(side).ids, level0, current0, n) && budget > 0
    modifies out, out.messages
    ensures b.Valid() && out.Valid() && n <= |b.V().At(side)|
    ensures processed == if budget < |b.V().At(side)| - n then budget else |b.V().At(side)| - n
    ensures sideDone <==> |b.V().At(side)| - n < budget
    ensures Cursor(b.At(side).ids, level, current, n + processed)
    ensures out.sent == Keep(old(out.sent) + PriceTime.Acks(b.symbol, b.V().At(side)[n..n + processed]))
  {
    hide *;
    PoolConstants();
    Sides(b);
    ghost var ids, os, sent := b.At(side).ids, b.pool.os, out.sent;
    ghost var v := b.V().At(side);
    ValidParts(b);
    FlatIs(b, side);
    level, current, sideDone, processed := level0, current0, false, 0;
    CursorBound(ids, level, current, n);
    AcksNone(b.symbol, v, n, out);
    while !sideDone && processed < budget
      invariant b.Valid() && out.Valid() && b.Wf() && b.pool.os == os && b.At(side).ids == ids && b.V().At(side) == v
      invariant processed <= budget && n + processed <= |v| && Cursor(ids, level, current, n + processed)
      invariant sideDone ==> n + processed == |v| && processed < budget
      invariant out.sent == Keep(sent + PriceTime.Acks(b.symbol, v[n..n + processed]))
      decreases !sideDone, budget - processed
    {
      if level >= b.At(side).num {
        CursorEnd(ids, level, current, n + processed);
        sideDone := true;
        break;
      }
      CursorStart(ids, level, current, n + processed);
      LevelHeadIs(b, side, level);
      if current == NIL {
        current := b.At(side).Get(level).head;
      }
      ghost var m, k := n + processed, n + processed - |Concat(ids[..level])|;
      ghost var sent1 := out.sent;
      var done;
      current, done := FlushLevel(b, out, side, level, current, k, budget - processed);
      assert b.V().At(side) == v;
      WfOf(b);
      CursorMove(ids, level, m, current, done);
      ViewSlice(os, Concat(ids), m, m + done);
      AcksMore(b.symbol, v, n, m, done, sent);
      processed := processed + done;
      if current == NIL {
        level := level + 1;
      }
    }
  }

  lemma WfOf(b: Book)
    requires b.Valid()
    ensures b.Wf()
  {
    hide Coherent;
  }

  lemma FlatIs(b: Book, side: Side)
    requires b.Valid()
    ensures b.V().At(side) == View(b.pool.os, Concat(b.At(side).ids)) && |b.V().At(side)| == |Concat(b.At(side).ids)|
  {
    hide Coherent, Book.Wf, NoneEmpty;
  }

  lemma AcksNone(symbol: string, v: seq<Resting>, n: nat, out: OutputBuffer)
    requires out.Valid() && n <= |v|
    ensures out.sent == Keep(out.sent + PriceTime.Acks(symbol, v[n..n + 0]))
  {
    KeepValid(out);
    assert PriceTime.Acks(symbol, v[n..n + 0]) == [];
  }

  lemma LevelHeadIs(b: Book, side: Side, l: nat)
    requires b.Valid() && l < |b.At(side).ids|
    ensures b.Wf() && l < |b.At(side).levels|
    ensures b.At(side).levels[l].head == if b.At(side).ids[l] == [] then NIL else b.At(side).ids[l][0]
  {
    hide Coherent;
    LevelHead(b.S(), side, l);
  }

  // ----- Clearing the book -----

  /** No list is as long as the whole pool; the source asserts this when it frees a list. */
  ghost predicate ShortLists(ids: seq<seq<nat>>) {
    forall l :: 0 <= l < |ids| ==> |ids[l]| < POOL
  }

  lemma {:induction false} ConcatUpto<T>(ss: seq<seq<T>>, l: nat)
    requires l < |ss|
    ensures Concat(ss[..l + 1]) == Concat(ss[..l]) + ss[l]
  {
    assert ss[..l + 1] == ss[..l] + [ss[l]];
    ConcatAppend(ss[..l], [ss[l]]);
    ConcatOne(ss[l]);
  }

  /** The orders of level `l` are not free while only the levels before it have been freed. */
  lemma NotYetFree(os: seq<Order>, side: Side, levels: seq<Level>, ids: seq<seq<nat>>, free: seq<nat>, l: nat)
    requires SideOk(os, side, levels, ids) && l < |ids|
    requires forall i :: i in Concat(ids) ==> i !in free
    ensures forall i :: i in ids[l] ==> i !in free + Concat(ids[..l])
  {
    ConcatSplit(ids, l);
    FlatDistinct(os, side, levels, ids);
    DistinctParts(Concat(ids[..l]), ids[l], Concat(ids[l + 1..]));
  }

  /** Give every order of one side back to the pool and drop its levels. */
  method FreeSide(pool: Pool, half: BookSide, ghost side: Side)
    requires pool.Valid() && half.Valid() && SideOk(pool.os, side, half.levels, half.ids) && ShortLists(half.ids)
    requires forall i :: i in Concat(half.ids) ==> i !in pool.free
    modifies pool, pool.freeList, half, half.slots
    ensures pool.Valid() && half.Valid() && pool.os == old(pool.os)
    ensures pool.free == old(pool.free) + old(Concat(half.ids)) && half.levels == [] && half.ids == []
  {
    hide Pool.Valid, BookSide.Valid, Concat, Chain, LevelOk, Sorted, Chain;
    ghost var levels, ids, free := half.levels, half.ids, pool.free;
    ConcatEmpty(ids);
    for i := 0 to half.num
      invariant pool.Valid() && half.Valid() && pool.os == old(pool.os) && half.num == |ids|
      invariant |half.levels| == |ids| && forall j :: i <= j < |ids| ==> half.levels[j] == levels[j]
      invariant pool.free == free + Concat(ids[..i])
    {
      var level := half.Get(i);
      LevelChain(pool.os, side, levels, ids, i);
      NotYetFree(pool.os, side, levels, ids, free, i);
      ConcatUpto(ids, i);
      FreeAll(pool, level.head, level.tail, ids[i]);
      half.Put(i, level.(head := NIL, tail := NIL, total := 0), []);
    }
    assert ids[..|ids|] == ids;
    half.Reset();
  }

  lemma ConcatEmpty<T>(ss: seq<seq<T>>)
    ensures Concat(ss[..0]) == []
  {
  }

  lemma LevelChain(os: seq<Order>, side: Side, levels: seq<Level>, ids: seq<seq<nat>>, l: nat)
    requires SideOk(os, side, levels, ids) && l < |ids|
    ensures Chain(os, ids[l], levels[l].head, levels[l].tail)
  {
  }

  /** What clearing the book leaves: both sides and the map empty, every order free. */
  ghost function Cleared(s: Snap): Snap {
    Snap(s.os, s.free + Flat(s.bids) + Flat(s.asks), Half([], []), Half([], []), map[])
  }

  lemma ClearedCoherent(s: Snap)
    requires Coherent(s)
    ensures Coherent(Cleared(s)) && FlatView(Cleared(s), Buy) == [] && FlatView(Cleared(s), Sell) == []
    ensures Slots(Cleared(s)) == Slots(s) && NoneEmpty(Cleared(s).At(Buy).ids) && NoneEmpty(Cleared(s).At(Sell).ids)
  {
    hide SideOk, Indexed;
    EmptyCoherent(Cleared(s));
    assert Flat(Half([], [])) == [];
  }

  lemma ReadyToClear(s: Snap)
    requires Coherent(s)
    ensures SideOk(s.os, Buy, s.At(Buy).levels, s.At(Buy).ids) && SideOk(s.os, Sell, s.At(Sell).levels, s.At(Sell).ids)
    ensures forall i :: i in Concat(s.At(Buy).ids) ==> i !in s.free
    ensures forall i :: i in Concat(s.At(Sell).ids) ==> i !in s.free + Concat(s.At(Buy).ids)
  {
    forall i | i in Concat(s.asks.ids)
      ensures i !in Concat(s.bids.ids)
    {
      LinkedFacts(s, i);
    }
  }

  /** Empty both sides and the map, returning all orders to the pool. */
  method ClearBook(b: Book)
    requires b.Valid() && ShortLists(b.bids.ids) && ShortLists(b.asks.ids)
    modifies b.bids, b.bids.slots, b.asks, b.asks.slots, b.orderMap, b.orderMap.slots, b.pool, b.pool.freeList
    ensures b.Valid() && b.S() == Cleared(old(b.S()))
    ensures b.V().bids == [] && b.V().asks == [] && Slots(b.S()) == old(Slots(b.S()))
  {
    hide *;
    Sides(b);
    ghost var s := b.S();
    ValidParts(b);
    ReadyToClear(s);
    ClearedCoherent(s);
    FreeSide(b.pool, b.bids, Buy);
    FreeSide(b.pool, b.asks, Sell);
    b.orderMap.Clear();
    WfKept(b);
    ClearedIs(s, b.S());
    assert NoneEmpty(b.At(Buy).ids) && NoneEmpty(b.At(Sell).ids);
    ValidIs(b, Buy);
  }

  lemma ClearedIs(s: Snap, s': Snap)
    requires s'.os == s.os && s'.free == s.free + Concat(s.At(Buy).ids) + Concat(s.At(Sell).ids) && s'.m == map[]
    requires s'.At(Buy) == Half([], []) && s'.At(Sell) == Half([], [])
    ensures s' == Cleared(s)
  {
  }

  lemma EliminatedIs(v: PriceTime.Book, w: PriceTime.Book)
    requires w == v.(bids := [], asks := [],
                     seenBid := if v.bidActive then PriceTime.Top(1, 1) else v.seenBid,
                     seenAsk := if v.askActive then PriceTime.Top(1, 1) else v.seenAsk)
    ensures PriceTime.Announce(w).msgs == PriceTime.Eliminated(v)
    ensures var a := PriceTime.Announce(w).book;
            PriceTime.EmptyBook(v.symbol) == a.(seenBid := PriceTime.Top(0, 0), seenAsk := PriceTime.Top(0, 0),
                                                bidActive := false, askActive := false)
  {
  }

  /** Make the next announcement report both sides that were ever active. */
  method ForceTops(b: Book)
    modifies b`seenBid, b`seenAsk
    ensures b.Valid() == old(b.Valid()) && b.S() == old(b.S())
    ensures b.V() == old(b.V()).(seenBid := if old(b.bidActive) then PriceTime.Top(1, 1) else old(b.seenBid),
                                 seenAsk := if old(b.askActive) then PriceTime.Top(1, 1) else old(b.seenAsk))
  {
    hide Book.Valid, Book.S, FlatView;
    if b.bidActive {
      b.seenBid := PriceTime.Top(1, 1);
    }
    if b.askActive {
      b.seenAsk := PriceTime.Top(1, 1);
    }
    assert b.S() == old(b.S());
  }

  /** Forget the tops and the cursor. */
  method ForgetTops(b: Book)
    modifies b
    ensures b.Valid() == old(b.Valid()) && b.S() == old(b.S()) && !b.flushing
    ensures b.V() == old(b.V()).(seenBid := PriceTime.Top(0, 0), seenAsk := PriceTime.Top(0, 0),
                                 bidActive := false, askActive := false)
  {
    hide Book.Valid, Book.S, FlatView;
    b.seenBid, b.seenAsk, b.bidActive, b.askActive := PriceTime.Top(0, 0), PriceTime.Top(0, 0), false, false;
    b.flushing, b.bidLevel, b.askLevel, b.current, b.bidsDone, b.asksDone := false, 0, 0, NIL, false, false;
    assert b.S() == old(b.S());
  }

  /** End the flush: clear everything, announce the eliminated sides, forget the tops. */
  method Finalize(b: Book, out: OutputBuffer)
    requires b.Valid() && out.Valid() && ShortLists(b.bids.ids) && ShortLists(b.asks.ids)
    modifies b, b.bids, b.bids.slots, b.asks, b.asks.slots, b.orderMap, b.orderMap.slots, b.pool, b.pool.freeList
    modifies out, out.messages
    ensures b.Valid() && out.Valid() && !b.flushing && b.V() == PriceTime.EmptyBook(b.symbol)
    ensures b.S() == Cleared(old(b.S())) && Slots(b.S()) == old(Slots(b.S()))
    ensures out.sent == Keep(old(out.sent) + PriceTime.Eliminated(old(b.V())))
  {
    hide *;
    ghost var v := b.V();
    ClearBook(b);
    assert out.Valid() && out.sent == old(out.sent);
    ghost var s := b.S();
    ForceTops(b);
    assert out.Valid() && out.sent == old(out.sent);
    ghost var w := b.V();
    EliminatedIs(v, w);
    CheckTop(b, out);
    ForgetTops(b);
    assert out.Valid();
  }

  // ----- One call, and all calls -----

  /** The orders a flush acknowledges, in its order. */
  ghost function All(v: PriceTime.Book): seq<Resting> {
    v.bids + v.asks
  }

  /** The cursor has passed `pos` orders: a flush that is not in progress starts at 0. */
  ghost predicate FlushAt(b: Book, pos: nat)
    reads b, b.bids, b.asks
  {
    if !b.flushing then pos == 0
    else
      && !b.asksDone
      && var n := |Concat(b.bids.ids)|;
         if !b.bidsDone then b.askLevel == 0 && Cursor(b.bids.ids, b.bidLevel, b.current, pos)
         else pos >= n && Cursor(b.asks.ids, b.askLevel, b.current, pos - n)
  }

  lemma CursorZero(ids: seq<seq<nat>>)
    ensures Cursor(ids, 0, NIL, 0)
  {
    ConcatEmpty(ids);
  }

  /** Begin the flush if none is in progress. */
  method StartFlush(b: Book, ghost pos: nat)
    requires FlushAt(b, pos)
    modifies b`flushing, b`bidLevel, b`askLevel, b`current, b`bidsDone, b`asksDone
    ensures b.flushing && FlushAt(b, pos)
    ensures b.Valid() == old(b.Valid()) && b.S() == old(b.S()) && b.V() == old(b.V())
  {
    hide Book.Valid, Book.S, FlatView, Concat, Cursor;
    if !b.flushing {
      CursorZero(b.bids.ids);
      b.flushing, b.bidLevel, b.askLevel, b.current, b.bidsDone, b.asksDone := true, 0, 0, NIL, false, false;
    }
    assert b.S() == old(b.S());
  }

  lemma FlushAtBids(b: Book, pos: nat)
    requires FlushAt(b, pos) && b.flushing && !b.bidsDone
    ensures !b.asksDone && b.askLevel == 0 && Cursor(b.bids.ids, b.bidLevel, b.current, pos)
  {
  }

  lemma FlushAtAsks(b: Book, pos: nat)
    requires b.Valid() && b.flushing && b.bidsDone
    requires FlushAt(b, pos)
    ensures !b.asksDone && pos >= |b.V().bids| && Cursor(b.asks.ids, b.askLevel, b.current, pos - |b.V().bids|)
  {
    hide Coherent, Book.Wf, NoneEmpty, Cursor;
  }

  lemma FlushAtIs(b: Book, pos: nat)
    requires b.Valid() && b.flushing && !b.asksDone
    requires !b.bidsDone ==> b.askLevel == 0 && Cursor(b.bids.ids, b.bidLevel, b.current, pos)
    requires b.bidsDone ==> pos >= |b.V().bids| && Cursor(b.asks.ids, b.askLevel, b.current, pos - |b.V().bids|)
    ensures FlushAt(b, pos)
  {
    hide Coherent, Book.Wf, NoneEmpty, Cursor;
  }

  lemma BidAcks(v: PriceTime.Book, i: nat, j: nat)
    requires i <= j <= |v.bids|
    ensures j <= |All(v)| && v.bids[i..j] == All(v)[i..j]
  {
  }

  lemma AskAcks(v: PriceTime.Book, i: nat, j: nat)
    requires i <= j <= |v.asks|
    ensures |v.bids| + j <= |All(v)| && v.asks[i..j] == All(v)[|v.bids| + i..|v.bids| + j]
  {
  }

  lemma AllSize(v: PriceTime.Book)
    ensures |All(v)| == |v.bids| + |v.asks| && v.At(Buy) == v.bids && v.At(Sell) == v.asks
    ensures PriceTime.BATCH == 4096
  {
  }

  /** The bid part of one call, with the full budget. */
  method FlushBids(b: Book, out: OutputBuffer, ghost pos: nat) returns (left: nat)
    requires b.Valid() && out.Valid() && FlushAt(b, pos) && b.flushing && pos <= |All(b.V())|
    modifies b`bidLevel, b`current, b`bidsDone, out, out.messages
    ensures b.Valid() && out.Valid() && b.S() == old(b.S()) && b.V() == old(b.V()) && b.flushing
    ensures left <= PriceTime.BATCH && FlushAt(b, pos + (PriceTime.BATCH - left)) && (b.bidsDone <==> left > 0)
    ensures pos + (PriceTime.BATCH - left) <= |All(b.V())| && !b.asksDone
    ensures out.sent == Keep(old(out.sent) + PriceTime.Acks(b.symbol, All(b.V())[pos..pos + (PriceTime.BATCH - left)]))
  {
    hide *;
    Sides(b);
    PoolConstants();
    ghost var v, s := b.V(), b.S();
    AllSize(v);
    left := PriceTime.BATCH;
    if !b.bidsDone {
      FlushAtBids(b, pos);
      ValidParts(b);
      var level, current, done, processed := FlushSide(b, out, Buy, b.bidLevel, b.current, pos, left);
      left := left - processed;
      BidAcks(v, pos, pos + processed);
      CursorZero(b.asks.ids);
      b.bidLevel, b.current, b.bidsDone := level, if done then NIL else current, done;
      assert b.Valid() && b.S() == s && b.V() == v && out.Valid();
      FlushAtIs(b, pos + processed);
    } else {
      FlushAtAsks(b, pos);
      AcksNone(b.symbol, All(v), pos, out);
    }
  }

  /** The ask part, with what is left of the budget. */
  method FlushAsks(b: Book, out: OutputBuffer, ghost pos: nat, left: nat) returns (ghost processed: nat)
    requires b.Valid() && out.Valid() && FlushAt(b, pos) && b.flushing && (b.bidsDone <==> left > 0)
    requires pos <= |All(b.V())| && !b.asksDone
    modifies b`askLevel, b`current, b`asksDone, out, out.messages
    ensures b.Valid() && out.Valid() && b.S() == old(b.S()) && b.V() == old(b.V()) && b.flushing
    ensures processed == if left < |All(b.V())| - pos then left else |All(b.V())| - pos
    ensures b.asksDone && b.bidsDone <==> |All(b.V())| - pos < left
    ensures !(b.asksDone && b.bidsDone) ==> FlushAt(b, pos + processed)
    ensures out.sent == Keep(old(out.sent) + PriceTime.Acks(b.symbol, All(b.V())[pos..pos + processed]))
  {
    hide *;
    Sides(b);
    PoolConstants();
    ghost var v, s := b.V(), b.S();
    AllSize(v);
    processed := 0;
    AcksNone(b.symbol, All(v), pos, out);
    if !b.asksDone && left > 0 {
      FlushAtAsks(b, pos);
      ghost var n := pos - |v.bids|;
      var level, current, done, count := FlushSide(b, out, Sell, b.askLevel, b.current, n, left);
      AskAcks(v, n, n + count);
      processed := count;
      b.askLevel, b.current, b.asksDone := level, current, done;
      assert b.Valid() && b.S() == s && b.V() == v && out.Valid();
      if !b.asksDone {
        FlushAtIs(b, pos + processed);
      }
    }
  }

  /** Acknowledge the next batch; when the end is reached, clear the book and report true.
      `pos` orders have been acknowledged by earlier calls of the same flush. */
  method Flush(b: Book, out: OutputBuffer, ghost pos: nat) returns (done: bool)
    requires b.Valid() && out.Valid() && FlushAt(b, pos) && pos <= |All(b.V())|
    requires ShortLists(b.bids.ids) && ShortLists(b.asks.ids)
    modifies b, b.bids, b.bids.slots, b.asks, b.asks.slots, b.orderMap, b.orderMap.slots, b.pool, b.pool.freeList
    modifies out, out.messages
    ensures b.Valid() && out.Valid() && (done <==> |All(old(b.V()))| - pos < 4096) && (b.flushing <==> !done)
    ensures !done ==>
      && FlushAt(b, pos + 4096) && b.V() == old(b.V()) && b.S() == old(b.S())
      && out.sent == Keep(old(out.sent) + PriceTime.Acks(b.symbol, All(b.V())[pos..pos + 4096]))
    ensures done ==>
      && b.V() == PriceTime.EmptyBook(b.symbol) && b.S() == Cleared(old(b.S()))
      && out.sent == Keep(old(out.sent) + (PriceTime.Acks(b.symbol, All(old(b.V()))[pos..])
                                           + PriceTime.Eliminated(old(b.V()))))
    ensures Slots(b.S()) == old(Slots(b.S())) && b.pool.os == old(b.pool.os)
  {
    hide *;
    Sides(b);
    ghost var v, s, sent, all := b.V(), b.S(), out.sent, All(b.V());
    AllSize(v);
    StartFlush(b, pos);
    assert out.Valid() && out.sent == sent;
    var left := FlushBids(b, out, pos);
    ghost var pos1 := pos + (PriceTime.BATCH - left);
    ghost var count := FlushAsks(b, out, pos1, left);
    AcksMore(b.symbol, all, pos, pos1, count, sent);
    if b.bidsDone && b.asksDone {
      assert all[pos..pos1 + count] == all[pos..];
      KeepAppend(sent, PriceTime.Acks(b.symbol, all[pos..]), PriceTime.Eliminated(v));
      Finalize(b, out);
      ClearedOrders(s);
      return true;
    }
    return false;
  }

  lemma ClearedOrders(s: Snap)
    ensures Cleared(s).os == s.os
  {
  }

  lemma FreshCursor(b: Book)
    requires !b.flushing
    ensures FlushAt(b, 0)
  {
  }

  lemma BatchFits(v: PriceTime.Book, pos: nat, end: nat)
    requires pos <= end <= |All(v)| && end - pos <= PriceTime.BATCH
    ensures var acks := PriceTime.Acks(v.symbol, All(v)[pos..end]);
            |acks| == end - pos && Keep([] + acks) == acks
            && Keep([] + (acks + PriceTime.Eliminated(v))) == acks + PriceTime.Eliminated(v)
  {
    var acks := PriceTime.Acks(v.symbol, All(v)[pos..end]);
    assert [] + acks == acks && [] + (acks + PriceTime.Eliminated(v)) == acks + PriceTime.Eliminated(v);
  }

  lemma FlushMsgs(v: PriceTime.Book, pos: nat)
    requires pos <= |All(v)|
    ensures PriceTime.Acks(v.symbol, All(v)[..pos])
            + (PriceTime.Acks(v.symbol, All(v)[pos..]) + PriceTime.Eliminated(v))
         == PriceTime.Flush(v).msgs
    ensures PriceTime.Flush(v).book == PriceTime.EmptyBook(v.symbol)
  {
    var a, c := PriceTime.Acks(v.symbol, All(v)[..pos]), PriceTime.Acks(v.symbol, All(v)[pos..]);
    assert All(v)[..pos] + All(v)[pos..] == All(v);
    AcksAppend(v.symbol, All(v)[..pos], All(v)[pos..]);
    assert a + (c + PriceTime.Eliminated(v)) == (a + c) + PriceTime.Eliminated(v);
  }

  /** Flush to the end, draining the output buffer after every call.  The drained messages
      are exactly those of a whole flush, every call but the last yields 4096 of them, and
      N orders take N / 4096 + 1 calls. */
  method FlushToEnd(b: Book, out: OutputBuffer) returns (calls: nat, drained: seq<Msg>)
    requires b.Valid() && out.Valid() && !b.flushing && out.sent == []
    requires ShortLists(b.bids.ids) && ShortLists(b.asks.ids)
    modifies b, b.bids, b.bids.slots, b.asks, b.asks.slots, b.orderMap, b.orderMap.slots, b.pool, b.pool.freeList
    modifies out, out.messages
    ensures b.Valid() && out.Valid() && out.sent == [] && !b.flushing && b.V() == PriceTime.Flush(old(b.V())).book
    ensures drained == PriceTime.Flush(old(b.V())).msgs
    ensures calls == (|old(b.V()).bids| + |old(b.V()).asks|) / 4096 + 1
    ensures b.S() == Cleared(old(b.S())) && Slots(b.S()) == old(Slots(b.S()))
  {
    hide *;
    Sides(b);
    ghost var v, s := b.V(), b.S();
    AllSize(v);
    FreshCursor(b);
    FlushMsgs(v, 0);
    AcksStart(v);
    ghost var pos := 0;
    calls, drained := 0, [];
    var done := false;
    while !done
      invariant b.Valid() && out.Valid() && out.sent == [] && ShortLists(b.bids.ids) && ShortLists(b.asks.ids)
      invariant !done ==>
        && b.V() == v && b.S() == s && pos <= |All(v)| && FlushAt(b, pos) && pos == calls * PriceTime.BATCH
        && drained == PriceTime.Acks(b.symbol, All(v)[..pos])
      invariant done ==>
        && !b.flushing && b.V() == PriceTime.EmptyBook(b.symbol) && b.S() == Cleared(s) && Slots(b.S()) == Slots(s)
        && drained == PriceTime.Flush(v).msgs && calls == |All(v)| / PriceTime.BATCH + 1
      decreases !done, |All(v)| - pos
    {
      done := Flush(b, out, pos);
      ghost var w, t := b.V(), b.S();
      var batch := out.Drain();
      assert b.Valid() && b.V() == w && b.S() == t;
      assert !done ==> FlushAt(b, pos + PriceTime.BATCH);
      calls, drained := calls + 1, drained + batch;
      if done {
        BatchFits(v, pos, |All(v)|);
        assert All(v)[pos..|All(v)|] == All(v)[pos..];
        FlushMsgs(v, pos);
        ClearedShort(s, b);
      } else {
        BatchFits(v, pos, pos + PriceTime.BATCH);
        AcksMoreFrom(v, pos);
        pos := pos + PriceTime.BATCH;
      }
    }
  }

  lemma AcksStart(v: PriceTime.Book)
    ensures PriceTime.Acks(v.symbol, All(v)[..0]) == []
  {
  }

  lemma AcksMoreFrom(v: PriceTime.Book, pos: nat)
    requires pos + PriceTime.BATCH <= |All(v)|
    ensures PriceTime.Acks(v.symbol, All(v)[..pos]) + PriceTime.Acks(v.symbol, All(v)[pos..pos + PriceTime.BATCH])
         == PriceTime.Acks(v.symbol, All(v)[..pos + PriceTime.BATCH])
  {
    assert All(v)[..pos] + All(v)[pos..pos + PriceTime.BATCH] == All(v)[..pos + PriceTime.BATCH];
    AcksAppend(v.symbol, All(v)[..pos], All(v)[pos..pos + PriceTime.BATCH]);
  }

  lemma ClearedShort(s: Snap, b: Book)
    requires b.S() == Cleared(s)
    ensures ShortLists(b.bids.ids) && ShortLists(b.asks.ids)
  {
  }
}
