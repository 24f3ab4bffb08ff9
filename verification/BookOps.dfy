/** The public operations that add and cancel orders, proved against `PriceTime`. */
module BookOps {
  import opened Orders
  import opened Sequences
  import PriceTime
  import opened OrderPool
  import opened PriceLevels
  import ProbeTable
  import opened BookState
  import opened OrderBook
  import opened Matching
  import MatchLaws

  // ----- Top of book -----

  lemma {:induction false} QtySplit(a: seq<Resting>, b: seq<Resting>, price: int)
    ensures PriceTime.QtyAt(a + b, price) == PriceTime.QtyAt(a, price) + PriceTime.QtyAt(b, price)
  {
    if a == [] {
      assert a + b == b;
    } else {
      QtySplit(a[1..], b, price);
      assert (a + b)[0] == a[0] && (a + b)[1..] == a[1..] + b;
    }
  }

  lemma {:induction false} QtyUniform(a: seq<Resting>, price: int, same: bool)
    requires forall i :: 0 <= i < |a| ==> (a[i].price == price <==> same)
    ensures PriceTime.QtyAt(a, price) == if same then PriceTime.TotalQty(a) else 0
  {
    if a != [] {
      QtyUniform(a[1..], price, same);
    }
  }

  lemma ViewSplit(os: seq<Order>, a: seq<nat>, b: seq<nat>)
    ensures View(os, a + b) == View(os, a) + View(os, b)
  {
  }

  /** The first level's price and total are the best price and the quantity there. */
  lemma BestIs(s: Snap, side: Side)
    requires Coherent(s) && NoneEmpty(s.At(side).ids)
    ensures |s.At(side).levels| == |s.At(side).ids|
    ensures PriceTime.Best(FlatView(s, side))
         == if s.At(side).levels == [] then PriceTime.Top(0, 0)
            else PriceTime.Top(s.At(side).levels[0].price, s.At(side).levels[0].total)
    ensures s.At(side).levels != [] ==> s.At(side).levels[0].price > 0
  {
    hide Indexed, Wrap32, PriceTime.QtyAt, PriceTime.TotalQty;
    var h := s.At(side);
    if h.ids != [] {
      var price, first, rest := h.levels[0].price, View(s.os, h.ids[0]), View(s.os, Concat(h.ids[1..]));
      FirstLevel(s, side);
      QtySplit(first, rest, price);
      QtyUniform(first, price, true);
      QtyUniform(rest, price, false);
    }
  }

  /** The orders of the first level come first, and no others have its price. */
  lemma FirstLevel(s: Snap, side: Side)
    requires Coherent(s) && s.At(side).ids != []
    ensures var h := s.At(side);
            && h.levels != []
            && var price, first, rest := h.levels[0].price, View(s.os, h.ids[0]), View(s.os, Concat(h.ids[1..]));
               && FlatView(s, side) == first + rest
               && (forall i :: 0 <= i < |first| ==> first[i].price == price)
               && (forall i :: 0 <= i < |rest| ==> rest[i].price != price)
  {
    hide Indexed, Wrap32, PriceTime.TotalQty;
    var h := s.At(side);
    var price, first, rest := h.levels[0].price, View(s.os, h.ids[0]), View(s.os, Concat(h.ids[1..]));
    ViewSplit(s.os, h.ids[0], Concat(h.ids[1..]));
    LevelMembers(s.os, side, h.levels[0], h.ids[0]);
    forall i | 0 <= i < |first|
      ensures first[i].price == price
    {
      assert h.ids[0][i] in h.ids[0];
    }
    forall i | 0 <= i < |rest|
      ensures rest[i].price != price
    {
      var l, k := FlatMember(s.os, side, h.levels[1..], h.ids[1..], Concat(h.ids[1..])[i]);
      assert h.levels[1..][l] == h.levels[l + 1];
    }
  }

  /** Report one side's top of book if it changed. */
  method ReportTop(out: OutputBuffer, symbol: string, side: Side, seen: PriceTime.Top, now: PriceTime.Top, active: bool)
    requires out.Valid()
    modifies out, out.messages
    ensures out.Valid() && out.sent == Keep(old(out.sent) + PriceTime.TopMsgs(symbol, side, seen, now, active))
  {
    KeepValid(out);
    if now.price != seen.price || now.qty != seen.qty {
      if now.price == 0 && active {
        out.Add(TopOfBook(TopSymbol(symbol), side, 0, 0));
      } else if now.price > 0 {
        out.Add(TopOfBook(TopSymbol(symbol), side, now.price, now.qty));
      }
    }
  }

  /** The best price of a side and the total there. */
  method BestOf(b: Book, side: Side) returns (top: PriceTime.Top)
    requires b.Valid()
    ensures top == PriceTime.Best(FlatView(b.S(), side))
  {
    hide Coherent, FlatView, NoneEmpty, PriceTime.Best;
    BestIs(b.S(), side);
    var half := b.At(side);
    top := if half.num > 0 then PriceTime.Top(half.Get(0).price, half.Get(0).total) else PriceTime.Top(0, 0);
  }

  /** Announce top-of-book changes since the last announcement. */
  method CheckTop(b: Book, out: OutputBuffer)
    requires b.Valid() && out.Valid()
    modifies b`seenBid, b`seenAsk, b`bidActive, b`askActive, out, out.messages
    ensures b.Valid() && out.Valid() && b.S() == old(b.S())
    ensures b.V() == PriceTime.Announce(old(b.V())).book
    ensures out.sent == Keep(old(out.sent) + PriceTime.Announce(old(b.V())).msgs)
  {
    hide Book.Valid, Book.S, FlatView, PriceTime.Best, PriceTime.TopMsgs, PriceTime.Announce, OutputBuffer.Valid, Keep;
    ghost var v := b.V();
    var bid := BestOf(b, Buy);
    var ask := BestOf(b, Sell);
    var bidActive, askActive := b.bidActive || bid.price > 0, b.askActive || ask.price > 0;
    ghost var sent := out.sent;
    ReportTop(out, b.symbol, Buy, b.seenBid, bid, bidActive);
    assert b.Valid() && b.S() == old(b.S());
    ReportTop(out, b.symbol, Sell, b.seenAsk, ask, askActive);
    assert b.Valid() && b.S() == old(b.S());
    b.seenBid, b.seenAsk, b.bidActive, b.askActive := bid, ask, bidActive, askActive;
    KeepAppend(sent, PriceTime.TopMsgs(b.symbol, Buy, v.seenBid, bid, bidActive),
               PriceTime.TopMsgs(b.symbol, Sell, v.seenAsk, ask, askActive));
    AnnounceIs(v);
  }

  lemma AnnounceIs(v: PriceTime.Book)
    ensures var bid, ask := PriceTime.Best(v.bids), PriceTime.Best(v.asks);
            var bidActive, askActive := v.bidActive || bid.price > 0, v.askActive || ask.price > 0;
            PriceTime.Announce(v) == PriceTime.Outcome(
              v.(seenBid := bid, seenAsk := ask, bidActive := bidActive, askActive := askActive),
              PriceTime.TopMsgs(v.symbol, Buy, v.seenBid, bid, bidActive) + PriceTime.TopMsgs(v.symbol, Sell, v.seenAsk, ask, askActive))
  {
  }

  // ----- Resting an order -----

  lemma {:induction false} EnqueueAt(side: Side, flat: seq<Resting>, n: nat, r: Resting)
    requires n <= |flat|
    requires forall i :: 0 <= i < n ==> !PriceTime.Better(side, r.price, flat[i].price)
    requires forall i :: n <= i < |flat| ==> PriceTime.Better(side, r.price, flat[i].price)
    ensures PriceTime.Enqueue(side, flat, r) == InsertAt(flat, n, r)
  {
    if n > 0 {
      EnqueueAt(side, flat[1..], n - 1, r);
    }
  }

  lemma ConcatOne<T>(s: seq<T>)
    ensures Concat([s]) == s
  {
    assert [s][1..] == [];
    assert s + [] == s;
  }

  /** The flattening splits behind level `l`. */
  lemma SplitBehind<T>(ss: seq<seq<T>>, l: nat)
    requires l < |ss|
    ensures Concat(ss) == Concat(ss[..l + 1]) + Concat(ss[l + 1..])
    ensures |Concat(ss[..l + 1])| == Offset(ss, l, |ss[l]|)
  {
    assert ss == ss[..l + 1] + ss[l + 1..] && ss[..l + 1] == ss[..l] + [ss[l]];
    ConcatAppend(ss[..l + 1], ss[l + 1..]);
    ConcatAppend(ss[..l], [ss[l]]);
    ConcatOne(ss[l]);
  }

  lemma SidePart(os: seq<Order>, side: Side, levels: seq<Level>, ids: seq<seq<nat>>, lo: nat, hi: nat)
    requires SideOk(os, side, levels, ids) && lo <= hi <= |ids|
    ensures SideOk(os, side, levels[lo..hi], ids[lo..hi])
  {
  }

  /** Prices up to the end of level `l` are no worse than its own. */
  lemma BeforeBorder(s: Snap, side: Side, l: nat, i: nat)
    requires HalfOk(s, side) && l < |s.At(side).ids| == |s.At(side).levels| && i < |Concat(s.At(side).ids[..l + 1])|
    ensures !PriceTime.Better(side, s.At(side).levels[l].price, ViewAt(s.os, Concat(s.At(side).ids[..l + 1])[i]).price)
  {
    var h := s.At(side);
    SidePart(s.os, side, h.levels, h.ids, 0, l + 1);
    assert h.ids[0..l + 1] == h.ids[..l + 1];
    hide LevelOk, Concat;
    var j, k := FlatMember(s.os, side, h.levels[0..l + 1], h.ids[0..l + 1], Concat(h.ids[..l + 1])[i]);
    assert h.levels[0..l + 1][j] == h.levels[j];
  }

  /** Prices behind level `l` are worse than its own. */
  lemma BehindBorder(s: Snap, side: Side, l: nat, i: nat)
    requires HalfOk(s, side) && l < |s.At(side).ids| == |s.At(side).levels| && i < |Concat(s.At(side).ids[l + 1..])|
    ensures PriceTime.Better(side, s.At(side).levels[l].price, ViewAt(s.os, Concat(s.At(side).ids[l + 1..])[i]).price)
  {
    var h := s.At(side);
    SidePart(s.os, side, h.levels, h.ids, l + 1, |h.ids|);
    assert h.ids[l + 1..|h.ids|] == h.ids[l + 1..];
    hide LevelOk, Concat;
    var j, k := FlatMember(s.os, side, h.levels[l + 1..|h.ids|], h.ids[l + 1..|h.ids|], Concat(h.ids[l + 1..])[i]);
    assert h.levels[l + 1..|h.ids|][j] == h.levels[l + 1 + j];
  }

  lemma LevelBorder(s: Snap, side: Side, l: nat, i: nat)
    requires HalfOk(s, side) && l < |s.At(side).ids| == |s.At(side).levels| && i < |Flat(s.At(side))|
    ensures i < |FlatView(s, side)|
    ensures i < Offset(s.At(side).ids, l, |s.At(side).ids[l]|)
        <==> !PriceTime.Better(side, s.At(side).levels[l].price, FlatView(s, side)[i].price)
  {
    hide SideOk, Concat, PriceTime.Better;
    var h := s.At(side);
    var n := Offset(h.ids, l, |h.ids[l]|);
    SplitBehind(h.ids, l);
    if i < n {
      BeforeBorder(s, side, l, i);
    } else {
      BehindBorder(s, side, l, i - n);
    }
  }

  /** Appending to the level of its price queues the order by price, then time. */
  lemma AppendedEnqueue(s: Snap, side: Side, l: nat, a: nat)
    requires Coherent(s) && Joins(s, side, l, a) && Room(s, side, l, a)
    ensures FlatView(Appended(s, side, l, a), side) == PriceTime.Enqueue(side, FlatView(s, side), Strip(s.os[a]))
  {
    hide SideOk, Indexed, Append;
    AppendedFlat(s, side, l, a);
    var n := Offset(s.At(side).ids, l, |s.At(side).ids[l]|);
    forall i | 0 <= i < |FlatView(s, side)|
      ensures i < n <==> !PriceTime.Better(side, s.os[a].price, FlatView(s, side)[i].price)
    {
      LevelBorder(s, side, l, i);
    }
    EnqueueAt(side, FlatView(s, side), n, Strip(s.os[a]));
  }

  lemma AppendedIs(s: Snap, s': Snap, side: Side, l: nat, a: nat)
    requires Room(s, side, l, a)
    requires s'.os == Append(s.os, s.At(side).levels[l].tail, a) && s'.free == s.free
    requires s'.m == s.m[OrderKey(s.os[a]) := Location(side, s.os[a].price, a)]
    requires s'.At(side.Opposite()) == s.At(side.Opposite())
    requires s'.At(side).ids == s.At(side).ids[l := s.At(side).ids[l] + [a]]
    requires s'.At(side).levels == s.At(side).levels[l := Longer(s.At(side).levels[l], a, s.os[a].remaining)]
    ensures s' == Appended(s, side, l, a)
  {
    hide Append;
  }

  /** Link order `a` at the end of level `l` and add its quantity to the level. */
  method LinkInto(b: Book, side: Side, l: nat, a: nat)
    requires b.Wf() && Room(b.S(), side, l, a)
    modifies b.At(side), b.At(side).slots, b.pool`os, b.pool.orders
    ensures b.Wf() && b.pool.os == Append(old(b.pool.os), old(b.At(side).levels[l]).tail, a)
    ensures b.At(side).ids == old(b.At(side).ids)[l := old(b.At(side).ids[l]) + [a]]
    ensures b.At(side).levels == old(b.At(side).levels)[l := Longer(old(b.At(side).levels[l]), a, old(b.pool.os[a]).remaining)]
  {
    hide Append, Pool.Valid, BookSide.Valid, ProbeTable.ProbeMap.Valid;
    var half, order := b.At(side), b.pool.Get(a);
    ListAppend(b.pool, half, l, a);
    half.Put(l, half.Get(l).(total := Wrap32(half.Get(l).total + order.remaining)), half.ids[l]);
  }

  /** Link order `a` at the end of level `l` and record it in the map. */
  method JoinLevel(b: Book, side: Side, l: nat, a: nat)
    requires b.Wf() && Room(b.S(), side, l, a) && b.pool.os[a].side == side
    requires OrderKey(b.pool.os[a]) !in b.orderMap.m && !ProbeTable.Sentinel(OrderKey(b.pool.os[a]))
    requires ProbeTable.Room(b.orderMap.t, b.orderMap.hash(OrderKey(b.pool.os[a])), b.orderMap.limit, {})
    modifies b.At(side), b.At(side).slots, b.orderMap, b.orderMap.slots, b.pool`os, b.pool.orders
    ensures b.Wf() && b.S() == Appended(old(b.S()), side, l, a)
  {
    hide *;
    Sides(b);
    ghost var s := b.S();
    RoomBound(s, side, l, a);
    var order := b.pool.Get(a);
    OrderKeyIs(order);
    LinkInto(b, side, l, a);
    var inserted := b.orderMap.Insert(Key(order.userId, order.userOrderId), Location(order.side, order.price, a));
    assert b.orderMap.Valid() && b.orderMap.m == s.m[OrderKey(order) := Location(side, order.price, a)];
    WfKept(b);
    assert b.S().At(side.Opposite()) == s.At(side.Opposite());
    AppendedIs(s, b.S(), side, l, a);
  }

  lemma RoomBound(s: Snap, side: Side, l: nat, a: nat)
    requires Room(s, side, l, a)
    ensures a < |s.os|
  {
  }

  lemma WfKept(b: Book)
    requires b.bids.Valid() && b.asks.Valid() && b.bids.side == Buy && b.asks.side == Sell
    requires b.bids != b.asks && b.bids.slots != b.asks.slots && b.orderMap.Valid() && b.pool.Valid()
    ensures b.Wf()
  {
    hide Pool.Valid, BookSide.Valid, ProbeTable.ProbeMap.Valid;
  }

  lemma OrderKeyIs(o: Order)
    ensures OrderKey(o) == Key(o.userId, o.userOrderId)
  {
  }

  lemma JoinsFacts(s: Snap, side: Side, l: nat, a: nat)
    requires Joins(s, side, l, a)
    ensures a < |s.os| && l < |s.At(side).levels| && s.os[a].side == side
    ensures |s.os| == POOL ==> a < POOL
  {
  }

  /** Every level but `l` has orders. */
  ghost predicate NoneEmptyBut(ids: seq<seq<nat>>, l: nat) {
    forall j :: 0 <= j < |ids| && j != l ==> ids[j] != []
  }

  ghost predicate LevelRoom(h: Half, price: u32) {
    |h.levels| < MAX_LEVELS || exists l :: 0 <= l < |h.levels| && h.levels[l].price == price
  }

  lemma NoneEmptyOpened(ids: seq<seq<nat>>, l: nat)
    requires NoneEmpty(ids) && l <= |ids|
    ensures NoneEmptyBut(InsertAt(ids, l, []), l)
  {
  }

  lemma OpenedIs(s: Snap, s': Snap, side: Side, l: nat, price: u32)
    requires Coherent(s) && price > 0 && l <= |s.At(side).levels| == |s.At(side).ids|
    requires s'.os == s.os && s'.free == s.free && s'.m == s.m && s'.At(side.Opposite()) == s.At(side.Opposite())
    requires s'.At(side) == Half(InsertAt(s.At(side).levels, l, Level(price, 0, NIL, NIL)), InsertAt(s.At(side).ids, l, []))
    requires Sorted(side, s'.At(side).levels) && NoneEmpty(s.At(side).ids)
    ensures Coherent(s') && l < |s'.At(side).levels| == |s'.At(side).ids| && s'.At(side).levels[l].price == price
    ensures forall d :: Flat(s'.At(d)) == Flat(s.At(d)) && FlatView(s', d) == FlatView(s, d)
    ensures NoneEmptyBut(s'.At(side).ids, l)
  {
    hide SideOk, Indexed, Flat, View, NoneEmpty, NoneEmptyBut;
    OpenedCoherent(s, side, l, price);
    NoneEmptyOpened(s.At(side).ids, l);
    assert s' == Opened(s, side, l, price);
  }

  /** The level of a price, opened if there is none. */
  method FindOrOpen(b: Book, side: Side, price: u32) returns (l: nat)
    requires b.Wf() && Coherent(b.S()) && price > 0 && NoneEmpty(b.At(side).ids)
    requires LevelRoom(b.S().At(side), price)
    modifies b.At(side), b.At(side).slots
    ensures b.Wf() && Coherent(b.S()) && l < |b.At(side).levels| && b.At(side).levels[l].price == price
    ensures NoneEmptyBut(b.At(side).ids, l)
    ensures forall d :: Flat(b.S().At(d)) == old(Flat(b.S().At(d))) && FlatView(b.S(), d) == old(FlatView(b.S(), d))
  {
    hide *;
    Sides(b);
    ghost var s := b.S();
    CoherentSorted(s, side);
    var idx := b.At(side).Find(price);
    if idx == -1 {
      LevelRoomLeft(s.At(side), price);
      l := b.At(side).Insert(price);
      WfKept(b);
      assert b.S().At(side.Opposite()) == s.At(side.Opposite());
      OpenedIs(s, b.S(), side, l, price);
    } else {
      l := idx;
      NoneEmptyAny(b.At(side).ids, l);
    }
  }

  lemma CoherentSorted(s: Snap, side: Side)
    requires Coherent(s)
    ensures Sorted(side, s.At(side).levels) && |s.At(side).levels| == |s.At(side).ids|
  {
  }

  lemma LevelRoomLeft(h: Half, price: u32)
    requires LevelRoom(h, price) && forall i :: 0 <= i < |h.levels| ==> h.levels[i].price != price
    ensures |h.levels| < MAX_LEVELS
  {
  }

  lemma NoneEmptyAny(ids: seq<seq<nat>>, l: nat)
    requires NoneEmpty(ids)
    ensures NoneEmptyBut(ids, l)
  {
  }

  /** Rest order `a` in the book: at its price level, behind the orders already there. */
  method AddToBook(b: Book, side: Side, a: nat)
    requires b.Wf() && Coherent(b.S()) && InHand(b.S(), a) && NoneEmpty(b.At(side).ids)
    requires b.pool.os[a].price > 0 && OrderOk(b.pool.os[a], side, b.pool.os[a].price)
    requires LevelRoom(b.S().At(side), b.pool.os[a].price)
    requires OrderKey(b.pool.os[a]) !in b.orderMap.m && !ProbeTable.Sentinel(OrderKey(b.pool.os[a]))
    requires ProbeTable.Room(b.orderMap.t, b.orderMap.hash(OrderKey(b.pool.os[a])), b.orderMap.limit, {})
    modifies b.At(side), b.At(side).slots, b.orderMap, b.orderMap.slots, b.pool`os, b.pool.orders
    ensures b.Wf() && Coherent(b.S()) && NoneEmpty(b.At(side).ids)
    ensures FlatView(b.S(), side) == PriceTime.Enqueue(side, old(FlatView(b.S(), side)), Strip(old(b.pool.os[a])))
    ensures FlatView(b.S(), side.Opposite()) == old(FlatView(b.S(), side.Opposite()))
    ensures Elems(Flat(b.S().At(side))) == old(Elems(Flat(b.S().At(side)))) + {a}
    ensures forall i: nat :: i < POOL && i != a && i !in old(Flat(b.S().At(side))) ==> b.pool.os[i] == old(b.pool.os)[i]
  {
    hide *;
    Sides(b);
    ghost var s0 := b.S();
    InHandBound(s0, a);
    var l := FindOrOpen(b, side, b.pool.Get(a).price);
    ghost var s := b.S();
    JoinsNow(s0, s, side, l, a);
    JoinsRoom(s, side, l, a);
    JoinsFacts(s, side, l, a);
    JoinLevel(b, side, l, a);
    Joined(s, side, l, a);
  }

  lemma InHandBound(s: Snap, a: nat)
    requires InHand(s, a)
    ensures a < POOL && a !in s.free
  {
  }

  lemma JoinsNow(s0: Snap, s: Snap, side: Side, l: nat, a: nat)
    requires InHand(s0, a) && s.os == s0.os && |s.os| == POOL && s.free == s0.free && s.m == s0.m
    requires forall d :: Flat(s.At(d)) == Flat(s0.At(d))
    requires l < |s.At(side).levels| && OrderOk(s.os[a], side, s.At(side).levels[l].price)
    ensures Joins(s, side, l, a)
  {
    assert Flat(s.At(Buy)) == Flat(s0.At(Buy)) && Flat(s.At(Sell)) == Flat(s0.At(Sell));
  }

  lemma NoneEmptyJoined(ids: seq<seq<nat>>, l: nat, a: nat)
    requires NoneEmptyBut(ids, l) && l < |ids|
    ensures NoneEmpty(ids[l := ids[l] + [a]])
  {
  }

  lemma Joined(s: Snap, side: Side, l: nat, a: nat)
    requires Coherent(s) && Joins(s, side, l, a) && Room(s, side, l, a) && NoneEmptyBut(s.At(side).ids, l)
    requires OrderKey(s.os[a]) !in s.m
    ensures var s' := Appended(s, side, l, a);
            && Coherent(s') && NoneEmpty(s'.At(side).ids)
            && FlatView(s', side) == PriceTime.Enqueue(side, FlatView(s, side), Strip(s.os[a]))
            && FlatView(s', side.Opposite()) == FlatView(s, side.Opposite())
            && Elems(Flat(s'.At(side))) == Elems(Flat(s.At(side))) + {a}
            && |s'.os| == |s.os|
            && forall i: nat :: i < |s.os| && i != a && i !in Flat(s.At(side)) ==> s'.os[i] == s.os[i]
  {
    hide SideOk, Indexed, View, PriceTime.Enqueue;
    AppendedCoherent(s, side, l, a);
    AppendedEnqueue(s, side, l, a);
    AppendedOtherHalf(s, side, l, a);
    AppendedFlat(s, side, l, a);
    var h := s.At(side);
    InsertMembers(Flat(h), Offset(h.ids, l, |h.ids[l]|), a);
    NoneEmptyJoined(h.ids, l, a);
    AppendedElsewhere(s, side, l, a);
  }

  lemma AppendedElsewhere(s: Snap, side: Side, l: nat, a: nat)
    requires HalfOk(s, side) && Joins(s, side, l, a) && Room(s, side, l, a)
    ensures var s' := Appended(s, side, l, a);
            && |s'.os| == |s.os|
            && forall i: nat :: i < |s.os| && i != a && i !in Flat(s.At(side)) ==> s'.os[i] == s.os[i]
  {
    var h := s.At(side);
    ConcatSplit(h.ids, l);
    AppendChain(s.os, h.ids[l], h.levels[l].head, h.levels[l].tail, a);
  }

  // ----- Adding an order -----

  /** The pool slots of the free list and of this book. */
  ghost function Slots(s: Snap): set<nat> {
    Elems(s.free) + Elems(Flat(s.bids)) + Elems(Flat(s.asks))
  }

  /** Pool slots outside `own` hold what they held. */
  ghost predicate Elsewhere(os: seq<Order>, os': seq<Order>, own: set<nat>) {
    |os| == |os'| && forall i: nat :: i < |os| && i !in own ==> os'[i] == os[i]
  }

  function InitOrder(o: NewOrder): Order {
    Order(o.user, o.oid, o.price, o.quantity, o.quantity, o.side, o.price == 0, o.client, NIL, NIL)
  }

  lemma InitRemaining(o: NewOrder)
    ensures InitOrder(o).remaining == o.quantity
  {
  }

  lemma Taken(s: Snap, s': Snap, a: nat, o: Order)
    requires Coherent(s) && a < POOL && s.free == s'.free + [a] && a !in s'.free
    requires s'.os == s.os[a := o] && s'.m == s.m && s'.At(Buy) == s.At(Buy) && s'.At(Sell) == s.At(Sell)
    ensures Coherent(s') && InHand(s', a) && (forall d :: FlatView(s', d) == FlatView(s, d))
    ensures Slots(s) == Slots(s') + {a} && Elsewhere(s.os, s'.os, Slots(s))
  {
    hide SideOk, Indexed, Flat, View;
    assert a in s.free;
    Outside(s, a, o);
    assert s.(os := s.os[a := o]) == s'.(free := s.free);
    FreeIrrelevant(s'.(free := s.free), s'.free);
  }

  /** A shorter free list disturbs nothing. */
  lemma FreeIrrelevant(s: Snap, free: seq<nat>)
    requires Coherent(s) && forall i :: i in free ==> !Linked(s, i)
    ensures Coherent(s.(free := free)) && (forall d :: FlatView(s.(free := free), d) == FlatView(s, d))
  {
    hide SideOk;
    var s' := s.(free := free);
    assert forall i: nat :: Linked(s', i) <==> Linked(s, i);
    forall d
      ensures FlatView(s', d) == FlatView(s, d)
    {
      if d == Buy {} else {}
    }
  }

  /** Allocate an order and fill it in; NIL when the pool is exhausted. */
  method TakeOrder(b: Book, o: NewOrder) returns (a: int)
    requires b.Valid()
    modifies b.pool, b.pool.orders
    ensures b.Valid() && (a == NIL <==> old(b.pool.free) == [])
    ensures a == NIL ==> b.S() == old(b.S())
    ensures a != NIL ==>
      && 0 <= a < POOL && InHand(b.S(), a) && b.pool.os[a] == InitOrder(o)
      && (forall d :: FlatView(b.S(), d) == old(FlatView(b.S(), d)))
      && old(Slots(b.S())) == Slots(b.S()) + {a}
      && Elsewhere(old(b.pool.os), b.pool.os, old(Slots(b.S())))
  {
    hide *;
    Sides(b);
    ghost var s := b.S();
    PoolConstants();
    ValidParts(b);
    a := b.pool.Alloc();
    if a == NIL {
      SnapSame(s, b.S());
    } else {
      b.pool.Put(a, InitOrder(o));
      Taken(s, b.S(), a, InitOrder(o));
    }
    WfKept(b);
    assert NoneEmpty(b.At(Buy).ids) && NoneEmpty(b.At(Sell).ids);
    ValidIs(b, Buy);
  }

  lemma SnapSame(s: Snap, s': Snap)
    requires s'.os == s.os && s'.free == s.free && s'.m == s.m && s'.At(Buy) == s.At(Buy) && s'.At(Sell) == s.At(Sell)
    ensures s' == s
  {
  }

  /** The map's keys are the keys of the orders in view. */
  lemma LiveIs(s: Snap, key: nat)
    requires Coherent(s)
    ensures key in s.m <==> PriceTime.HasKey(FlatView(s, Buy), key) || PriceTime.HasKey(FlatView(s, Sell), key)
  {
    if key in s.m {
      var i := s.m[key].order;
      LinkedFacts(s, i);
      var flat := Flat(s.At(s.os[i].side));
      var k :| 0 <= k < |flat| && flat[k] == i;
      assert RestKey(FlatView(s, s.os[i].side)[k]) == key;
    }
    forall d, k | 0 <= k < |FlatView(s, d)| && RestKey(FlatView(s, d)[k]) == key
      ensures key in s.m
    {
      var i := Flat(s.At(d))[k];
      assert Linked(s, i) by { if d == Buy {} else {} }
      LinkedFacts(s, i);
    }
  }

  /** The order in hand must rest. */
  ghost predicate MustRest(a: Order) {
    a.remaining > 0 && !a.market
  }

  /** The level, the key and the map have room for the order in hand. */
  ghost predicate RestReady(b: Book, a: nat, o: NewOrder)
    requires b.Wf() && a < POOL
    reads b.bids, b.bids.slots, b.asks, b.asks.slots, b.orderMap, b.orderMap.slots
    reads b.pool, b.pool.orders, b.pool.freeList
  {
    var key := OrderKey(b.pool.os[a]);
    && LevelRoom(b.S().At(o.side), o.price) && key !in b.orderMap.m && !ProbeTable.Sentinel(key)
    && ProbeTable.Room(b.orderMap.t, b.orderMap.hash(key), b.orderMap.limit, {})
  }

  lemma RestReadyParts(b: Book, a: nat, o: NewOrder)
    requires b.Wf() && a < POOL && RestReady(b, a, o)
    ensures var key := OrderKey(b.pool.os[a]);
            && LevelRoom(b.S().At(o.side), o.price) && key !in b.orderMap.m && !ProbeTable.Sentinel(key)
            && ProbeTable.Room(b.orderMap.t, b.orderMap.hash(key), b.orderMap.limit, {})
  {
  }

  lemma RestReadyIs(b: Book, a: nat, o: NewOrder, h: nat)
    requires b.Wf() && a < POOL && Carries(b.pool.os[a], o) && h == b.orderMap.hash(Key(o.user, o.oid))
    requires LevelRoom(b.S().At(o.side), o.price) && Key(o.user, o.oid) !in b.orderMap.m
    requires !ProbeTable.Sentinel(Key(o.user, o.oid))
    requires WillFit(b.orderMap.t, b.orderMap.limit, h, b.S(), o.side.Opposite(), a, o)
    requires PriceTime.FilledKeys(o, b.pool.os[a].remaining, FlatView(b.S(), o.side.Opposite())) == {}
    ensures RestReady(b, a, o)
  {
    hide FlatView, PriceTime.FilledKeys, ProbeTable.Room, LevelRoom, Pool.Valid, BookSide.Valid, ProbeTable.ProbeMap.Valid;
  }

  /** Queue what is left of a limit order; give any other order back to the pool. */
  method RestOrFree(b: Book, a: nat, ghost o: NewOrder)
    requires b.Valid() && InHand(b.S(), a) && Carries(b.pool.os[a], o)
    requires MustRest(b.pool.os[a]) ==> RestReady(b, a, o)
    modifies b.At(o.side), b.At(o.side).slots, b.orderMap, b.orderMap.slots, b.pool, b.pool.orders, b.pool.freeList
    ensures b.Valid()
    ensures FlatView(b.S(), o.side) == if old(MustRest(b.pool.os[a]))
      then PriceTime.Enqueue(o.side, old(FlatView(b.S(), o.side)), Strip(old(b.pool.os[a])))
      else old(FlatView(b.S(), o.side))
    ensures FlatView(b.S(), o.side.Opposite()) == old(FlatView(b.S(), o.side.Opposite()))
    ensures Slots(b.S()) == old(Slots(b.S())) + {a}
    ensures Elsewhere(old(b.pool.os), b.pool.os, old(Slots(b.S())) + {a})
  {
    hide *;
    Sides(b);
    ghost var s := b.S();
    ValidParts(b);
    HandFacts(s, a, o);
    var order := b.pool.Get(a);
    if order.remaining > 0 && !order.market {
      RestReadyParts(b, a, o);
      AddToBook(b, order.side, a);
      RestedSlots(s, b.S(), order.side, a);
    } else {
      b.pool.Free(a);
      FreedSlots(s, b.S(), a);
      WfKept(b);
    }
    assert NoneEmpty(b.At(o.side).ids) && NoneEmpty(b.At(o.side.Opposite()).ids);
    ValidIs(b, o.side);
  }

  lemma HandFacts(s: Snap, a: nat, o: NewOrder)
    requires InHand(s, a) && |s.os| == POOL && Carries(s.os[a], o)
    ensures a < POOL && a !in s.free && s.os[a].side == o.side && s.os[a].price == o.price
    ensures MustRest(s.os[a]) <==> s.os[a].remaining > 0 && !s.os[a].market
    ensures MustRest(s.os[a]) ==> s.os[a].price > 0 && OrderOk(s.os[a], o.side, s.os[a].price)
  {
    hide Linked;
  }

  lemma ValidParts(b: Book)
    requires b.Valid()
    ensures b.Wf() && Coherent(b.S()) && NoneEmpty(b.bids.ids) && NoneEmpty(b.asks.ids)
    ensures forall d :: NoneEmpty(b.At(d).ids)
  {
    hide Coherent, NoneEmpty, Book.Wf;
  }

  lemma ValidIs(b: Book, side: Side)
    requires b.Wf() && Coherent(b.S()) && NoneEmpty(b.At(side).ids)
    requires NoneEmpty(b.At(side.Opposite()).ids) || NoneEmpty(b.At(if side == Buy then Sell else Buy).ids)
    ensures b.Valid()
  {
    hide Coherent, NoneEmpty, Book.Wf;
  }

  lemma RestedSlots(s: Snap, s': Snap, side: Side, a: nat)
    requires s'.free == s.free && |s'.os| == |s.os| == POOL
    requires s'.At(side.Opposite()) == s.At(side.Opposite())
    requires Elems(Flat(s'.At(side))) == Elems(Flat(s.At(side))) + {a}
    requires forall i: nat :: i < POOL && i != a && i !in Flat(s.At(side)) ==> s'.os[i] == s.os[i]
    ensures Slots(s') == Slots(s) + {a} && Elsewhere(s.os, s'.os, Slots(s) + {a})
  {
    hide Flat;
    if side == Buy {} else {}
  }

  lemma FreedSlots(s: Snap, s': Snap, a: nat)
    requires Coherent(s) && InHand(s, a) && s'.free == s.free + [a] && s'.os == s.os && s'.m == s.m
    requires s'.At(Buy) == s.At(Buy) && s'.At(Sell) == s.At(Sell)
    ensures Coherent(s') && Slots(s') == Slots(s) + {a} && Elsewhere(s.os, s'.os, Slots(s) + {a})
    ensures forall d :: FlatView(s', d) == FlatView(s, d)
  {
    hide SideOk, Indexed, Flat, View;
    assert s' == s.(free := s.free + [a]);
    FreeIrrelevant(s, s.free + [a]);
  }

  /** When an order has to rest: a usable key that is not live once the order has matched, a
      price level or room for one, and room in the map once the filled orders are gone. */
  ghost predicate FitsIn(v: PriceTime.Book, own: Half, t: seq<ProbeTable.Slot<Location>>, h: nat, limit: nat, o: NewOrder)
    requires h < |t| && limit <= |t|
  {
    && !ProbeTable.Sentinel(Key(o.user, o.oid)) && !PriceTime.LiveAfter(v, o)
    && LevelRoom(own, o.price)
    && ProbeTable.Room(t, h, limit, PriceTime.FilledKeys(o, o.quantity, v.At(o.side.Opposite())))
  }

  ghost predicate Fits(b: Book, o: NewOrder)
    requires b.Valid()
    reads b, b.bids, b.bids.slots, b.asks, b.asks.slots, b.orderMap, b.orderMap.slots
    reads b.pool, b.pool.orders, b.pool.freeList
  {
    FitsIn(b.V(), b.S().At(o.side), b.orderMap.t, b.orderMap.hash(Key(o.user, o.oid)), b.orderMap.limit, o)
  }

  lemma FitsIs(b: Book, o: NewOrder)
    requires b.Valid()
    ensures b.orderMap.limit <= |b.orderMap.t| && b.orderMap.hash(Key(o.user, o.oid)) < |b.orderMap.t|
    ensures Fits(b, o)
        <==> FitsIn(b.V(), b.S().At(o.side), b.orderMap.t, b.orderMap.hash(Key(o.user, o.oid)), b.orderMap.limit, o)
  {
    hide FitsIn, Coherent, NoneEmpty, ProbeTable.ProbeMap.Valid;
  }

  /** The run that matches a freshly initialised order. */
  ghost function Opening(b: Book, out: OutputBuffer, a: nat, o: NewOrder): Run
    reads b, b.bids, b.asks, b.orderMap, b.pool, out
  {
    Run(b.S(), out.sent, o.side.Opposite(), a, o, b.orderMap.hash(Key(o.user, o.oid)), PriceTime.Rests(b.V(), o))
  }

  lemma OpeningRuns(b: Book, out: OutputBuffer, a: nat, o: NewOrder)
    requires b.Valid() && out.Valid() && InHand(b.S(), a) && b.pool.os[a] == InitOrder(o) && o.quantity > 0
    requires PriceTime.Rests(b.V(), o) ==> Fits(b, o)
    ensures Running(b, out, Opening(b, out, a, o), []) && NoneEmpty(b.At(o.side.Opposite()).ids)
  {
    hide Coherent, PriceTime.Match, BookSide.Valid, Pool.Valid, ProbeTable.ProbeMap.Valid, NoneEmpty, PriceTime.Rests;
    RunningStart(b, out, Opening(b, out, a, o));
  }

  lemma KeyAfter(s: Snap, v: PriceTime.Book, o: NewOrder)
    requires Coherent(s)
    requires FlatView(s, o.side.Opposite()) == PriceTime.MatchIn(v, o).left && FlatView(s, o.side) == v.At(o.side)
    ensures Key(o.user, o.oid) in s.m <==> PriceTime.LiveAfter(v, o)
  {
    hide Coherent, FlatView, PriceTime.MatchIn, PriceTime.HasKey;
    LiveIs(s, Key(o.user, o.oid));
  }

  lemma SlotsKept(s0: Snap, s: Snap, side: Side, a: nat)
    requires Owned(s, side) == Owned(s0, side) && s.At(side.Opposite()) == s0.At(side.Opposite())
    requires Untouched(s0, s, side, a)
    ensures Slots(s) == Slots(s0) && Elsewhere(s0.os, s.os, Slots(s0) + {a})
  {
    hide Flat;
    if side == Buy {
      assert Slots(s) == Owned(s, Buy) + Elems(Flat(s.asks));
      assert Slots(s0) == Owned(s0, Buy) + Elems(Flat(s0.asks));
    } else {
      assert Slots(s) == Owned(s, Sell) + Elems(Flat(s.bids));
      assert Slots(s0) == Owned(s0, Sell) + Elems(Flat(s0.bids));
    }
  }

  /** What the finished match leaves, in terms of the abstract book `v` it started from. */
  lemma Matched(s0: Snap, s: Snap, a: nat, o: NewOrder, v: PriceTime.Book, trades: seq<Msg>)
    requires Coherent(s0) && a < POOL && s0.os[a] == InitOrder(o)
    requires Progress(s0, s, o.side.Opposite(), a, o, v.symbol, trades)
    requires v.bids == FlatView(s0, Buy) && v.asks == FlatView(s0, Sell)
    requires PriceTime.Match(v.symbol, o, o.quantity, FlatView(s0, o.side.Opposite()))
          == PriceTime.Matched(trades, s.os[a].remaining, FlatView(s, o.side.Opposite()))
    ensures Coherent(s) && InHand(s, a) && Carries(s.os[a], o) && (MustRest(s.os[a]) <==> PriceTime.Rests(v, o))
    ensures Strip(s.os[a]) == Resting(o.user, o.oid, o.client, o.price, o.quantity, PriceTime.MatchIn(v, o).rem)
    ensures FlatView(s, o.side.Opposite()) == PriceTime.MatchIn(v, o).left && FlatView(s, o.side) == v.At(o.side)
    ensures PriceTime.MatchIn(v, o).trades == trades && s.At(o.side) == s0.At(o.side)
    ensures Slots(s) == Slots(s0) && Elsewhere(s0.os, s.os, Slots(s0) + {a})
    ensures Key(o.user, o.oid) in s.m <==> PriceTime.LiveAfter(v, o)
  {
    hide SideOk, Indexed, Flat, View, PriceTime.Match;
    var side := o.side.Opposite();
    assert side.Opposite() == o.side;
    SlotsKept(s0, s, side, a);
    KeyAfter(s, v, o);
  }

  lemma OpeningFacts(b: Book, out: OutputBuffer, a: nat, o: NewOrder)
    requires b.Valid() && PriceTime.Rests(b.V(), o) ==> Fits(b, o)
    ensures Opening(b, out, a, o) == Run(b.S(), out.sent, o.side.Opposite(), a, o,
                                         b.orderMap.hash(Key(o.user, o.oid)), PriceTime.Rests(b.V(), o))
    ensures b.Valid() && PriceTime.Rests(b.V(), o) ==>
      && LevelRoom(b.S().At(o.side), o.price) && !PriceTime.LiveAfter(b.V(), o)
      && !ProbeTable.Sentinel(Key(o.user, o.oid))
  {
    hide Coherent, PriceTime.Rests, PriceTime.LiveAfter, LevelRoom, NoneEmpty, Book.Wf;
  }

  /** Run the match of a freshly initialised order to its end. */
  method MatchFresh(b: Book, out: OutputBuffer, a: nat, ghost o: NewOrder)
    requires b.Valid() && out.Valid() && InHand(b.S(), a) && b.pool.os[a] == InitOrder(o) && o.quantity > 0
    requires PriceTime.Rests(b.V(), o) ==> Fits(b, o)
    modifies b.At(o.side.Opposite()), b.At(o.side.Opposite()).slots, b.orderMap, b.orderMap.slots
    modifies b.pool, b.pool.orders, b.pool.freeList, out, out.messages
    ensures b.Valid() && out.Valid() && InHand(b.S(), a) && Carries(b.pool.os[a], o)
    ensures MustRest(b.pool.os[a]) <==> PriceTime.Rests(old(b.V()), o)
    ensures MustRest(b.pool.os[a]) ==> RestReady(b, a, o)
    ensures Strip(b.pool.os[a]) == Resting(o.user, o.oid, o.client, o.price, o.quantity, PriceTime.MatchIn(old(b.V()), o).rem)
    ensures FlatView(b.S(), o.side.Opposite()) == PriceTime.MatchIn(old(b.V()), o).left
    ensures FlatView(b.S(), o.side) == old(b.V().At(o.side))
    ensures out.sent == Keep(old(out.sent) + PriceTime.MatchIn(old(b.V()), o).trades)
    ensures Slots(b.S()) == old(Slots(b.S())) && Elsewhere(old(b.pool.os), b.pool.os, old(Slots(b.S())) + {a})
  {
    hide *;
    Sides(b);
    ghost var r, v, s0 := Opening(b, out, a, o), b.V(), b.S();
    InHandBound(s0, a);
    InitRemaining(o);
    ValidParts(b);
    OpeningRuns(b, out, a, o);
    OpeningFacts(b, out, a, o);
    var trades, passes := MatchOrder(b, out, a, r);
    RunningParts(b, out, r, trades);
    Matched(s0, b.S(), a, o, v, trades);
    if r.fits {
      RestReadyIs(b, a, o, r.h);
    }
    assert NoneEmpty(b.At(o.side).ids);
    ValidIs(b, o.side);
  }

  /** Match the order in hand, then rest or free it. */
  method SettleOrder(b: Book, out: OutputBuffer, a: nat, ghost o: NewOrder)
    requires b.Valid() && out.Valid() && InHand(b.S(), a) && b.pool.os[a] == InitOrder(o) && o.quantity > 0
    requires PriceTime.Rests(b.V(), o) ==> Fits(b, o)
    modifies b.At(o.side), b.At(o.side).slots, b.At(o.side.Opposite()), b.At(o.side.Opposite()).slots
    modifies b.orderMap, b.orderMap.slots
    modifies b.pool, b.pool.orders, b.pool.freeList, out, out.messages
    ensures b.Valid() && out.Valid() && b.V() == PriceTime.Settle(old(b.V()), o)
    ensures out.sent == Keep(old(out.sent) + PriceTime.MatchIn(old(b.V()), o).trades)
    ensures Slots(b.S()) == old(Slots(b.S())) + {a}
    ensures Elsewhere(old(b.pool.os), b.pool.os, old(Slots(b.S())) + {a})
  {
    hide *;
    Sides(b);
    ghost var v := b.V();
    MatchFresh(b, out, a, o);
    ghost var os := b.pool.os;
    assert b.V() == v.(bids := b.V().bids, asks := b.V().asks);
    label Matched:
    RestOrFree(b, a, o);
    assert out.sent == old@Matched(out.sent) && out.Valid();
    ElsewhereTwice(old(b.pool.os), os, b.pool.os, old(Slots(b.S())) + {a});
    assert b.V() == v.(bids := b.V().bids, asks := b.V().asks);
    Settled(b, v, o);
  }

  lemma ElsewhereTwice(os: seq<Order>, os1: seq<Order>, os2: seq<Order>, own: set<nat>)
    requires Elsewhere(os, os1, own) && Elsewhere(os1, os2, own)
    ensures Elsewhere(os, os2, own)
  {
  }

  lemma Settled(b: Book, v: PriceTime.Book, o: NewOrder)
    requires b.V() == v.(bids := b.V().bids, asks := b.V().asks)
    requires FlatView(b.S(), o.side.Opposite()) == PriceTime.MatchIn(v, o).left
    requires FlatView(b.S(), o.side) == if PriceTime.Rests(v, o)
      then PriceTime.Enqueue(o.side, v.At(o.side), Resting(o.user, o.oid, o.client, o.price, o.quantity, PriceTime.MatchIn(v, o).rem))
      else v.At(o.side)
    ensures b.V() == PriceTime.Settle(v, o)
  {
    hide FlatView, PriceTime.Rests, PriceTime.MatchIn, PriceTime.Enqueue;
  }

  /** A new order: acknowledge it, match it, queue or discard the rest, announce the top.
      An exhausted pool drops the order without a message. */
  method AddOrder(b: Book, out: OutputBuffer, o: NewOrder)
    requires b.Valid() && out.Valid()
    requires b.pool.free != [] ==> o.quantity > 0 && (PriceTime.Rests(b.V(), o) ==> Fits(b, o))
    modifies b`seenBid, b`seenAsk, b`bidActive, b`askActive
    modifies b.bids, b.bids.slots, b.asks, b.asks.slots, b.orderMap, b.orderMap.slots
    modifies b.pool, b.pool.orders, b.pool.freeList, out, out.messages
    ensures b.Valid() && out.Valid()
    ensures old(b.pool.free) == [] ==> b.V() == old(b.V()) && out.sent == old(out.sent) && b.S() == old(b.S())
    ensures old(b.pool.free) != [] ==>
      && b.V() == PriceTime.AddOrder(old(b.V()), o).book
      && out.sent == Keep(old(out.sent) + PriceTime.AddOrder(old(b.V()), o).msgs)
    ensures Slots(b.S()) == old(Slots(b.S())) && Elsewhere(old(b.pool.os), b.pool.os, old(Slots(b.S())))
  {
    hide *;
    Sides(b);
    PoolConstants();
    assert o.side == Buy || o.side == Sell;
    ghost var v, own, os, sent := b.V(), Slots(b.S()), b.pool.os, out.sent;
    FitsIs(b, o);
    ghost var h := b.S().At(o.side);
    var a := TakeOrder(b, o);
    if a == NIL {
      ElsewhereSame(os, own);
      return;
    }
    ghost var own1, os1 := Slots(b.S()), b.pool.os;
    assert b.V() == v by { ViewsSame(v, b.V()); }
    assert b.S().At(o.side) == h;
    FitsIs(b, o);
    out.Add(Ack(b.symbol, o.user, o.oid));
    assert b.Valid() && b.V() == v;
    FitsIs(b, o);
    SettleOrder(b, out, a, o);
    ElsewhereTwice(os, os1, b.pool.os, own);
    CheckTop(b, out);
    AddOrderMsgs(v, o, sent);
  }

  lemma ElsewhereSame(os: seq<Order>, own: set<nat>)
    ensures Elsewhere(os, os, own)
  {
  }

  lemma ViewsSame(v: PriceTime.Book, w: PriceTime.Book)
    requires w == v.(bids := w.bids, asks := w.asks) && w.bids == v.bids && w.asks == v.asks
    ensures w == v
  {
  }

  lemma AddOrderMsgs(v: PriceTime.Book, o: NewOrder, sent: seq<Msg>)
    ensures PriceTime.AddOrder(v, o).book == PriceTime.Announce(PriceTime.Settle(v, o)).book
    ensures Keep(Keep(Keep(sent + [Ack(v.symbol, o.user, o.oid)]) + PriceTime.MatchIn(v, o).trades)
                 + PriceTime.Announce(PriceTime.Settle(v, o)).msgs)
         == Keep(sent + PriceTime.AddOrder(v, o).msgs)
  {
    hide PriceTime.MatchIn, PriceTime.Settle, PriceTime.Announce, Keep;
    var ack, m := [Ack(v.symbol, o.user, o.oid)], PriceTime.MatchIn(v, o).trades;
    KeepAppend(sent, ack, m);
    KeepAppend(sent, ack + m, PriceTime.Announce(PriceTime.Settle(v, o)).msgs);
  }
}
