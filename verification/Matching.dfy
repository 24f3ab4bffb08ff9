/** Matching an incoming order against the opposite side, level by level and
    order by order, under the iteration caps of the source. */
module Matching {
  import opened Orders
  import opened Sequences
  import PriceTime
  import opened OrderPool
  import opened PriceLevels
  import ProbeTable
  import opened BookState
  import opened OrderBook

  const MAX_MATCH_ITERATIONS: nat := 10240
  const MAX_ORDERS_AT_PRICE_LEVEL: nat := 200

  lemma Caps()
    ensures POOL == 8192 && NIL == -1 && MAX_MATCH_ITERATIONS == 10240 && MAX_ORDERS_AT_PRICE_LEVEL == 200
  {
  }

  ghost function Min(x: u32, y: u32): u32 {
    if x < y then x else y
  }

  lemma MinIs(x: u32, y: u32)
    ensures Min(x, y) == if x < y then x else y
  {
  }

  /** The pooled order `a` carries the incoming order `o`. */
  ghost predicate Carries(a: Order, o: NewOrder) {
    && a.userId == o.user && a.userOrderId == o.oid && a.clientId == o.client
    && a.side == o.side && a.price == o.price && (a.market <==> o.price == 0)
    && a.quantity == o.quantity && a.remaining <= o.quantity
  }

  /** `a` is an order in hand: allocated, but in no list. */
  ghost predicate InHand(s: Snap, a: nat) {
    a < POOL && a !in s.free && !Linked(s, a)
  }

  /** The best level of the opposite side has an order for `a` to trade with. */
  ghost predicate Ready(s: Snap, side: Side, a: nat, o: NewOrder) {
    && Coherent(s) && InHand(s, a) && side == o.side.Opposite()
    && Carries(s.os[a], o) && s.os[a].remaining > 0
    && |s.At(side).ids| > 0 && s.At(side).ids[0] != []
    && PriceTime.Crosses(o.side, o.price, s.At(side).levels[0].price)
  }

  /** The state after `a` trades with the oldest order of the best level. */
  ghost function Traded(s: Snap, side: Side, a: nat): Snap
    requires Place(s, side, 0, 0) && a < |s.os|
  {
    var p := s.At(side).ids[0][0];
    var q := Min(s.os[a].remaining, s.os[p].remaining);
    var a' := s.os[a].(remaining := s.os[a].remaining - q);
    if q == s.os[p].remaining then
      var s1 := Removed(s, side, 0, 0);
      s1.(os := s1.os[p := s1.os[p].(remaining := 0)][a := a'])
    else
      var s1 := Reduced(s, side, 0, 0, q);
      s1.(os := s1.os[a := a'])
  }

  lemma HeadPlace(s: Snap, side: Side, a: nat, o: NewOrder)
    requires Ready(s, side, a, o)
    ensures Place(s, side, 0, 0) && s.At(side).ids[0][0] != a && Linked(s, s.At(side).ids[0][0])
    ensures Flat(s.At(side)) != [] && Flat(s.At(side))[0] == s.At(side).ids[0][0]
    ensures FlatView(s, side) != [] && FlatView(s, side)[0] == Strip(s.os[s.At(side).ids[0][0]])
    ensures FlatView(s, side)[0].price == s.At(side).levels[0].price && FlatView(s, side)[0].rem > 0
    ensures s.At(side).levels[0].head == s.At(side).ids[0][0]
    ensures OrderKey(s.os[s.At(side).ids[0][0]]) in s.m
  {
    var h := s.At(side);
    PlaceOk(s, side, 0, 0);
    LevelMembers(s.os, side, h.levels[0], h.ids[0]);
    assert h.ids[0][0] in h.ids[0];
    assert Linked(s, h.ids[0][0]);
  }

  lemma TradedCoherent(s: Snap, side: Side, a: nat, o: NewOrder)
    requires Ready(s, side, a, o) && Place(s, side, 0, 0)
    ensures Coherent(Traded(s, side, a)) && InHand(Traded(s, side, a), a)
    ensures s.At(side).ids[0][0] != a && |Traded(s, side, a).os| == |s.os|
    ensures var p := s.At(side).ids[0][0];
            Traded(s, side, a).os[a] == s.os[a].(remaining := s.os[a].remaining - Min(s.os[a].remaining, s.os[p].remaining))
  {
    hide Indexed, SideOk;
    var p := s.At(side).ids[0][0];
    var q := Min(s.os[a].remaining, s.os[p].remaining);
    HeadPlace(s, side, a, o);
    if q == s.os[p].remaining {
      var s1 := Removed(s, side, 0, 0);
      RemovedCoherent(s, side, 0, 0);
      RemovedLinked(s, side, 0, 0);
      Outside(s1, p, s1.os[p].(remaining := 0));
      var s2 := s1.(os := s1.os[p := s1.os[p].(remaining := 0)]);
      Outside(s2, a, s.os[a].(remaining := s.os[a].remaining - q));
    } else {
      var s1 := Reduced(s, side, 0, 0, q);
      ReducedCoherent(s, side, 0, 0, q);
      assert forall i: nat :: Linked(s1, i) <==> Linked(s, i);
      Outside(s1, a, s.os[a].(remaining := s.os[a].remaining - q));
    }
  }

  /** The opposite side after one trade: its first order is gone, or reduced. */
  ghost function HeadTaken(flat: seq<Resting>, q: u32): seq<Resting>
    requires flat != [] && q <= flat[0].rem
  {
    if q == flat[0].rem then flat[1..] else [flat[0].(rem := flat[0].rem - q)] + flat[1..]
  }

  lemma FilledView(s: Snap, side: Side, a: nat, o: NewOrder)
    requires Ready(s, side, a, o) && Place(s, side, 0, 0)
    requires s.os[s.At(side).ids[0][0]].remaining <= s.os[a].remaining
    ensures FlatView(Traded(s, side, a), side) == RemoveAt(FlatView(s, side), 0)
    ensures FlatView(Traded(s, side, a), side.Opposite()) == FlatView(s, side.Opposite())
  {
    hide SideOk, Indexed, Flat, View, Unlink;
    var p := s.At(side).ids[0][0];
    var s1 := Removed(s, side, 0, 0);
    HeadPlace(s, side, a, o);
    RemovedCoherent(s, side, 0, 0);
    RemovedLinked(s, side, 0, 0);
    RemovedFlat(s, side, 0, 0);
    RemovedOtherHalf(s, side, 0, 0);
    Outside(s1, p, s1.os[p].(remaining := 0));
    var s2 := s1.(os := s1.os[p := s1.os[p].(remaining := 0)]);
    Outside(s2, a, s.os[a].(remaining := s.os[a].remaining - s.os[p].remaining));
  }

  lemma PartialView(s: Snap, side: Side, a: nat, o: NewOrder)
    requires Ready(s, side, a, o) && Place(s, side, 0, 0)
    requires s.os[a].remaining < s.os[s.At(side).ids[0][0]].remaining
    ensures var p := s.At(side).ids[0][0];
            && FlatView(s, side) != []
            && FlatView(Traded(s, side, a), side)
               == FlatView(s, side)[0 := Strip(s.os[p]).(rem := s.os[p].remaining - s.os[a].remaining)]
    ensures FlatView(Traded(s, side, a), side.Opposite()) == FlatView(s, side.Opposite())
  {
    hide SideOk, Indexed, View;
    var q := s.os[a].remaining;
    var s1 := Reduced(s, side, 0, 0, q);
    HeadPlace(s, side, a, o);
    ReducedCoherent(s, side, 0, 0, q);
    ReducedFlat(s, side, 0, 0, q);
    ReducedOtherHalf(s, side, 0, 0, q);
    assert Offset(s.At(side).ids, 0, 0) == 0;
    Outside(s1, a, s.os[a].(remaining := 0));
  }

  lemma TradedView(s: Snap, side: Side, a: nat, o: NewOrder)
    requires Ready(s, side, a, o) && Place(s, side, 0, 0)
    ensures var flat := FlatView(s, side);
            && flat != []
            && FlatView(Traded(s, side, a), side) == HeadTaken(flat, Min(s.os[a].remaining, flat[0].rem))
    ensures FlatView(Traded(s, side, a), side.Opposite()) == FlatView(s, side.Opposite())
  {
    hide SideOk, Indexed, Traded, FlatView;
    HeadPlace(s, side, a, o);
    var flat := FlatView(s, side);
    if s.os[s.At(side).ids[0][0]].remaining <= s.os[a].remaining {
      FilledView(s, side, a, o);
      assert RemoveAt(flat, 0) == flat[1..];
    } else {
      PartialView(s, side, a, o);
    }
  }

  /** One trade is one unfolding of the greedy match. */
  lemma MatchStep(symbol: string, o: NewOrder, rem: u32, flat: seq<Resting>)
    requires rem > 0 && flat != [] && flat[0].rem > 0 && PriceTime.Crosses(o.side, o.price, flat[0].price)
    ensures var q := Min(rem, flat[0].rem);
            PriceTime.Match(symbol, o, rem, flat)
            == Prefixed([PriceTime.TradeMsg(symbol, o, flat[0], q)],
                        PriceTime.Match(symbol, o, rem - q, HeadTaken(flat, q)))
    ensures var q := Min(rem, flat[0].rem);
            PriceTime.FilledKeys(o, rem, flat)
            == (if q == flat[0].rem then {RestKey(flat[0])} else {})
               + PriceTime.FilledKeys(o, rem - q, HeadTaken(flat, q))
  {
  }

  ghost function Prefixed(trades: seq<Msg>, m: PriceTime.Matched): PriceTime.Matched {
    m.(trades := trades + m.trades)
  }

  /** Pool slots owned by one side or by the free list. */
  ghost function Owned(s: Snap, side: Side): set<nat> {
    Elems(s.free) + Elems(Flat(s.At(side)))
  }

  ghost predicate Untouched(s0: Snap, s: Snap, side: Side, a: nat) {
    && |s0.os| == |s.os|
    && forall i: nat :: i < |s.os| && i !in Flat(s0.At(side)) && i != a ==> s.os[i] == s0.os[i]
  }

  lemma UntouchedTwice(s0: Snap, s: Snap, s': Snap, side: Side, a: nat)
    requires Untouched(s0, s, side, a) && Untouched(s, s', side, a)
    requires Elems(Flat(s.At(side))) <= Elems(Flat(s0.At(side)))
    ensures Untouched(s0, s', side, a)
  {
    forall i: nat | i < |s.os| && i !in Flat(s0.At(side)) && i != a
      ensures s'.os[i] == s0.os[i]
    {
      assert i !in Elems(Flat(s0.At(side)));
    }
  }

  lemma FilledPool(s: Snap, side: Side, a: nat, o: NewOrder)
    requires Ready(s, side, a, o) && Place(s, side, 0, 0)
    requires s.os[s.At(side).ids[0][0]].remaining <= s.os[a].remaining
    ensures var s', p := Traded(s, side, a), s.At(side).ids[0][0];
            && Flat(s.At(side)) == [p] + Flat(s'.At(side))
            && s'.free == s.free + [p] && Untouched(s, s', side, a)
  {
    hide SideOk, Indexed, View, Flat, Unlink;
    RemovedHead(s, side);
    UnlinkedHead(s, side);
    var p, s' := s.At(side).ids[0][0], Traded(s, side, a);
    assert s'.os == Unlink(s.os, p)[p := Unlink(s.os, p)[p].(remaining := 0)][a := s'.os[a]];
  }

  lemma RemovedHead(s: Snap, side: Side)
    requires Coherent(s) && Place(s, side, 0, 0)
    ensures Flat(s.At(side)) == [s.At(side).ids[0][0]] + Flat(Removed(s, side, 0, 0).At(side))
  {
    hide SideOk, Indexed, View, Removed, Coherent, Unlink;
    var h := s.At(side);
    RemovedFlat(s, side, 0, 0);
    ConcatNone(h.ids[..0]);
    assert Flat(h) == h.ids[0] + Concat(h.ids[1..]);
    assert RemoveAt(Flat(h), 0) == Flat(h)[1..];
  }

  lemma UnlinkedHead(s: Snap, side: Side)
    requires Coherent(s) && Place(s, side, 0, 0)
    ensures var p := s.At(side).ids[0][0];
            && p in Flat(s.At(side)) && |Unlink(s.os, p)| == |s.os|
            && forall i: nat :: i < |s.os| && i !in Flat(s.At(side)) ==> Unlink(s.os, p)[i] == s.os[i]
  {
    hide Indexed, View, Unlink;
    var h := s.At(side);
    UnlinkFrame(s.os, h.ids[0], h.levels[0].head, h.levels[0].tail, 0);
    assert Flat(h) == h.ids[0] + Concat(h.ids[1..]);
    assert h.ids[0][0] in h.ids[0];
  }

  lemma ConcatNone<T>(ss: seq<seq<T>>)
    requires ss == []
    ensures Concat(ss) == []
  {
  }

  lemma TradedPool(s: Snap, side: Side, a: nat, o: NewOrder)
    requires Ready(s, side, a, o) && Place(s, side, 0, 0)
    ensures var s' := Traded(s, side, a);
            && s'.At(side.Opposite()) == s.At(side.Opposite())
            && Owned(s', side) == Owned(s, side)
            && Elems(Flat(s'.At(side))) <= Elems(Flat(s.At(side)))
            && Untouched(s, s', side, a)
  {
    hide SideOk, Indexed, Concat;
    HeadPlace(s, side, a, o);
    var p, s' := s.At(side).ids[0][0], Traded(s, side, a);
    if s.os[p].remaining <= s.os[a].remaining {
      FilledPool(s, side, a, o);
    } else {
      assert Flat(s'.At(side)) == Flat(s.At(side));
    }
  }

  /** `s` is reached from `s0` by trades of order `a`, and what the greedy match of `s0`
      still has to do is the greedy match of `s`. */
  ghost predicate Progress(s0: Snap, s: Snap, side: Side, a: nat, o: NewOrder, symbol: string, trades: seq<Msg>) {
    && Coherent(s) && InHand(s, a) && |s0.os| == POOL
    && s.os[a] == s0.os[a].(remaining := s.os[a].remaining)
    && s.os[a].remaining <= s0.os[a].remaining
    && PriceTime.Match(symbol, o, s0.os[a].remaining, FlatView(s0, side))
       == Prefixed(trades, PriceTime.Match(symbol, o, s.os[a].remaining, FlatView(s, side)))
    && s.At(side.Opposite()) == s0.At(side.Opposite())
    && FlatView(s, side.Opposite()) == FlatView(s0, side.Opposite())
    && Owned(s, side) == Owned(s0, side)
    && Elems(Flat(s.At(side))) <= Elems(Flat(s0.At(side)))
    && Untouched(s0, s, side, a)
  }

  lemma PrefixedTwice(a: seq<Msg>, b: seq<Msg>, m: PriceTime.Matched)
    ensures Prefixed(a, Prefixed(b, m)) == Prefixed(a + b, m)
  {
    assert a + (b + m.trades) == (a + b) + m.trades;
  }

  lemma ProgressTrade(s0: Snap, s: Snap, side: Side, a: nat, o: NewOrder, symbol: string, trades: seq<Msg>)
    requires Progress(s0, s, side, a, o, symbol, trades) && Ready(s, side, a, o) && Place(s, side, 0, 0)
    ensures FlatView(s, side) != []
    ensures var flat := FlatView(s, side);
            var q := Min(s.os[a].remaining, flat[0].rem);
            Progress(s0, Traded(s, side, a), side, a, o, symbol, trades + [PriceTime.TradeMsg(symbol, o, flat[0], q)])
  {
    hide SideOk, Indexed, FlatView, Flat, Traded, PriceTime.Match, PriceTime.FilledKeys;
    HeadPlace(s, side, a, o);
    TradedCoherent(s, side, a, o);
    TradedView(s, side, a, o);
    TradedPool(s, side, a, o);
    var flat, s' := FlatView(s, side), Traded(s, side, a);
    var q := Min(s.os[a].remaining, flat[0].rem);
    var msg := PriceTime.TradeMsg(symbol, o, flat[0], q);
    UntouchedTwice(s0, s, s', side, a);
    MatchStep(symbol, o, s.os[a].remaining, flat);
    PrefixedTwice(trades, [msg], PriceTime.Match(symbol, o, s'.os[a].remaining, FlatView(s', side)));
  }

  /** Filling before unlinking is the same as unlinking before filling. */
  lemma FillThenUnlink(os: seq<Order>, a: nat, p: nat, a': Order, p': Order)
    requires a < |os| && p < |os| && a != p
    requires -1 <= os[p].prev < |os| && -1 <= os[p].next < |os| && a != os[p].prev && a != os[p].next
    requires p' == os[p].(remaining := p'.remaining)
    ensures Unlink(os[a := a'][p := p'], p)
         == Unlink(os, p)[p := Unlink(os, p)[p].(remaining := p'.remaining)][a := a']
  {
  }

  /** Both orders of a trade, less the traded quantity. */
  ghost function Exchanged(os: seq<Order>, a: nat, p: nat, q: u32): seq<Order>
    requires a < |os| && p < |os| && q <= os[a].remaining && q <= os[p].remaining
  {
    os[a := os[a].(remaining := os[a].remaining - q)][p := os[p].(remaining := os[p].remaining - q)]
  }

  /** The best level, less the traded quantity. */
  ghost function Lowered(levels: seq<Level>, q: u32): seq<Level>
    requires levels != []
  {
    levels[0 := levels[0].(total := Wrap32(levels[0].total - q))]
  }

  /** The best level without its oldest order `o`. */
  ghost function Unhooked(levels: seq<Level>, o: Order): seq<Level>
    requires levels != []
  {
    levels[0 := levels[0].(head := if o.prev == NIL then o.next else levels[0].head,
                           tail := if o.next == NIL then o.prev else levels[0].tail)]
  }

  /** Take the filled order `p`, the oldest of the best level, out of the book. */
  method Retire(b: Book, side: Side, p: nat)
    requires b.Wf() && p < POOL && p !in b.pool.free
    requires |b.At(side).ids| > 0 && b.At(side).ids[0] != [] && b.At(side).ids[0][0] == p
    requires -1 <= b.pool.os[p].prev < POOL && -1 <= b.pool.os[p].next < POOL
    requires OrderKey(b.pool.os[p]) in b.orderMap.m
    modifies b.At(side), b.At(side).slots, b.orderMap, b.orderMap.slots
    modifies b.pool, b.pool.orders, b.pool.freeList
    ensures b.Wf() && b.pool.os == Unlink(old(b.pool.os), p) && b.pool.free == old(b.pool.free) + [p]
    ensures b.orderMap.m == old(b.orderMap.m) - {OrderKey(old(b.pool.os)[p])}
    ensures b.At(side).ids == old(b.At(side).ids)[0 := RemoveAt(old(b.At(side).ids)[0], 0)]
    ensures b.At(side).levels == Unhooked(old(b.At(side).levels), old(b.pool.os)[p])
    ensures exists i: nat ::
              ProbeTable.Tombstoned(old(b.orderMap.t), b.orderMap.t, i, OrderKey(old(b.pool.os)[p]))
  {
    hide Pool.Valid, BookSide.Valid, ProbeTable.ProbeMap.Valid, Unlink, RemoveAt;
    var o := b.pool.Get(p);
    var _ := b.orderMap.Remove(Key(o.userId, o.userOrderId));
    ListRemove(b.pool, b.At(side), 0, p, 0);
    b.pool.Free(p);
  }

  /** All that the bookkeeping of one trade relies on. */
  ghost predicate Tradable(s: Snap, side: Side, a: nat) {
    && Place(s, side, 0, 0) && a < |s.os| == POOL
    && var p := s.At(side).ids[0][0];
       && a != p && a != s.os[p].prev && a != s.os[p].next
       && p !in s.free && OrderKey(s.os[p]) in s.m
  }

  /** The effect of a filling trade, field by field. */
  lemma TradedFilled(s: Snap, s': Snap, side: Side, a: nat, p: nat, q: u32)
    requires Tradable(s, side, a) && p == s.At(side).ids[0][0]
    requires q == Min(s.os[a].remaining, s.os[p].remaining) && s.os[p].remaining <= s.os[a].remaining
    requires Place(s.(os := Exchanged(s.os, a, p, q)), side, 0, 0)
    requires s'.os == Unlink(Exchanged(s.os, a, p, q), p)
    requires s'.free == s.free + [p] && s'.m == s.m - {OrderKey(s.os[p])}
    requires s'.At(side.Opposite()) == s.At(side.Opposite())
    requires s'.At(side) == Half(
               Unhooked(Lowered(s.At(side).levels, q), Exchanged(s.os, a, p, q)[p]),
               s.At(side).ids[0 := RemoveAt(s.At(side).ids[0], 0)])
    ensures s' == Traded(s, side, a)
  {
    hide Unlink, RemoveAt;
    var os1, h := Exchanged(s.os, a, p, q), s.At(side);
    FillThenUnlink(s.os, a, p, os1[a], os1[p]);
    assert Unhooked(Lowered(h.levels, q), os1[p]) == h.levels[0 := Shorter(h.levels[0], s.os[p])];
  }

  /** The effect of a trade that leaves `p` in the book. */
  lemma TradedPartial(s: Snap, s': Snap, side: Side, a: nat, p: nat, q: u32)
    requires Tradable(s, side, a) && p == s.At(side).ids[0][0]
    requires q == Min(s.os[a].remaining, s.os[p].remaining) && s.os[a].remaining < s.os[p].remaining
    requires s'.os == Exchanged(s.os, a, p, q)
    requires s'.free == s.free && s'.m == s.m && s'.At(side.Opposite()) == s.At(side.Opposite())
    requires s'.At(side) == Half(Lowered(s.At(side).levels, q), s.At(side).ids)
    ensures s' == Traded(s, side, a)
  {
    assert s'.os == s.os[p := s.os[p].(remaining := s.os[p].remaining - q)][a := s.os[a].(remaining := 0)];
  }

  lemma ExchangedFacts(s: Snap, side: Side, a: nat, p: nat, q: u32)
    requires Tradable(s, side, a) && p == s.At(side).ids[0][0]
    requires q == Min(s.os[a].remaining, s.os[p].remaining)
    ensures a < POOL && p < POOL && p != a && p !in s.free && |s.At(side).ids| > 0 && s.At(side).ids[0] != []
    ensures q <= s.os[a].remaining && q <= s.os[p].remaining
    ensures var os1 := Exchanged(s.os, a, p, q);
            && |os1| == POOL && OrderKey(os1[p]) == OrderKey(s.os[p]) && OrderKey(os1[p]) in s.m
            && -1 <= os1[p].prev < POOL && -1 <= os1[p].next < POOL
            && Place(s.(os := os1), side, 0, 0)
            && (s.os[p].remaining <= s.os[a].remaining <==> os1[p].remaining == 0)
  {
  }

  /** Reduce both orders and the level total by `qty`. */
  method Reduce(b: Book, side: Side, a: nat, p: nat, qty: u32)
    requires b.Wf() && |b.At(side).ids| > 0 && a < POOL && p < POOL && a != p
    requires qty <= b.pool.os[a].remaining && qty <= b.pool.os[p].remaining
    modifies b.At(side), b.At(side).slots, b.pool`os, b.pool.orders
    ensures b.Wf() && b.pool.os == Exchanged(old(b.pool.os), a, p, qty)
    ensures b.At(side).levels == Lowered(old(b.At(side).levels), qty)
    ensures b.At(side).ids == old(b.At(side).ids)
  {
    hide Pool.Valid, BookSide.Valid, ProbeTable.ProbeMap.Valid;
    var half := b.At(side);
    var taker, maker := b.pool.Get(a), b.pool.Get(p);
    b.pool.Put(a, taker.(remaining := taker.remaining - qty));
    b.pool.Put(p, maker.(remaining := maker.remaining - qty));
    half.Put(0, half.Get(0).(total := Wrap32(half.Get(0).total - qty)), half.ids[0]);
    assert half.ids == old(half.ids);
  }

  /** Move `qty` from order `p` to order `a`, and take `p` out of the book if that fills it. */
  method Fill(b: Book, side: Side, a: nat, p: nat, qty: u32) returns (filled: bool)
    requires b.Wf() && Tradable(b.S(), side, a) && p == b.S().At(side).ids[0][0]
    requires qty == Min(b.pool.os[a].remaining, b.pool.os[p].remaining)
    modifies b.At(side), b.At(side).slots, b.orderMap, b.orderMap.slots
    modifies b.pool, b.pool.orders, b.pool.freeList
    ensures b.Wf() && b.S() == Traded(old(b.S()), side, a)
    ensures filled <==> old(b.pool.os)[p].remaining <= old(b.pool.os)[a].remaining
    ensures !filled ==> b.orderMap.t == old(b.orderMap.t)
    ensures filled ==> exists i: nat ::
              ProbeTable.Tombstoned(old(b.orderMap.t), b.orderMap.t, i, OrderKey(old(b.pool.os)[p]))
  {
    hide *;
    Sides(b);
    ghost var s := b.S();
    ExchangedFacts(s, side, a, p, qty);
    Reduce(b, side, a, p, qty);
    filled := b.pool.Get(p).remaining == 0;
    if filled {
      Retire(b, side, p);
      TradedFilled(s, b.S(), side, a, p, qty);
    } else {
      TradedPartial(s, b.S(), side, a, p, qty);
    }
  }

  /** Trade order `a` with order `p`, the oldest at the best opposite price. */
  method ExecuteTrade(b: Book, side: Side, a: nat, p: nat, out: OutputBuffer, ghost o: NewOrder)
    returns (filled: bool)
    requires b.Wf() && out.Valid()
    requires Tradable(b.S(), side, a) && p == b.S().At(side).ids[0][0]
    requires Carries(b.pool.os[a], o) && b.pool.os[p].price == b.At(side).levels[0].price
    modifies b.At(side), b.At(side).slots, b.orderMap, b.orderMap.slots
    modifies b.pool, b.pool.orders, b.pool.freeList, out, out.messages
    ensures b.Wf() && out.Valid() && b.S() == Traded(old(b.S()), side, a)
    ensures filled <==> old(b.pool.os)[p].remaining <= old(b.pool.os)[a].remaining
    ensures out.sent == Keep(old(out.sent) + [
              PriceTime.TradeMsg(b.symbol, o, Strip(old(b.pool.os)[p]),
                                 Min(old(b.pool.os)[a].remaining, old(b.pool.os)[p].remaining))])
    ensures !filled ==> b.orderMap.t == old(b.orderMap.t)
    ensures filled ==> exists i: nat ::
              ProbeTable.Tombstoned(old(b.orderMap.t), b.orderMap.t, i, OrderKey(old(b.pool.os)[p]))
  {
    hide Book.S, Pool.Valid, BookSide.Valid, ProbeTable.ProbeMap.Valid, OutputBuffer.Valid, Traded, Keep;
    var taker, maker := b.pool.Get(a), b.pool.Get(p);
    var qty := if taker.remaining < maker.remaining then taker.remaining else maker.remaining;
    var price := b.At(side).Get(0).price;
    var (buyer, seller) := if taker.side == Buy then (taker, maker) else (maker, taker);
    out.Add(Trade(b.symbol, buyer.userId, buyer.userOrderId, buyer.clientId,
                  seller.userId, seller.userOrderId, seller.clientId, price, qty));
    filled := Fill(b, side, a, p, qty);
  }

  /** The neighbours of the oldest order are in its list, so `a` is not among them. */
  lemma HeadLinks(s: Snap, side: Side, a: nat, o: NewOrder)
    requires Ready(s, side, a, o) && Place(s, side, 0, 0)
    ensures s.os[s.At(side).ids[0][0]].prev != a && s.os[s.At(side).ids[0][0]].next != a
    ensures s.At(side).ids[0][0] !in s.free
  {
    hide Indexed;
    var h := s.At(side);
    var p := h.ids[0][0];
    ConcatSplit(h.ids, 0);
    assert s.os[p].prev == NIL && s.os[p].next == After(h.ids[0], 0);
    assert p in h.ids[0] && Linked(s, p);
    assert |h.ids[0]| > 1 ==> h.ids[0][1] in h.ids[0];
  }

  /** Levels keep their number, and all but the best keep their orders. */
  ghost predicate ShapeKept(h0: Half, h: Half) {
    && |h.ids| == |h.levels| == |h0.ids| == |h0.levels|
    && (forall l :: 0 < l < |h.ids| ==> h.ids[l] == h0.ids[l])
    && (|h0.ids| > 0 ==> h.levels[0].price == h0.levels[0].price)
  }

  lemma TradedIds(s: Snap, side: Side, a: nat)
    requires Tradable(s, side, a)
    ensures var h, h', p := s.At(side), Traded(s, side, a).At(side), s.At(side).ids[0][0];
            && ShapeKept(h, h') && |h'.ids| == |h.ids|
            && h'.ids[0] == (if s.os[p].remaining <= s.os[a].remaining then h.ids[0][1..] else h.ids[0])
  {
    hide Unlink;
    assert RemoveAt(s.At(side).ids[0], 0) == s.At(side).ids[0][1..];
  }

  lemma TradedCount(s: Snap, side: Side, a: nat, o: NewOrder)
    requires Ready(s, side, a, o) && Place(s, side, 0, 0)
    ensures var h, h', p := s.At(side), Traded(s, side, a).At(side), s.At(side).ids[0][0];
            |Flat(h')| == |Flat(h)| - (if s.os[p].remaining <= s.os[a].remaining then 1 else 0)
  {
    hide SideOk, Indexed, Concat, Unlink;
    var h, p := s.At(side), s.At(side).ids[0][0];
    if s.os[p].remaining <= s.os[a].remaining {
      FilledPool(s, side, a, o);
    } else {
      assert Traded(s, side, a).At(side).ids == h.ids;
    }
  }

  lemma HeadNext(s: Snap, side: Side)
    requires HalfOk(s, side) && |s.At(side).ids| > 0 && s.At(side).ids[0] != []
    ensures var list := s.At(side).ids[0];
            list[0] < |s.os| && s.os[list[0]].next == if |list| > 1 then list[1] else NIL
  {
    var list := s.At(side).ids[0];
    assert s.os[list[0]].next == After(list, 0);
  }

  lemma ReadyTradable(s: Snap, side: Side, a: nat, o: NewOrder)
    requires Ready(s, side, a, o)
    ensures Place(s, side, 0, 0) && Tradable(s, side, a)
    ensures Carries(s.os[a], o) && s.os[s.At(side).ids[0][0]].price == s.At(side).levels[0].price
    ensures FlatView(s, side) != [] && Strip(s.os[s.At(side).ids[0][0]]) == FlatView(s, side)[0]
    ensures FlatView(s, side)[0].rem == s.os[s.At(side).ids[0][0]].remaining
    ensures s.At(side).levels[0].head == s.At(side).ids[0][0]
  {
    HeadPlace(s, side, a, o);
    HeadLinks(s, side, a, o);
  }

  lemma ReadyHead(s: Snap, side: Side, a: nat, o: NewOrder)
    requires Ready(s, side, a, o)
    ensures var list := s.At(side).ids[0];
            list[0] < |s.os| && s.os[list[0]].next == if |list| > 1 then list[1] else NIL
  {
    hide SideOk, Indexed;
    HeadNext(s, side);
  }

  /** A side together with an order in hand fits the pool. */
  lemma FlatBound(s: Snap, side: Side, a: nat)
    requires Coherent(s) && InHand(s, a)
    ensures |Flat(s.At(side))| < POOL
  {
    var h := s.At(side);
    FlatDistinct(s.os, side, h.levels, h.ids);
    forall k | 0 <= k < |Flat(h)|
      ensures Flat(h)[k] < POOL
    {
      var l, n := FlatMember(s.os, side, h.levels, h.ids, Flat(h)[k]);
    }
    DistinctAppend(Flat(h), [a]);
    DistinctBelow(POOL, Flat(h) + [a]);
  }

  /** The probe window at `h` has room once the match in progress has run. */
  ghost predicate WillFit(t: seq<ProbeTable.Slot<Location>>, limit: nat, h: nat, s: Snap, side: Side, a: nat, o: NewOrder) {
    && h < |t| && limit <= |t| && a < |s.os|
    && ProbeTable.Room(t, h, limit, PriceTime.FilledKeys(o, s.os[a].remaining, FlatView(s, side)))
  }

  lemma WillFitTrade(t: seq<ProbeTable.Slot<Location>>, t': seq<ProbeTable.Slot<Location>>, limit: nat, h: nat,
                     s: Snap, side: Side, a: nat, o: NewOrder)
    requires Ready(s, side, a, o) && Place(s, side, 0, 0) && WillFit(t, limit, h, s, side, a, o)
    requires var p := s.At(side).ids[0][0];
             if s.os[p].remaining <= s.os[a].remaining then
               exists i: nat :: ProbeTable.Tombstoned(t, t', i, OrderKey(s.os[p]))
             else t' == t
    ensures WillFit(t', limit, h, Traded(s, side, a), side, a, o)
  {
    hide SideOk, Indexed, FlatView, Traded, ProbeTable.Room, PriceTime.FilledKeys;
    HeadPlace(s, side, a, o);
    TradedCoherent(s, side, a, o);
    TradedView(s, side, a, o);
    var p, flat := s.At(side).ids[0][0], FlatView(s, side);
    MatchStep("", o, s.os[a].remaining, flat);
    var gone := PriceTime.FilledKeys(o, Traded(s, side, a).os[a].remaining, FlatView(Traded(s, side, a), side));
    if s.os[p].remaining <= s.os[a].remaining {
      var i: nat :| ProbeTable.Tombstoned(t, t', i, OrderKey(s.os[p]));
      ProbeTable.RoomAfterRemove(t, i, h, limit, gone);
    } else {
      assert {} + gone == gone;
    }
  }

  /** The match of order `a` that began in state `s0` has made `trades` so far. */
  ghost predicate Running(b: Book, out: OutputBuffer, r: Run, trades: seq<Msg>)
    reads b.bids, b.bids.slots, b.asks, b.asks.slots, b.orderMap, b.orderMap.slots
    reads b.pool, b.pool.orders, b.pool.freeList, out, out.messages
    ensures Running(b, out, r, trades) ==> b.Wf() && out.Valid() && r.a < POOL
  {
    && b.Wf() && out.Valid() && r.side == r.o.side.Opposite() && r.a < |r.s0.os|
    && Progress(r.s0, b.S(), r.side, r.a, r.o, b.symbol, trades) && Carries(r.s0.os[r.a], r.o)
    && out.sent == Keep(r.sent + trades)
    && (r.fits ==> WillFit(b.orderMap.t, b.orderMap.limit, r.h, b.S(), r.side, r.a, r.o))
  }

  /** Where a match started: the state and output then, the order, and whether its key will fit. */
  datatype Run = Run(s0: Snap, sent: seq<Msg>, side: Side, a: nat, o: NewOrder, h: nat, fits: bool)

  /** The best level may trade with order `a`. */
  ghost predicate Open(r: Run, s: Snap) {
    && r.a < |s.os| && s.os[r.a].remaining > 0
    && |s.At(r.side).ids| == |s.At(r.side).levels| > 0 && s.At(r.side).ids[0] != []
    && PriceTime.Crosses(r.o.side, r.o.price, s.At(r.side).levels[0].price)
  }

  lemma RunningParts(b: Book, out: OutputBuffer, r: Run, trades: seq<Msg>)
    requires Running(b, out, r, trades)
    ensures b.Wf() && out.Valid() && r.side == r.o.side.Opposite() && out.sent == Keep(r.sent + trades)
    ensures Progress(r.s0, b.S(), r.side, r.a, r.o, b.symbol, trades) && r.a < |r.s0.os| && Carries(r.s0.os[r.a], r.o)
    ensures r.fits ==> WillFit(b.orderMap.t, b.orderMap.limit, r.h, b.S(), r.side, r.a, r.o)
  {
    hide Progress;
  }

  lemma RunningIs(b: Book, out: OutputBuffer, r: Run, trades: seq<Msg>)
    requires b.Wf() && out.Valid() && r.side == r.o.side.Opposite() && out.sent == Keep(r.sent + trades)
    requires Progress(r.s0, b.S(), r.side, r.a, r.o, b.symbol, trades) && r.a < |r.s0.os| && Carries(r.s0.os[r.a], r.o)
    requires r.fits ==> WillFit(b.orderMap.t, b.orderMap.limit, r.h, b.S(), r.side, r.a, r.o)
    ensures Running(b, out, r, trades)
  {
    hide Coherent, PriceTime.Match, BookSide.Valid, Pool.Valid, ProbeTable.ProbeMap.Valid;
  }

  lemma RunningReady(b: Book, out: OutputBuffer, r: Run, trades: seq<Msg>)
    requires Running(b, out, r, trades) && Open(r, b.S())
    ensures Ready(b.S(), r.side, r.a, r.o) && Place(b.S(), r.side, 0, 0) && Tradable(b.S(), r.side, r.a)
    ensures b.At(r.side).ids[0][0] < POOL
    ensures b.At(r.side).levels[0].head == b.At(r.side).ids[0][0]
  {
    hide Coherent, PriceTime.Match;
    ReadyTradable(b.S(), r.side, r.a, r.o);
  }

  /** One pass of the inner loop: trade with the oldest order of the best level. */
  method TradeOnce(b: Book, out: OutputBuffer, side: Side, a: nat, p: nat, ghost r: Run, ghost trades: seq<Msg>)
    returns (ghost filled: bool, ghost msg: Msg)
    requires Running(b, out, r, trades) && Open(r, b.S()) && side == r.side && a == r.a
    requires p == b.At(side).ids[0][0] < POOL
    modifies b.At(side), b.At(side).slots, b.orderMap, b.orderMap.slots
    modifies b.pool, b.pool.orders, b.pool.freeList, out, out.messages
    ensures Running(b, out, r, trades + [msg])
    ensures ShapeKept(old(b.S().At(side)), b.S().At(side))
    ensures b.At(side).ids != [] && b.At(side).ids[0] == (if filled then old(b.At(side).ids[0][1..]) else old(b.At(side).ids[0]))
    ensures |Flat(b.S().At(side))| == old(|Flat(b.S().At(side))|) - (if filled then 1 else 0)
    ensures old(b.pool.os[p].next) == (if old(|b.At(side).ids[0]|) > 1 then old(b.At(side).ids[0][1]) else NIL)
    ensures !filled ==> b.pool.os[a].remaining == 0
  {
    hide *;
    Sides(b);
    ghost var s, t := b.S(), b.orderMap.t;
    RunningParts(b, out, r, trades);
    RunningReady(b, out, r, trades);
    ReadyTradable(s, side, a, r.o);
    TradedIds(s, side, a);
    TradedCount(s, side, a, r.o);
    ReadyHead(s, side, a, r.o);
    TradedCoherent(s, side, a, r.o);
    MinIs(s.os[a].remaining, s.os[p].remaining);
    ProgressTrade(r.s0, s, side, a, r.o, b.symbol, trades);
    msg := PriceTime.TradeMsg(b.symbol, r.o, FlatView(s, side)[0], Min(s.os[a].remaining, s.os[p].remaining));
    filled := ExecuteTrade(b, side, a, p, out, r.o);
    if r.fits {
      WillFitTrade(t, b.orderMap.t, b.orderMap.limit, r.h, s, side, a, r.o);
    }
    KeepAppend(r.sent, trades, [msg]);
    RunningIs(b, out, r, trades + [msg]);
  }

  /** Nothing is left to match: no quantity, no level, or no crossing price. */
  ghost predicate Exhausted(s: Snap, side: Side, a: nat, o: NewOrder) {
    && a < |s.os| && |s.At(side).ids| == |s.At(side).levels|
    && (s.os[a].remaining == 0 || s.At(side).ids == []
        || !PriceTime.Crosses(o.side, o.price, s.At(side).levels[0].price))
  }

  lemma MatchDone(s: Snap, side: Side, a: nat, o: NewOrder, symbol: string)
    requires Coherent(s) && NoneEmpty(s.At(side).ids) && Exhausted(s, side, a, o)
    ensures PriceTime.Match(symbol, o, s.os[a].remaining, FlatView(s, side))
         == PriceTime.Matched([], s.os[a].remaining, FlatView(s, side))
    ensures PriceTime.FilledKeys(o, s.os[a].remaining, FlatView(s, side)) == {}
  {
    var h := s.At(side);
    if h.ids != [] {
      LevelMembers(s.os, side, h.levels[0], h.ids[0]);
      assert h.ids[0][0] in h.ids[0];
      assert FlatView(s, side)[0] == Strip(s.os[h.ids[0][0]]);
    }
  }

  lemma ProgressDone(s0: Snap, s: Snap, side: Side, a: nat, o: NewOrder, symbol: string, trades: seq<Msg>)
    requires Progress(s0, s, side, a, o, symbol, trades) && NoneEmpty(s.At(side).ids) && Exhausted(s, side, a, o)
    ensures PriceTime.Match(symbol, o, s0.os[a].remaining, FlatView(s0, side))
         == PriceTime.Matched(trades, s.os[a].remaining, FlatView(s, side))
    ensures PriceTime.FilledKeys(o, s.os[a].remaining, FlatView(s, side)) == {}
  {
    hide SideOk, Indexed, FlatView, Flat, PriceTime.Match, PriceTime.FilledKeys;
    MatchDone(s, side, a, o, symbol);
    assert trades + [] == trades;
  }

  lemma ProgressDrop(s0: Snap, s: Snap, side: Side, a: nat, o: NewOrder, symbol: string, trades: seq<Msg>)
    requires Progress(s0, s, side, a, o, symbol, trades)
    requires |s.At(side).levels| > 0 && |s.At(side).ids| == |s.At(side).levels| && s.At(side).ids[0] == []
    ensures Progress(s0, Dropped(s, side, 0), side, a, o, symbol, trades)
    ensures Flat(Dropped(s, side, 0).At(side)) == Flat(s.At(side))
    ensures FlatView(Dropped(s, side, 0), side) == FlatView(s, side)
  {
    hide SideOk, Indexed, FlatView, Flat, PriceTime.Match;
    DroppedCoherent(s, side, 0);
  }

  lemma LevelHead(s: Snap, side: Side, l: nat)
    requires Coherent(s) && l < |s.At(side).ids|
    ensures |s.At(side).levels| == |s.At(side).ids|
    ensures s.At(side).levels[l].head == if s.At(side).ids[l] == [] then NIL else s.At(side).ids[l][0]
    ensures Chain(s.os, s.At(side).ids[l], s.At(side).levels[l].head, s.At(side).levels[l].tail)
  {
  }

  /** The inner loop: trade down the list of the best level, at most 200 orders. */
  method MatchLevel(b: Book, out: OutputBuffer, side: Side, a: nat, ghost r: Run, ghost trades: seq<Msg>)
    returns (ghost more: seq<Msg>)
    requires Running(b, out, r, trades) && Open(r, b.S()) && side == r.side && a == r.a
    modifies b.At(side), b.At(side).slots, b.orderMap, b.orderMap.slots
    modifies b.pool, b.pool.orders, b.pool.freeList, out, out.messages
    ensures Running(b, out, r, more)
    ensures ShapeKept(old(b.S().At(side)), b.S().At(side))
    ensures |Flat(b.S().At(side))| < old(|Flat(b.S().At(side))|)
         || (|Flat(b.S().At(side))| == old(|Flat(b.S().At(side))|) && b.pool.os[a].remaining == 0)
  {
    hide *;
    Sides(b);
    Caps();
    more := trades;
    ghost var h0 := b.S().At(side);
    RunningReady(b, out, r, more);
    OpenFacts(r, b.S());
    ShapeSame(h0);
    var passive := b.At(side).Get(0).head;
    var inner := 0;
    while b.pool.Get(a).remaining > 0 && passive != NIL && inner < MAX_ORDERS_AT_PRICE_LEVEL
      invariant Running(b, out, r, more) && ShapeKept(h0, b.S().At(side)) && |b.At(side).ids| > 0
      invariant b.pool.os[a].remaining > 0 ==>
                  passive == if b.At(side).ids[0] == [] then NIL else b.At(side).ids[0][0]
      invariant |Flat(b.S().At(side))| <= |Flat(h0)|
      invariant inner == 0 ==> b.pool.os[a].remaining > 0 && passive != NIL
      invariant inner > 0 && |Flat(b.S().At(side))| == |Flat(h0)| ==> b.pool.os[a].remaining == 0
      decreases MAX_ORDERS_AT_PRICE_LEVEL - inner
    {
      inner := inner + 1;
      StillOpen(r, h0, b.S());
      RunningReady(b, out, r, more);
      var next := b.pool.Get(passive).next;
      ghost var h1 := b.S().At(side);
      ghost var filled, msg := TradeOnce(b, out, side, a, passive, r, more);
      ShapeTwice(h0, h1, b.S().At(side));
      more := more + [msg];
      passive := next;
    }
  }

  lemma OpenFacts(r: Run, s: Snap)
    requires Open(r, s)
    ensures r.a < |s.os| && s.os[r.a].remaining > 0 && |s.At(r.side).ids| == |s.At(r.side).levels| > 0
    ensures s.At(r.side).ids[0] != [] && PriceTime.Crosses(r.o.side, r.o.price, s.At(r.side).levels[0].price)
  {
  }

  lemma ShapeSame(h: Half)
    requires |h.ids| == |h.levels|
    ensures ShapeKept(h, h)
  {
  }

  lemma ShapeTwice(h0: Half, h1: Half, h2: Half)
    requires ShapeKept(h0, h1) && ShapeKept(h1, h2)
    ensures ShapeKept(h0, h2) && |h2.ids| == |h0.ids|
  {
  }

  /** The best level keeps its price, so it still crosses while it has orders. */
  lemma StillOpen(r: Run, h0: Half, s: Snap)
    requires ShapeKept(h0, s.At(r.side)) && |h0.ids| > 0 && s.At(r.side).ids[0] != []
    requires PriceTime.Crosses(r.o.side, r.o.price, h0.levels[0].price)
    requires r.a < |s.os| && s.os[r.a].remaining > 0
    ensures Open(r, s)
  {
  }

  lemma KeepValid(out: OutputBuffer)
    requires out.Valid()
    ensures Keep(out.sent + []) == out.sent
  {
    assert out.sent + [] == out.sent;
  }

  /** At the start nothing has been traded. */
  lemma ProgressStart(s: Snap, side: Side, a: nat, o: NewOrder, symbol: string)
    requires Coherent(s) && InHand(s, a)
    ensures Progress(s, s, side, a, o, symbol, [])
  {
    hide SideOk, Indexed, FlatView, Flat, PriceTime.Match;
    var m := PriceTime.Match(symbol, o, s.os[a].remaining, FlatView(s, side));
    assert [] + m.trades == m.trades;
  }

  lemma RunningOrder(b: Book, out: OutputBuffer, r: Run, trades: seq<Msg>)
    requires Running(b, out, r, trades)
    ensures Carries(b.pool.os[r.a], r.o) && Coherent(b.S()) && InHand(b.S(), r.a)
  {
    hide Coherent, PriceTime.Match;
  }

  lemma RunningStart(b: Book, out: OutputBuffer, r: Run)
    requires b.Wf() && Coherent(b.S()) && out.Valid() && InHand(b.S(), r.a) && Carries(b.pool.os[r.a], r.o)
    requires r.s0 == b.S() && r.sent == out.sent && r.side == r.o.side.Opposite()
    requires r.fits ==> WillFit(b.orderMap.t, b.orderMap.limit, r.h, b.S(), r.side, r.a, r.o)
    ensures Running(b, out, r, [])
  {
    hide Coherent, PriceTime.Match, BookSide.Valid, Pool.Valid, ProbeTable.ProbeMap.Valid;
    ProgressStart(b.S(), r.side, r.a, r.o, b.symbol);
    KeepValid(out);
  }

  /** Drop the best level once its list has run empty. */
  method DropBest(b: Book, out: OutputBuffer, side: Side, ghost r: Run, ghost trades: seq<Msg>)
    requires Running(b, out, r, trades) && side == r.side
    requires |b.At(side).ids| > 0 && b.At(side).ids[0] == []
    modifies b.At(side), b.At(side).slots, b.pool, b.pool.freeList
    ensures Running(b, out, r, trades) && b.pool.os == old(b.pool.os)
    ensures b.At(side).ids == RemoveAt(old(b.At(side).ids), 0)
    ensures Flat(b.S().At(side)) == old(Flat(b.S().At(side)))
  {
    hide *;
    Sides(b);
    ghost var s := b.S();
    RunningParts(b, out, r, trades);
    RunningOrder(b, out, r, trades);
    LevelHead(s, side, 0);
    ProgressDrop(r.s0, s, side, r.a, r.o, b.symbol, trades);
    RemoveLevel(b, side, 0);
    DroppedIs(s, b.S(), side);
    WillFitSame(b.orderMap.t, b.orderMap.limit, r.h, s, b.S(), side, r.a, r.o);
    RunningIs(b, out, r, trades);
  }

  lemma DroppedIs(s: Snap, s': Snap, side: Side)
    requires |s.At(side).levels| == |s.At(side).ids| > 0 && s.At(side).ids[0] == []
    requires s'.os == s.os && s'.free == s.free + s.At(side).ids[0] && s'.m == s.m
    requires s'.At(side.Opposite()) == s.At(side.Opposite())
    requires s'.At(side) == Half(RemoveAt(s.At(side).levels, 0), RemoveAt(s.At(side).ids, 0))
    ensures s' == Dropped(s, side, 0)
  {
    assert s.free + [] == s.free;
  }

  lemma WillFitSame(t: seq<ProbeTable.Slot<Location>>, limit: nat, h: nat, s: Snap, s': Snap, side: Side, a: nat, o: NewOrder)
    requires s'.os == s.os && FlatView(s', side) == FlatView(s, side)
    ensures WillFit(t, limit, h, s, side, a, o) ==> WillFit(t, limit, h, s', side, a, o)
  {
    hide FlatView;
  }

  /** One pass of the outer loop: trade at the best level, then drop it if it ran empty. */
  method MatchPass(b: Book, out: OutputBuffer, side: Side, a: nat, ghost r: Run, ghost trades: seq<Msg>)
    returns (ghost more: seq<Msg>)
    requires Running(b, out, r, trades) && Open(r, b.S()) && side == r.side && a == r.a
    requires NoneEmpty(b.At(side).ids)
    modifies b.At(side), b.At(side).slots, b.orderMap, b.orderMap.slots
    modifies b.pool, b.pool.orders, b.pool.freeList, out, out.messages
    ensures Running(b, out, r, more) && NoneEmpty(b.At(side).ids)
    ensures |Flat(b.S().At(side))| < old(|Flat(b.S().At(side))|)
         || (|Flat(b.S().At(side))| == old(|Flat(b.S().At(side))|) && b.pool.os[a].remaining == 0)
  {
    hide *;
    Sides(b);
    Caps();
    ghost var h0 := b.S().At(side);
    OpenFacts(r, b.S());
    more := MatchLevel(b, out, side, a, r, trades);
    ShapeFacts(h0, b.S().At(side));
    RunningOrder(b, out, r, more);
    LevelHead(b.S(), side, 0);
    NoneEmptyKept(h0, b.S().At(side));
    if b.At(side).Get(0).head == NIL {
      DropBest(b, out, side, r, more);
    }
  }

  /** Match the order of `r` against the opposite side: price levels best first, oldest
      order first within a level, at most 200 orders a pass and 10240 passes.  The caps
      never cut the match short: what is traded and what is left is the greedy match, after
      at most 8192 passes. */
  method MatchOrder(b: Book, out: OutputBuffer, a: nat, ghost r: Run) returns (ghost trades: seq<Msg>, iterations: nat)
    requires Running(b, out, r, []) && r.s0 == b.S() && a == r.a && NoneEmpty(b.At(r.side).ids)
    modifies b.At(r.side), b.At(r.side).slots, b.orderMap, b.orderMap.slots
    modifies b.pool, b.pool.orders, b.pool.freeList, out, out.messages
    ensures Running(b, out, r, trades) && NoneEmpty(b.At(r.side).ids)
    ensures PriceTime.Match(b.symbol, r.o, r.s0.os[a].remaining, FlatView(r.s0, r.side))
         == PriceTime.Matched(trades, b.pool.os[a].remaining, FlatView(b.S(), r.side))
    ensures PriceTime.FilledKeys(r.o, b.pool.os[a].remaining, FlatView(b.S(), r.side)) == {}
    ensures iterations <= POOL < MAX_MATCH_ITERATIONS
  {
    hide *;
    Sides(b);
    Caps();
    RunningOrder(b, out, r, []);
    RunningParts(b, out, r, []);
    var side := if b.pool.Get(a).side == Buy then Sell else Buy;
    CarriesSide(b.pool.os[a], r.o);
    FlatBound(b.S(), side, a);
    trades, iterations := [], 0;
    while b.pool.Get(a).remaining > 0 && b.At(side).num > 0 && iterations < MAX_MATCH_ITERATIONS
      invariant Running(b, out, r, trades) && NoneEmpty(b.At(side).ids)
      invariant iterations <= |Flat(r.s0.At(side))| - |Flat(b.S().At(side))| + (if b.pool.os[a].remaining == 0 then 1 else 0)
      decreases MAX_MATCH_ITERATIONS - iterations
    {
      iterations := iterations + 1;
      var order, price := b.pool.Get(a), b.At(side).Get(0).price;
      var canMatch := order.market || (if order.side == Buy then order.price >= price else order.price <= price);
      RunningOrder(b, out, r, trades);
      CanMatchIs(order, r.o, price);
      if !canMatch {
        break;
      }
      FirstNotEmpty(b.At(side).ids);
      OpenIs(r, b.S());
      trades := MatchPass(b, out, side, a, r, trades);
    }
    Finish(b, out, r, trades);
  }

  lemma CarriesSide(a: Order, o: NewOrder)
    requires Carries(a, o)
    ensures o.side.Opposite() == if a.side == Buy then Sell else Buy
  {
  }

  lemma CanMatchIs(a: Order, o: NewOrder, price: u32)
    requires Carries(a, o)
    ensures (a.market || (if a.side == Buy then a.price >= price else a.price <= price))
        <==> PriceTime.Crosses(o.side, o.price, price)
  {
  }

  lemma FirstNotEmpty(ids: seq<seq<nat>>)
    requires NoneEmpty(ids) && |ids| > 0
    ensures ids[0] != []
  {
  }

  lemma OpenIs(r: Run, s: Snap)
    requires r.a < |s.os| && s.os[r.a].remaining > 0 && |s.At(r.side).ids| == |s.At(r.side).levels| > 0
    requires s.At(r.side).ids[0] != [] && PriceTime.Crosses(r.o.side, r.o.price, s.At(r.side).levels[0].price)
    ensures Open(r, s)
  {
  }

  lemma ShapeFacts(h0: Half, h: Half)
    requires ShapeKept(h0, h)
    ensures |h.ids| == |h.levels| == |h0.ids|
  {
  }

  lemma NoneEmptyKept(h0: Half, h: Half)
    requires ShapeKept(h0, h) && NoneEmpty(h0.ids) && |h.ids| > 0
    ensures h.ids[0] != [] ==> NoneEmpty(h.ids)
    ensures NoneEmpty(RemoveAt(h.ids, 0))
  {
  }

  lemma Finish(b: Book, out: OutputBuffer, r: Run, trades: seq<Msg>)
    requires Running(b, out, r, trades) && NoneEmpty(b.At(r.side).ids)
    requires b.pool.os[r.a].remaining == 0 || b.At(r.side).num == 0
          || (b.At(r.side).num > 0 && !PriceTime.Crosses(r.o.side, r.o.price, b.At(r.side).levels[0].price))
    ensures r.a < |r.s0.os|
    ensures PriceTime.Match(b.symbol, r.o, r.s0.os[r.a].remaining, FlatView(r.s0, r.side))
         == PriceTime.Matched(trades, b.pool.os[r.a].remaining, FlatView(b.S(), r.side))
    ensures PriceTime.FilledKeys(r.o, b.pool.os[r.a].remaining, FlatView(b.S(), r.side)) == {}
  {
    hide Coherent, PriceTime.Match, PriceTime.FilledKeys, BookSide.Valid, Pool.Valid, ProbeTable.ProbeMap.Valid, NoneEmpty, Progress, FlatView;
    RunningParts(b, out, r, trades);
    ProgressDone(r.s0, b.S(), r.side, r.a, r.o, b.symbol, trades);
  }
}
