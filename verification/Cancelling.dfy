/** Cancelling one order by key. */
module Cancelling {
  import opened Orders
  import opened Sequences
  import PriceTime
  import opened OrderPool
  import opened PriceLevels
  import ProbeTable
  import opened BookState
  import opened OrderBook
  import opened Matching
  import opened BookOps

  lemma {:induction false} DropKeyAt(flat: seq<Resting>, n: nat)
    requires n < |flat| && forall i :: 0 <= i < n ==> RestKey(flat[i]) != RestKey(flat[n])
    ensures PriceTime.DropKey(flat, RestKey(flat[n])) == RemoveAt(flat, n)
  {
    if n > 0 {
      DropKeyAt(flat[1..], n - 1);
    }
  }

  /** Orders in view have distinct keys. */
  lemma ViewKeysDistinct(s: Snap, side: Side, i: nat, j: nat)
    requires Coherent(s) && i < |Flat(s.At(side))| && j < |Flat(s.At(side))|
    ensures RestKey(FlatView(s, side)[i]) == RestKey(FlatView(s, side)[j]) <==> i == j
  {
    var h := s.At(side);
    FlatDistinct(s.os, side, h.levels, h.ids);
    KeysDistinct(s, Flat(h)[i], Flat(h)[j]);
  }

  /** The place of a live key: its order, level and position. */
  lemma PlaceOf(s: Snap, key: nat) returns (l: nat, k: nat)
    requires Coherent(s) && key in s.m
    ensures var loc := s.m[key];
            && Place(s, loc.side, l, k) && s.At(loc.side).ids[l][k] == loc.order
            && s.At(loc.side).levels[l].price == loc.price && OrderKey(s.os[loc.order]) == key
            && loc.order !in s.free
  {
    var i := s.m[key].order;
    LinkedFacts(s, i);
    var side := s.os[i].side;
    l, k := FlatMember(s.os, side, s.At(side).levels, s.At(side).ids, i);
    PlaceOk(s, side, l, k);
  }

  /** Removing the order of a key drops that key from the view of its side. */
  lemma RemovedDrops(s: Snap, side: Side, l: nat, k: nat)
    requires Coherent(s) && Place(s, side, l, k)
    ensures FlatView(Removed(s, side, l, k), side)
         == PriceTime.DropKey(FlatView(s, side), OrderKey(s.os[s.At(side).ids[l][k]]))
    ensures PriceTime.HasKey(FlatView(s, side), OrderKey(s.os[s.At(side).ids[l][k]]))
    ensures !PriceTime.HasKey(FlatView(s, side.Opposite()), OrderKey(s.os[s.At(side).ids[l][k]]))
  {
    hide SideOk, Indexed, Unlink;
    var h := s.At(side);
    var flat, n, p := FlatView(s, side), Offset(h.ids, l, k), h.ids[l][k];
    FlatRemove(h.ids, l, k);
    RemovedFlat(s, side, l, k);
    assert RestKey(flat[n]) == OrderKey(s.os[p]);
    forall i | 0 <= i < n
      ensures RestKey(flat[i]) != RestKey(flat[n])
    {
      ViewKeysDistinct(s, side, i, n);
    }
    DropKeyAt(flat, n);
    NotOnOtherSide(s, side, n);
  }

  lemma NotOnOtherSide(s: Snap, side: Side, n: nat)
    requires Coherent(s) && n < |Flat(s.At(side))|
    ensures !PriceTime.HasKey(FlatView(s, side.Opposite()), RestKey(FlatView(s, side)[n]))
  {
    var p, other := Flat(s.At(side))[n], Flat(s.At(side.Opposite()));
    assert Linked(s, p);
    LinkedFacts(s, p);
    forall j | 0 <= j < |other|
      ensures RestKey(FlatView(s, side.Opposite())[j]) != RestKey(FlatView(s, side)[n])
    {
      KeysDistinct(s, other[j], p);
      LinkedFacts(s, other[j]);
      assert FlatView(s, side)[n] == Strip(s.os[p]);
    }
  }

  /** Take the `k`-th order `p` of level `l` off its list and give it back to the pool. */
  method Detach(b: Book, side: Side, l: nat, p: nat, ghost k: nat)
    requires b.Wf() && Place(b.S(), side, l, k) && b.At(side).ids[l][k] == p && p !in b.pool.free
    modifies b.At(side), b.At(side).slots, b.pool, b.pool.orders, b.pool.freeList
    ensures b.Wf() && b.pool.os == Unlink(old(b.pool.os), p) && b.pool.free == old(b.pool.free) + [p]
    ensures b.At(side).ids == old(b.At(side).ids)[l := RemoveAt(old(b.At(side).ids[l]), k)]
    ensures b.At(side).levels == old(b.At(side).levels)[l := Shorter(old(b.At(side).levels[l]), old(b.pool.os[p]))]
  {
    hide Unlink, RemoveAt, Pool.Valid, BookSide.Valid, ProbeTable.ProbeMap.Valid;
    var half := b.At(side);
    half.Put(l, half.Get(l).(total := Wrap32(half.Get(l).total - b.pool.Get(p).remaining)), half.ids[l]);
    ListRemove(b.pool, half, l, p, k);
    b.pool.Free(p);
  }

  /** The state once an order is unlinked, and once its level, if now empty, is dropped. */
  lemma CancelledCoherent(s: Snap, side: Side, l: nat, k: nat)
    requires Coherent(s) && Place(s, side, l, k) && NoneEmptyBut(s.At(side).ids, l)
    ensures var s1 := Removed(s, side, l, k);
            && |s1.At(side).levels| == |s1.At(side).ids| == |s.At(side).ids|
            && (s1.At(side).levels[l].head == NIL <==> s1.At(side).ids[l] == [])
            && var s2 := if s1.At(side).ids[l] == [] then Dropped(s1, side, l) else s1;
               && Coherent(s2) && NoneEmpty(s2.At(side).ids)
               && FlatView(s2, side) == PriceTime.DropKey(FlatView(s, side), OrderKey(s.os[s.At(side).ids[l][k]]))
               && FlatView(s2, side.Opposite()) == FlatView(s, side.Opposite())
               && Slots(s2) == Slots(s) && Elsewhere(s.os, s2.os, Slots(s))
  {
    hide SideOk, Indexed, Unlink, View, Concat, PriceTime.DropKey;
    var s1 := Removed(s, side, l, k);
    RemovedCoherent(s, side, l, k);
    RemovedDrops(s, side, l, k);
    RemovedOtherHalf(s, side, l, k);
    RemovedSlots(s, side, l, k);
    CoherentSorted(s1, side);
    LevelHead(s1, side, l);
    if s1.At(side).ids[l] == [] {
      DroppedCoherent(s1, side, l);
      NoneEmptyDropped(s1.At(side).ids, l);
      DroppedSlots(s1, side, l);
    }
  }

  lemma NoneEmptyDropped(ids: seq<seq<nat>>, l: nat)
    requires NoneEmptyBut(ids, l) && l < |ids|
    ensures NoneEmpty(RemoveAt(ids, l))
  {
  }

  lemma DroppedSlots(s: Snap, side: Side, l: nat)
    requires Coherent(s) && l < |s.At(side).levels| && s.At(side).ids[l] == []
    ensures Slots(Dropped(s, side, l)) == Slots(s)
  {
    hide SideOk, Indexed, Flat;
    CoherentSorted(s, side);
    DroppedCoherent(s, side, l);
    assert forall d :: Flat(Dropped(s, side, l).At(d)) == Flat(s.At(d));
    assert Flat(Dropped(s, side, l).At(Buy)) == Flat(s.At(Buy)) && Flat(Dropped(s, side, l).At(Sell)) == Flat(s.At(Sell));
  }

  lemma RemovedSlots(s: Snap, side: Side, l: nat, k: nat)
    requires Coherent(s) && Place(s, side, l, k)
    ensures Slots(Removed(s, side, l, k)) == Slots(s)
    ensures Elsewhere(s.os, Removed(s, side, l, k).os, Slots(s))
  {
    hide SideOk, Indexed, Unlink, View;
    var h, p, s1 := s.At(side), s.At(side).ids[l][k], Removed(s, side, l, k);
    RemovedLinked(s, side, l, k);
    assert forall i: nat :: i in Slots(s) <==> i in s.free || Linked(s, i);
    assert forall i: nat :: i in Slots(s1) <==> i in s1.free || Linked(s1, i);
    ListedLinked(s, side, l);
    UnlinkElsewhere(s, side, l, k);
  }

  lemma ListedLinked(s: Snap, side: Side, l: nat)
    requires l < |s.At(side).ids|
    ensures forall i :: i in s.At(side).ids[l] ==> Linked(s, i)
  {
    ConcatSplit(s.At(side).ids, l);
  }

  lemma UnlinkElsewhere(s: Snap, side: Side, l: nat, k: nat)
    requires HalfOk(s, side) && Place(s, side, l, k)
    ensures |Unlink(s.os, s.At(side).ids[l][k])| == |s.os|
    ensures forall i: nat :: i < |s.os| && i !in s.At(side).ids[l] ==> Unlink(s.os, s.At(side).ids[l][k])[i] == s.os[i]
  {
    var h := s.At(side);
    UnlinkFrame(s.os, h.ids[l], h.levels[l].head, h.levels[l].tail, k);
  }

  /** The state once the `k`-th order of level `l` is cancelled: unlinked, freed, out of
      the map, and its level dropped if that was its last order. */
  ghost function Cancelled(s: Snap, side: Side, l: nat, k: nat): Snap
    requires Coherent(s) && Place(s, side, l, k)
  {
    var s1 := Removed(s, side, l, k);
    if s1.At(side).ids[l] == [] then Dropped(s1, side, l) else s1
  }

  /** The level and list arrays of one side, after the order was detached and any empty level dropped. */
  lemma CancelledIs(s: Snap, s': Snap, side: Side, l: nat, k: nat)
    requires Coherent(s) && Place(s, side, l, k)
    requires var s1 := Removed(s, side, l, k);
             && s'.os == s1.os && s'.m == s1.m && s'.At(side.Opposite()) == s.At(side.Opposite())
             && if s1.At(side).ids[l] == [] then
                  && s'.free == s1.free + []
                  && s'.At(side) == Half(RemoveAt(s1.At(side).levels, l), RemoveAt(s1.At(side).ids, l))
                else s'.free == s1.free && s'.At(side) == s1.At(side)
    ensures s' == Cancelled(s, side, l, k)
  {
    hide SideOk, Indexed, Unlink, RemoveAt, Linked;
    var s1 := Removed(s, side, l, k);
    assert s1.free + [] == s1.free;
  }

  lemma RemovedParts(s: Snap, side: Side, l: nat, k: nat)
    requires Place(s, side, l, k)
    ensures var h, p, s1 := s.At(side), s.At(side).ids[l][k], Removed(s, side, l, k);
            && p < |s.os| && l < |h.levels| == |h.ids|
            && s1.os == Unlink(s.os, p) && s1.free == s.free + [p] && s1.m == s.m - {OrderKey(s.os[p])}
            && s1.At(side) == Half(h.levels[l := Shorter(h.levels[l], s.os[p])], h.ids[l := RemoveAt(h.ids[l], k)])
            && s1.At(side.Opposite()) == s.At(side.Opposite())
  {
    hide Unlink, RemoveAt;
  }

  lemma CancelledParts(s: Snap, side: Side, l: nat, k: nat)
    requires Coherent(s) && Place(s, side, l, k) && NoneEmpty(s.At(side).ids)
    ensures var s1, s2 := Removed(s, side, l, k), Cancelled(s, side, l, k);
            && l < |s1.At(side).levels| == |s1.At(side).ids|
            && (s1.At(side).levels[l].head == NIL <==> s1.At(side).ids[l] == [])
            && Chain(s1.os, s1.At(side).ids[l], s1.At(side).levels[l].head, s1.At(side).levels[l].tail)
            && Coherent(s2) && NoneEmpty(s2.At(side).ids)
            && FlatView(s2, side) == PriceTime.DropKey(FlatView(s, side), OrderKey(s.os[s.At(side).ids[l][k]]))
            && FlatView(s2, side.Opposite()) == FlatView(s, side.Opposite())
            && Slots(s2) == Slots(s) && Elsewhere(s.os, s2.os, Slots(s))
  {
    hide SideOk, Indexed, Removed, NoneEmpty, NoneEmptyBut, Slots, Elsewhere, FlatView, Chain;
    NoneEmptyAny(s.At(side).ids, l);
    CancelledCoherent(s, side, l, k);
    RemovedCoherent(s, side, l, k);
    LevelHead(Removed(s, side, l, k), side, l);
  }

  /** Take the order of a live key out of the book. */
  method RemoveOrder(b: Book, loc: Location, key: nat)
    requires b.Valid() && key in b.orderMap.m && loc == b.orderMap.m[key]
    modifies b.At(loc.side), b.At(loc.side).slots, b.orderMap, b.orderMap.slots
    modifies b.pool, b.pool.orders, b.pool.freeList
    ensures b.Valid()
    ensures FlatView(b.S(), loc.side) == PriceTime.DropKey(old(FlatView(b.S(), loc.side)), key)
    ensures FlatView(b.S(), loc.side.Opposite()) == old(FlatView(b.S(), loc.side.Opposite()))
    ensures Slots(b.S()) == old(Slots(b.S())) && Elsewhere(old(b.pool.os), b.pool.os, old(Slots(b.S())))
  {
    hide *;
    Sides(b);
    PoolConstants();
    ghost var s, side := b.S(), loc.side;
    ValidParts(b);
    ghost var l, k := PlaceOf(s, key);
    RemovedParts(s, side, l, k);
    CancelledParts(s, side, l, k);
    CoherentSorted(s, side);
    ghost var s1 := Removed(s, side, l, k);
    var idx := b.At(loc.side).Find(loc.price);
    if idx != -1 {
      LevelUnique(s, side, l, idx);
      Detach(b, loc.side, idx, loc.order, k);
      if b.At(loc.side).Get(idx).head == NIL {
        RemoveLevel(b, loc.side, idx);
      }
    }
    var _ := b.orderMap.Remove(key);
    WfKept(b);
    assert b.S().At(side.Opposite()) == s.At(side.Opposite());
    CancelledIs(s, b.S(), side, l, k);
    assert NoneEmpty(b.At(side.Opposite()).ids);
    ValidIs(b, side);
  }

  lemma LevelUnique(s: Snap, side: Side, l: nat, i: nat)
    requires Coherent(s) && l < |s.At(side).levels| && i < |s.At(side).levels|
    requires s.At(side).levels[l].price == s.At(side).levels[i].price
    ensures l == i
  {
  }

  /** The map locates a key on the side where it is live. */
  lemma LocatedSide(s: Snap, key: nat)
    requires Coherent(s) && key in s.m
    ensures s.m[key].side == if PriceTime.HasKey(FlatView(s, Buy), key) then Buy else Sell
  {
    hide SideOk, Indexed, View, Removed;
    var l, k := PlaceOf(s, key);
    RemovedDrops(s, s.m[key].side, l, k);
  }

  lemma CancelIs(v: PriceTime.Book, user: u32, oid: u32, side: Side, w: PriceTime.Book)
    requires w == v.(bids := w.bids, asks := w.asks)
    requires PriceTime.Live(v, Key(user, oid)) && side == (if PriceTime.HasKey(v.bids, Key(user, oid)) then Buy else Sell)
    requires w.At(side) == PriceTime.DropKey(v.At(side), Key(user, oid)) && w.At(side.Opposite()) == v.At(side.Opposite())
    ensures var a := PriceTime.Announce(w);
            PriceTime.CancelOrder(v, user, oid) == PriceTime.Outcome(a.book, [CancelAck(v.symbol, user, oid)] + a.msgs)
  {
    hide PriceTime.HasKey, PriceTime.DropKey, PriceTime.Announce;
  }

  lemma NotLive(v: PriceTime.Book, user: u32, oid: u32)
    requires !PriceTime.Live(v, Key(user, oid))
    ensures PriceTime.CancelOrder(v, user, oid) == PriceTime.Outcome(v, [CancelAck(v.symbol, user, oid)])
  {
  }

  lemma LiveInMap(b: Book, key: nat)
    requires b.Valid()
    ensures key in b.orderMap.m <==> PriceTime.Live(b.V(), key)
    ensures key in b.orderMap.m ==>
              b.orderMap.m[key].side == if PriceTime.HasKey(b.V().bids, key) then Buy else Sell
  {
    hide Coherent, FlatView, PriceTime.HasKey, Book.Wf, NoneEmpty;
    LiveIs(b.S(), key);
    if key in b.orderMap.m {
      LocatedSide(b.S(), key);
    }
  }

  /** Cancel an order by key.  A key that is not live is acknowledged all the same. */
  method CancelOrder(b: Book, out: OutputBuffer, user: u32, oid: u32)
    requires b.Valid() && out.Valid()
    modifies b`seenBid, b`seenAsk, b`bidActive, b`askActive
    modifies b.bids, b.bids.slots, b.asks, b.asks.slots, b.orderMap, b.orderMap.slots
    modifies b.pool, b.pool.orders, b.pool.freeList, out, out.messages
    ensures b.Valid() && out.Valid() && b.V() == PriceTime.CancelOrder(old(b.V()), user, oid).book
    ensures out.sent == Keep(old(out.sent) + PriceTime.CancelOrder(old(b.V()), user, oid).msgs)
    ensures Slots(b.S()) == old(Slots(b.S())) && Elsewhere(old(b.pool.os), b.pool.os, old(Slots(b.S())))
  {
    hide *;
    Sides(b);
    ghost var v, own, os, sent := b.V(), Slots(b.S()), b.pool.os, out.sent;
    var key := Key(user, oid);
    ValidParts(b);
    LiveInMap(b, key);
    ElsewhereSame(os, own);
    var idx := b.orderMap.Find(key);
    if idx == -1 {
      out.Add(CancelAck(b.symbol, user, oid));
      NotLive(v, user, oid);
      return;
    }
    var loc := b.orderMap.Get(idx).value;
    assert loc.side == Buy || loc.side == Sell;
    RemoveOrder(b, loc, key);
    ghost var w := b.V();
    out.Add(CancelAck(b.symbol, user, oid));
    assert b.Valid() && b.V() == w && w.symbol == v.symbol && Slots(b.S()) == own && Elsewhere(os, b.pool.os, own);
    assert w == v.(bids := w.bids, asks := w.asks);
    CheckTop(b, out);
    CancelIs(v, user, oid, loc.side, w);
    KeepAppend(sent, [CancelAck(v.symbol, user, oid)], PriceTime.Announce(w).msgs);
  }
}
