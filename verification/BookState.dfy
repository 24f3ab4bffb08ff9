/** The state that one book and the shared pool keep consistent, as one value,
    and what each elementary change to it preserves. */
module BookState {
  import opened Orders
  import opened Sequences
  import opened PriceTime
  import opened OrderPool
  import opened PriceLevels

  datatype Location = Location(side: Side, price: u32, order: nat)

  datatype Half = Half(levels: seq<Level>, ids: seq<seq<nat>>)

  datatype Snap = Snap(os: seq<Order>, free: seq<nat>, bids: Half, asks: Half, m: map<nat, Location>) {
    function At(side: Side): Half {
      if side == Buy then bids else asks
    }

    function With(side: Side, h: Half): Snap {
      if side == Buy then this.(bids := h) else this.(asks := h)
    }
  }

  ghost function Flat(h: Half): seq<nat> {
    Concat(h.ids)
  }

  ghost function FlatView(s: Snap, side: Side): seq<Resting> {
    View(s.os, Flat(s.At(side)))
  }

  /** Order `i` is linked in some level of this book. */
  ghost predicate Linked(s: Snap, i: nat) {
    i in Flat(s.bids) || i in Flat(s.asks)
  }

  ghost predicate HalfOk(s: Snap, side: Side) {
    SideOk(s.os, side, s.At(side).levels, s.At(side).ids)
  }

  /** The order map holds exactly the keys of linked orders, each with its place. */
  ghost predicate Indexed(s: Snap) {
    && (forall i: nat :: Linked(s, i) && i < |s.os| ==>
          && OrderKey(s.os[i]) in s.m
          && s.m[OrderKey(s.os[i])] == Location(s.os[i].side, s.os[i].price, i))
    && (forall k :: k in s.m ==>
          && s.m[k].order < |s.os| && Linked(s, s.m[k].order)
          && OrderKey(s.os[s.m[k].order]) == k)
  }

  ghost predicate Coherent(s: Snap) {
    && |s.os| == POOL
    && HalfOk(s, Buy) && HalfOk(s, Sell)
    && (forall i :: i in s.free ==> !Linked(s, i))
    && Indexed(s)
  }

  lemma EmptyCoherent(s: Snap)
    requires |s.os| == POOL && s.bids == Half([], []) && s.asks == Half([], []) && s.m == map[]
    ensures Coherent(s) && FlatView(s, Buy) == [] && FlatView(s, Sell) == []
  {
  }

  lemma LinkedFacts(s: Snap, i: nat)
    requires HalfOk(s, Buy) && HalfOk(s, Sell) && Linked(s, i)
    ensures i < |s.os| && s.os[i].price > 0 && 0 < s.os[i].remaining <= s.os[i].quantity
    ensures i in Flat(s.At(s.os[i].side)) && i !in Flat(s.At(s.os[i].side.Opposite()))
  {
    if i in Flat(s.bids) {
      var l, k := FlatMember(s.os, Buy, s.bids.levels, s.bids.ids, i);
    }
    if i in Flat(s.asks) {
      var l, k := FlatMember(s.os, Sell, s.asks.levels, s.asks.ids, i);
    }
  }

  /** Linked orders have distinct keys. */
  lemma KeysDistinct(s: Snap, i: nat, j: nat)
    requires Coherent(s) && Linked(s, i) && Linked(s, j)
    ensures i < |s.os| && j < |s.os|
    ensures OrderKey(s.os[i]) == OrderKey(s.os[j]) ==> i == j
  {
    LinkedFacts(s, i);
    LinkedFacts(s, j);
  }

  /** The map stays right when linked orders keep their identity and place. */
  lemma IndexedFrame(s: Snap, s': Snap)
    requires Indexed(s) && |s.os| == |s'.os| && s'.m == s.m
    requires Flat(s'.bids) == Flat(s.bids) && Flat(s'.asks) == Flat(s.asks)
    requires forall i: nat :: i < |s.os| && Linked(s, i) ==>
               OrderKey(s'.os[i]) == OrderKey(s.os[i]) && s'.os[i].side == s.os[i].side && s'.os[i].price == s.os[i].price
    ensures Indexed(s')
  {
    assert forall i: nat :: Linked(s', i) <==> Linked(s, i);
  }

  // ----- Changing an order that is in no list -----

  lemma Outside(s: Snap, i: nat, o: Order)
    requires Coherent(s) && i < POOL && !Linked(s, i)
    ensures Coherent(s.(os := s.os[i := o]))
    ensures forall side :: FlatView(s.(os := s.os[i := o]), side) == FlatView(s, side)
  {
    var s' := s.(os := s.os[i := o]);
    IndexedFrame(s, s');
    SideFrame(s.os, s'.os, Buy, s.bids.levels, s.bids.ids);
    SideFrame(s.os, s'.os, Sell, s.asks.levels, s.asks.ids);
    assert HalfOk(s', Buy) && HalfOk(s', Sell);
    assert forall j: nat :: Linked(s', j) <==> Linked(s, j);
    forall side
      ensures FlatView(s', side) == FlatView(s, side)
    {
      if side == Buy {} else {}
    }
  }

  /** Orders on the other side are in none of this side's lists. */
  lemma OtherSideApart(s: Snap, side: Side, l: nat)
    requires HalfOk(s, Buy) && HalfOk(s, Sell) && l < |s.At(side).ids|
    ensures forall i :: i in Flat(s.At(side.Opposite())) ==> i !in s.At(side).ids[l]
  {
    LevelMembers(s.os, side, s.At(side).levels[l], s.At(side).ids[l]);
    forall i | i in Flat(s.At(side.Opposite()))
      ensures i !in s.At(side).ids[l]
    {
      LinkedFacts(s, i);
    }
  }

  // ----- Unlinking an order -----

  ghost predicate Place(s: Snap, side: Side, l: nat, k: nat) {
    var h := s.At(side);
    && |h.levels| == |h.ids| && l < |h.ids| && k < |h.ids[l]|
    && h.ids[l][k] < |s.os|
    && -1 <= s.os[h.ids[l][k]].prev < |s.os| && -1 <= s.os[h.ids[l][k]].next < |s.os|
  }

  lemma PlaceOk(s: Snap, side: Side, l: nat, k: nat)
    requires HalfOk(s, side) && l < |s.At(side).ids| && k < |s.At(side).ids[l]|
    ensures Place(s, side, l, k)
  {
    var h := s.At(side);
    UnlinkChain(s.os, h.ids[l], h.levels[l].head, h.levels[l].tail, k);
  }

  /** Level `l` once its `k`-th order, `o`, is unlinked. */
  ghost function Shorter(level: Level, o: Order): Level {
    level.(total := Wrap32(level.total - o.remaining),
           head := if o.prev == NIL then o.next else level.head,
           tail := if o.next == NIL then o.prev else level.tail)
  }

  /** The `k`-th order of level `l` leaves the list and the map and joins the free list. */
  ghost function Removed(s: Snap, side: Side, l: nat, k: nat): Snap
    requires Place(s, side, l, k)
  {
    var h := s.At(side);
    var p := h.ids[l][k];
    Snap(Unlink(s.os, p), s.free + [p], s.bids, s.asks, s.m - {OrderKey(s.os[p])})
      .With(side, Half(h.levels[l := Shorter(h.levels[l], s.os[p])], h.ids[l := RemoveAt(h.ids[l], k)]))
  }

  lemma ViewRemove(os: seq<Order>, os': seq<Order>, ids: seq<nat>, k: nat)
    requires SameButLinks(os, os') && k < |ids|
    ensures View(os', RemoveAt(ids, k)) == RemoveAt(View(os, ids), k)
  {
  }

  lemma OrdersRemain(os: seq<Order>, os': seq<Order>, side: Side, price: u32, ids: seq<nat>, k: nat)
    requires SameButLinks(os, os') && k < |ids|
    requires forall i :: 0 <= i < |ids| ==> ids[i] < |os| && OrderOk(os[ids[i]], side, price)
    ensures forall j :: 0 <= j < |ids| - 1 ==> RemoveAt(ids, k)[j] < |os| && OrderOk(os'[RemoveAt(ids, k)[j]], side, price)
  {
    forall j | 0 <= j < |ids| - 1
      ensures RemoveAt(ids, k)[j] < |os| && OrderOk(os'[RemoveAt(ids, k)[j]], side, price)
    {
      assert RemoveAt(ids, k)[j] == ids[if j < k then j else j + 1];
    }
  }

  lemma TotalRemain(os: seq<Order>, os': seq<Order>, total: u32, ids: seq<nat>, k: nat)
    requires SameButLinks(os, os') && k < |ids| && ids[k] < |os|
    requires total == Wrap32(TotalQty(View(os, ids)))
    ensures Wrap32(total - os[ids[k]].remaining) == Wrap32(TotalQty(View(os', RemoveAt(ids, k))))
  {
    ViewRemove(os, os', ids, k);
    TotalRemove(View(os, ids), k);
    WrapSub(TotalQty(View(os, ids)), os[ids[k]].remaining);
  }

  lemma ShorterFrom(os: seq<Order>, os': seq<Order>, side: Side, level: Level, ids: seq<nat>, k: nat, level': Level)
    requires LevelOk(os, side, level, ids) && k < |ids|
    requires SameButLinks(os, os') && Chain(os', RemoveAt(ids, k), level'.head, level'.tail)
    requires level'.price == level.price && level'.total == Wrap32(level.total - os[ids[k]].remaining)
    ensures LevelOk(os', side, level', RemoveAt(ids, k))
  {
    TotalRemain(os, os', level.total, ids, k);
    OrdersRemain(os, os', side, level.price, ids, k);
  }

  lemma ShorterOk(os: seq<Order>, side: Side, level: Level, ids: seq<nat>, k: nat)
    requires LevelOk(os, side, level, ids) && k < |ids|
    requires -1 <= os[ids[k]].prev < |os| && -1 <= os[ids[k]].next < |os|
    ensures LevelOk(Unlink(os, ids[k]), side, Shorter(level, os[ids[k]]), RemoveAt(ids, k))
  {
    var os', level' := Unlink(os, ids[k]), Shorter(level, os[ids[k]]);
    assert Chain(os', RemoveAt(ids, k), level'.head, level'.tail) by {
      UnlinkChain(os, ids, level.head, level.tail, k);
    }
    assert SameButLinks(os, os') by {
      UnlinkFrame(os, ids, level.head, level.tail, k);
    }
    ShorterFrom(os, os', side, level, ids, k, level');
  }

  lemma RemovedOwnHalf(s: Snap, side: Side, l: nat, k: nat)
    requires HalfOk(s, side) && Place(s, side, l, k)
    ensures HalfOk(Removed(s, side, l, k), side)
  {
    var h := s.At(side);
    ShorterOk(s.os, side, h.levels[l], h.ids[l], k);
    UnlinkFrame(s.os, h.ids[l], h.levels[l].head, h.levels[l].tail, k);
    SideUpdate(s.os, Unlink(s.os, h.ids[l][k]), side, h.levels, h.ids, l,
               Shorter(h.levels[l], s.os[h.ids[l][k]]), RemoveAt(h.ids[l], k));
  }

  lemma RemovedOtherHalf(s: Snap, side: Side, l: nat, k: nat)
    requires Coherent(s) && Place(s, side, l, k)
    ensures HalfOk(Removed(s, side, l, k), side.Opposite())
    ensures FlatView(Removed(s, side, l, k), side.Opposite()) == FlatView(s, side.Opposite())
  {
    var h, other := s.At(side), s.At(side.Opposite());
    UnlinkFrame(s.os, h.ids[l], h.levels[l].head, h.levels[l].tail, k);
    OtherSideApart(s, side, l);
    SideFrame(s.os, Unlink(s.os, h.ids[l][k]), side.Opposite(), other.levels, other.ids);
  }

  lemma RemovedFlat(s: Snap, side: Side, l: nat, k: nat)
    requires Coherent(s) && Place(s, side, l, k)
    ensures var n := Offset(s.At(side).ids, l, k);
            && n < |Flat(s.At(side))|
            && Flat(Removed(s, side, l, k).At(side)) == RemoveAt(Flat(s.At(side)), n)
            && FlatView(Removed(s, side, l, k), side) == RemoveAt(FlatView(s, side), n)
    ensures SameButLinks(s.os, Removed(s, side, l, k).os)
  {
    var h := s.At(side);
    FlatRemove(h.ids, l, k);
    UnlinkFrame(s.os, h.ids[l], h.levels[l].head, h.levels[l].tail, k);
    ViewRemove(s.os, Removed(s, side, l, k).os, Flat(h), Offset(h.ids, l, k));
  }

  lemma RemovedLinked(s: Snap, side: Side, l: nat, k: nat)
    requires Coherent(s) && Place(s, side, l, k)
    ensures Linked(s, s.At(side).ids[l][k])
    ensures forall i: nat :: Linked(Removed(s, side, l, k), i) <==> Linked(s, i) && i != s.At(side).ids[l][k]
  {
    var h, h' := s.At(side), Removed(s, side, l, k).At(side);
    var p := h.ids[l][k];
    FlatRemove(h.ids, l, k);
    FlatDistinct(s.os, side, h.levels, h.ids);
    RemoveMembers(Flat(h), Offset(h.ids, l, k));
    assert forall i :: i in Flat(h') <==> i in Flat(h) && i != p;
    assert p !in Flat(s.At(side.Opposite())) by {
      OtherSideApart(s, side, l);
    }
  }

  lemma IndexedRemoved(s: Snap, s': Snap, p: nat)
    requires Coherent(s) && Linked(s, p) && p < |s.os|
    requires SameButLinks(s.os, s'.os) && s'.m == s.m - {OrderKey(s.os[p])}
    requires forall i: nat :: Linked(s', i) <==> Linked(s, i) && i != p
    ensures Indexed(s')
  {
    forall i: nat | Linked(s', i) && i < |s'.os|
      ensures OrderKey(s'.os[i]) in s'.m && s'.m[OrderKey(s'.os[i])] == Location(s'.os[i].side, s'.os[i].price, i)
    {
      KeysDistinct(s, i, p);
    }
  }

  lemma RemovedCoherent(s: Snap, side: Side, l: nat, k: nat)
    requires Coherent(s) && Place(s, side, l, k)
    ensures Coherent(Removed(s, side, l, k))
  {
    var p := s.At(side).ids[l][k];
    var s' := Removed(s, side, l, k);
    RemovedOwnHalf(s, side, l, k);
    RemovedOtherHalf(s, side, l, k);
    RemovedFlat(s, side, l, k);
    RemovedLinked(s, side, l, k);
    IndexedRemoved(s, s', p);
    assert s'.free == s.free + [p];
  }

  // ----- Partly filling a linked order -----

  /** `q` of the `k`-th order of level `l` has been filled. */
  ghost function Reduced(s: Snap, side: Side, l: nat, k: nat, q: u32): Snap
    requires Place(s, side, l, k) && q <= s.os[s.At(side).ids[l][k]].remaining
  {
    var h := s.At(side);
    var p := h.ids[l][k];
    s.(os := s.os[p := s.os[p].(remaining := s.os[p].remaining - q)])
     .With(side, h.(levels := h.levels[l := h.levels[l].(total := Wrap32(h.levels[l].total - q))]))
  }

  lemma {:induction false} TotalUpdate(v: seq<Resting>, k: nat, r: Resting)
    requires k < |v|
    ensures TotalQty(v[k := r]) == TotalQty(v) - v[k].rem + r.rem
  {
    if k == 0 {
      assert v[k := r][1..] == v[1..];
    } else {
      TotalUpdate(v[1..], k - 1, r);
      assert v[k := r][1..] == v[1..][k - 1 := r];
    }
  }

  lemma ReducedLevel(os: seq<Order>, side: Side, level: Level, ids: seq<nat>, k: nat, q: u32)
    requires LevelOk(os, side, level, ids) && k < |ids| && q < os[ids[k]].remaining
    ensures LevelOk(os[ids[k] := os[ids[k]].(remaining := os[ids[k]].remaining - q)], side,
                    level.(total := Wrap32(level.total - q)), ids)
  {
    var p := ids[k];
    var os' := os[p := os[p].(remaining := os[p].remaining - q)];
    ChainFrame(os, os', ids, level.head, level.tail);
    ViewUpdate(os, ids, k, os'[p]);
    TotalUpdate(View(os, ids), k, Strip(os'[p]));
    WrapSub(TotalQty(View(os, ids)), q);
  }

  lemma ReducedOwnHalf(s: Snap, side: Side, l: nat, k: nat, q: u32)
    requires HalfOk(s, side) && Place(s, side, l, k) && q < s.os[s.At(side).ids[l][k]].remaining
    ensures HalfOk(Reduced(s, side, l, k, q), side)
  {
    var h, s' := s.At(side), Reduced(s, side, l, k, q);
    ReducedLevel(s.os, side, h.levels[l], h.ids[l], k, q);
    assert s'.At(side).levels[l] == h.levels[l].(total := Wrap32(h.levels[l].total - q));
    SideUpdate(s.os, s'.os, side, h.levels, h.ids, l, s'.At(side).levels[l], h.ids[l]);
    assert h.ids[l := h.ids[l]] == h.ids;
  }

  lemma ReducedOtherHalf(s: Snap, side: Side, l: nat, k: nat, q: u32)
    requires Coherent(s) && Place(s, side, l, k) && q <= s.os[s.At(side).ids[l][k]].remaining
    ensures HalfOk(Reduced(s, side, l, k, q), side.Opposite())
    ensures FlatView(Reduced(s, side, l, k, q), side.Opposite()) == FlatView(s, side.Opposite())
  {
    var other := s.At(side.Opposite());
    OtherSideApart(s, side, l);
    SideFrame(s.os, Reduced(s, side, l, k, q).os, side.Opposite(), other.levels, other.ids);
  }

  lemma ReducedCoherent(s: Snap, side: Side, l: nat, k: nat, q: u32)
    requires Coherent(s) && Place(s, side, l, k) && q < s.os[s.At(side).ids[l][k]].remaining
    ensures Coherent(Reduced(s, side, l, k, q))
  {
    var s' := Reduced(s, side, l, k, q);
    ReducedOwnHalf(s, side, l, k, q);
    ReducedOtherHalf(s, side, l, k, q);
    IndexedFrame(s, s');
    assert forall i: nat :: Linked(s', i) <==> Linked(s, i);
  }

  lemma ReducedFlat(s: Snap, side: Side, l: nat, k: nat, q: u32)
    requires HalfOk(s, side) && Place(s, side, l, k) && q <= s.os[s.At(side).ids[l][k]].remaining
    ensures var n, p := Offset(s.At(side).ids, l, k), s.At(side).ids[l][k];
            && n < |Flat(s.At(side))|
            && FlatView(Reduced(s, side, l, k, q), side)
               == FlatView(s, side)[n := Strip(s.os[p]).(rem := s.os[p].remaining - q)]
  {
    var h := s.At(side);
    FlatRemove(h.ids, l, k);
    FlatDistinct(s.os, side, h.levels, h.ids);
    ViewUpdate(s.os, Flat(h), Offset(h.ids, l, k), Reduced(s, side, l, k, q).os[h.ids[l][k]]);
  }

  // ----- Linking an order at the end of a level -----

  ghost function Longer(level: Level, a: nat, qty: u32): Level {
    level.(total := Wrap32(level.total + qty), head := if level.head == NIL then a else level.head, tail := a)
  }

  ghost predicate Room(s: Snap, side: Side, l: nat, a: nat) {
    var h := s.At(side);
    && |h.levels| == |h.ids| && l < |h.levels| && a < |s.os|
    && -1 <= h.levels[l].tail < |s.os| && h.levels[l].tail != a
  }

  /** Order `a` joins the end of level `l` and the map. */
  ghost function Appended(s: Snap, side: Side, l: nat, a: nat): Snap
    requires Room(s, side, l, a)
  {
    var h := s.At(side);
    Snap(Append(s.os, h.levels[l].tail, a), s.free, s.bids, s.asks,
         s.m[OrderKey(s.os[a]) := Location(side, s.os[a].price, a)])
      .With(side, Half(h.levels[l := Longer(h.levels[l], a, s.os[a].remaining)], h.ids[l := h.ids[l] + [a]]))
  }

  /** `a` is fit to join level `l`: in no list, live, at its price. */
  ghost predicate Joins(s: Snap, side: Side, l: nat, a: nat) {
    && l < |s.At(side).levels| && a < |s.os| && a !in s.free && !Linked(s, a)
    && OrderOk(s.os[a], side, s.At(side).levels[l].price)
  }

  lemma JoinsRoom(s: Snap, side: Side, l: nat, a: nat)
    requires Coherent(s) && Joins(s, side, l, a)
    ensures Room(s, side, l, a)
  {
    var h := s.At(side);
    ConcatSplit(h.ids, l);
    AppendChain(s.os, h.ids[l], h.levels[l].head, h.levels[l].tail, a);
  }

  lemma LongerFrom(os: seq<Order>, os': seq<Order>, side: Side, level: Level, ids: seq<nat>, a: nat, level': Level)
    requires LevelOk(os, side, level, ids) && a < |os| && OrderOk(os[a], side, level.price)
    requires SameButLinks(os, os') && Chain(os', ids + [a], level'.head, level'.tail)
    requires level'.price == level.price && level'.total == Wrap32(level.total + os[a].remaining)
    ensures LevelOk(os', side, level', ids + [a])
  {
    assert View(os', ids + [a]) == View(os, ids) + [Strip(os[a])];
    TotalAppend(View(os, ids), Strip(os[a]));
    WrapAdd(TotalQty(View(os, ids)), os[a].remaining);
  }

  lemma LongerOk(os: seq<Order>, side: Side, level: Level, ids: seq<nat>, a: nat)
    requires LevelOk(os, side, level, ids) && a < |os| && OrderOk(os[a], side, level.price) && a !in ids
    ensures -1 <= level.tail < |os| && level.tail != a
    ensures LevelOk(Append(os, level.tail, a), side, Longer(level, a, os[a].remaining), ids + [a])
    ensures SameButLinks(os, Append(os, level.tail, a))
    ensures forall i: nat :: i < |os| && i !in ids && i != a ==> Append(os, level.tail, a)[i] == os[i]
  {
    AppendChain(os, ids, level.head, level.tail, a);
    LongerFrom(os, Append(os, level.tail, a), side, level, ids, a, Longer(level, a, os[a].remaining));
  }

  lemma AppendedOwnHalf(s: Snap, side: Side, l: nat, a: nat)
    requires Coherent(s) && Joins(s, side, l, a) && Room(s, side, l, a)
    ensures HalfOk(Appended(s, side, l, a), side)
    ensures SameButLinks(s.os, Appended(s, side, l, a).os)
  {
    var h := s.At(side);
    assert a !in h.ids[l] by {
      ConcatSplit(h.ids, l);
    }
    LongerOk(s.os, side, h.levels[l], h.ids[l], a);
    SideUpdate(s.os, Append(s.os, h.levels[l].tail, a), side, h.levels, h.ids, l,
               Longer(h.levels[l], a, s.os[a].remaining), h.ids[l] + [a]);
  }

  lemma AppendedOtherHalf(s: Snap, side: Side, l: nat, a: nat)
    requires Coherent(s) && Joins(s, side, l, a) && Room(s, side, l, a)
    ensures HalfOk(Appended(s, side, l, a), side.Opposite())
    ensures FlatView(Appended(s, side, l, a), side.Opposite()) == FlatView(s, side.Opposite())
  {
    var h, other := s.At(side), s.At(side.Opposite());
    assert a !in h.ids[l] by {
      ConcatSplit(h.ids, l);
    }
    LongerOk(s.os, side, h.levels[l], h.ids[l], a);
    OtherSideApart(s, side, l);
    SideFrame(s.os, Append(s.os, h.levels[l].tail, a), side.Opposite(), other.levels, other.ids);
  }

  lemma ViewInsert(os: seq<Order>, os': seq<Order>, ids: seq<nat>, n: nat, a: nat)
    requires SameButLinks(os, os') && n <= |ids| && a < |os|
    ensures View(os', InsertAt(ids, n, a)) == InsertAt(View(os, ids), n, Strip(os[a]))
  {
  }

  lemma AppendedFlat(s: Snap, side: Side, l: nat, a: nat)
    requires Coherent(s) && Joins(s, side, l, a) && Room(s, side, l, a)
    ensures var n := Offset(s.At(side).ids, l, |s.At(side).ids[l]|);
            && n <= |Flat(s.At(side))|
            && Flat(Appended(s, side, l, a).At(side)) == InsertAt(Flat(s.At(side)), n, a)
            && FlatView(Appended(s, side, l, a), side) == InsertAt(FlatView(s, side), n, Strip(s.os[a]))
    ensures forall i: nat :: Linked(Appended(s, side, l, a), i) <==> Linked(s, i) || i == a
  {
    var h := s.At(side);
    var n := Offset(h.ids, l, |h.ids[l]|);
    FlatAppend(h.ids, l, a);
    AppendedOwnHalf(s, side, l, a);
    ViewInsert(s.os, Appended(s, side, l, a).os, Flat(h), n, a);
    InsertMembers(Flat(h), n, a);
  }

  lemma AppendedNew(s: Snap, side: Side, l: nat, a: nat)
    requires Coherent(s) && Joins(s, side, l, a) && Room(s, side, l, a) && OrderKey(s.os[a]) !in s.m
    ensures Coherent(Appended(s, side, l, a))
  {
    AppendedOwnHalf(s, side, l, a);
    AppendedOtherHalf(s, side, l, a);
    AppendedFlat(s, side, l, a);
  }

  lemma AppendedTwice(s: Snap, side: Side, l: nat, a: nat)
    requires Coherent(s) && Joins(s, side, l, a) && Room(s, side, l, a) && OrderKey(s.os[a]) in s.m
    ensures !Coherent(Appended(s, side, l, a))
  {
    hide SideOk, Coherent, Flat;
    var s', p := Appended(s, side, l, a), s.m[OrderKey(s.os[a])].order;
    LiveOrder(s, OrderKey(s.os[a]));
    AppendedFlat(s, side, l, a);
    AppendedOwnHalf(s, side, l, a);
    if Coherent(s') {
      KeysDistinct(s', a, p);
    }
  }

  lemma LiveOrder(s: Snap, key: nat)
    requires Coherent(s) && key in s.m
    ensures s.m[key].order < |s.os| && Linked(s, s.m[key].order) && OrderKey(s.os[s.m[key].order]) == key
  {
    hide SideOk, Flat;
  }

  /** Resting an order keeps the book coherent if and only if its key is not live. */
  lemma AppendedCoherent(s: Snap, side: Side, l: nat, a: nat)
    requires Coherent(s) && Joins(s, side, l, a) && Room(s, side, l, a)
    ensures Coherent(Appended(s, side, l, a)) <==> OrderKey(s.os[a]) !in s.m
  {
    hide Coherent, SideOk, Flat, Appended;
    if OrderKey(s.os[a]) in s.m {
      AppendedTwice(s, side, l, a);
    } else {
      AppendedNew(s, side, l, a);
    }
  }

  // ----- Opening and dropping an empty level -----

  ghost function Opened(s: Snap, side: Side, pos: nat, price: u32): Snap
    requires pos <= |s.At(side).levels| == |s.At(side).ids|
  {
    var h := s.At(side);
    s.With(side, Half(InsertAt(h.levels, pos, Level(price, 0, NIL, NIL)), InsertAt(h.ids, pos, [])))
  }

  lemma OpenedCoherent(s: Snap, side: Side, pos: nat, price: u32)
    requires Coherent(s) && pos <= |s.At(side).levels| && price > 0
    requires Sorted(side, InsertAt(s.At(side).levels, pos, Level(price, 0, NIL, NIL)))
    ensures Coherent(Opened(s, side, pos, price))
    ensures forall d :: Flat(Opened(s, side, pos, price).At(d)) == Flat(s.At(d))
    ensures forall d :: FlatView(Opened(s, side, pos, price), d) == FlatView(s, d)
  {
    var h, s' := s.At(side), Opened(s, side, pos, price);
    ConcatGap(h.ids, pos);
    SideOpened(s.os, side, h.levels, h.ids, pos, price);
    assert HalfOk(s', side) && HalfOk(s', side.Opposite());
    IndexedFrame(s, s');
  }

  ghost function Dropped(s: Snap, side: Side, l: nat): Snap
    requires l < |s.At(side).levels| == |s.At(side).ids|
  {
    var h := s.At(side);
    s.With(side, Half(RemoveAt(h.levels, l), RemoveAt(h.ids, l)))
  }

  lemma DroppedCoherent(s: Snap, side: Side, l: nat)
    requires Coherent(s) && l < |s.At(side).levels| && s.At(side).ids[l] == []
    ensures Coherent(Dropped(s, side, l))
    ensures forall d :: Flat(Dropped(s, side, l).At(d)) == Flat(s.At(d))
    ensures forall d :: FlatView(Dropped(s, side, l), d) == FlatView(s, d)
  {
    var h, s' := s.At(side), Dropped(s, side, l);
    assert h.ids == InsertAt(RemoveAt(h.ids, l), l, []);
    ConcatGap(RemoveAt(h.ids, l), l);
    SideDropped(s.os, side, h.levels, h.ids, l);
    assert HalfOk(s', side) && HalfOk(s', side.Opposite());
    IndexedFrame(s, s');
  }
}
