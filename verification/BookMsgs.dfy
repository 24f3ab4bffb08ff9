/** How many messages an operation sends, and so exactly when they overfill the output buffer. */
module BookMsgs {
  import opened Orders
  import opened Sequences
  import opened PriceTime
  import opened MatchLaws
  import opened BookLaws
  import opened BookHistory
  import opened Ledger
  import opened ClientCancelLaws
  import OrderBook

  // ----- When a top changes -----

  lemma WrapMoves(a: nat, b: nat)
    requires 0 < a - b < 0x1_0000_0000
    ensures Wrap32(a) != Wrap32(b)
  {
    var q, r := a / 0x1_0000_0000, b / 0x1_0000_0000;
    assert a - b == (q - r) * 0x1_0000_0000 + (Wrap32(a) - Wrap32(b));
  }

  /** The top moves when the first order's price does, or when less than 2^32 leaves that price. */
  lemma TopMoves(before: seq<Resting>, after: seq<Resting>)
    requires before != [] && before[0].price > 0
    requires after != [] && after[0].price == before[0].price ==>
               0 < QtyAt(before, before[0].price) - QtyAt(after, before[0].price) < 0x1_0000_0000
    ensures Best(before) != Best(after)
  {
    hide QtyAt, Wrap32;
    if after != [] && after[0].price == before[0].price {
      WrapMoves(QtyAt(before, before[0].price), QtyAt(after, before[0].price));
    }
  }

  lemma AnnounceCount(b: Book)
    requires Sound(b.bids) && Sound(b.asks)
    requires (b.seenBid == Top(0, 0) || b.bidActive) && (b.seenAsk == Top(0, 0) || b.askActive)
    ensures |Announce(b).msgs| == (if Best(b.bids) != b.seenBid then 1 else 0) + (if Best(b.asks) != b.seenAsk then 1 else 0)
  {
    hide Best, Sound;
    BestZero(b.bids);
    BestZero(b.asks);
  }

  // ----- A new order -----

  /** The incoming order trades with the first `n` opposing orders: with each order that it
      crosses while the orders before do not use it up. */
  ghost predicate Reaches(o: NewOrder, rem: u32, opp: seq<Resting>, n: nat) {
    && n <= |opp|
    && forall i :: 0 <= i < |opp| ==> (i < n <==> Crosses(o.side, o.price, opp[i].price) && TotalQty(opp[..i]) < rem)
  }

  lemma ReachesFirst(o: NewOrder, rem: u32, opp: seq<Resting>, n: nat)
    requires opp != [] && rem > 0 && Crosses(o.side, o.price, opp[0].price) && opp[0].rem <= rem
    requires Reaches(o, rem - opp[0].rem, opp[1..], n)
    ensures Reaches(o, rem, opp, n + 1)
  {
    hide Crosses;
    forall i | 0 <= i < |opp|
      ensures i < n + 1 <==> Crosses(o.side, o.price, opp[i].price) && TotalQty(opp[..i]) < rem
    {
      if i > 0 {
        assert opp[1..][i - 1] == opp[i];
        TotalFirst(opp, i - 1);
      } else {
        assert opp[..0] == [] && TotalQty([]) == 0;
      }
    }
  }

  lemma ReachesNone(o: NewOrder, rem: u32, opp: seq<Resting>)
    requires Ordered(o.side.Opposite(), opp)
    requires rem == 0 || opp == [] || !Crosses(o.side, o.price, opp[0].price)
    ensures Reaches(o, rem, opp, 0)
  {
  }

  lemma ReachesOne(o: NewOrder, rem: u32, opp: seq<Resting>)
    requires opp != [] && rem > 0 && Crosses(o.side, o.price, opp[0].price) && opp[0].rem > rem
    ensures Reaches(o, rem, opp, 1)
  {
    hide Crosses;
    assert opp[..0] == [];
    forall i | 0 < i < |opp|
      ensures TotalQty(opp[..i]) >= rem
    {
      assert opp[..i][0] == opp[0];
    }
  }

  /** The trades are with just those orders. */
  lemma {:induction false} TradesReach(symbol: string, o: NewOrder, rem: u32, opp: seq<Resting>)
    requires Ordered(o.side.Opposite(), opp)
    ensures Reaches(o, rem, opp, |Match(symbol, o, rem, opp).trades|)
    decreases |opp|
  {
    hide Reaches, Crosses, TradeMsg, Ordered;
    if rem == 0 || opp == [] || !Crosses(o.side, o.price, opp[0].price) {
      ReachesNone(o, rem, opp);
    } else if opp[0].rem <= rem {
      OrderedTail(o.side.Opposite(), opp);
      TradesReach(symbol, o, rem - opp[0].rem, opp[1..]);
      ReachesFirst(o, rem, opp, |Match(symbol, o, rem - opp[0].rem, opp[1..]).trades|);
    } else {
      ReachesOne(o, rem, opp);
    }
  }

  lemma OrderedTail(side: Side, flat: seq<Resting>)
    requires Ordered(side, flat) && flat != []
    ensures Ordered(side, flat[1..])
  {
    hide Better;
  }

  /** A match takes at most the incoming quantity from a price, and something from the first. */
  lemma {:induction false} MatchQtyAt(symbol: string, o: NewOrder, rem: u32, opp: seq<Resting>, price: int)
    requires AllLive(opp)
    ensures var m := Match(symbol, o, rem, opp);
            && 0 <= QtyAt(opp, price) - QtyAt(m.left, price) <= rem
            && (m.trades != [] && opp[0].price == price ==> QtyAt(opp, price) > QtyAt(m.left, price))
            && (m.trades == [] ==> m.left == opp)
            && (m.trades != [] ==> opp != [])
    decreases |opp|
  {
    hide Crosses, TradeMsg;
    if rem == 0 || opp == [] || !Crosses(o.side, o.price, opp[0].price) {
    } else if opp[0].rem <= rem {
      MatchQtyAt(symbol, o, rem - opp[0].rem, opp[1..], price);
    } else {
      assert ([opp[0].(rem := opp[0].rem - rem)] + opp[1..])[1..] == opp[1..];
    }
  }

  /** The opposing top moves exactly when there is a trade. */
  lemma MatchMoves(symbol: string, o: NewOrder, rem: u32, opp: seq<Resting>)
    requires Sound(opp)
    ensures var m := Match(symbol, o, rem, opp);
            Best(m.left) != Best(opp) <==> m.trades != []
  {
    hide Match, QtyAt, Best;
    var m := Match(symbol, o, rem, opp);
    MatchQtyAt(symbol, o, rem, opp, if opp == [] then 0 else opp[0].price);
    if m.trades != [] {
      TopMoves(opp, m.left);
    }
  }

  lemma {:induction false} EnqueueQtyAt(side: Side, flat: seq<Resting>, r: Resting, price: int)
    ensures QtyAt(Enqueue(side, flat, r), price) == QtyAt(flat, price) + (if r.price == price then r.rem else 0)
    decreases |flat|
  {
    hide Better;
    if flat == [] || Better(side, r.price, flat[0].price) {
      assert ([r] + flat)[1..] == flat;
    } else {
      EnqueueQtyAt(side, flat[1..], r, price);
      assert ([flat[0]] + Enqueue(side, flat[1..], r))[1..] == Enqueue(side, flat[1..], r);
    }
  }

  /** A price that is not worse than the best one. */
  predicate Leads(side: Side, price: int, flat: seq<Resting>) {
    flat == [] || !Better(side, flat[0].price, price)
  }

  /** The own top moves exactly when the order that comes to rest leads its side. */
  lemma RestMoves(side: Side, flat: seq<Resting>, r: Resting)
    requires Sound(flat) && r.price > 0 && r.rem > 0
    ensures Best(Enqueue(side, flat, r)) != Best(flat) <==> Leads(side, r.price, flat)
  {
    hide QtyAt, Wrap32;
    var after := Enqueue(side, flat, r);
    if flat != [] {
      EnqueueQtyAt(side, flat, r, flat[0].price);
      if flat[0].price == r.price {
        WrapMoves(QtyAt(after, r.price), QtyAt(flat, r.price));
      }
    }
  }

  /** An order is answered by its acknowledgement, its trades, the opposing top if it trades, and
      its own top if it comes to rest in the lead. */
  lemma AddCount(b: Book, o: NewOrder)
    requires Inv(b) && o.quantity > 0 && NewKey(b, o)
    ensures var trades := |MatchIn(b, o).trades|;
            |PriceTime.AddOrder(b, o).msgs| ==
            1 + trades + (if trades > 0 then 1 else 0) + (if Rests(b, o) && Leads(o.side, o.price, b.At(o.side)) then 1 else 0)
  {
    hide Match, Best, Sound, Ordered, Apart, Disjoint, Uncrossed, NewKey, Leads, Enqueue;
    SettleParts(b, o);
    AnnounceCount(Settle(b, o));
    MatchMoves(b.symbol, o, o.quantity, b.At(o.side.Opposite()));
    if Rests(b, o) {
      RestMoves(o.side, b.At(o.side), Resting(o.user, o.oid, o.client, o.price, o.quantity, MatchIn(b, o).rem));
    }
  }

  /** An order that trades with `n` opposing orders loses no message of an empty output buffer
      exactly when its messages are at most 8192. */
  lemma AddFits(b: Book, o: NewOrder, n: nat)
    requires Inv(b) && o.quantity > 0 && NewKey(b, o)
    requires Reaches(o, o.quantity, b.At(o.side.Opposite()), n)
    ensures OrderBook.Keep([] + PriceTime.AddOrder(b, o).msgs) == PriceTime.AddOrder(b, o).msgs
       <==> 1 + n + (if n > 0 then 1 else 0) + (if Rests(b, o) && Leads(o.side, o.price, b.At(o.side)) then 1 else 0)
            <= 8192
  {
    hide Match, Best, Disjoint, Uncrossed, NewKey, Leads, PriceTime.AddOrder, Rests;
    AddCount(b, o);
    TradesReach(b.symbol, o, o.quantity, b.At(o.side.Opposite()));
    ReachesOnce(o, o.quantity, b.At(o.side.Opposite()), n, |MatchIn(b, o).trades|);
    assert [] + PriceTime.AddOrder(b, o).msgs == PriceTime.AddOrder(b, o).msgs;
  }

  /** With at most 8189 opposing orders every message of an order fits. */
  lemma AddFew(b: Book, o: NewOrder)
    requires Inv(b) && o.quantity > 0 && NewKey(b, o) && |b.At(o.side.Opposite())| <= 8189
    ensures OrderBook.Keep([] + PriceTime.AddOrder(b, o).msgs) == PriceTime.AddOrder(b, o).msgs
  {
    hide Match, Best, Disjoint, Uncrossed, NewKey, Leads, PriceTime.AddOrder, Rests;
    TradesReach(b.symbol, o, o.quantity, b.At(o.side.Opposite()));
    AddFits(b, o, |MatchIn(b, o).trades|);
  }

  lemma ReachesOnce(o: NewOrder, rem: u32, opp: seq<Resting>, n: nat, k: nat)
    requires Reaches(o, rem, opp, n) && Reaches(o, rem, opp, k)
    ensures n == k
  {
    assert n < |opp| ==> (n < k <==> Crosses(o.side, o.price, opp[n].price) && TotalQty(opp[..n]) < rem);
    assert k < |opp| ==> (k < n <==> Crosses(o.side, o.price, opp[k].price) && TotalQty(opp[..k]) < rem);
  }

  // ----- Cancels -----

  lemma {:induction false} RemoveQtyAt(flat: seq<Resting>, n: nat, price: int)
    requires n < |flat|
    ensures QtyAt(RemoveAt(flat, n), price) == QtyAt(flat, price) - (if flat[n].price == price then flat[n].rem else 0)
    decreases |flat|
  {
    if n == 0 {
      assert RemoveAt(flat, 0) == flat[1..];
    } else {
      RemoveQtyAt(flat[1..], n - 1, price);
      assert RemoveAt(flat, n)[1..] == RemoveAt(flat[1..], n - 1);
    }
  }

  /** A top moves exactly when the order that leaves has the best price. */
  lemma RemoveMoves(flat: seq<Resting>, n: nat)
    requires Sound(flat) && n < |flat|
    ensures Best(RemoveAt(flat, n)) != Best(flat) <==> flat[n].price == flat[0].price
  {
    hide QtyAt, Wrap32;
    RemoveQtyAt(flat, n, flat[0].price);
    if flat[n].price == flat[0].price {
      TopMoves(flat, RemoveAt(flat, n));
    }
  }

  /** A cancel of a resting order is answered by its acknowledgement, and by the top of its side
      if it had the best price. */
  lemma CancelCount(b: Book, side: Side, n: nat)
    requires Inv(b) && n < |b.At(side)|
    ensures var r := b.At(side)[n];
            var c := PriceTime.CancelOrder(b, r.user, r.oid);
            && c.book.At(side) == RemoveAt(b.At(side), n)
            && |c.msgs| == 1 + if r.price == b.At(side)[0].price then 1 else 0
  {
    hide Best, Ordered, Sound, Apart, Disjoint, Uncrossed, DropKey, HasKey, Announce;
    var flat := b.At(side);
    DropAt(flat, b.At(side.Opposite()), n);
    RemoveMoves(flat, n);
    RemoveSound(flat, n);
    SeenActive(b);
    AnnounceCount(b.With(side, RemoveAt(flat, n)));
    AnnounceSides(b.With(side, RemoveAt(flat, n)));
  }

  /** A key's order is the one that dropping the key removes. */
  lemma DropAt(flat: seq<Resting>, other: seq<Resting>, n: nat)
    requires Apart(flat) && (Disjoint(flat, other) || Disjoint(other, flat)) && n < |flat|
    ensures var key := RestKey(flat[n]);
            HasKey(flat, key) && !HasKey(other, key) && DropKey(flat, key) == RemoveAt(flat, n)
  {
    hide DropKey;
    var k := DropKeyIs(flat, RestKey(flat[n]));
  }

  lemma AnnounceSides(b: Book)
    ensures Announce(b).book.bids == b.bids && Announce(b).book.asks == b.asks
  {
  }

  lemma RemoveSound(flat: seq<Resting>, n: nat)
    requires Sound(flat) && n < |flat|
    ensures Sound(RemoveAt(flat, n))
  {
  }

  // ----- A client's cancel -----

  function IdOf(r: Resting): (u32, u32) {
    (r.user, r.oid)
  }

  /** The keys are those of some orders of the side, in the side's order. */
  predicate Picks(flat: seq<Resting>, keys: seq<(u32, u32)>) {
    if flat == [] then keys == []
    else if keys != [] && keys[0] == IdOf(flat[0]) then Picks(flat[1..], keys[1..])
    else Picks(flat[1..], keys)
  }

  /** The orders with these keys that are at the best price when their turn comes: those in front
      of the first order that stays, and those at its price.  `kept` is that price once it is met. */
  function Exposed(flat: seq<Resting>, keys: seq<(u32, u32)>, kept: int): nat {
    if flat == [] then 0
    else if IdOf(flat[0]) in keys then
      (if kept == 0 || flat[0].price == kept then 1 else 0) + Exposed(flat[1..], keys, kept)
    else Exposed(flat[1..], keys, if kept == 0 then flat[0].price else kept)
  }

  lemma {:induction false} ExposedSame(flat: seq<Resting>, a: seq<(u32, u32)>, b: seq<(u32, u32)>, kept: int)
    requires forall i :: 0 <= i < |flat| ==> (IdOf(flat[i]) in a <==> IdOf(flat[i]) in b)
    ensures Exposed(flat, a, kept) == Exposed(flat, b, kept)
    decreases |flat|
  {
    if flat != [] {
      ExposedSame(flat[1..], a, b, if IdOf(flat[0]) !in a && kept == 0 then flat[0].price else kept);
    }
  }

  /** A picked order's key is the first key or lies behind it. */
  lemma {:induction false} PicksWithin(flat: seq<Resting>, keys: seq<(u32, u32)>, k: (u32, u32)) returns (i: nat)
    requires Picks(flat, keys) && k in keys
    ensures i < |flat| && IdOf(flat[i]) == k
    decreases |flat|
  {
    if keys[0] == IdOf(flat[0]) && k == keys[0] {
      i := 0;
    } else {
      i := PicksWithin(flat[1..], if keys[0] == IdOf(flat[0]) then keys[1..] else keys, k);
      i := i + 1;
    }
  }

  lemma IdsApart(flat: seq<Resting>, i: nat, j: nat)
    requires Apart(flat) && i < j < |flat|
    ensures IdOf(flat[i]) != IdOf(flat[j])
  {
  }

  function PriceOf(pre: seq<Resting>): int {
    if pre == [] then 0 else pre[0].price
  }

  /** The first picked order is cancelled. */
  lemma PickFirst(b: Book, side: Side, pre: seq<Resting>, flat: seq<Resting>, keys: seq<(u32, u32)>)
    requires Inv(b) && b.At(side) == pre + flat && Picks(flat, keys)
    requires flat != [] && keys != [] && keys[0] == IdOf(flat[0])
    ensures var c := PriceTime.CancelOrder(b, keys[0].0, keys[0].1);
            && Inv(c.book) && c.book.At(side) == pre + flat[1..]
            && |c.msgs| + Exposed(flat[1..], keys[1..], PriceOf(pre)) == 1 + Exposed(flat, keys, PriceOf(pre))
  {
    hide Better, Best, Announce, DropKey, Uncrossed, HasKey, Picks;
    var all := pre + flat;
    assert all[|pre|] == flat[0] && all[0] == (pre + [flat[0]])[0];
    CancelInv(b, keys[0].0, keys[0].1);
    CancelCount(b, side, |pre|);
    assert RemoveAt(all, |pre|) == pre + flat[1..];
    forall i | 0 <= i < |flat| - 1
      ensures IdOf(flat[1..][i]) in keys <==> IdOf(flat[1..][i]) in keys[1..]
    {
      assert flat[1..][i] == all[|pre| + i + 1];
      IdsApart(all, |pre|, |pre| + i + 1);
    }
    ExposedSame(flat[1..], keys, keys[1..], PriceOf(pre));
  }

  /** An order that is not picked is passed over. */
  lemma PassFirst(b: Book, side: Side, pre: seq<Resting>, flat: seq<Resting>, keys: seq<(u32, u32)>)
    requires Inv(b) && b.At(side) == pre + flat && Picks(flat, keys)
    requires flat != [] && !(keys != [] && keys[0] == IdOf(flat[0]))
    ensures Exposed(flat, keys, PriceOf(pre)) == Exposed(flat[1..], keys, PriceOf(pre + [flat[0]]))
  {
    hide Better, Best, Uncrossed;
    var all := pre + flat;
    if IdOf(flat[0]) in keys {
      var i := PicksWithin(flat[1..], keys, IdOf(flat[0]));
      assert flat[1..][i] == all[|pre| + i + 1];
      IdsApart(all, |pre|, |pre| + i + 1);
    }
    if pre != [] {
      assert all[0] == pre[0];
    }
  }

  /** Cancelling picked orders of a side, behind the orders that are passed over. */
  lemma {:induction false} PickedCount(b: Book, side: Side, pre: seq<Resting>, flat: seq<Resting>, keys: seq<(u32, u32)>)
    requires Inv(b) && b.At(side) == pre + flat && Picks(flat, keys)
    ensures |CancelAll(b, keys).msgs| == |keys| + Exposed(flat, keys, PriceOf(pre))
    decreases |flat|
  {
    hide Inv, PriceTime.CancelOrder;
    if flat == [] {
    } else if keys != [] && keys[0] == IdOf(flat[0]) {
      PickFirst(b, side, pre, flat, keys);
      PickedCount(PriceTime.CancelOrder(b, keys[0].0, keys[0].1).book, side, pre, flat[1..], keys[1..]);
    } else {
      PassFirst(b, side, pre, flat, keys);
      PickedCount(b, side, pre + [flat[0]], flat[1..], keys);
    }
  }

  lemma {:induction false} CollectedPicks(flat: seq<Resting>, price: int, n: nat, client: u32)
    requires Apart(flat)
    ensures Picks(flat, KeysOf(Reach(flat, price, n), client))
    decreases |flat|
  {
    hide Reach, KeysOf, Apart;
    if flat == [] {
      KeysNone(price, n, client);
    } else {
      var rank := if flat[0].price == price then n else 0;
      ApartTail(flat);
      var head := KeysStep(flat, price, n, client);
      HeadNotBehind(flat, flat[0].price, rank + 1, client);
      CollectedPicks(flat[1..], flat[0].price, rank + 1, client);
      var rest := KeysOf(Reach(flat[1..], flat[0].price, rank + 1), client);
      if head == [] {
        assert head + rest == rest;
      } else {
        assert (head + rest)[1..] == rest;
      }
    }
  }

  lemma {:induction false} CancelAllAppend(b: Book, first: seq<(u32, u32)>, more: seq<(u32, u32)>)
    ensures var c := CancelAll(b, first);
            |CancelAll(b, first + more).msgs| == |c.msgs| + |CancelAll(c.book, more).msgs|
    decreases |first|
  {
    hide PriceTime.CancelOrder;
    if first == [] {
      assert first + more == more;
    } else {
      assert (first + more)[0] == first[0] && (first + more)[1..] == first[1..] + more;
      CancelAllAppend(PriceTime.CancelOrder(b, first[0].0, first[0].1).book, first[1..], more);
    }
  }

  /** Cancelling a client's bids leaves the asks as they are. */
  lemma AsksStay(b: Book, client: u32)
    requires Inv(b)
    ensures CancelAll(b, KeysOf(Reach(b.bids, 0, 0), client)).book.asks == b.asks
  {
    hide Ordered, Sound, Apart, Uncrossed, Best, CancelAll, FilterOut, Reach, KeysOf, KeySet;
    var keys := KeysOf(Reach(b.bids, 0, 0), client);
    CancelAllIsFilter(b, keys, Sell);
    forall i | 0 <= i < |b.asks|
      ensures RestKey(b.asks[i]) !in KeySet(keys)
    {
      InKeySet(keys, b.asks[i].user, b.asks[i].oid);
      OtherKeys(b.asks, b.bids, client, i);
    }
    FilterNone(b.asks, KeySet(keys));
  }

  /** A client's cancel sends one acknowledgement per collected order, and a top for each that is at
      the best price of its side by then. */
  lemma ClientCancelMsgs(b: Book, client: u32)
    requires Inv(b)
    ensures var keys := Collected(b, client);
            |CancelClient(b, client).msgs| == |keys| + Exposed(b.bids, keys, 0) + Exposed(b.asks, keys, 0)
  {
    hide Ordered, Sound, Uncrossed, Best, CancelAll, Reach, KeysOf, Picks, Exposed;
    var bids, asks, keys := KeysOf(Reach(b.bids, 0, 0), client), KeysOf(Reach(b.asks, 0, 0), client), Collected(b, client);
    CollectedPicks(b.bids, 0, 0, client);
    CollectedPicks(b.asks, 0, 0, client);
    CancelAllAppend(b, bids, asks);
    CancelAllInv(b, bids);
    AsksStay(b, client);
    assert [] + b.bids == b.bids && [] + b.asks == b.asks;
    PickedCount(b, Buy, [], b.bids, bids);
    PickedCount(CancelAll(b, bids).book, Sell, [], b.asks, asks);
    forall i | 0 <= i < |b.bids|
      ensures IdOf(b.bids[i]) in bids <==> IdOf(b.bids[i]) in keys
    {
      OtherKeys(b.bids, b.asks, client, i);
    }
    forall i | 0 <= i < |b.asks|
      ensures IdOf(b.asks[i]) in asks <==> IdOf(b.asks[i]) in keys
    {
      OtherKeys(b.asks, b.bids, client, i);
    }
    ExposedSame(b.bids, bids, keys, 0);
    ExposedSame(b.asks, asks, keys, 0);
  }

  /** It loses no message of an empty output buffer exactly when these are at most 8192. */
  lemma ClientCancelFits(b: Book, client: u32)
    requires Inv(b)
    ensures var keys := Collected(b, client);
            OrderBook.Keep([] + CancelClient(b, client).msgs) == CancelClient(b, client).msgs
            <==> |keys| + Exposed(b.bids, keys, 0) + Exposed(b.asks, keys, 0) <= 8192
  {
    hide Inv, CancelClient, Exposed, Collected;
    ClientCancelMsgs(b, client);
    assert [] + CancelClient(b, client).msgs == CancelClient(b, client).msgs;
  }
}
