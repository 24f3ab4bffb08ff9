/** Cancelling all orders of a client in two phases: collect the keys, then cancel them. */
module ClientCancel {
  import opened Orders
  import opened Sequences
  import PriceTime
  import opened OrderPool
  import opened PriceLevels
  import opened BookState
  import opened OrderBook
  import opened Matching
  import opened BookOps
  import opened Cancelling

  lemma {:induction false} KeysOfAppend(a: seq<Resting>, b: seq<Resting>, client: u32)
    ensures PriceTime.KeysOf(a + b, client) == PriceTime.KeysOf(a, client) + PriceTime.KeysOf(b, client)
  {
    if a == [] {
      assert a + b == b;
    } else {
      KeysOfAppend(a[1..], b, client);
      assert (a + b)[0] == a[0] && (a + b)[1..] == a[1..] + b;
      var head := if a[0].client == client then [(a[0].user, a[0].oid)] else [];
      assert PriceTime.KeysOf(a + b, client) == head + PriceTime.KeysOf(a[1..] + b, client);
      Associative(head, PriceTime.KeysOf(a[1..], client), PriceTime.KeysOf(b, client));
    }
  }

  lemma {:induction false} KeysOfBound(a: seq<Resting>, client: u32)
    ensures |PriceTime.KeysOf(a, client)| <= |a|
  {
    if a != [] {
      KeysOfBound(a[1..], client);
    }
  }

  function Upto(n: nat): nat {
    if n < PriceTime.SCAN then n else PriceTime.SCAN
  }

  /** The scanned part of the levels `ids`, one level after the other. */
  ghost function Scanned(os: seq<Order>, ids: seq<seq<nat>>): seq<Resting> {
    if ids == [] then [] else View(os, ids[0][..Upto(|ids[0]|)]) + Scanned(os, ids[1..])
  }

  lemma {:induction false} ScannedSnoc(os: seq<Order>, ids: seq<seq<nat>>, l: nat)
    requires l < |ids|
    ensures Scanned(os, ids[..l + 1]) == Scanned(os, ids[..l]) + View(os, ids[l][..Upto(|ids[l]|)])
  {
    if l == 0 {
      assert ids[..1][1..] == [] && ids[..1][0] == ids[0];
      assert View(os, ids[0][..Upto(|ids[0]|)]) + [] == View(os, ids[0][..Upto(|ids[0]|)]);
    } else {
      ScannedSnoc(os, ids[1..], l - 1);
      assert ids[..l + 1][1..] == ids[1..][..l] && ids[..l][1..] == ids[1..][..l - 1];
      var a, b, c := View(os, ids[0][..Upto(|ids[0]|)]), Scanned(os, ids[1..][..l - 1]), View(os, ids[l][..Upto(|ids[l]|)]);
      assert a + (b + c) == (a + b) + c;
    }
  }

  /** Past one level of equal prices, `Reach` starts counting afresh. */
  lemma {:induction false} ReachLevel(v: seq<Resting>, rest: seq<Resting>, price: int, n: nat)
    requires forall i :: 0 <= i < |v| ==> v[i].price == price
    requires rest != [] ==> rest[0].price != price
    ensures PriceTime.Reach(v + rest, price, n)
         == v[..if n + |v| <= PriceTime.SCAN then |v| else if n <= PriceTime.SCAN then PriceTime.SCAN - n else 0]
            + PriceTime.Reach(rest, price, n + |v|)
  {
    if v == [] {
      assert v + rest == rest;
    } else {
      var w := v + rest;
      assert w[0] == v[0] && w[1..] == v[1..] + rest;
      ReachLevel(v[1..], rest, price, n + 1);
    }
  }

  lemma ReachFresh(flat: seq<Resting>, p: int, n: nat, q: int, m: nat)
    requires flat != [] ==> (flat[0].price == p ==> n == 0) && (flat[0].price == q ==> m == 0)
    ensures PriceTime.Reach(flat, p, n) == PriceTime.Reach(flat, q, m)
  {
  }

  /** The level-by-level scan sees the first 200 orders of every price. */
  lemma {:induction false} ScannedIsReach(os: seq<Order>, side: Side, levels: seq<Level>, ids: seq<seq<nat>>)
    requires SideOk(os, side, levels, ids) && NoneEmpty(ids)
    ensures Scanned(os, ids) == PriceTime.Reach(View(os, Concat(ids)), 0, 0)
    ensures ids != [] ==> View(os, Concat(ids)) != [] && View(os, Concat(ids))[0].price == levels[0].price
  {
    if ids != [] {
      var v, rest, price := View(os, ids[0]), View(os, Concat(ids[1..])), levels[0].price;
      ScannedIsReach(os, side, levels[1..], ids[1..]);
      ViewSplit(os, ids[0], Concat(ids[1..]));
      LevelMembers(os, side, levels[0], ids[0]);
      forall i | 0 <= i < |v|
        ensures v[i].price == price
      {
        assert ids[0][i] in ids[0];
      }
      assert rest != [] ==> rest[0].price != price;
      ReachLevel(v, rest, price, 0);
      ReachFresh(v + rest, 0, 0, price, 0);
      ReachFresh(rest, price, |v|, 0, 0);
      assert View(os, ids[0][..Upto(|ids[0]|)]) == v[..Upto(|ids[0]|)];
    }
  }

  /** One order met by the scan: it is collected when it is the client's. */
  lemma KeysOfNext(os: seq<Order>, list: seq<nat>, k: nat, client: u32)
    requires k < |list| && list[k] < |os|
    ensures PriceTime.KeysOf(View(os, list[..k + 1]), client)
         == PriceTime.KeysOf(View(os, list[..k]), client)
            + (if os[list[k]].clientId == client then [(os[list[k]].userId, os[list[k]].userOrderId)] else [])
  {
    assert list[..k + 1] == list[..k] + [list[k]];
    ViewSplit(os, list[..k], [list[k]]);
    KeysOfAppend(View(os, list[..k]), View(os, [list[k]]), client);
    assert View(os, [list[k]]) == [Strip(os[list[k]])];
  }

  lemma ChainNext(os: seq<Order>, list: seq<nat>, head: int, tail: int, k: nat)
    requires Chain(os, list, head, tail) && k < |list|
    ensures list[k] < |os| && os[list[k]].next == After(list, k)
  {
  }

  /** Collect the client's keys on level `l`, looking at no more than 200 orders. */
  method ScanLevel(b: Book, side: Side, l: nat, client: u32, buf: array<(u32, u32)>, n: nat) returns (m: nat)
    requires b.Valid() && l < b.At(side).num && buf.Length == POOL && n + |b.At(side).ids[l]| <= POOL
    modifies buf
    ensures n <= m <= n + |b.At(side).ids[l]|
    ensures buf[..m] == old(buf[..n])
                        + PriceTime.KeysOf(View(b.pool.os, b.At(side).ids[l][..Upto(|b.At(side).ids[l]|)]), client)
  {
    hide Coherent, NoneEmpty, PriceTime.KeysOf, View, Chain, Pool.Valid, BookSide.Valid;
    ghost var list := b.At(side).ids[l];
    LevelHead(b.S(), side, l);
    ChainStart(b.pool.os, list, b.At(side).levels[l].head, b.At(side).levels[l].tail, client);
    var order, count := b.At(side).Get(l).head, 0;
    m := n;
    while order != NIL && count < PriceTime.SCAN
      invariant count <= |list| && count <= PriceTime.SCAN
      invariant order == if count < |list| then list[count] else NIL
      invariant n <= m <= n + count
      invariant buf[..m] == old(buf[..n]) + PriceTime.KeysOf(View(b.pool.os, list[..count]), client)
      decreases PriceTime.SCAN - count
    {
      KeysOfNext(b.pool.os, list, count, client);
      ChainNext(b.pool.os, list, b.At(side).levels[l].head, b.At(side).levels[l].tail, count);
      var o := b.pool.Get(order);
      if o.clientId == client && m < POOL {
        buf[m] := (o.userId, o.userOrderId);
        m := m + 1;
      }
      order := o.next;
      count := count + 1;
    }
  }

  lemma ChainStart(os: seq<Order>, list: seq<nat>, head: int, tail: int, client: u32)
    requires Chain(os, list, head, tail)
    ensures NIL == -1 && head == (if |list| > 0 then list[0] else NIL) && forall k :: 0 <= k < |list| ==> list[k] < |os|
    ensures PriceTime.KeysOf(View(os, list[..0]), client) == []
  {
  }

  lemma {:induction false} ConcatPrefix<T>(ss: seq<seq<T>>, l: nat)
    requires l < |ss|
    ensures |Concat(ss[..l])| + |ss[l]| <= |Concat(ss)| && |Concat(ss[..l + 1])| == |Concat(ss[..l])| + |ss[l]|
  {
    ConcatSplit(ss, l);
    SplitBehind(ss, l);
  }

  /** Collect the client's keys on one side. */
  method ScanSide(b: Book, side: Side, client: u32, buf: array<(u32, u32)>, n: nat) returns (m: nat)
    requires b.Valid() && buf.Length == POOL && n + |b.V().At(side)| <= POOL
    modifies buf
    ensures n <= m <= n + |b.V().At(side)|
    ensures buf[..m] == old(buf[..n]) + PriceTime.KeysOf(PriceTime.Reach(b.V().At(side), 0, 0), client)
  {
    hide Coherent, NoneEmpty, PriceTime.KeysOf, PriceTime.Reach, View, Concat, Scanned, BookSide.Valid, Book.Wf;
    ghost var os, ids := b.pool.os, b.At(side).ids;
    m := n;
    ghost var keys: seq<(u32, u32)> := [];
    ScanStart(b.S(), side, client);
    for l := 0 to b.At(side).num
      invariant b.Valid() && n <= m <= n + |Concat(ids[..l])| <= POOL
      invariant buf[..m] == old(buf[..n]) + keys && keys == PriceTime.KeysOf(Scanned(os, ids[..l]), client)
    {
      ConcatPrefix(ids, l);
      ScannedSnoc(os, ids, l);
      KeysOfAppend(Scanned(os, ids[..l]), View(os, ids[l][..Upto(|ids[l]|)]), client);
      ghost var before := buf[..m];
      m := ScanLevel(b, side, l, client, buf, m);
      keys := keys + PriceTime.KeysOf(View(os, ids[l][..Upto(|ids[l]|)]), client);
    }
    assert ids[..|ids|] == ids;
  }

  lemma ScanStart(s: Snap, side: Side, client: u32)
    requires Coherent(s) && NoneEmpty(s.At(side).ids)
    ensures Concat(s.At(side).ids[..0]) == [] && PriceTime.KeysOf(Scanned(s.os, s.At(side).ids[..0]), client) == []
    ensures Scanned(s.os, s.At(side).ids) == PriceTime.Reach(FlatView(s, side), 0, 0)
    ensures |FlatView(s, side)| == |Concat(s.At(side).ids)|
  {
    ScannedIsReach(s.os, side, s.At(side).levels, s.At(side).ids);
  }

  /** The orders of both sides fit the pool. */
  lemma BothBound(s: Snap)
    requires Coherent(s)
    ensures |FlatView(s, Buy)| + |FlatView(s, Sell)| <= POOL
  {
    FlatDistinct(s.os, Buy, s.bids.levels, s.bids.ids);
    FlatDistinct(s.os, Sell, s.asks.levels, s.asks.ids);
    var both := Flat(s.bids) + Flat(s.asks);
    forall i | i in both
      ensures i < POOL && (i in Flat(s.bids) ==> i !in Flat(s.asks))
    {
      LinkedFacts(s, i);
    }
    DistinctAppend(Flat(s.bids), Flat(s.asks));
    assert forall k :: 0 <= k < |both| ==> both[k] in both;
    DistinctBelow(POOL, both);
  }

  lemma {:induction false} CancelAllSnoc(v: PriceTime.Book, keys: seq<(u32, u32)>, i: nat)
    requires i < |keys|
    ensures var done := PriceTime.CancelAll(v, keys[..i]);
            var next := PriceTime.CancelOrder(done.book, keys[i].0, keys[i].1);
            PriceTime.CancelAll(v, keys[..i + 1]) == PriceTime.Outcome(next.book, done.msgs + next.msgs)
    decreases i
  {
    hide PriceTime.CancelOrder;
    if i == 0 {
      assert keys[..1][1..] == [];
      var first := PriceTime.CancelOrder(v, keys[0].0, keys[0].1);
      assert PriceTime.CancelAll(v, keys[..1]).msgs == first.msgs + [];
      assert [] + first.msgs == first.msgs + [];
    } else {
      var first := PriceTime.CancelOrder(v, keys[0].0, keys[0].1);
      CancelAllSnoc(first.book, keys[1..], i - 1);
      assert keys[..i + 1][1..] == keys[1..][..i] && keys[..i][1..] == keys[1..][..i - 1];
      var done := PriceTime.CancelAll(first.book, keys[1..][..i - 1]);
      var next := PriceTime.CancelOrder(done.book, keys[i].0, keys[i].1);
      assert first.msgs + (done.msgs + next.msgs) == (first.msgs + done.msgs) + next.msgs;
    }
  }

  lemma CancelNone(v: PriceTime.Book, out: OutputBuffer)
    requires out.Valid()
    ensures PriceTime.CancelAll(v, []) == PriceTime.Outcome(v, []) && out.sent == Keep(out.sent + [])
  {
    KeepValid(out);
  }

  lemma BothViews(b: Book)
    requires b.Valid()
    ensures |b.V().At(Buy)| + |b.V().At(Sell)| <= POOL
  {
    hide Coherent, FlatView, Book.Wf, NoneEmpty;
    BothBound(b.S());
  }

  lemma CancelClientIs(v: PriceTime.Book, client: u32)
    ensures PriceTime.CancelClient(v, client) == PriceTime.CancelAll(v, PriceTime.Collected(v, client))
    ensures PriceTime.Collected(v, client) == [] + PriceTime.KeysOf(PriceTime.Reach(v.At(Buy), 0, 0), client)
                                              + PriceTime.KeysOf(PriceTime.Reach(v.At(Sell), 0, 0), client)
  {
  }

  /** Cancel every order of a client that the scan reaches; the number of orders cancelled. */
  method CancelClient(b: Book, out: OutputBuffer, client: u32) returns (count: nat)
    requires b.Valid() && out.Valid()
    modifies b`seenBid, b`seenAsk, b`bidActive, b`askActive
    modifies b.bids, b.bids.slots, b.asks, b.asks.slots, b.orderMap, b.orderMap.slots
    modifies b.pool, b.pool.orders, b.pool.freeList, out, out.messages
    ensures b.Valid() && out.Valid() && b.V() == PriceTime.CancelClient(old(b.V()), client).book
    ensures out.sent == Keep(old(out.sent) + PriceTime.CancelClient(old(b.V()), client).msgs)
    ensures count == |PriceTime.Collected(old(b.V()), client)|
    ensures Slots(b.S()) == old(Slots(b.S())) && Elsewhere(old(b.pool.os), b.pool.os, old(Slots(b.S())))
  {
    hide *;
    PoolConstants();
    ghost var v, own, os, sent := b.V(), Slots(b.S()), b.pool.os, out.sent;
    BothViews(b);
    CancelClientIs(v, client);
    CancelNone(v, out);
    ElsewhereSame(os, own);
    var buf := new (u32, u32)[POOL](_ => (0, 0));
    count := ScanSide(b, Buy, client, buf, 0);
    assert b.Valid() && b.V() == v;
    count := ScanSide(b, Sell, client, buf, count);
    assert b.Valid() && out.Valid() && b.V() == v && out.sent == sent && b.pool.os == os && Slots(b.S()) == own;
    ghost var keys := PriceTime.Collected(v, client);
    assert buf[..count] == keys;
    assert keys[..0] == [];
    for i := 0 to count
      invariant b.Valid() && out.Valid() && b.V() == PriceTime.CancelAll(v, keys[..i]).book
      invariant out.sent == Keep(sent + PriceTime.CancelAll(v, keys[..i]).msgs)
      invariant Slots(b.S()) == own && Elsewhere(os, b.pool.os, own)
      invariant buf[..count] == keys
    {
      ghost var w, os1 := b.V(), b.pool.os;
      assert buf[i] == keys[i];
      CancelAllSnoc(v, keys, i);
      KeepAppend(sent, PriceTime.CancelAll(v, keys[..i]).msgs, PriceTime.CancelOrder(w, keys[i].0, keys[i].1).msgs);
      CancelOrder(b, out, buf[i].0, buf[i].1);
      ElsewhereTwice(os, os1, b.pool.os, own);
    }
    assert keys[..count] == keys;
  }
}
