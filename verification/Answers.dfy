/** What every answer says, field by field and in plain numbers: whom a trade names and at
    what price, which symbol a message carries, where an order comes to rest, and which
    sides a flush eliminates. */
module Answers {
  import opened Orders
  import opened Sequences
  import opened PriceTime
  import opened MatchLaws
  import opened BookLaws
  import opened BookHistory
  import BookOps

  // ----- Trades -----

  /** Trade number `i` is with opposing order number `i`, at that order's price, and names each
      party on its own side.  It takes all of that order unless it is the last trade. */
  lemma {:induction false} TradeSays(symbol: string, o: NewOrder, rem: u32, opp: seq<Resting>, i: nat)
    requires i < |Match(symbol, o, rem, opp).trades|
    ensures i < |opp|
    ensures var t, r := Match(symbol, o, rem, opp).trades[i], opp[i];
            && t.Trade? && t.symbol == symbol && t.price == r.price
            && (o.side == Buy ==>
                  && t.buyUser == o.user && t.buyOid == o.oid && t.buyClient == o.client
                  && t.sellUser == r.user && t.sellOid == r.oid && t.sellClient == r.client)
            && (o.side == Sell ==>
                  && t.sellUser == o.user && t.sellOid == o.oid && t.sellClient == o.client
                  && t.buyUser == r.user && t.buyOid == r.oid && t.buyClient == r.client)
            && (r.rem > 0 ==> t.qty > 0) && t.qty <= r.rem
            && (i + 1 < |Match(symbol, o, rem, opp).trades| ==> t.qty == r.rem)
    decreases |opp|
  {
    hide Crosses;
    if opp[0].rem <= rem && i > 0 {
      TradeSays(symbol, o, rem - opp[0].rem, opp[1..], i - 1);
    }
  }

  /** A limit order never trades at a price worse than its own. */
  lemma {:induction false} TradeWithinLimit(symbol: string, o: NewOrder, rem: u32, opp: seq<Resting>, i: nat)
    requires i < |Match(symbol, o, rem, opp).trades| && o.price > 0
    ensures var t := Match(symbol, o, rem, opp).trades[i];
            t.Trade? && if o.side == Buy then t.price <= o.price else t.price >= o.price
    decreases |opp|
  {
    if opp[0].rem <= rem && i > 0 {
      TradeWithinLimit(symbol, o, rem - opp[0].rem, opp[1..], i - 1);
    }
  }

  /** Whatever is left of an order could not trade: the other side is used up, or its best price is
      beyond the order's limit.  A market order has no limit. */
  lemma {:induction false} TradesAllItCan(symbol: string, o: NewOrder, rem: u32, opp: seq<Resting>)
    ensures var m := Match(symbol, o, rem, opp);
            && |m.trades| <= |opp|
            && (m.rem > 0 ==> m.left == opp[|m.trades|..])
            && (m.rem > 0 && m.left != [] ==>
                  o.price > 0 && if o.side == Buy then m.left[0].price > o.price else m.left[0].price < o.price)
    decreases |opp|
  {
    hide TradeMsg;
    if rem == 0 || opp == [] || !Crosses(o.side, o.price, opp[0].price) {
    } else if opp[0].rem <= rem {
      TradesAllItCan(symbol, o, rem - opp[0].rem, opp[1..]);
    }
  }

  // ----- The answer to an order -----

  /** Messages about the top of this symbol's book, bids before asks; they have room for 14
      characters. */
  ghost predicate TopsOf(msgs: seq<Msg>, symbol: string) {
    && (forall i :: 0 <= i < |msgs| ==>
          msgs[i].TopOfBook? && msgs[i].symbol == if |symbol| <= 14 then symbol else symbol[..14])
    && (|msgs| <= 1 || (|msgs| == 2 && msgs[0].side == Buy && msgs[1].side == Sell))
  }

  lemma AnnounceSays(b: Book)
    ensures TopsOf(Announce(b).msgs, b.symbol)
  {
    hide Best;
  }

  /** The top of a side is its first price with all the quantity that rests at it, modulo 2^32, where
      `n` orders have that price. */
  lemma BestSays(flat: seq<Resting>, n: nat)
    requires 0 < n <= |flat|
    requires forall i :: 0 <= i < |flat| ==> (flat[i].price == flat[0].price <==> i < n)
    ensures Best(flat) == Top(flat[0].price, TotalQty(flat[..n]) % 4294967296) && Best([]) == Top(0, 0)
  {
    assert flat == flat[..n] + flat[n..];
    BookOps.QtySplit(flat[..n], flat[n..], flat[0].price);
    BookOps.QtyUniform(flat[..n], flat[0].price, true);
    BookOps.QtyUniform(flat[n..], flat[0].price, false);
  }

  /** An order is answered by its acknowledgement in the book's symbol, one trade for each of the
      first `n` opposing orders, and tops. */
  lemma AddSays(b: Book, o: NewOrder) returns (n: nat)
    ensures var opp, msgs := if o.side == Buy then b.asks else b.bids, PriceTime.AddOrder(b, o).msgs;
            && n <= |opp| && 1 + n <= |msgs|
            && msgs[0] == Ack(b.symbol, o.user, o.oid)
            && (var trades := msgs[1..1 + n];
                forall i :: 0 <= i < n ==>
                  && trades[i].Trade?
                  && (o.price > 0 ==> if o.side == Buy then opp[i].price <= o.price else opp[i].price >= o.price)
                  && trades[i] == if o.side == Buy
                     then Trade(b.symbol, o.user, o.oid, o.client, opp[i].user, opp[i].oid, opp[i].client, opp[i].price, trades[i].qty)
                     else Trade(b.symbol, opp[i].user, opp[i].oid, opp[i].client, o.user, o.oid, o.client, opp[i].price, trades[i].qty))
            && TopsOf(msgs[1 + n..], b.symbol)
  {
    hide Match, Announce, TopsOf;
    var opp, m := if o.side == Buy then b.asks else b.bids, MatchIn(b, o);
    n := |m.trades|;
    TradesAllItCan(b.symbol, o, o.quantity, opp);
    AnnounceSays(Settle(b, o));
    var tops := Announce(Settle(b, o)).msgs;
    assert PriceTime.AddOrder(b, o).msgs[1 + n..] == tops && PriceTime.AddOrder(b, o).msgs[1..1 + n] == m.trades;
    forall i | 0 <= i < n
      ensures var t := m.trades[i];
              && t.Trade?
              && (o.price > 0 ==> if o.side == Buy then opp[i].price <= o.price else opp[i].price >= o.price)
              && t == if o.side == Buy
                 then Trade(b.symbol, o.user, o.oid, o.client, opp[i].user, opp[i].oid, opp[i].client, opp[i].price, t.qty)
                 else Trade(b.symbol, opp[i].user, opp[i].oid, opp[i].client, o.user, o.oid, o.client, opp[i].price, t.qty)
    {
      TradeSays(b.symbol, o, o.quantity, opp, i);
      if o.price > 0 {
        TradeWithinLimit(b.symbol, o, o.quantity, opp, i);
      }
    }
  }

  /** What an order leaves in the book: what its trades have not used of a limit order rests behind
      every order at least as good and before every worse one; nothing rests of a market order. */
  lemma AddLeaves(b: Book, o: NewOrder) returns (n: nat)
    requires Inv(b)
    ensures var r := PriceTime.AddOrder(b, o);
            var own, after := if o.side == Buy then b.bids else b.asks, if o.side == Buy then r.book.bids else r.book.asks;
            var left := o.quantity - Volume(r.msgs);
            && 0 <= left
            && if o.price == 0 || left == 0 then after == own
               else
                 && n <= |own|
                 && after == own[..n] + [Resting(o.user, o.oid, o.client, o.price, o.quantity, left)] + own[n..]
                 && (forall i :: 0 <= i < n ==> if o.side == Buy then own[i].price >= o.price else own[i].price <= o.price)
                 && (forall i :: n <= i < |own| ==> if o.side == Buy then own[i].price < o.price else own[i].price > o.price)
  {
    hide Match, Best, Sound, Apart, Disjoint, Uncrossed, Enqueue, Ordered, TopMsgs;
    var own, m := b.At(o.side), MatchIn(b, o);
    MatchConserves(b.symbol, o, o.quantity, b.At(o.side.Opposite()));
    AddVolume(b, o);
    n := 0;
    if o.price > 0 && m.rem > 0 {
      n := EnqueuePlace(o.side, own, Resting(o.user, o.oid, o.client, o.price, o.quantity, m.rem));
    }
  }

  lemma AddVolume(b: Book, o: NewOrder)
    ensures Volume(PriceTime.AddOrder(b, o).msgs) == Volume(MatchIn(b, o).trades)
  {
    hide Match, Announce, Settle;
    var ack, tops := [Ack(b.symbol, o.user, o.oid)], Announce(Settle(b, o)).msgs;
    AnnounceSays(Settle(b, o));
    SettleFlags(b, o);
    TopsSilent(tops, b.symbol);
    VolumeAppend(ack + MatchIn(b, o).trades, tops);
    VolumeAppend(ack, MatchIn(b, o).trades);
    assert ack[1..] == [];
  }

  lemma {:induction false} TopsSilent(msgs: seq<Msg>, symbol: string)
    requires TopsOf(msgs, symbol)
    ensures Volume(msgs) == 0
    decreases |msgs|
  {
    if msgs != [] {
      TopsSilent(msgs[1..], symbol);
    }
  }

  // ----- The answer to a cancel and to a flush -----

  /** A cancel is acknowledged in the book's symbol, whether the key is known or not. */
  lemma CancelSays(b: Book, user: u32, oid: u32)
    ensures var msgs := PriceTime.CancelOrder(b, user, oid).msgs;
            |msgs| > 0 && msgs[0] == CancelAck(b.symbol, user, oid) && TopsOf(msgs[1..], b.symbol)
  {
    hide Announce, DropKey, Live;
    if Live(b, Key(user, oid)) {
      var side := SideOf(b, Key(user, oid));
      AnnounceSays(b.With(side, DropKey(b.At(side), Key(user, oid))));
    }
  }

  /** A flush acknowledges every bid in the side's order, then every ask, and eliminates exactly the
      active sides; nothing is left. */
  lemma FlushSays(b: Book)
    ensures var msgs, n := PriceTime.Flush(b).msgs, |b.bids|;
            && (forall i :: 0 <= i < n ==> i < |msgs| && msgs[i] == CancelAck(b.symbol, b.bids[i].user, b.bids[i].oid))
            && (forall i :: 0 <= i < |b.asks| ==>
                  n + i < |msgs| && msgs[n + i] == CancelAck(b.symbol, b.asks[i].user, b.asks[i].oid))
            && var short := if |b.symbol| <= 14 then b.symbol else b.symbol[..14];
               n + |b.asks| <= |msgs| && msgs[n + |b.asks|..]
               == (if b.bidActive then [TopOfBook(short, Buy, 0, 0)] else []) + (if b.askActive then [TopOfBook(short, Sell, 0, 0)] else [])
    ensures PriceTime.Flush(b).book == Book(b.symbol, [], [], Top(0, 0), Top(0, 0), false, false)
  {
    var acks := Acks(b.symbol, b.bids + b.asks);
    assert PriceTime.Flush(b).msgs[|acks|..] == Eliminated(b);
    forall i | 0 <= i < |b.asks|
      ensures acks[|b.bids| + i] == CancelAck(b.symbol, b.asks[i].user, b.asks[i].oid)
    {
      assert (b.bids + b.asks)[|b.bids| + i] == b.asks[i];
    }
  }

  /** The keys acknowledged as cancelled, in order. */
  function Acked(msgs: seq<Msg>): seq<(u32, u32)> {
    if msgs == [] then []
    else (if msgs[0].CancelAck? then [(msgs[0].user, msgs[0].oid)] else []) + Acked(msgs[1..])
  }

  lemma {:induction false} AckedTops(msgs: seq<Msg>, symbol: string, more: seq<Msg>)
    requires TopsOf(msgs, symbol)
    ensures Acked(msgs + more) == Acked(more)
    decreases |msgs|
  {
    if msgs == [] {
      assert msgs + more == more;
    } else {
      assert (msgs + more)[0] == msgs[0] && (msgs + more)[1..] == msgs[1..] + more;
      AckedTops(msgs[1..], symbol, more);
    }
  }

  /** Cancelling keys one after the other acknowledges them, each once and in order. */
  lemma {:induction false} CancelAllSays(b: Book, keys: seq<(u32, u32)>)
    ensures Acked(CancelAll(b, keys).msgs) == keys
    decreases |keys|
  {
    hide PriceTime.CancelOrder, TopsOf;
    if keys != [] {
      var first := PriceTime.CancelOrder(b, keys[0].0, keys[0].1);
      var more := CancelAll(first.book, keys[1..]).msgs;
      CancelSays(b, keys[0].0, keys[0].1);
      CancelAllSays(first.book, keys[1..]);
      AckedTops(first.msgs[1..], b.symbol, more);
      assert (first.msgs + more)[0] == first.msgs[0] && (first.msgs + more)[1..] == first.msgs[1..] + more;
    }
  }

  // ----- Over every run -----

  /** Every message of a run carries the book's symbol, a top-of-book message its first 14 characters. */
  ghost predicate Named(msgs: seq<Msg>, symbol: string) {
    forall i :: 0 <= i < |msgs| ==>
      msgs[i].symbol == if msgs[i].TopOfBook? && |symbol| > 14 then symbol[..14] else symbol
  }

  lemma {:induction false} CancelAllNamed(b: Book, keys: seq<(u32, u32)>)
    ensures Named(CancelAll(b, keys).msgs, b.symbol)
    decreases |keys|
  {
    hide PriceTime.CancelOrder;
    if keys != [] {
      var first := PriceTime.CancelOrder(b, keys[0].0, keys[0].1);
      CancelNamed(b, keys[0].0, keys[0].1);
      CancelSymbol(b, keys[0].0, keys[0].1);
      CancelAllNamed(first.book, keys[1..]);
    }
  }

  lemma CancelNamed(b: Book, user: u32, oid: u32)
    ensures Named(PriceTime.CancelOrder(b, user, oid).msgs, b.symbol)
  {
    hide PriceTime.CancelOrder;
    CancelSays(b, user, oid);
    var msgs := PriceTime.CancelOrder(b, user, oid).msgs;
    assert forall i :: 1 <= i < |msgs| ==> msgs[i] == msgs[1..][i - 1];
  }

  lemma AddNamed(b: Book, o: NewOrder)
    ensures Named(PriceTime.AddOrder(b, o).msgs, b.symbol)
  {
    hide PriceTime.AddOrder;
    var n := AddSays(b, o);
    var msgs := PriceTime.AddOrder(b, o).msgs;
    forall i | 0 <= i < |msgs|
      ensures msgs[i].symbol == if msgs[i].TopOfBook? && |b.symbol| > 14 then b.symbol[..14] else b.symbol
    {
      if i > n {
        assert msgs[i] == msgs[1 + n..][i - 1 - n];
      } else if i > 0 {
        assert msgs[i] == msgs[1..1 + n][i - 1];
      }
    }
  }

  lemma FlushNamed(b: Book)
    ensures Named(PriceTime.Flush(b).msgs, b.symbol)
  {
  }

  lemma StepNamed(b: Book, op: Op)
    ensures Named(Step(b, op).msgs, b.symbol)
  {
    hide Named, PriceTime.AddOrder, PriceTime.CancelOrder, CancelAll, Flush;
    match op {
      case Add(o) => AddNamed(b, o);
      case Cancel(user, oid) => CancelNamed(b, user, oid);
      case CancelFor(client) => CancelAllNamed(b, Collected(b, client));
      case FlushAll => FlushNamed(b);
    }
  }

  lemma {:induction false} RunNamed(symbol: string, ops: seq<Op>)
    requires FreshRun(symbol, ops)
    ensures Named(Run(symbol, ops).msgs, symbol)
    ensures forall m :: m in Run(symbol, ops).msgs ==> m.symbol == if m.TopOfBook? && |symbol| > 14 then symbol[..14] else symbol
    decreases |ops|
  {
    hide Inv, Step, Fresh;
    if ops != [] {
      RunNamed(symbol, ops[..|ops| - 1]);
      RunInv(symbol, ops[..|ops| - 1]);
      StepNamed(Run(symbol, ops[..|ops| - 1]).book, ops[|ops| - 1]);
    }
  }

  /** In every run the bids fall and the asks rise from the front, every bid is below every ask,
      every order is live and limited, and no two share their ids. */
  lemma RunBook(symbol: string, ops: seq<Op>)
    requires FreshRun(symbol, ops)
    ensures var b := Run(symbol, ops).book;
            && (forall i, j :: 0 <= i < j < |b.bids| ==> b.bids[i].price >= b.bids[j].price)
            && (forall i, j :: 0 <= i < j < |b.asks| ==> b.asks[i].price <= b.asks[j].price)
            && (forall i, j :: 0 <= i < |b.bids| && 0 <= j < |b.asks| ==> b.bids[i].price < b.asks[j].price)
            && (forall r :: r in b.bids + b.asks ==> r.price > 0 && 0 < r.rem <= r.quantity)
            && (var all := b.bids + b.asks;
                forall i, j :: 0 <= i < j < |all| ==> all[i].user != all[j].user || all[i].oid != all[j].oid)
  {
    hide Run, FreshRun, Best;
    RunInv(symbol, ops);
    BookPlain(Run(symbol, ops).book);
  }

  lemma BookPlain(b: Book)
    requires Inv(b)
    ensures forall i, j :: 0 <= i < j < |b.bids| ==> b.bids[i].price >= b.bids[j].price
    ensures forall i, j :: 0 <= i < j < |b.asks| ==> b.asks[i].price <= b.asks[j].price
    ensures forall i, j :: 0 <= i < |b.bids| && 0 <= j < |b.asks| ==> b.bids[i].price < b.asks[j].price
    ensures forall r :: r in b.bids + b.asks ==> r.price > 0 && 0 < r.rem <= r.quantity
    ensures var all := b.bids + b.asks;
            forall i, j :: 0 <= i < j < |all| ==> all[i].user != all[j].user || all[i].oid != all[j].oid
  {
    hide Best;
    forall i, j | 0 <= i < |b.bids| && 0 <= j < |b.asks|
      ensures b.bids[i].price < b.asks[j].price
    {
      assert b.bids[i].price <= b.bids[0].price && b.asks[0].price <= b.asks[j].price;
    }
  }

  // ----- Which sides a flush eliminates -----

  /** Some order rested on the side since the last flush. */
  ghost predicate EverRested(symbol: string, ops: seq<Op>, side: Side) {
    ops != [] && !ops[|ops| - 1].FlushAll?
    && (EverRested(symbol, ops[..|ops| - 1], side) || Run(symbol, ops).book.At(side) != [])
  }

  ghost function ActiveOn(b: Book, side: Side): bool {
    if side == Buy then b.bidActive else b.askActive
  }

  lemma AnnounceActive(b: Book, side: Side)
    requires Sound(b.bids) && Sound(b.asks)
    ensures ActiveOn(Announce(b).book, side) <==> ActiveOn(b, side) || b.At(side) != []
    ensures Announce(b).book.At(side) == b.At(side)
  {
    hide Best, Sound;
    BestZero(b.bids);
    BestZero(b.asks);
  }

  lemma CancelActive(b: Book, user: u32, oid: u32, side: Side)
    requires Inv(b)
    ensures ActiveOn(PriceTime.CancelOrder(b, user, oid).book, side) == ActiveOn(b, side)
  {
    hide Ordered, Apart, Disjoint, Uncrossed, Announce, HasKey, Sound, Best;
    var key := Key(user, oid);
    if Live(b, key) {
      var d := SideOf(b, key);
      var n := DropKeyIs(b.At(d), key);
      var f := RemoveEmbeds(b.At(d), n);
      ShrinkCore(b, d, DropKey(b.At(d), key), f);
      AnnounceActive(b.With(d, DropKey(b.At(d), key)), side);
    }
  }

  lemma {:induction false} CancelAllActive(b: Book, keys: seq<(u32, u32)>, side: Side)
    requires Inv(b)
    ensures ActiveOn(CancelAll(b, keys).book, side) == ActiveOn(b, side)
    decreases |keys|
  {
    hide Inv, PriceTime.CancelOrder, ActiveOn;
    if keys != [] {
      CancelActive(b, keys[0].0, keys[0].1, side);
      CancelInv(b, keys[0].0, keys[0].1);
      CancelAllActive(PriceTime.CancelOrder(b, keys[0].0, keys[0].1).book, keys[1..], side);
    }
  }

  lemma StepActive(b: Book, op: Op, side: Side)
    requires Inv(b) && Fresh(b, op)
    ensures ActiveOn(Step(b, op).book, side) <==> !op.FlushAll? && (ActiveOn(b, side) || Step(b, op).book.At(side) != [])
  {
    hide Core, PriceTime.CancelOrder, CancelAll, Settle, Announce, Best;
    StepInv(b, op);
    match op {
      case Add(o) =>
        SettleCore(b, o);
        assert Sound(Settle(b, o).bids) && Sound(Settle(b, o).asks) by { CoreSound(Settle(b, o)); }
        AnnounceActive(Settle(b, o), side);
        SettleFlags(b, o);
      case Cancel(user, oid) => CancelActive(b, user, oid, side);
      case CancelFor(client) => CancelAllActive(b, Collected(b, client), side);
      case FlushAll =>
    }
  }

  lemma CoreSound(b: Book)
    requires Core(b.bids, b.asks)
    ensures Sound(b.bids) && Sound(b.asks)
  {
  }

  lemma SettleFlags(b: Book, o: NewOrder)
    ensures var s := Settle(b, o); s.bidActive == b.bidActive && s.askActive == b.askActive && s.symbol == b.symbol
  {
    hide Match, Enqueue;
  }

  /** A flush eliminates a side exactly when an order has rested on it since the flush before. */
  lemma {:induction false} RunActive(symbol: string, ops: seq<Op>, side: Side)
    requires FreshRun(symbol, ops)
    ensures ActiveOn(Run(symbol, ops).book, side) <==> EverRested(symbol, ops, side)
    decreases |ops|
  {
    hide Inv, Step, Fresh;
    if ops != [] {
      RunActive(symbol, ops[..|ops| - 1], side);
      RunInv(symbol, ops[..|ops| - 1]);
      StepActive(Run(symbol, ops[..|ops| - 1]).book, ops[|ops| - 1], side);
    }
  }
}
