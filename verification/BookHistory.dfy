/** What a run's messages say about its book: a listener that replays the top-of-book
    messages of a side knows its best price and quantity. */
module BookHistory {
  import opened Orders
  import opened Sequences
  import opened PriceTime
  import opened PriceLevels
  import opened MatchLaws
  import opened BookLaws

  // ----- Replaying top-of-book messages -----

  /** The top a listener holds for `side` after reading `msgs`, starting from `top`. */
  function Replay(side: Side, top: Top, msgs: seq<Msg>): Top
    decreases |msgs|
  {
    if msgs == [] then top
    else
      var m := msgs[0];
      Replay(side, if m.TopOfBook? && m.side == side then Top(m.price, m.qty) else top, msgs[1..])
  }

  lemma {:induction false} ReplayAppend(side: Side, top: Top, a: seq<Msg>, b: seq<Msg>)
    ensures Replay(side, top, a + b) == Replay(side, Replay(side, top, a), b)
    decreases |a|
  {
    if a == [] {
      assert a + b == b;
    } else {
      var m := a[0];
      assert (a + b)[0] == m && (a + b)[1..] == a[1..] + b;
      ReplayAppend(side, if m.TopOfBook? && m.side == side then Top(m.price, m.qty) else top, a[1..], b);
    }
  }

  lemma {:induction false} ReplaySilent(side: Side, top: Top, msgs: seq<Msg>)
    requires forall i :: 0 <= i < |msgs| ==> !msgs[i].TopOfBook?
    ensures Replay(side, top, msgs) == top
    decreases |msgs|
  {
    if msgs != [] {
      ReplaySilent(side, top, msgs[1..]);
    }
  }

  lemma {:induction false} TradesOnly(symbol: string, o: NewOrder, rem: u32, opp: seq<Resting>)
    ensures forall i :: 0 <= i < |Match(symbol, o, rem, opp).trades| ==> Match(symbol, o, rem, opp).trades[i].Trade?
    decreases |opp|
  {
    if rem == 0 || opp == [] || !Crosses(o.side, o.price, opp[0].price) {
    } else if opp[0].rem <= rem {
      TradesOnly(symbol, o, rem - opp[0].rem, opp[1..]);
    }
  }

  lemma TopMsgsReplay(symbol: string, side: Side, seen: Top, now: Top, active: bool, d: Side, top: Top)
    requires now.price == 0 ==> now == Top(0, 0)
    requires now != seen ==> now.price > 0 || active
    ensures Replay(d, top, TopMsgs(symbol, side, seen, now, active)) == if d == side && now != seen then now else top
  {
    var msgs := TopMsgs(symbol, side, seen, now, active);
    if msgs != [] {
      assert msgs[1..] == [];
    }
  }

  lemma BestZero(flat: seq<Resting>)
    requires Sound(flat)
    ensures Best(flat).price == 0 <==> flat == []
    ensures Best(flat).price == 0 ==> Best(flat) == Top(0, 0)
  {
  }

  /** An announcement brings a listener from the last announced tops to the current ones. */
  lemma AnnounceReplay(b: Book, side: Side)
    requires Sound(b.bids) && Sound(b.asks)
    requires (b.seenBid == Top(0, 0) || b.bidActive) && (b.seenAsk == Top(0, 0) || b.askActive)
    ensures Replay(side, if side == Buy then b.seenBid else b.seenAsk, Announce(b).msgs) == Best(b.At(side))
  {
    hide Best, Replay, TopMsgs, Sound;
    BestZero(b.bids);
    BestZero(b.asks);
    var bid, ask, top := Best(b.bids), Best(b.asks), if side == Buy then b.seenBid else b.seenAsk;
    var bidActive, askActive := b.bidActive || bid.price > 0, b.askActive || ask.price > 0;
    var first, second := TopMsgs(b.symbol, Buy, b.seenBid, bid, bidActive), TopMsgs(b.symbol, Sell, b.seenAsk, ask, askActive);
    ReplayAppend(side, top, first, second);
    TopMsgsReplay(b.symbol, Buy, b.seenBid, bid, bidActive, side, top);
    TopMsgsReplay(b.symbol, Sell, b.seenAsk, ask, askActive, side, Replay(side, top, first));
  }

  lemma SettleParts(b: Book, o: NewOrder)
    requires Inv(b) && o.quantity > 0 && NewKey(b, o)
    ensures var s := Settle(b, o);
            && Sound(s.bids) && Sound(s.asks) && s == b.(bids := s.bids, asks := s.asks)
            && (b.seenBid == Top(0, 0) || b.bidActive) && (b.seenAsk == Top(0, 0) || b.askActive)
  {
    SettleCore(b, o);
    SeenActive(b);
    assert Settle(b, o) == b.(bids := Settle(b, o).bids, asks := Settle(b, o).asks);
  }

  lemma SeenActive(b: Book)
    requires Inv(b)
    ensures (b.seenBid == Top(0, 0) || b.bidActive) && (b.seenAsk == Top(0, 0) || b.askActive)
    ensures forall side :: (if side == Buy then b.seenBid else b.seenAsk) == Best(b.At(side))
  {
  }

  lemma AddReplay(b: Book, o: NewOrder, side: Side)
    requires Inv(b) && o.quantity > 0 && NewKey(b, o)
    ensures Replay(side, Best(b.At(side)), PriceTime.AddOrder(b, o).msgs) == Best(PriceTime.AddOrder(b, o).book.At(side))
  {
    hide Inv, Replay, Best, Sound, Settle, Match, HasKey;
    SettleParts(b, o);
    SeenActive(b);
    var s, top, ack, m := Settle(b, o), Best(b.At(side)), [Ack(b.symbol, o.user, o.oid)], MatchIn(b, o);
    AnnounceReplay(s, side);
    TradesOnly(b.symbol, o, o.quantity, b.At(o.side.Opposite()));
    ReplaySilent(side, top, ack + m.trades);
    ReplayAppend(side, top, ack + m.trades, Announce(s).msgs);
  }

  lemma CancelReplay(b: Book, user: u32, oid: u32, side: Side)
    requires Inv(b)
    ensures Replay(side, Best(b.At(side)), PriceTime.CancelOrder(b, user, oid).msgs)
         == Best(PriceTime.CancelOrder(b, user, oid).book.At(side))
  {
    hide Replay, Best, Ordered, Apart, Disjoint, Uncrossed, HasKey;
    var key, ack, top := Key(user, oid), [CancelAck(b.symbol, user, oid)], Best(b.At(side));
    ReplaySilent(side, top, ack);
    SeenActive(b);
    if Live(b, key) {
      var d := SideOf(b, key);
      var n := DropKeyIs(b.At(d), key);
      var f := RemoveEmbeds(b.At(d), n);
      ShrinkCore(b, d, DropKey(b.At(d), key), f);
      var b1 := b.With(d, DropKey(b.At(d), key));
      AnnounceReplay(b1, side);
      ReplayAppend(side, top, ack, Announce(b1).msgs);
    }
  }

  lemma {:induction false} CancelAllReplay(b: Book, keys: seq<(u32, u32)>, side: Side)
    requires Inv(b)
    ensures Replay(side, Best(b.At(side)), CancelAll(b, keys).msgs) == Best(CancelAll(b, keys).book.At(side))
    decreases |keys|
  {
    hide Inv, Best, PriceTime.CancelOrder;
    if keys != [] {
      var first := PriceTime.CancelOrder(b, keys[0].0, keys[0].1);
      CancelInv(b, keys[0].0, keys[0].1);
      CancelReplay(b, keys[0].0, keys[0].1, side);
      CancelAllReplay(first.book, keys[1..], side);
      ReplayAppend(side, Best(b.At(side)), first.msgs, CancelAll(first.book, keys[1..]).msgs);
    }
  }

  lemma FlushReplay(b: Book, side: Side)
    requires Inv(b)
    ensures Replay(side, Best(b.At(side)), Flush(b).msgs) == Best(Flush(b).book.At(side))
  {
    hide Core, Replay;
    var acks, top := Acks(b.symbol, b.bids + b.asks), Best(b.At(side));
    ReplaySilent(side, top, acks);
    ReplayAppend(side, top, acks, Eliminated(b));
    EliminatedReplay(b, side, top);
    SeenActive(b);
  }

  lemma EliminatedReplay(b: Book, side: Side, top: Top)
    ensures Replay(side, top, Eliminated(b)) == if (if side == Buy then b.bidActive else b.askActive) then Top(0, 0) else top
  {
    var first := if b.bidActive then [TopOfBook(TopSymbol(b.symbol), Buy, 0, 0)] else [];
    var second := if b.askActive then [TopOfBook(TopSymbol(b.symbol), Sell, 0, 0)] else [];
    ReplayAppend(side, top, first, second);
    assert first != [] ==> first[1..] == [];
    assert second != [] ==> second[1..] == [];
  }

  lemma StepReplay(b: Book, op: Op, side: Side)
    requires Inv(b) && Fresh(b, op)
    ensures Replay(side, Best(b.At(side)), Step(b, op).msgs) == Best(Step(b, op).book.At(side))
  {
    hide Inv, Best, Replay, PriceTime.AddOrder, PriceTime.CancelOrder, CancelAll, Flush;
    match op {
      case Add(o) => AddReplay(b, o, side);
      case Cancel(user, oid) => CancelReplay(b, user, oid, side);
      case CancelFor(client) => CancelAllReplay(b, Collected(b, client), side);
      case FlushAll => FlushReplay(b, side);
    }
  }

  /** A listener that starts from (0, 0) and applies a side's top-of-book messages holds
      that side's best price and quantity after every run. */
  lemma {:induction false} RunReplay(symbol: string, ops: seq<Op>, side: Side)
    requires FreshRun(symbol, ops)
    ensures Replay(side, Top(0, 0), Run(symbol, ops).msgs) == Best(Run(symbol, ops).book.At(side))
    decreases |ops|
  {
    hide Inv, Step, Fresh;
    if ops != [] {
      var before, op := Run(symbol, ops[..|ops| - 1]), ops[|ops| - 1];
      RunInv(symbol, ops[..|ops| - 1]);
      RunReplay(symbol, ops[..|ops| - 1], side);
      StepReplay(before.book, op, side);
      ReplayAppend(side, Top(0, 0), before.msgs, Step(before.book, op).msgs);
    }
  }
}
