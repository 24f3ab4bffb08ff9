/** Conservation order by order: every unit accepted for a key is traded in that key's name
    on its own side, still rests, was withdrawn, or is a discarded market remainder. */
module OrderLedger {
  import opened Orders
  import opened Sequences
  import opened PriceTime
  import opened BookLaws
  import opened Ledger

  /** The key that a trade names on one side. */
  function PartyKey(m: Msg, side: Side): nat
    requires m.Trade?
  {
    if side == Buy then Key(m.buyUser, m.buyOid) else Key(m.sellUser, m.sellOid)
  }

  /** The quantity traded in the name of `keys` as orders of `side`. */
  function FillsIn(msgs: seq<Msg>, side: Side, keys: set<nat>): nat {
    if msgs == [] then 0
    else (if msgs[0].Trade? && PartyKey(msgs[0], side) in keys then msgs[0].qty else 0) + FillsIn(msgs[1..], side, keys)
  }

  lemma {:induction false} FillsAppend(a: seq<Msg>, b: seq<Msg>, side: Side, keys: set<nat>)
    ensures FillsIn(a + b, side, keys) == FillsIn(a, side, keys) + FillsIn(b, side, keys)
  {
    if a == [] {
      assert a + b == b;
    } else {
      FillsAppend(a[1..], b, side, keys);
      assert (a + b)[0] == a[0] && (a + b)[1..] == a[1..] + b;
    }
  }

  lemma {:induction false} FillsNone(msgs: seq<Msg>, side: Side, keys: set<nat>)
    requires forall i :: 0 <= i < |msgs| ==> !msgs[i].Trade?
    ensures FillsIn(msgs, side, keys) == 0
  {
    if msgs != [] {
      FillsNone(msgs[1..], side, keys);
    }
  }

  lemma {:induction false} QtyInAppend(a: seq<Resting>, b: seq<Resting>, keys: set<nat>)
    ensures QtyIn(a + b, keys) == QtyIn(a, keys) + QtyIn(b, keys)
  {
    if a == [] {
      assert a + b == b;
    } else {
      QtyInAppend(a[1..], b, keys);
      assert (a + b)[0] == a[0] && (a + b)[1..] == a[1..] + b;
    }
  }

  /** One trade names the resting order on its side and the incoming order on the other. */
  lemma TradeNames(symbol: string, o: NewOrder, r: Resting, qty: u32, keys: set<nat>)
    ensures FillsIn([TradeMsg(symbol, o, r, qty)], o.side.Opposite(), keys) == if RestKey(r) in keys then qty else 0
    ensures FillsIn([TradeMsg(symbol, o, r, qty)], o.side, keys) == if Key(o.user, o.oid) in keys then qty else 0
  {
  }

  /** What leaves a resting order is traded in its name, and what leaves the incoming order in that one's. */
  lemma {:induction false} MatchFills(symbol: string, o: NewOrder, rem: u32, opp: seq<Resting>, keys: set<nat>)
    ensures var m := Match(symbol, o, rem, opp);
            && QtyIn(opp, keys) == QtyIn(m.left, keys) + FillsIn(m.trades, o.side.Opposite(), keys)
            && m.rem <= rem && FillsIn(m.trades, o.side, keys) == if Key(o.user, o.oid) in keys then rem - m.rem else 0
    decreases |opp|
  {
    hide Crosses, TradeMsg;
    if rem == 0 || opp == [] || !Crosses(o.side, o.price, opp[0].price) {
    } else if opp[0].rem <= rem {
      MatchFills(symbol, o, rem - opp[0].rem, opp[1..], keys);
      var trade, m := TradeMsg(symbol, o, opp[0], opp[0].rem), Match(symbol, o, rem - opp[0].rem, opp[1..]);
      TradeNames(symbol, o, opp[0], opp[0].rem, keys);
      FillsAppend([trade], m.trades, o.side, keys);
      FillsAppend([trade], m.trades, o.side.Opposite(), keys);
    } else {
      TradeNames(symbol, o, opp[0], rem, keys);
      var head := opp[0].(rem := opp[0].rem - rem);
      assert ([head] + opp[1..])[1..] == opp[1..];
    }
  }

  lemma {:induction false} EnqueueQtyIn(side: Side, flat: seq<Resting>, r: Resting, keys: set<nat>)
    ensures QtyIn(Enqueue(side, flat, r), keys) == QtyIn(flat, keys) + if RestKey(r) in keys then r.rem else 0
  {
    if flat == [] || Better(side, r.price, flat[0].price) {
      assert ([r] + flat)[1..] == flat;
    } else {
      EnqueueQtyIn(side, flat[1..], r, keys);
      assert ([flat[0]] + Enqueue(side, flat[1..], r))[1..] == Enqueue(side, flat[1..], r);
    }
  }

  lemma {:induction false} FilterQtyIn(flat: seq<Resting>, gone: set<nat>, keys: set<nat>)
    ensures QtyIn(flat, keys) == QtyIn(FilterOut(flat, gone), keys) + QtyIn(flat, gone * keys)
  {
    if flat != [] {
      FilterQtyIn(flat[1..], gone, keys);
      var head := if RestKey(flat[0]) in gone then [] else [flat[0]];
      QtyInAppend(head, FilterOut(flat[1..], gone), keys);
    }
  }

  // ----- One operation -----

  /** Quantity that an operation brings to a side under `keys`. */
  function AcceptedIn(op: Op, side: Side, keys: set<nat>): nat {
    if op.Add? && op.o.side == side && Key(op.o.user, op.o.oid) in keys then op.o.quantity else 0
  }

  /** Quantity withdrawn or discarded under `keys`. */
  ghost function LostIn(b: Book, op: Op, side: Side, keys: set<nat>): nat {
    QtyIn(b.At(side), WithdrawnKeys(b, op) * keys)
    + if op.Add? && Key(op.o.user, op.o.oid) in keys then Discarded(b, op, side) else 0
  }

  lemma AddFills(b: Book, o: NewOrder, side: Side, keys: set<nat>)
    ensures var r := PriceTime.AddOrder(b, o);
            QtyIn(b.At(side), keys) + AcceptedIn(Add(o), side, keys)
            == QtyIn(r.book.At(side), keys) + FillsIn(r.msgs, side, keys)
               + if Key(o.user, o.oid) in keys then Discarded(b, Add(o), side) else 0
  {
    hide Match, Enqueue, QtyIn, FillsIn, Best;
    var opp, m, s := b.At(o.side.Opposite()), MatchIn(b, o), Settle(b, o);
    var ack := [Ack(b.symbol, o.user, o.oid)];
    MatchFills(b.symbol, o, o.quantity, opp, keys);
    FillsAppend(ack + m.trades, Announce(s).msgs, side, keys);
    FillsAppend(ack, m.trades, side, keys);
    FillsNone(ack, side, keys);
    FillsNone(Announce(s).msgs, side, keys);
    if Rests(b, o) {
      EnqueueQtyIn(o.side, b.At(o.side), Resting(o.user, o.oid, o.client, o.price, o.quantity, m.rem), keys);
    }
  }

  lemma CancelNoFills(b: Book, user: u32, oid: u32, side: Side, keys: set<nat>)
    ensures FillsIn(PriceTime.CancelOrder(b, user, oid).msgs, side, keys) == 0
  {
    hide Best, DropKey, HasKey;
    FillsNone(PriceTime.CancelOrder(b, user, oid).msgs, side, keys);
  }

  lemma {:induction false} CancelAllNoFills(b: Book, gone: seq<(u32, u32)>, side: Side, keys: set<nat>)
    ensures FillsIn(CancelAll(b, gone).msgs, side, keys) == 0
    decreases |gone|
  {
    hide PriceTime.CancelOrder;
    if gone != [] {
      var first := PriceTime.CancelOrder(b, gone[0].0, gone[0].1);
      CancelNoFills(b, gone[0].0, gone[0].1, side, keys);
      CancelAllNoFills(first.book, gone[1..], side, keys);
      FillsAppend(first.msgs, CancelAll(first.book, gone[1..]).msgs, side, keys);
    }
  }

  lemma {:induction false} QtyInSame(flat: seq<Resting>, keys: set<nat>, keys': set<nat>)
    requires forall i :: 0 <= i < |flat| ==> (RestKey(flat[i]) in keys <==> RestKey(flat[i]) in keys')
    ensures QtyIn(flat, keys) == QtyIn(flat, keys')
  {
    if flat != [] {
      QtyInSame(flat[1..], keys, keys');
    }
  }

  lemma FlushFills(b: Book, side: Side, keys: set<nat>)
    ensures FillsIn(Flush(b).msgs, side, keys) == 0 && QtyIn(Flush(b).book.At(side), keys) == 0
    ensures QtyIn(b.At(side), keys) == QtyIn(b.At(side), WithdrawnKeys(b, FlushAll) * keys)
  {
    FillsNone(Flush(b).msgs, side, keys);
    var flat := b.At(side);
    forall i | 0 <= i < |flat|
      ensures RestKey(flat[i]) in WithdrawnKeys(b, FlushAll)
    {
      assert flat[i] in b.bids + b.asks;
    }
    QtyInSame(flat, keys, WithdrawnKeys(b, FlushAll) * keys);
  }

  lemma NoneIn(flat: seq<Resting>, keys: set<nat>)
    ensures QtyIn(flat, {} * keys) == 0
  {
    QtyOfAll(flat, {} * keys, false);
  }

  /** Each operation balances, on each side and for every set of order keys. */
  lemma StepFills(b: Book, op: Op, side: Side, keys: set<nat>)
    requires Inv(b) && Fresh(b, op)
    ensures var r := Step(b, op);
            QtyIn(b.At(side), keys) + AcceptedIn(op, side, keys)
            == QtyIn(r.book.At(side), keys) + FillsIn(r.msgs, side, keys) + LostIn(b, op, side, keys)
  {
    hide Inv, PriceTime.AddOrder, PriceTime.CancelOrder, CancelAll, Flush, QtyIn, FillsIn;
    match op {
      case Add(o) =>
        AddFills(b, o, side, keys);
        NoneIn(b.At(side), keys);
      case Cancel(user, oid) =>
        CancelIsFilter(b, user, oid, side);
        CancelNoFills(b, user, oid, side, keys);
        FilterQtyIn(b.At(side), {Key(user, oid)}, keys);
      case CancelFor(client) =>
        CancelAllIsFilter(b, Collected(b, client), side);
        CancelAllNoFills(b, Collected(b, client), side, keys);
        FilterQtyIn(b.At(side), KeySet(Collected(b, client)), keys);
      case FlushAll =>
        FlushFills(b, side, keys);
    }
  }

  // ----- Every run -----

  function RunAcceptedIn(ops: seq<Op>, side: Side, keys: set<nat>): nat {
    if ops == [] then 0 else RunAcceptedIn(ops[..|ops| - 1], side, keys) + AcceptedIn(ops[|ops| - 1], side, keys)
  }

  ghost function RunLostIn(symbol: string, ops: seq<Op>, side: Side, keys: set<nat>): nat {
    if ops == [] then 0
    else
      RunLostIn(symbol, ops[..|ops| - 1], side, keys)
      + LostIn(Run(symbol, ops[..|ops| - 1]).book, ops[|ops| - 1], side, keys)
  }

  /** Over any run, on each side and for every set of order keys: what was accepted under
      these keys was traded in their name on that side, still rests, was withdrawn, or is a
      discarded market remainder.  With one key, this accounts for a single order. */
  lemma {:induction false} RunFills(symbol: string, ops: seq<Op>, side: Side, keys: set<nat>)
    requires FreshRun(symbol, ops)
    ensures var r := Run(symbol, ops);
            RunAcceptedIn(ops, side, keys)
            == FillsIn(r.msgs, side, keys) + QtyIn(r.book.At(side), keys) + RunLostIn(symbol, ops, side, keys)
    decreases |ops|
  {
    hide Inv, Step, Fresh, LostIn, AcceptedIn;
    if ops != [] {
      var before, op := Run(symbol, ops[..|ops| - 1]), ops[|ops| - 1];
      RunInv(symbol, ops[..|ops| - 1]);
      RunFills(symbol, ops[..|ops| - 1], side, keys);
      StepFills(before.book, op, side, keys);
      FillsAppend(before.msgs, Step(before.book, op).msgs, side, keys);
    }
  }

  /** No order is ever traded for more than was accepted under its key. */
  lemma NeverOverfilled(symbol: string, ops: seq<Op>, side: Side, key: nat)
    requires FreshRun(symbol, ops)
    ensures FillsIn(Run(symbol, ops).msgs, side, {key}) <= RunAcceptedIn(ops, side, {key})
  {
    hide *;
    RunFills(symbol, ops, side, {key});
  }
}
