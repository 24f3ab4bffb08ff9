/** Cancelling as filtering, and the conservation of quantity over every run. */
module Ledger {
  import opened Orders
  import opened Sequences
  import opened PriceTime
  import opened PriceLevels
  import opened MatchLaws
  import opened BookLaws

  // ----- Cancelling is filtering -----

  /** The orders whose keys are not in `keys`, in their old order. */
  function FilterOut(flat: seq<Resting>, keys: set<nat>): seq<Resting> {
    if flat == [] then []
    else (if RestKey(flat[0]) in keys then [] else [flat[0]]) + FilterOut(flat[1..], keys)
  }

  /** The quantity of the orders whose keys are in `keys`. */
  function QtyIn(flat: seq<Resting>, keys: set<nat>): nat {
    if flat == [] then 0
    else (if RestKey(flat[0]) in keys then flat[0].rem else 0) + QtyIn(flat[1..], keys)
  }

  lemma {:induction false} FilterTotal(flat: seq<Resting>, keys: set<nat>)
    ensures TotalQty(flat) == TotalQty(FilterOut(flat, keys)) + QtyIn(flat, keys)
  {
    if flat != [] {
      FilterTotal(flat[1..], keys);
      TotalSplit(if RestKey(flat[0]) in keys then [] else [flat[0]], FilterOut(flat[1..], keys));
    }
  }

  lemma {:induction false} FilterNone(flat: seq<Resting>, keys: set<nat>)
    requires forall i :: 0 <= i < |flat| ==> RestKey(flat[i]) !in keys
    ensures FilterOut(flat, keys) == flat
  {
    if flat != [] {
      FilterNone(flat[1..], keys);
    }
  }

  lemma {:induction false} FilterTwice(flat: seq<Resting>, a: set<nat>, b: set<nat>)
    ensures FilterOut(FilterOut(flat, a), b) == FilterOut(flat, a + b)
  {
    if flat != [] {
      FilterTwice(flat[1..], a, b);
      var rest := FilterOut(flat[1..], a);
      if RestKey(flat[0]) in a {
        assert FilterOut(flat, a) == rest;
      } else {
        assert FilterOut(flat, a) == [flat[0]] + rest && ([flat[0]] + rest)[1..] == rest;
      }
    }
  }

  /** With unique keys, dropping a key is filtering it out. */
  lemma {:induction false} DropIsFilter(flat: seq<Resting>, key: nat)
    requires Apart(flat)
    ensures DropKey(flat, key) == FilterOut(flat, {key})
  {
    if flat != [] {
      if RestKey(flat[0]) == key {
        FilterNone(flat[1..], {key});
      } else {
        DropIsFilter(flat[1..], key);
      }
    }
  }

  lemma CancelIsFilter(b: Book, user: u32, oid: u32, side: Side)
    requires Inv(b)
    ensures PriceTime.CancelOrder(b, user, oid).book.At(side) == FilterOut(b.At(side), {Key(user, oid)})
  {
    hide Ordered, Sound, Uncrossed, Best, FilterOut, DropKey;
    var key, flat := Key(user, oid), b.At(side);
    if Live(b, key) && side == SideOf(b, key) {
      DropIsFilter(flat, key);
    } else {
      forall i | 0 <= i < |flat|
        ensures RestKey(flat[i]) != key
      {
        if Live(b, key) {
          var other := b.At(side.Opposite());
          var j :| 0 <= j < |other| && RestKey(other[j]) == key;
        }
      }
      FilterNone(flat, {key});
    }
  }

  function KeySet(keys: seq<(u32, u32)>): set<nat> {
    set i | 0 <= i < |keys| :: Key(keys[i].0, keys[i].1)
  }

  lemma KeySetFirst(keys: seq<(u32, u32)>)
    requires keys != []
    ensures KeySet(keys) == {Key(keys[0].0, keys[0].1)} + KeySet(keys[1..])
  {
    forall k | k in KeySet(keys)
      ensures k in {Key(keys[0].0, keys[0].1)} + KeySet(keys[1..])
    {
      var i :| 0 <= i < |keys| && k == Key(keys[i].0, keys[i].1);
      if i > 0 {
        assert keys[1..][i - 1] == keys[i];
      }
    }
    forall k | k in KeySet(keys[1..])
      ensures k in KeySet(keys)
    {
      var i :| 0 <= i < |keys[1..]| && k == Key(keys[1..][i].0, keys[1..][i].1);
      assert keys[i + 1] == keys[1..][i];
    }
  }

  /** Cancelling a list of keys one by one removes exactly their orders and keeps the
      relative order of all others. */
  lemma {:induction false} CancelAllIsFilter(b: Book, keys: seq<(u32, u32)>, side: Side)
    requires Inv(b)
    ensures CancelAll(b, keys).book.At(side) == FilterOut(b.At(side), KeySet(keys))
    decreases |keys|
  {
    hide Inv, PriceTime.CancelOrder, FilterOut;
    if keys == [] {
      FilterNone(b.At(side), KeySet(keys));
    } else {
      var key, next := Key(keys[0].0, keys[0].1), PriceTime.CancelOrder(b, keys[0].0, keys[0].1).book;
      CancelIsFilter(b, keys[0].0, keys[0].1, side);
      CancelInv(b, keys[0].0, keys[0].1);
      CancelAllIsFilter(next, keys[1..], side);
      FilterTwice(b.At(side), {key}, KeySet(keys[1..]));
      KeySetFirst(keys);
    }
  }

  // ----- Conservation -----

  /** Quantity that an operation brings to a side. */
  function Accepted(op: Op, side: Side): nat {
    if op.Add? && op.o.side == side then op.o.quantity else 0
  }

  /** Keys that an operation withdraws from the book. */
  ghost function WithdrawnKeys(b: Book, op: Op): set<nat> {
    match op
    case Add(_) => {}
    case Cancel(user, oid) => {Key(user, oid)}
    case CancelFor(client) => KeySet(Collected(b, client))
    case FlushAll => set r | r in b.bids + b.asks :: RestKey(r)
  }

  /** Quantity cancelled or flushed. */
  ghost function Withdrawn(b: Book, op: Op, side: Side): nat {
    QtyIn(b.At(side), WithdrawnKeys(b, op))
  }

  /** Market remainder that found nobody to trade with. */
  function Discarded(b: Book, op: Op, side: Side): nat {
    if op.Add? && op.o.side == side && op.o.price == 0 then MatchIn(b, op.o).rem else 0
  }

  lemma {:induction false} VolumeNone(msgs: seq<Msg>)
    requires forall i :: 0 <= i < |msgs| ==> !msgs[i].Trade?
    ensures Volume(msgs) == 0
  {
    if msgs != [] {
      VolumeNone(msgs[1..]);
    }
  }

  lemma {:induction false} EnqueueTotal(side: Side, flat: seq<Resting>, r: Resting)
    ensures TotalQty(Enqueue(side, flat, r)) == TotalQty(flat) + r.rem
  {
    if flat == [] || Better(side, r.price, flat[0].price) {
      assert ([r] + flat)[1..] == flat;
    } else {
      EnqueueTotal(side, flat[1..], r);
      assert ([flat[0]] + Enqueue(side, flat[1..], r))[1..] == Enqueue(side, flat[1..], r);
    }
  }

  lemma AddConserves(b: Book, o: NewOrder, side: Side)
    ensures var r := PriceTime.AddOrder(b, o);
            TotalQty(b.At(side)) + Accepted(Add(o), side)
            == TotalQty(r.book.At(side)) + Volume(r.msgs) + Discarded(b, Add(o), side)
  {
    hide Match, Enqueue, TotalQty, Best;
    var opp, m, s := b.At(o.side.Opposite()), MatchIn(b, o), Settle(b, o);
    MatchConserves(b.symbol, o, o.quantity, opp);
    VolumeAppend([Ack(b.symbol, o.user, o.oid)] + m.trades, Announce(s).msgs);
    VolumeAppend([Ack(b.symbol, o.user, o.oid)], m.trades);
    VolumeNone([Ack(b.symbol, o.user, o.oid)]);
    VolumeNone(Announce(s).msgs);
    if Rests(b, o) {
      EnqueueTotal(o.side, b.At(o.side), Resting(o.user, o.oid, o.client, o.price, o.quantity, m.rem));
    }
  }

  lemma CancelSilent(b: Book, user: u32, oid: u32)
    ensures Volume(PriceTime.CancelOrder(b, user, oid).msgs) == 0
  {
    hide Best, DropKey, HasKey;
    VolumeNone(PriceTime.CancelOrder(b, user, oid).msgs);
  }

  lemma {:induction false} CancelAllSilent(b: Book, keys: seq<(u32, u32)>)
    ensures Volume(CancelAll(b, keys).msgs) == 0
    decreases |keys|
  {
    hide PriceTime.CancelOrder;
    if keys != [] {
      var first := PriceTime.CancelOrder(b, keys[0].0, keys[0].1);
      CancelSilent(b, keys[0].0, keys[0].1);
      CancelAllSilent(first.book, keys[1..]);
      VolumeAppend(first.msgs, CancelAll(first.book, keys[1..]).msgs);
    }
  }

  lemma {:induction false} QtyOfAll(flat: seq<Resting>, keys: set<nat>, all: bool)
    requires forall i :: 0 <= i < |flat| ==> (RestKey(flat[i]) in keys <==> all)
    ensures QtyIn(flat, keys) == if all then TotalQty(flat) else 0
  {
    if flat != [] {
      QtyOfAll(flat[1..], keys, all);
    }
  }

  lemma FlushConserves(b: Book, side: Side)
    ensures TotalQty(b.At(side)) == Withdrawn(b, FlushAll, side) && Volume(Flush(b).msgs) == 0
    ensures Flush(b).book.At(side) == []
  {
    VolumeNone(Flush(b).msgs);
    var flat := b.At(side);
    forall i | 0 <= i < |flat|
      ensures RestKey(flat[i]) in WithdrawnKeys(b, FlushAll)
    {
      assert flat[i] in b.bids + b.asks;
    }
    QtyOfAll(flat, WithdrawnKeys(b, FlushAll), true);
  }

  /** Each operation balances, on each side. */
  lemma StepConserves(b: Book, op: Op, side: Side)
    requires Inv(b) && Fresh(b, op)
    ensures var r := Step(b, op);
            TotalQty(b.At(side)) + Accepted(op, side)
            == TotalQty(r.book.At(side)) + Volume(r.msgs) + Withdrawn(b, op, side) + Discarded(b, op, side)
  {
    hide Inv, PriceTime.AddOrder, PriceTime.CancelOrder, CancelAll, Flush, QtyIn, TotalQty, Volume;
    match op {
      case Add(o) =>
        AddConserves(b, o, side);
        QtyOfAll(b.At(side), {}, false);
      case Cancel(user, oid) =>
        CancelIsFilter(b, user, oid, side);
        CancelSilent(b, user, oid);
        FilterTotal(b.At(side), {Key(user, oid)});
      case CancelFor(client) =>
        CancelAllIsFilter(b, Collected(b, client), side);
        CancelAllSilent(b, Collected(b, client));
        FilterTotal(b.At(side), KeySet(Collected(b, client)));
      case FlushAll =>
        FlushConserves(b, side);
        assert TotalQty([]) == 0 by { TotalNone(); }
    }
  }

  lemma TotalNone()
    ensures TotalQty([]) == 0
  {
  }

  /** Accepted, withdrawn and discarded quantity over a run. */
  function RunAccepted(ops: seq<Op>, side: Side): nat {
    if ops == [] then 0 else RunAccepted(ops[..|ops| - 1], side) + Accepted(ops[|ops| - 1], side)
  }

  ghost function RunLost(symbol: string, ops: seq<Op>, side: Side): nat {
    if ops == [] then 0
    else
      var b, op := Run(symbol, ops[..|ops| - 1]).book, ops[|ops| - 1];
      RunLost(symbol, ops[..|ops| - 1], side) + Withdrawn(b, op, side) + Discarded(b, op, side)
  }

  /** Over any run, on each side: accepted quantity is traded, still resting, withdrawn
      by a cancel or flush, or the discarded remainder of a market order. */
  lemma {:induction false} RunConserves(symbol: string, ops: seq<Op>, side: Side)
    requires FreshRun(symbol, ops)
    ensures var r := Run(symbol, ops);
            RunAccepted(ops, side) == Volume(r.msgs) + TotalQty(r.book.At(side)) + RunLost(symbol, ops, side)
    decreases |ops|
  {
    hide Inv, Step, Fresh, Withdrawn, Discarded, Accepted;
    if ops != [] {
      var before, op := Run(symbol, ops[..|ops| - 1]), ops[|ops| - 1];
      RunInv(symbol, ops[..|ops| - 1]);
      RunConserves(symbol, ops[..|ops| - 1], side);
      StepConserves(before.book, op, side);
      VolumeAppend(before.msgs, Step(before.book, op).msgs);
    }
  }
}
