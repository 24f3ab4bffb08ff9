/** The order in which a whole flush of the engine delivers: rounds mix the books, but within each
    book every order is acknowledged once, by price and then by time. */
module FlushOrder {
  import opened Orders
  import PriceTime
  import OrderBook
  import Flushing
  import opened FlushRounds

  /** The keys acknowledged as cancelled in the name of a symbol, in order. */
  function AckedFor(msgs: seq<Msg>, symbol: string): seq<(u32, u32)> {
    if msgs == [] then []
    else (if msgs[0].CancelAck? && msgs[0].symbol == symbol then [(msgs[0].user, msgs[0].oid)] else []) + AckedFor(msgs[1..], symbol)
  }

  lemma {:induction false} AckedAppend(a: seq<Msg>, b: seq<Msg>, symbol: string)
    ensures AckedFor(a + b, symbol) == AckedFor(a, symbol) + AckedFor(b, symbol)
    decreases |a|
  {
    if a == [] {
      assert a + b == b;
    } else {
      assert (a + b)[0] == a[0] && (a + b)[1..] == a[1..] + b;
      AckedAppend(a[1..], b, symbol);
    }
  }

  lemma {:induction false} AckedAcks(flat: seq<Resting>, symbol: string, other: string)
    ensures |AckedFor(PriceTime.Acks(symbol, flat), other)| == if other == symbol then |flat| else 0
    ensures other == symbol ==>
      forall i :: 0 <= i < |flat| ==> AckedFor(PriceTime.Acks(symbol, flat), other)[i] == (flat[i].user, flat[i].oid)
    decreases |flat|
  {
    if flat != [] {
      assert PriceTime.Acks(symbol, flat)[1..] == PriceTime.Acks(symbol, flat[1..]);
      AckedAcks(flat[1..], symbol, other);
    }
  }

  lemma AckedTops(v: PriceTime.Book, symbol: string)
    ensures AckedFor(PriceTime.Eliminated(v), symbol) == []
  {
    var a, b := if v.bidActive then [TopOfBook(TopSymbol(v.symbol), Buy, 0, 0)] else [],
                if v.askActive then [TopOfBook(TopSymbol(v.symbol), Sell, 0, 0)] else [];
    AckedAppend(a, b, symbol);
    assert a != [] ==> a[1..] == [];
    assert b != [] ==> b[1..] == [];
  }

  lemma AckedPending(v: PriceTime.Book, pos: nat, symbol: string)
    requires pos <= |Flushing.All(v)|
    ensures AckedFor(Pending(v, pos), symbol) == AckedFor(PriceTime.Acks(v.symbol, Flushing.All(v)[pos..]), symbol)
    ensures v.symbol != symbol ==> AckedFor(Pending(v, pos), symbol) == []
  {
    hide PriceTime.Acks, PriceTime.Eliminated;
    AckedAppend(PriceTime.Acks(v.symbol, Flushing.All(v)[pos..]), PriceTime.Eliminated(v), symbol);
    AckedTops(v, symbol);
    AckedAcks(Flushing.All(v)[pos..], v.symbol, symbol);
  }

  /** A batch sends the first part of what its book has yet to send. */
  lemma AckedBatch(v: PriceTime.Book, pos: nat, symbol: string)
    requires pos <= |Flushing.All(v)|
    ensures AckedFor(BatchMsgs(v, pos), symbol) + AckedFor(Pending(BatchBook(v, pos), BatchPos(v, pos)), symbol)
         == AckedFor(Pending(v, pos), symbol)
  {
    hide BatchMsgs, BatchBook, BatchPos, Pending;
    BatchPending(v, pos);
    AckedAppend(BatchMsgs(v, pos), Pending(BatchBook(v, pos), BatchPos(v, pos)), symbol);
  }

  /** No other book has this symbol. */
  ghost predicate Alone(views: seq<PriceTime.Book>, k: nat)
    requires k < |views|
  {
    forall i :: 0 <= i < |views| && i != k ==> views[i].symbol != views[k].symbol
  }

  /** In a round only the book itself sends acknowledgements in its symbol. */
  lemma {:induction false} AckedRound(views: seq<PriceTime.Book>, pos: seq<nat>, go: seq<bool>, n: nat, k: nat)
    requires Within(views, pos) && |go| == |pos| && n <= |views| && k < |views| && Alone(views, k)
    ensures AckedFor(MsgsUpto(views, pos, go, n), views[k].symbol)
         == if k < n && go[k] then AckedFor(BatchMsgs(views[k], pos[k]), views[k].symbol) else []
  {
    hide BatchMsgs, AckedFor, Flushing.All;
    AckedNone(views[k].symbol);
    if n > 0 {
      AckedRound(views, pos, go, n - 1, k);
      var msgs := if go[n - 1] then BatchMsgs(views[n - 1], pos[n - 1]) else [];
      AckedAppend(MsgsUpto(views, pos, go, n - 1), msgs, views[k].symbol);
      if n - 1 != k {
        AckedOther(views[n - 1], pos[n - 1], views[k].symbol);
      }
    }
  }

  lemma AckedOther(v: PriceTime.Book, pos: nat, symbol: string)
    requires pos <= |Flushing.All(v)| && v.symbol != symbol
    ensures AckedFor(BatchMsgs(v, pos), symbol) == []
  {
    hide BatchMsgs, AckedFor, Pending;
    AckedBatch(v, pos, symbol);
    AckedPending(v, pos, symbol);
  }

  lemma AckedNone(symbol: string)
    ensures AckedFor([], symbol) == []
  {
  }

  /** A round leaves the rest of each book's acknowledgements for later. */
  lemma AckedSplit(views: seq<PriceTime.Book>, pos: seq<nat>, go: seq<bool>, k: nat)
    requires Within(views, pos) && |go| == |pos| && k < |views| && Alone(views, k)
    ensures |ViewsUpto(views, pos, go, |views|)| == |PosUpto(views, pos, go, |views|)| == |views|
    ensures var views', pos' := ViewsUpto(views, pos, go, |views|), PosUpto(views, pos, go, |views|);
            && Alone(views', k) && views'[k].symbol == views[k].symbol
            && AckedFor(MsgsUpto(views, pos, go, |views|), views[k].symbol) + AckedFor(Pending(views'[k], pos'[k]), views[k].symbol)
               == AckedFor(Pending(views[k], pos[k]), views[k].symbol)
  {
    hide BatchMsgs, AckedFor, MsgsUpto, Pending;
    AckedRound(views, pos, go, |views|, k);
    AckedBatch(views[k], pos[k], views[k].symbol);
  }

  lemma {:induction false} AckedRest(views: seq<PriceTime.Book>, pos: seq<nat>, k: nat)
    requires Within(views, pos) && Finished(views, pos) && k < |views| && Alone(views, k)
    requires Busy(pos) ==> |PendingUpto(views, pos, |views|)| <= OrderBook.OUTPUT
    ensures AckedFor(RestOf(views, pos), views[k].symbol) == AckedFor(Pending(views[k], pos[k]), views[k].symbol)
    decreases LeftAll(views, pos)
  {
    hide AckedFor, MsgsUpto, PendingUpto, Finished, LeftAll, ViewsUpto, PosUpto, InProgress, Pending, Alone;
    if !Busy(pos) {
      assert pos[k] == 0 && views[k] == PriceTime.EmptyBook(views[k].symbol) by { NotBusy(views, pos, k); }
      EmptyPending(views[k].symbol);
    } else {
      var go := InProgress(pos);
      RoundFinishes(views, pos);
      UptoLengths(views, pos, go);
      WithinNext(views, pos, go);
      RoundConserves(views, pos, go, |views|);
      AckedSplit(views, pos, go, k);
      var msgs := MsgsUpto(views, pos, go, |views|);
      var views', pos' := ViewsUpto(views, pos, go, |views|), PosUpto(views, pos, go, |views|);
      assert |multiset(msgs)| == |msgs|;
      AckedAppend(msgs, RestOf(views', pos'), views[k].symbol);
      AckedRest(views', pos', k);
    }
  }

  lemma NotBusy(views: seq<PriceTime.Book>, pos: seq<nat>, k: nat)
    requires Finished(views, pos) && !Busy(pos) && k < |views|
    ensures pos[k] == 0 && views[k] == PriceTime.EmptyBook(views[k].symbol)
  {
  }

  /** A whole flush that loses nothing acknowledges the orders of each book once, bids before asks,
      best price first and oldest first within a price, whatever the rounds mix in between. */
  lemma FlushInOrder(views: seq<PriceTime.Book>, pos: seq<nat>, k: nat)
    requires Within(views, pos) && RestingIn(views, |views|) <= 8192 && |views| <= 64
    requires FirstSize(views, pos, |views|) <= 8192 && k < |views| && Alone(views, k)
    ensures var acked, all := AckedFor(Transcript([], views, pos), views[k].symbol), (views[k].bids + views[k].asks)[pos[k]..];
            |acked| == |all| && forall i :: 0 <= i < |all| ==> acked[i] == (all[i].user, all[i].oid)
  {
    hide AckedFor, MsgsUpto, PendingUpto, RestingIn, FirstSize, Finished, ViewsUpto, PosUpto, RestOf, Pending, Alone, PriceTime.Acks;
    var go, symbol := Everyone(|pos|), views[k].symbol;
    SmallRest(views, pos);
    StartFinishes(views, pos);
    UptoLengths(views, pos, go);
    WithinNext(views, pos, go);
    AckedSplit(views, pos, go, k);
    FirstSizeIs(views, pos, |views|);
    var views', pos', msgs := ViewsUpto(views, pos, go, |views|), PosUpto(views, pos, go, |views|), MsgsUpto(views, pos, go, |views|);
    assert [] + msgs == msgs;
    AckedAppend(msgs, RestOf(views', pos'), symbol);
    AckedRest(views', pos', k);
    AckedPending(views[k], pos[k], symbol);
    AckedAcks(Flushing.All(views[k])[pos[k]..], symbol, symbol);
  }
}
