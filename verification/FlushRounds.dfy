/** Flushing several books in rounds, on abstract books: which messages each round sends,
    and exactly when a whole flush delivers all of them. */
module FlushRounds {
  import opened Orders
  import opened Sequences
  import PriceTime
  import BookLaws
  import opened OrderBook
  import Flushing

  // ----- One batch of one book -----

  /** The next batch reaches the end of the book. */
  ghost predicate Last(v: PriceTime.Book, pos: nat) {
    |Flushing.All(v)| - pos < PriceTime.BATCH
  }

  ghost function BatchBook(v: PriceTime.Book, pos: nat): PriceTime.Book {
    if Last(v, pos) then PriceTime.EmptyBook(v.symbol) else v
  }

  ghost function BatchMsgs(v: PriceTime.Book, pos: nat): seq<Msg>
    requires pos <= |Flushing.All(v)|
  {
    if Last(v, pos) then PriceTime.Acks(v.symbol, Flushing.All(v)[pos..]) + PriceTime.Eliminated(v)
    else PriceTime.Acks(v.symbol, Flushing.All(v)[pos..pos + PriceTime.BATCH])
  }

  ghost function BatchPos(v: PriceTime.Book, pos: nat): nat {
    if Last(v, pos) then 0 else pos + PriceTime.BATCH
  }

  // ----- One round -----

  /** The books after the batches of those among the first `n` that `go` selects. */
  ghost function ViewsUpto(views: seq<PriceTime.Book>, pos: seq<nat>, go: seq<bool>, n: nat): seq<PriceTime.Book>
    requires |pos| == |views| == |go| && n <= |views|
  {
    seq(|views|, i requires 0 <= i < |views| => if i < n && go[i] then BatchBook(views[i], pos[i]) else views[i])
  }

  ghost function PosUpto(views: seq<PriceTime.Book>, pos: seq<nat>, go: seq<bool>, n: nat): seq<nat>
    requires |pos| == |views| == |go| && n <= |views|
  {
    seq(|views|, i requires 0 <= i < |views| => if i < n && go[i] then BatchPos(views[i], pos[i]) else pos[i])
  }

  ghost function MsgsUpto(views: seq<PriceTime.Book>, pos: seq<nat>, go: seq<bool>, n: nat): seq<Msg>
    requires |pos| == |views| == |go| && n <= |views|
  {
    if n == 0 then []
    else MsgsUpto(views, pos, go, n - 1)
         + (if go[n - 1] && pos[n - 1] <= |Flushing.All(views[n - 1])| then BatchMsgs(views[n - 1], pos[n - 1]) else [])
  }

  lemma UptoNext(views: seq<PriceTime.Book>, pos: seq<nat>, go: seq<bool>, n: nat, sent: seq<Msg>)
    requires |pos| == |views| == |go| && n < |views| && go[n] && pos[n] <= |Flushing.All(views[n])|
    ensures ViewsUpto(views, pos, go, n)[n] == views[n] && PosUpto(views, pos, go, n)[n] == pos[n]
    ensures ViewsUpto(views, pos, go, n + 1) == ViewsUpto(views, pos, go, n)[n := BatchBook(views[n], pos[n])]
    ensures PosUpto(views, pos, go, n + 1) == PosUpto(views, pos, go, n)[n := BatchPos(views[n], pos[n])]
    ensures Keep(Keep(sent + MsgsUpto(views, pos, go, n)) + BatchMsgs(views[n], pos[n])) == Keep(sent + MsgsUpto(views, pos, go, n + 1))
  {
    hide Keep, BatchMsgs;
    KeepAppend(sent, MsgsUpto(views, pos, go, n), BatchMsgs(views[n], pos[n]));
  }

  lemma UptoSkip(views: seq<PriceTime.Book>, pos: seq<nat>, go: seq<bool>, n: nat)
    requires |pos| == |views| == |go| && n < |views| && !go[n]
    ensures PosUpto(views, pos, go, n)[n] == pos[n]
    ensures ViewsUpto(views, pos, go, n + 1) == ViewsUpto(views, pos, go, n)
    ensures PosUpto(views, pos, go, n + 1) == PosUpto(views, pos, go, n)
    ensures MsgsUpto(views, pos, go, n + 1) == MsgsUpto(views, pos, go, n)
  {
  }

  lemma UptoAt(views: seq<PriceTime.Book>, pos: seq<nat>, go: seq<bool>, n: nat)
    requires |pos| == |views| == |go| && n < |views|
    ensures ViewsUpto(views, pos, go, n)[n] == views[n] && PosUpto(views, pos, go, n)[n] == pos[n]
    ensures |PosUpto(views, pos, go, n)| == |ViewsUpto(views, pos, go, n)| == |views|
  {
  }

  ghost function Everyone(n: nat): seq<bool> {
    seq(n, _ => true)
  }

  /** Which books have a flush in progress. */
  ghost function InProgress(pos: seq<nat>): seq<bool> {
    seq(|pos|, i requires 0 <= i < |pos| => pos[i] > 0)
  }

  lemma Selections(pos: seq<nat>)
    ensures |Everyone(|pos|)| == |pos| == |InProgress(pos)|
    ensures forall i :: 0 <= i < |pos| ==> Everyone(|pos|)[i] && (InProgress(pos)[i] <==> pos[i] > 0)
  {
  }

  // ----- To the end -----

  /** What is left to acknowledge, and the finishing calls. */
  ghost function Left(v: PriceTime.Book, pos: nat): nat {
    if pos == 0 || pos > |Flushing.All(v)| then 0 else |Flushing.All(v)| - pos + 1
  }

  ghost function LeftAll(views: seq<PriceTime.Book>, pos: seq<nat>): nat
    requires |views| == |pos|
  {
    if views == [] then 0 else Left(views[0], pos[0]) + LeftAll(views[1..], pos[1..])
  }

  lemma {:induction false} LeftShrinks(views: seq<PriceTime.Book>, pos: seq<nat>, views': seq<PriceTime.Book>, pos': seq<nat>)
    requires |views| == |pos| == |views'| == |pos'|
    requires forall i :: 0 <= i < |views| ==> Left(views'[i], pos'[i]) <= Left(views[i], pos[i])
    ensures LeftAll(views', pos') <= LeftAll(views, pos)
    ensures (exists i :: 0 <= i < |views| && Left(views'[i], pos'[i]) < Left(views[i], pos[i])) ==>
              LeftAll(views', pos') < LeftAll(views, pos)
  {
    if views != [] {
      LeftShrinks(views[1..], pos[1..], views'[1..], pos'[1..]);
      if i :| 0 <= i < |views| && Left(views'[i], pos'[i]) < Left(views[i], pos[i]) {
        if i > 0 {
          assert Left(views'[1..][i - 1], pos'[1..][i - 1]) < Left(views[1..][i - 1], pos[1..][i - 1]);
        }
      }
    }
  }

  /** Books without a flush in progress are empty. */
  ghost predicate Finished(views: seq<PriceTime.Book>, pos: seq<nat>) {
    |views| == |pos| && forall i :: 0 <= i < |pos| && pos[i] == 0 ==> views[i] == PriceTime.EmptyBook(views[i].symbol)
  }

  lemma StartFinishes(views: seq<PriceTime.Book>, pos: seq<nat>)
    requires |views| == |pos|
    ensures |Everyone(|pos|)| == |pos|
    ensures Finished(ViewsUpto(views, pos, Everyone(|pos|), |views|), PosUpto(views, pos, Everyone(|pos|), |views|))
  {
  }

  /** Some book has a flush in progress. */
  ghost predicate Busy(pos: seq<nat>) {
    exists i :: 0 <= i < |pos| && pos[i] > 0
  }

  lemma RoundFinishes(views: seq<PriceTime.Book>, pos: seq<nat>)
    requires Finished(views, pos) && forall i :: 0 <= i < |pos| ==> pos[i] <= |Flushing.All(views[i])|
    ensures |InProgress(pos)| == |pos|
    ensures var views', pos' := ViewsUpto(views, pos, InProgress(pos), |views|), PosUpto(views, pos, InProgress(pos), |views|);
            && Finished(views', pos')
            && (Busy(pos) ==> LeftAll(views', pos') < LeftAll(views, pos))
  {
    var views', pos' := ViewsUpto(views, pos, InProgress(pos), |views|), PosUpto(views, pos, InProgress(pos), |views|);
    LeftShrinks(views, pos, views', pos');
    if i :| 0 <= i < |pos| && pos[i] > 0 {
      assert Left(views'[i], pos'[i]) < Left(views[i], pos[i]);
    }
  }

  // ----- Every message is delivered -----

  /** What a book that is `pos` orders into its flush has yet to send. */
  ghost function Pending(v: PriceTime.Book, pos: nat): seq<Msg> {
    if pos > |Flushing.All(v)| then []
    else PriceTime.Acks(v.symbol, Flushing.All(v)[pos..]) + PriceTime.Eliminated(v)
  }

  /** What the first `n` books have yet to send, in any order. */
  ghost function PendingUpto(views: seq<PriceTime.Book>, pos: seq<nat>, n: nat): multiset<Msg>
    requires n <= |views| == |pos|
  {
    if n == 0 then multiset{} else PendingUpto(views, pos, n - 1) + multiset(Pending(views[n - 1], pos[n - 1]))
  }

  lemma BatchPending(v: PriceTime.Book, pos: nat)
    requires pos <= |Flushing.All(v)|
    ensures BatchMsgs(v, pos) + Pending(BatchBook(v, pos), BatchPos(v, pos)) == Pending(v, pos)
  {
    var all, next := Flushing.All(v), pos + PriceTime.BATCH;
    if !Last(v, pos) {
      assert all[pos..next] + all[next..] == all[pos..];
      Flushing.AcksAppend(v.symbol, all[pos..next], all[next..]);
      Associative(PriceTime.Acks(v.symbol, all[pos..next]), PriceTime.Acks(v.symbol, all[next..]), PriceTime.Eliminated(v));
    }
  }

  /** A round sends part of what was pending and leaves the rest pending. */
  lemma {:induction false} RoundConserves(views: seq<PriceTime.Book>, pos: seq<nat>, go: seq<bool>, n: nat)
    requires |pos| == |views| == |go| && n <= |views| && forall i :: 0 <= i < |pos| ==> pos[i] <= |Flushing.All(views[i])|
    ensures multiset(MsgsUpto(views, pos, go, n))
            + PendingUpto(ViewsUpto(views, pos, go, |views|), PosUpto(views, pos, go, |views|), n)
         == PendingUpto(views, pos, n)
  {
    hide BatchMsgs, BatchBook, BatchPos, Pending;
    if n > 0 {
      RoundConserves(views, pos, go, n - 1);
      var v, p := views[n - 1], pos[n - 1];
      var views', pos' := ViewsUpto(views, pos, go, |views|), PosUpto(views, pos, go, |views|);
      BatchPending(v, p);
      var msgs := if go[n - 1] then BatchMsgs(v, p) else [];
      assert msgs + Pending(views'[n - 1], pos'[n - 1]) == Pending(v, p);
      Shift(MsgsUpto(views, pos, go, n - 1), msgs, PendingUpto(views', pos', n - 1), Pending(views'[n - 1], pos'[n - 1]),
            PendingUpto(views, pos, n - 1));
    }
  }

  lemma Shift(sent: seq<Msg>, msgs: seq<Msg>, after: multiset<Msg>, rest: seq<Msg>, before: multiset<Msg>)
    requires multiset(sent) + after == before
    ensures multiset(sent + msgs) + (after + multiset(rest)) == before + multiset(msgs + rest)
  {
  }

  lemma {:induction false} NothingPending(views: seq<PriceTime.Book>, pos: seq<nat>, n: nat)
    requires Finished(views, pos) && !Busy(pos) && n <= |views|
    ensures PendingUpto(views, pos, n) == multiset{}
  {
    hide Pending, PriceTime.EmptyBook;
    if n > 0 {
      NothingPending(views, pos, n - 1);
      assert pos[n - 1] == 0;
      EmptyPending(views[n - 1].symbol);
    }
  }

  lemma EmptyPending(symbol: string)
    ensures Pending(PriceTime.EmptyBook(symbol), 0) == []
  {
  }

  // ----- The whole transcript -----

  /** No book is further into its flush than it has orders. */
  ghost predicate Within(views: seq<PriceTime.Book>, pos: seq<nat>) {
    |views| == |pos| && forall i :: 0 <= i < |pos| ==> pos[i] <= |Flushing.All(views[i])|
  }

  lemma WithinNext(views: seq<PriceTime.Book>, pos: seq<nat>, go: seq<bool>)
    requires Within(views, pos) && |go| == |pos|
    ensures Within(ViewsUpto(views, pos, go, |views|), PosUpto(views, pos, go, |views|))
  {
  }

  /** What is drained in the rounds that are left, each through a buffer of 8192 messages. */
  ghost function RestOf(views: seq<PriceTime.Book>, pos: seq<nat>): seq<Msg>
    requires Within(views, pos) && Finished(views, pos)
    decreases LeftAll(views, pos)
  {
    if !Busy(pos) then []
    else
      RoundFinishes(views, pos);
      WithinNext(views, pos, InProgress(pos));
      Keep(MsgsUpto(views, pos, InProgress(pos), |views|))
      + RestOf(ViewsUpto(views, pos, InProgress(pos), |views|), PosUpto(views, pos, InProgress(pos), |views|))
  }

  /** What is drained by a whole flush that finds `sent` in the output buffer. */
  ghost function Transcript(sent: seq<Msg>, views: seq<PriceTime.Book>, pos: seq<nat>): seq<Msg>
    requires Within(views, pos)
  {
    StartFinishes(views, pos);
    WithinNext(views, pos, Everyone(|pos|));
    Keep(sent + MsgsUpto(views, pos, Everyone(|pos|), |views|))
    + RestOf(ViewsUpto(views, pos, Everyone(|pos|), |views|), PosUpto(views, pos, Everyone(|pos|), |views|))
  }

  /** If everything pending fits one buffer, all of it is delivered. */
  lemma {:induction false} RestDelivers(views: seq<PriceTime.Book>, pos: seq<nat>)
    requires Within(views, pos) && Finished(views, pos) && |PendingUpto(views, pos, |views|)| <= OUTPUT
    ensures multiset(RestOf(views, pos)) == PendingUpto(views, pos, |views|)
    decreases LeftAll(views, pos)
  {
    hide MsgsUpto, PendingUpto, Finished, LeftAll, ViewsUpto, PosUpto, InProgress;
    if !Busy(pos) {
      NothingPending(views, pos, |views|);
    } else {
      RoundFinishes(views, pos);
      UptoLengths(views, pos, InProgress(pos));
      WithinNext(views, pos, InProgress(pos));
      RoundConserves(views, pos, InProgress(pos), |views|);
      var msgs := MsgsUpto(views, pos, InProgress(pos), |views|);
      assert |multiset(msgs)| == |msgs|;
      RestDelivers(ViewsUpto(views, pos, InProgress(pos), |views|), PosUpto(views, pos, InProgress(pos), |views|));
    }
  }

  lemma UptoLengths(views: seq<PriceTime.Book>, pos: seq<nat>, go: seq<bool>)
    requires |views| == |pos| == |go|
    ensures |ViewsUpto(views, pos, go, |views|)| == |PosUpto(views, pos, go, |views|)| == |views|
  {
  }

  // ----- Only the first round can overflow -----

  /** How many orders rest in the first `n` books. */
  ghost function RestingIn(views: seq<PriceTime.Book>, n: nat): nat
    requires n <= |views|
  {
    if n == 0 then 0 else RestingIn(views, n - 1) + |Flushing.All(views[n - 1])|
  }

  lemma PendingSize(v: PriceTime.Book, pos: nat)
    ensures |Pending(v, pos)| <= |Flushing.All(v)| + 2
  {
  }

  lemma {:induction false} PendingBound(views: seq<PriceTime.Book>, pos: seq<nat>, n: nat)
    requires n <= |views| == |pos|
    ensures |PendingUpto(views, pos, n)| <= RestingIn(views, n) + 2 * n
  {
    hide Pending;
    if n > 0 {
      PendingBound(views, pos, n - 1);
      PendingSize(views[n - 1], pos[n - 1]);
      assert |multiset(Pending(views[n - 1], pos[n - 1]))| == |Pending(views[n - 1], pos[n - 1])|;
    }
  }

  /** A book that is not finished by a round has sent a full batch in it. */
  lemma {:induction false} FullBatch(views: seq<PriceTime.Book>, pos: seq<nat>, go: seq<bool>, n: nat, i: nat)
    requires Within(views, pos) && |go| == |pos| && i < n <= |views| && go[i] && PosUpto(views, pos, go, |views|)[i] > 0
    ensures |MsgsUpto(views, pos, go, n)| >= PriceTime.BATCH
  {
    hide BatchMsgs;
    if i < n - 1 {
      FullBatch(views, pos, go, n - 1, i);
    } else {
      BatchSize(views[i], pos[i]);
    }
  }

  lemma BatchSize(v: PriceTime.Book, pos: nat)
    requires pos <= |Flushing.All(v)| && BatchPos(v, pos) > 0
    ensures |BatchMsgs(v, pos)| == PriceTime.BATCH
  {
  }

  /** After the first round of a flush, whatever is still pending fits the buffer. */
  lemma SmallRest(views: seq<PriceTime.Book>, pos: seq<nat>)
    requires Within(views, pos) && RestingIn(views, |views|) <= 8192 && |views| <= 64
    ensures |Everyone(|pos|)| == |pos|
    ensures var views', pos' := ViewsUpto(views, pos, Everyone(|pos|), |views|), PosUpto(views, pos, Everyone(|pos|), |views|);
            && |views'| == |pos'| == |views|
            && (Busy(pos') ==> |PendingUpto(views', pos', |views|)| <= OUTPUT)
  {
    hide MsgsUpto, PendingUpto, RestingIn;
    var go := Everyone(|pos|);
    RoundConserves(views, pos, go, |views|);
    PendingBound(views, pos, |views|);
    var msgs, pos' := MsgsUpto(views, pos, go, |views|), PosUpto(views, pos, go, |views|);
    assert |multiset(msgs)| == |msgs|;
    if i :| 0 <= i < |pos'| && pos'[i] > 0 {
      FullBatch(views, pos, go, |views|, i);
    }
  }

  lemma RestDelivered(views: seq<PriceTime.Book>, pos: seq<nat>)
    requires Within(views, pos) && Finished(views, pos)
    requires Busy(pos) ==> |PendingUpto(views, pos, |views|)| <= OUTPUT
    ensures multiset(RestOf(views, pos)) == PendingUpto(views, pos, |views|)
  {
    hide PendingUpto, Finished, Within;
    if Busy(pos) {
      RestDelivers(views, pos);
    } else {
      NothingPending(views, pos, |views|);
    }
  }

  /** How many messages a book sends in the first round: a full batch, or what is left of its
      orders and one for each side that was ever active. */
  ghost function FirstOf(v: PriceTime.Book, pos: nat): int {
    if |Flushing.All(v)| - pos < PriceTime.BATCH then
      |Flushing.All(v)| - pos + (if v.bidActive then 1 else 0) + (if v.askActive then 1 else 0)
    else PriceTime.BATCH
  }

  ghost function FirstSize(views: seq<PriceTime.Book>, pos: seq<nat>, n: nat): int
    requires n <= |views| == |pos|
  {
    if n == 0 then 0 else FirstSize(views, pos, n - 1) + FirstOf(views[n - 1], pos[n - 1])
  }

  lemma FirstIs(v: PriceTime.Book, pos: nat)
    requires pos <= |Flushing.All(v)|
    ensures |BatchMsgs(v, pos)| == FirstOf(v, pos)
  {
  }

  lemma {:induction false} FirstSizeIs(views: seq<PriceTime.Book>, pos: seq<nat>, n: nat)
    requires Within(views, pos) && n <= |views|
    ensures |Everyone(|pos|)| == |pos| && |MsgsUpto(views, pos, Everyone(|pos|), n)| == FirstSize(views, pos, n)
  {
    hide BatchMsgs, FirstOf;
    if n > 0 {
      FirstSizeIs(views, pos, n - 1);
      FirstIs(views[n - 1], pos[n - 1]);
    }
  }

  /** A whole flush from an empty buffer delivers one acknowledgement for every order and one
      elimination for every side that was ever active, and nothing else, if and only if the
      messages of its first round, counted book by book, fit the output buffer. */
  lemma DeliveredIff(views: seq<PriceTime.Book>, pos: seq<nat>)
    requires Within(views, pos) && RestingIn(views, |views|) <= 8192 && |views| <= 64
    ensures |Everyone(|pos|)| == |pos|
    ensures multiset(Transcript([], views, pos)) == PendingUpto(views, pos, |views|)
       <==> FirstSize(views, pos, |views|) <= 8192
  {
    hide FirstSize, MsgsUpto, PendingUpto, RestingIn, Finished, ViewsUpto, PosUpto, RestOf, Everyone;
    FirstSizeIs(views, pos, |views|);
    SmallRest(views, pos);
    StartFinishes(views, pos);
    var go := Everyone(|pos|);
    UptoLengths(views, pos, go);
    WithinNext(views, pos, go);
    var views', pos', msgs := ViewsUpto(views, pos, go, |views|), PosUpto(views, pos, go, |views|), MsgsUpto(views, pos, go, |views|);
    RestDelivered(views', pos');
    RoundConserves(views, pos, go, |views|);
    KeptSize(msgs, RestOf(views', pos'));
    assert [] + msgs == msgs;
  }

  lemma KeptSize(msgs: seq<Msg>, rest: seq<Msg>)
    ensures multiset(Keep(msgs) + rest) == multiset(msgs) + multiset(rest) <==> |msgs| <= 8192
  {
    assert |multiset(Keep(msgs) + rest)| == |Keep(msgs)| + |rest|;
    assert |multiset(msgs) + multiset(rest)| == |msgs| + |rest|;
  }

  // ----- A flush that loses a message -----

  /** `n` bids of one lot each at price 1; the other side was active once. */
  function Row(symbol: string, user: u32, n: nat): PriceTime.Book
    requires n < 0x1_0000_0000
  {
    var bids := seq(n, i requires 0 <= i < n => Resting(user, i, 0, 1, 1, 1));
    PriceTime.Book(symbol, bids, [], PriceTime.Best(bids), PriceTime.Best([]), true, true)
  }

  lemma RowInv(symbol: string, user: u32, n: nat)
    requires n < 0x1_0000_0000
    ensures BookLaws.Inv(Row(symbol, user, n)) && |Flushing.All(Row(symbol, user, n))| == n
    ensures Row(symbol, user, n).bidActive && Row(symbol, user, n).askActive
  {
    hide PriceTime.Best;
    var bids := Row(symbol, user, n).bids;
    forall i, j | 0 <= i < j < |bids|
      ensures RestKey(bids[i]) != RestKey(bids[j])
    {
      KeyInjective(user, i, user, j);
    }
  }

  /** 4095 orders in one book and 4097 in another fill the pool.  The first round sends 4097
      messages for the first and 4096 for the second, one more than the buffer holds. */
  lemma FlushLoses()
    ensures var views := [Row("A", 1, 4095), Row("B", 2, 4097)];
            && BookLaws.Inv(views[0]) && BookLaws.Inv(views[1])
            && Within(views, [0, 0]) && RestingIn(views, 2) == 8192
            && FirstSize(views, [0, 0], 2) == 8193
            && multiset(Transcript([], views, [0, 0])) != PendingUpto(views, [0, 0], 2)
  {
    hide Row, Transcript, Pending, BookLaws.Inv;
    var views := [Row("A", 1, 4095), Row("B", 2, 4097)];
    RowInv("A", 1, 4095);
    RowInv("B", 2, 4097);
    RowSizes(views[0], views[1]);
    DeliveredIff(views, [0, 0]);
  }

  lemma RowSizes(v: PriceTime.Book, w: PriceTime.Book)
    requires |Flushing.All(v)| == 4095 && v.bidActive && v.askActive && |Flushing.All(w)| == 4097
    ensures FirstSize([v, w], [0, 0], 2) == 8193 && RestingIn([v, w], 2) == 8192
  {
    hide Flushing.All;
    assert FirstSize([v, w], [0, 0], 1) == FirstSize([v, w], [0, 0], 0) + FirstOf(v, 0);
    assert RestingIn([v, w], 1) == RestingIn([v, w], 0) + 4095;
  }
}
