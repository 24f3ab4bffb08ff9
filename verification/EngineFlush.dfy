/** Flushing all books of the engine, one batch per book and call. */
module EngineFlush {
  import opened Orders
  import opened Sequences
  import PriceTime
  import opened OrderPool
  import opened PriceLevels
  import opened ProbeTable
  import opened SymbolTable
  import opened BookState
  import opened OrderBook
  import BookOps
  import Flushing
  import opened FlushRounds
  import opened Engine
  import opened EngineOps

  /** The book is `pos` orders into a flush, or none is in progress, and no list is as long as the pool. */
  ghost predicate Flushable(b: Book, pos: nat)
    reads b, b.bids, b.asks
  {
    && Flushing.FlushAt(b, pos) && (b.flushing <==> pos > 0)
    && Flushing.ShortLists(b.bids.ids) && Flushing.ShortLists(b.asks.ids)
  }

  lemma FlushableBound(b: Book, pos: nat)
    requires b.Valid() && Flushable(b, pos)
    ensures pos <= |Flushing.All(b.V())|
  {
    hide Coherent, Book.Wf, NoneEmpty, Flushing.Cursor;
    BookOps.ValidParts(b);
    Flushing.FlatIs(b, Buy);
    Flushing.FlatIs(b, Sell);
    if b.flushing {
      if b.bidsDone {
        Flushing.CursorBound(b.asks.ids, b.askLevel, b.current, pos - |Concat(b.bids.ids)|);
      } else {
        Flushing.CursorBound(b.bids.ids, b.bidLevel, b.current, pos);
      }
    }
  }

  /** The flush cursors of every book but the `k`-th. */
  ghost predicate OtherCursors(books: seq<Book>, own: set<object>, pool: Pool, fixed: set<object>, pos: seq<nat>, k: int)
    requires LayoutOf(books, own, pool, fixed)
    reads own - OwnAt(books, k)
  {
    && |pos| == |books|
    && forall j :: 0 <= j < |books| && j != k ==> Own(books[j]) <= own - OwnAt(books, k) && Flushable(books[j], pos[j])
  }

  ghost predicate RestCursors(e: MatchingEngine, pos: seq<nat>, k: nat)
    reads e, e.own - OwnAt(e.books, k)
  {
    LayoutOf(e.books, e.own, e.pool, e.Fixed()) && OtherCursors(e.books, e.own, e.pool, e.Fixed(), pos, k)
  }

  /** Every book is ready for its next batch. */
  ghost predicate Cursors(e: MatchingEngine, pos: seq<nat>)
    reads e, e.own
  {
    && e.Layout() && |pos| == |e.books|
    && forall j :: 0 <= j < |e.books| ==> Own(e.books[j]) <= e.own && Flushable(e.books[j], pos[j])
  }

  /** No flush is in progress, and no list of any book is as long as the pool. */
  ghost predicate Begins(e: MatchingEngine)
    reads e, e.own
  {
    && e.Layout()
    && forall i :: 0 <= i < |e.books| ==>
         && Own(e.books[i]) <= e.own && !e.books[i].flushing
         && Flushing.ShortLists(e.books[i].bids.ids) && Flushing.ShortLists(e.books[i].asks.ids)
  }

  /** With no flush in progress, every book is ready for its first batch. */
  lemma IdleCursors(e: MatchingEngine, pos: seq<nat>)
    requires Begins(e) && |pos| == |e.books| && forall i :: 0 <= i < |pos| ==> pos[i] == 0
    ensures Cursors(e, pos)
  {
    hide Flushing.ShortLists, LayoutOf;
  }

  lemma CursorsSplit(e: MatchingEngine, pos: seq<nat>, k: nat)
    requires e.Layout() && k < |e.books| == |pos|
    ensures Cursors(e, pos) <==> RestCursors(e, pos, k) && Flushable(e.books[k], pos[k])
  {
    hide Flushable, Own;
    OwnAtIs(e.books, k);
  }

  lemma CursorsCount(e: MatchingEngine, pos: seq<nat>)
    requires Cursors(e, pos)
    ensures |pos| == |e.books|
    ensures forall j :: 0 <= j < |e.books| ==> (e.books[j].flushing <==> pos[j] > 0)
  {
  }

  /** Other cursors do not depend on this book's. */
  lemma RestCursorsUpdate(e: MatchingEngine, pos: seq<nat>, k: nat, p: nat)
    requires RestCursors(e, pos, k) && k < |pos|
    ensures RestCursors(e, pos[k := p], k)
  {
    hide Flushable, Own;
  }

  method RunFlush(e: MatchingEngine, out: OutputBuffer, b: Book, k: nat, ghost p: nat, ghost f: Moment, ghost pos: seq<nat>)
    returns (done: bool)
    requires Rest(e, out, f, k) && RestCursors(e, pos, k) && e.books[k] == b && b.Valid() && out.Valid()
    requires Flushable(b, p) && p <= |Flushing.All(b.V())|
    modifies Own(b), b.pool, b.pool.freeList, out, out.messages
    ensures Rest(e, out, f, k) && RestCursors(e, pos, k) && e.books == old(e.books) && e.own == old(e.own)
    ensures e.symbols.m == old(e.symbols.m) && e.tracking.m == old(e.tracking.m)
    ensures b.Valid() && out.Valid() && (done <==> Last(old(b.V()), p)) && (b.flushing <==> !done)
    ensures b.V() == BatchBook(old(b.V()), p) && Flushable(b, BatchPos(old(b.V()), p))
    ensures out.sent == Keep(old(out.sent) + BatchMsgs(old(b.V()), p))
    ensures BookOps.Slots(b.S()) == old(BookOps.Slots(b.S())) && b.pool.os == old(b.pool.os)
  {
    hide Rest, RestCursors, Book.Valid, Book.V, Book.S, OutputBuffer.Valid, Keep, BookOps.Slots, OwnAt, Flushing.All, Flushing.FlushAt,
      Flushing.ShortLists, Flushing.Cleared, PriceTime.Eliminated, PriceTime.Acks;
    RestFrame(e, out, f, k);
    ghost var s, v := b.S(), b.V();
    done := Flushing.Flush(b, out, p);
    if done {
      Flushing.ClearedShort(s, b);
      Flushing.FreshCursor(b);
    } else {
      SameIds(b, s);
    }
  }

  lemma SameIds(b: Book, s: Snap)
    requires b.S() == s
    ensures b.bids.ids == s.bids.ids && b.asks.ids == s.asks.ids
  {
  }

  /** One batch of book `k`; `views` are the abstract books before. */
  method FlushIn(e: MatchingEngine, out: OutputBuffer, k: nat, ghost pos: seq<nat>, ghost views: seq<PriceTime.Book>)
    returns (done: bool)
    requires e.Valid() && out.Valid() && Separate(e, out) && Cursors(e, pos) && k < |e.books| && views == e.Now().views
    requires k < |views| && k < |pos|
    modifies e.own, e.pool, e.pool.freeList, out, out.messages
    ensures e.Valid() && out.Valid() && Separate(e, out) && e.books == old(e.books) && e.own == old(e.own)
    ensures e.tracking.m == old(e.tracking.m) && Cursors(e, pos[k := BatchPos(views[k], pos[k])])
    ensures pos[k] <= |Flushing.All(views[k])| && (done <==> Last(views[k], pos[k])) && (e.books[k].flushing <==> !done)
    ensures e.Now().views == views[k := BatchBook(views[k], pos[k])]
    ensures out.sent == Keep(old(out.sent) + BatchMsgs(views[k], pos[k]))
  {
    hide *;
    LayoutHolds(e);
    CursorsCount(e, pos);
    CursorsSplit(e, pos, k);
    RestBefore(e, out, k);
    ghost var f, v := e.Now(), e.E();
    var b := e.books[k];
    FlushableBound(b, pos[k]);
    done := RunFlush(e, out, b, k, pos[k], f, pos);
    BookOps.ElsewhereSame(f.os, BookOps.Slots(f.snaps[k]));
    RestAfter(e, out, f, k, v);
    LayoutHolds(e);
    RestCursorsUpdate(e, pos, k, BatchPos(views[k], pos[k]));
    CursorsSplit(e, pos[k := BatchPos(views[k], pos[k])], k);
    assert e.Now().views == views[k := BatchBook(views[k], pos[k])];
  }

  // ----- All books -----

  lemma UptoNone(views: seq<PriceTime.Book>, pos: seq<nat>, go: seq<bool>, out: OutputBuffer)
    requires |pos| == |views| == |go| && out.Valid()
    ensures ViewsUpto(views, pos, go, 0) == views && PosUpto(views, pos, go, 0) == pos
    ensures out.sent == Keep(out.sent + MsgsUpto(views, pos, go, 0))
  {
    assert out.sent + [] == out.sent;
  }

  lemma BookBound(e: MatchingEngine, pos: seq<nat>, k: nat)
    requires e.Valid() && Cursors(e, pos) && k < |e.books|
    ensures e.Layout() && pos[k] <= |Flushing.All(e.Now().views[k])| && (e.books[k].flushing <==> pos[k] > 0)
  {
    hide MatchingEngine.Valid, MatchingEngine.Now, Flushing.All, Book.Valid, Book.V;
    EngineParts(e);
    FlushableBound(e.books[k], pos[k]);
  }

  /** The loop over all books: one batch each for those that are flushing, or for all. */
  method FlushRound(e: MatchingEngine, out: OutputBuffer, all: bool, ghost pos: seq<nat>, ghost views: seq<PriceTime.Book>, ghost go: seq<bool>)
    returns (done: bool)
    requires e.Valid() && out.Valid() && Separate(e, out) && Cursors(e, pos) && views == e.Now().views
    requires |pos| == |views| == |go| == |e.books| && forall i :: 0 <= i < |go| ==> (go[i] <==> all || pos[i] > 0)
    modifies e.own, e.pool, e.pool.freeList, out, out.messages
    ensures e.Valid() && out.Valid() && Separate(e, out) && e.books == old(e.books) && e.own == old(e.own)
    ensures e.tracking.m == old(e.tracking.m)
    ensures e.Now().views == ViewsUpto(views, pos, go, |views|) && Cursors(e, PosUpto(views, pos, go, |views|))
    ensures out.sent == Keep(old(out.sent) + MsgsUpto(views, pos, go, |views|))
    ensures done <==> forall i :: 0 <= i < |go| && go[i] ==> Last(views[i], pos[i])
  {
    hide *;
    LayoutHolds(e);
    UptoNone(views, pos, go, out);
    ghost var sent, books := out.sent, e.books;
    done := true;
    for i := 0 to |e.books|
      invariant e.Valid() && e.Layout() && out.Valid() && Separate(e, out) && e.books == books && e.own == old(e.own)
      invariant e.tracking.m == old(e.tracking.m)
      invariant e.Now().views == ViewsUpto(views, pos, go, i) && Cursors(e, PosUpto(views, pos, go, i))
      invariant out.sent == Keep(sent + MsgsUpto(views, pos, go, i))
      invariant done <==> forall j :: 0 <= j < i && go[j] ==> Last(views[j], pos[j])
    {
      ghost var now := PosUpto(views, pos, go, i);
      BookBound(e, now, i);
      UptoAt(views, pos, go, i);
      if all || e.books[i].flushing {
        UptoNext(views, pos, go, i, sent);
        var bookDone := FlushIn(e, out, i, now, e.Now().views);
        LayoutHolds(e);
        if !bookDone {
          done := false;
        }
      } else {
        UptoSkip(views, pos, go, i);
      }
    }
  }

  /** Forget all keys. */
  method ForgetKeys(e: MatchingEngine)
    requires e.Valid()
    modifies e.tracking, e.tracking.slots
    ensures e.Valid() && e.Layout() && e.tracking.m == map[] && e.Now() == old(e.Now()) && e.E() == old(e.E())
    ensures forall pos :: Cursors(e, pos) == old(Cursors(e, pos))
  {
    hide *;
    UntrackedIs(e);
    TrackingFrame(e);
    ghost var f, m, v := e.Now(), e.symbols.m, e.E();
    e.tracking.Clear();
    assert Untracked(e) && e.Now() == f;
    UntrackedIs(e);
    ViewIs(e, m, f, v);
  }

  /** Start flushing: the first batch of every book, and all order keys forgotten. */
  method ProcessFlush(e: MatchingEngine, out: OutputBuffer, ghost pos: seq<nat>)
    requires e.Valid() && e.Layout() && out.Valid() && Separate(e, out) && Cursors(e, pos) && |pos| == |e.Now().views|
    modifies e.own, e.pool, e.pool.freeList, e.tracking, e.tracking.slots, out, out.messages
    ensures e.Valid() && e.Layout() && out.Valid() && Separate(e, out) && e.books == old(e.books) && e.own == old(e.own)
    ensures var views, go := old(e.Now().views), Everyone(|pos|);
            && e.tracking.m == map[] && |go| == |pos|
            && e.Now().views == ViewsUpto(views, pos, go, |views|) && Cursors(e, PosUpto(views, pos, go, |views|))
            && out.sent == Keep(old(out.sent) + MsgsUpto(views, pos, go, |views|))
  {
    hide *;
    Selections(pos);
    CursorsCount(e, pos);
    var _ := FlushRound(e, out, true, pos, e.Now().views, Everyone(|pos|));
    OutFrame(e, out);
    ForgetKeys(e);
  }

  /** Continue a flush: the next batch of every book that is not finished; true when all are. */
  method ContinueFlush(e: MatchingEngine, out: OutputBuffer, ghost pos: seq<nat>) returns (done: bool)
    requires e.Valid() && e.Layout() && out.Valid() && Separate(e, out) && Cursors(e, pos) && |pos| == |e.Now().views|
    modifies e.own, e.pool, e.pool.freeList, out, out.messages
    ensures e.Valid() && e.Layout() && out.Valid() && Separate(e, out) && e.books == old(e.books) && e.own == old(e.own)
    ensures var views, go := old(e.Now().views), InProgress(pos);
            && e.tracking.m == old(e.tracking.m) && |go| == |pos|
            && e.Now().views == ViewsUpto(views, pos, go, |views|) && Cursors(e, PosUpto(views, pos, go, |views|))
            && out.sent == Keep(old(out.sent) + MsgsUpto(views, pos, go, |views|))
    ensures done <==> forall i :: 0 <= i < |pos| && pos[i] > 0 ==> Last(old(e.Now().views)[i], pos[i])
  {
    hide *;
    Selections(pos);
    CursorsCount(e, pos);
    done := FlushRound(e, out, false, pos, e.Now().views, InProgress(pos));
    LayoutHolds(e);
  }

  // ----- To the end -----

  /** Whether some book has a flush in progress. */
  method HasFlush(e: MatchingEngine, ghost pos: seq<nat>) returns (has: bool)
    requires Cursors(e, pos)
    ensures |pos| == |e.books| && (has <==> Busy(pos))
  {
    hide Flushable, MatchingEngine.Layout;
    CursorsCount(e, pos);
    for i := 0 to |e.books|
      invariant forall j :: 0 <= j < i ==> pos[j] == 0
    {
      if e.books[i].flushing {
        return true;
      }
    }
    return false;
  }

  lemma AllBounds(e: MatchingEngine, pos: seq<nat>)
    requires e.Valid() && Cursors(e, pos)
    ensures e.Layout() && |pos| == |e.books| && forall i :: 0 <= i < |pos| ==> pos[i] <= |Flushing.All(e.Now().views[i])|
  {
    hide *;
    LayoutHolds(e);
    CursorsCount(e, pos);
    forall i | 0 <= i < |pos|
      ensures pos[i] <= |Flushing.All(e.Now().views[i])|
    {
      BookBound(e, pos, i);
    }
  }

  lemma EmptyHoldsNothing(b: Book)
    requires b.V().bids == [] && b.V().asks == []
    ensures Held(b.S()) == {}
  {
    assert |FlatView(b.S(), Buy)| == |Flat(b.S().bids)| && |FlatView(b.S(), Sell)| == |Flat(b.S().asks)|;
  }

  lemma NothingHeldAllFree(free: seq<nat>, held: seq<set<nat>>)
    requires Partition(free, held) && Distinct(free) && (forall k :: 0 <= k < |free| ==> free[k] < POOL)
    requires forall i :: 0 <= i < |held| ==> held[i] == {}
    ensures |free| == POOL && forall x: nat :: x < POOL ==> x in free
  {
    DistinctBelow(POOL, free);
    DistinctElems(free);
    WindowSize(0, POOL, POOL);
    forall x: nat | x < POOL
      ensures x in free
    {
      assert x in Elems(free);
    }
    SubsetSize(Window(0, POOL, POOL), Elems(free));
  }

  /** With every book empty, every pool slot is free. */
  lemma AllFree(e: MatchingEngine)
    requires e.Valid() && e.Layout() && forall i :: 0 <= i < |e.books| ==> e.Now().views[i] == PriceTime.EmptyBook(e.books[i].symbol)
    ensures |e.pool.free| == POOL && forall x: nat :: x < POOL ==> x in e.pool.free
  {
    hide Partition, Book.V, Book.Valid, SymbolMap.Valid, ProbeMap.Valid, Matches, LayoutOf, Held, MatchingEngine.Now;
    forall i | 0 <= i < |e.books|
      ensures e.HeldBy()[i] == {}
    {
      assert e.books[i].V() == PriceTime.EmptyBook(e.books[i].symbol);
      EmptyHoldsNothing(e.books[i]);
    }
    NothingHeldAllFree(e.pool.free, e.HeldBy());
  }

  lemma ViewNames(e: MatchingEngine)
    requires e.Layout()
    ensures forall i :: 0 <= i < |e.books| ==> e.Now().views[i].symbol == e.books[i].symbol
  {
    hide Book.V, LayoutOf;
  }

  lemma AllEmpty(e: MatchingEngine, pos: seq<nat>)
    requires e.Layout() && Finished(e.Now().views, pos) && |pos| == |e.books| && !Busy(pos)
    ensures forall i :: 0 <= i < |e.books| ==> e.Now().views[i] == PriceTime.EmptyBook(e.books[i].symbol)
  {
    hide MatchingEngine.Layout, MatchingEngine.Now, PriceTime.EmptyBook;
    ViewNames(e);
    forall i | 0 <= i < |e.books|
      ensures e.Now().views[i] == PriceTime.EmptyBook(e.books[i].symbol)
    {
      assert pos[i] == 0;
    }
  }

  /** Every book is empty, and every order of the pool is free. */
  ghost predicate Emptied(e: MatchingEngine)
    reads e, e.own, e.pool, e.pool.orders, e.pool.freeList, e.symbols, e.symbols.slots, e.tracking, e.tracking.slots
  {
    && e.Valid() && e.Layout()
    && (forall i :: 0 <= i < |e.books| ==> e.Now().views[i] == PriceTime.EmptyBook(e.books[i].symbol))
    && |e.pool.free| == POOL && (forall x: nat :: x < POOL ==> x in e.pool.free)
  }

  lemma FlushedOut(e: MatchingEngine, pos: seq<nat>)
    requires e.Valid() && e.Layout() && |pos| == |e.books| && Finished(e.Now().views, pos)
    requires !Busy(pos)
    ensures Emptied(e)
  {
    hide MatchingEngine.Valid, MatchingEngine.Layout, MatchingEngine.Now, Finished, PriceTime.EmptyBook;
    AllEmpty(e, pos);
    AllFree(e);
  }

  /** A flush of the whole engine is under way. */
  ghost predicate UnderWay(e: MatchingEngine, out: OutputBuffer, pos: seq<nat>)
    reads e, e.own, e.pool, e.pool.orders, e.pool.freeList, e.symbols, e.symbols.slots, e.tracking, e.tracking.slots
    reads out, out.messages
  {
    && e.Valid() && e.Layout() && out.Valid() && Separate(e, out) && e.tracking.m == map[]
    && |pos| == |e.books| && Cursors(e, pos) && Finished(e.Now().views, pos) && out.sent == []
  }

  ghost function ViewsOf(e: MatchingEngine): (v: seq<PriceTime.Book>)
    reads e, e.own, e.pool
    requires e.Layout()
    ensures |v| == |e.books|
  {
    e.Now().views
  }

  lemma ViewsAre(e: MatchingEngine)
    requires e.Layout()
    ensures ViewsOf(e) == e.Now().views && |ViewsOf(e)| == |e.books|
  {
    hide MatchingEngine.Layout, MatchingEngine.Now;
  }

  lemma CursorsWithin(e: MatchingEngine, pos: seq<nat>)
    requires e.Valid() && Cursors(e, pos)
    ensures e.Layout() && Within(ViewsOf(e), pos)
  {
    hide MatchingEngine.Valid, MatchingEngine.Layout, MatchingEngine.Now, Cursors, Flushing.All;
    AllBounds(e, pos);
    ViewsAre(e);
  }

  // ----- The orders of all books fit the pool -----

  lemma {:induction false} UnionSize(held: seq<set<nat>>, n: nat) returns (u: set<nat>)
    requires n <= |held| && forall i, j :: 0 <= i < j < |held| ==> held[i] !! held[j]
    ensures |u| == SizeUpto(held, n) && (forall i :: 0 <= i < n ==> held[i] <= u)
    ensures forall x :: x in u ==> exists i :: 0 <= i < n && x in held[i]
  {
    if n == 0 {
      u := {};
    } else {
      u := UnionSize(held, n - 1);
      assert u !! held[n - 1];
      u := u + held[n - 1];
    }
  }

  ghost function SizeUpto(held: seq<set<nat>>, n: nat): nat
    requires n <= |held|
  {
    if n == 0 then 0 else SizeUpto(held, n - 1) + |held[n - 1]|
  }

  lemma HeldSize(b: Book)
    requires b.Valid()
    ensures |Flushing.All(b.V())| == |Held(b.S())| && forall x :: x in Held(b.S()) ==> x < POOL
  {
    hide Pool.Valid, BookSide.Valid, ProbeMap.Valid, NoneEmpty, Book.Wf, Indexed, Flat;
    BookOps.ValidParts(b);
    HeldCount(b.S());
    Flushing.AllSize(b.V());
    ViewSizes(b);
  }

  lemma ViewSizes(b: Book)
    ensures |b.V().bids| == |Flat(b.S().bids)| && |b.V().asks| == |Flat(b.S().asks)|
  {
  }

  lemma HeldCount(s: Snap)
    requires Coherent(s)
    ensures |Held(s)| == |Flat(s.bids)| + |Flat(s.asks)| && forall x :: x in Held(s) ==> x < POOL
  {
    hide Indexed;
    FlatDistinct(s.os, Buy, s.bids.levels, s.bids.ids);
    FlatDistinct(s.os, Sell, s.asks.levels, s.asks.ids);
    DistinctElems(Flat(s.bids));
    DistinctElems(Flat(s.asks));
    forall x | x in Held(s)
      ensures x < POOL && (x in Flat(s.bids) ==> x !in Flat(s.asks))
    {
      LinkedFacts(s, x);
    }
    assert Elems(Flat(s.bids)) !! Elems(Flat(s.asks));
  }

  lemma {:induction false} SameSums(views: seq<PriceTime.Book>, held: seq<set<nat>>, n: nat)
    requires n <= |views| == |held| && forall i :: 0 <= i < n ==> |Flushing.All(views[i])| == |held[i]|
    ensures RestingIn(views, n) == SizeUpto(held, n)
  {
    if n > 0 {
      SameSums(views, held, n - 1);
    }
  }

  lemma BookHeld(e: MatchingEngine, i: nat)
    requires e.Valid() && i < |e.books|
    ensures e.Layout() && |Flushing.All(ViewsOf(e)[i])| == |e.HeldBy()[i]| && forall x :: x in e.HeldBy()[i] ==> x < POOL
  {
    hide MatchingEngine.Valid, LayoutOf, Held, Flushing.All, Book.V, Book.Valid;
    EngineParts(e);
    HeldSize(e.books[i]);
  }

  lemma HeldApart(e: MatchingEngine)
    requires e.Valid()
    ensures e.Layout() && |e.books| <= MAX_SYMBOLS
    ensures forall i, j :: 0 <= i < j < |e.HeldBy()| ==> e.HeldBy()[i] !! e.HeldBy()[j]
  {
    hide LayoutOf, Held, Book.V, Book.Valid, Pool.Valid, SymbolMap.Valid, ProbeMap.Valid;
  }

  lemma RestingHeld(e: MatchingEngine)
    requires e.Valid()
    ensures e.Layout() && RestingIn(ViewsOf(e), |e.books|) == SizeUpto(e.HeldBy(), |e.books|)
  {
    hide MatchingEngine.Valid, MatchingEngine.Layout, Held, Flushing.All, Book.V, Book.Valid, RestingIn;
    HeldApart(e);
    forall i | 0 <= i < |e.books|
      ensures |Flushing.All(ViewsOf(e)[i])| == |e.HeldBy()[i]|
    {
      BookHeld(e, i);
    }
    SameSums(ViewsOf(e), e.HeldBy(), |e.books|);
  }

  /** No more orders rest in all books together than the pool has. */
  lemma RestingBound(e: MatchingEngine)
    requires e.Valid()
    ensures e.Layout() && RestingIn(ViewsOf(e), |e.books|) <= POOL && |e.books| <= MAX_SYMBOLS
  {
    hide MatchingEngine.Valid, MatchingEngine.Layout, Held, Flushing.All, Book.V, Book.Valid, RestingIn;
    HeldApart(e);
    RestingHeld(e);
    var u := UnionSize(e.HeldBy(), |e.books|);
    forall x | x in u
      ensures x in Window(0, POOL, POOL)
    {
      var i :| 0 <= i < |e.books| && x in e.HeldBy()[i];
      BookHeld(e, i);
      assert Probe(0, x, POOL) == x;
    }
    WindowSize(0, POOL, POOL);
    SubsetSize(u, Window(0, POOL, POOL));
  }

  // ----- A whole flush -----

  /** The first round of a flush. */
  method FirstRound(e: MatchingEngine, out: OutputBuffer, ghost start: seq<nat>) returns (batch: seq<Msg>, ghost pos: seq<nat>)
    requires e.Valid() && e.Layout() && out.Valid() && Separate(e, out) && Cursors(e, start) && Within(ViewsOf(e), start)
    modifies e.own, e.pool, e.pool.freeList, e.tracking, e.tracking.slots, out, out.messages
    ensures UnderWay(e, out, pos) && e.books == old(e.books) && e.own == old(e.own)
    ensures var views, go := old(ViewsOf(e)), Everyone(|start|);
            && |go| == |start| && ViewsOf(e) == ViewsUpto(views, start, go, |views|) && pos == PosUpto(views, start, go, |views|)
            && batch == Keep(old(out.sent) + MsgsUpto(views, start, go, |views|))
  {
    hide Cursors, Finished, MatchingEngine.Valid, MatchingEngine.Layout, MatchingEngine.Now, Separate, OutputBuffer.Valid, PosUpto, ViewsUpto,
      MsgsUpto, Everyone, Keep, ViewsOf;
    ViewsAre(e);
    StartFinishes(e.Now().views, start);
    pos := PosUpto(e.Now().views, start, Everyone(|start|), |start|);
    ProcessFlush(e, out, start);
    batch := DrainFrom(e, out, pos);
    CursorsCount(e, pos);
    ViewsAre(e);
  }

  /** Another round, while some book is not finished. */
  method NextRound(e: MatchingEngine, out: OutputBuffer, ghost pos: seq<nat>) returns (batch: seq<Msg>, ghost next: seq<nat>)
    requires UnderWay(e, out, pos) && Busy(pos) && Within(ViewsOf(e), pos)
    modifies e.own, e.pool, e.pool.freeList, out, out.messages
    ensures UnderWay(e, out, next) && e.books == old(e.books) && e.own == old(e.own)
    ensures var views, go := old(ViewsOf(e)), InProgress(pos);
            && |go| == |pos| && ViewsOf(e) == ViewsUpto(views, pos, go, |views|) && next == PosUpto(views, pos, go, |views|)
            && batch == Keep(MsgsUpto(views, pos, go, |views|))
  {
    hide Cursors, Finished, MatchingEngine.Valid, MatchingEngine.Layout, MatchingEngine.Now, Separate, OutputBuffer.Valid, PosUpto, ViewsUpto,
      MsgsUpto, InProgress, Keep, ViewsOf;
    ViewsAre(e);
    RoundFinishes(e.Now().views, pos);
    next := PosUpto(e.Now().views, pos, InProgress(pos), |pos|);
    ghost var msgs := MsgsUpto(e.Now().views, pos, InProgress(pos), |pos|);
    assert [] + msgs == msgs;
    var _ := ContinueFlush(e, out, pos);
    batch := DrainFrom(e, out, next);
    CursorsCount(e, next);
    ViewsAre(e);
  }

  lemma UnderWayParts(e: MatchingEngine, out: OutputBuffer, pos: seq<nat>)
    requires UnderWay(e, out, pos)
    ensures e.Valid() && e.Layout() && out.Valid() && e.tracking.m == map[] && Cursors(e, pos) && Separate(e, out) && out.sent == []
    ensures |pos| == |e.books| == |ViewsOf(e)| && Finished(ViewsOf(e), pos) && Finished(e.Now().views, pos) && Within(ViewsOf(e), pos)
  {
    hide Cursors, MatchingEngine.Valid, MatchingEngine.Layout, Finished, Separate, MatchingEngine.Now;
    ViewsAre(e);
    CursorsWithin(e, pos);
  }

  lemma RestUnfolds(views: seq<PriceTime.Book>, pos: seq<nat>)
    requires Within(views, pos) && Finished(views, pos)
    ensures |InProgress(pos)| == |pos|
    ensures var views', pos' := ViewsUpto(views, pos, InProgress(pos), |views|), PosUpto(views, pos, InProgress(pos), |views|);
            && Within(views', pos') && Finished(views', pos')
            && (Busy(pos) ==> RestOf(views, pos) == Keep(MsgsUpto(views, pos, InProgress(pos), |views|)) + RestOf(views', pos'))
            && (Busy(pos) ==> LeftAll(views', pos') < LeftAll(views, pos))
    ensures !Busy(pos) ==> RestOf(views, pos) == []
  {
    hide MsgsUpto, Finished, LeftAll, ViewsUpto, PosUpto;
    RoundFinishes(views, pos);
    WithinNext(views, pos, InProgress(pos));
  }

  /** Rounds until no book has a flush in progress. */
  method FinishFlush(e: MatchingEngine, out: OutputBuffer, ghost start: seq<nat>) returns (drained: seq<Msg>)
    requires UnderWay(e, out, start) && Within(ViewsOf(e), start) && Finished(ViewsOf(e), start)
    modifies e.own, e.pool, e.pool.freeList, out, out.messages
    ensures Emptied(e) && out.Valid() && e.books == old(e.books) && e.tracking.m == map[]
    ensures out.sent == [] && Separate(e, out) && e.own == old(e.own) && Idle(e.books)
    ensures drained == RestOf(old(ViewsOf(e)), start)
  {
    hide *;
    ghost var pos := start;
    UnderWayParts(e, out, pos);
    ghost var all := RestOf(ViewsOf(e), start);
    drained := [];
    Start([], all);
    var more := HasFlush(e, pos);
    while more
      invariant UnderWay(e, out, pos) && e.books == old(e.books) && e.own == old(e.own) && e.Layout() && (more <==> Busy(pos))
      invariant |pos| == |e.books| && Within(ViewsOf(e), pos) && Finished(ViewsOf(e), pos) && drained + RestOf(ViewsOf(e), pos) == all
      decreases LeftAll(ViewsOf(e), pos)
    {
      var batch;
      RestUnfolds(ViewsOf(e), pos);
      batch, pos := NextRound(e, out, pos);
      UnderWayParts(e, out, pos);
      Associative(drained, batch, RestOf(ViewsOf(e), pos));
      drained := drained + batch;
      more := HasFlush(e, pos);
    }
    UnderWayParts(e, out, pos);
    RestUnfolds(ViewsOf(e), pos);
    Start(drained, []);
    FlushedOut(e, pos);
    IdleIs(e, pos);
  }

  lemma IdleIs(e: MatchingEngine, pos: seq<nat>)
    requires Cursors(e, pos)
    ensures Idle(e.books) <==> !Busy(pos)
  {
    CursorsCount(e, pos);
  }

  lemma Start(a: seq<Msg>, b: seq<Msg>)
    ensures a == [] ==> a + b == b
    ensures b == [] ==> a + b == a
  {
  }

  /** Flush every book to the end, draining the output after each round: all books end empty,
      no key is tracked, and every order of the pool is free again.  From an empty buffer, each
      order is acknowledged once and each active side eliminated once, if and only if the
      messages of the first round fit the buffer: no later round can lose anything. */
  method FlushEverything(e: MatchingEngine, out: OutputBuffer, ghost start: seq<nat>) returns (drained: seq<Msg>)
    requires e.Valid() && e.Layout() && out.Valid() && Separate(e, out) && Cursors(e, start) && Within(ViewsOf(e), start)
    modifies e.own, e.pool, e.pool.freeList, e.tracking, e.tracking.slots, out, out.messages
    ensures Emptied(e) && out.Valid() && e.books == old(e.books) && e.tracking.m == map[]
    ensures out.sent == [] && Separate(e, out) && e.own == old(e.own) && Idle(e.books)
    ensures drained == Transcript(old(out.sent), old(ViewsOf(e)), start) && |Everyone(|start|)| == |start|
    ensures old(out.sent) == [] ==>
      (multiset(drained) == PendingUpto(old(ViewsOf(e)), start, |start|)
       <==> FirstSize(old(ViewsOf(e)), start, |start|) <= 8192)
  {
    hide *;
    ghost var pos, views := start, ViewsOf(e);
    ViewsAre(e);
    CursorsCount(e, start);
    RestingBound(e);
    Sizes();
    DeliveredIff(views, start);
    TranscriptIs(out.sent, views, start);
    drained, pos := FirstRound(e, out, start);
    UnderWayParts(e, out, pos);
    var rest := FinishFlush(e, out, pos);
    drained := drained + rest;
  }

  lemma Sizes()
    ensures POOL == 8192 && MAX_SYMBOLS == 64
  {
  }

  lemma TranscriptIs(sent: seq<Msg>, views: seq<PriceTime.Book>, pos: seq<nat>)
    requires Within(views, pos)
    ensures |views| == |pos| == |Everyone(|pos|)|
    ensures var views', pos' := ViewsUpto(views, pos, Everyone(|pos|), |views|), PosUpto(views, pos, Everyone(|pos|), |views|);
            && Within(views', pos') && Finished(views', pos')
            && Transcript(sent, views, pos) == Keep(sent + MsgsUpto(views, pos, Everyone(|pos|), |views|)) + RestOf(views', pos')
  {
    hide MsgsUpto, Finished, ViewsUpto, PosUpto, RestOf, Keep;
    StartFinishes(views, pos);
    WithinNext(views, pos, Everyone(|pos|));
  }

  method DrainFrom(e: MatchingEngine, out: OutputBuffer, ghost pos: seq<nat>) returns (msgs: seq<Msg>)
    requires e.Valid() && e.Layout() && out.Valid() && Separate(e, out) && Cursors(e, pos)
    modifies out
    ensures e.Valid() && e.Layout() && out.Valid() && Separate(e, out) && Cursors(e, pos) && msgs == old(out.sent)
    ensures e.Now() == old(e.Now()) && e.tracking.m == old(e.tracking.m) && e.books == old(e.books) && e.own == old(e.own)
    ensures out.sent == []
  {
    hide *;
    OutFrame(e, out);
    msgs := out.Drain();
  }
}
