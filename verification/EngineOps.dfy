/** The engine's operations: routing by symbol, tracking keys for cancels, and the
    operations that run over all books. */
module EngineOps {
  import opened Orders
  import opened Sequences
  import PriceTime
  import opened OrderPool
  import opened PriceLevels
  import opened ProbeTable
  import opened SymbolTable
  import opened BookState
  import opened OrderBook
  import BookOps
  import Cancelling
  import ClientCancel
  import opened Engine

  /** The abstract book of a symbol; an unknown symbol has an empty one. */
  function BookOf(books: map<string, PriceTime.Book>, symbol: string): PriceTime.Book {
    if symbol in books then books[symbol] else PriceTime.EmptyBook(symbol)
  }

  lemma EngineParts(e: MatchingEngine)
    requires e.Valid()
    ensures e.Layout() && e.pool.Valid() && e.symbols.Valid() && e.tracking.Valid()
    ensures (forall k: nat :: e.bookHash(k) < ORDER_MAP_SIZE) && Matches(e.symbols.m, e.Names())
    ensures LayoutOf(e.books, e.own, e.pool, e.Fixed()) && e.own !! e.Fixed() && e.Apart()
    ensures forall i :: 0 <= i < |e.books| ==> Own(e.books[i]) <= e.own && e.books[i].pool == e.pool && e.books[i].Valid()
  {
    hide Pool.Valid, SymbolMap.Valid, ProbeMap.Valid, Matches, Partition, Book.Valid, Held;
  }

  lemma LayoutIs(e: MatchingEngine)
    requires LayoutOf(e.books, e.own, e.pool, e.Fixed()) && e.Apart()
    ensures e.Layout()
  {
  }

  /** The abstract engine, symbol by symbol. */
  lemma EngineView(e: MatchingEngine)
    requires e.Valid()
    ensures e.E().Keys == e.symbols.m.Keys
    ensures forall s :: s in e.symbols.m ==>
              && e.symbols.m[s] < |e.books| && e.books[e.symbols.m[s]].symbol == s
              && e.E()[s] == e.books[e.symbols.m[s]].V()
    ensures forall i :: 0 <= i < |e.books| ==> e.books[i].symbol in e.symbols.m && e.symbols.m[e.books[i].symbol] == i
    ensures |e.symbols.m| == |e.books| <= MAX_SYMBOLS && "" !in e.symbols.m
  {
    hide Pool.Valid, SymbolMap.Valid, ProbeMap.Valid, Partition, Book.Valid, Held;
    assert forall i :: 0 <= i < |e.books| ==> e.Names()[i] == e.books[i].symbol;
  }

  lemma EngineViewAt(e: MatchingEngine, s: string)
    requires e.Valid()
    ensures s in e.E() <==> s in e.symbols.m
    ensures s in e.symbols.m ==>
      e.symbols.m[s] < |e.books| && e.E()[s] == e.books[e.symbols.m[s]].V() && e.books[e.symbols.m[s]].symbol == s
    ensures |e.books| <= MAX_SYMBOLS
  {
    hide MatchingEngine.Valid, MatchingEngine.E, Book.V;
    EngineView(e);
  }

  // ----- Opening a book -----

  /** The engine with one more book, `b`, at the end; `f` is the moment before. */
  ghost predicate Extended(e: MatchingEngine, f: Moment, b: Book)
    reads e, e.own, e.pool, e.pool.orders, e.pool.freeList, e.symbols, e.symbols.slots, e.tracking, e.tracking.slots
  {
    && e.Layout() && e.pool.Valid() && e.symbols.Valid() && e.tracking.Valid()
    && (forall i: nat :: e.bookHash(i) < ORDER_MAP_SIZE)
    && Matches(e.symbols.m, e.Names()) && Consistent(f) && f.os == e.pool.os && f.free == e.pool.free
    && |e.books| == |f.snaps| + 1 && e.books[|f.snaps|] == b
    && Own(b) <= e.own && b.pool == e.pool && b.Valid() && Held(b.S()) == {}
    && forall j :: 0 <= j < |f.snaps| ==> Own(e.books[j]) <= e.own && StillThere(e.books[j], f.snaps[j], f.views[j])
  }

  lemma PartitionNew(free: seq<nat>, held: seq<set<nat>>, held': seq<set<nat>>)
    requires Partition(free, held) && held' == held + [{}]
    ensures Partition(free, held')
  {
    forall x: nat | x < POOL
      ensures x in Elems(free) || exists i :: 0 <= i < |held'| && x in held'[i]
    {
      if x !in Elems(free) {
        var i :| 0 <= i < |held| && x in held[i];
        assert x in held'[i];
      }
    }
  }

  lemma ExtendedOther(e: MatchingEngine, f: Moment, b: Book, j: nat)
    requires Extended(e, f, b) && j < |f.snaps|
    ensures e.books[j].Valid() && e.books[j].V() == f.views[j] && Held(e.books[j].S()) == Held(f.snaps[j])
  {
    hide Coherent, FlatView, Pool.Valid, BookSide.Valid, ProbeMap.Valid, SymbolMap.Valid, Matches, StillThere;
    CoherentApart(f.snaps[j]);
    BystanderKept(e.books[j], f.snaps[j], f.views[j], Elems(f.free));
  }

  lemma ExtendedValid(e: MatchingEngine, f: Moment, b: Book)
    requires Extended(e, f, b)
    ensures e.Valid() && forall j :: 0 <= j < |f.snaps| ==> e.books[j].V() == f.views[j]
  {
    hide Coherent, FlatView, Pool.Valid, BookSide.Valid, ProbeMap.Valid, SymbolMap.Valid, Matches, StillThere, Partition, Book.Valid, Held;
    forall j | 0 <= j < |f.snaps|
      ensures e.books[j].Valid() && e.books[j].V() == f.views[j] && Held(e.books[j].S()) == Held(f.snaps[j])
    {
      ExtendedOther(e, f, b, j);
    }
    assert e.HeldBy() == HeldIn(f) + [{}];
    PartitionNew(f.free, HeldIn(f), e.HeldBy());
  }

  lemma AllThere(e: MatchingEngine)
    requires e.Valid()
    ensures LayoutOf(e.books, e.own, e.pool, e.Fixed())
    ensures forall k :: OthersThere(e.books, e.own, e.pool, e.Fixed(), e.Now(), k)
  {
    hide Pool.Valid, SymbolMap.Valid, ProbeMap.Valid, Matches, StillThere, Partition, Book.Valid, Held, Own;
    forall j | 0 <= j < |e.books|
      ensures StillThere(e.books[j], e.Now().snaps[j], e.Now().views[j])
    {
      IsThere(e.books[j]);
    }
  }

  lemma NothingHeld(b: Book)
    requires b.bids.ids == [] && b.asks.ids == []
    ensures Held(b.S()) == {}
  {
  }

  /** A book just allocated shares nothing with the engine but the pool. */
  lemma LayoutFresh(e: MatchingEngine, objects: set<object>, b: Book)
    requires e.Valid() && objects == e.own + e.Fixed() && b.pool == e.pool
    requires b !in objects && b.bids !in objects && b.bids.slots !in objects && b.asks !in objects && b.asks.slots !in objects
    requires b.orderMap !in objects && b.orderMap.slots !in objects
    ensures LayoutOf(e.books + [b], e.own + Own(b), e.pool, e.Fixed())
  {
    hide LayoutOf, Matches, Partition, Book.Valid, Held, Pool.Valid, SymbolMap.Valid, ProbeMap.Valid;
    LayoutNew(e.books, e.own, e.pool, e.Fixed(), b);
  }

  /** What opening a book leaves alone. */
  ghost predicate Kept(e: MatchingEngine, books: seq<Book>, own: set<object>, f: Moment)
    reads own, e.pool, e.pool.orders, e.pool.freeList, e.tracking, e.tracking.slots
  {
    && LayoutOf(books, own, e.pool, e.Fixed()) && own !! e.Fixed() && e.Apart()
    && OthersThere(books, own, e.pool, e.Fixed(), f, -1) && f.os == e.pool.os && f.free == e.pool.free
    && e.pool.Valid() && e.tracking.Valid() && (forall i: nat :: e.bookHash(i) < ORDER_MAP_SIZE)
  }

  lemma KeptNow(e: MatchingEngine)
    requires e.Valid()
    ensures e.Layout() && Kept(e, e.books, e.own, e.Now())
    ensures e.pool.Valid() && e.symbols.Valid() && (forall i: nat :: e.bookHash(i) < ORDER_MAP_SIZE)
    ensures |e.symbols.m| == |e.books|
  {
    hide MatchingEngine.Valid, MatchingEngine.E, OthersThere, LayoutOf, Pool.Valid, SymbolMap.Valid, ProbeMap.Valid, Matches, Own,
      MatchingEngine.Now;
    EngineParts(e);
    AllThere(e);
    EngineView(e);
    assert OthersThere(e.books, e.own, e.pool, e.Fixed(), e.Now(), -1);
  }

  lemma ExtendedIs(e: MatchingEngine, f: Moment, b: Book, names: seq<string>)
    requires e.Layout() && e.pool.Valid() && e.symbols.Valid() && e.tracking.Valid()
    requires forall i: nat :: e.bookHash(i) < ORDER_MAP_SIZE
    requires Matches(e.symbols.m, names + [b.symbol]) && Consistent(f) && f.os == e.pool.os && f.free == e.pool.free
    requires |e.books| == |f.snaps| + 1 && e.books[|f.snaps|] == b && |names| == |f.snaps|
    requires forall i :: 0 <= i < |names| ==> names[i] == e.books[i].symbol
    requires Own(b) <= e.own && b.pool == e.pool && b.Valid() && Held(b.S()) == {}
    requires forall j :: 0 <= j < |f.snaps| ==> Own(e.books[j]) <= e.own && StillThere(e.books[j], f.snaps[j], f.views[j])
    ensures Extended(e, f, b)
  {
    hide Pool.Valid, SymbolMap.Valid, ProbeMap.Valid, Matches, StillThere, Partition, Book.Valid, Held, Consistent, LayoutOf;
    assert e.Names() == names + [b.symbol];
  }

  lemma ViewExtended(e: MatchingEngine, f: Moment, b: Book, symbol: string, m: map<string, nat>, v: map<string, PriceTime.Book>)
    requires e.Valid() && |e.books| == |f.views| + 1 && e.books[|f.views|] == b && b.V() == PriceTime.EmptyBook(symbol)
    requires e.symbols.m == m[symbol := |f.views|] && symbol !in m
    requires forall j :: 0 <= j < |f.views| ==> e.books[j].V() == f.views[j]
    requires v.Keys == m.Keys && forall s :: s in m ==> m[s] < |f.views| && v[s] == f.views[m[s]]
    ensures e.E() == v[symbol := PriceTime.EmptyBook(symbol)]
  {
    hide MatchingEngine.Valid, MatchingEngine.E, Book.V, PriceTime.EmptyBook;
    var w := v[symbol := PriceTime.EmptyBook(symbol)];
    forall s: string
      ensures (s in e.E() <==> s in w) && (s in w ==> e.E()[s] == w[s])
    {
      EngineViewAt(e, s);
    }
  }

  /** The order map of a book that was never used. */
  ghost predicate Blank(b: Book)
    reads b.orderMap
  {
    b.orderMap.limit == PROBES && forall i :: 0 <= i < |b.orderMap.t| ==> b.orderMap.t[i].key == EMPTY
  }

  /** No book has a flush in progress. */
  ghost predicate Idle(books: seq<Book>)
    reads books
  {
    forall i :: 0 <= i < |books| ==> !books[i].flushing
  }

  /** Every order map has the source's probe limit. */
  ghost predicate Standard(books: seq<Book>) {
    forall i :: 0 <= i < |books| ==> books[i].orderMap.limit == PROBES
  }

  lemma BooksApart(e: MatchingEngine, out: OutputBuffer, f: Moment, k: nat)
    requires Rest(e, out, f, k)
    ensures k < |e.books| && forall j :: 0 <= j < |e.books| && j != k ==> e.books[j] !in Own(e.books[k])
  {
    hide OthersThere, Matches, SymbolMap.Valid, ProbeMap.Valid, Separate;
    forall j | 0 <= j < |e.books| && j != k
      ensures e.books[j] !in Own(e.books[k])
    {
      assert e.books[j] in Own(e.books[j]);
      if j < k {
        assert Own(e.books[j]) !! Own(e.books[k]);
      } else {
        assert Own(e.books[k]) !! Own(e.books[j]);
      }
    }
  }

  /** Allocate a book. */
  method CreateBook(e: MatchingEngine, symbol: string) returns (b: Book)
    requires e.Valid()
    ensures fresh(Own(b)) && b.pool == e.pool && b.symbol == symbol && !b.flushing
    ensures b.Valid() && b.V() == PriceTime.EmptyBook(symbol) && Held(b.S()) == {} && Blank(b)
    ensures LayoutOf(e.books + [b], e.own + Own(b), e.pool, e.Fixed())
    ensures Kept(e, e.books, e.own, e.Now()) && e.symbols.Valid()
  {
    hide MatchingEngine.Valid, MatchingEngine.Now, Kept, LayoutOf, Book.Valid, Book.V, Held, Pool.Valid, SymbolMap.Valid, PriceTime.EmptyBook;
    KeptNow(e);
    ghost var objects, f := e.own + e.Fixed(), e.Now();
    b := new Book(symbol, e.pool, e.bookHash);
    NothingHeld(b);
    assert e.Valid() && e.Now() == f;
    LayoutFresh(e, objects, b);
  }

  /** Allocate a book and enter it in the array and the symbol table. */
  method InstallBook(e: MatchingEngine, symbol: string) returns (b: Book)
    requires e.Valid() && symbol != "" && symbol !in e.symbols.m && |e.books| < MAX_SYMBOLS
    modifies e`books, e`own, e.symbols, e.symbols.slots
    ensures fresh(Own(b)) && e.books == old(e.books) + [b] && e.own == old(e.own) + Own(b)
    ensures b.symbol == symbol && b.pool == e.pool
    ensures e.symbols.Valid() && e.symbols.m == old(e.symbols.m)[symbol := old(|e.books|)]
    ensures b.Valid() && b.V() == PriceTime.EmptyBook(symbol) && Held(b.S()) == {} && Blank(b)
    ensures LayoutOf(e.books, e.own, e.pool, e.Fixed()) && Kept(e, old(e.books), old(e.own), old(e.Now()))
    ensures (old(Idle(e.books)) ==> Idle(e.books)) && (old(Standard(e.books)) ==> Standard(e.books))
  {
    hide MatchingEngine.Valid, MatchingEngine.Now, Kept, LayoutOf, Book.Valid, Book.V, Held, Pool.Valid, SymbolMap.Valid, PriceTime.EmptyBook;
    KeptNow(e);
    KeptFrame(e, e.books, e.own, e.Now());
    b := CreateBook(e, symbol);
    e.books := e.books + [b];
    e.own := e.own + Own(b);
    var ok := e.symbols.Insert(symbol, |e.books| - 1);
    assert ok;
  }

  lemma KeptFrame(e: MatchingEngine, books: seq<Book>, own: set<object>, f: Moment)
    requires Kept(e, books, own, f)
    ensures e !in own && e.symbols !in own && e.symbols.slots !in own
    ensures {e, e.symbols, e.symbols.slots} !! {e.pool, e.pool.orders, e.pool.freeList, e.tracking, e.tracking.slots}
  {
    hide LayoutOf, OthersThere, Pool.Valid, ProbeMap.Valid;
  }

  /** A new book for a new symbol. */
  method OpenBook(e: MatchingEngine, symbol: string)
    requires e.Valid() && symbol != "" && symbol !in e.symbols.m && |e.books| < MAX_SYMBOLS
    modifies e`books, e`own, e.symbols, e.symbols.slots
    ensures e.Valid() && e.E() == old(e.E())[symbol := PriceTime.EmptyBook(symbol)]
    ensures |e.books| == old(|e.books|) + 1 && e.books[..old(|e.books|)] == old(e.books)
    ensures e.symbols.m == old(e.symbols.m)[symbol := old(|e.books|)]
    ensures e.own == old(e.own) + Own(e.books[old(|e.books|)]) && fresh(Own(e.books[old(|e.books|)])) && Blank(e.books[old(|e.books|)])
    ensures (old(Idle(e.books)) ==> Idle(e.books)) && (old(Standard(e.books)) ==> Standard(e.books))
  {
    hide *;
    EngineParts(e);
    EngineView(e);
    NowConsistent(e);
    ghost var f, names, m, v := e.Now(), e.Names(), e.symbols.m, e.E();
    ghost var books, own := e.books, e.own;
    var b := InstallBook(e, symbol);
    MatchesNew(m, names, symbol);
    KeptParts(e, books, own, f, b);
    ExtendedIs(e, f, b, names);
    ExtendedValid(e, f, b);
    ViewExtended(e, f, b, symbol, m, v);
  }

  lemma KeptParts(e: MatchingEngine, books: seq<Book>, own: set<object>, f: Moment, b: Book)
    requires Kept(e, books, own, f) && LayoutOf(e.books, e.own, e.pool, e.Fixed())
    requires e.books == books + [b] && e.own == own + Own(b)
    ensures e.Layout() && e.pool.Valid() && e.tracking.Valid() && forall i: nat :: e.bookHash(i) < ORDER_MAP_SIZE
    ensures f.os == e.pool.os && f.free == e.pool.free && |f.snaps| == |f.views| == |books| && Own(b) <= e.own
    ensures forall j :: 0 <= j < |f.snaps| ==> Own(e.books[j]) <= e.own && StillThere(e.books[j], f.snaps[j], f.views[j])
  {
    hide StillThere, Own, Pool.Valid, ProbeMap.Valid;
  }

  // ----- Finding the book of a symbol -----

  /** Symbols are at most 15 characters long. */
  predicate Name(symbol: string) {
    |symbol| <= 15
  }

  /** Whose book gets the orders of a symbol: its own, but for the empty symbol, whose lookup
      is answered with book 0, that of the symbol that came first. */
  ghost function Home(e: MatchingEngine, symbol: string): string
    reads e
  {
    if symbol == "" && e.books != [] then e.books[0].symbol else symbol
  }

  /** No book takes the orders of the symbol: 64 others are known, or the lookup of the empty
      symbol meets no unused slot. */
  ghost predicate Shut(e: MatchingEngine, symbol: string)
    requires e.Valid()
    reads e, e.own, e.pool, e.pool.orders, e.pool.freeList, e.symbols, e.symbols.slots, e.tracking, e.tracking.slots
  {
    if symbol == "" then !e.symbols.Gap() else symbol !in e.symbols.m && |e.books| == MAX_SYMBOLS
  }

  lemma ShutIs(e: MatchingEngine, symbol: string)
    requires e.Valid()
    ensures e.symbols.Valid()
    ensures Shut(e, symbol) <==> if symbol == "" then !e.symbols.Gap() else symbol !in e.symbols.m && |e.books| == 64
    ensures Shut(e, symbol) ==> |e.books| == MAX_SYMBOLS
  {
    hide SymbolMap.Gap;
    EngineViewAt(e, symbol);
    EngineView(e);
    if |e.symbols.m| < MAX_SYMBOLS {
      GapLeft(e.symbols);
    }
  }

  lemma HomeIs(e: MatchingEngine, symbol: string)
    requires e.Valid() && (symbol == "" ==> e.books != [])
    ensures Home(e, symbol) != "" && (Home(e, symbol) == symbol <==> symbol != "")
    ensures symbol == "" ==> Home(e, symbol) in e.symbols.m && e.symbols.m[Home(e, symbol)] == 0
    ensures "" !in e.symbols.m
  {
    hide MatchingEngine.Valid, MatchingEngine.E, Book.V;
    EngineView(e);
  }

  /** The output buffer is none of the engine's objects. */
  ghost predicate Separate(e: MatchingEngine, out: OutputBuffer)
    reads e
  {
    out !in e.own + e.Fixed() && out.messages !in e.own + e.Fixed()
  }

  /** The book that takes the orders of a symbol, opened if the symbol is new; -1 when there is
      none.  The symbol table never runs out of room for a new symbol, so there is nothing to
      roll back.  The book is the symbol's own if and only if the symbol is not empty. */
  method GetBook(e: MatchingEngine, symbol: string) returns (k: int)
    requires e.Valid() && Name(symbol) && (symbol == "" ==> e.books != [])
    modifies e`books, e`own, e.symbols, e.symbols.slots
    ensures e.Valid() && (k == -1 <==> old(Shut(e, symbol)))
    ensures k == -1 || old(Home(e, symbol)) in old(e.symbols.m) ==>
      e.books == old(e.books) && e.own == old(e.own) && e.E() == old(e.E()) && e.symbols.m == old(e.symbols.m)
    ensures k != -1 ==> 0 <= k < |e.books| && e.books[k].symbol == old(Home(e, symbol))
    ensures k != -1 ==> (e.books[k].symbol == symbol <==> symbol != "")
    ensures k != -1 ==> old(Home(e, symbol)) in e.symbols.m && e.symbols.m[old(Home(e, symbol))] == k
    ensures k != -1 ==>
      && e.E() == old(e.E())[old(Home(e, symbol)) := BookOf(old(e.E()), old(Home(e, symbol)))]
      && e.books[k].V() == BookOf(old(e.E()), old(Home(e, symbol)))
    ensures k != -1 && old(Home(e, symbol)) !in old(e.symbols.m) ==>
      && fresh(Own(e.books[k])) && e.own == old(e.own) + Own(e.books[k]) && e.books == old(e.books) + [e.books[k]]
      && Blank(e.books[k])
    ensures (old(Idle(e.books)) ==> Idle(e.books)) && (old(Standard(e.books)) ==> Standard(e.books))
  {
    hide *;
    assert MAX_SYMBOLS == 64 by { SixtyFour(); }
    EngineParts(e);
    HomeIs(e, symbol);
    ShutIs(e, symbol);
    ghost var v, home := e.E(), Home(e, symbol);
    EngineViewAt(e, home);
    BookOfIs(v, home);
    k := e.symbols.Find(symbol);
    if k != -1 {
      return;
    }
    if |e.books| >= MAX_SYMBOLS {
      return;
    }
    k := |e.books|;
    ghost var books := e.books;
    OpenBook(e, symbol);
    assert e.books == books + [e.books[k]];
    EngineViewAt(e, symbol);
  }

  lemma SixtyFour()
    ensures MAX_SYMBOLS == 64
  {
  }

  lemma BookOfIs(v: map<string, PriceTime.Book>, symbol: string)
    ensures BookOf(v, symbol) == if symbol in v then v[symbol] else PriceTime.EmptyBook(symbol)
    ensures symbol in v ==> v[symbol := BookOf(v, symbol)] == v
  {
  }

  // ----- One operation on one book -----

  lemma TouchedIs(e: MatchingEngine, f: Moment, k: nat, names: seq<string>)
    requires e.Layout() && LayoutOf(e.books, e.own, e.pool, e.Fixed())
    requires e.pool.Valid() && e.symbols.Valid() && e.tracking.Valid()
    requires forall i: nat :: e.bookHash(i) < ORDER_MAP_SIZE
    requires names == e.Names() && Matches(e.symbols.m, names) && Consistent(f) && |f.snaps| == |e.books|
    requires k < |e.books| && Own(e.books[k]) <= e.own && e.books[k].Valid()
    requires BookOps.Slots(e.books[k].S()) == BookOps.Slots(f.snaps[k])
    requires BookOps.Elsewhere(f.os, e.pool.os, BookOps.Slots(f.snaps[k]))
    requires OthersThere(e.books, e.own, e.pool, e.Fixed(), f, k)
    ensures Touched(e, f, k)
  {
    hide Pool.Valid, SymbolMap.Valid, ProbeMap.Valid, Matches, StillThere, Partition, Book.Valid, Held, Consistent, LayoutOf, OthersThere, BookOps.Slots, BookOps.Elsewhere;
  }

  lemma BookIndexed(e: MatchingEngine, k: nat)
    requires e.Valid() && k < |e.books|
    ensures e.books[k].symbol in e.symbols.m && e.symbols.m[e.books[k].symbol] == k
  {
    hide MatchingEngine.Valid, MatchingEngine.E, Book.V;
    EngineView(e);
  }

  lemma ViewUpdated(e: MatchingEngine, f: Moment, k: nat, v: map<string, PriceTime.Book>)
    requires e.Valid() && |e.books| == |f.views| && k < |e.books|
    requires forall j :: 0 <= j < |e.books| && j != k ==> e.books[j].V() == f.views[j]
    requires v.Keys == e.symbols.m.Keys && forall s :: s in v ==> e.symbols.m[s] < |f.views| && v[s] == f.views[e.symbols.m[s]]
    ensures e.E() == v[e.books[k].symbol := e.books[k].V()]
  {
    hide MatchingEngine.Valid, MatchingEngine.E, Book.V;
    var symbol := e.books[k].symbol;
    var w := v[symbol := e.books[k].V()];
    BookIndexed(e, k);
    forall s: string
      ensures (s in e.E() <==> s in w) && (s in w ==> e.E()[s] == w[s])
    {
      EngineViewAt(e, s);
    }
  }

  /** Everything about the engine at the start of an operation on book `k`. */
  lemma Before(e: MatchingEngine, k: nat)
    requires e.Valid() && k < |e.books|
    ensures e.Layout() && e.pool.Valid() && e.symbols.Valid() && e.tracking.Valid()
    ensures (forall i: nat :: e.bookHash(i) < ORDER_MAP_SIZE) && Matches(e.symbols.m, e.Names())
    ensures LayoutOf(e.books, e.own, e.pool, e.Fixed()) && e.own !! e.Fixed() && e.Apart()
    ensures Own(e.books[k]) <= e.own && e.books[k].pool == e.pool && e.books[k].Valid()
    ensures Consistent(e.Now()) && OthersThere(e.books, e.own, e.pool, e.Fixed(), e.Now(), k)
    ensures e.E().Keys == e.symbols.m.Keys
    ensures forall s :: s in e.E() ==> e.symbols.m[s] < |e.books| && e.E()[s] == e.Now().views[e.symbols.m[s]]
    ensures e.books[k].symbol in e.E() && e.E()[e.books[k].symbol] == e.books[k].V()
  {
    hide MatchingEngine.Valid, MatchingEngine.E, Book.V, Book.Valid, Matches, Consistent, OthersThere, LayoutOf, Pool.Valid, SymbolMap.Valid, ProbeMap.Valid;
    EngineParts(e);
    NowConsistent(e);
    AllThere(e);
    EngineView(e);
  }

  /** The engine again, after an operation that kept the slots of book `k` together. */
  lemma Afterwards(e: MatchingEngine, f: Moment, k: nat, names: seq<string>, v: map<string, PriceTime.Book>)
    requires e.Layout() && LayoutOf(e.books, e.own, e.pool, e.Fixed())
    requires e.pool.Valid() && e.symbols.Valid() && e.tracking.Valid()
    requires forall i: nat :: e.bookHash(i) < ORDER_MAP_SIZE
    requires names == e.Names() && Matches(e.symbols.m, names) && Consistent(f) && |f.snaps| == |f.views| == |e.books|
    requires k < |e.books| && Own(e.books[k]) <= e.own && e.books[k].Valid()
    requires BookOps.Slots(e.books[k].S()) == BookOps.Slots(f.snaps[k])
    requires BookOps.Elsewhere(f.os, e.pool.os, BookOps.Slots(f.snaps[k]))
    requires OthersThere(e.books, e.own, e.pool, e.Fixed(), f, k)
    requires v.Keys == e.symbols.m.Keys && forall s :: s in v ==> e.symbols.m[s] < |f.views| && v[s] == f.views[e.symbols.m[s]]
    ensures e.Valid() && e.E() == v[e.books[k].symbol := e.books[k].V()]
    ensures forall j :: 0 <= j < |e.books| && j != k ==> e.books[j].V() == f.views[j]
  {
    hide *;
    TouchedIs(e, f, k, names);
    Operated(e, f, k);
    ViewUpdated(e, f, k, v);
  }

  /** What an operation on book `b` may write does not include the other parts of the engine. */
  lemma FrameFacts(e: MatchingEngine, out: OutputBuffer, b: Book)
    requires Own(b) <= e.own && e.own !! e.Fixed() && e.Apart() && Separate(e, out)
    ensures var w := Own(b) + {e.pool, e.pool.orders, e.pool.freeList, out, out.messages};
            && e !in w && e.symbols !in w && e.symbols.slots !in w && e.tracking !in w && e.tracking.slots !in w
            && (e.own - Own(b)) !! w
  {
  }

  lemma SameEntry(v: map<string, PriceTime.Book>, s: string)
    ensures s in v ==> v[s := v[s]] == v
  {
  }

  lemma OwnAtIs(books: seq<Book>, k: nat)
    requires k < |books|
    ensures OwnAt(books, k) == Own(books[k])
  {
  }

  lemma BookWf(b: Book)
    requires b.Valid()
    ensures b.pool.Valid()
  {
    hide Coherent, NoneEmpty;
  }

  /** The parts of the engine that an operation on book `k` leaves alone. */
  ghost predicate Rest(e: MatchingEngine, out: OutputBuffer, f: Moment, k: nat)
    reads e, e.own - OwnAt(e.books, k), e.symbols, e.symbols.slots, e.tracking, e.tracking.slots
  {
    && LayoutOf(e.books, e.own, e.pool, e.Fixed()) && e.own !! e.Fixed() && e.Apart() && Separate(e, out)
    && k < |e.books| && Own(e.books[k]) <= e.own && e.books[k].pool == e.pool
    && e.symbols.Valid() && e.tracking.Valid() && (forall i: nat :: e.bookHash(i) < ORDER_MAP_SIZE)
    && Matches(e.symbols.m, e.Names())
    && OthersThere(e.books, e.own, e.pool, e.Fixed(), f, k)
  }

  lemma RestNow(e: MatchingEngine, out: OutputBuffer, k: nat)
    requires e.Valid() && Separate(e, out) && k < |e.books|
    ensures Rest(e, out, e.Now(), k)
  {
    hide MatchingEngine.Valid, MatchingEngine.E, Book.V, Book.Valid, Matches, Consistent, OthersThere, LayoutOf, Pool.Valid,
      SymbolMap.Valid, ProbeMap.Valid, Separate, MatchingEngine.Now;
    Before(e, k);
  }

  /** What an operation on book `k` may write is disjoint from what `Rest` reads. */
  lemma RestFrame(e: MatchingEngine, out: OutputBuffer, f: Moment, k: nat)
    requires Rest(e, out, f, k)
    ensures k < |e.books| && e.books[k].pool == e.pool && Own(e.books[k]) <= e.own && OwnAt(e.books, k) == Own(e.books[k])
    ensures var w := Own(e.books[k]) + {e.pool, e.pool.orders, e.pool.freeList, out, out.messages};
            && e !in w && e.symbols !in w && e.symbols.slots !in w && e.tracking !in w && e.tracking.slots !in w
            && (e.own - Own(e.books[k])) !! w
  {
    hide OthersThere, LayoutOf, Matches, SymbolMap.Valid, ProbeMap.Valid;
    FrameFacts(e, out, e.books[k]);
  }

  /** The book can take the order without tripping an assertion of the source. */
  ghost predicate CanTake(b: Book, o: NewOrder)
    requires b.Valid()
    reads b, b.bids, b.bids.slots, b.asks, b.asks.slots, b.orderMap, b.orderMap.slots, b.pool, b.pool.orders, b.pool.freeList
  {
    b.pool.free != [] ==> o.quantity > 0 && (PriceTime.Rests(b.V(), o) ==> BookOps.Fits(b, o))
  }

  method RunAdd(e: MatchingEngine, out: OutputBuffer, b: Book, k: nat, o: NewOrder, ghost f: Moment)
    requires Rest(e, out, f, k) && e.books[k] == b && b.Valid() && out.Valid()
    requires CanTake(b, o)
    modifies Own(b), b.pool, b.pool.orders, b.pool.freeList, out, out.messages
    ensures Rest(e, out, f, k) && e.books == old(e.books) && e.own == old(e.own)
    ensures e.symbols.m == old(e.symbols.m) && e.tracking.m == old(e.tracking.m)
    ensures b.Valid() && out.Valid()
    ensures old(b.pool.free) == [] ==> b.V() == old(b.V()) && out.sent == old(out.sent)
    ensures old(b.pool.free) != [] ==>
      && b.V() == PriceTime.AddOrder(old(b.V()), o).book
      && out.sent == Keep(old(out.sent) + PriceTime.AddOrder(old(b.V()), o).msgs)
    ensures BookOps.Slots(b.S()) == old(BookOps.Slots(b.S()))
    ensures BookOps.Elsewhere(old(b.pool.os), b.pool.os, old(BookOps.Slots(b.S())))
    ensures old(Idle(e.books)) ==> Idle(e.books)
  {
    hide Rest, Book.Valid, Book.V, Book.S, OutputBuffer.Valid, Keep, PriceTime.AddOrder, PriceTime.Rests, BookOps.Fits,
      BookOps.Slots, BookOps.Elsewhere, OwnAt;
    RestFrame(e, out, f, k);
    BooksApart(e, out, f, k);
    BookOps.AddOrder(b, out, o);
  }

  /** The engine again, after an operation that kept the slots of book `k` together. */
  lemma RestAfter(e: MatchingEngine, out: OutputBuffer, f: Moment, k: nat, v: map<string, PriceTime.Book>)
    requires Rest(e, out, f, k) && e.books[k].Valid() && Consistent(f) && |f.snaps| == |f.views| == |e.books|
    requires BookOps.Slots(e.books[k].S()) == BookOps.Slots(f.snaps[k])
    requires BookOps.Elsewhere(f.os, e.pool.os, BookOps.Slots(f.snaps[k]))
    requires v.Keys == e.symbols.m.Keys && forall s :: s in v ==> e.symbols.m[s] < |f.views| && v[s] == f.views[e.symbols.m[s]]
    ensures e.Valid() && e.E() == v[e.books[k].symbol := e.books[k].V()] && Separate(e, out)
    ensures forall j :: 0 <= j < |e.books| && j != k ==> e.books[j].V() == f.views[j]
  {
    hide Consistent, Book.Valid, Book.V, Book.S, BookOps.Slots, BookOps.Elsewhere, OthersThere, LayoutOf, Matches, SymbolMap.Valid,
      ProbeMap.Valid, Pool.Valid, Separate;
    BookWf(e.books[k]);
    LayoutIs(e);
    Afterwards(e, f, k, e.Names(), v);
  }

  /** What the start of an operation on book `k` needs. */
  lemma RestBefore(e: MatchingEngine, out: OutputBuffer, k: nat)
    requires e.Valid() && Separate(e, out) && k < |e.books|
    ensures e.Layout() && Rest(e, out, e.Now(), k) && e.books[k].Valid() && e.books[k].pool == e.pool
    ensures Own(e.books[k]) <= e.own && Consistent(e.Now())
    ensures e.E().Keys == e.symbols.m.Keys
    ensures forall s :: s in e.E() ==> e.symbols.m[s] < |e.books| && e.E()[s] == e.Now().views[e.symbols.m[s]]
    ensures e.books[k].symbol in e.E() && e.E()[e.books[k].symbol] == e.books[k].V()
  {
    hide *;
    Before(e, k);
    RestNow(e, out, k);
  }

  /** Add an order to book `k`. */
  method AddTo(e: MatchingEngine, out: OutputBuffer, b: Book, k: nat, o: NewOrder)
    requires e.Valid() && out.Valid() && Separate(e, out) && k < |e.books| && e.books[k] == b && b.Valid()
    requires CanTake(b, o)
    modifies e.own, e.pool, e.pool.orders, e.pool.freeList, out, out.messages
    ensures e.Valid() && out.Valid() && Separate(e, out) && e.tracking.m == old(e.tracking.m) && e.books == old(e.books)
    ensures old(e.pool.free) == [] ==> e.E() == old(e.E()) && out.sent == old(out.sent)
    ensures old(e.pool.free) != [] ==>
      var r := PriceTime.AddOrder(old(b.V()), o);
      e.E() == old(e.E())[b.symbol := r.book] && out.sent == Keep(old(out.sent) + r.msgs)
    ensures old(Idle(e.books)) ==> Idle(e.books)
    ensures e.own == old(e.own)
  {
    hide *;
    RestBefore(e, out, k);
    ghost var f, v := e.Now(), e.E();
    RunAdd(e, out, b, k, o, f);
    RestAfter(e, out, f, k, v);
    SameEntry(v, b.symbol);
  }

  // ----- Tracking keys -----

  /** The engine without its key map. */
  ghost predicate Untracked(e: MatchingEngine)
    reads e, e.own, e.pool, e.pool.orders, e.pool.freeList, e.symbols, e.symbols.slots
  {
    && e.Layout() && e.pool.Valid() && e.symbols.Valid()
    && (forall k: nat :: e.bookHash(k) < ORDER_MAP_SIZE)
    && Matches(e.symbols.m, e.Names())
    && (forall i :: 0 <= i < |e.books| ==> Own(e.books[i]) <= e.own && e.books[i].Valid())
    && Partition(e.pool.free, e.HeldBy())
  }

  lemma UntrackedIs(e: MatchingEngine)
    ensures e.Valid() <==> Untracked(e) && e.tracking.Valid()
  {
    hide Pool.Valid, SymbolMap.Valid, ProbeMap.Valid, Matches, Partition, Book.Valid, Held, LayoutOf;
  }

  lemma LayoutHolds(e: MatchingEngine)
    requires e.Valid()
    ensures e.Layout()
  {
    hide MatchingEngine.Valid;
    EngineParts(e);
  }

  /** The abstract engine is determined by the books and the symbol table. */
  lemma ViewIs(e: MatchingEngine, m: map<string, nat>, f: Moment, v: map<string, PriceTime.Book>)
    requires e.Valid() && e.Now() == f && e.symbols.m == m && v.Keys == m.Keys
    requires forall s :: s in v ==> m[s] < |f.views| && v[s] == f.views[m[s]]
    ensures e.E() == v
  {
    hide *;
    LayoutHolds(e);
    forall s: string
      ensures (s in e.E() <==> s in v) && (s in v ==> e.E()[s] == v[s])
    {
      EngineViewAt(e, s);
    }
  }

  lemma TrackingFrame(e: MatchingEngine)
    requires e.Valid()
    ensures e.Layout() && e.tracking !in e.own && e.tracking.slots !in e.own
    ensures {e.tracking, e.tracking.slots} !! {e, e.pool, e.pool.orders, e.pool.freeList, e.symbols, e.symbols.slots}
    ensures e.E().Keys == e.symbols.m.Keys
    ensures forall s :: s in e.E() ==> e.symbols.m[s] < |e.books| && e.E()[s] == e.Now().views[e.symbols.m[s]]
  {
    hide MatchingEngine.Valid, MatchingEngine.E, Book.V, Book.Valid, Matches, LayoutOf, Pool.Valid, SymbolMap.Valid, ProbeMap.Valid;
    EngineParts(e);
    EngineView(e);
  }

  /** Remember the symbol of an order key; nothing happens when the probe window is full. */
  method Track(e: MatchingEngine, key: nat, symbol: string)
    requires e.Valid() && !Sentinel(key) && e.tracking.Valid() && Trackable(e, key)
    modifies e.tracking, e.tracking.slots
    ensures e.Valid() && e.E() == old(e.E()) && e.books == old(e.books) && e.own == old(e.own)
    ensures e.tracking.m == if old(Roomy(e, key)) then old(e.tracking.m)[key := Tracked(symbol)] else old(e.tracking.m)
    ensures old(Idle(e.books)) ==> Idle(e.books)
  {
    hide *;
    UntrackedIs(e);
    TrackingFrame(e);
    RoomyIs(e, key);
    TrackableIs(e, key);
    ghost var f, m, v := e.Now(), e.symbols.m, e.E();
    var ok := e.tracking.Insert(key, Tracked(symbol));
    assert Untracked(e) && e.Now() == f;
    UntrackedIs(e);
    ViewIs(e, m, f, v);
  }

  /** The key map has a slot left for this key, or holds it already. */
  ghost predicate Roomy(e: MatchingEngine, key: nat)
    reads e.tracking
  {
    && e.tracking.limit <= |e.tracking.t| && e.tracking.hash(key) < |e.tracking.t|
    && (key in e.tracking.m || ProbeTable.Room(e.tracking.t, e.tracking.hash(key), e.tracking.limit, {}))
  }

  lemma RoomyIs(e: MatchingEngine, key: nat)
    requires e.tracking.Valid()
    ensures e.tracking.limit <= |e.tracking.t| && e.tracking.hash(key) < |e.tracking.t|
    ensures Roomy(e, key)
       <==> key in e.tracking.m || ProbeTable.Room(e.tracking.t, e.tracking.hash(key), e.tracking.limit, {})
  {
    hide ProbeMap.Valid, ProbeTable.Room;
  }

  /** Tracking the key leaves it tracked once: it is new, or replaces what is known of it. */
  ghost predicate Trackable(e: MatchingEngine, key: nat)
    requires e.tracking.Valid()
    reads e.tracking, e.tracking.slots
  {
    key !in e.tracking.m || e.tracking.Replaces(key)
  }

  lemma TrackableIs(e: MatchingEngine, key: nat)
    requires e.tracking.Valid()
    ensures Trackable(e, key) <==> key !in e.tracking.m || e.tracking.Replaces(key)
  {
    hide ProbeMap.Valid, ProbeMap.Replaces;
  }

  // ----- New orders -----

  /** A new book can take any order with a usable key. */
  lemma BlankTakes(b: Book, o: NewOrder)
    requires b.Valid() && Blank(b) && b.V() == PriceTime.EmptyBook(b.symbol) && o.quantity > 0 && !Sentinel(Key(o.user, o.oid))
    ensures CanTake(b, o)
  {
    hide Book.Valid, Coherent, PriceTime.Rests;
    BookOps.FitsIs(b, o);
    assert RoomAt(b.orderMap.t, b.orderMap.hash(Key(o.user, o.oid)), 0, {}) ==> ProbeTable.Room(b.orderMap.t, b.orderMap.hash(Key(o.user, o.oid)), b.orderMap.limit, PriceTime.FilledKeys(o, o.quantity, []));
    NoLevels(b, o.side);
  }

  lemma NoLevels(b: Book, side: Side)
    requires b.Valid() && b.V().At(side) == []
    ensures b.At(side).levels == []
  {
    hide FlatView;
    BookOps.ValidParts(b);
    BookOps.BestIs(b.S(), side);
  }

  lemma BookFrame(e: MatchingEngine, k: nat)
    requires e.Valid() && k < |e.books|
    ensures e.books[k].pool == e.pool && e.books[k].Valid()
    ensures Own(e.books[k]) + {e.pool, e.pool.orders, e.pool.freeList} !! {e, e.symbols, e.symbols.slots, e.tracking, e.tracking.slots}
  {
    hide MatchingEngine.Valid, Book.Valid, Matches, LayoutOf, Pool.Valid, SymbolMap.Valid, ProbeMap.Valid;
    EngineParts(e);
  }

  /** The book that will take the order can do so, or will be opened for it.  The source asserts
      that an order of the empty symbol finds some book. */
  ghost predicate Ready(e: MatchingEngine, symbol: string, o: NewOrder)
    requires e.Valid()
    reads e, e.own, e.pool, e.pool.orders, e.pool.freeList, e.symbols, e.symbols.slots, e.tracking, e.tracking.slots
  {
    EngineViewAt(e, Home(e, symbol));
    EngineParts(e);
    && (symbol == "" ==> e.books != [])
    && (Shut(e, symbol)
        || if Home(e, symbol) in e.symbols.m then CanTake(e.books[e.symbols.m[Home(e, symbol)]], o) else o.quantity > 0)
  }

  /** The symbols of the books once a symbol has its book. */
  function Opened(names: seq<string>, symbol: string): seq<string> {
    if symbol in names then names else names + [symbol]
  }

  /** Find or open the book that takes an order. */
  method GetReady(e: MatchingEngine, symbol: string, ghost o: NewOrder) returns (k: int)
    requires e.Valid() && Name(symbol) && Ready(e, symbol, o) && !Sentinel(Key(o.user, o.oid))
    modifies e`books, e`own, e.symbols, e.symbols.slots
    ensures e.Valid() && (k == -1 <==> old(Shut(e, symbol)))
    ensures k == -1 ==> e.E() == old(e.E()) && e.own == old(e.own) && e.books == old(e.books)
    ensures k != -1 ==> 0 <= k < |e.books| && e.books[k].symbol == old(Home(e, symbol)) && e.books[k].Valid()
    ensures k != -1 ==> e.books[k].V() == BookOf(old(e.E()), old(Home(e, symbol))) && CanTake(e.books[k], o)
    ensures k != -1 ==> e.E() == old(e.E())[old(Home(e, symbol)) := BookOf(old(e.E()), old(Home(e, symbol)))]
    ensures k != -1 ==> e.Names() == Opened(old(e.Names()), old(Home(e, symbol)))
    ensures fresh(e.own - old(e.own))
    ensures (old(Idle(e.books)) ==> Idle(e.books)) && (old(Standard(e.books)) ==> Standard(e.books))
  {
    hide *;
    ReadyIs(e, symbol, o);
    ghost var home := Home(e, symbol);
    EngineViewAt(e, home);
    EngineSize(e);
    BookOfIs(e.E(), home);
    ghost var found := if home in e.symbols.m then e.symbols.m[home] else 0;
    if home in e.symbols.m {
      BookFrame(e, found);
    }
    ghost var books := e.books;
    OpenedIs(e, home);
    k := GetBook(e, symbol);
    if k != -1 {
      BookFrame(e, k);
      if home in old(e.symbols.m) {
        assert k == found && e.books[k] == books[k];
        assert e.Names() == old(e.Names());
      } else {
        BlankTakes(e.books[k], o);
        assert e.Names() == old(e.Names()) + [home];
      }
    }
  }

  lemma OpenedIs(e: MatchingEngine, symbol: string)
    requires e.Valid()
    ensures Opened(e.Names(), symbol) == if symbol in e.symbols.m then e.Names() else e.Names() + [symbol]
  {
    hide MatchingEngine.Valid, MatchingEngine.E, Book.V;
    EngineView(e);
    NamesMatch(e.symbols.m, e.Names());
  }

  lemma EngineSize(e: MatchingEngine)
    requires e.Valid()
    ensures |e.E()| == |e.books|
  {
    hide MatchingEngine.Valid, MatchingEngine.E, Book.V;
    EngineView(e);
    KeysSize(e.E(), e.symbols.m);
  }

  lemma ReadyIs(e: MatchingEngine, symbol: string, o: NewOrder)
    requires e.Valid() && Ready(e, symbol, o)
    ensures symbol == "" ==> e.books != []
    ensures !Shut(e, symbol) && Home(e, symbol) in e.symbols.m ==>
      && e.symbols.m[Home(e, symbol)] < |e.books| && e.books[e.symbols.m[Home(e, symbol)]].Valid()
      && CanTake(e.books[e.symbols.m[Home(e, symbol)]], o)
    ensures !Shut(e, symbol) && Home(e, symbol) !in e.symbols.m ==> o.quantity > 0
  {
    hide MatchingEngine.Valid, Book.Valid, CanTake, Shut, Home;
    EngineViewAt(e, Home(e, symbol));
    EngineParts(e);
  }

  /** A new order: find or open its book, track its key, and add it.  An order that no book
      takes is acknowledged and dropped. */
  method ProcessNewOrder(e: MatchingEngine, out: OutputBuffer, symbol: string, o: NewOrder)
    requires e.Valid() && out.Valid() && Separate(e, out) && Name(symbol) && Ready(e, symbol, o)
    requires !Sentinel(Key(o.user, o.oid)) && e.tracking.Valid() && Trackable(e, Key(o.user, o.oid))
    modifies e, e.own, e.pool, e.pool.orders, e.pool.freeList, e.symbols, e.symbols.slots, e.tracking, e.tracking.slots
    modifies out, out.messages
    ensures e.Valid() && out.Valid() && Separate(e, out)
    ensures old(Shut(e, symbol)) ==>
      && e.E() == old(e.E()) && e.books == old(e.books) && e.tracking.m == old(e.tracking.m)
      && out.sent == Keep(old(out.sent) + [Ack(symbol, o.user, o.oid)])
    ensures !old(Shut(e, symbol)) ==>
      && e.books != [] && e.Names() == Opened(old(e.Names()), old(Home(e, symbol)))
      && e.tracking.m == if old(Roomy(e, Key(o.user, o.oid))) then old(e.tracking.m)[Key(o.user, o.oid) := Tracked(symbol)]
                         else old(e.tracking.m)
    ensures old(Anchored(e.tracking.m, |e.books|)) ==> Anchored(e.tracking.m, |e.books|)
    ensures !old(Shut(e, symbol)) && old(e.pool.free) == [] ==>
      e.E() == old(e.E())[old(Home(e, symbol)) := BookOf(old(e.E()), old(Home(e, symbol)))] && out.sent == old(out.sent)
    ensures !old(Shut(e, symbol)) && old(e.pool.free) != [] ==>
      var r := PriceTime.AddOrder(BookOf(old(e.E()), old(Home(e, symbol))), o);
      e.E() == old(e.E())[old(Home(e, symbol)) := r.book] && out.sent == Keep(old(out.sent) + r.msgs)
    ensures (old(Idle(e.books)) ==> Idle(e.books)) && (old(Standard(e.books)) ==> Standard(e.books))
    ensures fresh(e.own - old(e.own))
  {
    hide *;
    ghost var v, home, key := e.E(), Home(e, symbol), Key(o.user, o.oid);
    OutFrame(e, out);
    UntrackedIs(e);
    TrackingFrame(e);
    ghost var roomy, m := Roomy(e, key), e.tracking.m;
    var k := GetReady(e, symbol, o);
    assert out !in e.own - old(e.own) && out.messages !in e.own - old(e.own);
    SeparateIs(e, out);
    if k == -1 {
      out.Add(Ack(symbol, o.user, o.oid));
      return;
    }
    var b := e.books[k];
    BookFrame(e, k);
    OutFrame(e, out);
    UntrackedIs(e);
    Track(e, Key(o.user, o.oid), symbol);
    AnchoredSome(e.tracking.m, |e.books|);
    AddTo(e, out, b, k, o);
    TwiceEntry(v, home, BookOf(v, home), PriceTime.AddOrder(BookOf(v, home), o).book);
  }

  /** The output buffer is untouched by anything that happens inside the engine. */
  lemma OutFrame(e: MatchingEngine, out: OutputBuffer)
    requires Separate(e, out)
    ensures out !in e.own && out.messages !in e.own
    ensures {out, out.messages} !! {e, e.pool, e.pool.orders, e.pool.freeList, e.symbols, e.symbols.slots, e.tracking, e.tracking.slots}
  {
  }

  lemma SeparateIs(e: MatchingEngine, out: OutputBuffer)
    requires out !in e.own && out.messages !in e.own
    requires {out, out.messages} !! {e, e.pool, e.pool.orders, e.pool.freeList, e.symbols, e.symbols.slots, e.tracking, e.tracking.slots}
    ensures Separate(e, out)
  {
  }

  lemma TwiceEntry(v: map<string, PriceTime.Book>, s: string, w: PriceTime.Book, x: PriceTime.Book)
    ensures v[s := w][s := x] == v[s := x]
  {
  }

  // ----- Cancels -----

  method RunCancel(e: MatchingEngine, out: OutputBuffer, b: Book, k: nat, user: u32, oid: u32, ghost f: Moment)
    requires Rest(e, out, f, k) && e.books[k] == b && b.Valid() && out.Valid()
    modifies Own(b), b.pool, b.pool.orders, b.pool.freeList, out, out.messages
    ensures Rest(e, out, f, k) && e.books == old(e.books) && e.own == old(e.own)
    ensures e.symbols.m == old(e.symbols.m) && e.tracking.m == old(e.tracking.m)
    ensures b.Valid() && out.Valid() && b.V() == PriceTime.CancelOrder(old(b.V()), user, oid).book
    ensures out.sent == Keep(old(out.sent) + PriceTime.CancelOrder(old(b.V()), user, oid).msgs)
    ensures BookOps.Slots(b.S()) == old(BookOps.Slots(b.S()))
    ensures BookOps.Elsewhere(old(b.pool.os), b.pool.os, old(BookOps.Slots(b.S())))
    ensures old(Idle(e.books)) ==> Idle(e.books)
  {
    hide Rest, Book.Valid, Book.V, Book.S, OutputBuffer.Valid, Keep, PriceTime.CancelOrder, BookOps.Slots, BookOps.Elsewhere, OwnAt;
    RestFrame(e, out, f, k);
    BooksApart(e, out, f, k);
    Cancelling.CancelOrder(b, out, user, oid);
  }

  /** Cancel an order in book `k`. */
  method CancelIn(e: MatchingEngine, out: OutputBuffer, k: nat, user: u32, oid: u32, ghost symbol: string)
    requires e.Valid() && out.Valid() && Separate(e, out) && k < |e.books| && e.books[k].symbol == symbol && symbol in e.E()
    modifies e.own, e.pool, e.pool.orders, e.pool.freeList, out, out.messages
    ensures e.Valid() && out.Valid() && Separate(e, out) && e.tracking.m == old(e.tracking.m) && e.books == old(e.books)
    ensures var r := PriceTime.CancelOrder(old(e.E())[symbol], user, oid);
            e.E() == old(e.E())[symbol := r.book] && out.sent == Keep(old(out.sent) + r.msgs)
    ensures old(Idle(e.books)) ==> Idle(e.books)
    ensures e.own == old(e.own)
  {
    hide *;
    RestBefore(e, out, k);
    ghost var f, v := e.Now(), e.E();
    var b := e.books[k];
    RunCancel(e, out, b, k, user, oid, f);
    RestAfter(e, out, f, k, v);
  }

  /** Forget a key. */
  method Untrack(e: MatchingEngine, key: nat)
    requires e.Valid()
    modifies e.tracking, e.tracking.slots
    ensures e.Valid() && e.E() == old(e.E()) && e.tracking.m == old(e.tracking.m) - {key}
    ensures e.books == old(e.books) && e.own == old(e.own)
    ensures old(Idle(e.books)) ==> Idle(e.books)
  {
    hide *;
    UntrackedIs(e);
    TrackingFrame(e);
    ghost var f, m, v := e.Now(), e.symbols.m, e.E();
    var found := e.tracking.Remove(key);
    assert Untracked(e) && e.Now() == f;
    UntrackedIs(e);
    ViewIs(e, m, f, v);
  }

  /** An order of the empty symbol is tracked only when there is some book. */
  ghost predicate Anchored(m: map<nat, string>, books: nat) {
    books == 0 ==> forall key :: key in m ==> m[key] != ""
  }

  lemma AnchoredIs(m: map<nat, string>, books: nat, key: nat)
    requires Anchored(m, books)
    ensures key in m && m[key] == "" ==> books > 0
    ensures Anchored(m - {key}, books)
  {
  }

  lemma AnchoredSome(m: map<nat, string>, books: nat)
    ensures books > 0 ==> Anchored(m, books)
  {
  }

  /** A lookup of the symbol meets a book. */
  ghost predicate Known(e: MatchingEngine, symbol: string)
    requires e.Valid()
    reads e, e.own, e.pool, e.pool.orders, e.pool.freeList, e.symbols, e.symbols.slots, e.tracking, e.tracking.slots
  {
    if symbol == "" then e.symbols.Gap() else symbol in e.symbols.m
  }

  lemma KnownIs(e: MatchingEngine, symbol: string)
    requires e.Valid()
    ensures e.symbols.Valid()
    ensures Known(e, symbol) <==> if symbol == "" then e.symbols.Gap() else symbol in e.symbols.m
  {
    hide SymbolMap.Gap;
    EngineParts(e);
  }

  /** Cancel by key: look up the order's symbol, cancel in that symbol's book, forget the key.
      Whatever is not found is acknowledged all the same. */
  method ProcessCancel(e: MatchingEngine, out: OutputBuffer, user: u32, oid: u32)
    requires e.Valid() && out.Valid() && Separate(e, out) && Anchored(e.tracking.m, |e.books|)
    modifies e.own, e.pool, e.pool.orders, e.pool.freeList, e.tracking, e.tracking.slots, out, out.messages
    ensures e.Valid() && out.Valid() && Separate(e, out) && e.tracking.m == old(e.tracking.m) - {Key(user, oid)}
    ensures e.books == old(e.books) && Anchored(e.tracking.m, |e.books|)
    ensures Key(user, oid) !in old(e.tracking.m) ==>
      e.E() == old(e.E()) && out.sent == Keep(old(out.sent) + [CancelAck("UNKNOWN", user, oid)])
    ensures Key(user, oid) in old(e.tracking.m) ==>
      var s := old(e.tracking.m)[Key(user, oid)];
      if old(Known(e, s)) then
        && old(Home(e, s)) in old(e.E())
        && var r := PriceTime.CancelOrder(old(e.E())[old(Home(e, s))], user, oid);
           e.E() == old(e.E())[old(Home(e, s)) := r.book] && out.sent == Keep(old(out.sent) + r.msgs)
      else e.E() == old(e.E()) && out.sent == Keep(old(out.sent) + [CancelAck(s, user, oid)])
    ensures old(Idle(e.books)) ==> Idle(e.books)
    ensures e.own == old(e.own)
  {
    hide *;
    var key := Key(user, oid);
    EngineParts(e);
    OutFrame(e, out);
    AnchoredIs(e.tracking.m, |e.books|, key);
    var idx := e.tracking.Find(key);
    if idx == -1 {
      out.Add(CancelAck("UNKNOWN", user, oid));
      assert e.tracking.m - {key} == e.tracking.m;
      return;
    }
    var symbol := e.tracking.Get(idx).value;
    HomeIs(e, symbol);
    KnownIs(e, symbol);
    EngineViewAt(e, Home(e, symbol));
    var k := e.symbols.Find(symbol);
    if k == -1 {
      out.Add(CancelAck(symbol, user, oid));
      Untrack(e, key);
      return;
    }
    CancelIn(e, out, k, user, oid, Home(e, symbol));
    OutFrame(e, out);
    Untrack(e, key);
  }

  // ----- Cancelling a client's orders everywhere -----

  method RunCancelClient(e: MatchingEngine, out: OutputBuffer, b: Book, k: nat, client: u32, ghost f: Moment) returns (count: nat)
    requires Rest(e, out, f, k) && e.books[k] == b && b.Valid() && out.Valid()
    modifies Own(b), b.pool, b.pool.orders, b.pool.freeList, out, out.messages
    ensures Rest(e, out, f, k) && e.books == old(e.books) && e.own == old(e.own)
    ensures e.symbols.m == old(e.symbols.m) && e.tracking.m == old(e.tracking.m)
    ensures b.Valid() && out.Valid() && b.V() == PriceTime.CancelClient(old(b.V()), client).book
    ensures out.sent == Keep(old(out.sent) + PriceTime.CancelClient(old(b.V()), client).msgs)
    ensures count == |PriceTime.Collected(old(b.V()), client)|
    ensures BookOps.Slots(b.S()) == old(BookOps.Slots(b.S()))
    ensures BookOps.Elsewhere(old(b.pool.os), b.pool.os, old(BookOps.Slots(b.S())))
    ensures old(Idle(e.books)) ==> Idle(e.books)
  {
    hide Rest, Book.Valid, Book.V, Book.S, OutputBuffer.Valid, Keep, PriceTime.CancelClient, BookOps.Slots, BookOps.Elsewhere, OwnAt;
    RestFrame(e, out, f, k);
    BooksApart(e, out, f, k);
    count := ClientCancel.CancelClient(b, out, client);
  }

  method CancelClientIn(e: MatchingEngine, out: OutputBuffer, k: nat, client: u32, ghost symbol: string) returns (count: nat)
    requires e.Valid() && out.Valid() && Separate(e, out) && k < |e.books| && e.books[k].symbol == symbol && symbol in e.E()
    modifies e.own, e.pool, e.pool.orders, e.pool.freeList, out, out.messages
    ensures e.Valid() && out.Valid() && Separate(e, out) && e.tracking.m == old(e.tracking.m)
    ensures e.books == old(e.books) && e.own == old(e.own)
    ensures var r := PriceTime.CancelClient(old(e.E())[symbol], client);
            e.E() == old(e.E())[symbol := r.book] && out.sent == Keep(old(out.sent) + r.msgs)
    ensures count == |PriceTime.Collected(old(e.E())[symbol], client)|
    ensures old(Idle(e.books)) ==> Idle(e.books)
  {
    hide *;
    RestBefore(e, out, k);
    ghost var f, v := e.Now(), e.E();
    var b := e.books[k];
    count := RunCancelClient(e, out, b, k, client, f);
    RestAfter(e, out, f, k, v);
  }

  /** The books after the client's orders are cancelled in those named in `done`. */
  ghost function Swept(v: map<string, PriceTime.Book>, done: seq<string>, client: u32): map<string, PriceTime.Book> {
    map s | s in v :: if s in done then PriceTime.CancelClient(v[s], client).book else v[s]
  }

  ghost function SweptMsgs(v: map<string, PriceTime.Book>, done: seq<string>, client: u32): seq<Msg>
    requires forall s :: s in done ==> s in v
  {
    if done == [] then []
    else SweptMsgs(v, done[..|done| - 1], client) + PriceTime.CancelClient(v[done[|done| - 1]], client).msgs
  }

  ghost function SweptCount(v: map<string, PriceTime.Book>, done: seq<string>, client: u32): nat
    requires forall s :: s in done ==> s in v
  {
    if done == [] then 0
    else SweptCount(v, done[..|done| - 1], client) + |PriceTime.Collected(v[done[|done| - 1]], client)|
  }

  lemma SweptNext(v: map<string, PriceTime.Book>, names: seq<string>, i: nat, client: u32, sent: seq<Msg>)
    requires i < |names| && Distinct(names) && forall s :: s in names ==> s in v
    ensures var s := names[i];
            && s in v && Swept(v, names[..i], client)[s] == v[s]
            && Swept(v, names[..i + 1], client) == Swept(v, names[..i], client)[s := PriceTime.CancelClient(v[s], client).book]
            && Keep(Keep(sent + SweptMsgs(v, names[..i], client)) + PriceTime.CancelClient(v[s], client).msgs)
               == Keep(sent + SweptMsgs(v, names[..i + 1], client))
            && SweptCount(v, names[..i + 1], client)
               == SweptCount(v, names[..i], client) + |PriceTime.Collected(v[s], client)|
  {
    hide PriceTime.CancelClient, PriceTime.Collected, Keep;
    assert names[..i + 1] == names[..i] + [names[i]] && names[..i + 1][..i] == names[..i];
    KeepAppend(sent, SweptMsgs(v, names[..i], client), PriceTime.CancelClient(v[names[i]], client).msgs);
  }

  lemma SweptNone(v: map<string, PriceTime.Book>, names: seq<string>, client: u32, out: OutputBuffer)
    requires out.Valid()
    ensures Swept(v, names[..0], client) == v && SweptMsgs(v, names[..0], client) == [] && SweptCount(v, names[..0], client) == 0
    ensures out.sent == Keep(out.sent + [])
  {
    assert out.sent + [] == out.sent;
  }

  lemma NamesMatch(m: map<string, nat>, names: seq<string>)
    requires forall s :: s in m ==> m[s] < |names| && names[m[s]] == s
    requires forall i :: 0 <= i < |names| ==> names[i] in m && m[names[i]] == i
    ensures Distinct(names) && forall s :: s in names <==> s in m
  {
    forall s
      ensures s in names <==> s in m
    {
      if s in m {
        assert names[m[s]] == s;
      }
    }
  }

  lemma NamesOf(e: MatchingEngine)
    requires e.Valid()
    ensures Distinct(e.Names()) && forall s :: s in e.Names() <==> s in e.E()
  {
    hide MatchingEngine.Valid, MatchingEngine.E, Book.V;
    EngineView(e);
    NamesMatch(e.symbols.m, e.Names());
  }

  /** Cancel a client's orders in every book, in the order the books were opened. */
  method CancelClientOrders(e: MatchingEngine, out: OutputBuffer, client: u32) returns (total: nat)
    requires e.Valid() && out.Valid() && Separate(e, out)
    modifies e.own, e.pool, e.pool.orders, e.pool.freeList, out, out.messages
    ensures e.Valid() && out.Valid() && Separate(e, out) && e.tracking.m == old(e.tracking.m) && e.books == old(e.books)
    ensures e.E() == map s | s in old(e.E()) :: PriceTime.CancelClient(old(e.E())[s], client).book
    ensures forall s :: s in old(e.Names()) ==> s in old(e.E())
    ensures out.sent == Keep(old(out.sent) + SweptMsgs(old(e.E()), old(e.Names()), client))
    ensures total == SweptCount(old(e.E()), old(e.Names()), client)
    ensures old(Idle(e.books)) ==> Idle(e.books)
    ensures e.own == old(e.own)
  {
    hide *;
    ghost var v, names, books, sent := e.E(), e.Names(), e.books, out.sent;
    NamesOf(e);
    SweptNone(v, names, client, out);
    total := 0;
    for i := 0 to |e.books|
      invariant e.Valid() && out.Valid() && Separate(e, out) && e.books == books && e.own == old(e.own)
      invariant e.tracking.m == old(e.tracking.m) && (old(Idle(e.books)) ==> Idle(e.books))
      invariant e.E() == Swept(v, names[..i], client) && total == SweptCount(v, names[..i], client)
      invariant out.sent == Keep(sent + SweptMsgs(v, names[..i], client))
    {
      SweptNext(v, names, i, client, sent);
      BookIndexedView(e, i);
      var count := CancelClientIn(e, out, i, client, names[i]);
      total := total + count;
    }
    assert names[..|books|] == names;
    SweptAll(v, names, client);
  }

  lemma BookIndexedView(e: MatchingEngine, k: nat)
    requires e.Valid() && k < |e.books|
    ensures e.books[k].symbol in e.E()
  {
    hide MatchingEngine.Valid, MatchingEngine.E, Book.V;
    EngineView(e);
  }

  lemma SweptAll(v: map<string, PriceTime.Book>, names: seq<string>, client: u32)
    requires forall s :: s in names <==> s in v
    ensures Swept(v, names, client) == map s | s in v :: PriceTime.CancelClient(v[s], client).book
  {
    hide PriceTime.CancelClient;
  }
}
