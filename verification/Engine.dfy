/** The multi-symbol engine: a symbol table, a book per symbol, one shared order pool,
    and a map from order keys to symbols for cancels. */
module Engine {
  import opened Orders
  import opened Sequences
  import PriceTime
  import opened OrderPool
  import opened PriceLevels
  import opened ProbeTable
  import opened SymbolTable
  import opened BookState
  import opened OrderBook
  import BookOps
  import Cancelling
  import ClientCancel

  const TRACKING_SLOTS: nat := 8192
  const TRACKING_PROBES: nat := 128

  /** The objects that belong to one book alone; all are fixed at construction. */
  ghost function Own(b: Book): set<object> {
    {b, b.bids, b.bids.slots, b.asks, b.asks.slots, b.orderMap, b.orderMap.slots}
  }

  ghost predicate LayoutOf(books: seq<Book>, own: set<object>, pool: Pool, fixed: set<object>) {
    && own !! fixed
    && (forall i :: 0 <= i < |books| ==> books[i].pool == pool && Own(books[i]) <= own)
    && (forall i, j :: 0 <= i < j < |books| ==> Own(books[i]) !! Own(books[j]))
  }

  lemma LayoutNew(books: seq<Book>, own: set<object>, pool: Pool, fixed: set<object>, b: Book)
    requires LayoutOf(books, own, pool, fixed) && b.pool == pool && Own(b) !! own + fixed
    ensures LayoutOf(books + [b], own + Own(b), pool, fixed)
  {
    hide Own;
  }

  /** The pool slots linked in a book. */
  ghost function Held(s: Snap): set<nat> {
    Elems(Flat(s.bids)) + Elems(Flat(s.asks))
  }

  /** The free slots and the slots held by each book are disjoint and cover the pool. */
  ghost predicate Partition(free: seq<nat>, held: seq<set<nat>>) {
    && (forall i :: 0 <= i < |held| ==> Elems(free) !! held[i])
    && (forall i, j :: 0 <= i < j < |held| ==> held[i] !! held[j])
    && (forall x: nat :: x < POOL ==> x in Elems(free) || exists i :: 0 <= i < |held| && x in held[i])
  }

  /** An operation that moves slots between one book and the free list keeps the partition. */
  lemma PartitionKept(free: seq<nat>, held: seq<set<nat>>, free': seq<nat>, held': seq<set<nat>>, k: nat)
    requires Partition(free, held) && k < |held| == |held'|
    requires forall i :: 0 <= i < |held| && i != k ==> held'[i] == held[i]
    requires Elems(free') + held'[k] == Elems(free) + held[k] && Elems(free') !! held'[k]
    ensures Partition(free', held')
  {
    forall x: nat | x < POOL
      ensures x in Elems(free') || exists i :: 0 <= i < |held'| && x in held'[i]
    {
      if x in Elems(free) || x in held[k] {
        assert x in Elems(free') + held'[k];
      } else {
        var i :| 0 <= i < |held| && x in held[i];
        assert x in held'[i];
      }
    }
    forall i, j | 0 <= i < j < |held'|
      ensures held'[i] !! held'[j]
    {
      assert held[i] !! held[j];
      if i == k {
        assert held'[i] <= Elems(free) + held[k];
      } else if j == k {
        assert held'[j] <= Elems(free) + held[k];
      }
    }
    forall i | 0 <= i < |held'|
      ensures Elems(free') !! held'[i]
    {
      if i != k {
        assert Elems(free') <= Elems(free) + held[k];
        if i < k { assert held[i] !! held[k]; } else { assert held[k] !! held[i]; }
      }
    }
  }

  lemma SlotsAre(s: Snap)
    ensures BookOps.Slots(s) == Elems(s.free) + Held(s)
  {
  }

  lemma CoherentApart(s: Snap)
    requires Coherent(s)
    ensures Elems(s.free) !! Held(s)
  {
    assert forall i: nat :: i in Held(s) ==> Linked(s, i);
  }

  /** What happens to the pool outside a book's own slots leaves the book as it is. */
  lemma OtherCoherent(s: Snap, s': Snap, own: set<nat>)
    requires Coherent(s) && s'.bids == s.bids && s'.asks == s.asks && s'.m == s.m
    requires BookOps.Elsewhere(s.os, s'.os, own) && Held(s) !! own && Elems(s'.free) <= own
    ensures Coherent(s') && FlatView(s', Buy) == FlatView(s, Buy) && FlatView(s', Sell) == FlatView(s, Sell)
  {
    assert forall i :: i in Flat(s.bids) ==> i in Held(s);
    assert forall i :: i in Flat(s.asks) ==> i in Held(s);
    SideFrame(s.os, s'.os, Buy, s.bids.levels, s.bids.ids);
    SideFrame(s.os, s'.os, Sell, s.asks.levels, s.asks.ids);
    IndexedFrame(s, s');
    assert HalfOk(s', Buy) && HalfOk(s', Sell);
    assert forall i: nat :: Linked(s', i) <==> Linked(s, i);
    forall i | i in s'.free
      ensures !Linked(s', i)
    {
      assert i in Elems(s'.free);
    }
  }

  /** The symbol table and the book array index each other. */
  ghost predicate Matches(m: map<string, nat>, symbols: seq<string>) {
    && |symbols| <= MAX_SYMBOLS && |m| == |symbols|
    && (forall s :: s in m ==> m[s] < |symbols| && symbols[m[s]] == s)
    && (forall i :: 0 <= i < |symbols| ==> symbols[i] in m && m[symbols[i]] == i)
  }

  lemma MatchesNew(m: map<string, nat>, symbols: seq<string>, s: string)
    requires Matches(m, symbols) && s !in m && |symbols| < MAX_SYMBOLS
    ensures Matches(m[s := |symbols|], symbols + [s])
  {
    var m' := m[s := |symbols|];
    assert |m'| == |m| + 1 by { assert m'.Keys == m.Keys + {s}; }
  }

  /** What the order-to-symbol map keeps of a symbol: its first 14 characters. */
  function Tracked(symbol: string): (r: string)
    ensures |r| <= 14 && r <= symbol
    ensures r == symbol <==> |symbol| <= 14
  {
    if |symbol| >= 15 then symbol[..14] else symbol
  }

  /** The book's own objects hold what snapshot `s` and view `v` recorded; the pool is left aside. */
  ghost predicate StillThere(b: Book, s: Snap, v: PriceTime.Book)
    reads b, b.bids, b.bids.slots, b.asks, b.asks.slots, b.orderMap, b.orderMap.slots
  {
    && b.bids.Valid() && b.asks.Valid() && b.bids.side == Buy && b.asks.side == Sell
    && b.bids != b.asks && b.bids.slots != b.asks.slots && b.orderMap.Valid()
    && NoneEmpty(b.bids.ids) && NoneEmpty(b.asks.ids)
    && Half(b.bids.levels, b.bids.ids) == s.bids && Half(b.asks.levels, b.asks.ids) == s.asks && b.orderMap.m == s.m
    && v == PriceTime.Book(b.symbol, FlatView(s, Buy), FlatView(s, Sell), b.seenBid, b.seenAsk, b.bidActive, b.askActive)
  }

  lemma IsThere(b: Book)
    requires b.Valid()
    ensures StillThere(b, b.S(), b.V())
  {
    hide Coherent, FlatView, NoneEmpty, Pool.Valid, BookSide.Valid, ProbeMap.Valid;
  }

  /** Such a book survives a change of the pool outside its slots. */
  lemma BystanderKept(b: Book, s: Snap, v: PriceTime.Book, own: set<nat>)
    requires StillThere(b, s, v) && b.pool.Valid() && Coherent(s)
    requires BookOps.Elsewhere(s.os, b.pool.os, own) && Held(s) !! own && Elems(b.pool.free) <= own
    ensures b.Valid() && b.V() == v && Held(b.S()) == Held(s)
  {
    hide Coherent, FlatView, NoneEmpty, Pool.Valid, BookSide.Valid, ProbeMap.Valid, BookOps.Elsewhere;
    OtherCoherent(s, b.S(), own);
  }

  /** All books at one moment. */
  datatype Moment = Moment(os: seq<Order>, free: seq<nat>, snaps: seq<Snap>, views: seq<PriceTime.Book>)

  ghost function HeldIn(f: Moment): seq<set<nat>> {
    seq(|f.snaps|, i requires 0 <= i < |f.snaps| => Held(f.snaps[i]))
  }

  ghost predicate Consistent(f: Moment) {
    && |f.views| == |f.snaps| && Partition(f.free, HeldIn(f))
    && forall i :: 0 <= i < |f.snaps| ==> Coherent(f.snaps[i]) && f.snaps[i].os == f.os && f.snaps[i].free == f.free
  }

  lemma TrackingSizes()
    ensures TRACKING_PROBES == 128 && TRACKING_SLOTS == 8192 && POOL == 8192
  {
  }

  ghost function OwnAt(books: seq<Book>, k: int): set<object> {
    if 0 <= k < |books| then Own(books[k]) else {}
  }

  /** Every book but the `k`-th is as it was at moment `f`. */
  ghost predicate OthersThere(books: seq<Book>, own: set<object>, pool: Pool, fixed: set<object>, f: Moment, k: int)
    requires LayoutOf(books, own, pool, fixed)
    reads own - OwnAt(books, k)
  {
    && |f.snaps| == |f.views| == |books|
    && forall j :: 0 <= j < |books| && j != k ==>
         && Own(books[j]) <= own - OwnAt(books, k)
         && StillThere(books[j], f.snaps[j], f.views[j])
  }

  class MatchingEngine {
    const pool: Pool
    const symbols: SymbolMap
    const tracking: ProbeMap<string>
    const bookHash: nat -> nat
    var books: seq<Book>
    ghost var own: set<object>  // the objects of all books

    /** The engine's objects other than the books'. */
    ghost function Fixed(): set<object> {
      {this, pool, pool.orders, pool.freeList, symbols, symbols.slots, tracking, tracking.slots}
    }

    /** The pool, the symbol table and the key map are separate objects. */
    ghost predicate Apart() {
      && {pool, pool.orders, pool.freeList} !! {symbols, symbols.slots, tracking, tracking.slots}
      && {symbols, symbols.slots} !! {tracking, tracking.slots}
      && this !in {pool, pool.orders, pool.freeList, symbols, symbols.slots, tracking, tracking.slots}
    }

    /** Books share the pool and nothing else. */
    ghost predicate Layout()
      reads this
    {
      LayoutOf(books, own, pool, Fixed()) && Apart()
    }

    ghost function HeldBy(): (h: seq<set<nat>>)
      reads this, own, pool
      requires Layout()
      ensures |h| == |books| && forall i :: 0 <= i < |h| ==> h[i] == Held(books[i].S())
    {
      seq(|books|, i requires 0 <= i < |books| && Own(books[i]) <= own && books[i].pool == pool reads this, own, pool =>
        Held(books[i].S()))
    }

    ghost function Names(): (n: seq<string>)
      reads this
      ensures |n| == |books| && forall i :: 0 <= i < |n| ==> n[i] == books[i].symbol
    {
      seq(|books|, i requires 0 <= i < |books| reads this => books[i].symbol)
    }

    ghost predicate Valid()
      reads this, own, pool, pool.orders, pool.freeList, symbols, symbols.slots, tracking, tracking.slots
    {
      && Layout() && pool.Valid() && symbols.Valid() && tracking.Valid()
      && (forall k: nat :: bookHash(k) < ORDER_MAP_SIZE)
      && Matches(symbols.m, Names())
      && (forall i :: 0 <= i < |books| ==> Own(books[i]) <= own && books[i].Valid())
      && Partition(pool.free, HeldBy())
    }

    /** The abstract engine: the abstract book of every known symbol. */
    ghost function E(): map<string, PriceTime.Book>
      reads this, own, pool, pool.orders, pool.freeList, symbols, symbols.slots, tracking, tracking.slots
      requires Valid()
    {
      map s | s in symbols.m :: books[symbols.m[s]].V()
    }

    constructor (bookHash: nat -> nat, symbolHash: string -> nat, keyHash: nat -> nat, blank: Order)
      requires forall k: nat :: bookHash(k) < ORDER_MAP_SIZE
      requires forall s: string :: symbolHash(s) < SYMBOL_SLOTS
      requires forall k: nat :: keyHash(k) < TRACKING_SLOTS
      ensures Valid() && E() == map[] && tracking.m == map[] && |pool.free| == 8192
      ensures fresh(pool) && fresh(pool.orders) && fresh(pool.freeList) && fresh(symbols) && fresh(symbols.slots)
      ensures fresh(tracking) && fresh(tracking.slots) && own == {} && books == [] && tracking.limit == 128 && tracking.slots.Length == 8192
    {
      hide *;
      TrackingSizes();
      this.bookHash := bookHash;
      pool := new Pool(blank);
      symbols := new SymbolMap(symbolHash);
      tracking := new ProbeMap<string>(TRACKING_SLOTS, TRACKING_PROBES, keyHash, "");
      books, own := [], {};
      new;
      ApartIs(this);
      EmptyEngine(this);
    }

    ghost function Now(): (f: Moment)
      reads this, own, pool
      requires Layout()
      ensures |f.snaps| == |f.views| == |books| && f.os == pool.os && f.free == pool.free
      ensures forall i :: 0 <= i < |books| ==> f.snaps[i] == books[i].S() && f.views[i] == books[i].V()
    {
      Moment(pool.os, pool.free,
        seq(|books|, i requires 0 <= i < |books| && Own(books[i]) <= own && books[i].pool == pool reads this, own, pool =>
          books[i].S()),
        seq(|books|, i requires 0 <= i < |books| && Own(books[i]) <= own && books[i].pool == pool reads this, own, pool =>
          books[i].V()))
    }
  }

  lemma ApartIs(e: MatchingEngine)
    ensures e.Apart()
  {
  }

  lemma EmptyEngine(e: MatchingEngine)
    requires e.books == [] && e.own == {} && e.pool.Valid() && e.symbols.Valid() && e.tracking.Valid()
    requires (forall k: nat :: e.bookHash(k) < ORDER_MAP_SIZE) && e.Apart()
    requires e.symbols.m == map[] && forall i: nat :: i < POOL ==> i in e.pool.free
    ensures e.Valid() && e.E() == map[]
  {
    hide Pool.Valid, SymbolMap.Valid, ProbeMap.Valid;
    assert forall x: nat :: x < POOL ==> x in Elems(e.pool.free);
  }

  lemma NowConsistent(e: MatchingEngine)
    requires e.Valid()
    ensures Consistent(e.Now()) && HeldIn(e.Now()) == e.HeldBy()
  {
    hide Pool.Valid, SymbolMap.Valid, ProbeMap.Valid, Matches, FlatView;
    forall i | 0 <= i < |e.books|
      ensures Coherent(e.books[i].S())
    {
      BookOps.ValidParts(e.books[i]);
    }
    assert HeldIn(e.Now()) == e.HeldBy();
  }

  /** The engine after an operation on book `k` only; `f` is the moment before. */
  ghost predicate Touched(e: MatchingEngine, f: Moment, k: nat)
    reads e, e.own, e.pool, e.pool.orders, e.pool.freeList, e.symbols, e.symbols.slots, e.tracking, e.tracking.slots
  {
    && e.Layout() && e.pool.Valid() && e.symbols.Valid() && e.tracking.Valid()
    && (forall i: nat :: e.bookHash(i) < ORDER_MAP_SIZE)
    && Matches(e.symbols.m, e.Names()) && Consistent(f) && |f.snaps| == |e.books|
    && k < |e.books| && Own(e.books[k]) <= e.own && e.books[k].Valid()
    && BookOps.Slots(e.books[k].S()) == BookOps.Slots(f.snaps[k])
    && BookOps.Elsewhere(f.os, e.pool.os, BookOps.Slots(f.snaps[k]))
    && OthersThere(e.books, e.own, e.pool, e.Fixed(), f, k)
  }

  lemma TouchedOther(e: MatchingEngine, f: Moment, k: nat, j: nat)
    requires Touched(e, f, k) && j < |e.books| && j != k
    ensures e.books[j].Valid() && e.books[j].V() == f.views[j] && Held(e.books[j].S()) == Held(f.snaps[j])
  {
    hide Coherent, FlatView, Pool.Valid, BookSide.Valid, ProbeMap.Valid, SymbolMap.Valid, BookOps.Elsewhere, Matches, StillThere, BookOps.Slots;
    SlotsAre(f.snaps[k]);
    SlotsAre(e.books[k].S());
    var held := HeldIn(f);
    assert held[j] !! held[k];
    BystanderKept(e.books[j], f.snaps[j], f.views[j], BookOps.Slots(f.snaps[k]));
  }

  /** An operation on one book keeps the whole engine valid and the other books as they were. */
  lemma Operated(e: MatchingEngine, f: Moment, k: nat)
    requires Touched(e, f, k)
    ensures e.Valid() && forall j :: 0 <= j < |e.books| && j != k ==> e.books[j].V() == f.views[j]
  {
    hide Coherent, FlatView, Pool.Valid, BookSide.Valid, ProbeMap.Valid, SymbolMap.Valid, BookOps.Elsewhere, Matches, StillThere, BookOps.Slots, Partition, Book.Valid;
    forall j | 0 <= j < |e.books| && j != k
      ensures e.books[j].Valid() && e.books[j].V() == f.views[j] && Held(e.books[j].S()) == Held(f.snaps[j])
    {
      TouchedOther(e, f, k, j);
    }
    SlotsAre(f.snaps[k]);
    SlotsAre(e.books[k].S());
    BookOps.ValidParts(e.books[k]);
    CoherentApart(e.books[k].S());
    PartitionKept(f.free, HeldIn(f), e.pool.free, e.HeldBy(), k);
  }
}
