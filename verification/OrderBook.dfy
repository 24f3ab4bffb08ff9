/** The order book object: two sides, the order map, the shared pool, the last
    announced top of book, and the cursor of a flush in progress. */
module OrderBook {
  import opened Orders
  import opened Sequences
  import PriceTime
  import opened OrderPool
  import opened PriceLevels
  import opened ProbeTable
  import opened BookState

  const OUTPUT: nat := 8192
  const ORDER_MAP_SIZE: nat := 16384
  const PROBES: nat := 128

  /** What an output buffer keeps of a message sequence: the first 8192. */
  ghost function Keep(s: seq<Msg>): seq<Msg> {
    if |s| <= OUTPUT then s else s[..OUTPUT]
  }

  lemma KeepAppend(a: seq<Msg>, b: seq<Msg>, c: seq<Msg>)
    ensures Keep(Keep(a + b) + c) == Keep(a + (b + c))
    ensures Keep(Keep(a) + c) == Keep(a + c)
  {
    assert (a + b) + c == a + (b + c);
  }

  class OutputBuffer {
    const messages: array<Msg>
    var count: nat
    ghost var sent: seq<Msg>

    ghost predicate Valid()
      reads this, messages
    {
      messages.Length == OUTPUT && count <= OUTPUT && sent == messages[..count]
    }

    constructor (blank: Msg)
      ensures Valid() && sent == [] && fresh(messages)
    {
      messages := new Msg[OUTPUT](_ => blank);
      count, sent := 0, [];
    }

    /** Append a message; a full buffer drops it. */
    method Add(msg: Msg)
      requires Valid()
      modifies this, messages
      ensures Valid() && sent == Keep(old(sent) + [msg])
      ensures sent == if |old(sent)| < 8192 then old(sent) + [msg] else old(sent)
    {
      if count < OUTPUT {
        messages[count] := msg;
        count := count + 1;
        sent := sent + [msg];
      }
    }

    /** Take all messages out of the buffer. */
    method Drain() returns (msgs: seq<Msg>)
      requires Valid()
      modifies this
      ensures Valid() && msgs == old(sent) && sent == []
    {
      msgs := messages[..count];
      count, sent := 0, [];
    }
  }

  class Book {
    const symbol: string
    const bids: BookSide
    const asks: BookSide
    const orderMap: ProbeMap<Location>
    const pool: Pool
    var seenBid: PriceTime.Top
    var seenAsk: PriceTime.Top
    var bidActive: bool
    var askActive: bool
    // flush state
    var flushing: bool
    var bidLevel: nat
    var askLevel: nat
    var current: int
    var bidsDone: bool
    var asksDone: bool

    ghost predicate Wf()
      reads bids, bids.slots, asks, asks.slots, orderMap, orderMap.slots, pool, pool.orders, pool.freeList
      ensures Wf() ==> && bids.Valid() && asks.Valid() && bids.side == Buy && asks.side == Sell
                       && bids != asks && bids.slots != asks.slots && orderMap.Valid() && pool.Valid()
                       && forall side :: At(side).Valid() && At(side).side == side
    {
      && bids.Valid() && asks.Valid() && bids.side == Buy && asks.side == Sell
      && bids != asks && bids.slots != asks.slots
      && orderMap.Valid() && pool.Valid()
    }

    ghost function S(): Snap
      reads bids, asks, orderMap, pool
      ensures S().os == pool.os && S().free == pool.free && S().m == orderMap.m
      ensures forall side :: S().At(side) == Half(At(side).levels, At(side).ids)
    {
      Snap(pool.os, pool.free, Half(bids.levels, bids.ids), Half(asks.levels, asks.ids), orderMap.m)
    }

    ghost predicate Valid()
      reads bids, bids.slots, asks, asks.slots, orderMap, orderMap.slots, pool, pool.orders, pool.freeList
    {
      Wf() && Coherent(S()) && NoneEmpty(bids.ids) && NoneEmpty(asks.ids)
    }

    /** The abstract book. */
    ghost function V(): PriceTime.Book
      reads this, bids, asks, orderMap, pool
      ensures V().symbol == symbol && V().bids == FlatView(S(), Buy) && V().asks == FlatView(S(), Sell)
      ensures forall side :: V().At(side) == FlatView(S(), side)
      ensures V().seenBid == seenBid && V().seenAsk == seenAsk && V().bidActive == bidActive && V().askActive == askActive
    {
      PriceTime.Book(symbol, FlatView(S(), Buy), FlatView(S(), Sell), seenBid, seenAsk, bidActive, askActive)
    }

    function At(side: Side): BookSide {
      if side == Buy then bids else asks
    }

    constructor (symbol: string, pool: Pool, hash: nat -> nat)
      requires pool.Valid() && forall k: nat :: hash(k) < ORDER_MAP_SIZE
      ensures Valid() && V() == PriceTime.EmptyBook(symbol) && !flushing
      ensures this.pool == pool && this.symbol == symbol && fresh(bids) && fresh(bids.slots) && fresh(asks) && fresh(asks.slots)
      ensures fresh(orderMap) && fresh(orderMap.slots)
      ensures orderMap.limit == 128 && |orderMap.t| == 16384 && forall i :: 0 <= i < |orderMap.t| ==> orderMap.t[i].key == EMPTY
      ensures S().free == pool.free && bids.ids == [] && asks.ids == []
    {
      hide ProbeMap.Valid, BookSide.Valid, Pool.Valid, Coherent, FlatView;
      this.symbol, this.pool := symbol, pool;
      bids := new BookSide(Buy);
      asks := new BookSide(Sell);
      orderMap := new ProbeMap<Location>(ORDER_MAP_SIZE, PROBES, hash, Location(Buy, 0, 0));
      seenBid, seenAsk := PriceTime.Top(0, 0), PriceTime.Top(0, 0);
      bidActive, askActive := false, false;
      flushing, bidLevel, askLevel, current, bidsDone, asksDone := false, 0, 0, NIL, false, false;
      new;
      EmptyCoherent(S());
    }
  }

  lemma Sides(b: Book)
    ensures b.At(Buy) == b.bids && b.At(Sell) == b.asks && Buy.Opposite() == Sell && Sell.Opposite() == Buy
  {
  }

  /** Unlink order `p`, the `k`-th of level `l`, from its list. */
  method ListRemove(pool: Pool, half: BookSide, l: nat, p: nat, ghost k: nat)
    requires pool.Valid() && half.Valid() && l < half.num
    requires k < |half.ids[l]| && half.ids[l][k] == p < POOL
    requires -1 <= pool.os[p].prev < POOL && -1 <= pool.os[p].next < POOL
    modifies pool`os, pool.orders, half, half.slots
    ensures pool.Valid() && half.Valid()
    ensures pool.os == Unlink(old(pool.os), p)
    ensures half.ids == old(half.ids)[l := RemoveAt(old(half.ids)[l], k)]
    ensures var o := old(pool.os)[p];
            half.levels == old(half.levels)[l := old(half.levels)[l].(
              head := if o.prev == NIL then o.next else old(half.levels)[l].head,
              tail := if o.next == NIL then o.prev else old(half.levels)[l].tail)]
  {
    hide Pool.Valid, BookSide.Valid;
    var prev, next := pool.Get(p).prev, pool.Get(p).next;
    var level := half.Get(l);
    if prev != NIL {
      pool.Put(prev, pool.Get(prev).(next := next));
    } else {
      level := level.(head := next);
    }
    if next != NIL {
      pool.Put(next, pool.Get(next).(prev := prev));
    } else {
      level := level.(tail := prev);
    }
    pool.Put(p, pool.Get(p).(next := NIL, prev := NIL));
    half.Put(l, level, RemoveAt(half.ids[l], k));
    assert pool.os == Unlink(old(pool.os), p);
  }

  /** Link order `p` at the end of level `l`. */
  method ListAppend(pool: Pool, half: BookSide, l: nat, p: nat)
    requires pool.Valid() && half.Valid() && l < half.num && p < POOL
    requires -1 <= half.levels[l].tail < POOL && half.levels[l].tail != p
    modifies pool`os, pool.orders, half, half.slots
    ensures pool.Valid() && half.Valid()
    ensures pool.os == Append(old(pool.os), old(half.levels)[l].tail, p)
    ensures half.ids == old(half.ids)[l := old(half.ids)[l] + [p]]
    ensures var level := old(half.levels)[l];
            half.levels == old(half.levels)[l := level.(head := if level.head == NIL then p else level.head, tail := p)]
  {
    hide Pool.Valid, BookSide.Valid;
    var level := half.Get(l);
    pool.Put(p, pool.Get(p).(next := NIL, prev := level.tail));
    if level.tail != NIL {
      pool.Put(level.tail, pool.Get(level.tail).(next := p));
    }
    level := level.(tail := p);
    if level.head == NIL {
      level := level.(head := p);
    }
    half.Put(l, level, half.ids[l] + [p]);
    assert pool.os == Append(old(pool.os), old(half.levels)[l].tail, p);
  }

  /** Drop level `i`, returning whatever orders it still lists to the pool. */
  method RemoveLevel(b: Book, side: Side, i: nat)
    requires b.Wf()
    requires i < b.At(side).num ==>
      && Chain(b.pool.os, b.At(side).ids[i], b.At(side).levels[i].head, b.At(side).levels[i].tail)
      && |b.At(side).ids[i]| < POOL && forall x :: x in b.At(side).ids[i] ==> x !in b.pool.free
    modifies b.At(side), b.At(side).slots, b.pool, b.pool.freeList
    ensures b.Wf() && b.pool.os == old(b.pool.os)
    ensures i >= old(b.At(side).num) ==> b.S() == old(b.S())
    ensures i < old(b.At(side).num) ==>
      && b.pool.free == old(b.pool.free) + old(b.At(side).ids[i])
      && b.At(side).levels == RemoveAt(old(b.At(side).levels), i)
      && b.At(side).ids == RemoveAt(old(b.At(side).ids), i)
  {
    hide Pool.Valid, BookSide.Valid, ProbeMap.Valid, Chain, RemoveAt;
    if i >= b.At(side).num {
      return;
    }
    FreeAll(b.pool, b.At(side).Get(i).head, b.At(side).levels[i].tail, b.At(side).ids[i]);
    b.At(side).Remove(i);
  }
}
