/** Runs of the array-based book: whatever the abstract runs guarantee holds of it after
    every operation, and every message reaches the one who drains the buffer. */
module BookRuns {
  import opened Orders
  import opened Sequences
  import opened PriceTime
  import opened ProbeTable
  import opened OrderPool
  import opened PriceLevels
  import opened BookState
  import OrderBook
  import BookOps
  import Cancelling
  import ClientCancel
  import Flushing
  import opened BookLaws
  import BookMsgs

  // ----- One operation -----

  /** What the source demands of its caller: an order that must rest fits the book, and no list
      is as long as the pool when it is freed.  The pool is not exhausted. */
  ghost predicate Demands(b: OrderBook.Book, op: Op)
    requires b.Valid()
    reads b, b.bids, b.bids.slots, b.asks, b.asks.slots, b.orderMap, b.orderMap.slots, b.pool, b.pool.orders, b.pool.freeList
  {
    match op
    case Add(o) => b.pool.free != [] && (Rests(b.V(), o) ==> BookOps.Fits(b, o))
    case Cancel(_, _) => true
    case CancelFor(_) => true
    case FlushAll => !b.flushing && Flushing.ShortLists(b.bids.ids) && Flushing.ShortLists(b.asks.ids)
  }

  /** Perform one operation after a run `ops` and drain the buffer: the book is that of the longer
      run, and what is drained is what the operation says, cut at 8192 messages. */
  method Perform(b: OrderBook.Book, out: OrderBook.OutputBuffer, op: Op, ghost ops: seq<Op>) returns (msgs: seq<Msg>)
    requires b.Valid() && out.Valid() && out.sent == [] && Demands(b, op)
    requires b.V() == Run(b.symbol, ops).book && FreshRun(b.symbol, ops + [op])
    modifies b, b.bids, b.bids.slots, b.asks, b.asks.slots, b.orderMap, b.orderMap.slots
    modifies b.pool, b.pool.orders, b.pool.freeList, out, out.messages
    ensures b.Valid() && out.Valid() && out.sent == [] && b.flushing == old(b.flushing)
    ensures b.V() == Run(b.symbol, ops + [op]).book && Inv(b.V())
    ensures msgs == if op.FlushAll? then Step(old(b.V()), op).msgs else OrderBook.Keep(Step(old(b.V()), op).msgs)
    ensures BookOps.Slots(b.S()) == old(BookOps.Slots(b.S()))
  {
    hide *;
    RunLast(b.symbol, ops, op);
    RunInv(b.symbol, ops + [op]);
    StepIs(b.V(), op);
    DemandsAre(b, op);
    Plain(Step(b.V(), op).msgs);
    match op {
      case Add(o) => BookOps.AddOrder(b, out, o);
      case Cancel(user, oid) => Cancelling.CancelOrder(b, out, user, oid);
      case CancelFor(client) => var _ := ClientCancel.CancelClient(b, out, client);
      case FlushAll =>
        var calls;
        calls, msgs := Flushing.FlushToEnd(b, out);
        return;
    }
    msgs := DrainBook(b, out);
  }

  method DrainBook(b: OrderBook.Book, out: OrderBook.OutputBuffer) returns (msgs: seq<Msg>)
    requires b.Valid() && out.Valid()
    modifies out
    ensures b.Valid() && out.Valid() && out.sent == [] && msgs == old(out.sent)
    ensures b.V() == old(b.V()) && b.S() == old(b.S()) && b.flushing == old(b.flushing)
  {
    hide *;
    msgs := out.Drain();
  }

  lemma RunLast(symbol: string, ops: seq<Op>, op: Op)
    ensures Run(symbol, ops + [op]).book == Step(Run(symbol, ops).book, op).book
    ensures Run(symbol, ops + [op]).msgs == Run(symbol, ops).msgs + Step(Run(symbol, ops).book, op).msgs
    ensures FreshRun(symbol, ops + [op]) <==> FreshRun(symbol, ops) && Fresh(Run(symbol, ops).book, op)
  {
    hide Step, Fresh;
    assert (ops + [op])[..|ops|] == ops;
  }

  lemma StepIs(v: Book, op: Op)
    ensures op.Add? ==> Step(v, op) == PriceTime.AddOrder(v, op.o)
    ensures op.Cancel? ==> Step(v, op) == PriceTime.CancelOrder(v, op.user, op.oid)
    ensures op.CancelFor? ==> Step(v, op) == PriceTime.CancelClient(v, op.client)
    ensures op.FlushAll? ==> Step(v, op) == PriceTime.Flush(v)
    ensures op.Add? && Fresh(v, op) ==> op.o.quantity > 0
  {
  }

  lemma DemandsAre(b: OrderBook.Book, op: Op)
    requires b.Valid() && Demands(b, op)
    ensures op.Add? ==> b.pool.free != [] && (Rests(b.V(), op.o) ==> BookOps.Fits(b, op.o))
    ensures op.FlushAll? ==> !b.flushing && Flushing.ShortLists(b.bids.ids) && Flushing.ShortLists(b.asks.ids)
  {
    hide OrderBook.Book.Valid, Rests, BookOps.Fits;
  }

  lemma Plain(msgs: seq<Msg>)
    ensures [] + msgs == msgs
  {
  }

  // ----- With few orders nothing the source asserts can fail -----

  /** At most 127 orders rest: fewer than a probe window has slots. */
  predicate Few(v: Book) {
    |v.bids| + |v.asks| <= 127
  }

  lemma IndexSize(s: Snap)
    requires Coherent(s)
    ensures |s.m| <= |Flat(s.bids)| + |Flat(s.asks)|
  {
    hide SideOk;
    var linked := Elems(Flat(s.bids)) + Elems(Flat(s.asks));
    forall key | key in s.m
      ensures s.m[key].order in linked
    {
      assert Linked(s, s.m[key].order);
    }
    InjectiveSize(s.m.Keys, linked, map key | key in s.m :: s.m[key].order);
    ElemsSize(Flat(s.bids));
    ElemsSize(Flat(s.asks));
  }

  lemma {:induction false} InjectiveSize(a: set<nat>, b: set<nat>, f: map<nat, nat>)
    requires a <= f.Keys && (forall x :: x in a ==> f[x] in b)
    requires forall x, y :: x in a && y in a && f[x] == f[y] ==> x == y
    ensures |a| <= |b|
    decreases |a|
  {
    if a != {} {
      var x :| x in a;
      InjectiveSize(a - {x}, b - {f[x]}, f);
    }
  }

  lemma {:induction false} ElemsSize(s: seq<nat>)
    ensures |Elems(s)| <= |s|
  {
    if s == [] {
      assert Elems(s) == {};
    } else {
      ElemsSize(s[1..]);
      assert Elems(s) == {s[0]} + Elems(s[1..]);
    }
  }

  /** A probe window longer than the map is big has a slot left. */
  lemma WindowRoom<V>(t: seq<ProbeTable.Slot<V>>, at: map<nat, nat>, m: map<nat, V>, hash: nat -> nat, limit: nat, h: nat, gone: set<nat>)
    requires limit <= |t| && (forall k: nat :: hash(k) < |t|) && h < |t|
    requires Models(t, at, m, hash, limit) && |m| < limit
    ensures ProbeTable.Room(t, h, limit, gone)
  {
    assert |m| == |m.Keys|;
    if !ProbeTable.Room(t, h, limit, gone) {
      var window := Window(h, limit, |t|);
      WindowSize(h, limit, |t|);
      forall i | i in window
        ensures i < |t| && t[i].key in m
      {
        var d: nat :| d < limit && Probe(h, d, |t|) == i;
        assert !RoomAt(t, h, d, gone);
      }
      InjectiveSize(window, m.Keys, map i | i in window :: t[i].key);
    }
  }

  /** Keys 1 to `n`, each so many steps from the hash. */
  ghost function FirstSteps(n: nat): (at: map<nat, nat>)
    ensures forall key :: key in at <==> 0 < key <= n
    ensures forall key :: key in at ==> at[key] == key - 1
    ensures |at| == n
  {
    if n == 0 then map[] else
      assert FirstSteps(n - 1)[n := n - 1].Keys == FirstSteps(n - 1).Keys + {n};
      FirstSteps(n - 1)[n := n - 1]
  }

  ghost function FirstSlots<V>(v: V, n: nat, size: nat): (t: seq<ProbeTable.Slot<V>>)
    ensures |t| == size && forall i :: 0 <= i < size ==> t[i] == ProbeTable.Slot(if i < n then i + 1 else EMPTY, v)
  {
    seq(size, i => ProbeTable.Slot(if 0 <= i < n then i + 1 else EMPTY, v))
  }

  lemma WindowModels<V>(v: V, limit: nat, size: nat)
    requires 0 < limit <= size && limit < TOMBSTONE
    ensures var at := FirstSteps(limit);
            Models(FirstSlots(v, limit, size), at, map key | key in at :: v, (_: nat) => 0, limit)
  {
    hide FirstSteps, FirstSlots, Probe;
    FirstProbes(limit, size);
  }

  lemma FirstProbes(limit: nat, size: nat)
    requires 0 < limit <= size
    ensures forall e :: 0 <= e <= limit ==> Probe(0, e, size) == if e < size then e else 0
  {
  }

  lemma Taken<V>(v: V, limit: nat, size: nat)
    requires 0 < limit <= size && limit < TOMBSTONE
    ensures !ProbeTable.Room(FirstSlots(v, limit, size), 0, limit, {})
  {
    hide FirstSlots;
  }

  /** Fewer keys than probes is the most that is safe for every hash: as many keys as probes can
      share a hash and fill its window, and then no other key with this hash can be inserted. */
  lemma WindowFull<V>(v: V, limit: nat, size: nat)
    requires 0 < limit <= size && limit < TOMBSTONE
    ensures var at := FirstSteps(limit);
            && |at| == limit && Models(FirstSlots(v, limit, size), at, map key | key in at :: v, (_: nat) => 0, limit)
            && FreeIdx(FirstSlots(v, limit, size), 0, limit, limit + 1, 0) == -1
  {
    hide FreeIdx, FirstSteps, FirstSlots, ProbeTable.Room, Models;
    var t := FirstSlots(v, limit, size);
    WindowModels(v, limit, size);
    Taken(v, limit, size);
    FreeIffRoom(t, 0, limit, limit + 1, 0);
    FreeIdxInRange(t, 0, limit, limit + 1, 0);
  }

  /** Of all order keys only these two cannot be stored. */
  lemma SentinelKeys(user: u32, oid: u32)
    ensures Sentinel(Key(user, oid)) <==> (user == 0 && oid == 0) || (user == 4294967295 && oid == 4294967295)
  {
  }

  lemma FewFits(b: OrderBook.Book, o: NewOrder)
    requires b.Valid() && Few(b.V()) && b.orderMap.limit == OrderBook.PROBES
    requires !Sentinel(Key(o.user, o.oid)) && !LiveAfter(b.V(), o)
    ensures BookOps.Fits(b, o)
  {
    hide Coherent, NoneEmpty, ProbeTable.Room, Models, LiveAfter;
    BookOps.ValidParts(b);
    BookOps.FitsIs(b, o);
    IndexSize(b.S());
    MapRoom(b, Key(o.user, o.oid), FilledKeys(o, o.quantity, b.V().At(o.side.Opposite())));
    FewLevels(b, o.side);
  }

  lemma MapRoom(b: OrderBook.Book, key: nat, gone: set<nat>)
    requires b.Valid() && b.orderMap.limit == OrderBook.PROBES && |b.orderMap.m| < OrderBook.PROBES
    ensures b.orderMap.limit <= |b.orderMap.t| && b.orderMap.hash(key) < |b.orderMap.t|
    ensures ProbeTable.Room(b.orderMap.t, b.orderMap.hash(key), b.orderMap.limit, gone)
  {
    hide Coherent, NoneEmpty, ProbeTable.Room, Pool.Valid, BookSide.Valid;
    WindowRoom(b.orderMap.t, b.orderMap.at, b.orderMap.m, b.orderMap.hash, b.orderMap.limit, b.orderMap.hash(key), gone);
  }

  lemma FewLevels(b: OrderBook.Book, side: Side)
    requires b.Valid() && Few(b.V())
    ensures |b.S().At(side).levels| < MAX_LEVELS
    ensures Flushing.ShortLists(b.S().At(side).ids)
  {
    hide Indexed, ProbeMap.Valid, Pool.Valid, BookSide.Valid;
    BookOps.ValidParts(b);
    ListCount(b.S().At(side).ids);
  }

  lemma {:induction false} ListCount(ids: seq<seq<nat>>)
    requires NoneEmpty(ids)
    ensures |ids| <= |Concat(ids)| && forall l :: 0 <= l < |ids| ==> |ids[l]| <= |Concat(ids)|
  {
    if ids != [] {
      ListCount(ids[1..]);
      forall l | 0 <= l < |ids|
        ensures |ids[l]| <= |Concat(ids)|
      {
        assert l > 0 ==> ids[l] == ids[1..][l - 1];
      }
    }
  }

  /** With few orders resting and every slot of the pool free or resting here, some slot is free. */
  lemma FewLeaveRoom(b: OrderBook.Book)
    requires b.Valid() && Few(b.V()) && forall x: nat :: x < POOL ==> x in BookOps.Slots(b.S())
    ensures b.pool.free != []
  {
    hide Coherent, NoneEmpty, Pool.Valid, BookSide.Valid, ProbeMap.Valid;
    var s := b.S();
    if s.free == [] {
      ElemsSize(Flat(s.bids));
      ElemsSize(Flat(s.asks));
      WindowSize(0, POOL, POOL);
      forall x | x in Window(0, POOL, POOL)
        ensures x in Elems(Flat(s.bids)) + Elems(Flat(s.asks))
      {
        assert x in BookOps.Slots(s);
      }
      SubsetSize(Window(0, POOL, POOL), Elems(Flat(s.bids)) + Elems(Flat(s.asks)));
    }
  }

  lemma {:induction false} CancelAllSize(v: Book, keys: seq<(u32, u32)>)
    ensures |CancelAll(v, keys).msgs| <= 3 * |keys|
    decreases |keys|
  {
    hide PriceTime.CancelOrder;
    if keys != [] {
      CancelSize(v, keys[0].0, keys[0].1);
      CancelAllSize(PriceTime.CancelOrder(v, keys[0].0, keys[0].1).book, keys[1..]);
    }
  }

  lemma CancelSize(v: Book, user: u32, oid: u32)
    ensures |PriceTime.CancelOrder(v, user, oid).msgs| <= 3
  {
    hide Best, DropKey, Live;
  }

  lemma {:induction false} ReachSize(flat: seq<Resting>, price: int, n: nat)
    ensures |Reach(flat, price, n)| <= |flat|
    decreases |flat|
  {
    if flat != [] {
      ReachSize(flat[1..], flat[0].price, (if flat[0].price == price then n else 0) + 1);
    }
  }

  /** With few orders resting, no operation but a flush fills the output buffer. */
  lemma FewMsgs(v: Book, op: Op)
    requires Inv(v) && Few(v) && Fresh(v, op) && !op.FlushAll?
    ensures OrderBook.Keep(Step(v, op).msgs) == Step(v, op).msgs
  {
    hide Inv, PriceTime.AddOrder, PriceTime.CancelOrder, CancelAll, Reach, KeysOf;
    Plain(Step(v, op).msgs);
    match op {
      case Add(o) => BookMsgs.AddFew(v, o);
      case Cancel(user, oid) => CancelSize(v, user, oid);
      case CancelFor(client) =>
        CancelAllSize(v, Collected(v, client));
        ClientCancel.KeysOfBound(Reach(v.bids, 0, 0), client);
        ClientCancel.KeysOfBound(Reach(v.asks, 0, 0), client);
        ReachSize(v.bids, 0, 0);
        ReachSize(v.asks, 0, 0);
    }
  }

  // ----- Whole runs -----

  /** At most 127 orders rest before every operation, and new orders have usable keys. */
  ghost predicate Modest(symbol: string, ops: seq<Op>) {
    forall i :: 0 <= i < |ops| ==>
      Few(Run(symbol, ops[..i]).book) && (ops[i].Add? ==> !Sentinel(Key(ops[i].o.user, ops[i].o.oid)))
  }

  lemma {:induction false} FreshPrefix(symbol: string, ops: seq<Op>, i: nat)
    requires FreshRun(symbol, ops) && i <= |ops|
    ensures FreshRun(symbol, ops[..i])
    decreases |ops| - i
  {
    hide Fresh;
    if i < |ops| {
      FreshPrefix(symbol, ops, i + 1);
      assert ops[..i + 1][..i] == ops[..i];
    } else {
      assert ops[..i] == ops;
    }
  }

  /** Whatever the source asserts holds in the next operation of a modest run. */
  lemma FewMeet(b: OrderBook.Book, op: Op)
    requires b.Valid() && Few(b.V()) && b.orderMap.limit == OrderBook.PROBES && Fresh(b.V(), op) && !b.flushing
    requires op.Add? ==> !Sentinel(Key(op.o.user, op.o.oid))
    requires forall x: nat :: x < POOL ==> x in BookOps.Slots(b.S())
    ensures Demands(b, op)
  {
    hide OrderBook.Book.Valid, OrderBook.Book.V, OrderBook.Book.S, Few, Rests, BookOps.Fits, LiveAfter, BookOps.Slots;
    match op {
      case Add(o) =>
        FewLeaveRoom(b);
        if Rests(b.V(), o) {
          FewFits(b, o);
        }
      case Cancel(_, _) =>
      case CancelFor(_) =>
      case FlushAll =>
        FewLevels(b, Buy);
        FewLevels(b, Sell);
        OrderBook.Sides(b);
        SidesOf(b);
    }
  }

  lemma SidesOf(b: OrderBook.Book)
    ensures b.S().At(Buy).ids == b.bids.ids && b.S().At(Sell).ids == b.asks.ids
  {
  }

  /** A whole modest run on a new book: no assertion of the source fails, the book is that of the
      abstract run, and its messages are delivered, all of them, in order. */
  method Drive(b: OrderBook.Book, out: OrderBook.OutputBuffer, ops: seq<Op>) returns (msgs: seq<Msg>)
    requires b.Valid() && out.Valid() && out.sent == [] && b.V() == EmptyBook(b.symbol) && !b.flushing
    requires b.orderMap.limit == OrderBook.PROBES && forall x: nat :: x < POOL ==> x in BookOps.Slots(b.S())
    requires FreshRun(b.symbol, ops) && Modest(b.symbol, ops)
    modifies b, b.bids, b.bids.slots, b.asks, b.asks.slots, b.orderMap, b.orderMap.slots
    modifies b.pool, b.pool.orders, b.pool.freeList, out, out.messages
    ensures b.Valid() && out.Valid() && b.V() == Run(b.symbol, ops).book && msgs == Run(b.symbol, ops).msgs
    ensures Inv(b.V())
  {
    hide *;
    msgs := [];
    Begin(b.symbol, ops);
    ghost var slots := BookOps.Slots(b.S());
    for i := 0 to |ops|
      invariant b.Valid() && out.Valid() && out.sent == [] && !b.flushing && BookOps.Slots(b.S()) == slots
      invariant b.V() == Run(b.symbol, ops[..i]).book && msgs == Run(b.symbol, ops[..i]).msgs
    {
      Next(b.symbol, ops, i);
      FewMeet(b, ops[i]);
      var batch := Perform(b, out, ops[i], ops[..i]);
      msgs := msgs + batch;
    }
    Whole(ops);
    RunInv(b.symbol, ops);
  }

  lemma Begin(symbol: string, ops: seq<Op>)
    ensures Run(symbol, ops[..0]) == Outcome(EmptyBook(symbol), [])
    ensures Run(symbol, ops[..0]).book == EmptyBook(symbol) && Run(symbol, ops[..0]).msgs == []
  {
  }

  lemma Whole(ops: seq<Op>)
    ensures ops[..|ops|] == ops
  {
  }

  lemma Next(symbol: string, ops: seq<Op>, i: nat)
    requires FreshRun(symbol, ops) && Modest(symbol, ops) && i < |ops|
    ensures ops[..i + 1] == ops[..i] + [ops[i]] && FreshRun(symbol, ops[..i] + [ops[i]])
    ensures var v := Run(symbol, ops[..i]).book;
            && Few(v) && Fresh(v, ops[i]) && (ops[i].Add? ==> !Sentinel(Key(ops[i].o.user, ops[i].o.oid)))
            && Run(symbol, ops[..i + 1]).msgs == Run(symbol, ops[..i]).msgs + Step(v, ops[i]).msgs
            && (!ops[i].FlushAll? ==> OrderBook.Keep(Step(v, ops[i]).msgs) == Step(v, ops[i]).msgs)
  {
    hide Few, Fresh, Step, Run, FreshRun;
    assert ops[..i + 1] == ops[..i] + [ops[i]];
    FreshPrefix(symbol, ops, i + 1);
    RunLast(symbol, ops[..i], ops[i]);
    RunInv(symbol, ops[..i]);
    if !ops[i].FlushAll? {
      FewMsgs(Run(symbol, ops[..i]).book, ops[i]);
    }
  }
}
