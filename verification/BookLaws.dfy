/** What every operation keeps and every run guarantees, stated on the abstract book. */
module BookLaws {
  import opened Orders
  import opened Sequences
  import opened PriceTime
  import opened MatchLaws

  // ----- The invariant -----

  /** Prices never improve from front to back. */
  ghost predicate Ordered(side: Side, flat: seq<Resting>) {
    forall i, j :: 0 <= i < j < |flat| ==> !Better(side, flat[j].price, flat[i].price)
  }

  /** No market order rests, and no filled one. */
  ghost predicate Sound(flat: seq<Resting>) {
    forall i :: 0 <= i < |flat| ==> flat[i].price > 0 && 0 < flat[i].rem <= flat[i].quantity
  }

  ghost predicate Apart(flat: seq<Resting>) {
    forall i, j :: 0 <= i < j < |flat| ==> RestKey(flat[i]) != RestKey(flat[j])
  }

  ghost predicate Disjoint(x: seq<Resting>, y: seq<Resting>) {
    forall i, j :: 0 <= i < |x| && 0 <= j < |y| ==> RestKey(x[i]) != RestKey(y[j])
  }

  /** The best bid is strictly below the best ask. */
  ghost predicate Uncrossed(bids: seq<Resting>, asks: seq<Resting>) {
    bids != [] && asks != [] ==> bids[0].price < asks[0].price
  }

  ghost predicate SideInv(side: Side, flat: seq<Resting>) {
    Ordered(side, flat) && Sound(flat) && Apart(flat)
  }

  ghost predicate Core(bids: seq<Resting>, asks: seq<Resting>) {
    SideInv(Buy, bids) && SideInv(Sell, asks) && Disjoint(bids, asks) && Uncrossed(bids, asks)
  }

  /** The announced tops are the current ones. */
  ghost predicate Announced(b: Book) {
    && b.seenBid == Best(b.bids) && b.seenAsk == Best(b.asks)
    && (b.bids != [] ==> b.bidActive) && (b.asks != [] ==> b.askActive)
  }

  ghost predicate Inv(b: Book) {
    Core(b.bids, b.asks) && Announced(b)
  }

  // ----- Shrinking a side -----

  /** `x` is `y` with some orders gone and some reduced: order `i` of `x` was order `f[i]`. */
  ghost predicate Embeds(x: seq<Resting>, y: seq<Resting>, f: seq<nat>) {
    && |f| == |x|
    && (forall i :: 0 <= i < |f| ==> f[i] < |y|)
    && (forall i, j :: 0 <= i < j < |f| ==> f[i] < f[j])
    && (forall i :: 0 <= i < |f| ==> 0 < x[i].rem <= y[f[i]].rem && x[i] == y[f[i]].(rem := x[i].rem))
  }

  lemma EmbedsSide(side: Side, x: seq<Resting>, y: seq<Resting>, f: seq<nat>)
    requires Embeds(x, y, f) && SideInv(side, y)
    ensures SideInv(side, x)
    ensures x != [] ==> y != [] && !Better(side, x[0].price, y[0].price)
  {
    if x != [] {
      assert f[0] < |y| && x[0].price == y[f[0]].price;
    }
  }

  lemma EmbedsDisjoint(x: seq<Resting>, y: seq<Resting>, f: seq<nat>, z: seq<Resting>)
    requires Embeds(x, y, f)
    ensures Disjoint(y, z) ==> Disjoint(x, z)
    ensures Disjoint(z, y) ==> Disjoint(z, x)
  {
  }

  /** Shrinking one side keeps the core. */
  lemma ShrinkCore(b: Book, side: Side, x: seq<Resting>, f: seq<nat>)
    requires Core(b.bids, b.asks) && Embeds(x, b.At(side), f)
    ensures Core(b.With(side, x).bids, b.With(side, x).asks)
  {
    hide SideInv, Disjoint, Embeds;
    EmbedsSide(side, x, b.At(side), f);
    EmbedsDisjoint(x, b.At(side), f, b.At(side.Opposite()));
  }

  lemma RemoveEmbeds(flat: seq<Resting>, n: nat) returns (f: seq<nat>)
    requires n < |flat| && Sound(flat)
    ensures Embeds(RemoveAt(flat, n), flat, f)
  {
    f := seq(|flat| - 1, i => if i < n then i else i + 1);
  }

  lemma MatchEmbeds(symbol: string, o: NewOrder, rem: u32, opp: seq<Resting>) returns (f: seq<nat>)
    requires Sound(opp)
    ensures Embeds(Match(symbol, o, rem, opp).left, opp, f)
  {
    hide Match;
    var k := MatchLeaves(symbol, o, rem, opp);
    f := seq(|Match(symbol, o, rem, opp).left|, i requires i >= 0 => k + i);
  }

  // ----- Queueing an order -----

  /** The new order stands behind every order at least as good and before every worse one. */
  lemma {:induction false} EnqueuePlace(side: Side, flat: seq<Resting>, r: Resting) returns (n: nat)
    requires Ordered(side, flat)
    ensures n <= |flat| && Enqueue(side, flat, r) == InsertAt(flat, n, r)
    ensures forall i :: 0 <= i < n ==> !Better(side, r.price, flat[i].price)
    ensures forall i :: n <= i < |flat| ==> Better(side, r.price, flat[i].price)
    ensures forall i :: 0 <= i < n ==> if side == Buy then flat[i].price >= r.price else flat[i].price <= r.price
    ensures forall i :: n <= i < |flat| ==> if side == Buy then flat[i].price < r.price else flat[i].price > r.price
  {
    if flat == [] || Better(side, r.price, flat[0].price) {
      n := 0;
    } else {
      n := EnqueuePlace(side, flat[1..], r);
      n := n + 1;
      assert InsertAt(flat, n, r) == [flat[0]] + InsertAt(flat[1..], n - 1, r);
    }
  }

  lemma InsertSide(side: Side, flat: seq<Resting>, n: nat, r: Resting)
    requires SideInv(side, flat) && n <= |flat| && r.price > 0 && 0 < r.rem <= r.quantity
    requires forall i :: 0 <= i < n ==> !Better(side, r.price, flat[i].price)
    requires forall i :: n <= i < |flat| ==> Better(side, r.price, flat[i].price)
    requires !HasKey(flat, RestKey(r))
    ensures SideInv(side, InsertAt(flat, n, r))
    ensures var q := InsertAt(flat, n, r); q[0].price == if n == 0 then r.price else flat[0].price
  {
    var q := InsertAt(flat, n, r);
    assert forall i :: 0 <= i < |q| ==> q[i] == if i < n then flat[i] else if i == n then r else flat[i - 1];
  }

  lemma InsertDisjoint(flat: seq<Resting>, n: nat, r: Resting, z: seq<Resting>)
    requires n <= |flat| && !HasKey(z, RestKey(r))
    ensures Disjoint(flat, z) ==> Disjoint(InsertAt(flat, n, r), z)
    ensures Disjoint(z, flat) ==> Disjoint(z, InsertAt(flat, n, r))
  {
    var q := InsertAt(flat, n, r);
    assert forall i :: 0 <= i < |q| ==> q[i] == if i < n then flat[i] else if i == n then r else flat[i - 1];
  }

  /** A remainder that does not cross the other side may rest. */
  lemma RestCore(b: Book, side: Side, r: Resting)
    requires Core(b.bids, b.asks) && !Live(b, RestKey(r)) && r.price > 0 && 0 < r.rem <= r.quantity
    requires b.At(side.Opposite()) != [] ==> !Crosses(side, r.price, b.At(side.Opposite())[0].price)
    ensures var b' := b.With(side, Enqueue(side, b.At(side), r)); Core(b'.bids, b'.asks)
  {
    hide Disjoint, Apart, Sound, Enqueue, HasKey;
    var flat := b.At(side);
    var n := EnqueuePlace(side, flat, r);
    InsertSide(side, flat, n, r);
    InsertDisjoint(flat, n, r, b.At(side.Opposite()));
  }

  // ----- Each operation keeps the invariant -----

  lemma AnnounceInv(b: Book)
    requires Core(b.bids, b.asks)
    ensures Inv(Announce(b).book) && Announce(b).book.bids == b.bids && Announce(b).book.asks == b.asks
  {
  }

  lemma SettleCore(b: Book, o: NewOrder)
    requires Core(b.bids, b.asks) && o.quantity > 0 && NewKey(b, o)
    ensures Core(Settle(b, o).bids, Settle(b, o).asks)
  {
    hide Match, Disjoint, Apart, Ordered, Uncrossed, Enqueue, HasKey;
    var side := o.side.Opposite();
    var m := MatchIn(b, o);
    var f := MatchEmbeds(b.symbol, o, o.quantity, b.At(side));
    ShrinkCore(b, side, m.left, f);
    MatchStops(b.symbol, o, o.quantity, b.At(side));
    MatchConserves(b.symbol, o, o.quantity, b.At(side));
    var b1 := b.With(side, m.left);
    if Rests(b, o) {
      var r := Resting(o.user, o.oid, o.client, o.price, o.quantity, m.rem);
      RestCore(b1, o.side, r);
    }
  }

  lemma AddInv(b: Book, o: NewOrder)
    requires Inv(b) && o.quantity > 0 && NewKey(b, o)
    ensures Inv(PriceTime.AddOrder(b, o).book)
  {
    hide Core, Settle, Announce;
    SettleCore(b, o);
    AnnounceInv(Settle(b, o));
  }

  /** Dropping a key removes its one order and shifts nothing else. */
  lemma {:induction false} DropKeyIs(flat: seq<Resting>, key: nat) returns (n: nat)
    requires HasKey(flat, key)
    ensures n < |flat| && RestKey(flat[n]) == key && DropKey(flat, key) == RemoveAt(flat, n)
  {
    if RestKey(flat[0]) == key {
      n := 0;
    } else {
      var i :| 0 <= i < |flat| && RestKey(flat[i]) == key;
      assert RestKey(flat[1..][i - 1]) == key;
      n := DropKeyIs(flat[1..], key);
      n := n + 1;
      assert RemoveAt(flat, n) == [flat[0]] + RemoveAt(flat[1..], n - 1);
    }
  }

  /** The side on which a key is live. */
  function SideOf(b: Book, key: nat): Side {
    if HasKey(b.bids, key) then Buy else Sell
  }

  lemma CancelInv(b: Book, user: u32, oid: u32)
    requires Inv(b)
    ensures Inv(PriceTime.CancelOrder(b, user, oid).book)
  {
    hide Ordered, Apart, Disjoint, Uncrossed, Announce, HasKey;
    var key := Key(user, oid);
    if Live(b, key) {
      var side := SideOf(b, key);
      var n := DropKeyIs(b.At(side), key);
      var f := RemoveEmbeds(b.At(side), n);
      ShrinkCore(b, side, DropKey(b.At(side), key), f);
      AnnounceInv(b.With(side, DropKey(b.At(side), key)));
    }
  }

  lemma {:induction false} CancelAllInv(b: Book, keys: seq<(u32, u32)>)
    requires Inv(b)
    ensures Inv(CancelAll(b, keys).book)
    decreases |keys|
  {
    hide Inv, PriceTime.CancelOrder;
    if keys != [] {
      CancelInv(b, keys[0].0, keys[0].1);
      CancelAllInv(PriceTime.CancelOrder(b, keys[0].0, keys[0].1).book, keys[1..]);
    }
  }

  // ----- Runs -----

  datatype Op = Add(o: NewOrder) | Cancel(user: u32, oid: u32) | CancelFor(client: u32) | FlushAll

  function Step(b: Book, op: Op): Outcome {
    match op
    case Add(o) => PriceTime.AddOrder(b, o)
    case Cancel(user, oid) => PriceTime.CancelOrder(b, user, oid)
    case CancelFor(client) => CancelClient(b, client)
    case FlushAll => Flush(b)
  }

  /** A new order has a positive quantity, and its key does not rest when it comes to rest. */
  predicate Fresh(b: Book, op: Op) {
    op.Add? ==> op.o.quantity > 0 && NewKey(b, op.o)
  }

  function Run(symbol: string, ops: seq<Op>): Outcome {
    if ops == [] then Outcome(EmptyBook(symbol), [])
    else
      var r := Run(symbol, ops[..|ops| - 1]);
      var s := Step(r.book, ops[|ops| - 1]);
      Outcome(s.book, r.msgs + s.msgs)
  }

  predicate FreshRun(symbol: string, ops: seq<Op>) {
    ops != [] ==>
      && FreshRun(symbol, ops[..|ops| - 1])
      && Fresh(Run(symbol, ops[..|ops| - 1]).book, ops[|ops| - 1])
  }

  lemma StepInv(b: Book, op: Op)
    requires Inv(b) && Fresh(b, op)
    ensures Inv(Step(b, op).book) && Step(b, op).book.symbol == b.symbol
  {
    hide Core, Settle, Announced, Announce, CancelAll, HasKey;
    match op {
      case Add(o) => AddInv(b, o); assert Announce(Settle(b, o)).book.symbol == b.symbol by { SameSymbol(b, o); }
      case Cancel(user, oid) => CancelInv(b, user, oid); CancelSymbol(b, user, oid);
      case CancelFor(client) => CancelAllInv(b, Collected(b, client)); CancelAllSymbol(b, Collected(b, client));
      case FlushAll => EmptyInv(b.symbol);
    }
  }

  lemma SameSymbol(b: Book, o: NewOrder)
    ensures Announce(Settle(b, o)).book.symbol == b.symbol
  {
  }

  lemma CancelSymbol(b: Book, user: u32, oid: u32)
    ensures PriceTime.CancelOrder(b, user, oid).book.symbol == b.symbol
  {
  }

  lemma {:induction false} CancelAllSymbol(b: Book, keys: seq<(u32, u32)>)
    ensures CancelAll(b, keys).book.symbol == b.symbol
    decreases |keys|
  {
    hide PriceTime.CancelOrder;
    if keys != [] {
      CancelSymbol(b, keys[0].0, keys[0].1);
      CancelAllSymbol(PriceTime.CancelOrder(b, keys[0].0, keys[0].1).book, keys[1..]);
    }
  }

  lemma EmptyInv(symbol: string)
    ensures Inv(EmptyBook(symbol))
  {
  }

  /** After every run of operations with fresh keys: both sides are sorted by price, every
      resting order is a live limit order, keys are unique, the book is uncrossed, and the
      announced tops are the current ones. */
  lemma {:induction false} RunInv(symbol: string, ops: seq<Op>)
    requires FreshRun(symbol, ops)
    ensures Inv(Run(symbol, ops).book) && Run(symbol, ops).book.symbol == symbol
    decreases |ops|
  {
    hide Inv, Step, Fresh;
    EmptyInv(symbol);
    if ops != [] {
      RunInv(symbol, ops[..|ops| - 1]);
      StepInv(Run(symbol, ops[..|ops| - 1]).book, ops[|ops| - 1]);
    }
  }
}
