/** The specification of a single-symbol book: each side is one sequence of
    resting orders, best price first and oldest first within a price.
    Everything here is a pure function; the array-based book is proved against it. */
module PriceTime {
  import opened Orders
  import opened Sequences

  /** Price `p` has strict priority over price `q` among orders resting on `side`. */
  predicate Better(side: Side, p: int, q: int) {
    if side == Buy then p > q else p < q
  }

  /** An incoming order may trade at a resting price; price 0 marks a market order. */
  predicate Crosses(side: Side, price: int, resting: int) {
    price == 0 || (if side == Buy then price >= resting else price <= resting)
  }

  function TradeMsg(symbol: string, o: NewOrder, r: Resting, qty: u32): Msg {
    if o.side == Buy then
      Trade(symbol, o.user, o.oid, o.client, r.user, r.oid, r.client, r.price, qty)
    else
      Trade(symbol, r.user, r.oid, r.client, o.user, o.oid, o.client, r.price, qty)
  }

  /** The trades, the unfilled remainder, and what is left of the opposite side. */
  datatype Matched = Matched(trades: seq<Msg>, rem: u32, left: seq<Resting>)

  /** Greedy price-then-time matching on the flattened opposite side. */
  function Match(symbol: string, o: NewOrder, rem: u32, opp: seq<Resting>): Matched
    decreases |opp|
  {
    if rem == 0 || opp == [] || !Crosses(o.side, o.price, opp[0].price) then
      Matched([], rem, opp)
    else if opp[0].rem <= rem then
      var m := Match(symbol, o, rem - opp[0].rem, opp[1..]);
      m.(trades := [TradeMsg(symbol, o, opp[0], opp[0].rem)] + m.trades)
    else
      Matched([TradeMsg(symbol, o, opp[0], rem)], 0,
              [opp[0].(rem := opp[0].rem - rem)] + opp[1..])
  }

  /** The keys of the orders that `Match` consumes completely. */
  ghost function FilledKeys(o: NewOrder, rem: u32, opp: seq<Resting>): set<nat>
    decreases |opp|
  {
    if rem == 0 || opp == [] || !Crosses(o.side, o.price, opp[0].price) then {}
    else if opp[0].rem <= rem then
      {RestKey(opp[0])} + FilledKeys(o, rem - opp[0].rem, opp[1..])
    else {}
  }

  /** Queue `r` behind every order whose price is at least as good. */
  function Enqueue(side: Side, flat: seq<Resting>, r: Resting): seq<Resting> {
    if flat == [] || Better(side, r.price, flat[0].price) then [r] + flat
    else [flat[0]] + Enqueue(side, flat[1..], r)
  }

  predicate HasKey(flat: seq<Resting>, key: nat) {
    exists i :: 0 <= i < |flat| && RestKey(flat[i]) == key
  }

  function DropKey(flat: seq<Resting>, key: nat): seq<Resting> {
    if flat == [] then []
    else if RestKey(flat[0]) == key then flat[1..]
    else [flat[0]] + DropKey(flat[1..], key)
  }

  /** Total unfilled quantity resting at `price`. */
  function QtyAt(flat: seq<Resting>, price: int): nat {
    if flat == [] then 0
    else (if flat[0].price == price then flat[0].rem else 0) + QtyAt(flat[1..], price)
  }

  function TotalQty(flat: seq<Resting>): nat {
    if flat == [] then 0 else flat[0].rem + TotalQty(flat[1..])
  }

  datatype Top = Top(price: u32, qty: u32)

  function Best(flat: seq<Resting>): Top {
    if flat == [] then Top(0, 0)
    else Top(flat[0].price, Wrap32(QtyAt(flat, flat[0].price)))
  }

  datatype Book = Book(
    symbol: string, bids: seq<Resting>, asks: seq<Resting>,
    seenBid: Top, seenAsk: Top, bidActive: bool, askActive: bool)
  {
    function At(side: Side): seq<Resting> {
      if side == Buy then bids else asks
    }

    function With(side: Side, flat: seq<Resting>): Book {
      if side == Buy then this.(bids := flat) else this.(asks := flat)
    }
  }

  function EmptyBook(symbol: string): Book {
    Book(symbol, [], [], Top(0, 0), Top(0, 0), false, false)
  }

  datatype Outcome = Outcome(book: Book, msgs: seq<Msg>)

  /** The message, if any, that one side's top-of-book check emits. */
  function TopMsgs(symbol: string, side: Side, seen: Top, now: Top, active: bool): seq<Msg> {
    if now == seen then []
    else if now.price == 0 && active then [TopOfBook(TopSymbol(symbol), side, 0, 0)]
    else if now.price > 0 then [TopOfBook(TopSymbol(symbol), side, now.price, now.qty)]
    else []
  }

  function Announce(b: Book): Outcome {
    var bid, ask := Best(b.bids), Best(b.asks);
    var bidActive, askActive := b.bidActive || bid.price > 0, b.askActive || ask.price > 0;
    Outcome(
      b.(seenBid := bid, seenAsk := ask, bidActive := bidActive, askActive := askActive),
      TopMsgs(b.symbol, Buy, b.seenBid, bid, bidActive)
      + TopMsgs(b.symbol, Sell, b.seenAsk, ask, askActive))
  }

  function MatchIn(b: Book, o: NewOrder): Matched {
    Match(b.symbol, o, o.quantity, b.At(o.side.Opposite()))
  }

  /** Some of a limit order is left over and must rest. */
  predicate Rests(b: Book, o: NewOrder) {
    o.price > 0 && MatchIn(b, o).rem > 0
  }

  /** The book once `o` has matched and its limit remainder is queued. */
  function Settle(b: Book, o: NewOrder): Book {
    var m := MatchIn(b, o);
    var b1 := b.With(o.side.Opposite(), m.left);
    if Rests(b, o) then
      b1.With(o.side, Enqueue(o.side, b.At(o.side),
                              Resting(o.user, o.oid, o.client, o.price, o.quantity, m.rem)))
    else b1
  }

  function AddOrder(b: Book, o: NewOrder): Outcome {
    var a := Announce(Settle(b, o));
    Outcome(a.book, [Ack(b.symbol, o.user, o.oid)] + MatchIn(b, o).trades + a.msgs)
  }

  predicate Live(b: Book, key: nat) {
    HasKey(b.bids, key) || HasKey(b.asks, key)
  }

  /** The order's key still rests on one side or the other once the order has matched. */
  predicate LiveAfter(b: Book, o: NewOrder) {
    HasKey(b.At(o.side), Key(o.user, o.oid)) || HasKey(MatchIn(b, o).left, Key(o.user, o.oid))
  }

  /** If anything of the order is to rest, its key does not rest already. */
  predicate NewKey(b: Book, o: NewOrder) {
    Rests(b, o) ==> !LiveAfter(b, o)
  }

  function CancelOrder(b: Book, user: u32, oid: u32): Outcome {
    var key := Key(user, oid);
    var ack := CancelAck(b.symbol, user, oid);
    if !Live(b, key) then Outcome(b, [ack])
    else
      var b1 := if HasKey(b.bids, key) then b.(bids := DropKey(b.bids, key))
                else b.(asks := DropKey(b.asks, key));
      var a := Announce(b1);
      Outcome(a.book, [ack] + a.msgs)
  }

  function CancelAll(b: Book, keys: seq<(u32, u32)>): Outcome
    decreases |keys|
  {
    if keys == [] then Outcome(b, [])
    else
      var first := CancelOrder(b, keys[0].0, keys[0].1);
      var rest := CancelAll(first.book, keys[1..]);
      Outcome(rest.book, first.msgs + rest.msgs)
  }

  /** How many orders of one price level a client cancel looks at. */
  const SCAN: nat := 200

  /** The orders among the first 200 of their price level; `n` orders at `price`
      come directly before `flat`. */
  function Reach(flat: seq<Resting>, price: int, n: nat): seq<Resting> {
    if flat == [] then []
    else
      var rank := if flat[0].price == price then n else 0;
      (if rank < SCAN then [flat[0]] else []) + Reach(flat[1..], flat[0].price, rank + 1)
  }

  /** The keys of a client's orders, in order. */
  function KeysOf(flat: seq<Resting>, client: u32): seq<(u32, u32)> {
    if flat == [] then []
    else (if flat[0].client == client then [(flat[0].user, flat[0].oid)] else []) + KeysOf(flat[1..], client)
  }

  /** The keys a client cancel collects before it cancels anything. */
  function Collected(b: Book, client: u32): seq<(u32, u32)> {
    KeysOf(Reach(b.bids, 0, 0), client) + KeysOf(Reach(b.asks, 0, 0), client)
  }

  function CancelClient(b: Book, client: u32): Outcome {
    CancelAll(b, Collected(b, client))
  }

  /** How many orders one flush call acknowledges at most. */
  const BATCH: nat := 4096

  /** One cancel acknowledgement per order, in order. */
  function Acks(symbol: string, flat: seq<Resting>): seq<Msg> {
    seq(|flat|, i requires 0 <= i < |flat| => CancelAck(symbol, flat[i].user, flat[i].oid))
  }

  /** The messages that end a flush: one per side that was ever active. */
  function Eliminated(b: Book): seq<Msg> {
    (if b.bidActive then [TopOfBook(TopSymbol(b.symbol), Buy, 0, 0)] else [])
    + (if b.askActive then [TopOfBook(TopSymbol(b.symbol), Sell, 0, 0)] else [])
  }

  /** A whole flush: every order acknowledged, bids best first, then asks. */
  function Flush(b: Book): Outcome {
    Outcome(EmptyBook(b.symbol), Acks(b.symbol, b.bids + b.asks) + Eliminated(b))
  }
}
