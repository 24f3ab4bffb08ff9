/** The values that the order book stores and exchanges: 32-bit quantities,
    pooled orders with their list links, and the messages in and out. */
module Orders {

  type u32 = x: int | 0 <= x < 0x1_0000_0000

  /** The remainder kept by an unsigned 32-bit variable. */
  function Wrap32(x: int): (r: u32)
    ensures (x - r) % 0x1_0000_0000 == 0
    ensures 0 <= x < 0x1_0000_0000 ==> r == x
  {
    x % 0x1_0000_0000
  }

  datatype Side = Buy | Sell {
    function Opposite(): Side {
      if this == Buy then Sell else Buy
    }
  }

  /** A pool slot.  `next` and `prev` are pool indices; NIL stands for NULL. */
  const NIL := -1

  datatype Order = Order(
    userId: u32, userOrderId: u32, price: u32, quantity: u32, remaining: u32,
    side: Side, market: bool, clientId: u32, next: int, prev: int)

  /** An order without its list links. */
  datatype Resting = Resting(
    user: u32, oid: u32, client: u32, price: u32, quantity: u32, rem: u32)

  function Strip(o: Order): Resting {
    Resting(o.userId, o.userOrderId, o.clientId, o.price, o.quantity, o.remaining)
  }

  datatype NewOrder = NewOrder(
    user: u32, oid: u32, client: u32, side: Side, price: u32, quantity: u32)

  datatype Msg =
    | Ack(symbol: string, user: u32, oid: u32)
    | CancelAck(symbol: string, user: u32, oid: u32)
    | Trade(symbol: string, buyUser: u32, buyOid: u32, buyClient: u32,
            sellUser: u32, sellOid: u32, sellClient: u32, price: u32, qty: u32)
    | TopOfBook(symbol: string, side: Side, price: u32, qty: u32)

  /** The top-of-book message keeps only 14 characters of the symbol. */
  function TopSymbol(symbol: string): (r: string)
    ensures |r| <= 14 && r <= symbol
    ensures if |symbol| <= 14 then r == symbol else |r| == 14
  {
    if |symbol| <= 14 then symbol else symbol[..14]
  }

  /** The 64-bit order key: user id in the high half, order id in the low half. */
  function Key(user: u32, oid: u32): nat {
    user * 0x1_0000_0000 + oid
  }

  function OrderKey(o: Order): nat {
    Key(o.userId, o.userOrderId)
  }

  function RestKey(r: Resting): nat {
    Key(r.user, r.oid)
  }

  /** Two orders share a key exactly when both halves agree. */
  lemma KeyInjective(u: u32, o: u32, u': u32, o': u32)
    ensures Key(u, o) == Key(u', o') <==> u == u' && o == o'
    ensures Key(u, o) < 0x1_0000_0000_0000_0000
    ensures Key(u, o) / 0x1_0000_0000 == u && Key(u, o) % 0x1_0000_0000 == o
  {
  }
}
