/** Order-book levels, orders and position bookkeeping shared by the market-making model. */
module Orders {

  /** One resting price level of a book side, as (price, volume), in the order the
      book yields it. Sell-side volumes are negative by convention, buy-side
      volumes positive. */
  type Level = (int, int)

  /** The two sides of an order book: `Asks` are the resting sell orders the
      strategy may buy from, `Bids` the resting buy orders it may sell into. */
  datatype Side = Asks | Bids

  /** An order for the strategy's own product: a positive quantity buys, a
      negative quantity sells. The product symbol is fixed per strategy and is
      not carried. */
  datatype Order = Order(price: int, quantity: int)

  /** The change of position if every order in `os` filled completely. */
  function NetQuantity(os: seq<Order>): (n: int)
    decreases |os|
  {
    if |os| == 0 then 0 else os[0].quantity + NetQuantity(os[1..])
  }

  /** Filling two order lists one after the other moves the position by the sum
      of their net quantities. */
  lemma {:induction false} NetQuantityAppend(a: seq<Order>, b: seq<Order>)
    ensures NetQuantity(a + b) == NetQuantity(a) + NetQuantity(b)
    decreases |a|
  {
    if |a| == 0 {
      assert a + b == b;
    } else {
      assert (a + b)[1..] == a[1..] + b;
      NetQuantityAppend(a[1..], b);
    }
  }

  /** Every volume of `levels` carries the sign convention of its side. */
  predicate WellSigned(side: Side, levels: seq<Level>)
  {
    forall i :: 0 <= i < |levels| ==> if side == Asks then levels[i].1 <= 0 else levels[i].1 >= 0
  }

  /** The hard position bound `-limit <= pos <= limit`. */
  predicate WithinLimit(pos: int, limit: int)
  {
    -limit <= pos <= limit
  }
}
