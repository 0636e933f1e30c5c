/** The per-instrument market-making order generator: skew the thresholds,
    take favourable book levels on both sides, recompute the thresholds from
    the new position, then post or liquidate. */
module MarketMaking {
  import opened Orders
  import opened Quoting
  import opened Taking
  import opened Posting

  /** Both taking passes, sell side first, with thresholds skewed by the
      starting position; the sell-side pass hands its running position to the
      buy-side pass. */
  function TakingPhase(p: Params, fair: int, pos: int, asks: seq<Level>, bids: seq<Level>): (t: Pass)
    ensures t.position == pos + NetQuantity(t.orders)
    ensures |t.orders| <= |asks| + |bids|
    ensures WellSigned(Asks, asks) && WellSigned(Bids, bids) && WithinLimit(pos, p.limit) ==>
              WithinLimit(t.position, p.limit)
  {
    var q := Skew(p, fair, pos);
    var a := TakePass(Asks, asks, q.buy, p.limit, pos);
    var b := TakePass(Bids, bids, q.sell, p.limit, a.position);
    NetQuantityAppend(a.orders, b.orders);
    Pass(a.orders + b.orders, b.position)
  }

  /** The orders of one step: the taken levels in book order, followed by the
      posted orders for the position taking left behind. */
  function MakeOrders(p: Params, fair: int, pos: int, asks: seq<Level>, bids: seq<Level>): (r: seq<Order>)
    ensures var t := TakingPhase(p, fair, pos, asks, bids);
            && |r| == |t.orders| + (if NormalBand(p, t.position) then 2 else 1)
            && r[..|t.orders|] == t.orders
  {
    var t := TakingPhase(p, fair, pos, asks, bids);
    t.orders + Post(p, fair, t.position)
  }

  /** The sell-side loop of `makeOrders`, guard written inline:
      it appends to `orders` exactly what the sell-side pass takes and ends at
      the pass's running position. */
  method BuyFromAsks(asks: seq<Level>, buyPrice: int, limit: int, orders: seq<Order>, position: int)
    returns (orders': seq<Order>, pos: int)
    ensures orders' == orders + TakePass(Asks, asks, buyPrice, limit, position).orders
    ensures pos == TakePass(Asks, asks, buyPrice, limit, position).position
  {
    orders' := orders;
    pos := position;
    ghost var a := TakePass(Asks, asks, buyPrice, limit, position);
    var i := 0;
    while i < |asks|
      invariant 0 <= i <= |asks|
      invariant orders' + TakePass(Asks, asks[i..], buyPrice, limit, pos).orders == orders + a.orders
      invariant TakePass(Asks, asks[i..], buyPrice, limit, pos).position == a.position
      decreases |asks| - i
    {
      var (price, volume) := asks[i];
      assert asks[i..][1..] == asks[i + 1..];
      TakePassStep(Asks, asks[i..], buyPrice, limit, pos);
      if price <= buyPrice && pos - volume <= limit {
        orders' := orders' + [Order(price, -volume)];
        pos := pos - volume;
      }
      i := i + 1;
    }
    assert asks[|asks|..] == [];
  }

  /** The buy-side loop of `makeOrders`, guard written inline:
      it appends to `orders` exactly what the buy-side pass takes and ends at
      the pass's running position. */
  method SellIntoBids(bids: seq<Level>, sellPrice: int, limit: int, orders: seq<Order>, position: int)
    returns (orders': seq<Order>, pos: int)
    ensures orders' == orders + TakePass(Bids, bids, sellPrice, limit, position).orders
    ensures pos == TakePass(Bids, bids, sellPrice, limit, position).position
  {
    orders' := orders;
    pos := position;
    ghost var b := TakePass(Bids, bids, sellPrice, limit, position);
    var j := 0;
    while j < |bids|
      invariant 0 <= j <= |bids|
      invariant orders' + TakePass(Bids, bids[j..], sellPrice, limit, pos).orders == orders + b.orders
      invariant TakePass(Bids, bids[j..], sellPrice, limit, pos).position == b.position
      decreases |bids| - j
    {
      var (price, volume) := bids[j];
      assert bids[j..][1..] == bids[j + 1..];
      TakePassStep(Bids, bids[j..], sellPrice, limit, pos);
      if price >= sellPrice && pos - volume >= -limit {
        orders' := orders' + [Order(price, -volume)];
        pos := pos - volume;
      }
      j := j + 1;
    }
    assert bids[|bids|..] == [];
  }

  /** `makeOrders` in its imperative form, with both threshold blocks written
      out inline and the two book sides walked by loops; it computes exactly
      `MakeOrders`, so the two inline threshold blocks agree with `Skew`. */
  method ComputeOrders(p: Params, fair: int, position: int, asks: seq<Level>, bids: seq<Level>)
    returns (orders: seq<Order>)
    ensures orders == MakeOrders(p, fair, position, asks, bids)
  {
    var pos := position;
    var buyPrice, sellPrice;
    if pos <= -p.customLimit {
      buyPrice := fair + p.liquidateVal;
    } else {
      buyPrice := fair - p.spread;
    }
    if pos >= p.customLimit {
      sellPrice := fair - p.liquidateVal;
    } else {
      sellPrice := fair + p.spread;
    }
    ghost var t := TakingPhase(p, fair, position, asks, bids);
    orders, pos := BuyFromAsks(asks, buyPrice, p.limit, [], pos);
    orders, pos := SellIntoBids(bids, sellPrice, p.limit, orders, pos);
    assert orders == t.orders && pos == t.position;
    if pos <= -p.customLimit {
      buyPrice := fair + p.liquidateVal;
    } else {
      buyPrice := fair - p.spread;
    }
    if pos >= p.customLimit {
      sellPrice := fair - p.liquidateVal;
    } else {
      sellPrice := fair + p.spread;
    }
    assert Quotes(buyPrice, sellPrice) == Skew(p, fair, pos);
    ghost var post := Post(p, fair, pos);
    if pos <= -p.customLimit {
      orders := orders + [Order(buyPrice, -pos)];
    } else if pos >= p.customLimit {
      orders := orders + [Order(sellPrice, -pos)];
    } else {
      orders := orders + [Order(buyPrice, p.customLimit)];
      orders := orders + [Order(sellPrice, -p.customLimit)];
    }
    assert orders == t.orders + post;
  }

  /** Filling every order of the step moves the starting position to a
      position within the hard limit, provided it started there and both book
      sides carry their sign convention. */
  lemma NetPositionWithinLimit(p: Params, fair: int, pos: int, asks: seq<Level>, bids: seq<Level>)
    requires WellSigned(Asks, asks) && WellSigned(Bids, bids)
    requires WithinLimit(pos, p.limit)
    ensures WithinLimit(pos + NetQuantity(MakeOrders(p, fair, pos, asks, bids)), p.limit)
  {
    var t := TakingPhase(p, fair, pos, asks, bids);
    NetQuantityAppend(t.orders, Post(p, fair, t.position));
    PostNetQuantity(p, fair, t.position);
  }

  /** When taking leaves the position at or beyond the soft threshold, filling
      every order of the step flattens the position; otherwise filling every
      order leaves it where taking left it. */
  lemma StepNetEffect(p: Params, fair: int, pos: int, asks: seq<Level>, bids: seq<Level>)
    ensures var t := TakingPhase(p, fair, pos, asks, bids);
            var net := pos + NetQuantity(MakeOrders(p, fair, pos, asks, bids));
            && (!NormalBand(p, t.position) ==> net == 0)
            && (NormalBand(p, t.position) ==> net == t.position)
  {
    var t := TakingPhase(p, fair, pos, asks, bids);
    NetQuantityAppend(t.orders, Post(p, fair, t.position));
    PostNetQuantity(p, fair, t.position);
  }

  /** The running position stays within the hard limit through every taken
      order of the step, sell side then buy side. */
  lemma TakingRunningWithinLimit(p: Params, fair: int, pos: int, asks: seq<Level>, bids: seq<Level>)
    requires WellSigned(Asks, asks) && WellSigned(Bids, bids)
    requires WithinLimit(pos, p.limit)
    ensures RunningWithinLimit(pos, TakingPhase(p, fair, pos, asks, bids).orders, p.limit)
  {
    var q := Skew(p, fair, pos);
    var a := TakePass(Asks, asks, q.buy, p.limit, pos);
    var b := TakePass(Bids, bids, q.sell, p.limit, a.position);
    RunningPositionWithinLimit(Asks, asks, q.buy, p.limit, pos);
    RunningPositionWithinLimit(Bids, bids, q.sell, p.limit, a.position);
    RunningConcat(pos, a.orders, b.orders, p.limit);
  }

  /** Running within the limit through `a` and then, from where `a` ends,
      through `b`, is running within the limit through `a + b`. */
  lemma {:induction false} RunningConcat(pos: int, a: seq<Order>, b: seq<Order>, limit: int)
    requires RunningWithinLimit(pos, a, limit)
    requires RunningWithinLimit(pos + NetQuantity(a), b, limit)
    ensures RunningWithinLimit(pos, a + b, limit)
    decreases |a|
  {
    if |a| == 0 {
      assert a + b == b;
    } else {
      assert (a + b)[1..] == a[1..] + b;
      RunningConcat(pos + a[0].quantity, a[1..], b, limit);
    }
  }

  /** In the soft band, the two posted quotes are `customLimit` on each side at
      `fair - spread` and `fair + spread`, whatever the position in the band;
      the step then holds exactly two orders more than taking produced. */
  lemma NormalBandPosting(p: Params, fair: int, pos: int, asks: seq<Level>, bids: seq<Level>)
    requires NormalBand(p, TakingPhase(p, fair, pos, asks, bids).position)
    ensures var t := TakingPhase(p, fair, pos, asks, bids);
            var r := MakeOrders(p, fair, pos, asks, bids);
            && |r| == |t.orders| + 2
            && r[|t.orders|] == Order(fair - p.spread, p.customLimit)
            && r[|t.orders| + 1] == Order(fair + p.spread, -p.customLimit)
  {
  }

  /** At or beyond the soft threshold after taking, the step ends in exactly
      one order that brings the position to zero, priced `liquidateVal` from
      fair value in the direction that favours closing. */
  lemma LiquidationPosting(p: Params, fair: int, pos: int, asks: seq<Level>, bids: seq<Level>)
    requires !NormalBand(p, TakingPhase(p, fair, pos, asks, bids).position)
    ensures var t := TakingPhase(p, fair, pos, asks, bids);
            var r := MakeOrders(p, fair, pos, asks, bids);
            && |r| == |t.orders| + 1
            && t.position + r[|t.orders|].quantity == 0
            && r[|t.orders|].price == (if ShortExtreme(p, t.position) then fair + p.liquidateVal
                                       else fair - p.liquidateVal)
  {
    var t := TakingPhase(p, fair, pos, asks, bids);
    var post := Post(p, fair, t.position);
    assert NetQuantity(post) == post[0].quantity + NetQuantity([]);
  }

  /** An empty book takes nothing: the step is the posting pass alone, decided
      by the starting position. */
  lemma EmptyBookOnlyPosts(p: Params, fair: int, pos: int)
    ensures MakeOrders(p, fair, pos, [], []) == Post(p, fair, pos)
  {
  }
}
