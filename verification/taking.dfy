/** The taking pass: walk one book side in its iteration order and take every
    favourably priced level whose full volume keeps the running position
    inside the side's guarded bound. */
module Taking {
  import opened Orders

  /** The level's price is at least as good as the threshold: at or below the
      buy threshold for a resting sell, at or above the sell threshold for a
      resting buy. Equality counts as favourable. */
  predicate Favourable(side: Side, price: int, threshold: int)
  {
    if side == Asks then price <= threshold else price >= threshold
  }

  /** Taking the level's full `volume` from position `pos` keeps the bound that
      `makeOrders` guards on this side: the upper bound when buying, the lower
      bound when selling. */
  predicate Fits(side: Side, pos: int, volume: int, limit: int)
  {
    if side == Asks then pos - volume <= limit else pos - volume >= -limit
  }

  /** The order emitted for a taken level: its price, and the opposite of its
      signed volume. */
  function TakeOrder(level: Level): (o: Order)
  {
    Order(level.0, -level.1)
  }

  /** `o` is the take order of some favourably priced level of `levels`. */
  ghost predicate TakenFrom(side: Side, o: Order, levels: seq<Level>, threshold: int)
  {
    exists i :: 0 <= i < |levels| && o == TakeOrder(levels[i]) && Favourable(side, levels[i].0, threshold)
  }

  /** The orders one pass emits and the running position it ends with. */
  datatype Pass = Pass(orders: seq<Order>, position: int)

  /** The fold over one book side, threading the running position. */
  function TakePass(side: Side, levels: seq<Level>, threshold: int, limit: int, pos: int): (r: Pass)
    ensures r.position == pos + NetQuantity(r.orders)
    ensures |r.orders| <= |levels|
    ensures WellSigned(side, levels) && WithinLimit(pos, limit) ==> WithinLimit(r.position, limit)
    decreases |levels|
  {
    if |levels| == 0 then Pass([], pos)
    else
      var level := levels[0];
      if Favourable(side, level.0, threshold) && Fits(side, pos, level.1, limit) then
        var rest := TakePass(side, levels[1..], threshold, limit, pos - level.1);
        Pass([TakeOrder(level)] + rest.orders, rest.position)
      else
        TakePass(side, levels[1..], threshold, limit, pos)
  }

  /** One step of the fold: the head level is taken exactly when it is
      favourable and fits, and the rest of the side is walked from the
      resulting position. */
  lemma TakePassStep(side: Side, levels: seq<Level>, threshold: int, limit: int, pos: int)
    requires |levels| > 0
    ensures var level := levels[0];
            var taken := Favourable(side, level.0, threshold) && Fits(side, pos, level.1, limit);
            var rest := TakePass(side, levels[1..], threshold, limit, if taken then pos - level.1 else pos);
            TakePass(side, levels, threshold, limit, pos)
              == if taken then Pass([TakeOrder(level)] + rest.orders, rest.position) else rest
  {
  }

  /** An order taken from the tail of `levels` is taken from `levels`. */
  lemma TakenFromShift(side: Side, os: seq<Order>, levels: seq<Level>, threshold: int)
    requires |levels| > 0
    requires forall k :: 0 <= k < |os| ==> TakenFrom(side, os[k], levels[1..], threshold)
    ensures forall k :: 0 <= k < |os| ==> TakenFrom(side, os[k], levels, threshold)
  {
    forall k | 0 <= k < |os|
      ensures TakenFrom(side, os[k], levels, threshold)
    {
      var i :| 0 <= i < |levels[1..]| && os[k] == TakeOrder(levels[1..][i])
               && Favourable(side, levels[1..][i].0, threshold);
      assert levels[1..][i] == levels[i + 1];
    }
  }

  /** The fold read from the end: a level appended to the side is taken
      exactly when it is favourable and fits at the running position the
      earlier levels left, whatever was skipped before it; the walk never stops
      early. */
  lemma {:induction false} TakePassSnoc(side: Side, levels: seq<Level>, l: Level, threshold: int, limit: int, pos: int)
    ensures var before := TakePass(side, levels, threshold, limit, pos);
            TakePass(side, levels + [l], threshold, limit, pos)
              == if Favourable(side, l.0, threshold) && Fits(side, before.position, l.1, limit)
                 then Pass(before.orders + [TakeOrder(l)], before.position - l.1)
                 else before
    decreases |levels|
  {
    if |levels| == 0 {
      assert levels + [l] == [l];
    } else {
      var level := levels[0];
      var taken := Favourable(side, level.0, threshold) && Fits(side, pos, level.1, limit);
      assert (levels + [l])[1..] == levels[1..] + [l];
      TakePassSnoc(side, levels[1..], l, threshold, limit, if taken then pos - level.1 else pos);
    }
  }

  /** `idx` picks, in strictly increasing order, one favourably priced level of
      `levels` for each order of `os`, and each order is that level's take
      order. */
  ghost predicate SelectsFavourable(side: Side, os: seq<Order>, levels: seq<Level>, threshold: int, idx: seq<int>)
  {
    && |idx| == |os|
    && (forall k :: 0 <= k < |idx| ==>
          0 <= idx[k] < |levels| && os[k] == TakeOrder(levels[idx[k]]) && Favourable(side, levels[idx[k]].0, threshold))
    && (forall k, l :: 0 <= k < l < |idx| ==> idx[k] < idx[l])
  }

  /** A selection from the tail of `levels`, with every index moved up by one,
      is a selection from `levels`; prefixing index 0 adds the head level. */
  lemma SelectsFavourableShift(side: Side, os: seq<Order>, levels: seq<Level>, threshold: int, idx: seq<int>)
    requires |levels| > 0
    requires SelectsFavourable(side, os, levels[1..], threshold, idx)
    ensures SelectsFavourable(side, os, levels, threshold, Shift(idx))
    ensures Favourable(side, levels[0].0, threshold) ==>
              SelectsFavourable(side, [TakeOrder(levels[0])] + os, levels, threshold, [0] + Shift(idx))
  {
    var s := Shift(idx);
    forall k | 0 <= k < |s|
      ensures 0 <= s[k] < |levels| && os[k] == TakeOrder(levels[s[k]]) && Favourable(side, levels[s[k]].0, threshold)
    {
      assert levels[s[k]] == levels[1..][idx[k]];
    }
  }

  /** Every index moved up by one. */
  function Shift(idx: seq<int>): (s: seq<int>)
    ensures |s| == |idx|
    ensures forall k :: 0 <= k < |idx| ==> s[k] == idx[k] + 1
  {
    seq(|idx|, k requires 0 <= k < |idx| => idx[k] + 1)
  }

  /** The indices of the levels a pass takes, in the order it takes them: the
      emitted orders are an order-preserving selection of favourably priced
      levels, one order per selected level. */
  function TakenIndices(side: Side, levels: seq<Level>, threshold: int, limit: int, pos: int): (idx: seq<int>)
    ensures SelectsFavourable(side, TakePass(side, levels, threshold, limit, pos).orders, levels, threshold, idx)
    decreases |levels|
  {
    if |levels| == 0 then []
    else
      var level := levels[0];
      var taken := Favourable(side, level.0, threshold) && Fits(side, pos, level.1, limit);
      var pos' := if taken then pos - level.1 else pos;
      var rest := TakenIndices(side, levels[1..], threshold, limit, pos');
      TakePassStep(side, levels, threshold, limit, pos);
      SelectsFavourableShift(side, TakePass(side, levels[1..], threshold, limit, pos').orders, levels, threshold, rest);
      if taken then [0] + Shift(rest) else Shift(rest)
  }

  /** Every order a pass emits is the take order of a favourably priced level
      of the side: it buys what a resting sell offers at or below the buy
      threshold, or sells what a resting buy bids at or above the sell
      threshold. */
  lemma {:induction false} TakenOrdersComeFromFavourableLevels(side: Side, levels: seq<Level>, threshold: int, limit: int, pos: int)
    ensures forall k :: 0 <= k < |TakePass(side, levels, threshold, limit, pos).orders| ==>
              TakenFrom(side, TakePass(side, levels, threshold, limit, pos).orders[k], levels, threshold)
    decreases |levels|
  {
    if |levels| > 0 {
      var level := levels[0];
      var taken := Favourable(side, level.0, threshold) && Fits(side, pos, level.1, limit);
      var pos' := if taken then pos - level.1 else pos;
      var rest := TakePass(side, levels[1..], threshold, limit, pos');
      TakenOrdersComeFromFavourableLevels(side, levels[1..], threshold, limit, pos');
      TakenFromShift(side, rest.orders, levels, threshold);
      if taken {
        var r := TakePass(side, levels, threshold, limit, pos);
        assert r.orders == [TakeOrder(level)] + rest.orders;
        assert TakenFrom(side, r.orders[0], levels, threshold) by {
          assert r.orders[0] == TakeOrder(levels[0]);
        }
      }
    }
  }

  /** Starting from `pos`, the running position stays within the hard limit
      before the first order and after each order of `os` fills in turn. */
  predicate RunningWithinLimit(pos: int, os: seq<Order>, limit: int)
    decreases |os|
  {
    WithinLimit(pos, limit) && (|os| == 0 || RunningWithinLimit(pos + os[0].quantity, os[1..], limit))
  }

  /** At every point of the pass, the position after the orders emitted so far
      lies within the hard limit, provided it started there and the volumes
      carry their side's sign. */
  lemma {:induction false} RunningPositionWithinLimit(side: Side, levels: seq<Level>, threshold: int, limit: int, pos: int)
    requires WellSigned(side, levels)
    requires WithinLimit(pos, limit)
    ensures RunningWithinLimit(pos, TakePass(side, levels, threshold, limit, pos).orders, limit)
    decreases |levels|
  {
    if |levels| > 0 {
      var level := levels[0];
      assert WellSigned(side, levels[1..]);
      if Favourable(side, level.0, threshold) && Fits(side, pos, level.1, limit) {
        var rest := TakePass(side, levels[1..], threshold, limit, pos - level.1);
        RunningPositionWithinLimit(side, levels[1..], threshold, limit, pos - level.1);
        assert ([TakeOrder(level)] + rest.orders)[1..] == rest.orders;
      } else {
        RunningPositionWithinLimit(side, levels[1..], threshold, limit, pos);
      }
    }
  }

  /** The favourably priced levels of `levels`, in book order. */
  function FavourableLevels(side: Side, levels: seq<Level>, threshold: int): (f: seq<Level>)
    ensures |f| <= |levels|
    ensures forall i :: 0 <= i < |f| ==> Favourable(side, f[i].0, threshold)
    decreases |levels|
  {
    if |levels| == 0 then []
    else if Favourable(side, levels[0].0, threshold) then [levels[0]] + FavourableLevels(side, levels[1..], threshold)
    else FavourableLevels(side, levels[1..], threshold)
  }

  /** The take orders of `levels`, in order. */
  function TakeOrders(levels: seq<Level>): (os: seq<Order>)
    ensures |os| == |levels|
    ensures forall k :: 0 <= k < |levels| ==> os[k] == TakeOrder(levels[k])
    decreases |levels|
  {
    if |levels| == 0 then [] else [TakeOrder(levels[0])] + TakeOrders(levels[1..])
  }

  /** The summed volume of `levels`. */
  function Volume(levels: seq<Level>): (v: int)
    decreases |levels|
  {
    if |levels| == 0 then 0 else levels[0].1 + Volume(levels[1..])
  }

  /** Well-signed levels have a total volume of their side's sign, and so does
      any selection of them. */
  lemma {:induction false} FavourableVolumeSigned(side: Side, levels: seq<Level>, threshold: int)
    requires WellSigned(side, levels)
    ensures side == Asks ==> Volume(FavourableLevels(side, levels, threshold)) <= 0
    ensures side == Bids ==> Volume(FavourableLevels(side, levels, threshold)) >= 0
    decreases |levels|
  {
    if |levels| > 0 {
      assert WellSigned(side, levels[1..]);
      FavourableVolumeSigned(side, levels[1..], threshold);
      if Favourable(side, levels[0].0, threshold) {
        var f := FavourableLevels(side, levels, threshold);
        assert f[1..] == FavourableLevels(side, levels[1..], threshold);
      }
    }
  }

  /** When the room under the guarded bound suffices for all favourable levels
      together, the limit guard never bites: the pass takes exactly the
      favourably priced levels, in book order. */
  lemma {:induction false} TakesAllFavourableWhenRoomSuffices(side: Side, levels: seq<Level>, threshold: int, limit: int, pos: int)
    requires WellSigned(side, levels)
    requires Fits(side, pos, Volume(FavourableLevels(side, levels, threshold)), limit)
    ensures TakePass(side, levels, threshold, limit, pos).orders == TakeOrders(FavourableLevels(side, levels, threshold))
    decreases |levels|
  {
    if |levels| > 0 {
      var level := levels[0];
      assert WellSigned(side, levels[1..]);
      FavourableVolumeSigned(side, levels[1..], threshold);
      if Favourable(side, level.0, threshold) {
        var f := FavourableLevels(side, levels, threshold);
        assert f[1..] == FavourableLevels(side, levels[1..], threshold);
        assert Volume(f) == level.1 + Volume(FavourableLevels(side, levels[1..], threshold));
        TakesAllFavourableWhenRoomSuffices(side, levels[1..], threshold, limit, pos - level.1);
        assert TakeOrders(f)[1..] == TakeOrders(f[1..]);
      } else {
        TakesAllFavourableWhenRoomSuffices(side, levels[1..], threshold, limit, pos);
      }
    }
  }

  /** A side with no favourably priced level contributes no order. */
  lemma {:induction false} NothingFavourableNothingTaken(side: Side, levels: seq<Level>, threshold: int, limit: int, pos: int)
    requires forall i :: 0 <= i < |levels| ==> !Favourable(side, levels[i].0, threshold)
    ensures TakePass(side, levels, threshold, limit, pos) == Pass([], pos)
    decreases |levels|
  {
    if |levels| > 0 {
      assert !Favourable(side, levels[0].0, threshold);
      NothingFavourableNothingTaken(side, levels[1..], threshold, limit, pos);
    }
  }
}
