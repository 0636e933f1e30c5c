/** The posting pass: after taking, either one order that flattens an extreme
    position or two passive quotes of fixed size around fair value. */
module Posting {
  import opened Orders
  import opened Quoting

  /** The orders posted at position `pos` (the position after taking), priced
      with the thresholds recomputed at that position. The short extreme is
      checked first. */
  function Post(p: Params, fair: int, pos: int): (r: seq<Order>)
    ensures |r| == 1 <==> ShortExtreme(p, pos) || LongExtreme(p, pos)
    ensures |r| == 1 || |r| == 2
    ensures |r| == 1 ==> pos + NetQuantity(r) == 0
    ensures ShortExtreme(p, pos) ==> r[0].price == fair + p.liquidateVal
    ensures !ShortExtreme(p, pos) && LongExtreme(p, pos) ==> r[0].price == fair - p.liquidateVal
    ensures |r| == 2 ==> r == [Order(fair - p.spread, p.customLimit), Order(fair + p.spread, -p.customLimit)]
  {
    var q := Skew(p, fair, pos);
    if ShortExtreme(p, pos) then [Order(q.buy, -pos)]
    else if LongExtreme(p, pos) then [Order(q.sell, -pos)]
    else [Order(q.buy, p.customLimit), Order(q.sell, -p.customLimit)]
  }

  /** The posted orders never move the net position away from where taking
      left it, except to flatten it: the quotes cancel each other out and a
      liquidation order closes the position. */
  lemma PostNetQuantity(p: Params, fair: int, pos: int)
    ensures NormalBand(p, pos) ==> NetQuantity(Post(p, fair, pos)) == 0
    ensures !NormalBand(p, pos) ==> pos + NetQuantity(Post(p, fair, pos)) == 0
  {
    var r := Post(p, fair, pos);
    if NormalBand(p, pos) {
      assert r[1..][1..] == [];
      assert NetQuantity(r) == p.customLimit + (-p.customLimit + NetQuantity([]));
    }
  }

  /** Inside the soft band the quote sizes are `customLimit` whatever the
      position: the quote size is not clipped to the room left under the hard
      limit. */
  lemma QuoteSizeIndependentOfPosition(p: Params, fair: int, pos1: int, pos2: int)
    requires NormalBand(p, pos1) && NormalBand(p, pos2)
    ensures Post(p, fair, pos1) == Post(p, fair, pos2)
  {
  }

  /** Any single posted order, filled on its own, keeps the position within the
      hard limit when the soft band is narrow enough:
      `2 * customLimit - 1 <= limit`. */
  lemma SingleFillWithinLimit(p: Params, fair: int, pos: int)
    requires 0 <= p.limit
    requires 0 <= p.customLimit && 2 * p.customLimit - 1 <= p.limit
    ensures forall k :: 0 <= k < |Post(p, fair, pos)| ==> WithinLimit(pos + Post(p, fair, pos)[k].quantity, p.limit)
  {
    var r := Post(p, fair, pos);
    if |r| == 1 {
      assert NetQuantity(r) == r[0].quantity + NetQuantity([]);
    }
  }

  /** Conversely, when the soft band is too wide (`2 * customLimit - 1 > limit`),
      the band position `customLimit - 1` posts a buy of `customLimit` whose
      fill alone takes the position past the hard limit. */
  lemma OverPostingWhenBandIsWide(p: Params, fair: int)
    requires 0 <= p.limit && 1 <= p.customLimit && 2 * p.customLimit - 1 > p.limit
    ensures NormalBand(p, p.customLimit - 1)
    ensures Post(p, fair, p.customLimit - 1)[0] == Order(fair - p.spread, p.customLimit)
    ensures !WithinLimit(p.customLimit - 1 + Post(p, fair, p.customLimit - 1)[0].quantity, p.limit)
  {
  }
}
