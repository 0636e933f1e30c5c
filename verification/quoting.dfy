/** Strategy parameters and the inventory-skewed quote rule. */
module Quoting {

  /** The fixed parameters of a market-making strategy: the hard position cap
      `limit`, the soft inventory threshold `customLimit` beyond which the
      strategy liquidates, the passive quote offset `spread` and the
      liquidation price offset `liquidateVal`. */
  datatype Params = Params(limit: int, customLimit: int, spread: int, liquidateVal: int)

  /** The buy and sell price thresholds derived from fair value and inventory. */
  datatype Quotes = Quotes(buy: int, sell: int)

  /** Inventory is short at or beyond the soft threshold. */
  predicate ShortExtreme(p: Params, pos: int)
  {
    pos <= -p.customLimit
  }

  /** Inventory is long at or beyond the soft threshold. */
  predicate LongExtreme(p: Params, pos: int)
  {
    pos >= p.customLimit
  }

  /** Inventory lies strictly inside the soft band. */
  predicate NormalBand(p: Params, pos: int)
  {
    !ShortExtreme(p, pos) && !LongExtreme(p, pos)
  }

  /** The skewed thresholds: a short extreme pays up to `fair + liquidateVal`,
      a long extreme sells down to `fair - liquidateVal`, and otherwise the
      thresholds sit `spread` away from fair value. The same rule serves the
      computation before and after the taking pass. */
  function Skew(p: Params, fair: int, pos: int): (q: Quotes)
    ensures ShortExtreme(p, pos) ==> q.buy == fair + p.liquidateVal
    ensures !ShortExtreme(p, pos) ==> q.buy == fair - p.spread
    ensures LongExtreme(p, pos) ==> q.sell == fair - p.liquidateVal
    ensures !LongExtreme(p, pos) ==> q.sell == fair + p.spread
  {
    Quotes(if ShortExtreme(p, pos) then fair + p.liquidateVal else fair - p.spread,
           if LongExtreme(p, pos) then fair - p.liquidateVal else fair + p.spread)
  }

  /** Inside the soft band the quotes are symmetric around fair value and
      `2 * spread` apart, whatever the position in the band. */
  lemma NormalBandQuotesSymmetric(p: Params, fair: int, pos: int)
    requires NormalBand(p, pos)
    ensures Skew(p, fair, pos).buy + Skew(p, fair, pos).sell == 2 * fair
    ensures Skew(p, fair, pos).sell - Skew(p, fair, pos).buy == 2 * p.spread
  {
  }

  /** Two positions in the same inventory regime get the same quotes: the
      quotes depend on the position only through its band. */
  lemma SkewDependsOnlyOnBand(p: Params, fair: int, pos1: int, pos2: int)
    requires ShortExtreme(p, pos1) == ShortExtreme(p, pos2)
    requires LongExtreme(p, pos1) == LongExtreme(p, pos2)
    ensures Skew(p, fair, pos1) == Skew(p, fair, pos2)
  {
  }

  /** When the liquidation price is at least as aggressive as the passive one
      (`liquidateVal >= -spread`), a larger position never raises either
      threshold: the strategy never becomes keener to add to its inventory. */
  lemma SkewAntitone(p: Params, fair: int, pos1: int, pos2: int)
    requires p.liquidateVal >= -p.spread
    requires pos1 <= pos2
    ensures Skew(p, fair, pos2).buy <= Skew(p, fair, pos1).buy
    ensures Skew(p, fair, pos2).sell <= Skew(p, fair, pos1).sell
  {
  }
}
