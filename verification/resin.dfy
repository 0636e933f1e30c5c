/** The concrete Rainforest Resin strategy: the market-making engine with a
    constant fair value and fixed parameters. */
module Resin {
  import opened Orders
  import opened Quoting
  import opened Taking
  import opened Posting
  import opened MarketMaking

  /** The product the strategy trades. */
  const ProductSymbol: string := "RAINFOREST_RESIN"

  /** Hard limit 50, soft threshold 15, spread 2, liquidation offset 0. */
  const ResinParams: Params := Params(50, 15, 2, 0)

  /** The static fair value. */
  const FairValue: int := 10000

  /** The strategy's position read from the position table; a product without
      an entry holds no position. */
  function StartingPosition(positions: map<string, int>, symbol: string): (pos: int)
    ensures symbol in positions ==> pos == positions[symbol]
    ensures symbol !in positions ==> pos == 0
  {
    if symbol in positions then positions[symbol] else 0
  }

  /** The orders of one step for Rainforest Resin. With a liquidation offset of
      0, the last order of a step is either a liquidation at fair value or the
      passive ask two ticks above it. */
  function ResinOrders(positions: map<string, int>, asks: seq<Level>, bids: seq<Level>): (r: seq<Order>)
    ensures |r| >= 1
    ensures r[|r| - 1].price == FairValue || r[|r| - 1] == Order(FairValue + 2, -15)
  {
    var pos := StartingPosition(positions, ProductSymbol);
    var r := MakeOrders(ResinParams, FairValue, pos, asks, bids);
    var t := TakingPhase(ResinParams, FairValue, pos, asks, bids);
    assert r == t.orders + Post(ResinParams, FairValue, t.position);
    r
  }

  /** The Resin band (15) is narrow enough for its limit (50): whatever the
      starting position and the book, any one posted order filled on its own
      after the taken orders keeps the position within 50. */
  lemma ResinPostedOrdersFitLimit(positions: map<string, int>, asks: seq<Level>, bids: seq<Level>)
    ensures var t := TakingPhase(ResinParams, FairValue, StartingPosition(positions, ProductSymbol), asks, bids);
            var r := ResinOrders(positions, asks, bids);
            forall k :: |t.orders| <= k < |r| ==> WithinLimit(t.position + r[k].quantity, 50)
  {
    var pos := StartingPosition(positions, ProductSymbol);
    var t := TakingPhase(ResinParams, FairValue, pos, asks, bids);
    var post := Post(ResinParams, FairValue, t.position);
    SingleFillWithinLimit(ResinParams, FairValue, t.position);
    assert ResinOrders(positions, asks, bids) == t.orders + post;
  }

  /** Flat, with a resting sell of 5 at 9998 and a resting buy of 4 at 10002:
      both levels sit exactly on the thresholds and are taken, the position
      ends at +1, and the two passive quotes of 15 follow. */
  lemma ResinTakesLevelsOnThresholds()
    ensures ResinOrders(map[ProductSymbol := 0], [(9998, -5)], [(10002, 4)])
              == [Order(9998, 5), Order(10002, -4), Order(9998, 15), Order(10002, -15)]
  {
    var t := TakingPhase(ResinParams, FairValue, 0, [(9998, -5)], [(10002, 4)]);
    assert t == Pass([Order(9998, 5), Order(10002, -4)], 1);
  }

  /** Short 20 with an empty book: nothing is taken and one buy of 20 at fair
      value flattens the position. */
  lemma ResinLiquidatesShort()
    ensures ResinOrders(map[ProductSymbol := -20], [], []) == [Order(10000, 20)]
  {
  }

  /** A product missing from the position table is treated as flat and quotes
      the normal band. */
  lemma ResinAbsentPositionIsFlat()
    ensures ResinOrders(map[], [], []) == [Order(9998, 15), Order(10002, -15)]
  {
  }
}
