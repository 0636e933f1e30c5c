# Rainforest Resin market maker — Dafny model

This project models the per-instrument order generator of a market-making
trading bot (`mm_Product_Strategy.makeOrders` in `resin_mm_flat_params.py`),
its concrete instantiation for the product `RAINFOREST_RESIN`, and the
log-field truncation helper `Logger.truncate`.

Each step the generator receives a fair value, fixed integer parameters
(`limit`, `customLimit`, `spread`, `liquidateVal`), the starting position and
the two sides of the order book, and emits `(price, signed quantity)` orders:

1. thresholds skewed by inventory (`Quoting.Skew`);
2. a taking pass over the resting sells, then over the resting buys, each a
   fold that threads the running position and takes a level only when its
   price is favourable and its full volume keeps the guarded bound
   (`Taking.TakePass`);
3. the thresholds recomputed from the new position with the same rule;
4. a posting pass: one order that flattens an extreme position, or two
   passive quotes of `customLimit` each (`Posting.Post`).

Modules: `Orders` (levels, sides, orders, net quantity), `Quoting`
(parameters and the skew rule), `Taking` (the fold over one book side),
`Posting` (phase two), `MarketMaking` (the whole step, functional and
imperative), `Resin` (the concrete strategy), `Logging` (`truncate`).

Book sides are sequences of `(price, volume)` in the order the book's
dictionary yields them, not maps: the limit guard makes the result depend on
that order. The fair value is a parameter; `Resin` fixes it at 10000.

Three behaviours of `makeOrders` the model keeps as written:

- The taking guard checks only one side of the bound (the upper bound when
  buying, the lower when selling). The model keeps that guard; the position
  bound is proved under the book's sign convention (`Orders.WellSigned`),
  which is what makes the unchecked side safe.
- Nothing checks `customLimit <= limit`; no parameter set is rejected.
- Phase-two quotes are `customLimit` whatever the room left under `limit`.
  For a non-negative limit, `Posting.SingleFillWithinLimit` shows one posted
  order filled alone stays within the limit when `0 <= customLimit` and
  `2 * customLimit - 1 <= limit` (true for Resin: 29 <= 50).
  `Posting.OverPostingWhenBandIsWide` proves the converse: when
  `1 <= customLimit` and `2 * customLimit - 1 > limit`, the band position
  `customLimit - 1` posts a buy whose fill alone exceeds the limit.

## Model

| member | source | states |
|---|---|---|
| Quoting.Skew | resin_mm_flat_params.py:167-174 | short at or beyond `-customLimit`: buy threshold is `fair + liquidateVal`, else `fair - spread`; long at or beyond `customLimit`: sell threshold is `fair - liquidateVal`, else `fair + spread` |
| Quoting.NormalBandQuotesSymmetric | resin_mm_flat_params.py:167-174 | inside the soft band the thresholds are symmetric around fair value and `2 * spread` apart |
| Quoting.SkewDependsOnlyOnBand | resin_mm_flat_params.py:194-201 | two positions in the same regime (short extreme, long extreme, band) get identical thresholds |
| Quoting.SkewAntitone | resin_mm_flat_params.py:167-174 | if `liquidateVal >= -spread`, a larger position never raises either threshold |
| Taking.TakePass | resin_mm_flat_params.py:180-191 | final running position equals start plus the net quantity of the emitted orders; no more orders than levels; starting within `±limit` with well-signed volumes it ends within `±limit` |
| Taking.TakePassSnoc | resin_mm_flat_params.py:180-191 | a level appended to a side is taken, as `(price, -volume)` with the position dropping by `volume`, if and only if its price is favourable (inclusive) and `pos - volume` keeps the guarded bound at the running position the earlier levels left; otherwise the result is unchanged, so a skipped level never stops the walk |
| Taking.TakenIndices | resin_mm_flat_params.py:180-191 | the emitted orders are an order-preserving selection of the side's levels: a strictly increasing index sequence picks one favourably priced level per order, and each order is that level's `(price, -volume)` |
| Taking.TakenOrdersComeFromFavourableLevels | resin_mm_flat_params.py:180-191 | every emitted order is `(price, -volume)` of some level whose price is at or below the buy threshold (sell side) or at or above the sell threshold (buy side) |
| Taking.RunningPositionWithinLimit | resin_mm_flat_params.py:180-191 | with well-signed volumes and a start within `±limit`, the running position is within `±limit` before and after each emitted order |
| Taking.TakesAllFavourableWhenRoomSuffices | resin_mm_flat_params.py:180-191 | when the room under the guarded bound covers all favourable levels together, the pass emits exactly the favourable levels' orders in book order |
| Taking.NothingFavourableNothingTaken | resin_mm_flat_params.py:180-191 | a side with no favourably priced level (including an empty side) emits nothing and leaves the position unchanged |
| Posting.Post | resin_mm_flat_params.py:204-216 | one order iff the position is at or beyond a soft threshold, and then it brings the position to zero at `fair + liquidateVal` (short, checked first) or `fair - liquidateVal` (long); otherwise exactly buy `customLimit` at `fair - spread` then sell `customLimit` at `fair + spread` |
| Posting.PostNetQuantity | resin_mm_flat_params.py:204-216 | the posted orders net to zero in the band and flatten the position otherwise |
| Posting.QuoteSizeIndependentOfPosition | resin_mm_flat_params.py:210-216 | the band quotes are the same for every position in the band: sizes are not clipped to the remaining room |
| Posting.SingleFillWithinLimit | resin_mm_flat_params.py:204-216 | if `0 <= customLimit`, `2 * customLimit - 1 <= limit` and `0 <= limit`, each posted order filled alone keeps the position within `±limit` |
| Posting.OverPostingWhenBandIsWide | resin_mm_flat_params.py:210-213 | if `0 <= limit`, `1 <= customLimit` and `2 * customLimit - 1 > limit`, the band position `customLimit - 1` posts a buy of `customLimit` at `fair - spread` whose fill alone exceeds `limit` |
| MarketMaking.TakingPhase | resin_mm_flat_params.py:167-191 | both passes in sequence: position after taking equals start plus net taken quantity, no more orders than levels on both sides, within `±limit` under the sign convention |
| MarketMaking.MakeOrders | resin_mm_flat_params.py:155-217 | the taken orders come first, followed by two orders in the band or one order otherwise |
| MarketMaking.BuyFromAsks | resin_mm_flat_params.py:180-184 | the loop over resting sells, guard written inline, appends exactly the sell-side pass's orders and ends at its running position |
| MarketMaking.SellIntoBids | resin_mm_flat_params.py:187-191 | the loop over resting buys, guard written inline, appends exactly the buy-side pass's orders and ends at its running position |
| MarketMaking.ComputeOrders | resin_mm_flat_params.py:155-217 | the imperative step with both threshold blocks written inline returns exactly the functional step's orders, so both blocks agree with the single skew rule |
| MarketMaking.NetPositionWithinLimit | resin_mm_flat_params.py:180-216 | starting within `±limit` with well-signed book sides, filling every order of the step leaves the position within `±limit` |
| MarketMaking.StepNetEffect | resin_mm_flat_params.py:194-216 | filling every order flattens the position when taking ended at or beyond a soft threshold, and otherwise leaves it where taking left it |
| MarketMaking.TakingRunningWithinLimit | resin_mm_flat_params.py:179-191 | through every taken order of both sides, in order, the running position stays within `±limit` |
| MarketMaking.NormalBandPosting | resin_mm_flat_params.py:210-216 | in the band after taking, the step has exactly two orders more than were taken: buy `customLimit` at `fair - spread`, then sell `customLimit` at `fair + spread` |
| MarketMaking.LiquidationPosting | resin_mm_flat_params.py:204-208 | at or beyond a soft threshold after taking, the step ends with exactly one order that brings the position to zero, priced `fair + liquidateVal` when short and `fair - liquidateVal` when long |
| MarketMaking.EmptyBookOnlyPosts | resin_mm_flat_params.py:180-216 | with an empty book the step is the posting pass at the starting position |
| Resin.StartingPosition | resin_mm_flat_params.py:161 | the position table's entry for the product, or 0 when it has none |
| Resin.ResinOrders | resin_mm_flat_params.py:221-233 | the Resin step (fair 10000, limit 50, spread 2, custom limit 15, liquidation offset 0) ends with a liquidation at exactly 10000 or the ask of 15 at 10002 |
| Resin.ResinPostedOrdersFitLimit | resin_mm_flat_params.py:221-233 | for Resin, whatever the starting position and the book, each posted order filled alone from the position taking left stays within 50, because the parameters satisfy `2 * 15 - 1 <= 50` |
| Resin.ResinTakesLevelsOnThresholds | resin_mm_flat_params.py:180-216 | flat, sell 5 at 9998 and buy 4 at 10002: both are taken, then buy 15 at 9998 and sell 15 at 10002 |
| Resin.ResinLiquidatesShort | resin_mm_flat_params.py:204-206 | short 20 with an empty book: exactly one buy of 20 at 10000 |
| Resin.ResinAbsentPositionIsFlat | resin_mm_flat_params.py:161 | no position entry and an empty book: the two band quotes of a flat position |
| Logging.PrefixSlice | resin_mm_flat_params.py:117 | `s[:k]` is a prefix of `s` of length `min(k, len)` for `k >= 0` and `max(0, len + k)` for `k < 0` |
| Logging.Truncate | resin_mm_flat_params.py:113-117 | a value within the budget is returned unchanged; a longer one becomes a prefix of it followed by `...`, and for a budget of at least 3 it is exactly `value[..max-3] + "..."`, of length exactly the budget |
| Logging.TruncateIdempotent | resin_mm_flat_params.py:113-117 | for a budget of at least 3 the result fits the budget and truncating again changes nothing |
| Logging.TruncateShortBudget | resin_mm_flat_params.py:113-117 | for a budget below 3 a cut value has length `max(3, len + budget)` |
| Logging.TruncateShortBudgetExamples | resin_mm_flat_params.py:113-117 | "abc" with budget 2 becomes "ab..." and "abcdef" with budget 0 becomes "abc..." |

## Left out

- `Logger.print`, `Logger.flush`, the `compress_*` functions and `to_json` (resin_mm_flat_params.py:11-111): JSON serialisation through an encoder from the `datamodel` module, which is not part of this model, and standard-output I/O. The log calls inside `makeOrders` only write text (line 209 logs the buy threshold for a sell) and do not affect the orders.
- `Trader.run` and the global `strategies` table (resin_mm_flat_params.py:236-253): orchestration over `TradingState`; it dispatches on the keys of the market trades rather than the order books.
- The `datamodel` classes `Order`, `OrderDepth` and `TradingState`: replaced by `Orders.Order` without its symbol (fixed per strategy), two level sequences and a position table. The book lookup `state.order_depths[symbol]` raises on a missing product; here the caller passes the book directly.
- The abstract base classes and `@abstractmethod` dispatch: the fair value is a parameter of the engine.
- Integer width: Python integers are unbounded, as are Dafny's, so no wrap-around is modelled.
- Dictionary semantics of a book side (unique prices): the model accepts any sequence of levels; every stated property holds without uniqueness.
