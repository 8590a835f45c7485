# Crypto trading bot: trade controller and market-data cache

This project models the two stateful pieces of the bot's backend in Dafny:

- **The trade controller** (`backend/controllers/tradeController.js`). It has one
  process-wide slot, `activePosition`, which is either empty or holds one
  BTC/USDT position `{symbol, buyPrice, qty, invested}`.
  - `buy` refuses while a position is open. Otherwise it opens a position of
    `TRADE_SIZE / price` coins at the quoted price.
  - `sell` refuses when nothing is open. Otherwise it closes the position when
    the percentage move reaches the take-profit target or falls to -2%, and
    reports the realised profit.
  - `status` reports the slot.
  - Prices come from a quote request for five coins. Each pair takes the
    reported value when it is present and non-zero and a fixed default
    otherwise. A failed request gives all five defaults.
- **The market-data cache** (`backend/controllers/marketController.js`). Two
  process-wide variables, `cachedPrices` and `lastFetch`, form a cache with a
  5000 ms freshness window. A call refreshes only when more than 5000 ms have
  passed since the last successful refresh. A failed refresh keeps the stale
  data. Every call returns what is cached.

Files:

- `price_feed.dfy`, module `PriceFeed`: the quote-to-prices mapping, as functions.
- `trade.dfy`, module `Trade`: the slot as a class `Trader` with `Buy`, `Sell`
  and `Status` methods. Each method is tied to a step function (`BuyStep`,
  `SellStep`), and the lemmas about those functions and about whole runs of
  requests (`Replay`, `Replies`) carry the properties.
- `market.dfy`, module `Market`: the cache as a class `MarketCache` with a
  `GetMarketData` method. It is tied to the step function `Step`, and lemmas
  about `Step` and about runs of calls (`Run`, `Responses`) carry the properties.

Abstractions:

- Each HTTP handler is one atomic step.
- The outcome of the price request is an argument: `Quote` for the trade
  controller and `Fetch` for the cache. So are the clock reading `now` and the
  values of `TRADE_SIZE` and `TAKE_PROFIT_PCT`.
- Prices are exact `real`s, not IEEE-754 doubles.
- The quote payload is a map from coin id (`"bitcoin"`, ...) to its `usd`
  value. A coin whose entry or `usd` field is absent is not a key.

## Model

| member | source | states |
|---|---|---|
| `PriceFeed.GetPrices` | backend/controllers/tradeController.js:6-35 | every one of the five pairs gets a price, whatever the outcome of the request |
| `PriceFeed.PriceOf` | backend/controllers/tradeController.js:18-33 | a pair's price is never zero, because a zero value falls back to the default; after a failed request it is the pair's default |
| `PriceFeed.ReportedValueUsedIffPresentAndNonZero` | backend/controllers/tradeController.js:18-24 | a successful request uses the reported value exactly when it is present and non-zero, and the pair's default (60000/3000/150/400/0.5) otherwise |
| `PriceFeed.ErrorGivesAllDefaults` | backend/controllers/tradeController.js:25-33 | a failed request gives every pair its default, which is positive |
| `PriceFeed.EmptyPayloadSameAsError` | backend/controllers/tradeController.js:18-33 | a payload with no usable value yields the same table as a failed request |
| `PriceFeed.PricePositive` | backend/controllers/tradeController.js:18-33 | when the service reports no negative value, every price is positive |
| `PriceFeed.PriceDependsOnOwnCoinOnly` | backend/controllers/tradeController.js:18-24 | a pair's price is unaffected by the entries of the other coins |
| `Trade.OpenAt` | backend/controllers/tradeController.js:52-60 | the opened position has entry price `price`, invested amount `TRADE_SIZE`, quantity `TRADE_SIZE / price`, and satisfies the position invariant |
| `Trade.BuyKeepsSlotOk` | backend/controllers/tradeController.js:43-60 | `buy` keeps the invariant that a held position has a non-zero entry price and `qty * buyPrice == invested` |
| `Trade.SellKeepsSlotOk` | backend/controllers/tradeController.js:76-109 | `sell` keeps the same invariant |
| `Trade.BuyRefusesWhenOpen` | backend/controllers/tradeController.js:43-45 | `buy` with a position open replies "already in position" and leaves the slot unchanged |
| `Trade.BuyOpensPosition` | backend/controllers/tradeController.js:49-60 | `buy` on an empty slot opens a position at the quoted BTC price with the whole trade size invested, so `qty * buyPrice == TRADE_SIZE` |
| `Trade.SellRefusesWhenEmpty` | backend/controllers/tradeController.js:76-78 | `sell` with no position replies "no active position" and changes nothing |
| `Trade.SellClosesIffThreshold` | backend/controllers/tradeController.js:81-109 | `sell` closes exactly when `pct >= takeProfitPct` or `pct <= -2`, with both bounds included. On a close the slot empties and the reply carries the prior position and `pct`. Otherwise the slot is unchanged and the reply is "waiting" with `pct` |
| `Trade.BoundariesTrigger` | backend/controllers/tradeController.js:84-95 | `sell` on an open position whose move is exactly the take-profit target, or exactly -2%, closes it and empties the slot |
| `Trade.ExitExamples` | backend/controllers/tradeController.js:52-109 | for $40 bought at 100 with a 4% target: 104 closes with profit 1.60 at 4%, 98 closes with profit -0.80 at -2%, and 101 waits at 1% |
| `Trade.ProfitIsInvestedTimesMove` | backend/controllers/tradeController.js:84-91 | for a position opened by `buy`, `currentPrice * qty - invested == invested * pct / 100` |
| `Trade.SoldProfitIdentity` | backend/controllers/tradeController.js:90-102 | the profit of a close is `currentPrice * qty - invested`, which equals `invested * profitPct / 100` |
| `Trade.HandleKeepsSlotOk` | backend/controllers/tradeController.js:40-119 | any one handler keeps the slot invariant |
| `Trade.Replay` | backend/controllers/tradeController.js:37-119 | after any run of requests, the slot still satisfies the invariant |
| `Trade.Replies` | backend/controllers/tradeController.js:40-119 | a run of requests gets one reply per request |
| `Trade.OpensMinusCloses` | backend/controllers/tradeController.js:43-95 | over any run, successful buys minus closing sells equals the change in the number of positions held (0 or 1) |
| `Trade.AtMostOnePosition` | backend/controllers/tradeController.js:37-95 | from start-up, at every point of any run, successful buys exceed closing sells by zero or one |
| `Trade.Trader.constructor` | backend/controllers/tradeController.js:37 | at start-up no position is held |
| `Trade.Trader.Buy` | backend/controllers/tradeController.js:40-72 | a refusal leaves the slot unchanged; otherwise the slot holds the new position with `qty == TRADE_SIZE / buyPrice`. The new state is `BuyStep` of the old one |
| `Trade.Trader.Sell` | backend/controllers/tradeController.js:75-115 | no position gives "no active position"; a close empties the slot and reports the prior position with `profit == invested * pct / 100`; waiting keeps the slot. The new state is `SellStep` of the old one |
| `Trade.Trader.Status` | backend/controllers/tradeController.js:117-119 | returns the slot, unchanged |
| `Market.FreshCallChangesNothing` | backend/controllers/marketController.js:14 | when `now - lastFetch <= 5000`, no fetch result matters and both variables are unchanged |
| `Market.SuccessfulRefreshReplaces` | backend/controllers/marketController.js:14-18 | a successful refresh replaces the cache wholesale with the fetched value and sets `lastFetch = now` |
| `Market.FailedRefreshKeepsStale` | backend/controllers/marketController.js:20-22 | a failed refresh keeps both the cache and `lastFetch` |
| `Market.LastFetchMonotone` | backend/controllers/marketController.js:14-18 | `lastFetch` never decreases, and it strictly increases whenever the state changes |
| `Market.FirstCallFetchesAfterWindow` | backend/controllers/marketController.js:7-14 | from the initial state (empty cache, `lastFetch = 0`), a call fetches exactly when `now > 5000` |
| `Market.Responses` | backend/controllers/marketController.js:25 | a run of calls gets one response per call |
| `Market.RunLastFetchMonotone` | backend/controllers/marketController.js:14-18 | over any run of calls, `lastFetch` never decreases |
| `Market.ServedWithinWindow` | backend/controllers/marketController.js:14-25 | every call within 5000 ms of `lastFetch` returns the same cache and changes nothing |
| `Market.RefreshHoldsForWindow` | backend/controllers/marketController.js:14-25 | after a successful refresh at `t`, every call with `now <= t + 5000` returns the refreshed prices |
| `Market.FailuresServeStale` | backend/controllers/marketController.js:20-25 | a run of failed fetches never changes the state, and every response is the stale cache |
| `Market.MarketCache.constructor` | backend/controllers/marketController.js:7-8 | the cache starts empty with `lastFetch = 0` |
| `Market.MarketCache.GetMarketData` | backend/controllers/marketController.js:10-26 | refreshes only when the window has passed and the fetch succeeds, otherwise keeps both variables. Returns the post-step cache. The new state is `Step` of the old one |

## Left out

- JavaScript number semantics are not modelled: IEEE-754 rounding, `NaN` and
  `Infinity`. A non-numeric or `NaN` value in the quote payload is therefore not
  modelled either. In JavaScript, `NaN || default` also falls back to the default.
- `parseFloat(process.env.TRADE_SIZE || 40)` and
  `parseFloat(process.env.TAKE_PROFIT_PCT || 4)` are not modelled. Both values
  are parameters of `Buy` and `Sell`, so their defaults 40 and 4 are not modelled.
- Reply message texts are not modelled: the `toFixed` formatting, the fixed
  "(need +4% or -2%)" hint, and the `change: 'N/A'` fields.
- `console.log` and `console.error` are not modelled.
- The `catch` branches of `buy` and `sell` that reply with HTTP 500 are not
  modelled. There are two ways to reach them. The first is a non-numeric
  price, which makes `price.toFixed(2)` throw in `buy`. That happens after the
  slot has been filled, so the 500 reply leaves a position open. The second is
  two overlapping `sell` calls. Both pass the guard and wait for their price
  request. The first to finish closes the position. The other then reads
  `activePosition.buyPrice` from an empty slot and throws.
- Interleaving of concurrent handlers at `await` points is not modelled. Each
  handler is one atomic step. So two `buy` calls racing past the guard are not
  captured, and neither is the `sell` race above.
- Overlapping `getMarketData` calls are not modelled either. In the source,
  two calls can both pass the window test and finish out of order. Then
  `lastFetch` goes backwards and an older snapshot replaces a newer one.
  `Market.LastFetchMonotone` and `Market.RunLastFetchMonotone` hold only
  because each call is one atomic step.
- The HTTP request to the quote service and the exchange client behind the
  market cache are not modelled. Their results are inputs. The exchange client
  catches its own errors and returns its fallback table instead. So in the
  deployed code, an exchange failure is stored as a successful refresh stamped
  `now`, and the cache does not serve stale data in that case. The model's
  `Failed` outcome is the cache's own failure branch, reached only if the
  client lets an error through.
- The position's `symbol` is the pair
  `BtcUsdt` rather than the string `'BTC/USDT'`.
- Express routing, the frontend dashboard and its client-side balance
  bookkeeping, and the database models are not part of this model.
