# A verified model of a Bitcoin trading simulator

The simulator is a paper-trading backend with a browser client. It has four parts:

- **Trade endpoints.** Users place BUY and SELL orders for BTCUSDT through three endpoints: POST `/trade`, `/buy` and `/sell`.
- **Ledger.** Orders settle against a ledger of three tables: portfolios (cash), positions (quantity, average price, mark price) and trades.
- **Mock ledger.** In development mode, or when no database host is configured, `/buy` and `/sell` fall back on one in-memory record shared by all users.
- **Market-data relay.** A Socket.IO server relays candles from an upstream data server into per-symbol rooms and caches the last close of each symbol.

The client side keeps two small state cells (portfolio, market) and three value objects (order, trade, candle).

All amounts are exact `real`s. Where the code turns text into numbers with `parseFloat`, the result is `Common.Parsed` (a number or NaN). JavaScript's `x || default` is written out explicitly.

Modules, following the source:

- `Common`, `Orders`: constants, sides, and order validation for the three endpoints.
- `Ledger`: the tables as values, and one trade transaction and one reset as pure functions (`Execute`, `ResetBook`).
- `LedgerTables`, `LedgerProofs`: facts about the tables, and the ledger invariant `Consistent` preserved by every step.
- `LedgerFacts`: what a BUY, a SELL and a reset do, stated per effect.
- `Valuation`: GET `/portfolio`, `/portfolio/positions` and `/portfolio/performance` on the database path.
- `LedgerDb`: the class `LedgerStore`, which issues the SQL statements one by one.
- `Mock`: the in-memory record (class `MockPortfolio`), the current-price fallback chain, and the mock summary and positions.
- `History`: GET `/trading/history` on both paths.
- `Relay`: `socketService.js` as the class `Relay` with one method per handler.
- `Routes`: the three endpoints end to end, including the trade-executed notification.
- `OrderModel`, `TradeModel`, `CandleModel`: the client's value objects.
- `PortfolioState`, `MarketState`: the client's two store cells as classes.

### How the database path is modelled

`Ledger.Execute` is the meaning of one BEGIN … COMMIT block. `LedgerDb.LedgerStore.ExecuteTrade` performs the same statements on class fields, in the handler's own order:

1. get-or-create the portfolio;
2. balance or holdings check;
3. cash update;
4. position update, insert or delete;
5. trade insert;
6. COMMIT.

Any statement may throw. The parameter `failAt` names the statement that does, counting from 0 in the order the handler issues them. `LedgerDb.Issued` counts the statements the handler issues for a given input. The request fails exactly when `failAt` falls below that count, and a failing request restores the snapshot taken at BEGIN, except for the trade id sequence. Once the trade INSERT has been issued, the id it drew stays used even if the INSERT or COMMIT throws (`LedgerDb.IdConsumed`). Ids therefore keep increasing and may have gaps. Otherwise the method's final state is the one `Execute` gives. Either way `Consistent` is kept. `Consistent` says:

- no balance is negative and no position row is empty;
- (user, symbol) keys are unique;
- every row has a portfolio;
- trade ids increase;
- each user's cash is 100000 minus what they bought plus what they sold;
- each position's quantity is the net traded quantity.

### How the relay is modelled

Every `Relay` handler is specified by a pure transition on `RelayState`. The lemmas about those transitions carry the promises:

- subscribing joins rooms and tracks symbols;
- unsubscribing never forgets a symbol;
- a client that disconnects leaves every room, so no later candle reaches it;
- the connect requests come out in set order;
- a batch of candles leaves each symbol's last close in the cache;
- no handler joins a `user:` room, so trade and portfolio notifications reach no one.

### Divergences between endpoints and paths

- `/buy` and `/sell` check only that the symbol is non-empty, while `/trade` requires 1–10 upper-case letters (`Orders.BuyAcceptsWhatTradeRefuses`).
- The `/sell` database path skips the get-or-create step. On a consistent ledger this cannot be observed (`LedgerFacts.SellEndpointsAgree`).
- The mock history reports the length of the whole shared list as `total`. The database history reports the row count of the page.
- The client-side trade check requires an `order_id`, which no trade the backend returns carries (`TradeModel.ValidTradeCommission`).
- The client accepts a MARKET order without a price, which every endpoint refuses (`OrderModel.PricelessMarketOrderRefused`).

## Model

| member | source | states |
|---|---|---|
| Common.ParseSide | backend/src/routes/trading.js:38-41 | a side is accepted exactly when it is "BUY" or "SELL", and it prints back as the same text |
| Orders.Validate | backend/src/routes/trading.js:29-58 | an order passes exactly when the symbol rule of its endpoint, the side, quantity ≥ 0.00000001 and price ≥ 0.01 all hold; the order carries the body's values and the endpoint's side |
| Orders.TotalPositive | backend/src/routes/trading.js:63 | every accepted order moves a strictly positive total of at least 0.00000001 × 0.01 |
| Orders.TradeRouteIsStricter | backend/src/routes/trading.js:311-320 | whatever /trade accepts, the dedicated endpoint of its side accepts as the same order |
| Orders.BuyAcceptsWhatTradeRefuses | backend/src/routes/trading.js:314 | a lower-case symbol passes /buy and fails /trade |
| Ledger.FindRow | backend/src/routes/trading.js:122-131 | the position lookup finds the first row of the (user, symbol) key, or reports that there is none |
| Ledger.EnsurePortfolio | backend/src/routes/trading.js:76-100 | after get-or-create the user has a row; an existing row is untouched and a new one holds 100000 |
| Ledger.LazyCreate | backend/src/routes/portfolio.js:81-96 | the summary's get-or-create gives a missing user a row with 100000, keeps every existing balance, and leaves positions and trades alone |
| Ledger.Execute | backend/src/routes/trading.js:70-245 | defined here: the meaning of one trade transaction; specified by `LedgerFacts.BuyRejection`, `BuyCashAndTrade`, `BuyPosition`, `SellRejection`, `SellCashAndTrade`, `SellPosition` and `LedgerProofs.ExecutePreserves` |
| Ledger.ResetBook | backend/src/routes/portfolio.js:305-334 | defined here: the reset's three writes; specified by `LedgerFacts.ResetEffect`, `ResetTwice` and `LedgerProofs.ResetPreserves` |
| LedgerProofs.EmptyBookConsistent | backend/src/routes/trading.js:70-245 | the empty schema satisfies the ledger invariant |
| LedgerProofs.BuyRowsEffect | backend/src/routes/trading.js:122-157 | the BUY position step adds q to the bought key's quantity and nothing to any other key, keeping keys unique and rows positive |
| LedgerProofs.SellRowsEffect | backend/src/routes/trading.js:192-213 | the SELL position step takes q from the found key only, and deletes the row exactly when nothing remains |
| LedgerProofs.ExecutePreserves | backend/src/routes/trading.js:70-245 | every trade transaction, committed or rolled back, keeps the ledger invariant |
| LedgerProofs.ResetPreserves | backend/src/routes/portfolio.js:305-347 | reset keeps the ledger invariant |
| LedgerProofs.LazyCreatePreserves | backend/src/routes/portfolio.js:81-96 | the summary's get-or-create keeps the ledger invariant |
| LedgerFacts.BuyRejection | backend/src/routes/trading.js:102-111 | a BUY is rolled back exactly when total > balance (100000 for a new user), and the rejection reports required = total and available = balance |
| LedgerFacts.BuyCashAndTrade | backend/src/routes/trading.js:83-120 | a committed BUY creates the portfolio if missing and debits exactly the total, leaving a non-negative balance and every other balance unchanged; it appends one trade with the next id and total = q × price |
| LedgerFacts.BuyPosition | backend/src/routes/trading.js:122-157 | a committed BUY sets an existing row to quantity q0+q, average (q0·avg0 + total)/(q0+q) and mark = price, or inserts the row at quantity q and average = mark = price; every other key's row is unchanged |
| LedgerFacts.AveragedBetween | backend/src/routes/trading.js:132-138 | the new weighted average lies between the old average and the trade price |
| LedgerFacts.FreshBuy | backend/src/routes/trading.js:149-157 | a BUY into a key without a row creates it with quantity q and average and mark equal to the price |
| LedgerFacts.TwoBuysAverage | backend/src/routes/trading.js:129-157 | two BUYs into a fresh key leave quantity q1+q2 at average (q1·p1 + q2·p2)/(q1+q2) |
| LedgerFacts.SellRejection | backend/src/routes/trading.js:159-181 | a SELL is rolled back exactly when the held quantity (0 without a row) is below q, and the rejection reports requested = q and available = held |
| LedgerFacts.SellCashAndTrade | backend/src/routes/trading.js:183-190 | a committed SELL credits exactly the total to the seller, touches no other balance, creates no portfolio row and appends one trade |
| LedgerFacts.SellPosition | backend/src/routes/trading.js:192-213 | a committed SELL deletes the row when the remainder is ≤ 0, and otherwise sets only its quantity and mark; other keys are unchanged |
| LedgerFacts.SellKeepsAverage | backend/src/routes/trading.js:204-213 | a SELL never changes an average price and never leaves a row with quantity ≤ 0 |
| LedgerFacts.SellEndpointsAgree | backend/src/routes/trading.js:582-611 | on a consistent ledger the /sell path without get-or-create gives the same outcome as /trade |
| LedgerFacts.ResetEffect | backend/src/routes/portfolio.js:305-347 | reset removes all of the user's positions and trades and sets the balance to 100000 only when the row exists; other users and the id sequence are unchanged |
| LedgerFacts.ResetTwice | backend/src/routes/portfolio.js:305-347 | a second reset changes nothing |
| LedgerDb.LedgerStore.ExecuteTrade | backend/src/routes/trading.js:70-245 | the request fails (HTTP 500) exactly when one of the `Issued` statements throws, and then the three tables are rolled back while `nextId` stays advanced exactly when the INSERT or COMMIT threw; otherwise the tables become those of `Execute` and the answer reports its trade or rejection; the invariant is kept |
| LedgerDb.Issued | backend/src/routes/trading.js:73-231 | defined here: BEGIN, the get-or-create (1 or 3 statements), the side's statements up to the business check, and the trade INSERT and COMMIT exactly when the transaction commits; used by `ExecuteTrade` and `PlaceOrder` |
| LedgerDb.LedgerStore.Prepare | backend/src/routes/trading.js:73-203 | unless one of the statements before the trade INSERT throws, the tables hold the transaction's writes so far and the refusal, if any, is the one `Execute` gives |
| LedgerDb.LedgerStore.GetOrCreate | backend/src/routes/trading.js:76-100 | the get-or-create statements change only the portfolio table, to `EnsurePortfolio` |
| LedgerDb.LedgerStore.BuySteps | backend/src/routes/trading.js:102-157 | the BUY statements refuse when total > balance, and otherwise debit the total and apply `BuyRows` |
| LedgerDb.LedgerStore.SellSteps | backend/src/routes/trading.js:159-213 | the SELL statements refuse when the holding is missing or short, and otherwise credit the total and apply `SellRows` |
| LedgerDb.LedgerStore.Reset | backend/src/routes/portfolio.js:305-347 | the reset commits `ResetBook` exactly when none of its five statements (BEGIN, two DELETEs, the UPDATE, COMMIT) throws, and otherwise leaves every table as it was |
| LedgerDb.LedgerStore.ResetStatements | backend/src/routes/portfolio.js:305-334 | the reset's five statements succeed exactly when none throws, and then the tables hold `ResetBook`'s writes |
| LedgerDb.LedgerStore.GetSummary | backend/src/routes/portfolio.js:74-143 | the summary fails (HTTP 500) exactly when one of its statements throws; a new user's row is created outside any transaction and stays once its INSERT has run, even if a later statement throws; a success answers `SummaryOf` the new state |
| Valuation.Totals | backend/src/routes/portfolio.js:107-121 | the accumulation loop gives Σ quantity × mark and Σ quantity × (mark − average) over the rows |
| Valuation.PnLIsValueLessCost | backend/src/routes/portfolio.js:113-118 | the unrealised P&L sum is the value sum minus the cost sum |
| Valuation.ValueNonNegative | backend/src/routes/portfolio.js:107-121 | with non-negative quantities and marks the position value is non-negative |
| Valuation.SummaryMeaning | backend/src/routes/portfolio.js:74-136 | the summary is the cash plus the marked value of the user's rows, measured against 100000, with one count per row |
| Valuation.SummaryOf | backend/src/routes/portfolio.js:73-136 | defined here: the database summary; specified by `Valuation.SummaryMeaning`, `ProfitFromTrades` and `PositionsAgreeWithSummary` |
| Valuation.ProfitFromTrades | backend/src/routes/portfolio.js:123-136 | on a consistent ledger the total P&L is what the user's sales brought in, minus what the purchases cost, plus the marked value still held |
| Valuation.NoPositionsSummary | backend/src/routes/portfolio.js:123-136 | with no positions, the total value is the balance and the P&L is balance − 100000 |
| Valuation.ResetSummary | backend/src/routes/portfolio.js:305-347 | after a reset the summary is 100000 with no positions and zero P&L |
| Valuation.NewUserSummary | backend/src/routes/portfolio.js:81-96 | a new user's summary is 100000 with no positions |
| Valuation.FreshBuyKeepsValue | backend/src/routes/trading.js:149-157 | a BUY into a fresh key, marked at its own price, leaves the summary's total value unchanged |
| Valuation.ViewsMeaning | backend/src/routes/portfolio.js:183-212 | the positions list is the user's rows newest first, each with value q × mark, P&L value − q × average, and the percentage against the average |
| Valuation.PositionsOf | backend/src/routes/portfolio.js:183-212 | defined here: the database positions list; specified by `Valuation.ViewsMeaning`, `PositionsConsistent` and `PositionsAgreeWithSummary` |
| Valuation.PositionsConsistent | backend/src/routes/portfolio.js:183-212 | on a consistent ledger the positions query never fails and lists as many entries as the summary counts |
| Valuation.PositionsAgreeWithSummary | backend/src/routes/portfolio.js:183-212 | on a consistent ledger the `/positions` entries' positionValue and unrealizedPnL add up to the summary's totalPositionValue and totalUnrealizedPnL (portfolio.js:107-121) |
| Valuation.ViewsSum | backend/src/routes/portfolio.js:196-207 | the entries' value and profit columns add up to the rows' value and unrealised profit, whatever the order |
| Valuation.SidesPartition | backend/src/routes/portfolio.js:231-243 | BUY and SELL counts partition the trade count, and the BUY and SELL sums make up the volume |
| Valuation.StatsMeaning | backend/src/routes/portfolio.js:231-242 | the statistics count and sum the user's trades by side; the counts partition the trade count, and the two sums are the ledger's purchase and sale totals, which together make up the volume |
| Valuation.StatsAverage | backend/src/routes/portfolio.js:238-280 | the average trade size times the trade count is the volume, and an empty history reports 0 |
| Valuation.StatsBalance | backend/src/routes/portfolio.js:231-280 | on a consistent ledger the balance is 100000 minus totalBought plus totalSold |
| Valuation.StatsOf | backend/src/routes/portfolio.js:231-243 | defined here: the trade statistics; specified by `Valuation.StatsMeaning`, `StatsAverage` and `StatsBalance` |
| Mock.InitialAccounted | backend/src/routes/trading.js:15-19 | the initial record (100000, nothing held, no trades) is accounted |
| Mock.MockPortfolio.constructor | backend/src/routes/trading.js:15-19 | the record starts at 100000 with nothing held and no trades, and is accounted |
| Mock.MockPreserves | backend/src/routes/trading.js:341-379 | every mock trade keeps the record accounted: balance = 100000 − spent + received and position = bought − sold, both non-negative |
| Mock.MockEffect | backend/src/routes/trading.js:345-371 | a mock BUY is refused (total vs balance) and a mock SELL is refused (q vs position) with the compared figures; a commit moves the balance by ∓total and the position by ±q, and prepends the trade |
| Mock.MockIgnoresSymbol | backend/src/routes/trading.js:356-357 | the mock position moves the same whatever symbol the order names |
| Mock.MockPortfolio.Trade | backend/src/routes/trading.js:341-379 | the mock branch of /buy, and that of /sell at trading.js:539-577, updates the global record in place to `MockExecute` and keeps it accounted |
| Mock.MockExecute | backend/src/routes/trading.js:539-577 | defined here: one mock trade of /buy (trading.js:341-379) or /sell; specified by `Mock.MockEffect`, `MockPreserves` and `MockIgnoresSymbol` |
| Mock.GetMockPortfolio | backend/src/routes/portfolio.js:13-22 | the shared record, or a fresh accounted one with 100000 and nothing held |
| Mock.CurrentBtcPrice | backend/src/routes/portfolio.js:25-38 | defined here: `getCurrentBTCPrice`; specified by `Mock.PriceChain` and `PricePositive` |
| Mock.PriceChain | backend/src/routes/portfolio.js:25-38 | a truthy cached BTCUSDT close is the price; without one, the price after a committed mock trade is that trade's price, and on a fresh record it is 107000 |
| Mock.PricePositive | backend/src/routes/portfolio.js:25-38 | on an accounted record, with no negative cached close, the price is positive |
| Mock.MockSummary | backend/src/routes/portfolio.js:51-70 | defined here: the mock summary; specified by `Mock.MockSummaryMeaning` and `BuyAtMarkKeepsValue` |
| Mock.MockSummaryMeaning | backend/src/routes/portfolio.js:56-70 | positionsCount is 1 exactly when position > 0; unrealised P&L equals total P&L, which on an accounted record is received − spent + held × price |
| Mock.BuyAtMarkKeepsValue | backend/src/routes/portfolio.js:56-70 | a mock BUY at the mark price leaves the total value unchanged |
| Mock.MockPositions | backend/src/routes/portfolio.js:155-181 | defined here: the mock positions list; specified by `Mock.MockPositionsMeaning` |
| Mock.MockPositionsMeaning | backend/src/routes/portfolio.js:159-180 | at most one BTCUSDT entry, present exactly when position > 0, with average = mark and zero P&L, agreeing with the summary |
| History.MockHistory | backend/src/routes/trading.js:263-279 | defined here: the mock page; specified by `History.MockHistoryMeaning`, `NegativeOffsetFromEnd` and `PagesConcatenate` |
| History.DbHistory | backend/src/routes/trading.js:282-297 | defined here: the database page; specified by `History.DbHistoryMeaning`, `DbHistoryNewestFirst` and `DbPagesConcatenate` |
| History.MockHistoryMeaning | backend/src/routes/trading.js:263-279 | the mock page is by default the 50 newest trades; with non-negative parameters it is the named window, at most `limit` long; the total is always the full list length |
| History.NegativeOffsetFromEnd | backend/src/routes/trading.js:272 | a negative offset counts from the oldest end of the list, as `slice` does |
| History.PagesConcatenate | backend/src/routes/trading.js:272 | two consecutive mock pages make up the page of twice the size |
| History.SliceWindow | backend/src/routes/trading.js:272 | with non-negative bounds, `slice` is the sub-sequence between the bounds, each clamped to the length |
| History.UserTradesIncreasing | backend/src/routes/trading.js:282-290 | a user's own trades keep the increasing ids of the log |
| History.DbHistoryMeaning | backend/src/routes/trading.js:282-297 | the database page fails exactly on a negative parameter; otherwise it holds at most `limit` of the user's own trades, those at positions offset, offset+1, … of the newest-first history, and total = page length |
| History.DbHistoryNewestFirst | backend/src/routes/trading.js:282-290 | on a log with increasing ids, which every consistent ledger has, each page's ids strictly decrease |
| History.DbPagesConcatenate | backend/src/routes/trading.js:282-297 | two consecutive database pages make up the page of twice the size |
| Relay.HistoryRequestFor | backend/src/services/socketService.js:192-202 | the request covers `limit` minutes ending now (end − start = limit × 60000) for the symbol at interval "1m" |
| Relay.Relay.constructor | backend/src/services/socketService.js:10-15 | at module load there is no server, no upstream connection, no tracked symbol and no room, and the price cache is the one the process already holds, or empty |
| Relay.Relay.Setup | backend/src/services/socketService.js:21-25 | the server is kept and a new upstream socket starts unconnected; rooms, tracking, cache and outbox are unchanged; the relay invariant is kept |
| Relay.Relay.Join | backend/src/services/socketService.js:41-50 | the client joins `market:<symbol>`, the symbol is tracked once, nothing else changes, and the relay invariant is kept |
| Relay.JoinKeepsValid | backend/src/services/socketService.js:41-50 | joining a symbol's room keeps the tracked symbols distinct and every room a market room |
| Relay.SubscribeKeepsValid | backend/src/services/socketService.js:34-57 | subscribing to one symbol keeps the tracked symbols distinct and every room a market room |
| Relay.Relay.Subscribe | backend/src/services/socketService.js:34-57 | the subscribe loop performs `SubscribeAll` and keeps the relay invariant |
| Relay.SubscribeEffect | backend/src/services/socketService.js:34-57 | after subscribing, the client is in the room of every listed symbol, nobody has left any room, and rooms of unlisted symbols are unchanged |
| Relay.SubscribeRequests | backend/src/services/socketService.js:34-57 | the tracked list only grows, in order, by the listed symbols; one history request per listed symbol goes out, in order, exactly when upstream is connected; the cache and the flags are unchanged |
| Relay.Relay.Unsubscribe | backend/src/services/socketService.js:60-74 | the unsubscribe loop performs `UnsubscribeAll` and keeps the relay invariant |
| Relay.UnsubscribeEffect | backend/src/services/socketService.js:60-74 | unsubscribing removes the client from the listed rooms only, keeps every other membership, and never forgets a tracked symbol |
| Relay.UnsubscribeKeepsValid | backend/src/services/socketService.js:60-74 | unsubscribing keeps the relay invariant |
| Relay.Relay.RequestHistoricalData | backend/src/services/socketService.js:182-210 | nothing without an upstream connection; otherwise exactly one request; the relay invariant is kept |
| Relay.Relay.OnUpstreamConnect | backend/src/services/socketService.js:102-112 | on connect, the flag goes up and the requests of `Connect` are sent; the relay invariant is kept |
| Relay.ConnectRequests | backend/src/services/socketService.js:102-112 | one 100-minute BTCUSDT request, then one per tracked symbol in set order |
| Relay.RequestsShape | backend/src/services/socketService.js:109-111 | one request per tracked symbol, in order, each for the default 100 candles |
| Relay.Relay.OnUpstreamDisconnect | backend/src/services/socketService.js:114-116 | only the upstream connected flag drops; nothing else changes; the relay invariant is kept |
| Relay.Relay.OnClientDisconnect | backend/src/services/socketService.js:77-81 | a disconnecting client is taken out of every room, as Socket.IO does, and nothing else changes; the relay invariant is kept |
| Relay.DisconnectEffect | backend/src/services/socketService.js:77-81 | after a disconnect the client is in no room, every other client keeps exactly its memberships, the tracked symbols, cache, flags and outbox are unchanged, and the invariant holds |
| Relay.DisconnectedGetsNoCandles | backend/src/services/socketService.js:216-237 | a client that has disconnected is among the recipients of no candle delivered afterwards |
| Relay.Relay.BroadcastCandle | backend/src/services/socketService.js:216-237 | a candle without a symbol, or before setup, changes nothing; otherwise the cache takes its close and it is delivered to `market:<symbol>`; the relay invariant is kept |
| Relay.CandleStep | backend/src/services/socketService.js:216-237 | defined here: one forwarded candle; specified by `Relay.CandleStepsEffect`, `LiveIsBatchOfOne` and `DisconnectedGetsNoCandles` |
| Relay.Relay.OnHistoricalData | backend/src/services/socketService.js:126-141 | a non-array payload is ignored; an array goes candle by candle through the live path; the relay invariant is kept |
| Relay.CandleStepsEffect | backend/src/services/socketService.js:126-149 | after a batch, each symbol caches its last candle's close and other entries are kept; only candle deliveries to the candle's own market room are emitted |
| Relay.CandleStepsKeepValid | backend/src/services/socketService.js:126-149 | candle processing keeps the relay invariant |
| Relay.LiveIsBatchOfOne | backend/src/services/socketService.js:144-149 | one live update is a batch of one |
| Relay.Relay.OnUpstreamError | backend/src/services/socketService.js:152-162 | the error handlers change no relay state |
| Relay.Relay.EmitTradeExecuted | backend/src/services/socketService.js:260-267 | a delivery to `user:<id>` with the trade, or nothing before setup; the relay invariant is kept |
| Relay.Relay.EmitPortfolioUpdate | backend/src/services/socketService.js:243-253 | a delivery to `user:<id>`, or nothing before setup; the relay invariant is kept |
| Relay.NotifyUser | backend/src/services/socketService.js:243-267 | defined here: the emit to a user room; specified by `Relay.UserNotificationsReachNobody` and `Routes.AnnouncedOnlyAfterCommit` |
| Relay.UserNotificationsReachNobody | backend/src/services/socketService.js:34-57 | no handler joins a user room, so every user notification has no recipients |
| Relay.Relay.TrackedSymbols | backend/src/services/socketService.js:288-290 | the tracked symbols in insertion order, each once |
| Routes.TradingServer.PlaceOrder | backend/src/routes/trading.js:29-252 | an invalid body changes nothing; /buy and /sell in mock mode change only the mock record; otherwise the request fails exactly when an issued statement throws, a failure restores the three tables and keeps an id drawn by the INSERT, the ledger otherwise follows `Execute`, and the trade is announced exactly when it is committed |
| Routes.AnnouncedOnlyAfterCommit | backend/src/routes/trading.js:227-232 | at most one message is emitted, only for a committed database trade, and it reaches no one |
| Routes.SupportedSymbolsTradable | backend/src/routes/trading.js:677-695 | the list holds one pair, BTCUSDT, named as base + quote, and it passes /trade's symbol rule |
| OrderModel.DefaultOrder | frontend/src/models/order.js:6-17 | an order built from nothing is a pending MARKET BUY of BTCUSDT at 0, and it is invalid |
| OrderModel.ConstructorFields | frontend/src/models/order.js:6-17 | numeric fields are the parsed number or 0, and text fields fall back only when absent or empty |
| OrderModel.NewOrder | frontend/src/models/order.js:6-17 | defined here: the constructor; specified by `OrderModel.DefaultOrder` and `ConstructorFields` |
| OrderModel.SidesExclusive | frontend/src/models/order.js:36-52 | never both buy and sell; a valid order is exactly one of them; complete means FILLED |
| OrderModel.StatusColors | frontend/src/models/order.js:64-82 | green exactly for FILLED, red for CANCELLED, yellow for PENDING, gray otherwise |
| OrderModel.ApiRoundTrip | frontend/src/models/order.js:87-102 | the API record of a valid order rebuilds into a valid order with the same API record |
| OrderModel.ServerAcceptedIsValid | frontend/src/models/order.js:107-115 | an order /trade accepts passes the client check |
| OrderModel.PricelessMarketOrderRefused | frontend/src/models/order.js:107-115 | a MARKET order without a price passes the client check and is refused by the server |
| OrderModel.IsValid | frontend/src/models/order.js:107-115 | defined here: the client check; specified by `OrderModel.ServerAcceptedIsValid`, `PricelessMarketOrderRefused` and `SidesExclusive` |
| TradeModel.NewTrade | frontend/src/models/trade.js:11-21 | commission = 0.0005 × quantity × price, and commission asset "USDT" |
| TradeModel.DefaultTrade | frontend/src/models/trade.js:11-21 | a trade built from nothing is a BUY of BTCUSDT with nothing traded and no commission, and it is invalid |
| TradeModel.NetValueCases | frontend/src/models/trade.js:35-48 | net = total + commission for BUY and total − commission otherwise, when the asset test passes; otherwise net = total |
| TradeModel.NetValue | frontend/src/models/trade.js:35-48 | defined here: the net value; specified by `TradeModel.NetValueCases`, `BtcNetIsTotal` and `QuoteBaseIsCharged` |
| TradeModel.BtcNetIsTotal | frontend/src/models/trade.js:38-47 | for BTCUSDT the asset test fails, so net value = total value |
| TradeModel.QuoteBaseIsCharged | frontend/src/models/trade.js:38-41 | the asset test passes for a USDT-based symbol |
| TradeModel.ValidTradeCommission | frontend/src/models/trade.js:74-84 | a valid trade pays a positive commission of 0.05% of its total; without an order id no trade is valid |
| TradeModel.IsValid | frontend/src/models/trade.js:74-84 | defined here: the client check; specified by `TradeModel.ValidTradeCommission` and `DefaultTrade` |
| TradeModel.IndexOf | frontend/src/models/trade.js:40 | the first position where the pattern occurs, as `replace` with a string pattern finds it |
| CandleModel.DefaultCandle | frontend/src/models/candle.js:6-16 | a candle built from nothing is an open one-minute BTCUSDT bar at 0, valid exactly when the clock is positive |
| CandleModel.NewCandle | frontend/src/models/candle.js:6-16 | defined here: the constructor; specified by `CandleModel.DefaultCandle` |
| CandleModel.BullishMeansRising | frontend/src/models/candle.js:21-38 | bullish exactly when the change is ≥ 0, and for a positive open exactly when the percentage is ≥ 0 |
| CandleModel.PercentOfOpen | frontend/src/models/candle.js:28-31 | 0 for a zero open; otherwise percentage × open = change × 100 |
| CandleModel.PercentChange | frontend/src/models/candle.js:28-31 | defined here: the percentage change; specified by `CandleModel.PercentOfOpen`, `BullishMeansRising` and `ValidMeansOrdered` |
| CandleModel.ValidMeansOrdered | frontend/src/models/candle.js:63-74 | valid exactly when 0 ≤ low ≤ open, close ≤ high at a positive time; a valid bar never falls more than 100% |
| CandleModel.IsValid | frontend/src/models/candle.js:63-74 | defined here: the client check; specified by `CandleModel.ValidMeansOrdered` and `DefaultCandle` |
| CandleModel.ChartKeepsPrices | frontend/src/models/candle.js:43-51 | o/h/l/c are open/high/low/close, so a valid bar's body lies inside its wick |
| PortfolioState.PortfolioStore.constructor | frontend/src/stores/portfolioStore.js:6-11 | balance 100000, position 0, total value 100000 and no trades |
| PortfolioState.PortfolioStore.UpdateBalance | frontend/src/stores/portfolioStore.js:68-73 | only the balance changes |
| PortfolioState.PortfolioStore.UpdatePosition | frontend/src/stores/portfolioStore.js:76-81 | only the position changes |
| PortfolioState.PortfolioStore.AddTrade | frontend/src/stores/portfolioStore.js:84-89 | the trade goes in front, the list grows by one, and nothing else changes |
| PortfolioState.PortfolioStore.UpdateTotalValue | frontend/src/stores/portfolioStore.js:92-97 | totalValue = balance + position × price, and nothing else changes |
| PortfolioState.PortfolioStore.Reset | frontend/src/stores/portfolioStore.js:100-107 | exactly the initial state, whatever the state was |
| PortfolioState.PortfolioStore.ApplyRefresh | frontend/src/stores/portfolioStore.js:37-61 | nothing changes unless all three responses are ok; then balance and total value come from the summary, the position from the first BTCUSDT entry or 0, and the trades from the page or [] |
| PortfolioState.FirstBtc | frontend/src/stores/portfolioStore.js:47-50 | the index of the first BTCUSDT entry, or none |
| PortfolioState.RefreshFromMock | frontend/src/stores/portfolioStore.js:46-58 | refreshing from the mock backend takes over its exact BTC quantity, and the total value is marked at the backend's price |
| PortfolioState.BtcQuantityOfFirst | frontend/src/stores/portfolioStore.js:47-50 | entries before the first BTCUSDT one do not affect the position |
| MarketState.MarketStore.constructor | frontend/src/stores/marketStore.js:6-13 | all prices 0, not connected, no last update |
| MarketState.MarketStore.UpdatePrice | frontend/src/stores/marketStore.js:19-25 | only the current price and the last update change |
| MarketState.MarketStore.UpdateCandle | frontend/src/stores/marketStore.js:28-37 | current = close and open/high/low come from the bar, the last update is set, and the connection flag is kept; a valid bar leaves the prices in range |
| MarketState.MarketStore.SetConnected | frontend/src/stores/marketStore.js:40-45 | only the connection flag changes |
| MarketState.MarketStore.Reset | frontend/src/stores/marketStore.js:48-57 | exactly the initial state whatever the state was, so resetting twice equals resetting once |

## Left out

- Floating point: `parseFloat`, `*` and NUMERIC columns are exact reals. Residual quantities near 0 and rounding in stored balances are not modelled.
- Concurrency: each request is one atomic step. Two requests interleaving across `await` points, and the pool's connection handling, are not modelled.
- ROLLBACK failures: a ROLLBACK or COMMIT statement that itself throws is not modelled. A throw at COMMIT is modelled as a rolled-back transaction whose trade id stays drawn.
- `executed_at` and `created_at` ordering: newest first is modelled as reverse insertion order, and ties between equal timestamps are not modelled. `NOW()` and `updated_at` stamps, and the `createdAt`/`updatedAt`/`executed_at` fields of responses, are left out.
- Time-based statistics: the `DATE_TRUNC` monthly activity of `/performance` depends on the database clock, and is left out.
- Top symbols: the top-five ranking of `/performance` is left out. Its order among equal counts is not defined by the query.
- Valuation.Totals, Valuation.ViewOf and Valuation.ViewsMeaning: the fallback from a NULL `current_price` to `avg_price` (portfolio.js:113 and 201), and the `|| 0` fallbacks of the computed columns, are not modelled. Every row the core writes has a mark price.
- HTTP layer: routing, express-validator's messages, status codes and JSON shaping are reduced to the validation predicate and the result payloads. Authentication (the user id is a parameter) is left out.
- Socket.IO transport: delivery, reconnection back-off and the client socket wiring are left out. Only the connected flag, room membership and an outbox of emitted messages are modelled.
- `broadcastPriceUpdate` and `requestHistoricalDataManual` are left out. No core handler calls them, and the manual variant is `requestHistoricalData` with a caller-chosen limit.
- Relay.MarketCandle: the candle is given with each numeric field already as `parseFloat` yields it. Normalising to the nine named fields is then the identity, and text parsing itself is not modelled.
- Relay.Relay.Subscribe, Relay.Relay.OnUpstreamConnect and Relay.Connect: all history requests of one handler call share a single clock reading `now`. The source reads `Date.now()` once per `requestHistoricalData` call.
- Incoming JSON objects are modelled only through the fields the code reads. Click handlers and Chart.js itself are left out.
- Mock.CurrentBtcPrice: a missing `global.currentMarketPrice` is treated like an empty map.
- Mock.MockPositions: the constant id "mock-position-1" and the time stamps of the entry are not modelled.
- TradeModel.Upper: `toUpperCase` is modelled for ASCII letters only.
- OrderModel.NewOrder and TradeModel.NewTrade: an id is modelled as text. A numeric id coming from the database is not distinguished.
- `getSideColor` is covered only through `OrderModel.StatusColors`. `fromApi` and `fromRawData` are the constructors themselves.
- PortfolioState.PortfolioStore.ApplyRefresh: the three `fetch` calls and their JSON decoding are left out. Only the merge step is modelled, with the responses' `ok` flags combined into one `allOk`.
- MarketState.MarketStore.UpdateCandle: the bar is the client's candle object. The websocket wiring that produces it is not part of this model.
