# backlight: trade ledger, position accounting, metrics and portfolios

This project is a Dafny model of the core of the backtesting library
`backlight`. It has three layers.

- **Trade ledger** (`series.dfy`, `ledger.dfy`).
  - A trade is a time series of signed amounts. `make_trade` sums fills that share a timestamp and orders them in time.
  - A `Trades` container holds the rows of many trades. Each row carries the id of its trade, and the rows are kept in stable time order.
  - `make_trades` numbers the trades 0, 1, ... in list order, or takes explicit ids.
  - The container offers the `ids`, `amount`, `get_trade`, `get_any` and `get_all` queries.
  - `concat` merges containers. With `refresh_id`, each input's ids are first moved past the ids used so far.
- **Position engine and metrics** (`positions.dfy`, `metrics.dfy`).
  - `calculate_positions` turns a container and the market mids of its symbol into a record.
  - The record has one leading row one step before the first trade. After it comes one row per market step, up to the end of the market.
  - Each row holds the running amount, the market mid and the cash principal. The principal is the configured principal less everything paid for the amounts bought.
  - The metrics work on `value = amount * price + principal`:
    - profit and loss: the first difference of the value;
    - drawdown: the running maximum less the value;
    - traded volume: the sum of the absolute changes of the amount;
    - the performance row: total, winning and losing profit and loss, the volume, and profit per unit traded.
- **Portfolio** (`portfolio.dfy`).
  - `construct_portfolio` takes one position per traded symbol, in lexicographic order of the symbols.
  - For each symbol it merges that symbol's containers (with id refresh), scales the net quantities by the lot size, and converts into the base currency.
  - `_fusion_positions` adds up, row by row, the records of the same symbol over the union of their timestamps.

## Modelling conventions

- **Time** is an integer step: one minute, or one day, depending on the market.
- **Amounts, prices and principals** are `real`.
- **Series and records:**
  - A series is a sequence of `(time, value)` points. `At(s, t)` reads it as a zero-filled sum.
  - A market is a gap-free sequence of mids from a start step on.
  - A record of positions is a sequence of `Entry(time, Holding(amount, price, principal))`.
- **Currency conversion:**
  - When the container's currency is already the base currency, prices and costs stay as they are.
  - When the symbol's first leg is the base currency (USDJPY into USD), the price column keeps the mid and each unit costs one unit of the base currency.
  - Otherwise, when the cross market `BASE+QUOTE` exists (USDJPY for EURJPY into USD), it gives a rate at every row. Price and unit cost become `mid / rate`. The principal becomes `principal / rate` at the leading row's time.
  - With no such market, the reverse market `QUOTE+BASE` is used the other way (USDJPY for EURUSD into JPY). Price and unit cost become `mid * rate`, and the principal becomes `principal * rate` at the leading row's time.
  - With neither market, the conversion is a missing cross rate.
  - `ConversionFactors` is the reference definition: the value in the base currency of one unit of the quote currency at each row. It is 1, `1 / rate` of the `BASE+QUOTE` market, or `rate` of the `QUOTE+BASE` market.
- **Error paths** are `Result` values:
  - an absent trade id;
  - `concat` of nothing;
  - explicit ids that do not line up with the points;
  - a market of another symbol;
  - a trade outside the market;
  - a missing market, principal, lot size or cross rate;
  - a zero rate in a `BASE+QUOTE` market, which the conversion divides by.
- **Semantics from the tests.** The semantics follow what the repository's tests build and assert.
  - `tests/<area>/test_*.py` are cited in the table below by line.
  - Each test function is modelled on its own data by one lemma of a scenario module: `trades_scenario.dfy`, `metrics_scenario.dfy` and `portfolio_scenario.dfy`.
- **Three modelling choices fixed by the tests:**
  - **Principal of the leading row.** The configured principal is already folded into the leading row's principal: 100 in the metrics test; 10 and 5 in the portfolio test.
  - **Rows kept by `concat`.** `concat` without `refresh_id` keeps every row of every input rather than summing rows that share an id. The test's `len` is the sum of the inputs' lengths (`test_trades.py:111-113`).
  - **Length of the drawdown.** The drawdown has as many entries as the record, leading row included (`test_evaluation_metrics.py:87-92`).
- **Exact fusion result.** The fusion test only compares `.all().all()` truth values. The model states the exact records instead. The EURJPY record passes through unchanged, starting on its own first day (day 3). The test's expected frame for it is indexed from 2012-1-1, which the truth-value comparison never looks at.

## Model

| member | source | states |
|---|---|---|
| TimeSeries.Collapse | tests/trades/test_trades.py:72-95 | the collapsed trade is strictly increasing in time, has exactly the fills' timestamps, and holds at each timestamp the sum of the fills at it |
| TimeSeries.CollapseOrderFree | tests/trades/test_trades.py:91-95 | two fill lists that are permutations of one another collapse to the same trade |
| TimeSeries.CollapseIncreasing | tests/trades/test_trades.py:81-83 | fills already at distinct increasing times are left as they are |
| TimeSeries.AddFillSpec | tests/trades/test_trades.py:85-89 | adding one fill keeps the series increasing, adds its time, and adds its amount at that time only |
| TimeSeries.Determined | tests/trades/test_trades.py:36-40 | two increasing series with the same timestamps and the same value at each are equal |
| Ledger.MakeTrade | tests/trades/test_trades.py:72-95 | make_trade is increasing, has the transactions' timestamps and sums the transactions at each |
| Ledger.MakeTradeOrderFree | tests/trades/test_trades.py:91-95 | make_trade gives the same trade whatever order the transactions come in |
| Ledger.SortRows | tests/trades/test_trades.py:115-117 | the sorted rows are in time order and a permutation of the input |
| Ledger.WhereSort | tests/trades/test_trades.py:115-117 | selecting rows commutes with the stable sort, so rows at equal times keep their input order |
| Ledger.MakeTrades | tests/trades/test_trades.py:19-28 | make_trades succeeds exactly when no ids are given or the given ids line up with the points; the container has the symbol, the currency, and rows in time order |
| Ledger.MakeTradesNumbers | tests/trades/test_trades.py:20-33 | without explicit ids, for series each strictly increasing in time, get_trade(i) of make_trades is series i whenever that series exists and is non-empty, and a lookup error otherwise |
| Ledger.MakeTradesAmount | tests/trades/test_trades.py:36-40 | the amount of make_trades is the union of all given series' points, summed per timestamp |
| Ledger.Ids | tests/trades/test_trades.py:31-33 | ids lists every trade id of the container exactly once |
| Ledger.UniqueFirstOrder | tests/trades/test_trades.py:31-33 | the distinct ids are listed in the order of their first appearance in time |
| Ledger.Amount | tests/trades/test_trades.py:36-40 | amount is increasing, has the rows' timestamps and holds the net amount traded at each |
| Ledger.GetTrade | tests/trades/test_trades.py:65-69 | get_trade fails exactly when the id is absent; otherwise it gives one point per row of that id, as the same multiset as those rows' points; every point comes from such a row, every such row gives a point, and the points are in time order when the container is |
| TradesScenario.MakeTradesChunks | tests/trades/test_trades.py:24-27 | the rows of the fixture's container are its slices in list order, slice i numbered i |
| Ledger.GetAny | tests/trades/test_trades.py:43-54 | get_any keeps exactly the rows of trades that have at least one masked timestamp |
| Ledger.GetAll | tests/trades/test_trades.py:57-62 | get_all keeps exactly the rows of trades whose every timestamp is masked |
| Ledger.GetAnyWhole | tests/trades/test_trades.py:43-54 | every trade get_any keeps is the original trade, whole; any other id is a lookup error |
| Ledger.GetAllWhole | tests/trades/test_trades.py:57-62 | every trade get_all keeps is the original trade, whole; any other id is a lookup error |
| Ledger.GetAllWithinAny | tests/trades/test_trades.py:43-62 | each trade kept by get_all is kept by get_any, and both give the original trade |
| Ledger.Concat | tests/trades/test_trades.py:98-123 | concat fails exactly on no inputs; the result has the first input's symbol and currency, rows in time order, and the inputs' rows as a permutation |
| Ledger.ConcatLength | tests/trades/test_trades.py:111-113 | len of a concatenation is the sum of the inputs' lens |
| Ledger.ConcatAmount | tests/trades/test_trades.py:119-123 | the amount of a concatenation at every timestamp is the sum of the inputs' amounts |
| Ledger.ConcatTies | tests/trades/test_trades.py:115-117 | at each timestamp a concatenation lists the rows of earlier inputs first |
| Ledger.ConcatIds | tests/trades/test_trades.py:98-117 | without refresh_id the ids of a concatenation are exactly the union of the inputs' ids |
| Ledger.Refreshed | tests/trades/test_trades.py:100 | refresh_id keeps the number of containers |
| Ledger.ConcatRefresh | tests/trades/test_trades.py:98-117 | the loop with a next-free-id counter gives the concatenation of the refreshed inputs |
| Ledger.RefreshFirstUnchanged | tests/trades/test_trades.py:100 | refresh_id leaves the first container's ids as they are |
| Ledger.RefreshShifts | tests/trades/test_trades.py:100 | refresh_id moves all ids of a container by one constant no smaller than the starting offset |
| Ledger.RefreshPair | tests/trades/test_trades.py:100 | for any two containers refresh_id keeps the first and moves the second's ids by one past the first's largest id, or by nothing when the first is empty |
| Ledger.RefreshSeparated | tests/trades/test_trades.py:100 | after refresh_id the containers' id ranges are disjoint and increase in list order |
| Ledger.ConcatRefreshIdCount | tests/trades/test_trades.py:98-117 | after refresh_id a concatenation has as many distinct ids as the inputs have together |
| Ledger.ShiftTrade | tests/trades/test_trades.py:100 | the trade under id + offset after the shift is the trade that was under id |
| Ledger.ShiftAmount | tests/trades/test_trades.py:119-123 | moving ids changes no amount |
| TradesScenario.ChunkTrades | tests/trades/test_trades.py:24-26 | the fixture loop yields the slices data[i:i+w] for i = 0, w, 2w, ... |
| TradesScenario.FlattenChunks | tests/trades/test_trades.py:21-26 | the slices put back together are the whole column |
| TradesScenario.ChunksShape | tests/trades/test_trades.py:24-26 | every slice is non-empty and in time order |
| TradesScenario.ChunksIds | tests/trades/test_trades.py:31-33 | the ids of the sliced container are 0 .. n-1 for n slices |
| TradesScenario.ChunksAmount | tests/trades/test_trades.py:36-40 | the amount of the sliced container is the original column, point for point |
| TradesScenario.ChunksTrade | tests/trades/test_trades.py:65-69 | get_trade(k) of the sliced container is slice k, and a lookup error past the last slice |
| TradesScenario.ConcatSelfIds | tests/trades/test_trades.py:98-117 | for a container with at most one fill per timestamp, concat with itself keeps its ids, in their order |
| TradesScenario.ConcatSelfRefreshIds | tests/trades/test_trades.py:98-117 | for a non-empty container with at most one fill per timestamp, concat with itself under refresh_id follows each id k of the first copy by k + (largest id + 1) of the second |
| TradesScenario.ConcatSelfRows | tests/trades/test_trades.py:102-123 | concat of a container with itself keeps the symbol, has twice the rows and twice the amount |
| TradesScenario.ConcatRefreshRows | tests/trades/test_trades.py:98-123 | the same holds with refresh_id |
| TradesScenario.TestTradesIds | tests/trades/test_trades.py:31-33 | the fixture's ids are [0, 1, 2, 3, 4] |
| TradesScenario.TestTradesAmount | tests/trades/test_trades.py:36-40 | the fixture's amount is the ten-point column, minute by minute |
| TradesScenario.TestGetTrade | tests/trades/test_trades.py:65-69 | get_trade(0) of the fixture is [1, -2] at minutes 0 and 1 |
| TradesScenario.TestTradesGetAny | tests/trades/test_trades.py:43-54 | get_any over minutes {0, 4, 5} gives [1, -2, -4, 2] at minutes 0, 1, 4, 5 |
| TradesScenario.TestTradesGetAll | tests/trades/test_trades.py:57-62 | get_all over minutes {0, 4, 5} gives [-4, 2] at minutes 4, 5 |
| TradesScenario.TestConcat | tests/trades/test_trades.py:102-123 | concat of two copies without refresh_id: symbol USDJPY, 20 rows, ids [0..4], twice the amount |
| TradesScenario.TestConcatRefresh | tests/trades/test_trades.py:98-123 | concat of two copies with refresh_id: symbol USDJPY, 20 rows, ids [0, 5, 1, 6, 2, 7, 3, 8, 4, 9], twice the amount |
| TradesScenario.TestMakeTradeDistinct | tests/trades/test_trades.py:81-83 | fills at two different times stay two points |
| TradesScenario.TestMakeTradeSummed | tests/trades/test_trades.py:85-89 | two fills at one time become one point holding their sum |
| TradesScenario.TestMakeTradeUnordered | tests/trades/test_trades.py:91-95 | fills out of order are summed per time and put in time order |
| PositionEngine.Accumulate | tests/metrics/test_evaluation_metrics.py:48-65 | the loop with a running amount and a running cash balance builds exactly the record Book, leading row first |
| PositionEngine.BookSteps | tests/metrics/test_evaluation_metrics.py:50-62 | from each row to the next, time advances one step, the amount moves by that step's quantity, the principal by minus the quantity times the unit cost, and the price is the step's price |
| PositionEngine.BookStep | tests/metrics/test_evaluation_metrics.py:50-62 | the same step relation, read off a record and stated with the Financed predicate |
| PositionEngine.BookAmount | tests/metrics/test_evaluation_metrics.py:50-62 | the amount of row k is the sum of the first k quantities, so the leading row holds 0 |
| PositionEngine.BookPrincipal | tests/metrics/test_evaluation_metrics.py:50-65 | the principal of row k is the principal less the cost of the first k quantities |
| PositionEngine.BookTimes | tests/metrics/test_evaluation_metrics.py:68-92 | the record's times run without gaps from one step before the first trade |
| PositionEngine.CalculatePositions | tests/metrics/test_evaluation_metrics.py:48-65 | a container of another symbol and a trade outside the market are exactly the two errors; no rows give no records; otherwise the record runs from one step before the first trade to the market's end at the market mids |
| PositionEngine.CoveredPositions | tests/metrics/test_evaluation_metrics.py:48-65 | trades of the market's symbol that the market covers give that record, from their first time |
| PositionEngine.CalculatePositionsEmpty | tests/metrics/test_evaluation_metrics.py:48-65 | a successful record is empty exactly when the container has no rows |
| PositionEngine.PositionsTrack | tests/metrics/test_evaluation_metrics.py:50-65 | between consecutive rows, the amount moves by exactly the net amount traded at the later time, the price is that time's mid, and the principal pays for the change at the mid |
| PositionEngine.PositionsLeading | tests/metrics/test_evaluation_metrics.py:68-92 | the leading row holds nothing and the whole principal, and every trade falls strictly after it and within the record |
| Metrics.Pl | tests/metrics/test_evaluation_metrics.py:68-74 | the profit and loss has one entry fewer than the values |
| Metrics.PlRecovers | tests/metrics/test_evaluation_metrics.py:68-74 | each value is the first value plus the sum of all changes before it |
| Metrics.PlTotal | tests/metrics/test_evaluation_metrics.py:95-103 | the changes add up to the last value less the first |
| Metrics.BookPl | tests/metrics/test_evaluation_metrics.py:50-74 | in a record bought at the market, the first change is zero and each later change is the amount held times the move of the price |
| Metrics.StepValue | tests/metrics/test_evaluation_metrics.py:50-62 | buying d more at price p and paying p for it moves the value by the old amount times the move of the price |
| Metrics.Peak | tests/metrics/test_evaluation_metrics.py:87-92 | the peak is at least every value and equal to one of them |
| Metrics.CalculateDrawdown | tests/metrics/test_evaluation_metrics.py:87-92 | the loop with a running maximum gives exactly the drawdown (peak so far less value, at each record) |
| Metrics.DrawdownFacts | tests/metrics/test_evaluation_metrics.py:87-92 | drawdown is never negative, is zero exactly where the value is the highest so far, bounds every fall from an earlier value and equals one of them |
| Metrics.DrawdownAtPeak | tests/metrics/test_evaluation_metrics.py:87-92 | drawdown is zero at the global maximum |
| Metrics.TradeAmount | tests/metrics/test_evaluation_metrics.py:77-79 | the traded volume is never negative |
| Metrics.TradeAmountOfSteps | tests/metrics/test_evaluation_metrics.py:77-79 | an amount column built up from zero by given steps has traded the sum of the steps' sizes |
| Metrics.TradeAmountBook | tests/metrics/test_evaluation_metrics.py:77-79 | the traded volume of a record is the sum of the sizes of its net trade quantities |
| Metrics.Gains | tests/metrics/test_evaluation_metrics.py:98 | the winning profit and loss is never negative |
| Metrics.Losses | tests/metrics/test_evaluation_metrics.py:99 | the losing profit and loss is never positive |
| Metrics.GainsLosses | tests/metrics/test_evaluation_metrics.py:95-105 | gains and losses add up to the total profit and loss |
| Metrics.CalculatePositionPerformance | tests/metrics/test_evaluation_metrics.py:95-107 | the report holds the sum of the changes of value, the sum of the positive changes, the sum of the negative changes and the traded volume; win + lose = total, win >= 0, lose <= 0, volume >= 0; the average is total / volume, and absent exactly when the volume is zero |
| Metrics.PerformanceAverage | tests/metrics/test_evaluation_metrics.py:95-107 | whenever the average per unit traded exists, it times the volume gives back the total profit and loss |
| Metrics.PerformanceBook | tests/metrics/test_evaluation_metrics.py:77-107 | for a record built from net trade quantities, the reported volume is the sum of the quantities' sizes, the total is the last value less the first, and the average exists exactly when something was traded |
| Metrics.PerformanceTotal | tests/metrics/test_evaluation_metrics.py:95-103 | the total profit and loss is the last value less the first |
| MetricsScenario.FixtureDeltas | tests/metrics/test_evaluation_metrics.py:36-45 | the fixture's net quantity of every day is that day's traded amount |
| MetricsScenario.DailyPositions | tests/metrics/test_evaluation_metrics.py:48-65 | the fixture's positions are the record of the daily quantities bought at the daily mids with principal 100 |
| MetricsScenario.TestCalculatePl | tests/metrics/test_evaluation_metrics.py:68-74 | the fixture's profit and loss is [0, 1, -1, 0, 2, -2, 0, 1, 1, 0] |
| MetricsScenario.TestTradeAmount | tests/metrics/test_evaluation_metrics.py:77-79 | the fixture's traded volume is 14 |
| MetricsScenario.TestCalculateDrawdown | tests/metrics/test_evaluation_metrics.py:87-92 | the fixture's drawdown is [0, 0, 0, 1, 1, 0, 2, 2, 1, 0, 0] |
| MetricsScenario.DailyPerformance | tests/metrics/test_evaluation_metrics.py:95-107 | any record with the fixture's daily changes and volume 14 reports total 2, win 5, lose -3, volume 14, average 2/14 |
| MetricsScenario.TestPositionPerformance | tests/metrics/test_evaluation_metrics.py:95-107 | the fixture's performance row is total 2, win 5, lose -3, volume 14, average 2/14 |
| Portfolios.SortedNames | tests/portfolio/test_portfolio.py:129-138 | the distinct names, strictly increasing in lexicographic order |
| Portfolios.TradeSymbolsSpec | tests/portfolio/test_portfolio.py:44-46 | the traded symbols are strictly sorted and are exactly the symbols of the containers |
| Portfolios.MergeAddAt | tests/portfolio/test_portfolio.py:178-181 | fusing two records adds them column by column at every timestamp |
| Portfolios.MergeAddTimes | tests/portfolio/test_portfolio.py:178-192 | a fused record has a row at exactly the timestamps of either input |
| Portfolios.MergeAddChronological | tests/portfolio/test_portfolio.py:178-192 | fusing two chronological records gives a chronological record |
| Portfolios.HeldAtRow | tests/portfolio/test_portfolio.py:178-192 | reading a chronological record at one of its times gives that row, and nothing elsewhere |
| Portfolios.FuseAt | tests/portfolio/test_portfolio.py:178-181 | a fused group holds at every timestamp the sum of its members' rows there |
| Portfolios.FuseTimes | tests/portfolio/test_portfolio.py:178-192 | the timestamps of a fused group are the union of its members' timestamps |
| Portfolios.FuseChronological | tests/portfolio/test_portfolio.py:178-192 | a fused group of chronological records is chronological |
| Portfolios.SameSymbol | tests/portfolio/test_portfolio.py:153-175 | the members of one symbol are exactly the list's positions with that symbol |
| Portfolios.FusionPositions | tests/portfolio/test_portfolio.py:178-197 | one fused position per distinct symbol, in lexicographic order |
| Portfolios.FusionPositionsSpec | tests/portfolio/test_portfolio.py:141-197 | each fused position is chronological, has the union of its symbol's timestamps, and is the sum of its symbol's rows at every time |
| Portfolios.FindMarket | tests/portfolio/test_portfolio.py:50-71 | the market found is one of the symbol's markets, and none is found exactly when no market has the symbol |
| Portfolios.Divided | tests/portfolio/test_portfolio.py:101-113 | each converted price times its rate is the original price |
| Portfolios.CrossMultiply | tests/portfolio/test_portfolio.py:101-127 | a reverse market not covering the record is a missing rate; otherwise prices equal unit costs, each price is the mid times the rate at its time, and the principal is the configured one times the leading rate |
| Portfolios.CrossReciprocal | tests/portfolio/test_portfolio.py:101-127 | dividing by a market's rates and multiplying by the rates of a market reciprocal to it at every time give the same conversion |
| Portfolios.CrossConvert | tests/portfolio/test_portfolio.py:101-113 | a cross market not covering the record is a missing rate and a zero rate is an error; otherwise prices equal unit costs, each price times its rate is the mid, and the principal times the leading rate is the configured principal |
| Portfolios.ConvertRates | tests/portfolio/test_portfolio.py:101-127 | a conversion exists exactly when every conversion factor is known: 1 for the base currency and for a base-leg symbol, the reciprocal of a non-zero `BASE+QUOTE` mid, or else the `QUOTE+BASE` mid. The principal and every price are then multiplied by their factor, and a unit costs its converted price, or 1 for a base-leg symbol |
| Portfolios.ConvertLeading | tests/portfolio/test_portfolio.py:101-127 | the converted principal is the configured one, or that principal divided by the `BASE+QUOTE` rate, or multiplied by the `QUOTE+BASE` rate, one step before the first trade |
| Portfolios.ConvertCosts | tests/portfolio/test_portfolio.py:101-127 | the unit cost is 1 for a base-leg symbol and the converted price otherwise; base-currency and base-leg prices are the mids |
| Portfolios.ScaleAt | tests/portfolio/test_portfolio.py:79-81 | each scaled quantity is the lot size times the quantity |
| Portfolios.SumScale | tests/portfolio/test_portfolio.py:79-81 | the sum of scaled quantities is the lot size times their sum |
| Portfolios.BookLots | tests/portfolio/test_portfolio.py:101-127 | in a lot-scaled record the amount of row k is the lot size times the running sum of the quantities |
| Portfolios.BookLotStep | tests/portfolio/test_portfolio.py:101-127 | from each row to the next the amount moves by lot size times that step's quantity, at that step's price, paid at that step's unit cost |
| Portfolios.BuildPosition | tests/portfolio/test_portfolio.py:84-138 | an engine error is passed on; a built position has the symbol, the base currency and as many rows as the engine's record |
| Portfolios.BuildPositionBook | tests/portfolio/test_portfolio.py:101-127 | a built position with trades is the record of the lot-scaled quantities at the converted prices, costs and principal |
| Portfolios.BuildPositionConverted | tests/portfolio/test_portfolio.py:101-127 | once the engine accepts the trades, the position exists exactly when the conversion does, and is then that record |
| Portfolios.BuildPositionPlain | tests/portfolio/test_portfolio.py:84-138 | in its own currency and with lot size one a position is exactly the engine's record |
| Portfolios.BuildPositionLeading | tests/portfolio/test_portfolio.py:87-127 | the leading row holds amount 0 and price 0, and the principal is the configured one, or that principal divided by the `BASE+QUOTE` rate, or multiplied by the `QUOTE+BASE` rate, at the leading row's time |
| Portfolios.Group | tests/portfolio/test_portfolio.py:44-46 | the containers of one symbol are exactly the list's containers with that symbol |
| Portfolios.Merged | tests/portfolio/test_portfolio.py:44-46 | a symbol's merge exists exactly when some container has the symbol, and carries that symbol |
| Portfolios.MergedAmount | tests/portfolio/test_portfolio.py:115-127 | the merged container trades at every time the sum of what the symbol's containers trade |
| Portfolios.SymbolPosition | tests/portfolio/test_portfolio.py:74-85 | a traded symbol without a market, a principal or a lot size is the matching error; a position has the symbol and the base currency |
| Portfolios.BuildAll | tests/portfolio/test_portfolio.py:84-85 | all positions exist exactly when each symbol's does, and then position k is symbol k's |
| Portfolios.ConstructPortfolio | tests/portfolio/test_portfolio.py:84-138 | the portfolio exists exactly when every traded symbol's position does; it keeps the configuration, lists the traded symbols in order, and every position is in the base currency |
| Portfolios.PortfolioSymbols | tests/portfolio/test_portfolio.py:129-138 | a portfolio has exactly one position per traded symbol, in strictly increasing lexicographic order |
| Portfolios.PortfolioConfigured | tests/portfolio/test_portfolio.py:74-85 | a portfolio exists only when every traded symbol has a market, a principal and a lot size |
| Portfolios.TradedListed | tests/portfolio/test_portfolio.py:44-46 | every container's symbol is among the traded symbols |
| Portfolios.PortfolioPosition | tests/portfolio/test_portfolio.py:84-138 | each portfolio position is the position built for its symbol from the merged containers, its market, principal and lot size |
| PortfolioScenario.Container | tests/portfolio/test_portfolio.py:36-46 | the fixture builds a container of the given symbol in JPY |
| PortfolioScenario.ContainerAmount | tests/portfolio/test_portfolio.py:19-41 | a fixture container trades minutes 0 to 9 only, and at each the net of its fills, the two fills at 00:03 summed |
| PortfolioScenario.MergedUsd | tests/portfolio/test_portfolio.py:44-46 | the two USDJPY containers merge into one trading twice the minute quantities |
| PortfolioScenario.MergedEur | tests/portfolio/test_portfolio.py:45 | the one EURJPY container merges into one trading the minute quantities |
| PortfolioScenario.UsdConversion | tests/portfolio/test_portfolio.py:115-127 | USDJPY into USD keeps the price 2 and costs one unit a unit |
| PortfolioScenario.ReverseConversion | tests/portfolio/test_portfolio.py:50-71 | with the fixture's USDJPY and EURJPY markets, a EURUSD record in USD converts into JPY through USDJPY the reverse way: price 2 becomes 4, cost 4, principal 10 becomes 20 |
| PortfolioScenario.EurConversion | tests/portfolio/test_portfolio.py:101-113 | EURJPY into USD through the USDJPY mid of 2: price 4 becomes 2, cost 2, principal 10 becomes 5 |
| PortfolioScenario.UsdBook | tests/portfolio/test_portfolio.py:115-127 | the lot-scaled USDJPY record is the test's data2 |
| PortfolioScenario.EurBook | tests/portfolio/test_portfolio.py:101-113 | the lot-scaled EURJPY record is the test's data1 |
| PortfolioScenario.UsdPosition | tests/portfolio/test_portfolio.py:115-127 | the position built from the merged USDJPY container is data2 in USD |
| PortfolioScenario.EurPosition | tests/portfolio/test_portfolio.py:101-113 | the position built from the EURJPY container is data1 in USD |
| PortfolioScenario.FixtureSymbols | tests/portfolio/test_portfolio.py:44-46 | the traded symbols of the fixture are EURJPY then USDJPY |
| PortfolioScenario.FixturePortfolio | tests/portfolio/test_portfolio.py:84-138 | any two USDJPY and one EURJPY container trading the fixture's minutes give the portfolio [EURJPY data1, USDJPY data2] in USD |
| PortfolioScenario.TestConstructPortfolio | tests/portfolio/test_portfolio.py:84-138 | construct_portfolio on the fixtures gives EURJPY data1 then USDJPY data2, both in USD, with the configuration kept |
| PortfolioScenario.FusedDays | tests/portfolio/test_portfolio.py:180-181 | the two USDJPY records fused day by day are [[0,1,2],[3,5,7],[9,11,13],[6,7,8]] on days 0 to 3 |
| PortfolioScenario.FusionNames | tests/portfolio/test_portfolio.py:153-178 | the fusion input's symbols are EURJPY then USDJPY |
| PortfolioScenario.TestFusionPositions | tests/portfolio/test_portfolio.py:141-197 | fusion gives EURJPY unchanged and then USDJPY as the day-by-day sum, both in JPY |

## Left out

- The `sharpe` field and `calculate_sharpe`: they need a square root, an annualisation constant and a floating-point literal, which exact real arithmetic does not model.
- Timestamps, date ranges and string index parsing: time is an integer step, and a date is its offset from the first step.
- `backlight.datasource.from_dataframe` and `positions.from_dataframe`: a market is a start step and a gap-free sequence of mids, and a record is a sequence of entries.
- Currencies other than JPY and USD: `Currency` is those two tags.
- The `Portfolio` fixture that sets `symbol` and `currency_unit` on positions in place (`test_portfolio.py:215-231`): no live assertion uses it.
- The portfolio `calculate_pl` test (`test_portfolio.py:234-247`): it is commented out and asserts nothing.
- The zero cross rate: a zero rate in a `BASE+QUOTE` market is reported as an error, since no test divides by a zero rate. A zero rate in a `QUOTE+BASE` market is multiplied in like any other.
- Portfolios.Convert: when both `BASE+QUOTE` and `QUOTE+BASE` markets are supplied, the `BASE+QUOTE` one is used; no test supplies both.
- `get_any` and `get_all` masks: modelled as predicates on timestamps, standing for the boolean arrays the source builds with `index.minute.isin`.
- pytest fixtures and parametrisation: each test is one lemma, and each parameter set is a separate lemma (`TestConcat`, `TestConcatRefresh`).
- Metrics.CalculatePositionPerformance: reports no average (`None`) when the volume is zero, where the division `total_pl / cnt_amount` has no finite value; no test trades nothing.
- Ledger.NextFree: an empty container passes the next free id on unchanged under `refresh_id`, where "largest id + 1" has no value; no test concatenates an empty container.
- Ledger.Concat: takes the first input's symbol and currency without checking that the others agree; no test concatenates containers of different symbols.
- TradesScenario.ConcatSelfIds, TradesScenario.ConcatSelfRefreshIds: stated for containers with at most one fill per timestamp, like the trades fixture. When fills share a timestamp, the stable sort keeps each copy's fills at that time together, so under refresh_id the ids `[0, 1]` of `[Row(0, 1.0, 0), Row(0, 1.0, 1)]` become `[0, 1, 2, 3]` rather than the pairing `[0, 2, 1, 3]`. Ledger.ConcatIds and Ledger.ConcatRefreshIdCount state the id sets for every container.
- Floating point: all amounts are exact reals, so the tests' exact float comparisons are modelled as real equalities.
