# Algo-Trading core in Dafny

This project models the decision and translation rules of the Algo-Trading
bot. The bot is a Python program that trades index ETFs through Alpaca and
reads market data from TD Ameritrade, Finnhub and Polygon. The model covers:

- the "market" strategy (`Strategies/Market.py`). It sizes a position in SPY,
  DIA and QQQ as a fixed share of the account's cash. It buys all three when the
  market is up on the day and sells them when it is not. Its doc-comment says
  this happens at 11:00 New York time, but the `wait_to_trade` call in `run` is
  commented out (Strategies/Market.py:58), so `run` trades whenever it is called.
- the "is the market positive?" signal and the watchlist set-up of the strategy
  base (`strategies/strategy.py`).
- the Alpaca broker adapter: the symbol filter, the account gate and the bracket
  order rule (`brokers/alpaca.py`).
- the waiting rule of the broker base (`Brokers/Broker.py`).
- the vendor adapters (`Data_Providers/TDAmeritrade.py`, `FinnHub.py`, `Polygon.py`):
  epoch conversions, response gates, the percent change, the candle enrichment
  and the holiday filter.
- the two candle mappers of the data provider (`Data_Providers/DataProvider.py`).

Every call into a vendor API becomes an input:
- an account record, a price map, a quote;
- an HTTP response (its status and its decoded body);
- a websocket message;
- an oracle `valid(symbol)` that says whether Alpaca's asset lookup succeeds.

Time zones and calendars are a parameter `toLocal(zone, seconds)` that yields
the wall-clock fields of an instant. `strftime` itself is modelled directive
by directive over those fields.

Modules:
- `Wrappers` (`Option`), `Http` (responses, `raise_for_status`).
- `PyDatetime`: `timedelta` as exact microseconds, `int()` truncation, `strftime`.
- `PyList`: `list.remove`.
- One module per core file: `Broker`, `Alpaca`, `Strategy`, `Market`,
  `Finnhub`, `TDAmeritrade`, `Polygon`, `DataProvider`.

The two stateful classes are Dafny classes:
- `Market.Market`: `calc_shares_to_order` updates its per-symbol table in
  place, and `run` sets its cash.
- `Strategy.Strategy`: its constructor sets the fields.

The loops of the source are `while` or `for` loops, each proved against a
specification function:
- `check_symbols`, which removes from the list it iterates over;
- the sizing loop and the order loop of `run`;
- the enrichment loop of the TD Ameritrade price history;
- the holiday filter;
- both candle mappers.

Where the code and its comments disagree, the model follows the code. For
example, `finnhub_seconds_since_epoch` returns seconds although its doc-comment
says milliseconds.

## Model

| member | source | states |
|---|---|---|
| PyDatetime.Trunc | Data_Providers/FinnHub.py:37 | Python's `int()` on a number truncates toward zero: the result lies within one of the input, on the side of zero |
| PyDatetime.DateTimeIsDateSpaceTime | Data_Providers/TDAmeritrade.py:145-151 | for every local time, the `'%Y-%m-%d %H:%M:%S'` rendering is the `'%Y-%m-%d'` rendering, a space, and the `'%H:%M:%S'` rendering |
| PyDatetime.StrftimeAppend | Data_Providers/TDAmeritrade.py:146-150 | rendering a concatenated format gives the concatenation of the renderings |
| PyDatetime.RenderedShape | Data_Providers/TDAmeritrade.py:146 | for fields that fit, a rendered timestamp has 19 characters: `-` at 4 and 7, a space at 10, `:` at 13 and 16, and digits everywhere else |
| PyList.Remove | strategies/strategy.py:22 | `list.remove(x)` fails (`None`, for `ValueError`) exactly when `x` is absent; otherwise the list is one shorter |
| PyList.RemoveDeletesFirstOccurrence | strategies/strategy.py:22 | `remove` deletes the first occurrence of `x` and keeps every other element in order |
| PyList.RemoveMultiset | brokers/alpaca.py:33 | `remove` takes exactly one copy of `x` out of the list's elements |
| PyList.RemoveKeepsMembersOnly | brokers/alpaca.py:33 | whatever remains after `remove` was in the list before |
| Broker.WaitToTrade | Brokers/Broker.py:22-45 | returns without sleeping exactly when the market is open; otherwise it sleeps strictly longer than the wait `(next_open - timestamp) + delay`, and for a wait that lies ahead by at most one second more |
| Broker.DefaultWaitReachesElevenOClock | Brokers/Broker.py:22-42 | with the default delay of 90 minutes, a closed market means sleeping until more than 90 minutes after the next open |
| Alpaca.CheckSymbols | brokers/alpaca.py:19-36 | the remove-while-iterating loop returns the list that Python's list iterator leaves, `CheckedSymbols` |
| Alpaca.CheckedSymbolsFilters | brokers/alpaca.py:28-36 | the filtered list is a subsequence of the input, and every symbol it lost failed the asset lookup |
| Alpaca.ValidSymbolsSurvive | brokers/alpaca.py:28-33 | a symbol the broker knows is never removed |
| Alpaca.CheckedKeepsMembersOnly | brokers/alpaca.py:28-36 | the filter adds no symbol |
| Alpaca.UncheckedFollowerSurvives | brokers/alpaca.py:28-33 | the element right after a removed one is never looked at, shown for a removal at the head: after an invalid first symbol, the second (when it occurs only there) survives whether valid or not |
| Alpaca.AllInvalidMarketSymbolsLeaveDia | brokers/alpaca.py:28-33 | with every lookup failing, filtering `['SPY', 'DIA', 'QQQ']` still returns `['DIA']` |
| Alpaca.CheckAccountTradeable | brokers/alpaca.py:82-96 | tradeable exactly when the status is `'ACTIVE'` and neither the account nor trading is blocked |
| Alpaca.OrderAsset | brokers/alpaca.py:38-80 | an order is submitted exactly when the lookup succeeds, the asset is tradable and the side is `'buy'`; it is a bracket order whose take-profit limit is price times take-profit factor and whose stop prices are the fixed `'295.5'` |
| Alpaca.TakeProfitAbovePrice | brokers/alpaca.py:59-69 | with a positive price and a take-profit factor above 1, the take-profit limit lies above the price |
| Strategy.CheckChangePositiveDaily | strategies/strategy.py:32-43 | the signal is true exactly when the change over the previous close exceeds the threshold and the latest price exceeds the open |
| Strategy.SignalNeedsBothStrictRises | strategies/strategy.py:40 | a change equal to the threshold, or a latest price at or below the open, gives false |
| Strategy.DefaultSignalOnFinnhubChange | strategies/strategy.py:38-40 | fed with Finnhub's percent change and the default threshold 0.0, the signal is a rise over both the previous close and the open |
| Strategy.Strategy.constructor | strategies/strategy.py:7-30 | the default parameters (0.95, 1.05, 0.1, 0.0); the watchlist without its first `'GOOG'` (which must be there); the market symbol lists filtered by the broker; cash 0.0 |
| Market.AssetTable | Strategies/Market.py:20-39 | the table has exactly the given keys, each with factor 0.333 and zero price, allocation and shares |
| Market.SharesBracket | Strategies/Market.py:51-54 | the allocation is cash times risk times factor, and the share count is the largest whole number whose cost at the latest price stays within it |
| Market.SharesNonNegative | Strategies/Market.py:53-54 | with nonnegative cash, risk and factor and a positive price, no negative share count comes out |
| Market.SizeInOrder | Strategies/Market.py:49-54 | sizing the symbols one after another keeps the table's keys |
| Market.SizeInOrderIsPointwise | Strategies/Market.py:49-54 | sizing in order equals sizing every listed symbol once from its original entry, so order and repeated symbols make no difference |
| Market.SizingUpdatesListedSymbolsOnly | Strategies/Market.py:49-54 | sizing keeps the keys, leaves every entry of an unlisted symbol as it was, and sizing twice gives what sizing once gives |
| Market.DefaultFactorsSum | Strategies/Market.py:22-34 | the three factors of 0.333 add up to 0.999 |
| Market.DefaultOrdersWithinCash | Strategies/Market.py:18-54 | whatever subset of the ETFs the broker accepts and whatever the positive prices, the orders from the default table cost at most the cash |
| Market.AsWrittenTableMissesDia | Strategies/Market.py:19-39 | the table as written has no `'DIA'` key although `'DIA'` stays in the symbol list whenever the broker knows it, so whatever the prices, the sizing precondition fails |
| Market.TableCoversCheckedSymbols | Strategies/Market.py:19-39 | keyed by ticker, the table has an entry for every symbol the broker lets through |
| Market.Side | Strategies/Market.py:82-86 | the side is `'buy'` exactly when the market is positive and `'sell'` otherwise |
| Market.OrdersFor | Strategies/Market.py:89-91 | one order per table key, in key order, for that key's share count, all on the same side |
| Market.Market.constructor | Strategies/Market.py:15-39 | the base defaults, risk share 1.0, the market symbols the Alpaca filter accepts as the symbols to size, and the three-entry table keyed by ticker (`'DIA'`, the corrected key); the table covers every such symbol |
| Market.Market.CalcSharesToOrder | Strategies/Market.py:41-54 | the in-place loop leaves the table that sizing the symbols in order gives; the table invariant holds |
| Market.Market.Run | Strategies/Market.py:56-91 | an account that cannot trade gets no orders and no change of cash or table; otherwise cash is the account's cash, every listed symbol is sized from its original entry, and one order per entry goes out on the side the signal picks |
| Market.Market.PlaceOrders | Strategies/Market.py:88-91 | the order loop issues exactly the orders `OrdersFor` lists |
| Finnhub.SecondsSinceEpoch | Data_Providers/FinnHub.py:26-38 | whole seconds since the epoch, truncated toward zero for instants on both sides of it; the epoch gives 0 |
| Finnhub.GetLastTrade | Data_Providers/FinnHub.py:40-70 | a trade exactly when the message's type is `'trade'`: its first trade, price, symbol and volume copied, time converted from milliseconds to seconds, and that time rendered in the system zone |
| Finnhub.GetQuote | Data_Providers/FinnHub.py:72-92 | the quote unchanged, plus its time rendered in the system zone |
| Finnhub.GetStockCandles | Data_Providers/FinnHub.py:94-122 | the response exactly when its status is `'ok'`, `None` otherwise |
| Finnhub.ChangePctPrevDay | Data_Providers/FinnHub.py:124-134 | the percent change times the previous close is `(c - pc) * 100`; it is 0 exactly when `c == pc`; for a positive previous close it is positive exactly when `c > pc` and negative exactly when `c < pc` |
| TDAmeritrade.MillisSinceEpoch | Data_Providers/TDAmeritrade.py:45-57 | whole milliseconds since the epoch, truncated toward zero; the epoch gives 0 |
| TDAmeritrade.ClientGetPriceHistory | Data_Providers/TDAmeritrade.py:59-83 | the body exactly when the status is not an HTTP error and the body is not empty |
| TDAmeritrade.TimesOf | Data_Providers/TDAmeritrade.py:144-151 | the timestamp is the `'%Y-%m-%d %H:%M:%S'` rendering and is the day, a space and the time |
| TDAmeritrade.Enrich | Data_Providers/TDAmeritrade.py:141-160 | only the time keys are added, all other fields unchanged; the New York and Zurich timestamps render the instant `datetime / 1000` seconds after the epoch |
| TDAmeritrade.GetPriceHistory | Data_Providers/TDAmeritrade.py:85-167 | `None` exactly on an HTTP error; otherwise `empty` and `symbol` kept, the same number of candles, each candle enriched, an empty body included |
| Polygon.GetMarketStatus | Data_Providers/Polygon.py:22-42 | a status exactly for a 200 response and exchange `'NASDAQ'` or `'NYSE'`, and then that exchange's field |
| Polygon.HolidayDates | Data_Providers/Polygon.py:72-76 | a date is collected exactly when some element has both keys, names the exchange and carries that date; no more dates than elements |
| Polygon.CollectHolidays | Data_Providers/Polygon.py:72-76 | the loop collects exactly `HolidayDates`, in order |
| Polygon.MarketHoliday | Data_Providers/Polygon.py:55-82 | true exactly when the response is 200 and some element with both keys names the exchange and today's `'%Y-%m-%d'` date |
| DataProvider.MapFinnhubResponse | Data_Providers/DataProvider.py:24-58 | `None` exactly when the `t`, `o`, `h`, `c`, `v` lengths differ (never `l`); otherwise one candle per time, with candle `i` built from `t[i]`, `o[i]`, `h[i]`, `c[i]`, `v[i]`, the symbol and frequency, and `t[i]` seconds rendered in three zones |
| DataProvider.MapTdAmeritradeResponse | Data_Providers/DataProvider.py:60-91 | one candle per element, in order, with the element's millisecond `datetime` as `ts`, rendered at `datetime / 1000` seconds |
| DataProvider.TimestampUnitsDiffer | Data_Providers/DataProvider.py:75-77 | for the same instant, both mappers render the same strings, but the TD Ameritrade `ts` is 1000 times the Finnhub one |
| DataProvider.SecondsAreMillisOverThousand | Data_Providers/TDAmeritrade.py:56 | at or after the epoch, Finnhub's seconds are TD Ameritrade's milliseconds divided by 1000, rounded down |

## Left out

- Every network and SDK call is an input: the Alpaca REST client, the TD Ameritrade client and `requests`, the Finnhub client and websocket, and Polygon's HTTP calls. Opening, sending and closing connections is not modelled.
- Logging and `print` are not modelled.
- Floating point: prices, cash, factors and times are exact reals. `total_seconds() * 1000.0` and the `/ 1000` conversions are exact, so results can differ from the float results in the last place.
- Time zones and calendars: `fromtimestamp(s, zone)` is the parameter `toLocal`. It is not checked against any time-zone database. `datetime_utc` in the Finnhub adapter is rendered in the system's zone (`Zone.SystemLocal`), as the code does.
- `today` in `polygon_market_holiday` is an input, not the clock.
- Broker.WaitToTrade: returns the number of seconds to sleep; the sleep itself is not performed.
- The base `Broker` class's `order_asset`, `check_account_tradeable`, `get_account_cash` and `check_symbols` are stubs that do nothing and return `None` (Brokers/Broker.py:49-59); they have no model of their own.
- Market.Market.constructor: differs from Strategies/Market.py:15-39 in two ways. (1) It keys the Dow Jones entry `'DIA'`, the corrected key of the Findings row, where line 27 writes `'DJIA'`; the as-written table is `AsWrittenAssetKeys`, and `Market.AsWrittenTableMissesDia` states what it breaks. (2) It filters the market symbols with the Alpaca filter (`valid`). The source's `super().__init__()` at line 16 passes no broker, so Strategies/Strategy.py:17-18 call the base stub `Broker.check_symbols`, which returns `None`, even when `main.py` builds `Market(broker=Alpaca())`; the model does not capture that `symbols` is then `None` and that `calc_shares_to_order` would fail iterating over it.
- Market.Market.CalcSharesToOrder: `self.data_api` (Strategies/Market.py:48) exists on neither strategy base; the latest prices are an argument.
- `Strategies/Market.py` inherits from the `Strategies/Strategy.py` base. That base has neither a data API nor `check_change_positive_daily`. The model takes the signal from `strategies/strategy.py` and its inputs (the change over the previous close and the quote) as arguments of `Run`.
- Market.Market.Run: records each `order_asset(symbol, qty, side)` call as an `OrderCall` and does not follow it into Alpaca's `order_asset`. The call matches the base signature `order_asset(self, symbol, qty, side)` (Brokers/Broker.py:49); against `brokers/alpaca.py`'s `order_asset`, which also needs a latest price and a take-profit factor, the call would fail.
- `get_account_cash` converts the account's cash string with `float()`; `Account.cash` is already a number.
- Market.Market.CalcSharesToOrder and Market.Market.Run require every symbol to have a table entry and a nonzero price. On a missing key or a zero price the source fails with `KeyError` or `ZeroDivisionError`.
- Strategy.Strategy.constructor: requires `'GOOG'` in the watchlist. Without it `remove('GOOG')` at strategies/strategy.py:22 raises `ValueError` and no strategy is built; that failure is excluded, not modelled.
- Finnhub.ChangePctPrevDay: a zero previous close is excluded because the source divides by it.
- Finnhub.GetLastTrade: a trade message without trades is excluded because the source fails on `data[0]`.
- Alpaca.CheckSymbols returns a new sequence. The source mutates and returns the caller's list, so list identity and aliasing are not modelled.
- The failed `assert` of `map_finnhub_response` becomes `None` rather than an `AssertionError`.
- TDAmeritrade.GetPriceHistory: the HTTP-error branch returns `None` after printing a message (status 400 or another); the message is not modelled.
- The pass-through endpoints are not part of this model: Finnhub's support/resistance, aggregate indicators and index constituents, Polygon's grouped candles for a date, and Alpaca's `get_account_portfolio_value`. Each passes a vendor response through, at most converting it (`float(...equity)`) or picking one field (`['constituents']`).
- `check_asset_shortable` (brokers/alpaca.py:114-119) is not part of this model; its body is not among the source files.
- `Brokers/Alpaca.py`, the broker `main.py` wires, is not part of this model. In its place the model uses the account gate, the account cash and the symbol filter of `brokers/alpaca.py`.
- `watchlist.py` (DynamoDB), `Data_Providers/IEXCloud.py`, `main.py` and the market-movers strategies (empty `run`) are not part of this model.
- Constructing live clients in default arguments at import time is not modelled.

## Findings

| source | as written | input that shows it | evidently intended | confidence | as-written member | corrected member |
|---|---|---|---|---|---|---|
| Strategies/Market.py:27 | the asset table keys the Dow Jones ETF as `'DJIA'`, while the symbol list it sizes is built from `['SPY', 'DIA', 'QQQ']` (Strategies/Strategy.py:17) | any broker that knows `'DIA'`: `'DIA'` stays in `self.symbols`, and `calc_shares_to_order` looks up `self.assets['DIA']` | the table keyed by the ETF ticker `'DIA'`, so every symbol the broker accepts has an entry | not executed | Market.AsWrittenTableMissesDia | Market.TableCoversCheckedSymbols |
