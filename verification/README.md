# tradingBot order execution and bookkeeping, in Dafny

This project models the core of a retail trading bot that trades through the Alpaca broker API.
The model has three parts:

- **Order execution (`BrokerConn`).**
  - `create_trade` buys. It first checks the account has enough cash for the estimated cost.
  - `leave_trade` sells. It first checks that a position exists and holds enough whole shares.
  - Both submit a market, immediate-or-cancel order. They then poll the order until its status is `"filled"` or `"canceled"`.
  - Both return a settlement record with the keys `Symbol`, `Amount` or `Cash`, `Price`, `Time` and `Type`.
  - `get_info` returns a quote. Without a time it uses the latest trade. With a time T it uses the one-minute bars in [T − 1 min, T].
- **The `InsuffecientFunds` exception.** Its constructor refuses to exist unless the available funds are below the amount needed. It records the missing amount.
- **The JSON store (`DBManager`).** The store is a map from symbol to an entry `{info, trades, sell-at}`. Each write method reads the whole map, changes one entry and writes it back. `get_trades`, `get_sl` and `get_perc_incr` only read it.

The broker is an abstract snapshot, `Oracle.Broker`. It holds everything the REST client answers during one call.

Some endpoints are called more than once within one operation. `Oracle.Reads` gives each of those calls its own answer:
- `get_balance` is read twice in the buy precheck.
- `get_latest_trade` is read again after a cancel.
- A canceled sell reads the latest trade twice.
- The no-time `get_info` path reads the latest trade three times.

As a result, the model keeps the races the code has. It does not assume one stable read.

The model also fixes these points:
- The poll loop reads a finite sequence of `get_order` answers. If none of them is terminal, the source never returns. That verdict is `StillPolling`.
- Each call reports whether it submitted an order and how many times it polled. This makes "no order is submitted on a failed precheck" a checked statement.
- A `KeyError` that escapes a store method is a `Failure` carrying the missing key.

Three behaviours of the code are easy to misread. The model follows the code in each:
- The sell check compares `int(position.qty)` with the request. With the quantity taken as a number, a holding of 2.5 shares cannot cover a sale of 2.5 shares (see Left out for the quantity's string form).
- A canceled sell takes `Cash` and `Price` from two separate latest-trade reads. So `Cash = Price × Amount` holds only when the market did not move between the two reads.
- `get_info` at a time returns the first bar of the window (index 0), while the comment at main/src/BrokerConn.py:168 calls it the most recent bar data (see Findings).

Two more facts follow from the code:
- A sell record has no `Amount` key, and `store_trade` reads that key unconditionally. So a sell settlement can never be stored (`Bookkeeping.SellRecordNotStorable`).
- `store_info` reads the lower-case keys `price` and `volume`. `get_info` returns `Price` and `Volume`. The model gives `store_info` its three values directly.

## Model

| member | source | states |
|---|---|---|
| Funds.NewInsufficientFunds | main/src/Exceptions/InsuffecientFunds.py:8-22 | construction fails exactly when available >= required; on success both arguments are stored unchanged and missing_funds = required − available, so it is > 0 |
| Funds.ConstructedIffValid | main/src/Exceptions/InsuffecientFunds.py:18-22 | an exception value satisfies the invariant exactly when the constructor, given its two stored arguments, builds that same value |
| Oracle.BarsBetween | main/src/BrokerConn.py:160-163 | the window's bars are bars of the history that lie in [start, end], and every history bar in [start, end] is among them |
| Oracle.BarsBetweenChronological | main/src/BrokerConn.py:163-169 | the window keeps the broker's oldest-first order |
| Polling.Classify | main/src/BrokerConn.py:58-82 | only the exact strings "filled" and "canceled" are terminal; every other status means poll again |
| Polling.FirstTerminal | main/src/BrokerConn.py:58-82 | finds the first terminal answer: every earlier answer is non-terminal; no result means no answer is terminal |
| Polling.PollUntilTerminal | main/src/BrokerConn.py:58-82 | when some answer is terminal, the loop stops at an answer that is terminal and every earlier answer is not |
| Polling.FirstTerminalUnique | main/src/BrokerConn.py:58-82 | the first terminal answer is unique: an index that is terminal with no terminal answer before it is exactly the one FirstTerminal finds, so the loop and the recursive definition agree |
| BrokerConn.CreateTrade | main/src/BrokerConn.py:32-84 | nothing is submitted exactly when the estimate exceeds the first balance read; the error is built from the second balance read; a submitted buy is a market IOC order; polling ends at the first terminal status or never; a filled buy records the fill price and "buy"; a canceled buy records the fresh latest-trade price and "failed_buy" |
| BrokerConn.Truncate | main/src/BrokerConn.py:105 | Python int() on a float truncates toward zero: the result is within 1 of the input, on the zero side |
| BrokerConn.LeaveTrade | main/src/BrokerConn.py:86-142 | no position means "not in portfolio"; a truncated holding below the request means "not enough shares" with both numbers; in both cases nothing is submitted; otherwise a market IOC sell is polled to its first terminal status; a fill records Cash = fill price × Amount and "sell"; a cancel records Cash from one latest-trade read, Price from the next, and "failed_sell"; no Amount key |
| BrokerConn.Window | main/src/BrokerConn.py:157-163 | the bars queried for time T are exactly the history's bars timed in [T − 60 s, T] |
| BrokerConn.GetInfo | main/src/BrokerConn.py:144-185 | without a time, the quote takes price, size and timestamp from three successive latest-trade reads; with a time, an empty window is NoData, otherwise the quote is a bar of the window |
| BrokerConn.GetInfoMostRecent | main/src/BrokerConn.py:168-176 | the corrected lookup: same error cases as GetInfo; the quote is the last bar of the window |
| BrokerConnProperties.StableBalanceNeverTripsSelfCheck | main/src/BrokerConn.py:46-48 | with one stable balance, a refused buy always raises InsuffecientFunds(balance, estimate), a valid exception, and never the constructor's ValueError |
| BrokerConnProperties.SelfCheckFiresIffCashCovers | main/src/BrokerConn.py:46-48 | a buy ends in the constructor's ValueError exactly when the first balance read is below the estimate and the second read covers it; so this happens only when the balance rose between the two reads |
| BrokerConnProperties.SelfCheckFiresWhenCashArrives | main/src/Exceptions/InsuffecientFunds.py:18-19 | an example: balances 100 then 200 and an estimate of 120 give the constructor's ValueError(200, 120) |
| BrokerConnProperties.BuySettlementComplete | main/src/BrokerConn.py:58-84 | a settled buy submitted a market buy, and its record is fully populated: Type "buy" exactly when filled, "failed_buy" exactly when canceled |
| BrokerConnProperties.SellSettlementComplete | main/src/BrokerConn.py:116-142 | a settled sell submitted a market sell; its record carries Cash and no Amount; Type "sell" exactly when filled, "failed_sell" exactly when canceled |
| BrokerConnProperties.SettlesIffSomeTerminal | main/src/BrokerConn.py:58-82 | a buy or sell returns a record exactly when its precheck passes and some polled status is terminal |
| BrokerConnProperties.SellCashIsPriceTimesAmount | main/src/BrokerConn.py:118-139 | when the latest trade does not move, every sell record has Cash = Price × Amount |
| BrokerConnProperties.CanceledSellCashDisagreesWhenPriceMoves | main/src/BrokerConn.py:129-138 | whenever the two latest-trade reads differ and the quantity is not zero, a canceled sell's record has Cash ≠ Price × Amount |
| BrokerConnProperties.CanceledSellCashCanDisagree | main/src/BrokerConn.py:129-138 | an example: latest trades 10 then 11, 2 shares canceled, give Cash 20 and Price 11 |
| BrokerConnProperties.SellQuantityGuard | main/src/BrokerConn.py:105-108 | for a whole-share holding H, requesting more than H raises "not enough shares" with H and the request, and submits nothing |
| BrokerConnProperties.FractionalHoldingIsTruncated | main/src/BrokerConn.py:105 | with the quantity taken as a number, a holding of 2.5 shares cannot cover a sale of 2.5 shares, because int() drops the fraction |
| BrokerConnProperties.BuyRefusedScenario | main/src/BrokerConn.py:46-48 | balance 100, price 60, buying 2 shares raises InsuffecientFunds(100, 120) with 20 missing, and submits nothing |
| BrokerConnProperties.BuyFilledScenario | main/src/BrokerConn.py:58-70 | a pending status then a fill at 59.8 gives a "buy" record at 59.8 after two polls |
| BrokerConnProperties.BuyCanceledScenario | main/src/BrokerConn.py:71-81 | a canceled buy records the latest trade read after the cancel (61), not the precheck price (60) |
| BrokerConnProperties.WindowBounds | main/src/BrokerConn.py:160-163 | a history bar is in the window at T exactly when its time is in [T − 60, T] |
| BrokerConnProperties.GetInfoReturnsOldestBar | main/src/BrokerConn.py:168-169 | as written, the quote at a time is the oldest bar of the window |
| BrokerConnProperties.GetInfoMostRecentIsNewest | main/src/BrokerConn.py:168-176 | the corrected lookup returns the newest bar of the window |
| BrokerConnProperties.GetInfoMissesNewestBar | main/src/BrokerConn.py:168-169 | with bars at T − 60 and T, as written the quote is the older bar, while the corrected lookup gives the bar at T |
| BrokerConnProperties.EmptyWindowScenario | main/src/BrokerConn.py:165-166 | a time whose window holds no bar raises NoData, whatever the latest trade says |
| BrokerConnProperties.CurrentQuoteIsLatestTrade | main/src/BrokerConn.py:178-185 | with a latest trade that does not move, the no-time quote is that trade's price, size and timestamp |
| DBManager.StoreInfo | main/src/db_manager/dbmanager.py:26-33 | info becomes exactly {price, volume}, replacing any "perc increase"; the entry is created if absent; trades and sell-at are kept; other symbols are unchanged |
| DBManager.StoreTrade | main/src/db_manager/dbmanager.py:47-56 | a record without Amount or an unknown symbol raises KeyError; otherwise trades[Time] = {price, amount, type}, trades is created if missing, and every other key, field and symbol is unchanged |
| DBManager.GetTrades | main/src/db_manager/dbmanager.py:73-76 | the stored trades, or {} when the stock or its trades are missing |
| DBManager.StoreSl | main/src/db_manager/dbmanager.py:89-92 | an unknown stock raises KeyError; otherwise sell-at[price] = percentage, sell-at is created if missing, and nothing else changes |
| DBManager.RemoveSl | main/src/db_manager/dbmanager.py:106 | a missing stock, sell-at or price raises KeyError; otherwise exactly that price leaves sell-at, the other prices keep their values, and nothing else changes |
| DBManager.GetSl | main/src/db_manager/dbmanager.py:122-125 | the stored stop-losses, or {} when the stock or its sell-at is missing |
| DBManager.GetPercIncr | main/src/db_manager/dbmanager.py:140 | the stored percentage for the time frame; a missing stock, info, "perc increase" or time frame raises KeyError |
| DBManager.UpdatePercIncr | main/src/db_manager/dbmanager.py:152-155 | a missing stock or info raises KeyError; otherwise "perc increase"[tf] = percentage, created if missing, with price, volume, trades, sell-at and other symbols kept |
| DBManagerProperties.StoreTradeRoundTrip | main/src/db_manager/dbmanager.py:53-54 | after store_trade(t), get_trades(t.Symbol)[t.Time] is the stored triple; other times and other symbols read back as before |
| DBManagerProperties.SameTimeOverwrites | main/src/db_manager/dbmanager.py:52-54 | a second trade with the same Time replaces the first, as if the first had never been stored |
| DBManagerProperties.StopLossRoundTrip | main/src/db_manager/dbmanager.py:89-92 | after store_sl(s, p, pct), get_sl(s)[p] == pct, and the other stop-losses are unchanged |
| DBManagerProperties.StoreThenRemoveStopLoss | main/src/db_manager/dbmanager.py:89-106 | storing a new stop-loss into an existing sell-at, then removing it, restores the store exactly |
| DBManagerProperties.RemoveStopLossDropsOnlyItsPrice | main/src/db_manager/dbmanager.py:106 | removing a listed price drops that price and keeps every other one |
| DBManagerProperties.PercIncreaseRoundTrip | main/src/db_manager/dbmanager.py:140-155 | after update_perc_incr(s, pct, tf), get_perc_incr(s, tf) == pct; other time frames read as before when "perc increase" already existed |
| DBManagerProperties.StoreInfoDropsPercIncrease | main/src/db_manager/dbmanager.py:31 | after store_info, get_perc_incr raises for the missing "perc increase" |
| DBManagerProperties.StoreInfoEnablesWrites | main/src/db_manager/dbmanager.py:31-56 | after store_info(s), store_trade, store_sl and update_perc_incr for s all succeed |
| Bookkeeping.BuyRecordPersists | main/src/db_manager/dbmanager.py:47-56 | a settled buy of a symbol the store knows can be stored, and get_trades then lists it under its Time with its price, amount and Type |
| Bookkeeping.SellRecordNotStorable | main/src/db_manager/dbmanager.py:48 | store_trade of any settled sell record raises KeyError("Amount") |

## Findings

| source | as written | input that shows it | evidently intended | confidence | as-written member | corrected member |
|---|---|---|---|---|---|---|
| main/src/BrokerConn.py:168-169 | the time-based quote takes index 0 of the bar window. The broker lists bars oldest first, so index 0 is the oldest bar, although the comment there promises the most recent bar | bars at T − 60 s and T, queried at T: the quote is the T − 60 s bar | the newest bar of the window, if the comment is right. Bars are labelled by their start time, so with an inclusive end the bar at index 0 may instead be the one that closes at T, and index 0 may be deliberate | low, not executed; it rests on the broker's oldest-first order and on the comment being the intent | BrokerConn.GetInfo, with BrokerConnProperties.GetInfoMissesNewestBar | BrokerConn.GetInfoMostRecent, with BrokerConnProperties.GetInfoMostRecentIsNewest |

## Left out

- main/src/ML_model.py: network download, data frames and model training. This is floating-point numerics in foreign libraries.
- main/src/main.py and the module-level code at main/src/BrokerConn.py:191-202: environment loading, client construction and live calls made at import time.
- `BrokerConn.__init__`: it only stores credentials and builds the REST client. The broker is the `Oracle.Broker` parameter instead.
- `get_balance` (main/src/BrokerConn.py:187-188): a single read of the account's cash. It is the `cash` reads of `Oracle.Broker`, and it has no member of its own.
- `DBManager.__init__` and the JSON file: `open`/`load`/`dump` are replaced by the `Db` map threaded through each operation.
- `time.sleep(1)` and `datetime.utcnow()`: no clock is modelled. The record's `Time` is the `now` parameter.
- `strftime`/`fromisoformat`: times are whole seconds (`int`). The window start is "minus 60".
- `str(price)` keys of "sell-at": the key is the numeric value of the price, so keys are compared by value, not by spelling. Prices with different `str` but equal values share one key here: `0.0` and `-0.0`, and an int `5` and the float `5.0`. So `store_sl(s, 5, p)` followed by `remove_sl(s, 5.0)` raises KeyError('5.0') in the code but succeeds in the model. Keys that no number's `str` produces are not representable.
- DBManager.RemoveSl: for the same reason it does not model the KeyError raised when the price is stored under another spelling of the same value (`5` against `5.0`, `0.0` against `-0.0`).
- Floating point: prices, amounts, cash and percentages are exact `real`s. Float rounding in `price × Amount` is not modelled.
- `float(filled_avg_price)` on an order without a fill price (a `TypeError` in Python) is not modelled. A polled answer always carries a fill price.
- Broker errors other than the missing position (network failures, an unknown symbol in `get_latest_trade`) are not modelled. The broker always answers.
- `InsuffecientFunds.__str__`: float-to-string formatting.
- main/src/Exceptions/__init__.py is not part of this model. The model assumes that `InsuffecientFunds` in BrokerConn.py names the exception class.
- BrokerConn.LeaveTrade: the position quantity is taken as a number. The broker reports it as a decimal string, and `int()` of a fractional string such as "2.5" raises ValueError, so the code submits nothing then, while the model compares the truncated number. Whole-share holdings behave the same in both.
- JSON values of unexpected shape (an "info" without price, a non-map "trades") are not modelled. Each entry's keys are optional, but their values are well formed.
