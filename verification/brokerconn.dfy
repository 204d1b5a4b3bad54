/** The order-execution core of `BrokerConn`: buy (`create_trade`), sell (`leave_trade`) and
    quote lookup (`get_info`), each a pure function of the broker's answers during the call. */
module BrokerConn {
  import opened Wrappers
  import opened Funds
  import opened Oracle
  import opened Records
  import opened Polling

  /** The arguments of `submit_order`. */
  datatype OrderRequest = OrderRequest(symbol: string, qty: real, side: string, orderType: string, timeInForce: string)

  /** What the core raises. */
  datatype Error =
    | ShortOfFunds(funds: InsufficientFunds)      // InsuffecientFunds, from the buy precheck
    | FundsSelfCheck(check: SelfCheckFailed)      // ValueError from InsuffecientFunds' own constructor
    | NotInPortfolio(symbol: string)              // ValueError("Stock not in portfolio")
    | NotEnoughShares(symbol: string, available: real, requested: real)
    | NoData(symbol: string)                      // ValueError("No data available for stock symbol ...")

  /** How a call ends: a settlement record, an exception, or never (the poll loop is unbounded
      and none of the polled answers was terminal). */
  datatype Verdict = Settled(record: Settlement) | Raised(error: Error) | StillPolling

  /** The verdict together with the broker-side effects of the call: the order submitted, if
      any, and how many times its status was queried. */
  datatype Outcome = Outcome(submitted: Option<OrderRequest>, polls: nat, verdict: Verdict)

  /** A market, immediate-or-cancel order. */
  function MarketOrder(symbol: string, qty: real, side: string): OrderRequest
  {
    OrderRequest(symbol, qty, side, "market", "ioc")
  }

  /** The poll loop stopped after exactly `n` queries: the n-th answer is the first terminal one. */
  predicate DecidedAt(polls: seq<OrderView>, n: nat)
  {
    && 1 <= n <= |polls|
    && Terminal(polls[n - 1])
    && forall k :: 0 <= k < n - 1 ==> !Terminal(polls[k])
  }

  /** No polled answer is terminal: the source would still be polling. */
  predicate NeverDecided(polls: seq<OrderView>)
  {
    forall k :: 0 <= k < |polls| ==> !Terminal(polls[k])
  }

  /** The buy precheck's estimate: the first latest-trade price times the quantity. */
  function EstimatedCost(b: Broker, amount: real): real
  {
    b.latestTrade.At(0).price * amount
  }

  /** `create_trade(Stock, Amount)`. Reads the latest trade and the balance; if the estimate
      exceeds the balance it raises InsuffecientFunds built from a SECOND balance read, before any
      order exists. Otherwise it submits a market IOC buy and polls it: a fill records the fill
      price, a cancel records a fresh latest-trade price (the second latest-trade read). */
  function CreateTrade(b: Broker, stock: string, amount: real, now: string): (r: Outcome)
    // the funds precheck decides whether anything is submitted
    ensures r.submitted.None? <==> EstimatedCost(b, amount) > b.cash.At(0)
    ensures r.submitted.Some? ==> r.submitted.value == MarketOrder(stock, amount, "buy")
    ensures r.verdict.Raised? <==> r.submitted.None?
    ensures r.submitted.None? ==> r.polls == 0
    ensures r.verdict.Raised? && b.cash.At(1) < EstimatedCost(b, amount) ==>
      r.verdict.error == ShortOfFunds(InsufficientFunds(b.cash.At(1), EstimatedCost(b, amount), EstimatedCost(b, amount) - b.cash.At(1)))
    ensures r.verdict.Raised? && b.cash.At(1) >= EstimatedCost(b, amount) ==>
      r.verdict.error == FundsSelfCheck(EnoughFunds(b.cash.At(1), EstimatedCost(b, amount)))
    // the poll loop ends at the first terminal answer, or never
    ensures r.verdict.StillPolling? <==> r.submitted.Some? && NeverDecided(b.orderPolls)
    ensures r.verdict.StillPolling? ==> r.polls == |b.orderPolls|
    ensures r.verdict.Settled? ==> DecidedAt(b.orderPolls, r.polls)
    // the record matches the terminal status
    ensures r.verdict.Settled? && b.orderPolls[r.polls - 1].status == "filled" ==>
      r.verdict.record == Settlement(stock, Some(amount), None, b.orderPolls[r.polls - 1].filledAvgPrice, now, BUY)
    ensures r.verdict.Settled? && b.orderPolls[r.polls - 1].status == "canceled" ==>
      r.verdict.record == Settlement(stock, Some(amount), None, b.latestTrade.At(1).price, now, FAILED_BUY)
  {
    var cost := EstimatedCost(b, amount);
    if cost > b.cash.At(0) then
      var error := match NewInsufficientFunds(b.cash.At(1), cost)
        case Success(e) => ShortOfFunds(e)
        case Failure(c) => FundsSelfCheck(c);
      Outcome(None, 0, Raised(error))
    else
      var order := MarketOrder(stock, amount, "buy");
      match FirstTerminal(b.orderPolls)
      case None => Outcome(Some(order), |b.orderPolls|, StillPolling)
      case Some(i) =>
        var answer := b.orderPolls[i];
        var record :=
          if Classify(answer.status) == Filled then
            Settlement(stock, Some(amount), None, answer.filledAvgPrice, now, BUY)
          else
            Settlement(stock, Some(amount), None, b.latestTrade.At(1).price, now, FAILED_BUY);
        Outcome(Some(order), i + 1, Settled(record))
  }

  /** Python's `int()` on a float: truncation toward zero. */
  function Truncate(x: real): (n: int)
    ensures 0.0 <= x ==> n as real <= x < n as real + 1.0
    ensures x < 0.0 ==> n as real - 1.0 < x <= n as real
  {
    if 0.0 <= x then x.Floor else -((-x).Floor)
  }

  /** The "Cash" of a sell record: a price times the quantity sold. */
  function Proceeds(price: real, amount: real): real
  {
    price * amount
  }

  /** The sell precheck refuses: no position, or fewer whole shares than requested. */
  predicate SellRefused(b: Broker, amount: real)
  {
    b.position.None? || (Truncate(b.position.value) as real) < amount
  }

  /** `leave_trade(Stock, Amount)`. Looks up the position (an APIError means "not in
      portfolio"), compares its truncated quantity with the request, then submits a market IOC
      sell and polls it. A fill records the fill price and Cash = price × Amount; a cancel
      records Cash from one latest-trade read and Price from the next one. Sell records have no
      "Amount" key. */
  function LeaveTrade(b: Broker, stock: string, amount: real, now: string): (r: Outcome)
    // the position precheck decides whether anything is submitted
    ensures b.position.None? ==> r == Outcome(None, 0, Raised(NotInPortfolio(stock)))
    ensures b.position.Some? && (Truncate(b.position.value) as real) < amount ==>
      r == Outcome(None, 0, Raised(NotEnoughShares(stock, b.position.value, amount)))
    ensures r.submitted.None? <==> SellRefused(b, amount)
    ensures r.submitted.Some? ==> r.submitted.value == MarketOrder(stock, amount, "sell")
    ensures r.verdict.Raised? <==> r.submitted.None?
    // the poll loop ends at the first terminal answer, or never
    ensures r.verdict.StillPolling? <==> r.submitted.Some? && NeverDecided(b.orderPolls)
    ensures r.verdict.StillPolling? ==> r.polls == |b.orderPolls|
    ensures r.verdict.Settled? ==> DecidedAt(b.orderPolls, r.polls)
    // the record matches the terminal status
    ensures r.verdict.Settled? && b.orderPolls[r.polls - 1].status == "filled" ==>
      r.verdict.record == Settlement(stock, None, Some(Proceeds(b.orderPolls[r.polls - 1].filledAvgPrice, amount)),
                                     b.orderPolls[r.polls - 1].filledAvgPrice, now, SELL)
    ensures r.verdict.Settled? && b.orderPolls[r.polls - 1].status == "canceled" ==>
      r.verdict.record == Settlement(stock, None, Some(Proceeds(b.latestTrade.At(0).price, amount)), b.latestTrade.At(1).price, now, FAILED_SELL)
  {
    match b.position
    case None => Outcome(None, 0, Raised(NotInPortfolio(stock)))
    case Some(qty) =>
      if (Truncate(qty) as real) < amount then
        Outcome(None, 0, Raised(NotEnoughShares(stock, qty, amount)))
      else
        var order := MarketOrder(stock, amount, "sell");
        match FirstTerminal(b.orderPolls)
        case None => Outcome(Some(order), |b.orderPolls|, StillPolling)
        case Some(i) =>
          var answer := b.orderPolls[i];
          var record :=
            if Classify(answer.status) == Filled then
              Settlement(stock, None, Some(Proceeds(answer.filledAvgPrice, amount)), answer.filledAvgPrice, now, SELL)
            else
              Settlement(stock, None, Some(Proceeds(b.latestTrade.At(0).price, amount)), b.latestTrade.At(1).price, now, FAILED_SELL);
          Outcome(Some(order), i + 1, Settled(record))
  }

  /** The dict `get_info` returns: "Symbol", "Price", "Volume", "Time". */
  datatype Quote = Quote(symbol: string, price: real, volume: real, time: int)

  /** Width of the bar window, in seconds: one minute. */
  const BAR_WINDOW: int := 60

  /** A bar time lies in the window that ends at `asOf`. */
  predicate InWindow(barTime: int, asOf: int)
  {
    asOf - BAR_WINDOW <= barTime <= asOf
  }

  /** The bars the broker returns for the window ending at `asOf`. */
  function Window(b: Broker, asOf: int): (w: seq<Bar>)
    ensures forall k :: 0 <= k < |w| ==> w[k] in b.bars && InWindow(w[k].time, asOf)
    ensures forall k :: 0 <= k < |b.bars| && InWindow(b.bars[k].time, asOf) ==> b.bars[k] in w
  {
    BarsBetween(b.bars, asOf - BAR_WINDOW, asOf)
  }

  /** `get_info(Stock, time)` as written. Without a time: the price, size and timestamp of
      three successive latest-trade reads. With a time T: the bars in [T - 1 min, T]; none is
      an error, otherwise the FIRST bar returned (index 0). */
  function GetInfo(b: Broker, stock: string, time: Option<int>): (r: Result<Quote, Error>)
    ensures time.None? ==>
      r == Success(Quote(stock, b.latestTrade.At(0).price, b.latestTrade.At(1).size, b.latestTrade.At(2).timestamp))
    ensures time.Some? ==> (r.Failure? <==> forall k :: 0 <= k < |b.bars| ==> !InWindow(b.bars[k].time, time.value))
    ensures r.Failure? ==> r.error == NoData(stock)
    ensures time.Some? && r.Success? ==>
      exists bar :: bar in b.bars && InWindow(bar.time, time.value) && r.value == Quote(stock, bar.close, bar.volume, bar.time)
  {
    match time
    case None =>
      Success(Quote(stock, b.latestTrade.At(0).price, b.latestTrade.At(1).size, b.latestTrade.At(2).timestamp))
    case Some(asOf) =>
      var barset := Window(b, asOf);
      if |barset| == 0 then Failure(NoData(stock))
      else Success(Quote(stock, barset[0].close, barset[0].volume, barset[0].time))
  }

  /** `get_info` as its comment intends ("the most recent bar data"): the LAST bar of the
      window, which is the newest one since the broker lists bars oldest first. */
  function GetInfoMostRecent(b: Broker, stock: string, time: Option<int>): (r: Result<Quote, Error>)
    ensures time.None? ==> r == GetInfo(b, stock, time)
    ensures time.Some? ==> (r.Failure? <==> forall k :: 0 <= k < |b.bars| ==> !InWindow(b.bars[k].time, time.value))
    ensures r.Failure? ==> r.error == NoData(stock)
    ensures time.Some? && r.Success? ==>
      exists bar :: bar in b.bars && InWindow(bar.time, time.value) && r.value == Quote(stock, bar.close, bar.volume, bar.time)
  {
    match time
    case None => GetInfo(b, stock, time)
    case Some(asOf) =>
      var barset := Window(b, asOf);
      if |barset| == 0 then Failure(NoData(stock))
      else
        var last := barset[|barset| - 1];
        Success(Quote(stock, last.close, last.volume, last.time))
  }
}
