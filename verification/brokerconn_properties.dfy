/** Properties of the order-execution core that relate several reads, several calls, or a
    concrete broker answer to the record that comes out. */
module BrokerConnProperties {
  import opened Wrappers
  import opened Funds
  import opened Oracle
  import opened Records
  import opened Polling
  import opened BrokerConn

  /** A broker whose endpoints all give one fixed answer and which polls `polls`. */
  function Steady(price: real, cash: real, position: Option<real>, polls: seq<OrderView>, bars: seq<Bar>): Broker
  {
    Broker(Reads(LatestTrade(price, 100.0, 0), []), Reads(cash, []), position, polls, bars)
  }

  /** With one stable balance the buy precheck and the exception's self-check agree:
      a refused buy always raises InsuffecientFunds(balance, estimate), never the ValueError. */
  lemma StableBalanceNeverTripsSelfCheck(b: Broker, stock: string, amount: real, now: string)
    requires b.cash.Stable()
    ensures CreateTrade(b, stock, amount, now).verdict.Raised? ==>
      var cost := EstimatedCost(b, amount);
      && CreateTrade(b, stock, amount, now).verdict.error == ShortOfFunds(InsufficientFunds(b.cash.first, cost, cost - b.cash.first))
      && Valid(CreateTrade(b, stock, amount, now).verdict.error.funds)
  {
  }

  /** The code reads the balance twice. A buy ends in the constructor's ValueError exactly
      when the first read refuses the estimate and the second read covers it, so only when the
      balance rose between the two reads. */
  lemma SelfCheckFiresIffCashCovers(b: Broker, stock: string, amount: real, now: string)
    ensures var cost := EstimatedCost(b, amount);
      CreateTrade(b, stock, amount, now).verdict == Raised(FundsSelfCheck(EnoughFunds(b.cash.At(1), cost)))
      <==> b.cash.At(0) < cost <= b.cash.At(1)
    ensures var v := CreateTrade(b, stock, amount, now).verdict;
      v.Raised? && v.error.FundsSelfCheck? ==> b.cash.At(0) < b.cash.At(1)
  {
  }

  /** One example: 100 at the first balance read, 200 at the second, an estimate of 120. */
  lemma SelfCheckFiresWhenCashArrives()
    ensures var b := Broker(Reads(LatestTrade(60.0, 100.0, 0), []), Reads(100.0, [200.0]), None, [], []);
      CreateTrade(b, "AAPL", 2.0, "t").verdict == Raised(FundsSelfCheck(EnoughFunds(200.0, 120.0)))
  {
  }

  /** Every call that ends ends with a fully formed record of its own side, whose "Type"
      follows the terminal status; refusals happen only before submission. */
  lemma BuySettlementComplete(b: Broker, stock: string, amount: real, now: string)
    ensures var r := CreateTrade(b, stock, amount, now);
      r.verdict.Settled? ==>
        && r.submitted == Some(MarketOrder(stock, amount, "buy"))
        && r.verdict.record.symbol == stock && r.verdict.record.time == now
        && r.verdict.record.amount == Some(amount) && r.verdict.record.cash.None?
        && (r.verdict.record.kind == BUY <==> Classify(b.orderPolls[r.polls - 1].status) == Filled)
        && (r.verdict.record.kind == FAILED_BUY <==> Classify(b.orderPolls[r.polls - 1].status) == Canceled)
  {
  }

  /** The sell counterpart: sell records carry "Cash" and never "Amount". */
  lemma SellSettlementComplete(b: Broker, stock: string, amount: real, now: string)
    ensures var r := LeaveTrade(b, stock, amount, now);
      r.verdict.Settled? ==>
        && r.submitted == Some(MarketOrder(stock, amount, "sell"))
        && r.verdict.record.symbol == stock && r.verdict.record.time == now
        && r.verdict.record.amount.None? && r.verdict.record.cash.Some?
        && (r.verdict.record.kind == SELL <==> Classify(b.orderPolls[r.polls - 1].status) == Filled)
        && (r.verdict.record.kind == FAILED_SELL <==> Classify(b.orderPolls[r.polls - 1].status) == Canceled)
  {
  }

  /** A submitted order ends the call exactly when some polled answer is terminal. */
  lemma SettlesIffSomeTerminal(b: Broker, stock: string, amount: real, now: string)
    ensures CreateTrade(b, stock, amount, now).verdict.Settled? <==>
      EstimatedCost(b, amount) <= b.cash.At(0) && exists k :: 0 <= k < |b.orderPolls| && Terminal(b.orderPolls[k])
    ensures LeaveTrade(b, stock, amount, now).verdict.Settled? <==>
      !SellRefused(b, amount) && exists k :: 0 <= k < |b.orderPolls| && Terminal(b.orderPolls[k])
  {
  }

  /** Cash = Price × Amount on every sell record, provided the latest trade does not move
      between the two reads of a canceled sell. */
  lemma SellCashIsPriceTimesAmount(b: Broker, stock: string, amount: real, now: string)
    requires b.latestTrade.Stable()
    ensures var r := LeaveTrade(b, stock, amount, now);
      r.verdict.Settled? ==> r.verdict.record.cash == Some(Proceeds(r.verdict.record.price, amount))
  {
  }

  /** When the latest trade moves between those two reads, every canceled-sell record of a
      non-zero quantity has a Cash that is not its Price times its Amount. */
  lemma CanceledSellCashDisagreesWhenPriceMoves(b: Broker, stock: string, amount: real, now: string)
    requires b.latestTrade.At(0).price != b.latestTrade.At(1).price
    requires amount != 0.0
    ensures var r := LeaveTrade(b, stock, amount, now);
      r.verdict.Settled? && r.verdict.record.kind == FAILED_SELL ==>
        r.verdict.record.cash != Some(Proceeds(r.verdict.record.price, amount))
  {
    var r := LeaveTrade(b, stock, amount, now);
    if r.verdict.Settled? && r.verdict.record.kind == FAILED_SELL {
      var p0, p1 := b.latestTrade.At(0).price, b.latestTrade.At(1).price;
      assert r.verdict.record.cash == Some(Proceeds(p0, amount)) && r.verdict.record.price == p1;
      ProceedsInjective(p0, p1, amount);
    }
  }

  /** Selling a non-zero quantity, different prices give different proceeds. */
  lemma ProceedsInjective(p0: real, p1: real, amount: real)
    requires p0 != p1 && amount != 0.0
    ensures Proceeds(p0, amount) != Proceeds(p1, amount)
  {
    assert Proceeds(p0, amount) - Proceeds(p1, amount) == (p0 - p1) * amount;
  }

  /** One example: the latest trade reads 10 and then 11, and 2 shares are sold. */
  lemma CanceledSellCashCanDisagree()
    ensures var b := Broker(Reads(LatestTrade(10.0, 1.0, 0), [LatestTrade(11.0, 1.0, 1)]), Reads(0.0, []),
                            Some(5.0), [OrderView("canceled", 0.0)], []);
      var r := LeaveTrade(b, "AAPL", 2.0, "t");
      r.verdict == Settled(Settlement("AAPL", None, Some(20.0), 11.0, "t", FAILED_SELL))
      && r.verdict.record.cash != Some(Proceeds(r.verdict.record.price, 2.0))
  {
  }

  /** For a whole-share holding H, asking for more than H shares is refused with both numbers
      and submits nothing. */
  lemma SellQuantityGuard(b: Broker, stock: string, held: int, requested: real, now: string)
    requires b.position == Some(held as real)
    requires requested > held as real
    ensures LeaveTrade(b, stock, requested, now) == Outcome(None, 0, Raised(NotEnoughShares(stock, held as real, requested)))
  {
    assert Truncate(held as real) == held;
  }

  /** With the position quantity taken as a number, `int()` drops its fraction: 2.5 shares
      cannot cover a sale of 2.5. */
  lemma FractionalHoldingIsTruncated()
    ensures var b := Steady(10.0, 0.0, Some(2.5), [OrderView("filled", 10.0)], []);
      LeaveTrade(b, "AAPL", 2.5, "t") == Outcome(None, 0, Raised(NotEnoughShares("AAPL", 2.5, 2.5)))
  {
  }

  /** A buy whose estimate exceeds the balance: InsuffecientFunds(100, 120), nothing submitted. */
  lemma BuyRefusedScenario()
    ensures CreateTrade(Steady(60.0, 100.0, None, [], []), "AAPL", 2.0, "t")
         == Outcome(None, 0, Raised(ShortOfFunds(InsufficientFunds(100.0, 120.0, 20.0))))
  {
  }

  /** A covered buy whose order is pending, then filled at 59.8: a "buy" record at 59.8. */
  lemma BuyFilledScenario()
    ensures var polls := [OrderView("new", 0.0), OrderView("filled", 59.8)];
      CreateTrade(Steady(60.0, 1000.0, None, polls, []), "AAPL", 2.0, "t")
      == Outcome(Some(MarketOrder("AAPL", 2.0, "buy")), 2, Settled(Settlement("AAPL", Some(2.0), None, 59.8, "t", BUY)))
  {
  }

  /** A covered buy that the broker cancels: the price is the latest trade read after the
      cancel (61), not the precheck's (60). */
  lemma BuyCanceledScenario()
    ensures var b := Broker(Reads(LatestTrade(60.0, 1.0, 0), [LatestTrade(61.0, 1.0, 1)]), Reads(1000.0, []),
                            None, [OrderView("canceled", 0.0)], []);
      CreateTrade(b, "AAPL", 2.0, "t").verdict == Settled(Settlement("AAPL", Some(2.0), None, 61.0, "t", FAILED_BUY))
  {
  }

  /** The bar window at T holds every bar from T - 60 to T, both ends included. */
  lemma WindowBounds(b: Broker, asOf: int, bar: Bar)
    requires bar in b.bars
    ensures bar in Window(b, asOf) <==> asOf - 60 <= bar.time <= asOf
  {
  }

  /** The first bar of a chronological sequence is no later than any of its bars, and the
      last is no earlier. */
  lemma EndsBoundTimes(w: seq<Bar>, bar: Bar)
    requires Chronological(w) && bar in w
    ensures w[0].time <= bar.time <= w[|w| - 1].time
  {
  }

  /** As written, `get_info` at a time returns the OLDEST bar of the window. */
  lemma GetInfoReturnsOldestBar(b: Broker, stock: string, asOf: int)
    requires Chronological(b.bars)
    ensures var r := GetInfo(b, stock, Some(asOf));
      r.Success? ==> forall k :: 0 <= k < |b.bars| && InWindow(b.bars[k].time, asOf) ==> r.value.time <= b.bars[k].time
  {
    var w := Window(b, asOf);
    BarsBetweenChronological(b.bars, asOf - BAR_WINDOW, asOf);
    if |w| > 0 {
      assert GetInfo(b, stock, Some(asOf)).value.time == w[0].time;
      forall k | 0 <= k < |b.bars| && InWindow(b.bars[k].time, asOf)
        ensures w[0].time <= b.bars[k].time
      {
        EndsBoundTimes(w, b.bars[k]);
      }
    }
  }

  /** The corrected lookup returns the NEWEST bar of the window. */
  lemma GetInfoMostRecentIsNewest(b: Broker, stock: string, asOf: int)
    requires Chronological(b.bars)
    ensures var r := GetInfoMostRecent(b, stock, Some(asOf));
      r.Success? ==> forall k :: 0 <= k < |b.bars| && InWindow(b.bars[k].time, asOf) ==> b.bars[k].time <= r.value.time
  {
    var w := Window(b, asOf);
    BarsBetweenChronological(b.bars, asOf - BAR_WINDOW, asOf);
    if |w| > 0 {
      assert GetInfoMostRecent(b, stock, Some(asOf)).value.time == w[|w| - 1].time;
      forall k | 0 <= k < |b.bars| && InWindow(b.bars[k].time, asOf)
        ensures b.bars[k].time <= w[|w| - 1].time
      {
        EndsBoundTimes(w, b.bars[k]);
      }
    }
  }

  /** A window holding a bar at each end: as written the lookup answers with the bar a
      minute old, although a bar at T exists. */
  lemma GetInfoMissesNewestBar()
    ensures var b := Steady(0.0, 0.0, None, [], [Bar(1.0, 10.0, 0), Bar(2.0, 20.0, 60)]);
      && GetInfo(b, "AAPL", Some(60)) == Success(Quote("AAPL", 1.0, 10.0, 0))
      && GetInfoMostRecent(b, "AAPL", Some(60)) == Success(Quote("AAPL", 2.0, 20.0, 60))
  {
  }

  /** An empty bar window is an error, whatever the latest trade says. */
  lemma EmptyWindowScenario()
    ensures GetInfo(Steady(60.0, 0.0, None, [], [Bar(1.0, 1.0, 0)]), "AAPL", Some(1000)) == Failure(NoData("AAPL"))
  {
  }

  /** Without a time, and with a latest trade that does not move, the quote is that trade. */
  lemma CurrentQuoteIsLatestTrade(b: Broker, stock: string)
    requires b.latestTrade.Stable()
    ensures GetInfo(b, stock, None) ==
      Success(Quote(stock, b.latestTrade.first.price, b.latestTrade.first.size, b.latestTrade.first.timestamp))
  {
  }
}
