/** The broker as seen by one call of the order-execution core: a snapshot of everything the
    Alpaca REST client answers for the symbol in question. Endpoints that one operation calls
    more than once give one answer per call, because the market may move between calls. */
module Oracle {
  import opened Wrappers

  /** Successive answers of one endpoint during one operation: the first call sees `first`,
      the k-th later call sees `later[k - 1]`, and once `later` is used up its last answer repeats. */
  datatype Reads<T(==)> = Reads(first: T, later: seq<T>) {

    /** The answer the endpoint gives to its `i`-th call (counting from 0). */
    function At(i: nat): (r: T)
      ensures i == 0 ==> r == first
      ensures Stable() ==> r == first
      ensures r == first || r in later
    {
      if i == 0 || |later| == 0 then first
      else if i <= |later| then later[i - 1]
      else later[|later| - 1]
    }

    /** Nothing moved during the operation: every call sees the first answer. */
    predicate Stable()
    {
      forall k :: 0 <= k < |later| ==> later[k] == first
    }
  }

  /** `get_latest_trade(symbol)`: price, size and time (whole seconds) of the last trade. */
  datatype LatestTrade = LatestTrade(price: real, size: real, timestamp: int)

  /** One one-minute bar: close price, volume and the bar's time (whole seconds). */
  datatype Bar = Bar(close: real, volume: real, time: int)

  /** One answer of `get_order(id)`: the raw status string and the average fill price. */
  datatype OrderView = OrderView(status: string, filledAvgPrice: real)

  /** Everything the broker answers during one call:
      - `latestTrade`: the successive `get_latest_trade` answers;
      - `cash`: the successive `get_account().cash` answers (`get_balance`);
      - `position`: the held quantity, `None` when `get_position` raises `APIError`;
      - `orderPolls`: the successive `get_order` answers for the order just submitted;
      - `bars`: the symbol's one-minute bar history, oldest first. */
  datatype Broker = Broker(
    latestTrade: Reads<LatestTrade>,
    cash: Reads<real>,
    position: Option<real>,
    orderPolls: seq<OrderView>,
    bars: seq<Bar>)

  /** Bars listed oldest first, the order in which the broker returns them. */
  predicate Chronological(bars: seq<Bar>)
  {
    forall i, j :: 0 <= i < j < |bars| ==> bars[i].time <= bars[j].time
  }

  /** `get_bars(symbol, "1min", start, end)`: the bars of the history whose time lies in
      [start, end], in history order. */
  function BarsBetween(bars: seq<Bar>, start: int, end: int): (r: seq<Bar>)
    ensures |r| <= |bars|
    ensures forall k :: 0 <= k < |r| ==> r[k] in bars && start <= r[k].time <= end
    ensures forall k :: 0 <= k < |bars| && start <= bars[k].time <= end ==> bars[k] in r
  {
    if |bars| == 0 then []
    else
      var rest := BarsBetween(bars[1..], start, end);
      assert forall k :: 0 <= k < |rest| ==> rest[k] in bars[1..];
      assert forall k :: 1 <= k < |bars| ==> bars[k] == bars[1..][k - 1];
      if start <= bars[0].time <= end then [bars[0]] + rest else rest
  }

  /** The window keeps the broker's oldest-first order. */
  lemma {:induction false} BarsBetweenChronological(bars: seq<Bar>, start: int, end: int)
    requires Chronological(bars)
    ensures Chronological(BarsBetween(bars, start, end))
  {
    if |bars| > 0 {
      var rest := BarsBetween(bars[1..], start, end);
      assert Chronological(bars[1..]);
      BarsBetweenChronological(bars[1..], start, end);
      if start <= bars[0].time <= end {
        forall k | 0 <= k < |rest|
          ensures bars[0].time <= rest[k].time
        {
          var j :| 0 <= j < |bars[1..]| && bars[1..][j] == rest[k];
          assert bars[j + 1] == rest[k];
        }
      }
    }
  }
}
