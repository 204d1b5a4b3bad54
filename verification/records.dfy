/** The settlement record: the dict that `create_trade` and `leave_trade` return and that
    `store_trade` consumes. Buy records carry "Amount", sell records carry "Cash". */
module Records {
  import opened Wrappers

  const BUY: string := "buy"
  const FAILED_BUY: string := "failed_buy"
  const SELL: string := "sell"
  const FAILED_SELL: string := "failed_sell"

  /** Keys "Symbol", "Amount" (absent on sells), "Cash" (absent on buys), "Price", "Time", "Type". */
  datatype Settlement = Settlement(
    symbol: string,
    amount: Option<real>,
    cash: Option<real>,
    price: real,
    time: string,
    kind: string)
}
