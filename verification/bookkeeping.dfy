/** How the settlement records of the order-execution core fare in the store. */
module Bookkeeping {
  import opened Wrappers
  import opened Oracle
  import opened Records
  import opened BrokerConn
  import opened DBManager

  /** A settled buy of a symbol the store knows can be stored, and `get_trades` then lists it
      under its "Time" with the recorded price, the bought amount and its "Type". */
  lemma BuyRecordPersists(db: Db, b: Broker, stock: string, amount: real, now: string)
    requires CreateTrade(b, stock, amount, now).verdict.Settled?
    requires stock in db
    ensures var rec := CreateTrade(b, stock, amount, now).verdict.record;
      && StoreTrade(db, rec).Success?
      && now in GetTrades(StoreTrade(db, rec).value, stock)
      && GetTrades(StoreTrade(db, rec).value, stock)[now] == TradeEntry(rec.price, amount, rec.kind)
  {
  }

  /** A settled sell can never be stored: its record has no "Amount", which `store_trade`
      reads unconditionally. */
  lemma SellRecordNotStorable(db: Db, b: Broker, stock: string, amount: real, now: string)
    requires LeaveTrade(b, stock, amount, now).verdict.Settled?
    ensures StoreTrade(db, LeaveTrade(b, stock, amount, now).verdict.record) == Failure(MissingField("Amount"))
  {
  }
}
