/** Round trips, overwrites and frames of the store: what a read returns after a write. */
module DBManagerProperties {
  import opened Wrappers
  import opened Records
  import opened DBManager

  /** After `store_trade(t)`, `get_trades(t.Symbol)[t.Time]` is the stored triple; the other
      trades of that symbol and the trades of every other symbol read back as before. */
  lemma StoreTradeRoundTrip(db: Db, t: Settlement)
    requires StoreTrade(db, t).Success?
    ensures var db' := StoreTrade(db, t).value;
      && t.time in GetTrades(db', t.symbol)
      && GetTrades(db', t.symbol)[t.time] == TradeEntry(t.price, t.amount.value, t.kind)
      && (forall time :: time in GetTrades(db, t.symbol) && time != t.time ==>
            time in GetTrades(db', t.symbol) && GetTrades(db', t.symbol)[time] == GetTrades(db, t.symbol)[time])
      && (forall s :: s != t.symbol ==> GetTrades(db', s) == GetTrades(db, s))
  {
  }

  /** Trades are keyed by "Time": a second trade with the same time replaces the first
      completely, as if the first had never been stored. */
  lemma SameTimeOverwrites(db: Db, t1: Settlement, t2: Settlement)
    requires t1.symbol == t2.symbol && t1.time == t2.time
    requires StoreTrade(db, t1).Success?
    ensures StoreTrade(StoreTrade(db, t1).value, t2) == StoreTrade(db, t2)
  {
    if t2.amount.Some? {
      var e := db[t1.symbol];
      var x1 := TradeEntry(t1.price, t1.amount.value, t1.kind);
      var x2 := TradeEntry(t2.price, t2.amount.value, t2.kind);
      var db1 := db[t1.symbol := e.(trades := Some(TradesOf(e)[t1.time := x1]))];
      assert StoreTrade(db, t1).value == db1;
      assert TradesOf(db1[t2.symbol]) == TradesOf(e)[t1.time := x1];
      assert TradesOf(e)[t1.time := x1][t2.time := x2] == TradesOf(e)[t2.time := x2];
      assert StoreTrade(db1, t2).value == db[t2.symbol := e.(trades := Some(TradesOf(e)[t2.time := x2]))];
    }
  }

  /** After `store_sl(s, p, pct)`, `get_sl(s)[str(p)] == pct`, and every other stop-loss of
      `s` is as before. */
  lemma StopLossRoundTrip(db: Db, stock: string, price: real, percentage: int)
    requires stock in db
    ensures StoreSl(db, stock, price, percentage).Success?
    ensures var sl := GetSl(StoreSl(db, stock, price, percentage).value, stock);
      && price in sl && sl[price] == percentage
      && sl.Keys == GetSl(db, stock).Keys + {price}
      && (forall p :: p in GetSl(db, stock) && p != price ==> sl[p] == GetSl(db, stock)[p])
  {
  }

  /** Storing a new stop-loss into an existing "sell-at" and removing it again restores
      the store exactly. */
  lemma StoreThenRemoveStopLoss(db: Db, stock: string, price: real, percentage: int)
    requires stock in db && db[stock].sellAt.Some? && price !in db[stock].sellAt.value
    ensures StoreSl(db, stock, price, percentage).Success?
    ensures RemoveSl(StoreSl(db, stock, price, percentage).value, stock, price) == Success(db)
  {
    var e := db[stock];
    var m := e.sellAt.value;
    var db1 := db[stock := e.(sellAt := Some(m[price := percentage]))];
    assert StoreSl(db, stock, price, percentage).value == db1;
    assert m[price := percentage] - {price} == m;
    assert e.(sellAt := Some(m)) == e;
    assert db1[stock := e.(sellAt := Some(m))] == db;
  }

  /** `remove_sl` of a price that `get_sl` lists drops exactly that price. */
  lemma RemoveStopLossDropsOnlyItsPrice(db: Db, stock: string, price: real)
    requires price in GetSl(db, stock) && db[stock].sellAt.Some?
    ensures RemoveSl(db, stock, price).Success?
    ensures var sl := GetSl(RemoveSl(db, stock, price).value, stock);
      && price !in sl
      && (forall p :: p in GetSl(db, stock) && p != price ==> p in sl && sl[p] == GetSl(db, stock)[p])
  {
  }

  /** After `update_perc_incr(s, pct, tf)`, `get_perc_incr(s, tf)` is `pct`; another time frame
      reads as before when "perc increase" already existed. */
  lemma PercIncreaseRoundTrip(db: Db, stock: string, percentage: real, timeFrame: string, other: string)
    requires UpdatePercIncr(db, stock, percentage, timeFrame).Success?
    requires other != timeFrame
    ensures var db' := UpdatePercIncr(db, stock, percentage, timeFrame).value;
      && GetPercIncr(db', stock, timeFrame) == Success(percentage)
      && (db[stock].info.value.percIncrease.Some? ==> GetPercIncr(db', stock, other) == GetPercIncr(db, stock, other))
  {
  }

  /** `store_info` replaces the whole info: a percentage stored earlier is gone. */
  lemma StoreInfoDropsPercIncrease(db: Db, stock: string, price: real, volume: real, timeFrame: string)
    ensures GetPercIncr(StoreInfo(db, stock, price, volume), stock, timeFrame) == Failure(MissingField("perc increase"))
  {
  }

  /** `store_info` is what makes a symbol writable: afterwards the writes that raise on an
      unknown symbol succeed. */
  lemma StoreInfoEnablesWrites(db: Db, stock: string, price: real, volume: real, t: Settlement, slPrice: real, pct: int, timeFrame: string)
    requires t.symbol == stock && t.amount.Some?
    ensures var db' := StoreInfo(db, stock, price, volume);
      && StoreTrade(db', t).Success?
      && StoreSl(db', stock, slPrice, pct).Success?
      && UpdatePercIncr(db', stock, 0.0, timeFrame).Success?
  {
  }
}
