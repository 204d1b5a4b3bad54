/** `DBManager`: the JSON store of the bot, with the file replaced by its contents, a map
    symbol -> {"info", "trades", "sell-at"}. Each write is one read-modify-write of that map;
    `get_trades`, `get_sl` and `get_perc_incr` only read it. A Python KeyError that escapes an
    operation becomes a `Failure`. */
module DBManager {
  import opened Wrappers
  import opened Records

  /** `data[symbol]["info"]`: price, volume and, once set, the percentage increases by time frame. */
  datatype Info = Info(price: real, volume: real, percIncrease: Option<map<string, real>>)

  /** One value of `data[symbol]["trades"]`, keyed there by the trade's "Time" string. */
  datatype TradeEntry = TradeEntry(price: real, amount: real, kind: string)

  /** `data[symbol]`: each of the three keys may be missing. `str(price)` keys the "sell-at"
      map; the model keys it by the numeric value of the price, so prices whose `str` differ
      but whose values agree (`5` and `5.0`, `0.0` and `-0.0`) share one key here. */
  datatype Entry = Entry(
    info: Option<Info>,
    trades: Option<map<string, TradeEntry>>,
    sellAt: Option<map<real, int>>)

  /** The whole store: symbol -> entry. */
  type Db = map<string, Entry>

  /** The key a KeyError names. */
  datatype DbError =
    | MissingSymbol(symbol: string)
    | MissingField(field: string)
    | MissingPrice(price: real)
    | MissingTimeFrame(timeFrame: string)

  /** `db'` agrees with `db` on every symbol other than `symbol`. */
  predicate OthersUnchanged(db: Db, db': Db, symbol: string)
  {
    && db'.Keys - {symbol} == db.Keys - {symbol}
    && forall s :: s in db && s != symbol ==> s in db' && db'[s] == db[s]
  }

  /** `store_info`: sets `data[symbol]["info"]` to exactly {price, volume}, creating the entry
      when the symbol is new. The old info, with any "perc increase", is replaced whole. */
  function StoreInfo(db: Db, symbol: string, price: real, volume: real): (db': Db)
    ensures symbol in db' && db'[symbol].info == Some(Info(price, volume, None))
    ensures symbol in db ==> db'[symbol].trades == db[symbol].trades && db'[symbol].sellAt == db[symbol].sellAt
    ensures symbol !in db ==> db'[symbol].trades.None? && db'[symbol].sellAt.None?
    ensures db'.Keys == db.Keys + {symbol}
    ensures OthersUnchanged(db, db', symbol)
  {
    var info := Info(price, volume, None);
    if symbol in db then db[symbol := db[symbol].(info := Some(info))]
    else db[symbol := Entry(Some(info), None, None)]
  }

  /** The trades of a symbol whose entry exists, `{}` when "trades" is missing. */
  function TradesOf(e: Entry): map<string, TradeEntry>
  {
    if e.trades.Some? then e.trades.value else map[]
  }

  /** `store_trade`: reads "Symbol", "Amount", "Price", "Time", "Type" from the record and sets
      `data[symbol]["trades"][time]`. A record without "Amount" raises KeyError; so does an
      unknown symbol, because the fallback indexes `data[symbol]` again. */
  function StoreTrade(db: Db, t: Settlement): (r: Result<Db, DbError>)
    ensures t.amount.None? ==> r == Failure(MissingField("Amount"))
    ensures t.amount.Some? && t.symbol !in db ==> r == Failure(MissingSymbol(t.symbol))
    ensures r.Success? <==> t.amount.Some? && t.symbol in db
    ensures r.Success? ==>
      && t.symbol in r.value
      && r.value[t.symbol].trades.Some?
      && r.value[t.symbol].trades.value.Keys == TradesOf(db[t.symbol]).Keys + {t.time}
      && r.value[t.symbol].trades.value[t.time] == TradeEntry(t.price, t.amount.value, t.kind)
      && (forall time :: time in TradesOf(db[t.symbol]) && time != t.time ==>
            r.value[t.symbol].trades.value[time] == TradesOf(db[t.symbol])[time])
      && r.value[t.symbol].info == db[t.symbol].info
      && r.value[t.symbol].sellAt == db[t.symbol].sellAt
    ensures r.Success? ==> OthersUnchanged(db, r.value, t.symbol)
  {
    if t.amount.None? then Failure(MissingField("Amount"))
    else if t.symbol !in db then Failure(MissingSymbol(t.symbol))
    else
      var entry := db[t.symbol];
      var trades := TradesOf(entry)[t.time := TradeEntry(t.price, t.amount.value, t.kind)];
      Success(db[t.symbol := entry.(trades := Some(trades))])
  }

  /** `get_trades`: the stored trades, `{}` when the symbol or its "trades" is missing. */
  function GetTrades(db: Db, stock: string): (r: map<string, TradeEntry>)
    ensures stock !in db ==> r == map[]
    ensures stock in db && db[stock].trades.None? ==> r == map[]
    ensures stock in db && db[stock].trades.Some? ==> r == db[stock].trades.value
  {
    if stock in db then TradesOf(db[stock]) else map[]
  }

  /** The stop-losses of a symbol whose entry exists, `{}` when "sell-at" is missing. */
  function SellAtOf(e: Entry): map<real, int>
  {
    if e.sellAt.Some? then e.sellAt.value else map[]
  }

  /** `store_sl`: sets `data[stock]["sell-at"][str(price)] = percentage`, creating "sell-at"
      when missing; an unknown stock raises KeyError. */
  function StoreSl(db: Db, stock: string, price: real, percentage: int): (r: Result<Db, DbError>)
    ensures r.Failure? <==> stock !in db
    ensures r.Failure? ==> r.error == MissingSymbol(stock)
    ensures r.Success? ==>
      && stock in r.value
      && r.value[stock].sellAt == Some(SellAtOf(db[stock])[price := percentage])
      && r.value[stock].info == db[stock].info
      && r.value[stock].trades == db[stock].trades
    ensures r.Success? ==> OthersUnchanged(db, r.value, stock)
  {
    if stock !in db then Failure(MissingSymbol(stock))
    else Success(db[stock := db[stock].(sellAt := Some(SellAtOf(db[stock])[price := percentage]))])
  }

  /** `remove_sl`: `del data[stock]["sell-at"][str(price)]`; raises KeyError when the stock,
      its "sell-at" or that price is missing. */
  function RemoveSl(db: Db, stock: string, price: real): (r: Result<Db, DbError>)
    ensures stock !in db ==> r == Failure(MissingSymbol(stock))
    ensures stock in db && db[stock].sellAt.None? ==> r == Failure(MissingField("sell-at"))
    ensures stock in db && db[stock].sellAt.Some? && price !in db[stock].sellAt.value ==> r == Failure(MissingPrice(price))
    ensures r.Success? <==> stock in db && db[stock].sellAt.Some? && price in db[stock].sellAt.value
    ensures r.Success? ==>
      && stock in r.value
      && r.value[stock].sellAt.Some?
      && r.value[stock].sellAt.value.Keys == db[stock].sellAt.value.Keys - {price}
      && (forall p :: p in r.value[stock].sellAt.value ==> r.value[stock].sellAt.value[p] == db[stock].sellAt.value[p])
      && r.value[stock].info == db[stock].info
      && r.value[stock].trades == db[stock].trades
    ensures r.Success? ==> OthersUnchanged(db, r.value, stock)
  {
    if stock !in db then Failure(MissingSymbol(stock))
    else if db[stock].sellAt.None? then Failure(MissingField("sell-at"))
    else if price !in db[stock].sellAt.value then Failure(MissingPrice(price))
    else Success(db[stock := db[stock].(sellAt := Some(db[stock].sellAt.value - {price}))])
  }

  /** `get_sl`: the stop-losses, `{}` when the stock or its "sell-at" is missing. */
  function GetSl(db: Db, stock: string): (r: map<real, int>)
    ensures stock !in db ==> r == map[]
    ensures stock in db && db[stock].sellAt.None? ==> r == map[]
    ensures stock in db && db[stock].sellAt.Some? ==> r == db[stock].sellAt.value
  {
    if stock in db then SellAtOf(db[stock]) else map[]
  }

  /** `get_perc_incr`: `data[stock]["info"]["perc increase"][timeFrame]`, with no default:
      each missing level raises KeyError. */
  function GetPercIncr(db: Db, stock: string, timeFrame: string): (r: Result<real, DbError>)
    ensures stock !in db ==> r == Failure(MissingSymbol(stock))
    ensures stock in db && db[stock].info.None? ==> r == Failure(MissingField("info"))
    ensures stock in db && db[stock].info.Some? && db[stock].info.value.percIncrease.None? ==>
      r == Failure(MissingField("perc increase"))
    ensures r.Success? <==>
      && stock in db && db[stock].info.Some? && db[stock].info.value.percIncrease.Some?
      && timeFrame in db[stock].info.value.percIncrease.value
    ensures r.Success? ==> r.value == db[stock].info.value.percIncrease.value[timeFrame]
    ensures r.Failure? && stock in db && db[stock].info.Some? && db[stock].info.value.percIncrease.Some? ==>
      r.error == MissingTimeFrame(timeFrame)
  {
    if stock !in db then Failure(MissingSymbol(stock))
    else if db[stock].info.None? then Failure(MissingField("info"))
    else if db[stock].info.value.percIncrease.None? then Failure(MissingField("perc increase"))
    else if timeFrame !in db[stock].info.value.percIncrease.value then Failure(MissingTimeFrame(timeFrame))
    else Success(db[stock].info.value.percIncrease.value[timeFrame])
  }

  /** `update_perc_incr`: sets `data[stock]["info"]["perc increase"][timeFrame]`, creating
      "perc increase" when missing; a missing stock or "info" raises KeyError from the fallback. */
  function UpdatePercIncr(db: Db, stock: string, percentage: real, timeFrame: string): (r: Result<Db, DbError>)
    ensures stock !in db ==> r == Failure(MissingSymbol(stock))
    ensures stock in db && db[stock].info.None? ==> r == Failure(MissingField("info"))
    ensures r.Success? <==> stock in db && db[stock].info.Some?
    ensures r.Success? ==>
      var old_ := db[stock].info.value;
      var perc := if old_.percIncrease.Some? then old_.percIncrease.value else map[];
      && stock in r.value
      && r.value[stock].info == Some(Info(old_.price, old_.volume, Some(perc[timeFrame := percentage])))
      && r.value[stock].trades == db[stock].trades
      && r.value[stock].sellAt == db[stock].sellAt
    ensures r.Success? ==> OthersUnchanged(db, r.value, stock)
  {
    if stock !in db then Failure(MissingSymbol(stock))
    else if db[stock].info.None? then Failure(MissingField("info"))
    else
      var info := db[stock].info.value;
      var perc := if info.percIncrease.Some? then info.percIncrease.value else map[];
      var info' := info.(percIncrease := Some(perc[timeFrame := percentage]));
      Success(db[stock := db[stock].(info := Some(info'))])
  }
}
