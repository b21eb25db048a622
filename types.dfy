/**
  Shared vocabulary of the portfolio ledger: identifiers, money, the rows the
  ledger keeps, and the error kinds a handler answers with.
*/
module Types {

  /** `stocks.id`, the key of the holdings and watchlist tables. */
  type StockId = int

  /** Money is exact here; the DECIMAL columns and JavaScript numbers are not modelled. */
  type Money = real

  /** A value that may be absent: a missing request field, a missing row, a NULL price. */
  datatype Option<+T> = None | Some(value: T)

  /** The outcome of a handler that computes a value or rejects the request. */
  datatype Result<+T> = Ok(value: T) | Err(error: Error)

  /** The outcome of a handler that only reports success or the reason it failed. */
  datatype Outcome = Success | Failure(error: Error)

  /** The rejections the handlers answer with. */
  datatype Error =
    | InvalidAmount         // 400 "Invalid amount"
    | InvalidInput          // 400 "Invalid input parameters"
    | InsufficientBalance   // 400 "Insufficient balance"
    | InsufficientHoldings  // 400 "Insufficient holdings"
    | StockNotFound         // 404 "Stock not found"
    | AlreadyInWatchlist    // 400 "Stock already in watchlist"
    | InternalError         // 500: a query threw, e.g. reading a wallet row that is not there

  /** `buy_sell` of a transaction row: 1 for a buy, 0 for a sell. */
  datatype Side = Sell | Buy

  function SideCode(side: Side): (code: int)
    ensures code == 1 <==> side == Buy
    ensures code == 0 <==> side == Sell
  {
    match side
    case Buy => 1
    case Sell => 0
  }

  /** One row of the append-only `transactions` table (its id and date are left out); `buySell` holds `SideCode`. */
  datatype Transaction = Transaction(stockId: StockId, price: Money, quantity: int, totalPrice: Money, buySell: int)

  /** One row of the `holdings` table, keyed elsewhere by its stock id. */
  datatype Holding = Holding(
    quantity: int,
    totalPriceBought: Money,   // cost basis of the shares still held
    totalCurrentValue: Money,
    profitLoss: Money,
    profitLossPercent: real)

  /** The whole mutable store: the wallet row with id 1, holdings, the transaction log and the watchlist. */
  datatype Ledger = Ledger(
    wallet: Option<Money>,
    holdings: map<StockId, Holding>,
    transactions: seq<Transaction>,
    watchlist: map<StockId, string>)

  /** A holding row as the ledger keeps it: some shares and a positive cost basis. */
  predicate WellFormed(h: Holding) {
    h.quantity > 0 && h.totalPriceBought > 0.0
  }

  /**
    What every handler keeps: the balance is never negative and no holding has
    zero quantity or zero cost (so the divisions by quantity and by cost are defined).
  */
  predicate Invariant(s: Ledger) {
    && (s.wallet.Some? ==> s.wallet.value >= 0.0)
    && forall id :: id in s.holdings ==> WellFormed(s.holdings[id])
  }

  /** `quantity * price` */
  function Cost(quantity: int, price: Money): Money {
    quantity as real * price
  }

  /** The row of `stock_id` in a table, or None when there is none. */
  function Lookup<V>(m: map<StockId, V>, id: StockId): (r: Option<V>)
    ensures r.Some? <==> id in m
    ensures r.Some? ==> r.value == m[id]
  {
    if id in m then Some(m[id]) else None
  }

  /**
    A holding valued at `price`: value = quantity * price, profit/loss = value - cost,
    percent = profit/loss / cost * 100. Buy, sell and revaluation all compute these three
    derived fields this way.
  */
  function Valued(quantity: int, cost: Money, price: Money): (h: Holding)
    requires cost != 0.0
    ensures h.quantity == quantity && h.totalPriceBought == cost
    ensures h.totalCurrentValue == Cost(quantity, price)
    ensures h.totalCurrentValue == h.totalPriceBought + h.profitLoss
    ensures h.profitLossPercent * cost == h.profitLoss * 100.0
  {
    var value := Cost(quantity, price);
    var profitLoss := value - cost;
    Holding(quantity, cost, value, profitLoss, profitLoss / cost * 100.0)
  }
}
