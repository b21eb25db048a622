/**
  The portfolio store and its handlers. The tables are fields that the handlers
  update step by step, in the order the handlers issue their statements; each
  handler is one atomic step whose result is the value-level step of the Wallet,
  Trading, Watchlist or Holdings module: on a rejection nothing is written, on
  success every write is made.
*/
module Store {
  import opened Types
  import Wallet
  import Trading
  import Watchlist
  import opened Holdings

  /** The state after a handler: the step's new ledger when it succeeds, the old one when it is rejected. */
  ghost predicate Settled(step: Result<Ledger>, before: Ledger, after: Ledger) {
    if step.Ok? then after == step.value else after == before
  }

  /** The reply of a handler that only reports success or the error. */
  function Reply(step: Result<Ledger>): Outcome {
    if step.Ok? then Success else Failure(step.error)
  }

  /** The reply of a wallet handler: the new balance, or the error. */
  function BalanceReply(step: Result<Ledger>): Result<Money> {
    if step.Ok? then Ok(Wallet.Balance(step.value)) else Err(step.error)
  }

  class Portfolio {
    /** The wallet row with id 1, if there is one. */
    var wallet: Option<Money>
    var holdings: map<StockId, Holding>
    var transactions: seq<Transaction>
    var watchlist: map<StockId, string>
    /** The stock catalogue, id to name; no handler writes it. */
    const catalogue: map<StockId, string>

    function State(): Ledger
      reads this
    {
      Ledger(wallet, holdings, transactions, watchlist)
    }

    ghost predicate Valid()
      reads this
    {
      Invariant(State())
    }

    /** A seeded store: one wallet row holding `balance`, and empty tables. */
    constructor (catalogue: map<StockId, string>, balance: Money)
      requires balance >= 0.0
      ensures Valid()
      ensures this.catalogue == catalogue
      ensures State() == Ledger(Some(balance), map[], [], map[])
    {
      this.catalogue := catalogue;
      wallet := Some(balance);
      holdings := map[];
      transactions := [];
      watchlist := map[];
    }

    /** `GET /wallet`: the balance of the wallet row, 0 when there is none. */
    method GetBalance() returns (balance: Money)
      requires Valid()
      ensures balance == Wallet.Balance(State())
      ensures balance >= 0.0
    {
      if wallet.Some? {
        balance := wallet.value;
      } else {
        balance := 0.0;
      }
    }

    /** `POST /wallet/add` */
    method AddMoney(amount: Option<Money>) returns (r: Result<Money>)
      requires Valid()
      modifies this
      ensures Valid()
      ensures Settled(Wallet.AddMoney(old(State()), amount), old(State()), State())
      ensures r == BalanceReply(Wallet.AddMoney(old(State()), amount))
    {
      if amount.None? || amount.value <= 0.0 {
        return Err(InvalidAmount);
      }
      // UPDATE wallet SET balance = balance + ? WHERE id = 1
      if wallet.Some? {
        wallet := Some(wallet.value + amount.value);
      }
      // SELECT balance FROM wallet WHERE id = 1: reading rows[0] throws when there is no row
      if wallet.None? {
        return Err(InternalError);
      }
      r := Ok(wallet.value);
    }

    /** `POST /wallet/withdraw` */
    method WithdrawMoney(amount: Option<Money>) returns (r: Result<Money>)
      requires Valid()
      modifies this
      ensures Valid()
      ensures Settled(Wallet.WithdrawMoney(old(State()), amount), old(State()), State())
      ensures r == BalanceReply(Wallet.WithdrawMoney(old(State()), amount))
    {
      if amount.None? || amount.value <= 0.0 {
        return Err(InvalidAmount);
      }
      if wallet.None? {
        return Err(InternalError);
      }
      var currentBalance := wallet.value;
      if currentBalance < amount.value {
        return Err(InsufficientBalance);
      }
      wallet := Some(wallet.value - amount.value);
      r := Ok(wallet.value);
    }

    /** `POST /api/transactions/buy` of the monolithic server, which does not check its input. */
    method BuyStock(id: StockId, quantity: int, price: Money) returns (r: Outcome)
      requires Valid()
      requires quantity > 0 && price > 0.0
      modifies this
      ensures Valid()
      ensures Settled(Trading.ExecuteBuy(old(State()), id, quantity, price), old(State()), State())
      ensures r == Reply(Trading.ExecuteBuy(old(State()), id, quantity, price))
    {
      var totalPrice := Cost(quantity, price);
      if wallet.None? {
        return Failure(InternalError);
      }
      var balance := wallet.value;
      if balance < totalPrice {
        return Failure(InsufficientBalance);
      }
      transactions := transactions + [Transaction(id, price, quantity, totalPrice, SideCode(Buy))];
      wallet := Some(wallet.value - totalPrice);
      if id in holdings {
        var holding := holdings[id];
        var newQuantity := holding.quantity + quantity;
        var newTotalPriceBought := holding.totalPriceBought + totalPrice;
        holdings := holdings[id := Valued(newQuantity, newTotalPriceBought, price)];
      } else {
        holdings := holdings[id := Holding(quantity, totalPrice, totalPrice, 0.0, 0.0)];
      }
      r := Success;
    }

    /** `POST /api/transactions/sell` of the monolithic server, which does not check its input. */
    method SellStock(id: StockId, quantity: int, price: Money) returns (r: Outcome)
      requires Valid()
      requires quantity > 0 && price > 0.0
      modifies this
      ensures Valid()
      ensures Settled(Trading.ExecuteSell(old(State()), id, quantity, price), old(State()), State())
      ensures r == Reply(Trading.ExecuteSell(old(State()), id, quantity, price))
    {
      var totalPrice := Cost(quantity, price);
      if id !in holdings || holdings[id].quantity < quantity {
        return Failure(InsufficientHoldings);
      }
      var holding := holdings[id];
      transactions := transactions + [Transaction(id, price, quantity, totalPrice, SideCode(Sell))];
      if wallet.Some? {
        wallet := Some(wallet.value + totalPrice);
      }
      var newQuantity := holding.quantity - quantity;
      if newQuantity == 0 {
        holdings := holdings - {id};
      } else {
        var avgBuyPrice := holding.totalPriceBought / holding.quantity as real;
        var newTotalPriceBought := newQuantity as real * avgBuyPrice;
        assert avgBuyPrice == Trading.AverageCost(holding);
        assert Trading.SoldHolding(holding, quantity, price).Some?;
        assert Trading.SoldHolding(holding, quantity, price).value.totalPriceBought == newTotalPriceBought;
        assert Trading.SoldHolding(holding, quantity, price) == Some(Valued(newQuantity, newTotalPriceBought, price));
        holdings := holdings[id := Valued(newQuantity, newTotalPriceBought, price)];
      }
      r := Success;
    }

    /** The transactions router's `/buy`: checks its input, then trades as above. */
    method BuyStockValidated(id: Option<StockId>, quantity: Option<int>, price: Option<Money>) returns (r: Outcome)
      requires Valid()
      modifies this
      ensures Valid()
      ensures Settled(Trading.ExecuteBuyChecked(old(State()), id, quantity, price), old(State()), State())
      ensures r == Reply(Trading.ExecuteBuyChecked(old(State()), id, quantity, price))
    {
      if !Trading.ValidTradeInput(id, quantity, price) {
        return Failure(InvalidInput);
      }
      r := BuyStock(id.value, quantity.value, price.value);
    }

    /** The transactions router's `/sell`: checks its input, then trades as above. */
    method SellStockValidated(id: Option<StockId>, quantity: Option<int>, price: Option<Money>) returns (r: Outcome)
      requires Valid()
      modifies this
      ensures Valid()
      ensures Settled(Trading.ExecuteSellChecked(old(State()), id, quantity, price), old(State()), State())
      ensures r == Reply(Trading.ExecuteSellChecked(old(State()), id, quantity, price))
    {
      if !Trading.ValidTradeInput(id, quantity, price) {
        return Failure(InvalidInput);
      }
      r := SellStock(id.value, quantity.value, price.value);
    }

    /**
      `GET /holdings`: the query returns the catalogued holdings in `order` (the
      order of its ORDER BY on the stored percent), each with its latest price;
      every row with a truthy price is revalued in the table and in the returned row.
      A holding whose stock is not in the catalogue is neither listed nor revalued.
    */
    method ListHoldings(order: seq<StockId>, latest: map<StockId, Money>) returns (rows: seq<Row>)
      requires Valid()
      requires Covers(holdings, catalogue, order)
      modifies this
      ensures Valid()
      ensures holdings == RevaluedHoldings(old(holdings), catalogue.Keys, latest)
      ensures wallet == old(wallet) && transactions == old(transactions) && watchlist == old(watchlist)
      ensures rows == RefreshedRows(QueryRows(old(holdings), order, latest))
      ensures forall i :: 0 <= i < |rows| ==> rows[i].stockId == order[i] && rows[i].holding == holdings[order[i]]
    {
      rows := QueryRows(holdings, order, latest);
      ghost var query := rows;
      var i := 0;
      while i < |rows|
        invariant 0 <= i <= |rows| == |order| == |query|
        invariant forall k :: 0 <= k < i ==> rows[k] == query[k].(holding := Refreshed(query[k].holding, query[k].currentPrice))
        invariant forall k :: i <= k < |rows| ==> rows[k] == query[k]
        invariant holdings.Keys == old(holdings).Keys
        invariant forall id :: id in holdings ==>
                    holdings[id] == if id in order[..i] then Refreshed(old(holdings)[id], Lookup(latest, id)) else old(holdings)[id]
        invariant wallet == old(wallet) && transactions == old(transactions) && watchlist == old(watchlist)
      {
        var row := rows[i];
        if Priced(row.currentPrice) {
          var refreshed := Revalue(row.holding, row.currentPrice.value);
          holdings := holdings[row.stockId := refreshed];
          rows := rows[i := row.(holding := refreshed)];
        }
        assert order[..i + 1] == order[..i] + [order[i]];
        i := i + 1;
      }
      assert order[..i] == order;
      forall id | id in order
        ensures id in catalogue
      {
        var k :| 0 <= k < |order| && order[k] == id;
      }
      ghost var expected := RevaluedHoldings(old(holdings), catalogue.Keys, latest);
      forall id | id in holdings
        ensures holdings[id] == expected[id]
      {
        if id in catalogue {
          assert id in order;
        }
      }
    }

    /** `GET /holdings/stats`: the totals over the query's rows, one row per catalogued holding. */
    method Stats(order: seq<StockId>, latest: map<StockId, Money>) returns (stats: PortfolioStats)
      requires Valid()
      requires Covers(holdings, catalogue, order) && Distinct(order)
      ensures stats.totalInvested == Invested(QueryRows(holdings, order, latest))
      ensures stats.totalCurrentValue == MarketValue(QueryRows(holdings, order, latest))
      ensures stats.totalProfitLoss == stats.totalCurrentValue - stats.totalInvested
      ensures stats.totalStocks == |holdings.Keys * catalogue.Keys|
      ensures holdings.Keys * catalogue.Keys != {} ==>
                stats.totalInvested > 0.0
                && stats.totalProfitLossPercent * stats.totalInvested == stats.totalProfitLoss * 100.0
      ensures holdings.Keys * catalogue.Keys == {} ==> stats == PortfolioStats(0.0, 0.0, 0.0, 0.0, 0)
    {
      var rows := QueryRows(holdings, order, latest);
      stats := Totals(rows);
      DistinctCount(order);
      forall id | id in order
        ensures id in holdings && id in catalogue
      {
        var k :| 0 <= k < |order| && order[k] == id;
      }
      assert forall id :: id in holdings && id in catalogue ==> id in order;
      assert holdings.Keys * catalogue.Keys == set id | id in order;
      if holdings.Keys * catalogue.Keys != {} {
        assert order[0] in holdings;
        InvestedPositive(rows);
      }
    }

    /** `POST /watchlist/add` */
    method AddToWatchlist(id: StockId) returns (r: Outcome)
      requires Valid()
      modifies this
      ensures Valid()
      ensures Settled(Watchlist.Add(old(State()), catalogue, id), old(State()), State())
      ensures r == Reply(Watchlist.Add(old(State()), catalogue, id))
    {
      if id !in catalogue {
        return Failure(StockNotFound);
      }
      var name := catalogue[id];
      if id in watchlist {
        return Failure(AlreadyInWatchlist);
      }
      watchlist := watchlist[id := name];
      r := Success;
    }

    /** `DELETE /watchlist/:stock_id`: succeeds whether or not the stock was watched. */
    method RemoveFromWatchlist(id: StockId) returns (r: Outcome)
      requires Valid()
      modifies this
      ensures Valid()
      ensures State() == Watchlist.Remove(old(State()), id)
      ensures r == Success
    {
      watchlist := watchlist - {id};
      r := Success;
    }
  }
}
