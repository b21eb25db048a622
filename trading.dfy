/**
  The buy and sell handlers. Each validates, appends one transaction row, moves
  money in the wallet and then inserts, updates or deletes the holding of the
  traded stock, all in one database transaction: it either fails with nothing
  written or makes every write. The monolithic server's copy trusts its caller to
  send a positive quantity and price; the transactions router's copy checks them.
*/
module Trading {
  import opened Types
  import Wallet

  /** Cost basis per share, by which a partial sell scales the remaining cost. */
  function AverageCost(h: Holding): Money
    requires h.quantity != 0
  {
    h.totalPriceBought / h.quantity as real
  }

  /**
    The holding after buying `quantity` at `price`: a new row when the stock was
    not held, otherwise quantity and cost basis grow, and value, profit/loss and
    percent are recomputed at the trade price.
  */
  function BoughtHolding(existing: Option<Holding>, quantity: int, price: Money): (h: Holding)
    requires quantity > 0 && price > 0.0
    requires existing.Some? ==> WellFormed(existing.value)
    ensures WellFormed(h)
    ensures existing.None? ==> h == Holding(quantity, Cost(quantity, price), Cost(quantity, price), 0.0, 0.0)
    ensures existing.Some? ==> h.quantity == existing.value.quantity + quantity
    ensures existing.Some? ==> h.totalPriceBought == existing.value.totalPriceBought + Cost(quantity, price)
    ensures h == Valued(h.quantity, h.totalPriceBought, price)
  {
    match existing
    case None =>
      var total := Cost(quantity, price);
      Holding(quantity, total, total, 0.0, 0.0)
    case Some(held) =>
      Valued(held.quantity + quantity, held.totalPriceBought + Cost(quantity, price), price)
  }

  /**
    The holding after selling `quantity` of it at `price`: gone when nothing is
    left, otherwise the remaining shares keep their average cost and are valued
    at the trade price.
  */
  function SoldHolding(held: Holding, quantity: int, price: Money): (r: Option<Holding>)
    requires WellFormed(held) && 0 < quantity <= held.quantity
    ensures r.None? <==> quantity == held.quantity
    ensures r.Some? ==> WellFormed(r.value) && r.value.quantity == held.quantity - quantity
    ensures r.Some? ==> r.value == Valued(r.value.quantity, r.value.totalPriceBought, price)
  {
    var newQuantity := held.quantity - quantity;
    if newQuantity == 0 then None
    else
      var newTotalPriceBought := newQuantity as real * AverageCost(held);
      Some(Valued(newQuantity, newTotalPriceBought, price))
  }

  /** A partial sell leaves the cost per share unchanged. */
  lemma SellKeepsAverageCost(held: Holding, quantity: int, price: Money)
    requires WellFormed(held) && 0 < quantity < held.quantity
    ensures SoldHolding(held, quantity, price).Some?
    ensures AverageCost(SoldHolding(held, quantity, price).value) == AverageCost(held)
  {
    var left := (held.quantity - quantity) as real;
    var avg := AverageCost(held);
    var r := SoldHolding(held, quantity, price).value;
    assert r.totalPriceBought == left * avg;
    assert r.quantity as real == left;
    assert (left * avg) / left == avg;
  }

  /** Either write the new holding or delete the row. */
  function WriteHolding(holdings: map<StockId, Holding>, id: StockId, h: Option<Holding>): map<StockId, Holding> {
    if h.Some? then holdings[id := h.value] else holdings - {id}
  }

  /** A wallet UPDATE by a delta: it touches no row when there is none. */
  function Credit(wallet: Option<Money>, delta: Money): Option<Money> {
    if wallet.Some? then Some(wallet.value + delta) else None
  }

  /**
    `POST /api/transactions/buy` of the monolithic server: reading a missing wallet
    row throws, a balance below quantity * price is rejected, otherwise one buy
    transaction is appended, the wallet is debited and only the holding of
    `id` is written.
  */
  function ExecuteBuy(s: Ledger, id: StockId, quantity: int, price: Money): (r: Result<Ledger>)
    requires Invariant(s)
    requires quantity > 0 && price > 0.0
    ensures s.wallet.None? ==> r == Err(InternalError)
    ensures s.wallet.Some? ==> (r == Err(InsufficientBalance) <==> s.wallet.value < Cost(quantity, price))
    ensures r.Ok? <==> s.wallet.Some? && Cost(quantity, price) <= s.wallet.value
    ensures r.Ok? ==> Invariant(r.value)
    ensures r.Ok? ==> r.value.wallet == Some(s.wallet.value - Cost(quantity, price))
    ensures r.Ok? ==> Wallet.Balance(r.value) == Wallet.Balance(s) - Cost(quantity, price)
    ensures r.Ok? ==> r.value.transactions == s.transactions + [Transaction(id, price, quantity, Cost(quantity, price), SideCode(Buy))]
    ensures r.Ok? ==> r.value.transactions[|s.transactions|].buySell == 1
    ensures r.Ok? ==> id in r.value.holdings && r.value.holdings[id] == BoughtHolding(Lookup(s.holdings, id), quantity, price)
    ensures r.Ok? ==> r.value.holdings - {id} == s.holdings - {id}
    ensures r.Ok? ==> r.value.watchlist == s.watchlist
  {
    var total := Cost(quantity, price);
    if s.wallet.None? then Err(InternalError)
    else if s.wallet.value < total then Err(InsufficientBalance)
    else
      Ok(Ledger(
        Some(s.wallet.value - total),
        s.holdings[id := BoughtHolding(Lookup(s.holdings, id), quantity, price)],
        s.transactions + [Transaction(id, price, quantity, total, SideCode(Buy))],
        s.watchlist))
  }

  /**
    `POST /api/transactions/sell` of the monolithic server: rejected when the stock
    is not held or fewer shares are held than asked; otherwise one sell transaction
    is appended, the wallet (if its row exists) is credited, and the holding is
    deleted when sold out or rescaled at its average cost.
  */
  function ExecuteSell(s: Ledger, id: StockId, quantity: int, price: Money): (r: Result<Ledger>)
    requires Invariant(s)
    requires quantity > 0 && price > 0.0
    ensures r.Err? <==> id !in s.holdings || s.holdings[id].quantity < quantity
    ensures r.Err? ==> r.error == InsufficientHoldings
    ensures r.Ok? ==> Invariant(r.value)
    ensures r.Ok? ==> r.value.wallet == Credit(s.wallet, Cost(quantity, price))
    ensures r.Ok? && s.wallet.Some? ==> Wallet.Balance(r.value) == Wallet.Balance(s) + Cost(quantity, price)
    ensures r.Ok? ==> r.value.transactions == s.transactions + [Transaction(id, price, quantity, Cost(quantity, price), SideCode(Sell))]
    ensures r.Ok? ==> r.value.transactions[|s.transactions|].buySell == 0
    ensures r.Ok? ==> (id in r.value.holdings <==> s.holdings[id].quantity > quantity)
    ensures r.Ok? && id in r.value.holdings ==>
              r.value.holdings[id].quantity == s.holdings[id].quantity - quantity
              && AverageCost(r.value.holdings[id]) == AverageCost(s.holdings[id])
              && r.value.holdings[id] == Valued(r.value.holdings[id].quantity, r.value.holdings[id].totalPriceBought, price)
    ensures r.Ok? ==> r.value.holdings - {id} == s.holdings - {id}
    ensures r.Ok? ==> r.value.watchlist == s.watchlist
  {
    if id !in s.holdings || s.holdings[id].quantity < quantity then Err(InsufficientHoldings)
    else
      var held := s.holdings[id];
      var total := Cost(quantity, price);
      var sold := SoldHolding(held, quantity, price);
      assert sold.Some? ==> AverageCost(sold.value) == AverageCost(held) by {
        if sold.Some? { SellKeepsAverageCost(held, quantity, price); }
      }
      Ok(Ledger(
        Credit(s.wallet, total),
        WriteHolding(s.holdings, id, sold),
        s.transactions + [Transaction(id, price, quantity, total, SideCode(Sell))],
        s.watchlist))
  }

  /**
    `!stock_id || !quantity || !price || quantity <= 0 || price <= 0`, the
    transactions router's check: every field present, a nonzero stock id, and a
    positive quantity and price.
  */
  predicate ValidTradeInput(id: Option<StockId>, quantity: Option<int>, price: Option<Money>) {
    && id.Some? && id.value != 0
    && quantity.Some? && quantity.value > 0
    && price.Some? && price.value > 0.0
  }

  /** The transactions router's `/buy`: invalid input is rejected before anything is read or written. */
  function ExecuteBuyChecked(s: Ledger, id: Option<StockId>, quantity: Option<int>, price: Option<Money>): (r: Result<Ledger>)
    requires Invariant(s)
    ensures !ValidTradeInput(id, quantity, price) ==> r == Err(InvalidInput)
    ensures ValidTradeInput(id, quantity, price) ==> r == ExecuteBuy(s, id.value, quantity.value, price.value)
    ensures r.Ok? ==> Invariant(r.value) && |r.value.transactions| == |s.transactions| + 1
  {
    if !ValidTradeInput(id, quantity, price) then Err(InvalidInput)
    else ExecuteBuy(s, id.value, quantity.value, price.value)
  }

  /** The transactions router's `/sell`: invalid input is rejected before the holding is read. */
  function ExecuteSellChecked(s: Ledger, id: Option<StockId>, quantity: Option<int>, price: Option<Money>): (r: Result<Ledger>)
    requires Invariant(s)
    ensures !ValidTradeInput(id, quantity, price) ==> r == Err(InvalidInput)
    ensures ValidTradeInput(id, quantity, price) ==> r == ExecuteSell(s, id.value, quantity.value, price.value)
    ensures r.Ok? ==> Invariant(r.value) && |r.value.transactions| == |s.transactions| + 1
  {
    if !ValidTradeInput(id, quantity, price) then Err(InvalidInput)
    else ExecuteSell(s, id.value, quantity.value, price.value)
  }

  /**
    Buying shares of a stock that was not held and selling the same shares at the
    same price restores the wallet and the holdings; the log keeps both trades.
  */
  lemma BuyThenSellRestores(s: Ledger, id: StockId, quantity: int, price: Money)
    requires Invariant(s) && quantity > 0 && price > 0.0
    requires id !in s.holdings
    requires ExecuteBuy(s, id, quantity, price).Ok?
    ensures var bought := ExecuteBuy(s, id, quantity, price).value;
            var sold := ExecuteSell(bought, id, quantity, price);
            && sold.Ok?
            && sold.value.wallet == s.wallet
            && sold.value.holdings == s.holdings
            && sold.value.watchlist == s.watchlist
            && sold.value.transactions == s.transactions + [
                 Transaction(id, price, quantity, Cost(quantity, price), SideCode(Buy)),
                 Transaction(id, price, quantity, Cost(quantity, price), SideCode(Sell))]
  {
    var bought := ExecuteBuy(s, id, quantity, price).value;
    assert bought.holdings[id].quantity == quantity;
    var sold := ExecuteSell(bought, id, quantity, price);
    assert sold.value.holdings == s.holdings[id := bought.holdings[id]] - {id};
    assert s.holdings[id := bought.holdings[id]] - {id} == s.holdings;
  }

  /**
    The worked example: 1000 in the wallet, buy 10 at 50 leaves 500 and a holding
    of 10 costing 500; selling 4 at 60 gives 740 and a holding of 6 costing 300,
    worth 360, a profit of 60 or 20 percent.
  */
  lemma WorkedExample(id: StockId)
    ensures var s0 := Ledger(Some(1000.0), map[], [], map[]);
            var s1 := ExecuteBuy(s0, id, 10, 50.0);
            && s1.Ok?
            && s1.value.wallet == Some(500.0)
            && s1.value.holdings == map[id := Holding(10, 500.0, 500.0, 0.0, 0.0)]
            && var s2 := ExecuteSell(s1.value, id, 4, 60.0);
            && s2.Ok?
            && s2.value.wallet == Some(740.0)
            && s2.value.holdings == map[id := Holding(6, 300.0, 360.0, 60.0, 20.0)]
  {
    var s0 := Ledger(Some(1000.0), map[], [], map[]);
    var s1 := ExecuteBuy(s0, id, 10, 50.0).value;
    assert s1.holdings == map[id := Holding(10, 500.0, 500.0, 0.0, 0.0)];
    var held := s1.holdings[id];
    assert AverageCost(held) == 50.0;
    assert SoldHolding(held, 4, 60.0) == Some(Holding(6, 300.0, 360.0, 60.0, 20.0));
  }
}
