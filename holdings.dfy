/**
  Holdings listing and portfolio statistics. Both read the holdings joined with
  the latest close price of each stock (NULL when the stock has no price). The
  listing refreshes value, profit/loss and percent of every row whose price is
  truthy, in the store and in the returned rows; the statistics add the rows up.
*/
module Holdings {
  import opened Types

  /** One row of the holdings query: the stored holding and the latest close price of its stock. */
  datatype Row = Row(stockId: StockId, holding: Holding, currentPrice: Option<Money>)

  /** The response of `GET /holdings/stats`. */
  datatype PortfolioStats = PortfolioStats(
    totalInvested: Money,
    totalCurrentValue: Money,
    totalProfitLoss: Money,
    totalProfitLossPercent: real,
    totalStocks: nat)

  /** `if (holding.current_price)`: a price that is there and is not 0. */
  predicate Priced(price: Option<Money>) {
    price.Some? && price.value != 0.0
  }

  /** No stored holding has a zero cost basis, so a revaluation can divide by it. */
  predicate NonzeroCosts(holdings: map<StockId, Holding>) {
    forall id :: id in holdings ==> holdings[id].totalPriceBought != 0.0
  }

  predicate Distinct(order: seq<StockId>) {
    forall i, j :: 0 <= i < j < |order| ==> order[i] != order[j]
  }

  /**
    The query (holdings inner-joined with the catalogue) returns a row for every
    holding whose stock is in the catalogue and for nothing else.
  */
  predicate Covers(holdings: map<StockId, Holding>, catalogue: map<StockId, string>, order: seq<StockId>) {
    && (forall i :: 0 <= i < |order| ==> order[i] in holdings && order[i] in catalogue)
    && (forall id :: id in holdings && id in catalogue ==> id in order)
  }

  /** The rows the holdings query returns, in the order it returns the stock ids. */
  function QueryRows(holdings: map<StockId, Holding>, order: seq<StockId>, latest: map<StockId, Money>): (rows: seq<Row>)
    requires forall i :: 0 <= i < |order| ==> order[i] in holdings
    ensures |rows| == |order|
    ensures forall i :: 0 <= i < |order| ==> rows[i] == Row(order[i], holdings[order[i]], Lookup(latest, order[i]))
  {
    seq(|order|, i requires 0 <= i < |order| => Row(order[i], holdings[order[i]], Lookup(latest, order[i])))
  }

  /** `ORDER BY h.profit_loss_percent DESC` */
  predicate DescendingByPercent(rows: seq<Row>) {
    forall i, j :: 0 <= i < j < |rows| ==> rows[i].holding.profitLossPercent >= rows[j].holding.profitLossPercent
  }

  /**
    The UPDATE of one holding at `price`: it writes value, profit/loss and
    percent only, and the row it leaves is the holding valued at that price.
  */
  function Revalue(h: Holding, price: Money): (r: Holding)
    requires h.totalPriceBought != 0.0
    ensures r.quantity == h.quantity && r.totalPriceBought == h.totalPriceBought
    ensures r == Valued(h.quantity, h.totalPriceBought, price)
  {
    var v := Valued(h.quantity, h.totalPriceBought, price);
    h.(totalCurrentValue := v.totalCurrentValue, profitLoss := v.profitLoss, profitLossPercent := v.profitLossPercent)
  }

  /** A holding after the listing has seen it: revalued when its price is truthy, untouched otherwise. */
  function Refreshed(h: Holding, price: Option<Money>): Holding
    requires h.totalPriceBought != 0.0
  {
    if Priced(price) then Revalue(h, price.value) else h
  }

  /**
    The table after the listing: only value, profit/loss and percent of the listed
    (catalogued) holdings with a truthy price change; the others are untouched.
  */
  function RevaluedHoldings(holdings: map<StockId, Holding>, listed: set<StockId>, latest: map<StockId, Money>): (r: map<StockId, Holding>)
    requires NonzeroCosts(holdings)
    ensures r.Keys == holdings.Keys
    ensures forall id :: id in r ==>
              r[id].quantity == holdings[id].quantity && r[id].totalPriceBought == holdings[id].totalPriceBought
    ensures forall id :: id in r && (id !in listed || !Priced(Lookup(latest, id))) ==> r[id] == holdings[id]
    ensures forall id :: id in r && id in listed && Priced(Lookup(latest, id)) ==>
              r[id] == Valued(holdings[id].quantity, holdings[id].totalPriceBought, latest[id])
  {
    map id | id in holdings :: if id in listed then Refreshed(holdings[id], Lookup(latest, id)) else holdings[id]
  }

  /** With the prices fixed, listing the holdings a second time changes nothing more. */
  lemma RevaluationIdempotent(holdings: map<StockId, Holding>, listed: set<StockId>, latest: map<StockId, Money>)
    requires NonzeroCosts(holdings)
    ensures NonzeroCosts(RevaluedHoldings(holdings, listed, latest))
    ensures RevaluedHoldings(RevaluedHoldings(holdings, listed, latest), listed, latest) == RevaluedHoldings(holdings, listed, latest)
  {
    var once := RevaluedHoldings(holdings, listed, latest);
    var twice := RevaluedHoldings(once, listed, latest);
    forall id | id in twice
      ensures twice[id] == once[id]
    {
      var p := Lookup(latest, id);
      if id in listed && Priced(p) {
        assert once[id] == Revalue(holdings[id], p.value);
      }
    }
  }

  /** The returned rows: the query's rows, each refreshed in place. */
  function RefreshedRows(rows: seq<Row>): (r: seq<Row>)
    requires forall i :: 0 <= i < |rows| ==> rows[i].holding.totalPriceBought != 0.0
    ensures |r| == |rows|
    ensures forall i :: 0 <= i < |rows| ==>
              r[i].stockId == rows[i].stockId && r[i].currentPrice == rows[i].currentPrice
              && r[i].holding == Refreshed(rows[i].holding, rows[i].currentPrice)
  {
    seq(|rows|, i requires 0 <= i < |rows| => rows[i].(holding := Refreshed(rows[i].holding, rows[i].currentPrice)))
  }

  /**
    The listing is returned in the query's order, which sorts by the stored
    percent; it is not sorted again after the refresh, so a refreshed listing
    need not be in descending percent.
  */
  lemma ListingNotResorted()
    ensures var rows := [Row(1, Holding(1, 10.0, 15.0, 5.0, 50.0), Some(5.0)),
                         Row(2, Holding(1, 10.0, 10.0, 0.0, 0.0), Some(10.0))];
            DescendingByPercent(rows) && !DescendingByPercent(RefreshedRows(rows))
  {
    var rows := [Row(1, Holding(1, 10.0, 15.0, 5.0, 50.0), Some(5.0)),
                 Row(2, Holding(1, 10.0, 10.0, 0.0, 0.0), Some(10.0))];
    var out := RefreshedRows(rows);
    assert out[0].holding.profitLossPercent == -50.0;
    assert out[1].holding.profitLossPercent == 0.0;
  }

  /** `totalInvested`: the cost basis of every row. */
  function Invested(rows: seq<Row>): Money {
    if rows == [] then 0.0
    else Invested(rows[..|rows| - 1]) + rows[|rows| - 1].holding.totalPriceBought
  }

  /** What one row adds to `totalCurrentValue`: quantity times its price when the price is truthy. */
  function RowMarketValue(row: Row): Money {
    if Priced(row.currentPrice) then Cost(row.holding.quantity, row.currentPrice.value) else 0.0
  }

  /** `totalCurrentValue`: the market value of the priced rows only. */
  function MarketValue(rows: seq<Row>): Money {
    if rows == [] then 0.0
    else MarketValue(rows[..|rows| - 1]) + RowMarketValue(rows[|rows| - 1])
  }

  /** The sum of the value column of the rows. */
  function ListedValue(rows: seq<Row>): Money {
    if rows == [] then 0.0
    else ListedValue(rows[..|rows| - 1]) + rows[|rows| - 1].holding.totalCurrentValue
  }

  /**
    `GET /holdings/stats`: accumulate the invested total and the market value over
    the rows, then profit/loss, and the percent only when something is invested.
  */
  method Totals(rows: seq<Row>) returns (stats: PortfolioStats)
    ensures stats.totalInvested == Invested(rows)
    ensures stats.totalCurrentValue == MarketValue(rows)
    ensures stats.totalProfitLoss == stats.totalCurrentValue - stats.totalInvested
    ensures stats.totalInvested > 0.0 ==> stats.totalProfitLossPercent * stats.totalInvested == stats.totalProfitLoss * 100.0
    ensures stats.totalInvested <= 0.0 ==> stats.totalProfitLossPercent == 0.0
    ensures stats.totalStocks == |rows|
  {
    var totalInvested := 0.0;
    var totalCurrentValue := 0.0;
    var i := 0;
    while i < |rows|
      invariant 0 <= i <= |rows|
      invariant totalInvested == Invested(rows[..i])
      invariant totalCurrentValue == MarketValue(rows[..i])
    {
      assert rows[..i + 1][..i] == rows[..i];
      var holding := rows[i].holding;
      totalInvested := totalInvested + holding.totalPriceBought;
      if Priced(rows[i].currentPrice) {
        totalCurrentValue := totalCurrentValue + Cost(holding.quantity, rows[i].currentPrice.value);
      }
      i := i + 1;
    }
    assert rows[..i] == rows;
    var totalProfitLoss := totalCurrentValue - totalInvested;
    var totalProfitLossPercent := if totalInvested > 0.0 then totalProfitLoss / totalInvested * 100.0 else 0.0;
    stats := PortfolioStats(totalInvested, totalCurrentValue, totalProfitLoss, totalProfitLossPercent, |rows|);
  }

  /** Rows of well-formed holdings always have something invested. */
  lemma {:induction false} InvestedPositive(rows: seq<Row>)
    requires rows != []
    requires forall i :: 0 <= i < |rows| ==> WellFormed(rows[i].holding)
    ensures Invested(rows) > 0.0
  {
    var init := rows[..|rows| - 1];
    if init != [] {
      InvestedPositive(init);
    }
  }

  /** Refreshing the rows never changes the invested total. */
  lemma {:induction false} RefreshKeepsInvested(rows: seq<Row>)
    requires forall i :: 0 <= i < |rows| ==> rows[i].holding.totalPriceBought != 0.0
    ensures Invested(RefreshedRows(rows)) == Invested(rows)
  {
    if rows != [] {
      var init := rows[..|rows| - 1];
      RefreshKeepsInvested(init);
      assert RefreshedRows(rows)[..|rows| - 1] == RefreshedRows(init);
    }
  }

  /**
    When every row is priced, the statistics agree with the listing: the market
    value is the sum of the refreshed value column.
  */
  lemma {:induction false} StatsAgreeWithListing(rows: seq<Row>)
    requires forall i :: 0 <= i < |rows| ==> rows[i].holding.totalPriceBought != 0.0
    requires forall i :: 0 <= i < |rows| ==> Priced(rows[i].currentPrice)
    ensures MarketValue(rows) == ListedValue(RefreshedRows(rows))
  {
    if rows != [] {
      var init := rows[..|rows| - 1];
      StatsAgreeWithListing(init);
      assert RefreshedRows(rows)[..|rows| - 1] == RefreshedRows(init);
    }
  }

  /** A duplicate-free sequence of stock ids has as many distinct ids as entries. */
  lemma {:induction false} DistinctCount(order: seq<StockId>)
    requires Distinct(order)
    ensures |(set id | id in order)| == |order|
  {
    if order != [] {
      var init := order[..|order| - 1];
      var last := order[|order| - 1];
      DistinctCount(init);
      assert (set id | id in order) == (set id | id in init) + {last};
      assert last !in (set id | id in init);
    }
  }
}
