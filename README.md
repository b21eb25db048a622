# Portfolio ledger

A Dafny model of the ledger behind a single-user stock portfolio web application.
The application keeps one wallet balance, a holdings table keyed by stock id (quantity,
cost basis, current value, profit/loss and its percent), an append-only transaction log
(`buy_sell` 1 for a buy, 0 for a sell), a watchlist keyed by stock id and a read-only stock
catalogue. Its Express handlers deposit and withdraw money, buy and sell stock against the
wallet, revalue the holdings at the latest close prices, total them up, and add or remove
watchlist entries. The same handlers are copied across several files; the model states each
behaviour once and says which copies differ.

Layout:

- `types.dfy` (module `Types`): rows, the ledger state, the state invariant (balance never
  negative, every holding with positive quantity and cost), and `Valued`, the valuation that
  buy, sell and revaluation share.
- `wallet.dfy` (module `Wallet`), `trading.dfy` (module `Trading`), `watchlist.dfy` (module
  `Watchlist`): each handler as a function from the ledger to either an error or the new
  ledger, with its properties.
- `holdings.dfy` (module `Holdings`): the holdings query rows, revaluation, the statistics loop
  and the lemmas relating listing and statistics.
- `store.dfy` (module `Store`): class `Portfolio`, whose fields are the tables and whose
  methods perform each handler's reads and writes in the handler's order. Every method either
  rejects with the state unchanged or makes all of its writes, and its `ensures` ties the new
  state and the reply to the value-level step of the modules above (`Settled`).

Money is `real` (exact) and quantities are `int`. The wallet table is modelled as its row
with id 1, present or absent.

## Model

| member | source | states |
|---|---|---|
| `Types.SideCode` | backend/server.js:198-199 | a buy is logged with `buy_sell` 1 and a sell with 0, and only those |
| `Types.Valued` | backend/server.js:214-216 | the derived fields keep quantity and cost, value is quantity times price, value = cost + profit/loss, and percent times cost = 100 times profit/loss |
| `Wallet.Balance` | routes/wallet.js:8-10 | the reported balance is the wallet row's, 0 when there is no row, and never negative in a valid ledger |
| `Wallet.AddMoney` | backend/controllers/walletController.js:28-42 | a missing or non-positive amount is "Invalid amount"; with no wallet row the handler fails; otherwise it succeeds, the balance grows by exactly the amount and nothing else changes; the invariant is kept |
| `Wallet.WithdrawMoney` | routes/wallet.js:41-56 | an invalid amount is rejected before the balance is read; "Insufficient balance" exactly when balance < amount, so the whole balance can be withdrawn; success lowers the balance by exactly the amount, keeps it non-negative and changes nothing else |
| `Wallet.AddThenWithdrawRestores` | backend/controllers/walletController.js:35-83 | a successful add followed by a withdrawal of the same amount gives back the original ledger |
| `Trading.BoughtHolding` | backend/routes/transactions.js:74-101 | an unheld stock gets {q, q*p, q*p, 0, 0}; a held one adds q to the quantity and q*p to the cost; either way the row is valued at the trade price and stays well formed |
| `Trading.SoldHolding` | backend/routes/transactions.js:164-186 | the holding is deleted exactly when all of it is sold; otherwise quantity drops by q, the row stays well formed (so the divisions are defined) and is valued at the trade price |
| `Trading.SellKeepsAverageCost` | backend/routes/transactions.js:172-173 | a partial sell leaves the cost per share unchanged |
| `Trading.ExecuteBuy` | backend/server.js:183-236 | no wallet row fails; "Insufficient balance" exactly when balance < q*p; on success the wallet row holds exactly the old balance minus q*p, exactly one buy transaction (`buy_sell` 1) with total q*p is appended, only the holding of that stock is written, the watchlist is untouched and the invariant is kept |
| `Trading.ExecuteSell` | backend/server.js:256-301 | "Insufficient holdings" exactly when the stock is not held or fewer shares are held; on success one sell transaction (`buy_sell` 0) is appended, the wallet (if its row exists) grows by q*p, the holding is gone exactly when sold out and otherwise keeps its average cost, other holdings are untouched and the invariant is kept |
| `Trading.ExecuteBuyChecked` | backend/routes/transactions.js:35-57 | a missing field, a zero stock id or a non-positive quantity or price is "Invalid input parameters" before anything else; valid input trades as the unchecked buy |
| `Trading.ExecuteSellChecked` | backend/routes/transactions.js:128-149 | the same input check in front of the sell; valid input trades as the unchecked sell |
| `Trading.BuyThenSellRestores` | backend/routes/transactions.js:69-169 | buying q at p of an unheld stock and selling q at p restores the wallet and holdings and logs both trades |
| `Trading.WorkedExample` | backend/routes/transactions.js:94-176 | 1000, buy 10 at 50 gives 500 and {10, 500}; sell 4 at 60 gives 740 and {6, 300, 360, 60, 20} |
| `Watchlist.Add` | routes/watchlist.js:31-46 | an unknown stock is "Stock not found", a watched one "Stock already in watchlist", both exactly; success adds exactly one entry, carrying the catalogue name, and keeps every other entry and table |
| `Watchlist.Remove` | routes/watchlist.js:58-59 | the entry is gone, no other entry changes, and removing an absent entry changes nothing |
| `Watchlist.AddThenRemoveRestores` | routes/watchlist.js:44-58 | adding an unwatched stock and removing it again restores the ledger |
| `Holdings.QueryRows` | routes/holdings.js:8-16 | one row per listed stock id, in the query's order, with its stored holding and its latest price (absent when the stock has none) |
| `Holdings.Revalue` | routes/holdings.js:21-33 | the UPDATE writes only value, profit/loss and percent, leaving quantity and cost, and the result is the holding valued at the latest price |
| `Holdings.RevaluedHoldings` | routes/holdings.js:19-40 | after the listing the table has the same stocks with the same quantity and cost; a holding that is not listed (its stock is not in the catalogue) or has no truthy price is unchanged; a listed, priced one is valued at its latest price |
| `Holdings.RevaluationIdempotent` | routes/holdings.js:21-23 | with the prices fixed, a second listing changes nothing |
| `Holdings.RefreshedRows` | routes/holdings.js:35-42 | the returned rows are the query's rows in the same order, each holding refreshed in place |
| `Holdings.ListingNotResorted` | routes/holdings.js:15-42 | rows ordered by the stored percent can come back out of percent order after the refresh, because the loop does not sort again |
| `Holdings.Totals` | routes/holdings.js:61-81 | totalInvested is the cost of every row, totalCurrentValue the value of the priced rows only, profit/loss their difference, the percent is profit/loss over invested times 100 when invested > 0 and 0 otherwise, and totalStocks the row count |
| `Holdings.InvestedPositive` | routes/holdings.js:74 | with at least one well-formed holding the invested total is positive, so the percent branch is taken |
| `Holdings.RefreshKeepsInvested` | routes/holdings.js:19-40 | refreshing the rows never changes the invested total |
| `Holdings.StatsAgreeWithListing` | backend/server.js:328-378 | when every holding is priced, the statistics' current value is the sum of the refreshed listing's value column |
| `Holdings.DistinctCount` | routes/holdings.js:81 | a duplicate-free sequence of stock ids holds exactly as many distinct ids as it has entries, which is how the statistics' `totalStocks` (the row count) becomes a count of holdings |
| `Store.Portfolio.GetBalance` | backend/controllers/walletController.js:5-13 | the reported balance is `Wallet.Balance` of the state, never negative |
| `Store.Portfolio.AddMoney` | backend/server.js:110-129 | updates the wallet in place as `Wallet.AddMoney` says, or leaves the store unchanged on rejection, and replies with the new balance or the error |
| `Store.Portfolio.WithdrawMoney` | backend/server.js:132-158 | updates the wallet in place as `Wallet.WithdrawMoney` says, or leaves the store unchanged, and replies with the new balance or the error |
| `Store.Portfolio.BuyStock` | backend/server.js:177-247 | appends the transaction, debits the wallet and upserts the holding as `Trading.ExecuteBuy` says, or rolls back with the store unchanged; keeps the invariant |
| `Store.Portfolio.SellStock` | backend/server.js:250-312 | appends the transaction, credits the wallet and deletes or rescales the holding as `Trading.ExecuteSell` says, or rolls back with the store unchanged; keeps the invariant |
| `Store.Portfolio.BuyStockValidated` | backend/routes/transactions.js:29-119 | checks the input, then buys; the store follows `Trading.ExecuteBuyChecked` |
| `Store.Portfolio.SellStockValidated` | backend/routes/transactions.js:122-204 | checks the input, then sells; the store follows `Trading.ExecuteSellChecked` |
| `Store.Portfolio.ListHoldings` | backend/server.js:315-354 | the revaluation loop leaves the table as `RevaluedHoldings` over the catalogued stocks (a holding outside the catalogue is neither listed nor revalued), touches no other table, and returns the query's rows in query order, each equal to the stored row after the refresh |
| `Store.Portfolio.Stats` | backend/server.js:357-394 | the totals over the query's rows; totalStocks is the number of holdings whose stock is in the catalogue; with any such holding the invested total is positive and the percent is profit/loss over invested times 100; with none every total is 0 |
| `Store.Portfolio.AddToWatchlist` | backend/server.js:417-437 | inserts the entry as `Watchlist.Add` says, or leaves the store unchanged |
| `Store.Portfolio.RemoveFromWatchlist` | backend/server.js:440-449 | deletes the entry as `Watchlist.Remove` says and always reports success |

## Behaviour worth knowing

- The listing returns the rows in the order of the query (`ORDER BY profit_loss_percent DESC`
  on the stored values) and does not sort again after recomputing, so the response is not
  necessarily in descending percent (`Holdings.ListingNotResorted`).
- Buy and sell in the monolithic server book profit/loss at the trade price; the listing
  books it at the latest close price. Both valuations are kept as the code has them.
- Neither copy of buy or sell checks that the stock id is in the catalogue; only the watchlist
  does. A holding bought for a stock outside the catalogue is then invisible to the listing and
  the statistics, whose queries inner-join the catalogue: it is neither revalued nor counted in
  `totalStocks` or the totals.
- Reading the balance with no wallet row reports 0, while add, withdraw and buy then fail with
  a server error and write nothing. Sell never reads the wallet, so it succeeds and its wallet
  update touches no row.

## Left out

- Database transactions, locks, connection pools and concurrency: each handler is one atomic
  step on the model's state.
- Failures of the store in the middle of a handler (a 500 followed by a rollback); the only
  failure modelled is reading a wallet row that does not exist.
- JavaScript numbers and mysql2 type coercion: money is exact. DECIMAL columns that arrive as
  strings would make `+` concatenate in the buy's cost update; the model adds numbers.
- Fractional quantities and request fields of the wrong type; quantities are integers.
- A missing `stock_id` in the monolithic server's handlers and in the watchlist handlers
  (the query driver rejects an undefined parameter); the model takes a stock id there.
- Store.Portfolio.BuyStock: requires a positive quantity and price, because the monolithic
  server's handler does not check them and relies on its caller (frontend/js/app.js:528-536)
  to do so.
- Store.Portfolio.SellStock: requires a positive quantity and price, for the same reason.
- The SQL behind the queries: the `ORDER BY` and the `MAX(date)` join for the latest price.
  The query's stock ids (`order`, required to list every catalogued holding once and nothing
  else, which is what the inner join with the catalogue returns) and the latest prices
  (`latest`) are inputs.
- Wallet rows other than id 1 (the balance read uses `LIMIT 1`); transaction ids and dates;
  watchlist row ids and `added_at`.
- Response bodies beyond the balance and the error kind (success flags, messages, status codes).
- Stock, stock detail, transaction and watchlist listings, the browser code and the currency
  and percent formatting.
