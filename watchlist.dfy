/**
  The watchlist handlers: add a stock of the catalogue once, remove it again.
*/
module Watchlist {
  import opened Types

  /**
    `POST /watchlist/add`: an id that is not in the catalogue is "Stock not
    found", one already watched is "Stock already in watchlist"; otherwise one
    entry carrying the catalogue name is inserted and nothing else changes.
  */
  function Add(s: Ledger, catalogue: map<StockId, string>, id: StockId): (r: Result<Ledger>)
    ensures id !in catalogue ==> r == Err(StockNotFound)
    ensures id in catalogue && id in s.watchlist ==> r == Err(AlreadyInWatchlist)
    ensures r.Ok? <==> id in catalogue && id !in s.watchlist
    ensures r.Ok? ==> r.value.watchlist.Keys == s.watchlist.Keys + {id}
    ensures r.Ok? ==> |r.value.watchlist| == |s.watchlist| + 1
    ensures r.Ok? ==> r.value.watchlist[id] == catalogue[id]
    ensures r.Ok? ==> forall other :: other in s.watchlist ==> r.value.watchlist[other] == s.watchlist[other]
    ensures r.Ok? ==> r.value.wallet == s.wallet && r.value.holdings == s.holdings
                      && r.value.transactions == s.transactions
  {
    if id !in catalogue then Err(StockNotFound)
    else if id in s.watchlist then Err(AlreadyInWatchlist)
    else Ok(s.(watchlist := s.watchlist[id := catalogue[id]]))
  }

  /**
    `DELETE /watchlist/:stock_id`: the entry of `id` is gone afterwards, every
    other entry stays, and removing an entry that is not there changes nothing.
  */
  function Remove(s: Ledger, id: StockId): (r: Ledger)
    ensures id !in r.watchlist
    ensures r.watchlist.Keys == s.watchlist.Keys - {id}
    ensures forall other :: other in r.watchlist ==> r.watchlist[other] == s.watchlist[other]
    ensures id !in s.watchlist ==> r == s
    ensures r.wallet == s.wallet && r.holdings == s.holdings && r.transactions == s.transactions
  {
    s.(watchlist := s.watchlist - {id})
  }

  /** Adding a stock that was not watched and removing it again restores the ledger. */
  lemma AddThenRemoveRestores(s: Ledger, catalogue: map<StockId, string>, id: StockId)
    requires Add(s, catalogue, id).Ok?
    ensures Remove(Add(s, catalogue, id).value, id) == s
  {
    var added := Add(s, catalogue, id).value;
    assert added.watchlist - {id} == s.watchlist;
  }
}
