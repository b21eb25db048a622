/**
  The wallet handlers: read the balance, add money, withdraw money. The three
  copies in the repository (the monolithic server, the wallet controller and the
  wallet router) share one logic, stated here once on the ledger's values.
*/
module Wallet {
  import opened Types

  /** The balance reported by `GET /wallet`: that of the wallet row, 0 when there is none. */
  function Balance(s: Ledger): (b: Money)
    ensures s.wallet.None? ==> b == 0.0
    ensures s.wallet.Some? ==> b == s.wallet.value
    ensures Invariant(s) ==> b >= 0.0
  {
    if s.wallet.Some? then s.wallet.value else 0.0
  }

  /** `!amount || amount <= 0`: a missing, zero or negative amount. */
  predicate InvalidAmountGiven(amount: Option<Money>) {
    amount.None? || amount.value <= 0.0
  }

  /**
    `POST /wallet/add`: rejects an invalid amount; with no wallet row the UPDATE
    touches nothing and reading the new balance throws; otherwise the balance
    grows by exactly the amount and nothing else changes.
  */
  function AddMoney(s: Ledger, amount: Option<Money>): (r: Result<Ledger>)
    ensures InvalidAmountGiven(amount) ==> r == Err(InvalidAmount)
    ensures !InvalidAmountGiven(amount) && s.wallet.None? ==> r == Err(InternalError)
    ensures r.Ok? <==> !InvalidAmountGiven(amount) && s.wallet.Some?
    ensures r.Ok? ==> Balance(r.value) == Balance(s) + amount.value
    ensures r.Ok? ==> r.value.holdings == s.holdings && r.value.transactions == s.transactions
                      && r.value.watchlist == s.watchlist && r.value.wallet.Some?
    ensures r.Ok? && Invariant(s) ==> Invariant(r.value)
  {
    if InvalidAmountGiven(amount) then Err(InvalidAmount)
    else if s.wallet.None? then Err(InternalError)
    else Ok(s.(wallet := Some(s.wallet.value + amount.value)))
  }

  /**
    `POST /wallet/withdraw`: rejects an invalid amount before reading the balance,
    then a balance below the amount; withdrawing the whole balance is allowed.
  */
  function WithdrawMoney(s: Ledger, amount: Option<Money>): (r: Result<Ledger>)
    ensures InvalidAmountGiven(amount) ==> r == Err(InvalidAmount)
    ensures !InvalidAmountGiven(amount) && s.wallet.None? ==> r == Err(InternalError)
    ensures !InvalidAmountGiven(amount) && s.wallet.Some? ==>
              (r == Err(InsufficientBalance) <==> s.wallet.value < amount.value)
    ensures r.Ok? <==> !InvalidAmountGiven(amount) && s.wallet.Some? && amount.value <= s.wallet.value
    ensures r.Ok? ==> Balance(r.value) == Balance(s) - amount.value
    ensures r.Ok? ==> r.value.holdings == s.holdings && r.value.transactions == s.transactions
                      && r.value.watchlist == s.watchlist && r.value.wallet.Some?
    ensures r.Ok? && Invariant(s) ==> Invariant(r.value)
  {
    if InvalidAmountGiven(amount) then Err(InvalidAmount)
    else if s.wallet.None? then Err(InternalError)
    else if s.wallet.value < amount.value then Err(InsufficientBalance)
    else Ok(s.(wallet := Some(s.wallet.value - amount.value)))
  }

  /** A successful add followed by a withdrawal of the same amount restores the ledger. */
  lemma AddThenWithdrawRestores(s: Ledger, amount: Money)
    requires Invariant(s) && AddMoney(s, Some(amount)).Ok?
    ensures WithdrawMoney(AddMoney(s, Some(amount)).value, Some(amount)) == Ok(s)
  {
    var s1 := AddMoney(s, Some(amount)).value;
    assert s1.wallet.value - amount == s.wallet.value;
  }
}
