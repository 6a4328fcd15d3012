/**
 * The documents of the paper-trading account. An account is identified by its
 * natural key (user, exchange), which the source indexes as unique; an order's
 * or a trade's user and exchange are those of its account. Money and
 * quantities are exact reals.
 */
module Records {
  import opened Wrappers

  datatype Side = Buy | Sell
  datatype OrderKind = Market | Limit
  datatype Status = Pending | Executed | Cancelled | Rejected

  datatype AccountId = AccountId(user: string, exchange: string)
  datatype Account = Account(initialCapital: real, cash: real, realisedPnl: real)

  /** The part of an order fixed when it is placed. */
  datatype Intent = Intent(
    account: AccountId, symbol: string, side: Side, kind: OrderKind, quantity: real,
    limitPrice: Option<real>, stopLoss: Option<real>, clientOrderId: Option<string>)

  datatype Order = Order(intent: Intent, status: Status, executedPrice: Option<real>)

  predicate HasKey(order: Order, user: string, key: string) {
    order.intent.account.user == user && order.intent.clientOrderId == Some(key)
  }

  datatype Trade = Trade(
    order: nat, account: AccountId, symbol: string, side: Side,
    quantity: real, price: real, realisedPnl: real, executedAt: int)

  /** What a trade adds to the cash and to the realised P&L of an account. */
  function TradeCash(k: AccountId): Trade -> real {
    (t: Trade) =>
      if t.account != k then 0.0 else if t.side.Buy? then -(t.price * t.quantity) else t.price * t.quantity
  }

  function TradePnl(k: AccountId): Trade -> real {
    (t: Trade) => if t.account == k then t.realisedPnl else 0.0
  }

  const DEFAULT_CAPITAL := 100000.0

  function OpeningAccount(capital: real): Account {
    Account(capital, capital, 0.0)
  }

  /** An absent or zero limit price is falsy in the source and does not restrict the fill. */
  predicate LimitMet(intent: Intent, ltp: real) {
    intent.kind.Limit? && intent.limitPrice.Some? && intent.limitPrice.value != 0.0 ==>
      if intent.side.Buy? then ltp <= intent.limitPrice.value else ltp >= intent.limitPrice.value
  }
}
