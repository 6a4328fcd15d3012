/**
 * The paper account's four collections, and what executing an order does to
 * them: the net effect of one sequential run, for every reply of the market
 * and every operation that may fail.
 */
module Ledger {
  import opened Wrappers
  import opened Records

  /** A position's exchange is its account's. */
  datatype Position = Position(
    account: AccountId, symbol: string, quantity: real, averageCost: real,
    currentPrice: real, unrealisedPnl: real, stopLoss: Option<real>)

  datatype Book = Book(
    accounts: map<AccountId, Account>, positions: seq<Position>,
    orders: map<nat, Order>, nextOrder: nat, trades: seq<Trade>)

  const EMPTY_BOOK := Book(map[], [], map[], 0, [])

  /** The operation of one execution that fails, if any; `restored` says whether its compensation applied. */
  datatype Fault =
    | NoFault
    | AtRead
    | AtCash
    | AtRejection
    | AtPosition(restored: bool)
    | AtTrade(restored: bool)
    | AtSave
    | AtPublish

  datatype Refusal =
    | OperationFailed
    | OrderNotFound
    | NotPending
    | AccountNotFound
    | NoPrice
    | LimitNotReached
    | InsufficientCash
    | InsufficientQuantity
    | RiskLimit

  datatype Outcome =
    | Filled(order: nat, trade: Trade)
    | Resting(order: nat)
    | Repeated(order: nat)
    | Threw(why: Refusal)

  // ---- Positions ----

  predicate IsFor(p: Position, k: AccountId, symbol: string) {
    p.account == k && p.symbol == symbol
  }

  function FindPosition(ps: seq<Position>, k: AccountId, symbol: string): (r: Option<nat>)
    ensures r.Some? ==> r.value < |ps| && IsFor(ps[r.value], k, symbol)
    ensures r.None? ==> forall i :: 0 <= i < |ps| ==> !IsFor(ps[i], k, symbol)
  {
    if |ps| == 0 then None
    else if IsFor(ps[0], k, symbol) then Some(0)
    else
      var rest := FindPosition(ps[1..], k, symbol);
      assert forall i :: 0 < i < |ps| ==> ps[i] == ps[1..][i - 1];
      if rest.Some? then Some(rest.value + 1) else None
  }

  /** Weighted-average cost; a newly declared stop replaces the old one. */
  function Added(p: Position, intent: Intent, price: real): Position
    requires p.quantity + intent.quantity != 0.0
  {
    var quantity := p.quantity + intent.quantity;
    var averageCost := (p.averageCost * p.quantity + price * intent.quantity) / quantity;
    Position(p.account, p.symbol, quantity, averageCost, price, (price - averageCost) * quantity,
             if intent.stopLoss.Some? then intent.stopLoss else p.stopLoss)
  }

  function Opened(intent: Intent, price: real): Position {
    Position(intent.account, intent.symbol, intent.quantity, price, price, 0.0, intent.stopLoss)
  }

  function Reduced(p: Position, intent: Intent, price: real): Position {
    var quantity := p.quantity - intent.quantity;
    p.(quantity := quantity, currentPrice := price, unrealisedPnl := (price - p.averageCost) * quantity)
  }

  /** `upsertPosition` for a BUY, `reducePosition` for a SELL of a held position. */
  function WritePosition(ps: seq<Position>, intent: Intent, price: real): seq<Position>
    requires intent.quantity > 0.0 && forall i :: 0 <= i < |ps| ==> ps[i].quantity > 0.0
    requires intent.side.Sell? ==> FindPosition(ps, intent.account, intent.symbol).Some?
  {
    match FindPosition(ps, intent.account, intent.symbol)
    case None => ps + [Opened(intent, price)]
    case Some(i) =>
      if intent.side.Buy? then ps[i := Added(ps[i], intent, price)]
      else if ps[i].quantity == intent.quantity then ps[..i] + ps[i + 1..]
      else ps[i := Reduced(ps[i], intent, price)]
  }

  /** The new mark of a position whose price could be fetched and saved; others keep their last one. */
  function Marked(p: Position, user: string, quotes: map<(string, string), real>): Position {
    if p.account.user == user && (p.symbol, p.account.exchange) in quotes then
      var ltp := quotes[(p.symbol, p.account.exchange)];
      p.(currentPrice := ltp, unrealisedPnl := (ltp - p.averageCost) * p.quantity)
    else p
  }

  // ---- What a stored book satisfies ----

  ghost predicate PositionOk(p: Position) {
    p.quantity > 0.0 && p.unrealisedPnl == (p.currentPrice - p.averageCost) * p.quantity
  }

  /** At most one position for an account and a symbol: the unique index. */
  ghost predicate OnePerSymbol(ps: seq<Position>) {
    forall i, j :: 0 <= i < j < |ps| ==> !(ps[i].account == ps[j].account && ps[i].symbol == ps[j].symbol)
  }

  ghost predicate PositionsOk(ps: seq<Position>) {
    (forall i :: 0 <= i < |ps| ==> PositionOk(ps[i])) && OnePerSymbol(ps)
  }

  ghost predicate WellFormed(b: Book) {
    && PositionsOk(b.positions)
    && (forall i :: 0 <= i < |b.positions| ==> b.positions[i].account in b.accounts)
    && (forall id :: id in b.orders ==>
          id < b.nextOrder && b.orders[id].intent.quantity > 0.0 && b.orders[id].intent.account in b.accounts)
    && (forall t :: 0 <= t < |b.trades| ==> b.trades[t].account in b.accounts)
  }

  // ---- Executing one order ----

  /** Cost of the shares a SELL gives up, per share; nothing for a BUY. */
  function SoldAt(b: Book, intent: Intent): real {
    var found := FindPosition(b.positions, intent.account, intent.symbol);
    if intent.side.Sell? && found.Some? then b.positions[found.value].averageCost else 0.0
  }

  function SalePnl(b: Book, intent: Intent, price: real): real {
    if intent.side.Sell? then (price - SoldAt(b, intent)) * intent.quantity else 0.0
  }

  /** A BUY is covered by cash, a SELL by the held quantity. */
  predicate Covered(b: Book, intent: Intent, price: real)
    requires intent.account in b.accounts
  {
    if intent.side.Buy? then b.accounts[intent.account].cash >= price * intent.quantity
    else
      var found := FindPosition(b.positions, intent.account, intent.symbol);
      found.Some? && b.positions[found.value].quantity >= intent.quantity
  }

  function MoveCash(b: Book, intent: Intent, price: real): Book
    requires intent.account in b.accounts
  {
    var a := b.accounts[intent.account];
    var cash := if intent.side.Buy? then a.cash - price * intent.quantity else a.cash + price * intent.quantity;
    b.(accounts := b.accounts[intent.account := a.(cash := cash, realisedPnl := a.realisedPnl + SalePnl(b, intent, price))])
  }

  function BookedTrade(b: Book, id: nat, intent: Intent, price: real, at: int): Trade {
    Trade(id, intent.account, intent.symbol, intent.side, intent.quantity, price, SalePnl(b, intent, price), at)
  }

  function SetOrder(b: Book, id: nat, status: Status, price: Option<real>): Book
    requires id in b.orders
  {
    b.(orders := b.orders[id := b.orders[id].(status := status, executedPrice := price)])
  }

  /** The execution got past its checks: the price and the order are good and the order is covered. */
  predicate Fills(b: Book, id: nat, requester: Option<string>, ltp: Option<real>, fault: Fault) {
    Refused(b, id, requester, ltp, fault).None?
  }

  /** Why an execution stops before moving anything, if it does. */
  function Refused(b: Book, id: nat, requester: Option<string>, ltp: Option<real>, fault: Fault): (r: Option<Refusal>)
    ensures r.None? ==> id in b.orders && b.orders[id].status.Pending? && b.orders[id].intent.account in b.accounts
                        && ltp.Some? && Covered(b, b.orders[id].intent, ltp.value)
    ensures r.None? && b.orders[id].intent.kind.Limit? && b.orders[id].intent.limitPrice.GetOr(0.0) != 0.0 ==>
              if b.orders[id].intent.side.Buy? then ltp.value <= b.orders[id].intent.limitPrice.value
              else ltp.value >= b.orders[id].intent.limitPrice.value
    ensures r == Some(LimitNotReached) ==>
              && id in b.orders && ltp.Some?
              && b.orders[id].intent.kind.Limit? && b.orders[id].intent.limitPrice.GetOr(0.0) != 0.0
              && if b.orders[id].intent.side.Buy? then ltp.value > b.orders[id].intent.limitPrice.value
                 else ltp.value < b.orders[id].intent.limitPrice.value
  {
    if fault.AtRead? then Some(OperationFailed)
    else if id !in b.orders then Some(OrderNotFound)
    else
      var order := b.orders[id];
      if requester.Some? && order.intent.account.user != requester.value then Some(OrderNotFound)
      else if !order.status.Pending? then Some(NotPending)
      else if order.intent.account !in b.accounts then Some(AccountNotFound)
      else if ltp.None? then Some(NoPrice)
      else if !LimitMet(order.intent, ltp.value) then Some(LimitNotReached)
      else if fault.AtCash? then Some(OperationFailed)
      else if !Covered(b, order.intent, ltp.value) then
        Some(if fault.AtRejection? then OperationFailed
             else if order.intent.side.Buy? then InsufficientCash else InsufficientQuantity)
      else None
  }

  /** An uncovered order is stored as REJECTED; every other refusal leaves the book as it was. */
  function AfterRefusal(b: Book, id: nat, why: Refusal): Book {
    if (why.InsufficientCash? || why.InsufficientQuantity?) && id in b.orders
    then SetOrder(b, id, Rejected, b.orders[id].executedPrice) else b
  }

  /** The net effect of a fill, by the operation that failed after the cash moved. */
  function AfterFill(b: Book, id: nat, price: real, at: int, fault: Fault): Book
    requires WellFormed(b) && id in b.orders && Covered(b, b.orders[id].intent, price)
  {
    var intent := b.orders[id].intent;
    var paid := MoveCash(b, intent, price);
    var written := WritePosition(b.positions, intent, price);
    var booked := paid.(positions := written, trades := b.trades + [BookedTrade(b, id, intent, price, at)]);
    match fault
    case AtPosition(restored) => if restored then b else paid
    case AtTrade(restored) => if restored then b.(positions := written) else paid.(positions := written)
    case AtSave => booked
    case _ => SetOrder(booked, id, Executed, Some(price))
  }

  /** `executeOrder`, as one sequential run. */
  function Execute(b: Book, id: nat, requester: Option<string>, ltp: Option<real>, at: int, fault: Fault): (Book, Outcome)
    requires WellFormed(b)
  {
    match Refused(b, id, requester, ltp, fault)
    case Some(why) => (AfterRefusal(b, id, why), Threw(why))
    case None =>
      var after := AfterFill(b, id, ltp.value, at, fault);
      if fault.NoFault? || fault.AtRejection?
      then (after, Filled(id, BookedTrade(b, id, b.orders[id].intent, ltp.value, at)))
      else (after, Threw(OperationFailed))
  }

  // ---- The account's own operations ----

  function Ensure(b: Book, k: AccountId, capital: real): Book {
    if k in b.accounts then b else b.(accounts := b.accounts[k := OpeningAccount(capital)])
  }

  function Without(ps: seq<Position>, k: AccountId): (r: seq<Position>)
    ensures forall i :: 0 <= i < |r| ==> r[i] in ps && r[i].account != k
  {
    if |ps| == 0 then []
    else if ps[0].account == k then Without(ps[1..], k)
    else [ps[0]] + Without(ps[1..], k)
  }

  function TradesWithout(ts: seq<Trade>, k: AccountId): (r: seq<Trade>)
    ensures forall i :: 0 <= i < |r| ==> r[i] in ts && r[i].account != k
  {
    if |ts| == 0 then []
    else if ts[|ts| - 1].account == k then TradesWithout(ts[..|ts| - 1], k)
    else TradesWithout(ts[..|ts| - 1], k) + [ts[|ts| - 1]]
  }

  function OrdersWithout(orders: map<nat, Order>, k: AccountId): (r: map<nat, Order>)
    ensures forall id :: id in r <==> id in orders && orders[id].intent.account != k
    ensures forall id :: id in r ==> r[id] == orders[id]
  {
    map id | id in orders && orders[id].intent.account != k :: orders[id]
  }

  /**
   * Which of a reset's three deletions did not apply, and whether its final
   * save failed. The deletions are issued together; the save follows only when
   * all three applied.
   */
  datatype ResetFault = ResetFault(positionsKept: bool, ordersKept: bool, tradesKept: bool, saveFails: bool) {
    predicate Saves() { !positionsKept && !ordersKept && !tradesKept && !saveFails }
  }

  /** Positions, orders and trades of the account go; then its cash returns to the opening capital. */
  function Reset(b: Book, k: AccountId, fault: ResetFault): Book {
    var b' := Ensure(b, k, DEFAULT_CAPITAL);
    Book(if fault.Saves() then b'.accounts[k := OpeningAccount(b'.accounts[k].initialCapital)] else b'.accounts,
         if fault.positionsKept then b.positions else Without(b.positions, k),
         if fault.ordersKept then b.orders else OrdersWithout(b.orders, k),
         b.nextOrder,
         if fault.tradesKept then b.trades else TradesWithout(b.trades, k))
  }

  function Refresh(b: Book, user: string, quotes: map<(string, string), real>): Book {
    b.(positions := seq(|b.positions|, i requires 0 <= i < |b.positions| => Marked(b.positions[i], user, quotes)))
  }
}
