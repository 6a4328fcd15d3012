/** The paper-trading services over their stored collections, step by step. */
module PaperTrading {
  import opened Wrappers
  import opened Sums
  import opened Records
  import opened Ledger
  import opened BookValue
  import opened RiskLimits
  import opened Trading

  class PaperTradingService {
    var accounts: map<AccountId, Account>
    var positions: seq<Position>
    var orders: map<nat, Order>
    var nextOrder: nat
    var trades: seq<Trade>

    function Contents(): Book
      reads this
    {
      Book(accounts, positions, orders, nextOrder, trades)
    }

    constructor ()
      ensures Contents() == EMPTY_BOOK
    {
      accounts, positions, orders, nextOrder, trades := map[], [], map[], 0, [];
    }

    // ---- The account ----

    method EnsurePortfolio(k: AccountId, capital: real)
      modifies this`accounts
      ensures Contents() == Ensure(old(Contents()), k, capital)
    {
      if k !in accounts {
        accounts := accounts[k := OpeningAccount(capital)];
      }
    }

    /** The three deletions are independent; only when all applied is the account saved. */
    method ResetPortfolio(k: AccountId, fault: ResetFault) returns (ok: bool)
      modifies this
      ensures Contents() == Reset(old(Contents()), k, fault) && ok == fault.Saves()
    {
      EnsurePortfolio(k, DEFAULT_CAPITAL);
      if !fault.positionsKept {
        positions := Without(positions, k);
      }
      if !fault.ordersKept {
        orders := OrdersWithout(orders, k);
      }
      if !fault.tradesKept {
        trades := TradesWithout(trades, k);
      }
      if fault.positionsKept || fault.ordersKept || fault.tradesKept || fault.saveFails { return false; }
      var a := accounts[k];
      accounts := accounts[k := a.(cash := a.initialCapital, realisedPnl := 0.0)];
      ok := true;
    }

    method GetPortfolio(k: AccountId) returns (view: PortfolioView)
      requires WellFormed(Contents())
      modifies this`accounts
      ensures Contents() == Ensure(old(Contents()), k, DEFAULT_CAPITAL)
      ensures k in accounts && view == View(Contents(), k)
      ensures view.totalPnl == view.totalValue - accounts[k].initialCapital <==> Drift(Contents(), k) == 0.0
    {
      EnsurePortfolio(k, DEFAULT_CAPITAL);
      EnsureKeepsWellFormed(old(Contents()), k, DEFAULT_CAPITAL);
      TotalPnlIsGain(Contents(), k);
      var totalValue := accounts[k].cash + Sum(positions, MarketValue(k));
      var unrealised := Sum(positions, Unrealised(k));
      view := PortfolioView(totalValue, unrealised, accounts[k].realisedPnl + unrealised);
    }

    method MarkPosition(i: nat, user: string, quotes: map<(string, string), real>)
      requires i < |positions| && positions[i].account.user == user
      requires (positions[i].symbol, positions[i].account.exchange) in quotes
      modifies this`positions
      ensures positions == old(positions)[i := Marked(old(positions)[i], user, quotes)]
    {
      var pos := positions[i];
      var ltp := quotes[(pos.symbol, pos.account.exchange)];
      pos := pos.(currentPrice := ltp, unrealisedPnl := (ltp - pos.averageCost) * pos.quantity);
      ghost var marked := Marked(positions[i], user, quotes);
      assert pos.unrealisedPnl == marked.unrealisedPnl && pos == marked;
      positions := positions[i := pos];
    }

    /** Every position of the user is either refreshed or reported stale, and keeps its place. */
    method RefreshPositionPrices(user: string, quotes: map<(string, string), real>) returns (refreshed: nat, staleSymbols: seq<string>)
      modifies this`positions
      ensures Contents() == Refresh(old(Contents()), user, quotes)
      ensures refreshed + |staleSymbols| == |Owned(old(positions), user)|
      ensures staleSymbols == Stale(old(positions), user, quotes)
    {
      refreshed, staleSymbols := 0, [];
      ghost var start := positions;
      var i := 0;
      while i < |positions|
        invariant 0 <= i <= |positions| == |start|
        invariant forall j :: 0 <= j < i ==> positions[j] == Marked(start[j], user, quotes)
        invariant forall j :: i <= j < |positions| ==> positions[j] == start[j]
        invariant refreshed + |staleSymbols| == |Owned(start[..i], user)|
        invariant staleSymbols == Stale(start[..i], user, quotes)
      {
        var pos := positions[i];
        OwnedNext(start, i, user, quotes);
        if pos.account.user == user {
          if (pos.symbol, pos.account.exchange) in quotes {
            MarkPosition(i, user, quotes);
            refreshed := refreshed + 1;
          } else {
            staleSymbols := staleSymbols + [pos.symbol];
          }
        }
        i := i + 1;
      }
      assert start[..i] == start;
      AllMarked(old(Contents()), positions, user, quotes);
    }

    // ---- Moving money ----

    method CompensateCash(k: AccountId, side: Side, totalCost: real, realisedPnl: real, applied: bool)
      requires k in accounts
      modifies this`accounts
      ensures var a := old(accounts)[k];
              accounts == if applied
                then old(accounts)[k := a.(cash := if side.Buy? then a.cash + totalCost else a.cash - totalCost,
                                           realisedPnl := a.realisedPnl - realisedPnl)]
                else old(accounts)
    {
      if applied {
        var a := accounts[k];
        accounts := accounts[k := a.(cash := a.cash + (if side.Buy? then totalCost else -totalCost),
                                     realisedPnl := a.realisedPnl - realisedPnl)];
      }
    }

    method UpsertPosition(intent: Intent, price: real)
      requires intent.side.Buy? && intent.quantity > 0.0 && PositionsOk(positions)
      modifies this`positions
      ensures positions == WritePosition(old(positions), intent, price)
    {
      var existing := FindPosition(positions, intent.account, intent.symbol);
      if existing.Some? {
        var p := positions[existing.value];
        assert PositionOk(p);
        var totalQty := p.quantity + intent.quantity;
        var totalCost := p.averageCost * p.quantity + price * intent.quantity;
        p := p.(averageCost := totalCost / totalQty);
        p := p.(quantity := totalQty, currentPrice := price, unrealisedPnl := (price - p.averageCost) * totalQty);
        if intent.stopLoss.Some? {
          p := p.(stopLoss := intent.stopLoss);
        }
        ghost var q := Added(positions[existing.value], intent, price);
        assert p.quantity == q.quantity && p.averageCost == q.averageCost && p.unrealisedPnl == q.unrealisedPnl;
        assert p == q;
        positions := positions[existing.value := p];
      } else {
        positions := positions + [Position(intent.account, intent.symbol, intent.quantity, price, price, 0.0, intent.stopLoss)];
      }
    }

    method ReducePosition(intent: Intent, price: real, i: nat)
      requires intent.side.Sell? && intent.quantity > 0.0 && PositionsOk(positions)
      requires FindPosition(positions, intent.account, intent.symbol) == Some(i)
      modifies this`positions
      ensures positions == WritePosition(old(positions), intent, price)
    {
      assert forall j :: 0 <= j < |positions| ==> PositionOk(positions[j]);
      var p := positions[i];
      p := p.(quantity := p.quantity - intent.quantity);
      if p.quantity == 0.0 {
        positions := positions[..i] + positions[i + 1..];
      } else {
        p := p.(currentPrice := price, unrealisedPnl := (price - p.averageCost) * p.quantity);
        ghost var q := Reduced(positions[i], intent, price);
        assert p.quantity == q.quantity && p.unrealisedPnl == q.unrealisedPnl;
        assert p == q;
        positions := positions[i := p];
      }
    }

    /** The conditional debit of a BUY or the credit of a SELL. */
    method DebitOrCredit(intent: Intent, price: real) returns (realisedPnl: real)
      requires intent.account in accounts && Covered(Contents(), intent, price)
      modifies this`accounts
      ensures Contents() == MoveCash(old(Contents()), intent, price)
      ensures realisedPnl == SalePnl(old(Contents()), intent, price)
    {
      var account := accounts[intent.account];
      var totalCost := price * intent.quantity;
      realisedPnl := 0.0;
      if intent.side.Buy? {
        accounts := accounts[intent.account := account.(cash := account.cash - totalCost)];
      } else {
        var position := positions[FindPosition(positions, intent.account, intent.symbol).value];
        realisedPnl := (price - position.averageCost) * intent.quantity;
        accounts := accounts[intent.account := account.(cash := account.cash + totalCost, realisedPnl := account.realisedPnl + realisedPnl)];
      }
      ghost var paid := MoveCash(old(Contents()), intent, price).accounts[intent.account];
      assert accounts[intent.account].cash == paid.cash && accounts[intent.account].realisedPnl == paid.realisedPnl;
      assert accounts[intent.account] == paid;
    }

    method WritePositionNow(intent: Intent, price: real)
      requires intent.quantity > 0.0 && PositionsOk(positions)
      requires intent.side.Sell? ==> FindPosition(positions, intent.account, intent.symbol).Some?
      modifies this`positions
      ensures positions == WritePosition(old(positions), intent, price)
    {
      if intent.side.Buy? {
        UpsertPosition(intent, price);
      } else {
        ReducePosition(intent, price, FindPosition(positions, intent.account, intent.symbol).value);
      }
    }

    /** Takes back what `b` was charged or credited for this order, unless that fails too. */
    method TakeBack(ghost b: Book, intent: Intent, price: real, realisedPnl: real, applied: bool)
      requires intent.account in b.accounts && accounts == MoveCash(b, intent, price).accounts
      requires realisedPnl == SalePnl(b, intent, price)
      modifies this`accounts
      ensures accounts == if applied then b.accounts else old(accounts)
    {
      CompensateCash(intent.account, intent.side, price * intent.quantity, realisedPnl, applied);
      if applied {
        ghost var a := b.accounts[intent.account];
        assert accounts[intent.account].cash == a.cash && accounts[intent.account].realisedPnl == a.realisedPnl;
        assert accounts[intent.account] == a && accounts == b.accounts;
      }
    }

    /** Cash, position, trade, and the order marked EXECUTED last; a failure in between takes the cash back. */
    method FillOrder(id: nat, price: real, at: int, fault: Fault) returns (outcome: Outcome)
      requires WellFormed(Contents()) && id in orders && Covered(Contents(), orders[id].intent, price)
      modifies this
      ensures Contents() == AfterFill(old(Contents()), id, price, at, fault)
      ensures outcome == if fault.AtPosition? || fault.AtTrade? || fault.AtSave? || fault.AtPublish? then Threw(OperationFailed)
                         else Filled(id, BookedTrade(old(Contents()), id, old(orders)[id].intent, price, at))
    {
      var intent := orders[id].intent;
      var realisedPnl := DebitOrCredit(intent, price);
      if fault.AtPosition? {
        TakeBack(old(Contents()), intent, price, realisedPnl, fault.restored);
        return Threw(OperationFailed);
      }
      WritePositionNow(intent, price);
      if fault.AtTrade? {
        TakeBack(old(Contents()), intent, price, realisedPnl, fault.restored);
        return Threw(OperationFailed);
      }
      outcome := StoreFill(id, price, realisedPnl, at, fault);
    }

    /** The trade, then the order's status, then the broadcast. */
    method StoreFill(id: nat, price: real, realisedPnl: real, at: int, fault: Fault) returns (outcome: Outcome)
      requires id in orders && !fault.AtPosition? && !fault.AtTrade?
      modifies this`trades, this`orders
      ensures var intent := old(orders)[id].intent;
              var trade := Trade(id, intent.account, intent.symbol, intent.side, intent.quantity, price, realisedPnl, at);
              && trades == old(trades) + [trade]
              && orders == (if fault.AtSave? then old(orders)
                            else old(orders)[id := old(orders)[id].(status := Executed, executedPrice := Some(price))])
              && outcome == if fault.AtSave? || fault.AtPublish? then Threw(OperationFailed) else Filled(id, trade)
    {
      var intent := orders[id].intent;
      var trade := Trade(id, intent.account, intent.symbol, intent.side, intent.quantity, price, realisedPnl, at);
      trades := trades + [trade];
      if fault.AtSave? { return Threw(OperationFailed); }
      orders := orders[id := orders[id].(status := Executed, executedPrice := Some(price))];
      if fault.AtPublish? { return Threw(OperationFailed); }
      return Filled(id, trade);
    }

    /** The checks of an execution; an order that is not covered is stored as REJECTED. */
    method CheckOrder(id: nat, requester: Option<string>, ltp: Option<real>, fault: Fault) returns (why: Option<Refusal>)
      modifies this`orders
      ensures why == Refused(old(Contents()), id, requester, ltp, fault)
      ensures Contents() == if why.Some? then AfterRefusal(old(Contents()), id, why.value) else old(Contents())
    {
      if fault.AtRead? { return Some(OperationFailed); }
      if id !in orders { return Some(OrderNotFound); }
      var order := orders[id];
      var intent := order.intent;
      if requester.Some? && intent.account.user != requester.value { return Some(OrderNotFound); }
      if !order.status.Pending? { return Some(NotPending); }
      if intent.account !in accounts { return Some(AccountNotFound); }
      if ltp.None? { return Some(NoPrice); }
      if !LimitMet(intent, ltp.value) { return Some(LimitNotReached); }
      if fault.AtCash? { return Some(OperationFailed); }

      if intent.side.Buy? {
        if accounts[intent.account].cash >= ltp.value * intent.quantity { return None; }
        if fault.AtRejection? { return Some(OperationFailed); }
        RejectOrder(id);
        return Some(InsufficientCash);
      } else {
        var position := FindPosition(positions, intent.account, intent.symbol);
        if position.Some? && positions[position.value].quantity >= intent.quantity { return None; }
        if fault.AtRejection? { return Some(OperationFailed); }
        RejectOrder(id);
        return Some(InsufficientQuantity);
      }
    }

    /** The checks of an execution, then its fill. */
    method ExecuteOrder(id: nat, requester: Option<string>, ltp: Option<real>, at: int, fault: Fault) returns (outcome: Outcome)
      requires WellFormed(Contents())
      modifies this
      ensures (Contents(), outcome) == Execute(old(Contents()), id, requester, ltp, at, fault)
    {
      var why := CheckOrder(id, requester, ltp, fault);
      if why.Some? {
        outcome := Threw(why.value);
      } else {
        outcome := FillOrder(id, ltp.value, at, fault);
      }
    }

    // ---- Placing ----

    method RejectOrder(id: nat)
      requires id in orders
      modifies this`orders
      ensures orders == old(orders)[id := old(orders)[id].(status := Rejected)]
    {
      orders := orders[id := orders[id].(status := Rejected)];
    }

    method InsertPending(intent: Intent) returns (id: nat)
      modifies this`orders, this`nextOrder
      ensures Contents() == InsertOrder(old(Contents()), intent) && id == old(nextOrder)
    {
      id := nextOrder;
      orders := orders[id := Order(intent, Pending, None)];
      nextOrder := nextOrder + 1;
    }

    /** A repeat of a stored key is answered with the stored order; a BUY passes the gate first; MARKET orders fill. */
    method PlaceOrder(intent: Intent, env: PlaceEnv) returns (outcome: Outcome)
      requires WellFormed(Contents()) && intent.quantity >= 1.0
      modifies this
      ensures (Contents(), outcome) == Place(old(Contents()), intent, env)
    {
      EnsurePortfolio(intent.account, DEFAULT_CAPITAL);
      EnsureKeepsWellFormed(old(Contents()), intent.account, DEFAULT_CAPITAL);
      if intent.clientOrderId.Some? {
        var existing := KeyOwner(orders, intent.account.user, intent.clientOrderId.value, nextOrder);
        if existing.Some? { return Repeated(existing.value); }
      }
      if env.insertFails { return Threw(OperationFailed); }
      InsertKeepsWellFormed(Contents(), intent);
      var id := InsertPending(intent);
      if intent.side.Buy? {
        if env.gateFails { return Threw(OperationFailed); }
        var verdict := Gate(Contents(), intent, env.gateLtp, env.now);
        if verdict.Some? {
          RejectOrder(id);
          return Threw(verdict.value);
        }
      }
      if intent.kind.Market? {
        outcome := ExecuteOrder(id, None, env.fillLtp, env.at, env.fault);
      } else {
        outcome := Resting(id);
      }
    }

    // ---- The flatten ----

    method FlattenPosition(pos: Position, env: FlattenEnv) returns (outcome: Outcome)
      requires WellFormed(Contents()) && pos.quantity > 0.0 && pos.account in accounts
      modifies this
      ensures (Contents(), outcome) == FlattenOne(old(Contents()), pos, env)
    {
      if env.insertFails { return Threw(OperationFailed); }
      InsertKeepsWellFormed(Contents(), FlattenIntent(pos));
      var id := InsertPending(FlattenIntent(pos));
      outcome := ExecuteOrder(id, None, env.ltp, env.at, env.fault);
    }

    /** The turn of the `i`th listed position. */
    method FlattenListed(ghost start: Book, listed: seq<Position>, envs: nat -> FlattenEnv, i: nat) returns (detail: Detail)
      requires WellFormed(start) && Flattenable(start, listed) && i < |listed|
      requires Contents() == SquareOffTo(start, listed, envs, i).0
      modifies this
      ensures Contents() == SquareOffTo(start, listed, envs, i + 1).0
      ensures SquareOffTo(start, listed, envs, i + 1).1 == SquareOffTo(start, listed, envs, i).1 + [detail]
    {
      ghost var before := Contents();
      var outcome := FlattenPosition(listed[i], envs(i));
      detail := DetailOf(listed[i], outcome);
      assert (Contents(), outcome) == FlattenOne(before, listed[i], envs(i));
    }

    /** The same, added to the report and its counts. */
    method FlattenAndCount(ghost start: Book, listed: seq<Position>, envs: nat -> FlattenEnv, i: nat,
                           closed: nat, failed: nat, details: seq<Detail>)
      returns (closed': nat, failed': nat, details': seq<Detail>)
      requires WellFormed(start) && Flattenable(start, listed) && i < |listed|
      requires (Contents(), details) == SquareOffTo(start, listed, envs, i) && Counted(closed, failed, details)
      modifies this
      ensures (Contents(), details') == SquareOffTo(start, listed, envs, i + 1) && Counted(closed', failed', details')
    {
      var detail := FlattenListed(start, listed, envs, i);
      OneMoreCounted(closed, failed, details, detail);
      closed', failed', details' := closed, failed, details + [detail];
      if detail.Closed? {
        closed' := closed + 1;
      } else {
        failed' := failed + 1;
      }
    }

    /** The loop over the listed positions: each is closed on its own, and failures are counted, not thrown. */
    method FlattenAll(listed: seq<Position>, envs: nat -> FlattenEnv) returns (closed: nat, failed: nat, details: seq<Detail>)
      requires WellFormed(Contents()) && Flattenable(Contents(), listed)
      modifies this
      ensures (Contents(), details) == SquareOffTo(old(Contents()), listed, envs, |listed|)
      ensures Counted(closed, failed, details)
    {
      closed, failed, details := 0, 0, [];
      ghost var start := Contents();
      var i := 0;
      while i < |listed|
        invariant 0 <= i <= |listed|
        invariant (Contents(), details) == SquareOffTo(start, listed, envs, i)
        invariant Counted(closed, failed, details)
      {
        closed, failed, details := FlattenAndCount(start, listed, envs, i, closed, failed, details);
        i := i + 1;
      }
    }

    /** One report line per position; `closed` and `failed` count them. */
    method SquareOffAll(envs: nat -> FlattenEnv) returns (closed: nat, failed: nat, details: seq<Detail>)
      requires WellFormed(Contents())
      modifies this
      ensures (Contents(), details) == SquareOff(old(Contents()), envs)
      ensures closed + failed == |details| == |old(positions)|
      ensures failed == 0 <==> forall i :: 0 <= i < |details| ==> details[i].Closed?
    {
      assert forall j :: 0 <= j < |positions| ==> PositionOk(positions[j]);
      closed, failed, details := FlattenAll(positions, envs);
      NoFailures(details);
    }
  }

  function Failures(details: seq<Detail>): nat {
    if |details| == 0 then 0
    else Failures(details[..|details| - 1]) + if details[|details| - 1].Failed? then 1 else 0
  }

  /** The two counts of a report. */
  predicate Counted(closed: nat, failed: nat, details: seq<Detail>) {
    closed + failed == |details| && failed == Failures(details)
  }

  lemma OneMoreCounted(closed: nat, failed: nat, details: seq<Detail>, detail: Detail)
    requires Counted(closed, failed, details)
    ensures if detail.Closed? then Counted(closed + 1, failed, details + [detail]) else Counted(closed, failed + 1, details + [detail])
  {
    assert (details + [detail])[..|details|] == details;
  }

  lemma {:induction false} NoFailures(details: seq<Detail>)
    ensures Failures(details) == 0 <==> forall i :: 0 <= i < |details| ==> details[i].Closed?
  {
    if |details| > 0 {
      var before := details[..|details| - 1];
      NoFailures(before);
      assert forall i :: 0 <= i < |before| ==> before[i] == details[i];
    }
  }

  /** The positions of one user, in stored order. */
  function Owned(ps: seq<Position>, user: string): seq<Position> {
    if |ps| == 0 then []
    else Owned(ps[..|ps| - 1], user) + if ps[|ps| - 1].account.user == user then [ps[|ps| - 1]] else []
  }

  predicate Unquoted(p: Position, user: string, quotes: map<(string, string), real>) {
    p.account.user == user && (p.symbol, p.account.exchange) !in quotes
  }

  /** The symbols of the user's positions without a quote, in stored order. */
  function Stale(ps: seq<Position>, user: string, quotes: map<(string, string), real>): seq<string> {
    if |ps| == 0 then []
    else Stale(ps[..|ps| - 1], user, quotes) + if Unquoted(ps[|ps| - 1], user, quotes) then [ps[|ps| - 1].symbol] else []
  }

  lemma OwnedNext(ps: seq<Position>, i: nat, user: string, quotes: map<(string, string), real>)
    requires i < |ps|
    ensures Owned(ps[..i + 1], user) == Owned(ps[..i], user) + if ps[i].account.user == user then [ps[i]] else []
    ensures Stale(ps[..i + 1], user, quotes) == Stale(ps[..i], user, quotes) + if Unquoted(ps[i], user, quotes) then [ps[i].symbol] else []
  {
    assert ps[..i + 1][..i] == ps[..i];
  }

  lemma AllMarked(b: Book, ps: seq<Position>, user: string, quotes: map<(string, string), real>)
    requires |ps| == |b.positions| && forall i :: 0 <= i < |ps| ==> ps[i] == Marked(b.positions[i], user, quotes)
    ensures b.(positions := ps) == Refresh(b, user, quotes)
  {
    assert ps == Refresh(b, user, quotes).positions;
  }

  /** A symbol is reported stale exactly when some position of the user in it has no quote. */
  lemma {:induction false} StaleIff(ps: seq<Position>, user: string, quotes: map<(string, string), real>, symbol: string)
    ensures symbol in Stale(ps, user, quotes)
            <==> exists i :: 0 <= i < |ps| && ps[i].symbol == symbol && ps[i].account.user == user
                             && (symbol, ps[i].account.exchange) !in quotes
  {
    if |ps| > 0 {
      var before := ps[..|ps| - 1];
      StaleIff(before, user, quotes, symbol);
      assert forall i :: 0 <= i < |before| ==> before[i] == ps[i];
    }
  }
}
