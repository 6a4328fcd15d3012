/** What every sequential operation keeps, and exactly how far a failed one unbalances the account. */
module BookValue {
  import opened Wrappers
  import opened Sums
  import opened Records
  import opened Ledger

  // ---- Well-formedness is kept ----

  lemma UpdateKeepsPositionsOk(ps: seq<Position>, i: nat, p: Position)
    requires PositionsOk(ps) && i < |ps| && PositionOk(p)
    requires p.account == ps[i].account && p.symbol == ps[i].symbol
    ensures PositionsOk(ps[i := p])
  {
  }

  lemma RemoveKeepsPositionsOk(ps: seq<Position>, i: nat)
    requires PositionsOk(ps) && i < |ps|
    ensures PositionsOk(ps[..i] + ps[i + 1..])
  {
    var r := ps[..i] + ps[i + 1..];
    forall j | 0 <= j < |r| ensures r[j] == ps[if j < i then j else j + 1] {}
  }

  lemma AppendKeepsPositionsOk(ps: seq<Position>, p: Position)
    requires PositionsOk(ps) && PositionOk(p) && FindPosition(ps, p.account, p.symbol).None?
    ensures PositionsOk(ps + [p])
  {
    assert forall i :: 0 <= i < |ps| ==> !IsFor(ps[i], p.account, p.symbol);
  }

  /** The three documents a position write can leave behind are well formed. */
  lemma WrittenOk(p: Position, intent: Intent, price: real)
    requires PositionOk(p) && intent.quantity > 0.0
    ensures PositionOk(Opened(intent, price)) && PositionOk(Added(p, intent, price))
    ensures p.quantity > intent.quantity ==> PositionOk(Reduced(p, intent, price))
  {
    assert (price - price) * intent.quantity == 0.0;
  }

  lemma WriteKeepsPositionsOk(ps: seq<Position>, intent: Intent, price: real, accounts: set<AccountId>)
    requires PositionsOk(ps) && intent.quantity > 0.0
    requires intent.account in accounts && forall i :: 0 <= i < |ps| ==> ps[i].account in accounts
    requires intent.side.Sell? ==>
               var found := FindPosition(ps, intent.account, intent.symbol);
               found.Some? && ps[found.value].quantity >= intent.quantity
    ensures PositionsOk(WritePosition(ps, intent, price))
    ensures forall i :: 0 <= i < |WritePosition(ps, intent, price)| ==> WritePosition(ps, intent, price)[i].account in accounts
  {
    match FindPosition(ps, intent.account, intent.symbol)
    case None =>
      assert (price - price) * intent.quantity == 0.0;
      AppendKeepsPositionsOk(ps, Opened(intent, price));
    case Some(i) =>
      assert PositionOk(ps[i]);
      WrittenOk(ps[i], intent, price);
      if intent.side.Buy? {
        UpdateKeepsPositionsOk(ps, i, Added(ps[i], intent, price));
      } else if ps[i].quantity == intent.quantity {
        RemoveKeepsPositionsOk(ps, i);
      } else {
        UpdateKeepsPositionsOk(ps, i, Reduced(ps[i], intent, price));
      }
  }

  lemma FillKeepsWellFormed(b: Book, id: nat, price: real, at: int, fault: Fault)
    requires WellFormed(b) && id in b.orders && b.orders[id].intent.account in b.accounts && Covered(b, b.orders[id].intent, price)
    ensures WellFormed(AfterFill(b, id, price, at, fault)) && AfterFill(b, id, price, at, fault).accounts.Keys == b.accounts.Keys
  {
    WriteKeepsPositionsOk(b.positions, b.orders[id].intent, price, b.accounts.Keys);
  }

  lemma ExecuteKeepsWellFormed(b: Book, id: nat, requester: Option<string>, ltp: Option<real>, at: int, fault: Fault)
    requires WellFormed(b)
    ensures WellFormed(Execute(b, id, requester, ltp, at, fault).0)
    ensures Execute(b, id, requester, ltp, at, fault).0.accounts.Keys == b.accounts.Keys
  {
    if Fills(b, id, requester, ltp, fault) {
      FillKeepsWellFormed(b, id, ltp.value, at, fault);
    }
  }

  lemma {:induction false} WithoutKeepsPositionsOk(ps: seq<Position>, k: AccountId)
    requires PositionsOk(ps)
    ensures PositionsOk(Without(ps, k))
  {
    if |ps| > 0 {
      assert forall i :: 0 <= i < |ps[1..]| ==> ps[1..][i] == ps[i + 1];
      WithoutKeepsPositionsOk(ps[1..], k);
    }
  }

  lemma ResetKeepsWellFormed(b: Book, k: AccountId, fault: ResetFault)
    requires WellFormed(b)
    ensures WellFormed(Reset(b, k, fault)) && k in Reset(b, k, fault).accounts
    ensures Reset(b, k, fault).accounts.Keys == b.accounts.Keys + {k}
  {
    WithoutKeepsPositionsOk(b.positions, k);
  }

  lemma RefreshKeepsWellFormed(b: Book, user: string, quotes: map<(string, string), real>)
    requires WellFormed(b)
    ensures WellFormed(Refresh(b, user, quotes))
  {
    var ps := Refresh(b, user, quotes).positions;
    forall i | 0 <= i < |ps| ensures PositionOk(ps[i]) && ps[i].account == b.positions[i].account && ps[i].symbol == b.positions[i].symbol {
      assert PositionOk(b.positions[i]);
    }
  }

  // ---- Measures of an account's positions ----

  function Cost(k: AccountId): Position -> real {
    (p: Position) => if p.account == k then p.quantity * p.averageCost else 0.0
  }

  function MarketValue(k: AccountId): Position -> real {
    (p: Position) => if p.account == k then p.quantity * p.currentPrice else 0.0
  }

  function Unrealised(k: AccountId): Position -> real {
    (p: Position) => if p.account == k then p.unrealisedPnl else 0.0
  }

  function Count(k: AccountId): Position -> real {
    (p: Position) => if p.account == k then 1.0 else 0.0
  }

  /** The positions of one account, in stored order. */
  function PositionsOf(ps: seq<Position>, j: AccountId): seq<Position> {
    if |ps| == 0 then []
    else PositionsOf(ps[..|ps| - 1], j) + if ps[|ps| - 1].account == j then [ps[|ps| - 1]] else []
  }

  lemma {:induction false} PositionsOfConcat(ps: seq<Position>, qs: seq<Position>, j: AccountId)
    ensures PositionsOf(ps + qs, j) == PositionsOf(ps, j) + PositionsOf(qs, j)
  {
    if |qs| == 0 {
      assert ps + qs == ps;
    } else {
      PositionsOfConcat(ps, qs[..|qs| - 1], j);
      assert (ps + qs)[..|ps + qs| - 1] == ps + qs[..|qs| - 1];
    }
  }

  lemma SumSnoc(ps: seq<Position>, f: Position -> real)
    requires |ps| > 0
    ensures Sum(ps, f) == Sum(ps[..|ps| - 1], f) + f(ps[|ps| - 1])
  {
    SumAppend(ps[..|ps| - 1], ps[|ps| - 1], f);
    assert ps == ps[..|ps| - 1] + [ps[|ps| - 1]];
  }

  /** A measure of an account's positions, as a sum over the account's own ones. */
  lemma {:induction false} SumOwn(ps: seq<Position>, k: AccountId, f: Position -> real, own: Position -> real)
    requires forall p: Position :: f(p) == if p.account == k then own(p) else 0.0
    ensures Sum(ps, f) == Sum(PositionsOf(ps, k), own)
  {
    if |ps| > 0 {
      SumOwn(ps[..|ps| - 1], k, f, own);
      var before, last := PositionsOf(ps[..|ps| - 1], k), ps[|ps| - 1];
      SumSnoc(ps, f);
      SumAppend(before, last, own);
      assert f(last) == if last.account == k then own(last) else 0.0;
      assert PositionsOf(ps, k) == if last.account == k then before + [last] else before;
    }
  }

  /** Averaging keeps total cost: the new average times the new quantity is what was paid. */
  lemma AveragingKeepsCost(p: Position, intent: Intent, price: real)
    requires p.quantity > 0.0 && intent.quantity > 0.0
    ensures Added(p, intent, price).quantity * Added(p, intent, price).averageCost
            == p.quantity * p.averageCost + price * intent.quantity
  {
    var quantity := p.quantity + intent.quantity;
    var total := p.averageCost * p.quantity + price * intent.quantity;
    assert quantity * (total / quantity) == total;
  }

  lemma AddedCost(p: Position, intent: Intent, price: real, k: AccountId)
    requires p.quantity > 0.0 && intent.quantity > 0.0 && p.account == intent.account
    ensures Cost(k)(Added(p, intent, price)) == Cost(k)(p) + if intent.account == k then price * intent.quantity else 0.0
  {
    AveragingKeepsCost(p, intent, price);
  }

  lemma ReducedCost(p: Position, intent: Intent, price: real, k: AccountId, average: real)
    requires p.account == intent.account && average == p.averageCost
    ensures Cost(k)(Reduced(p, intent, price)) == Cost(k)(p) - if intent.account == k then average * intent.quantity else 0.0
  {
    assert (p.quantity - intent.quantity) * average == p.quantity * average - average * intent.quantity;
  }

  lemma ClosedCost(p: Position, intent: Intent, k: AccountId, average: real)
    requires p.account == intent.account && p.quantity == intent.quantity && average == p.averageCost
    ensures Cost(k)(p) == if intent.account == k then average * intent.quantity else 0.0
  {
  }

  /** What a write adds to a measure of the positions. */
  ghost function Moved(ps: seq<Position>, intent: Intent, price: real, f: Position -> real): real
    requires PositionsOk(ps) && intent.quantity > 0.0
  {
    match FindPosition(ps, intent.account, intent.symbol)
    case None => f(Opened(intent, price))
    case Some(i) =>
      assert PositionOk(ps[i]);
      if intent.side.Buy? then f(Added(ps[i], intent, price)) - f(ps[i])
      else if ps[i].quantity == intent.quantity then -f(ps[i])
      else f(Reduced(ps[i], intent, price)) - f(ps[i])
  }

  lemma WriteMoves(ps: seq<Position>, intent: Intent, price: real, f: Position -> real)
    requires PositionsOk(ps) && intent.quantity > 0.0
    requires intent.side.Sell? ==> FindPosition(ps, intent.account, intent.symbol).Some?
    ensures Sum(WritePosition(ps, intent, price), f) == Sum(ps, f) + Moved(ps, intent, price, f)
  {
    match FindPosition(ps, intent.account, intent.symbol)
    case None =>
      SumAppend(ps, Opened(intent, price), f);
    case Some(i) =>
      assert PositionOk(ps[i]);
      if intent.side.Buy? {
        SumUpdate(ps, i, Added(ps[i], intent, price), f);
      } else if ps[i].quantity == intent.quantity {
        SumRemove(ps, i, f);
      } else {
        SumUpdate(ps, i, Reduced(ps[i], intent, price), f);
      }
  }

  /** What a fill moves between cash and cost: the price paid, or the average cost given up. */
  function CostMoved(b: Book, intent: Intent, price: real): real {
    if intent.side.Buy? then price * intent.quantity else -(SoldAt(b, intent) * intent.quantity)
  }

  lemma CostMovesBuy(b: Book, intent: Intent, price: real, k: AccountId)
    requires PositionsOk(b.positions) && intent.quantity > 0.0 && intent.side.Buy?
    ensures Moved(b.positions, intent, price, Cost(k)) == if intent.account == k then CostMoved(b, intent, price) else 0.0
  {
    var found := FindPosition(b.positions, intent.account, intent.symbol);
    if found.Some? {
      assert PositionOk(b.positions[found.value]);
      AddedCost(b.positions[found.value], intent, price, k);
    }
  }

  lemma CostMovesSell(b: Book, intent: Intent, price: real, k: AccountId)
    requires PositionsOk(b.positions) && intent.quantity > 0.0 && intent.side.Sell?
    requires FindPosition(b.positions, intent.account, intent.symbol).Some?
    ensures Moved(b.positions, intent, price, Cost(k)) == if intent.account == k then CostMoved(b, intent, price) else 0.0
  {
    var p := b.positions[FindPosition(b.positions, intent.account, intent.symbol).value];
    if p.quantity == intent.quantity {
      ClosedCost(p, intent, k, SoldAt(b, intent));
    } else {
      ReducedCost(p, intent, price, k, SoldAt(b, intent));
    }
  }

  lemma WriteMovesCost(b: Book, intent: Intent, price: real, k: AccountId)
    requires PositionsOk(b.positions) && intent.quantity > 0.0
    requires intent.side.Sell? ==> FindPosition(b.positions, intent.account, intent.symbol).Some?
    ensures Sum(WritePosition(b.positions, intent, price), Cost(k)) ==
            Sum(b.positions, Cost(k)) + if intent.account == k then CostMoved(b, intent, price) else 0.0
  {
    WriteMoves(b.positions, intent, price, Cost(k));
    if intent.side.Buy? {
      CostMovesBuy(b, intent, price, k);
    } else {
      CostMovesSell(b, intent, price, k);
    }
  }

  // ---- The books balance ----

  /** Cash plus the cost of what is held, against opening capital plus realised P&L. */
  function Drift(b: Book, k: AccountId): real
    requires k in b.accounts
  {
    b.accounts[k].cash + Sum(b.positions, Cost(k)) - b.accounts[k].initialCapital - b.accounts[k].realisedPnl
  }

  /** What one failing execution leaves unbalanced. */
  function FaultDrift(b: Book, intent: Intent, price: real, fault: Fault): real {
    match fault
    case AtPosition(restored) => if restored then 0.0 else -CostMoved(b, intent, price)
    case AtTrade(restored) => if restored then CostMoved(b, intent, price) else 0.0
    case _ => 0.0
  }

  lemma MoveCashDrift(b: Book, intent: Intent, price: real)
    requires intent.account in b.accounts
    ensures var a := b.accounts[intent.account]; var a' := MoveCash(b, intent, price).accounts[intent.account];
            a'.initialCapital == a.initialCapital &&
            (a'.cash - a'.realisedPnl) - (a.cash - a.realisedPnl) == -CostMoved(b, intent, price)
  {
    assert (price - SoldAt(b, intent)) * intent.quantity == price * intent.quantity - SoldAt(b, intent) * intent.quantity;
  }

  /** Drift looks at accounts and positions only. */
  lemma DriftOf(b: Book, accounts: map<AccountId, Account>, positions: seq<Position>, k: AccountId)
    requires k in b.accounts && b.accounts == accounts && b.positions == positions
    ensures Drift(b, k) == Drift(Book(accounts, positions, map[], 0, []), k)
  {
  }

  /** Paying takes the cost out of the balance, and writing the position puts it back. */
  lemma PartsDrift(b: Book, intent: Intent, price: real, k: AccountId)
    requires WellFormed(b) && intent.account in b.accounts && intent.quantity > 0.0 && Covered(b, intent, price) && k in b.accounts
    ensures var paid, written := MoveCash(b, intent, price).accounts, WritePosition(b.positions, intent, price);
            var moved := if intent.account == k then CostMoved(b, intent, price) else 0.0;
            && k in paid
            && Drift(Book(paid, b.positions, map[], 0, []), k) == Drift(b, k) - moved
            && Drift(Book(b.accounts, written, map[], 0, []), k) == Drift(b, k) + moved
            && Drift(Book(paid, written, map[], 0, []), k) == Drift(b, k)
  {
    MoveCashDrift(b, intent, price);
    WriteMovesCost(b, intent, price, k);
  }

  lemma FillDrift(b: Book, id: nat, price: real, at: int, fault: Fault, k: AccountId)
    requires WellFormed(b) && id in b.orders && Covered(b, b.orders[id].intent, price) && k in b.accounts
    ensures k in AfterFill(b, id, price, at, fault).accounts
    ensures Drift(AfterFill(b, id, price, at, fault), k) ==
            Drift(b, k) + if b.orders[id].intent.account == k then FaultDrift(b, b.orders[id].intent, price, fault) else 0.0
  {
    var intent, after := b.orders[id].intent, AfterFill(b, id, price, at, fault);
    PartsDrift(b, intent, price, k);
    DriftOf(after, after.accounts, after.positions, k);
    DriftOf(b, b.accounts, b.positions, k);
  }

  /** An execution moves an account's balance only by the drift of its own fault. */
  lemma ExecuteDrift(b: Book, id: nat, requester: Option<string>, ltp: Option<real>, at: int, fault: Fault, k: AccountId)
    requires WellFormed(b) && k in b.accounts
    ensures k in Execute(b, id, requester, ltp, at, fault).0.accounts
    ensures Drift(Execute(b, id, requester, ltp, at, fault).0, k) == Drift(b, k) +
            if Fills(b, id, requester, ltp, fault) && b.orders[id].intent.account == k
            then FaultDrift(b, b.orders[id].intent, ltp.value, fault) else 0.0
  {
    if Fills(b, id, requester, ltp, fault) {
      FillDrift(b, id, ltp.value, at, fault, k);
    }
  }

  /**
   * An execution that gets as far as moving money at a positive price keeps
   * the account in balance exactly when no trade insert fails after the
   * position was written, and no compensation of a position write fails.
   */
  lemma ExecuteBalancedIff(b: Book, id: nat, requester: Option<string>, ltp: Option<real>, at: int, fault: Fault)
    requires WellFormed(b) && Fills(b, id, requester, ltp, fault) && ltp.value > 0.0
    requires b.orders[id].intent.side.Sell? ==> SoldAt(b, b.orders[id].intent) > 0.0
    ensures var k := b.orders[id].intent.account;
            k in Execute(b, id, requester, ltp, at, fault).0.accounts &&
            (Drift(Execute(b, id, requester, ltp, at, fault).0, k) == Drift(b, k)
             <==> fault != AtTrade(true) && fault != AtPosition(false))
  {
    var intent := b.orders[id].intent;
    ExecuteDrift(b, id, requester, ltp, at, fault, intent.account);
    assert intent.side.Buy? ==> ltp.value * intent.quantity > 0.0;
    assert intent.side.Sell? ==> SoldAt(b, intent) * intent.quantity > 0.0;
  }

  /** An account opened at `cash + spent`, holding these positions, with one PENDING MARKET BUY of ten. */
  function BuyBook(k: AccountId, positions: seq<Position>, spent: real): Book {
    Book(map[k := Account(DEFAULT_CAPITAL, DEFAULT_CAPITAL - spent, 0.0)], positions,
         map[0 := Order(Intent(k, "TCS", Buy, Market, 10.0, None, None, None), Pending, None)], 1, [])
  }

  /** Ten bought at 100 whose trade insert fails: the cash is given back, the position stays, the books are 1000 over. */
  lemma FailedTradeUnbalances(k: AccountId, at: int)
    ensures var b := BuyBook(k, [], 0.0); var after := Execute(b, 0, None, Some(100.0), at, AtTrade(true)).0;
            && WellFormed(b) && Fills(b, 0, None, Some(100.0), AtTrade(true))
            && k in b.accounts && Drift(b, k) == 0.0
            && k in after.accounts && after.accounts == b.accounts && |after.positions| == 1 && Drift(after, k) == 1000.0
  {
    var b := BuyBook(k, [], 0.0);
    assert 100.0 * b.orders[0].intent.quantity == 1000.0;
    assert Fills(b, 0, None, Some(100.0), AtTrade(true));
    ExecuteDrift(b, 0, None, Some(100.0), at, AtTrade(true), k);
  }

  /** A compensation that fails after a failed position write: the cash is gone and nothing is held for it. */
  lemma FailedCompensationUnbalances(k: AccountId, at: int)
    ensures var b := BuyBook(k, [], 0.0); var after := Execute(b, 0, None, Some(100.0), at, AtPosition(false)).0;
            && WellFormed(b) && k in b.accounts && Drift(b, k) == 0.0
            && k in after.accounts && after.positions == [] && Drift(after, k) == -1000.0
  {
    var b := BuyBook(k, [], 0.0);
    assert 100.0 * b.orders[0].intent.quantity == 1000.0;
    assert Fills(b, 0, None, Some(100.0), AtPosition(false));
    ExecuteDrift(b, 0, None, Some(100.0), at, AtPosition(false), k);
  }

  // ---- The read model ----

  datatype PortfolioView = PortfolioView(totalValue: real, unrealisedPnl: real, totalPnl: real)

  function View(b: Book, k: AccountId): PortfolioView
    requires k in b.accounts
  {
    var unrealised := Sum(b.positions, Unrealised(k));
    PortfolioView(b.accounts[k].cash + Sum(b.positions, MarketValue(k)), unrealised,
                  b.accounts[k].realisedPnl + unrealised)
  }

  /** The reported figures are the account's cash and sums over its own positions. */
  lemma ViewIsOwn(b: Book, k: AccountId)
    requires k in b.accounts
    ensures var own := PositionsOf(b.positions, k);
            && View(b, k).totalValue == b.accounts[k].cash + Sum(own, (p: Position) => p.quantity * p.currentPrice)
            && View(b, k).unrealisedPnl == Sum(own, (p: Position) => p.unrealisedPnl)
            && View(b, k).totalPnl == b.accounts[k].realisedPnl + Sum(own, (p: Position) => p.unrealisedPnl)
  {
    SumOwn(b.positions, k, MarketValue(k), (p: Position) => p.quantity * p.currentPrice);
    SumOwn(b.positions, k, Unrealised(k), (p: Position) => p.unrealisedPnl);
  }

  /** Reported P&L is account value above opening capital exactly when the books balance. */
  lemma TotalPnlIsGain(b: Book, k: AccountId)
    requires WellFormed(b) && k in b.accounts
    ensures View(b, k).totalPnl == View(b, k).totalValue - b.accounts[k].initialCapital - Drift(b, k)
    ensures View(b, k).totalPnl == View(b, k).totalValue - b.accounts[k].initialCapital <==> Drift(b, k) == 0.0
  {
    forall i | 0 <= i < |b.positions|
      ensures MarketValue(k)(b.positions[i]) == Unrealised(k)(b.positions[i]) + Cost(k)(b.positions[i])
    {
      var p := b.positions[i];
      assert PositionOk(p);
      assert (p.currentPrice - p.averageCost) * p.quantity == p.quantity * p.currentPrice - p.quantity * p.averageCost;
    }
    SumLinear(b.positions, MarketValue(k), Unrealised(k), Cost(k));
  }

  // ---- Resets, marks and new accounts ----

  lemma {:induction false} WithoutSum(ps: seq<Position>, k: AccountId, f: Position -> real)
    requires forall p: Position :: p.account == k ==> f(p) == 0.0
    ensures Sum(Without(ps, k), f) == Sum(ps, f)
  {
    if |ps| > 0 {
      WithoutSum(ps[1..], k, f);
      SumConcat([ps[0]], Without(ps[1..], k), f);
    }
  }

  lemma NoneOf(ps: seq<Position>, k: AccountId, f: Position -> real)
    requires forall i :: 0 <= i < |ps| ==> ps[i].account != k
    requires forall p: Position :: p.account != k ==> f(p) == 0.0
    ensures Sum(ps, f) == 0.0
  {
    SumZero(ps, f);
  }

  /**
   * A reset that goes through puts its own account in balance. One that fails
   * unbalances it by the cost of the positions it has deleted, and no other
   * account moves.
   */
  lemma ResetDrift(b: Book, k: AccountId, fault: ResetFault, j: AccountId)
    requires WellFormed(b) && j in Reset(b, k, fault).accounts
    ensures j == k && fault.Saves() ==> Drift(Reset(b, k, fault), j) == 0.0 && View(Reset(b, k, fault), k).totalPnl == 0.0
    ensures j == k && !fault.Saves() ==>
              Drift(Reset(b, k, fault), j) == (if k in b.accounts then Drift(b, k) else 0.0)
                                              - if fault.positionsKept then 0.0 else Sum(b.positions, Cost(k))
    ensures j != k ==> j in b.accounts && Drift(Reset(b, k, fault), j) == Drift(b, j)
  {
    if j == k {
      NoneOf(Without(b.positions, k), k, Cost(k));
      NoneOf(Without(b.positions, k), k, Unrealised(k));
      if k !in b.accounts {
        NoneOf(b.positions, k, Cost(k));
      }
    } else {
      WithoutSum(b.positions, k, Cost(j));
    }
  }

  /** A balanced account stays balanced through a reset exactly when it is saved, or its positions survive or cost nothing. */
  lemma ResetBalancedIff(b: Book, k: AccountId, fault: ResetFault)
    requires WellFormed(b) && k in b.accounts && Drift(b, k) == 0.0
    ensures k in Reset(b, k, fault).accounts
    ensures Drift(Reset(b, k, fault), k) == 0.0
            <==> fault.Saves() || fault.positionsKept || Sum(b.positions, Cost(k)) == 0.0
  {
    ResetDrift(b, k, fault, k);
  }

  /** Ten held at 100, and a reset whose deletions apply and whose save fails: the cash they cost is missing. */
  lemma FailedResetUnbalances(k: AccountId)
    ensures var held := Position(k, "TCS", 10.0, 100.0, 100.0, 0.0, None);
            var b := BuyBook(k, [held], 1000.0); var after := Reset(b, k, ResetFault(false, false, false, true));
            && WellFormed(b) && k in b.accounts && Drift(b, k) == 0.0
            && k in after.accounts && after.positions == [] && Drift(after, k) == -1000.0
  {
    var held := Position(k, "TCS", 10.0, 100.0, 100.0, 0.0, None);
    var b := BuyBook(k, [held], 1000.0);
    assert PositionOk(held);
    SumAppend([], held, Cost(k));
    assert [] + [held] == [held] && Sum(b.positions, Cost(k)) == 1000.0;
    ResetDrift(b, k, ResetFault(false, false, false, true), k);
  }

  lemma RefreshDrift(b: Book, user: string, quotes: map<(string, string), real>, k: AccountId)
    requires k in b.accounts
    ensures Drift(Refresh(b, user, quotes), k) == Drift(b, k)
  {
    SumSame(b.positions, Refresh(b, user, quotes).positions, Cost(k));
  }

  lemma EnsureDrift(b: Book, k: AccountId, capital: real, j: AccountId)
    requires WellFormed(b) && j in Ensure(b, k, capital).accounts
    ensures Drift(Ensure(b, k, capital), j) == if j in b.accounts then Drift(b, j) else 0.0
  {
    if j !in b.accounts {
      NoneOf(b.positions, j, Cost(j));
    }
  }
}
