/** What a reset deletes, what it leaves to everybody else, and that it commutes with their executions. */
module Resets {
  import opened Wrappers
  import opened Records
  import opened Ledger
  import opened BookValue
  import opened Trading

  // ---- What is left ----

  /** The trades of one account, in stored order. */
  function TradesOf(ts: seq<Trade>, j: AccountId): seq<Trade> {
    if |ts| == 0 then []
    else TradesOf(ts[..|ts| - 1], j) + if ts[|ts| - 1].account == j then [ts[|ts| - 1]] else []
  }

  lemma PositionsOfHead(p: Position, rest: seq<Position>, j: AccountId)
    ensures PositionsOf([p] + rest, j) == (if p.account == j then [p] else []) + PositionsOf(rest, j)
  {
    PositionsOfConcat([p], rest, j);
  }

  lemma {:induction false} PositionsOfOthers(ps: seq<Position>, k: AccountId, j: AccountId)
    ensures PositionsOf(Without(ps, k), j) == if j == k then [] else PositionsOf(ps, j)
  {
    if |ps| > 0 {
      PositionsOfOthers(ps[1..], k, j);
      PositionsOfHead(ps[0], ps[1..], j);
      PositionsOfHead(ps[0], Without(ps[1..], k), j);
      assert ps == [ps[0]] + ps[1..];
    }
  }

  lemma {:induction false} TradesOfOthers(ts: seq<Trade>, k: AccountId, j: AccountId)
    ensures TradesOf(TradesWithout(ts, k), j) == if j == k then [] else TradesOf(ts, j)
  {
    if |ts| > 0 {
      var before, last := ts[..|ts| - 1], ts[|ts| - 1];
      TradesOfOthers(before, k, j);
      assert (TradesWithout(before, k) + [last])[..|TradesWithout(before, k)|] == TradesWithout(before, k);
    }
  }

  /** Where its deletions applied, a reset leaves nothing of its own account. */
  lemma ResetForgets(b: Book, k: AccountId, fault: ResetFault)
    ensures var after := Reset(b, k, fault);
            && (!fault.ordersKept ==> forall id :: id in after.orders ==> after.orders[id].intent.account != k)
            && (!fault.positionsKept ==> PositionsOf(after.positions, k) == [])
            && (!fault.tradesKept ==> TradesOf(after.trades, k) == [])
  {
    PositionsOfOthers(b.positions, k, k);
    TradesOfOthers(b.trades, k, k);
  }

  /**
   * Whatever failed, a reset leaves everything of every other account: the
   * balances, each order, and the positions and trades in their order. It adds
   * no order of its own.
   */
  lemma ResetSparesOthers(b: Book, k: AccountId, fault: ResetFault, j: AccountId)
    requires j != k
    ensures var after := Reset(b, k, fault);
            && (j in after.accounts <==> j in b.accounts)
            && (j in b.accounts ==> after.accounts[j] == b.accounts[j])
            && (forall id :: id in b.orders && b.orders[id].intent.account == j ==> id in after.orders)
            && (forall id :: id in after.orders ==> id in b.orders && after.orders[id] == b.orders[id])
            && PositionsOf(after.positions, j) == PositionsOf(b.positions, j)
            && TradesOf(after.trades, j) == TradesOf(b.trades, j)
  {
    PositionsOfOthers(b.positions, k, j);
    TradesOfOthers(b.trades, k, j);
  }

  /** A saved reset leaves its account as it was opened: all cash, no P&L, nothing stored. */
  lemma SavedResetReopens(b: Book, k: AccountId, fault: ResetFault)
    requires fault.Saves()
    ensures var after := Reset(b, k, fault);
            var capital := if k in b.accounts then b.accounts[k].initialCapital else DEFAULT_CAPITAL;
            && k in after.accounts && after.accounts[k] == Account(capital, capital, 0.0)
            && PositionsOf(after.positions, k) == [] && TradesOf(after.trades, k) == []
            && forall id :: id in after.orders ==> after.orders[id].intent.account != k
  {
    ResetForgets(b, k, fault);
  }

  // ---- What a saved reset returns to ----

  /** Accounts stay, and so do the capitals they were opened with. */
  ghost predicate CapitalKept(b: Book, b': Book) {
    forall k :: k in b.accounts ==> k in b'.accounts && b'.accounts[k].initialCapital == b.accounts[k].initialCapital
  }

  lemma ExecuteKeepsCapital(b: Book, id: nat, requester: Option<string>, ltp: Option<real>, at: int, fault: Fault)
    requires WellFormed(b)
    ensures CapitalKept(b, Execute(b, id, requester, ltp, at, fault).0)
  {
  }

  lemma PlaceKeepsCapital(b: Book, intent: Intent, env: PlaceEnv)
    requires WellFormed(b) && intent.quantity >= 1.0
    ensures CapitalKept(b, Place(b, intent, env).0)
  {
    var b0 := Ensure(b, intent.account, DEFAULT_CAPITAL);
    EnsureKeepsWellFormed(b, intent.account, DEFAULT_CAPITAL);
    InsertKeepsWellFormed(b0, intent);
    ExecuteKeepsCapital(InsertOrder(b0, intent), b0.nextOrder, None, env.fillLtp, env.at, env.fault);
  }

  lemma {:induction false} SquareOffKeepsCapital(b: Book, listed: seq<Position>, envs: nat -> FlattenEnv, n: nat)
    requires WellFormed(b) && Flattenable(b, listed) && n <= |listed|
    ensures CapitalKept(b, SquareOffTo(b, listed, envs, n).0)
  {
    if n > 0 {
      SquareOffKeepsCapital(b, listed, envs, n - 1);
      var before, intent := SquareOffTo(b, listed, envs, n - 1).0, FlattenIntent(listed[n - 1]);
      InsertKeepsWellFormed(before, intent);
      ExecuteKeepsCapital(InsertOrder(before, intent), before.nextOrder, None,
                          envs(n - 1).ltp, envs(n - 1).at, envs(n - 1).fault);
    }
  }

  lemma ResetKeepsCapital(b: Book, k: AccountId, fault: ResetFault)
    ensures CapitalKept(b, Reset(b, k, fault))
  {
  }

  lemma OpKeepsCapital(b: Book, op: Op)
    requires WellFormed(b) && Valid(op)
    ensures CapitalKept(b, ApplyOp(b, op))
  {
    match op
    case OpOpen(k, capital) => assert CapitalKept(b, Ensure(b, k, capital));
    case OpReset(k, fault) => ResetKeepsCapital(b, k, fault);
    case OpPlace(intent, env) => PlaceKeepsCapital(b, intent, env);
    case OpExecute(id, requester, ltp, at, fault) => ExecuteKeepsCapital(b, id, requester, ltp, at, fault);
    case OpRefresh(user, quotes) => assert CapitalKept(b, Refresh(b, user, quotes));
    case OpSquareOff(envs) => SquareOffKeepsCapital(b, b.positions, envs, |b.positions|);
  }

  lemma {:induction false} RunKeepsCapital(b: Book, ops: seq<Op>)
    requires WellFormed(b) && forall i :: 0 <= i < |ops| ==> Valid(ops[i])
    ensures CapitalKept(b, AfterOps(b, ops))
  {
    if |ops| > 0 {
      RunKeepsCapital(b, ops[..|ops| - 1]);
      OpKeepsCapital(AfterOps(b, ops[..|ops| - 1]), ops[|ops| - 1]);
    }
  }

  /**
   * An account opened with some capital starts with that much cash and no P&L,
   * and returns to exactly that at a saved reset, whatever was done in between:
   * trading, failing, other resets, or asking for it again with another capital.
   */
  lemma ResetReturnsToOpening(b: Book, k: AccountId, capital: real, ops: seq<Op>, fault: ResetFault)
    requires WellFormed(b) && k !in b.accounts && fault.Saves() && forall i :: 0 <= i < |ops| ==> Valid(ops[i])
    ensures k in Ensure(b, k, capital).accounts && Ensure(b, k, capital).accounts[k] == Account(capital, capital, 0.0)
    ensures WellFormed(Ensure(b, k, capital))
    ensures var after := Reset(AfterOps(Ensure(b, k, capital), ops), k, fault);
            k in after.accounts && after.accounts[k] == Account(capital, capital, 0.0)
  {
    EnsureKeepsWellFormed(b, k, capital);
    RunKeepsCapital(Ensure(b, k, capital), ops);
  }

  // ---- Executions of other accounts ----

  lemma Associative(xs: seq<Position>, ys: seq<Position>, zs: seq<Position>)
    ensures xs + (ys + zs) == (xs + ys) + zs
  {
  }

  lemma {:induction false} WithoutConcat(ps: seq<Position>, qs: seq<Position>, k: AccountId)
    ensures Without(ps + qs, k) == Without(ps, k) + Without(qs, k)
  {
    if |ps| == 0 {
      assert ps + qs == qs;
    } else {
      assert (ps + qs)[0] == ps[0] && (ps + qs)[1..] == ps[1..] + qs;
      WithoutConcat(ps[1..], qs, k);
      Associative([ps[0]], Without(ps[1..], k), Without(qs, k));
    }
  }

  lemma WithoutPieces(before: seq<Position>, p: Position, rest: seq<Position>, k: AccountId)
    requires p.account != k
    ensures Without(before + [p] + rest, k) == Without(before, k) + [p] + Without(rest, k)
  {
    WithoutConcat(before + [p], rest, k);
    WithoutConcat(before, [p], k);
  }

  lemma Pieces(ps: seq<Position>, i: nat, p: Position)
    requires i < |ps|
    ensures ps == ps[..i] + [ps[i]] + ps[i + 1..] && ps[i := p] == ps[..i] + [p] + ps[i + 1..]
  {
  }

  /** Around a position of another account. */
  lemma WithoutAround(ps: seq<Position>, i: nat, k: AccountId)
    requires i < |ps| && ps[i].account != k
    ensures Without(ps, k) == Without(ps[..i], k) + [ps[i]] + Without(ps[i + 1..], k)
  {
    Pieces(ps, i, ps[i]);
    WithoutPieces(ps[..i], ps[i], ps[i + 1..], k);
  }

  /** Where another account's position ends up once `k`'s are gone. */
  lemma FindWithout(ps: seq<Position>, k: AccountId, j: AccountId, symbol: string)
    requires PositionsOk(ps) && PositionsOk(Without(ps, k)) && j != k
    ensures var found, left := FindPosition(ps, j, symbol), FindPosition(Without(ps, k), j, symbol);
            match found
            case None => left.None?
            case Some(i) => left == Some(|Without(ps[..i], k)|) && Without(ps, k)[left.value] == ps[i]
  {
    match FindPosition(ps, j, symbol)
    case None =>
      forall i | 0 <= i < |Without(ps, k)| ensures !IsFor(Without(ps, k)[i], j, symbol) {
        assert Without(ps, k)[i] in ps;
      }
    case Some(i) =>
      WithoutAround(ps, i, k);
      FindUnique(Without(ps, k), |Without(ps[..i], k)|);
  }

  lemma SpliceUpdate(before: seq<Position>, p: Position, rest: seq<Position>, q: Position)
    ensures (before + [p] + rest)[|before| := q] == before + [q] + rest
  {
  }

  lemma UpdateWithout(ps: seq<Position>, i: nat, p: Position, k: AccountId)
    requires i < |ps| && ps[i].account != k && p.account == ps[i].account
    ensures |Without(ps[..i], k)| < |Without(ps, k)|
    ensures Without(ps[i := p], k) == Without(ps, k)[|Without(ps[..i], k)| := p]
  {
    Pieces(ps, i, p);
    WithoutPieces(ps[..i], ps[i], ps[i + 1..], k);
    WithoutPieces(ps[..i], p, ps[i + 1..], k);
    SpliceUpdate(Without(ps[..i], k), ps[i], Without(ps[i + 1..], k), p);
  }

  lemma SpliceRemove(before: seq<Position>, p: Position, rest: seq<Position>)
    ensures var ps := before + [p] + rest; ps[..|before|] + ps[|before| + 1..] == before + rest
  {
  }

  lemma RemoveWithout(ps: seq<Position>, i: nat, k: AccountId)
    requires i < |ps| && ps[i].account != k
    ensures var n := |Without(ps[..i], k)|;
            && n < |Without(ps, k)|
            && Without(ps[..i] + ps[i + 1..], k) == Without(ps, k)[..n] + Without(ps, k)[n + 1..]
  {
    Pieces(ps, i, ps[i]);
    WithoutPieces(ps[..i], ps[i], ps[i + 1..], k);
    WithoutConcat(ps[..i], ps[i + 1..], k);
    SpliceRemove(Without(ps[..i], k), ps[i], Without(ps[i + 1..], k));
  }

  /** A write to a held position, before or after `k`'s are gone. */
  lemma WriteHeldWithout(ps: seq<Position>, intent: Intent, price: real, k: AccountId, i: nat)
    requires PositionsOk(ps) && PositionsOk(Without(ps, k)) && intent.quantity > 0.0 && intent.account != k
    requires FindPosition(ps, intent.account, intent.symbol) == Some(i)
    requires FindPosition(Without(ps, k), intent.account, intent.symbol) == Some(|Without(ps[..i], k)|)
    requires Without(ps, k)[|Without(ps[..i], k)|] == ps[i]
    ensures Without(WritePosition(ps, intent, price), k) == WritePosition(Without(ps, k), intent, price)
  {
    assert PositionOk(ps[i]);
    if intent.side.Buy? {
      UpdateWithout(ps, i, Added(ps[i], intent, price), k);
    } else if ps[i].quantity == intent.quantity {
      RemoveWithout(ps, i, k);
    } else {
      UpdateWithout(ps, i, Reduced(ps[i], intent, price), k);
    }
  }

  /** Writing another account's position and deleting `k`'s positions can be done in either order. */
  lemma WriteWithout(ps: seq<Position>, intent: Intent, price: real, k: AccountId)
    requires PositionsOk(ps) && PositionsOk(Without(ps, k)) && intent.quantity > 0.0 && intent.account != k
    requires intent.side.Sell? ==> FindPosition(ps, intent.account, intent.symbol).Some?
    ensures intent.side.Sell? ==> FindPosition(Without(ps, k), intent.account, intent.symbol).Some?
    ensures Without(WritePosition(ps, intent, price), k) == WritePosition(Without(ps, k), intent, price)
  {
    FindWithout(ps, k, intent.account, intent.symbol);
    match FindPosition(ps, intent.account, intent.symbol)
    case None =>
      WithoutConcat(ps, [Opened(intent, price)], k);
      assert Without([Opened(intent, price)], k) == [Opened(intent, price)];
    case Some(i) =>
      WriteHeldWithout(ps, intent, price, k, i);
  }

  lemma LogWithout(ts: seq<Trade>, trade: Trade, k: AccountId)
    requires trade.account != k
    ensures TradesWithout(ts + [trade], k) == TradesWithout(ts, k) + [trade]
  {
    assert (ts + [trade])[..|ts|] == ts;
  }

  // ---- Each step of an execution, before or after a reset ----

  /** The execution's own account and position, which are all it looks at besides its order. */
  ghost predicate SameHolding(b: Book, b': Book, intent: Intent) {
    var found, found' := FindPosition(b.positions, intent.account, intent.symbol), FindPosition(b'.positions, intent.account, intent.symbol);
    && (intent.account in b.accounts <==> intent.account in b'.accounts)
    && (intent.account in b.accounts ==> b.accounts[intent.account] == b'.accounts[intent.account])
    && (found.Some? <==> found'.Some?)
    && (found.Some? ==> b.positions[found.value] == b'.positions[found'.value])
  }

  lemma HoldingSurvivesReset(b: Book, k: AccountId, fault: ResetFault, intent: Intent)
    requires WellFormed(b) && intent.account != k
    ensures SameHolding(b, Reset(b, k, fault), intent)
  {
    WithoutKeepsPositionsOk(b.positions, k);
    FindWithout(b.positions, k, intent.account, intent.symbol);
  }

  lemma SameRefusal(b: Book, b': Book, id: nat, requester: Option<string>, ltp: Option<real>, failing: Fault)
    requires id in b.orders && id in b'.orders && b.orders[id] == b'.orders[id] && SameHolding(b, b', b.orders[id].intent)
    ensures Refused(b', id, requester, ltp, failing) == Refused(b, id, requester, ltp, failing)
  {
    var intent := b.orders[id].intent;
    if intent.account in b.accounts && ltp.Some? {
      assert Covered(b', intent, ltp.value) == Covered(b, intent, ltp.value);
    }
  }

  lemma SameTrade(b: Book, b': Book, id: nat, intent: Intent, price: real, at: int)
    requires SameHolding(b, b', intent)
    ensures SalePnl(b', intent, price) == SalePnl(b, intent, price)
    ensures BookedTrade(b', id, intent, price, at) == BookedTrade(b, id, intent, price, at)
  {
  }

  lemma OrderStep(b: Book, id: nat, status: Status, price: Option<real>, k: AccountId, fault: ResetFault)
    requires id in b.orders && b.orders[id].intent.account != k
    ensures id in Reset(b, k, fault).orders && Reset(b, k, fault).orders[id] == b.orders[id]
    ensures Reset(SetOrder(b, id, status, price), k, fault) == SetOrder(Reset(b, k, fault), id, status, price)
  {
    var order := b.orders[id].(status := status, executedPrice := price);
    assert OrdersWithout(b.orders[id := order], k) == OrdersWithout(b.orders, k)[id := order];
  }

  lemma UpdatesCommute(accounts: map<AccountId, Account>, j: AccountId, a: Account, k: AccountId, c: Account)
    requires j != k
    ensures accounts[j := a][k := c] == accounts[k := c][j := a]
  {
  }

  lemma AccountStep(b: Book, j: AccountId, a: Account, k: AccountId, fault: ResetFault)
    requires j in b.accounts && j != k
    ensures Reset(b.(accounts := b.accounts[j := a]), k, fault)
            == Reset(b, k, fault).(accounts := Reset(b, k, fault).accounts[j := a])
  {
    var start := Ensure(b, k, DEFAULT_CAPITAL).accounts;
    UpdatesCommute(b.accounts, j, a, k, OpeningAccount(DEFAULT_CAPITAL));
    UpdatesCommute(start, j, a, k, OpeningAccount(start[k].initialCapital));
  }

  /** The account as the payment leaves it. */
  function Paid(b: Book, intent: Intent, price: real): Account
    requires intent.account in b.accounts
  {
    MoveCash(b, intent, price).accounts[intent.account]
  }

  lemma SamePayment(b: Book, b': Book, intent: Intent, price: real)
    requires intent.account in b.accounts && intent.account in b'.accounts && SameHolding(b, b', intent)
    ensures Paid(b', intent, price) == Paid(b, intent, price)
    ensures MoveCash(b, intent, price) == b.(accounts := b.accounts[intent.account := Paid(b, intent, price)])
    ensures MoveCash(b', intent, price) == b'.(accounts := b'.accounts[intent.account := Paid(b, intent, price)])
  {
    SameTrade(b, b', 0, intent, price, 0);
  }

  lemma MoneyStep(b: Book, b': Book, intent: Intent, price: real, k: AccountId, fault: ResetFault)
    requires intent.account != k && intent.account in b.accounts && intent.account in b'.accounts
    requires b' == Reset(b, k, fault) && SameHolding(b, b', intent)
    ensures Reset(MoveCash(b, intent, price), k, fault) == MoveCash(b', intent, price)
  {
    SamePayment(b, b', intent, price);
    AccountStep(b, intent.account, Paid(b, intent, price), k, fault);
  }

  lemma PositionStep(b: Book, intent: Intent, price: real, k: AccountId, fault: ResetFault)
    requires PositionsOk(b.positions) && intent.account != k && intent.quantity > 0.0
    requires intent.side.Sell? ==> FindPosition(b.positions, intent.account, intent.symbol).Some?
    ensures PositionsOk(Reset(b, k, fault).positions)
    ensures intent.side.Sell? ==> FindPosition(Reset(b, k, fault).positions, intent.account, intent.symbol).Some?
    ensures (if fault.positionsKept then WritePosition(b.positions, intent, price) else Without(WritePosition(b.positions, intent, price), k))
            == WritePosition(Reset(b, k, fault).positions, intent, price)
  {
    WithoutKeepsPositionsOk(b.positions, k);
    WriteWithout(b.positions, intent, price, k);
  }

  lemma TradeStep(b: Book, trade: Trade, k: AccountId, fault: ResetFault)
    requires trade.account != k
    ensures (if fault.tradesKept then b.trades + [trade] else TradesWithout(b.trades + [trade], k)) == Reset(b, k, fault).trades + [trade]
  {
    LogWithout(b.trades, trade, k);
  }

  /** Positions are reset independently of accounts and trades. */
  lemma PartsReset(b: Book, accounts: map<AccountId, Account>, ps: seq<Position>, ts: seq<Trade>, k: AccountId, fault: ResetFault)
    ensures Reset(b.(accounts := accounts, positions := ps, trades := ts), k, fault)
            == Reset(b.(accounts := accounts), k, fault).(
                 positions := if fault.positionsKept then ps else Without(ps, k),
                 trades := if fault.tradesKept then ts else TradesWithout(ts, k))
  {
  }

  /** A position write, and a trade, on top of accounts for which the reset is already known to commute. */
  lemma WriteStep(b: Book, b': Book, paid: map<AccountId, Account>, paid': map<AccountId, Account>,
                  intent: Intent, price: real, trade: Trade, k: AccountId, fault: ResetFault)
    requires PositionsOk(b.positions) && PositionsOk(b'.positions) && intent.account != k && intent.quantity > 0.0 && trade.account != k
    requires b' == Reset(b, k, fault) && Reset(b.(accounts := paid), k, fault) == b'.(accounts := paid')
    requires intent.side.Sell? ==> FindPosition(b.positions, intent.account, intent.symbol).Some?
    requires intent.side.Sell? ==> FindPosition(b'.positions, intent.account, intent.symbol).Some?
    ensures var written, written' := WritePosition(b.positions, intent, price), WritePosition(b'.positions, intent, price);
            && Reset(b.(accounts := paid, positions := written), k, fault) == b'.(accounts := paid', positions := written')
            && Reset(b.(accounts := paid, positions := written, trades := b.trades + [trade]), k, fault)
               == b'.(accounts := paid', positions := written', trades := b'.trades + [trade])
  {
    var written := WritePosition(b.positions, intent, price);
    PositionStep(b, intent, price, k, fault);
    TradeStep(b, trade, k, fault);
    PartsReset(b, paid, written, b.trades, k, fault);
    PartsReset(b, paid, written, b.trades + [trade], k, fault);
  }

  /** What a fill has stored before the order's status changes. */
  function Stored(b: Book, id: nat, price: real, at: int, failing: Fault): Book
    requires WellFormed(b) && id in b.orders && Covered(b, b.orders[id].intent, price)
  {
    var intent := b.orders[id].intent;
    var paid, written := MoveCash(b, intent, price).accounts, WritePosition(b.positions, intent, price);
    match failing
    case AtPosition(restored) => if restored then b else b.(accounts := paid)
    case AtTrade(restored) => b.(accounts := if restored then b.accounts else paid, positions := written)
    case _ => b.(accounts := paid, positions := written, trades := b.trades + [BookedTrade(b, id, intent, price, at)])
  }

  predicate SavesOrder(failing: Fault) {
    !failing.AtPosition? && !failing.AtTrade? && !failing.AtSave?
  }

  lemma FillIsStored(b: Book, id: nat, price: real, at: int, failing: Fault)
    requires WellFormed(b) && id in b.orders && Covered(b, b.orders[id].intent, price)
    ensures var stored := Stored(b, id, price, at, failing);
            && stored.orders == b.orders
            && AfterFill(b, id, price, at, failing) == if SavesOrder(failing) then SetOrder(stored, id, Executed, Some(price)) else stored
  {
  }

  /** The three states an execution can stop in after its payment, and the write without it. */
  lemma StoredParts(b: Book, b': Book, id: nat, intent: Intent, price: real, at: int, k: AccountId, fault: ResetFault)
    requires WellFormed(b) && WellFormed(b') && intent.account != k && intent.quantity > 0.0
    requires intent.account in b.accounts && intent.account in b'.accounts
    requires b' == Reset(b, k, fault) && SameHolding(b, b', intent)
    requires intent.side.Sell? ==> FindPosition(b.positions, intent.account, intent.symbol).Some?
    ensures var paid, paid' := MoveCash(b, intent, price).accounts, MoveCash(b', intent, price).accounts;
            var written, written' := WritePosition(b.positions, intent, price), WritePosition(b'.positions, intent, price);
            var trade := BookedTrade(b, id, intent, price, at);
            && BookedTrade(b', id, intent, price, at) == trade
            && Reset(b.(accounts := paid), k, fault) == b'.(accounts := paid')
            && Reset(b.(positions := written), k, fault) == b'.(positions := written')
            && Reset(b.(accounts := paid, positions := written), k, fault) == b'.(accounts := paid', positions := written')
            && Reset(b.(accounts := paid, positions := written, trades := b.trades + [trade]), k, fault)
               == b'.(accounts := paid', positions := written', trades := b'.trades + [trade])
  {
    var paid, paid' := MoveCash(b, intent, price).accounts, MoveCash(b', intent, price).accounts;
    var trade := BookedTrade(b, id, intent, price, at);
    SameTrade(b, b', id, intent, price, at);
    MoneyStep(b, b', intent, price, k, fault);
    WriteStep(b, b', paid, paid', intent, price, trade, k, fault);
    WriteStep(b, b', b.accounts, b'.accounts, intent, price, trade, k, fault);
  }

  lemma StoredStep(b: Book, b': Book, id: nat, price: real, at: int, failing: Fault, k: AccountId, fault: ResetFault)
    requires WellFormed(b) && id in b.orders && Covered(b, b.orders[id].intent, price) && b.orders[id].intent.account != k
    requires b' == Reset(b, k, fault) && SameHolding(b, b', b.orders[id].intent)
    requires WellFormed(b') && id in b'.orders && b'.orders[id] == b.orders[id] && Covered(b', b.orders[id].intent, price)
    ensures Reset(Stored(b, id, price, at, failing), k, fault) == Stored(b', id, price, at, failing)
  {
    StoredParts(b, b', id, b.orders[id].intent, price, at, k, fault);
  }

  /** A fill of another account's order. */
  lemma FillStep(b: Book, b': Book, id: nat, price: real, at: int, failing: Fault, k: AccountId, fault: ResetFault)
    requires WellFormed(b) && id in b.orders && Covered(b, b.orders[id].intent, price) && b.orders[id].intent.account != k
    requires b' == Reset(b, k, fault) && SameHolding(b, b', b.orders[id].intent)
    requires WellFormed(b') && id in b'.orders && b'.orders[id] == b.orders[id] && Covered(b', b.orders[id].intent, price)
    ensures Reset(AfterFill(b, id, price, at, failing), k, fault) == AfterFill(b', id, price, at, failing)
  {
    FillIsStored(b, id, price, at, failing);
    FillIsStored(b', id, price, at, failing);
    StoredStep(b, b', id, price, at, failing, k, fault);
    OrderStep(Stored(b, id, price, at, failing), id, Executed, Some(price), k, fault);
  }

  lemma RefusedStep(b: Book, b': Book, id: nat, requester: Option<string>, ltp: Option<real>, at: int, failing: Fault,
                    k: AccountId, fault: ResetFault)
    requires WellFormed(b) && id in b.orders && b.orders[id].intent.account != k
    requires b' == Reset(b, k, fault) && WellFormed(b')
    requires !Fills(b, id, requester, ltp, failing) && Refused(b', id, requester, ltp, failing) == Refused(b, id, requester, ltp, failing)
    ensures var (executed, outcome) := Execute(b, id, requester, ltp, at, failing);
            Execute(b', id, requester, ltp, at, failing) == (Reset(executed, k, fault), outcome)
  {
    OrderStep(b, id, Rejected, b.orders[id].executedPrice, k, fault);
  }

  lemma FilledStep(b: Book, b': Book, id: nat, requester: Option<string>, ltp: Option<real>, at: int, failing: Fault,
                   k: AccountId, fault: ResetFault)
    requires WellFormed(b) && id in b.orders && b.orders[id].intent.account != k
    requires b' == Reset(b, k, fault) && WellFormed(b') && SameHolding(b, b', b.orders[id].intent)
    requires id in b'.orders && b'.orders[id] == b.orders[id]
    requires Fills(b, id, requester, ltp, failing) && Fills(b', id, requester, ltp, failing)
    ensures var (executed, outcome) := Execute(b, id, requester, ltp, at, failing);
            Execute(b', id, requester, ltp, at, failing) == (Reset(executed, k, fault), outcome)
  {
    SameTrade(b, b', id, b.orders[id].intent, ltp.value, at);
    FillStep(b, b', id, ltp.value, at, failing, k, fault);
  }

  /**
   * Resetting one account and executing another's order can be done in either
   * order, whatever fails in either: the same books, and the same answer.
   */
  lemma ResetAndExecuteCommute(b: Book, k: AccountId, fault: ResetFault,
                               id: nat, requester: Option<string>, ltp: Option<real>, at: int, failing: Fault)
    requires WellFormed(b) && id in b.orders && b.orders[id].intent.account != k
    ensures WellFormed(Reset(b, k, fault))
    ensures var (executed, outcome) := Execute(b, id, requester, ltp, at, failing);
            Execute(Reset(b, k, fault), id, requester, ltp, at, failing) == (Reset(executed, k, fault), outcome)
  {
    var b', intent := Reset(b, k, fault), b.orders[id].intent;
    ResetKeepsWellFormed(b, k, fault);
    HoldingSurvivesReset(b, k, fault, intent);
    OrderStep(b, id, Rejected, None, k, fault);
    SameRefusal(b, b', id, requester, ltp, failing);
    if Fills(b, id, requester, ltp, failing) {
      FilledStep(b, b', id, requester, ltp, at, failing, k, fault);
    } else {
      RefusedStep(b, b', id, requester, ltp, at, failing, k, fault);
    }
  }
}
