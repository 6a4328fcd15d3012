/**
 * What the limits on an account measure (this session's loss, its own open
 * positions, the risk down to their stops) and exactly when the gate turns a
 * BUY away for one of them.
 */
module GateLimits {
  import opened Wrappers
  import opened Sums
  import opened Arithmetic
  import opened Records
  import opened Ledger
  import opened BookValue
  import opened MarketSession
  import opened RiskLimits

  /** The last 09:15 IST at or before `now`. */
  predicate OpenOf(open: int, now: int) {
    IsOpen(open) && open <= now < open + MS_PER_DAY
  }

  /** The account's trades in `earlier` are from before the open, those in `today` from then on. */
  ghost predicate SplitAtOpen(ts: seq<Trade>, k: AccountId, open: int, earlier: seq<Trade>, today: seq<Trade>) {
    && ts == earlier + today
    && (forall i :: 0 <= i < |earlier| && earlier[i].account == k ==> earlier[i].executedAt < open)
    && (forall i :: 0 <= i < |today| && today[i].account == k ==> open <= today[i].executedAt)
  }

  /** The session's P&L is what this session's trades realised; earlier ones add nothing. */
  lemma SessionPnlIsTodays(b: Book, k: AccountId, now: int, order: Option<Prospective>, open: int, earlier: seq<Trade>, today: seq<Trade>)
    requires k in b.accounts && OpenOf(open, now) && SplitAtOpen(b.trades, k, open, earlier, today)
    ensures StateFrom(b, k, now, order).sessionPnl == Sum(today, TradePnl(k))
  {
    SessionStartIsTheOpen(now, open);
    SumConcat(earlier, today, SessionPnl(k, open));
    SumZero(earlier, SessionPnl(k, open));
    forall i | 0 <= i < |today| ensures SessionPnl(k, open)(today[i]) == TradePnl(k)(today[i]) {}
    SumMatch(today, SessionPnl(k, open), today, TradePnl(k));
  }

  /** The execution stores its trade. */
  predicate BooksTrade(b: Book, id: nat, requester: Option<string>, ltp: Option<real>, fault: Fault) {
    Fills(b, id, requester, ltp, fault) && !fault.AtPosition? && !fault.AtTrade?
  }

  /** What the account gave for the shares of this symbol, per share. */
  function HeldAt(b: Book, intent: Intent): real
    requires FindPosition(b.positions, intent.account, intent.symbol).Some?
  {
    b.positions[FindPosition(b.positions, intent.account, intent.symbol).value].averageCost
  }

  /** The execution books a SELL of this account at or after the open. */
  predicate SellsToday(b: Book, id: nat, requester: Option<string>, ltp: Option<real>, at: int, fault: Fault, k: AccountId, open: int) {
    && BooksTrade(b, id, requester, ltp, fault) && b.orders[id].intent.account == k
    && b.orders[id].intent.side.Sell? && open <= at
  }

  lemma ExecuteLogs(b: Book, id: nat, requester: Option<string>, ltp: Option<real>, at: int, fault: Fault)
    requires WellFormed(b)
    ensures Execute(b, id, requester, ltp, at, fault).0.trades
            == b.trades + if BooksTrade(b, id, requester, ltp, fault) then [BookedTrade(b, id, b.orders[id].intent, ltp.value, at)] else []
  {
  }

  /** A log longer by one trade. */
  lemma LogMovesSessionPnl(b: Book, b': Book, trade: Trade, k: AccountId, now: int, open: int)
    requires k in b.accounts && k in b'.accounts && OpenOf(open, now) && b'.trades == b.trades + [trade]
    ensures StateFrom(b', k, now, None).sessionPnl
            == StateFrom(b, k, now, None).sessionPnl + if trade.account == k && open <= trade.executedAt then trade.realisedPnl else 0.0
  {
    SessionStartIsTheOpen(now, open);
    SumAppend(b.trades, trade, SessionPnl(k, open));
  }

  /** What a booked trade realises: nothing for a BUY, price less average cost for each share sold. */
  lemma BookedPnl(b: Book, id: nat, intent: Intent, price: real, at: int)
    requires intent.side.Sell? ==> FindPosition(b.positions, intent.account, intent.symbol).Some?
    ensures BookedTrade(b, id, intent, price, at).realisedPnl
            == if intent.side.Sell? then (price - HeldAt(b, intent)) * intent.quantity else 0.0
  {
  }

  /** What an execution adds to the session's P&L of an account. */
  function SessionGain(b: Book, id: nat, requester: Option<string>, ltp: Option<real>, at: int, fault: Fault, k: AccountId, open: int): real {
    if SellsToday(b, id, requester, ltp, at, fault, k, open)
    then (ltp.value - HeldAt(b, b.orders[id].intent)) * b.orders[id].intent.quantity else 0.0
  }

  /** The same, for any book whose log is the one the execution leaves. */
  lemma LogGains(b: Book, b': Book, id: nat, requester: Option<string>, ltp: Option<real>, at: int, fault: Fault,
                 k: AccountId, now: int, open: int)
    requires k in b.accounts && k in b'.accounts && OpenOf(open, now)
    requires b'.trades == b.trades + if BooksTrade(b, id, requester, ltp, fault)
                                     then [BookedTrade(b, id, b.orders[id].intent, ltp.value, at)] else []
    ensures StateFrom(b', k, now, None).sessionPnl
            == StateFrom(b, k, now, None).sessionPnl + SessionGain(b, id, requester, ltp, at, fault, k, open)
  {
    if BooksTrade(b, id, requester, ltp, fault) {
      LogMovesSessionPnl(b, b', BookedTrade(b, id, b.orders[id].intent, ltp.value, at), k, now, open);
      BookedPnl(b, id, b.orders[id].intent, ltp.value, at);
    } else {
      assert b'.trades == b.trades;
    }
  }

  /**
   * An execution moves the session's P&L exactly when it books a SELL of this
   * account at or after the open, and then by price less average cost for each
   * share; a BUY, another account or an earlier SELL leaves it.
   */
  lemma ExecuteMovesSessionPnl(b: Book, id: nat, requester: Option<string>, ltp: Option<real>, at: int, fault: Fault,
                               k: AccountId, now: int, open: int)
    requires WellFormed(b) && k in b.accounts && OpenOf(open, now)
    ensures k in Execute(b, id, requester, ltp, at, fault).0.accounts
    ensures StateFrom(Execute(b, id, requester, ltp, at, fault).0, k, now, None).sessionPnl
            == StateFrom(b, k, now, None).sessionPnl + SessionGain(b, id, requester, ltp, at, fault, k, open)
  {
    ExecuteKeepsWellFormed(b, id, requester, ltp, at, fault);
    ExecuteLogs(b, id, requester, ltp, at, fault);
    LogGains(b, Execute(b, id, requester, ltp, at, fault).0, id, requester, ltp, at, fault, k, now, open);
  }

  // ---- What the limits measure ----

  lemma {:induction false} SumOfOnes(ps: seq<Position>)
    ensures Sum(ps, (p: Position) => 1.0) == |ps| as real
  {
    if |ps| > 0 {
      SumOfOnes(ps[1..]);
    }
  }

  /** What is measured against the limits: account value, the account's own open positions, and the sum of their risks. */
  lemma StateIsOwn(b: Book, k: AccountId, now: int)
    requires k in b.accounts
    ensures var own := PositionsOf(b.positions, k);
            && StateFrom(b, k, now, None).accountValue == View(b, k).totalValue
            && StateFrom(b, k, now, None).openPositions == |own| as real
            && StateFrom(b, k, now, None).openRisk == Sum(own, (p: Position) => PositionRisk(p.quantity, p.averageCost, p.stopLoss))
  {
    var own := PositionsOf(b.positions, k);
    SumOwn(b.positions, k, Count(k), (p: Position) => 1.0);
    SumOfOnes(own);
    SumOwn(b.positions, k, Risk(k), (p: Position) => PositionRisk(p.quantity, p.averageCost, p.stopLoss));
  }

  lemma StopInside(averageCost: real, stopLoss: Option<real>)
    requires averageCost > 0.0
    ensures 0.0 < EffectiveStop(averageCost, stopLoss) < averageCost
    ensures EffectiveStop(averageCost, None) == 0.95 * averageCost
    ensures stopLoss.Some? && 0.0 < stopLoss.value < averageCost ==> EffectiveStop(averageCost, stopLoss) == stopLoss.value
    ensures !(stopLoss.Some? && 0.0 < stopLoss.value < averageCost) ==> EffectiveStop(averageCost, stopLoss) == 0.95 * averageCost
  {
  }

  /** The risk of a position with a positive size and cost lies strictly between nothing and its cost. */
  lemma RiskInside(quantity: real, averageCost: real, stopLoss: Option<real>)
    requires quantity > 0.0 && averageCost > 0.0
    ensures 0.0 < PositionRisk(quantity, averageCost, stopLoss) < quantity * averageCost
  {
    StopInside(averageCost, stopLoss);
    RiskIsDistance(quantity, averageCost, stopLoss);
    Scale(EffectiveStop(averageCost, stopLoss), averageCost, quantity);
    Scale(0.0, EffectiveStop(averageCost, stopLoss), quantity);
  }

  /**
   * Without a stop it is the assumed five percent of the cost. Declaring one
   * changes it exactly when the stop is strictly between zero and the average
   * cost, and not where the assumption puts it.
   */
  lemma StopCountsIff(quantity: real, averageCost: real, stop: real)
    requires quantity > 0.0 && averageCost > 0.0
    ensures PositionRisk(quantity, averageCost, None) == 0.05 * (quantity * averageCost)
    ensures PositionRisk(quantity, averageCost, Some(stop)) != PositionRisk(quantity, averageCost, None)
            <==> 0.0 < stop < averageCost && stop != 0.95 * averageCost
  {
    var kept := EffectiveStop(averageCost, Some(stop));
    StopInside(averageCost, Some(stop));
    RiskIsDistance(quantity, averageCost, Some(stop));
    RiskIsDistance(quantity, averageCost, None);
    AssumedStopValue(quantity, averageCost);
    if kept * quantity == (0.95 * averageCost) * quantity {
      Cancel(kept, 0.95 * averageCost, quantity);
    }
  }

  // ---- The gate ----

  /** A percentage of account value against a limit; an account without value is at zero percent of anything. */
  lemma PctAgainst(n: real, value: real, limit: real)
    requires limit > 0.0
    ensures Pct(n, value) > limit <==> value > 0.0 && n * 100.0 > limit * value
    ensures Pct(n, value) <= -limit <==> value > 0.0 && n * 100.0 <= -limit * value
  {
    if value > 0.0 {
      Quotient(n, value);
      assert Pct(n, value) * value == n * 100.0;
      Scale(limit, Pct(n, value), value);
      Scale(Pct(n, value), -limit, value);
    }
  }

  /** The account holds the symbol already. */
  ghost predicate Holds(b: Book, k: AccountId, symbol: string) {
    exists i :: 0 <= i < |b.positions| && b.positions[i].account == k && b.positions[i].symbol == symbol
  }

  /** Down three percent or more of account value on this session's trades. */
  predicate LossHalts(b: Book, k: AccountId, today: seq<Trade>)
    requires k in b.accounts
  {
    View(b, k).totalValue > 0.0 && Sum(today, TradePnl(k)) * 100.0 <= -3.0 * View(b, k).totalValue
  }

  /** The order would be a sixth position. */
  ghost predicate NoRoom(b: Book, intent: Intent) {
    OpenPositions(b, intent.account) + (if Holds(b, intent.account, intent.symbol) then 0.0 else 1.0) > 5.0
  }

  /** With the order at this price, open risk is over three percent of account value. */
  predicate RisksTooMuch(b: Book, intent: Intent, price: real)
    requires intent.account in b.accounts
  {
    && View(b, intent.account).totalValue > 0.0
    && (Sum(b.positions, Risk(intent.account)) + PositionRisk(intent.quantity, price, intent.stopLoss)) * 100.0
       > 3.0 * View(b, intent.account).totalValue
  }

  lemma BlockedIff(b: Book, intent: Intent, price: real, now: int, open: int, earlier: seq<Trade>, today: seq<Trade>)
    requires intent.account in b.accounts
    requires OpenOf(open, now) && SplitAtOpen(b.trades, intent.account, open, earlier, today)
    ensures var blocked := StateFrom(b, intent.account, now, Some(Prospective(intent, price))).blocked;
            && (blocked == Some(DailyLoss) <==> LossHalts(b, intent.account, today))
            && (blocked == Some(TooManyPositions) <==> !LossHalts(b, intent.account, today) && NoRoom(b, intent))
            && (blocked == Some(TooMuchRisk) <==>
                  !LossHalts(b, intent.account, today) && !NoRoom(b, intent) && RisksTooMuch(b, intent, price))
  {
    var k, order := intent.account, Some(Prospective(intent, price));
    SessionPnlIsTodays(b, k, now, order, open, earlier, today);
    PctAgainst(Sum(today, TradePnl(k)), View(b, k).totalValue, 3.0);
    PctAgainst(ProspectiveRisk(b, k, order), View(b, k).totalValue, 3.0);
    assert FindPosition(b.positions, k, intent.symbol).Some? <==> Holds(b, k, intent.symbol);
  }

  /**
   * The gate's verdict on any order, for a log split at this session's open:
   * the order's own price if it has one and the market's otherwise; then cash;
   * then the three limits. Yesterday's trades do not matter.
   */
  lemma GateIff(b: Book, intent: Intent, ltp: Option<real>, now: int, open: int, earlier: seq<Trade>, today: seq<Trade>)
    requires intent.account in b.accounts
    requires OpenOf(open, now) && SplitAtOpen(b.trades, intent.account, open, earlier, today)
    ensures var priced := if intent.limitPrice.Some? then intent.limitPrice else ltp;
            var payable := priced.Some? && priced.value * intent.quantity <= b.accounts[intent.account].cash;
            var limited := payable && (LossHalts(b, intent.account, today) || NoRoom(b, intent) || RisksTooMuch(b, intent, priced.value));
            Gate(b, intent, ltp, now)
            == if priced.None? then Some(NoPrice)
               else if !payable then Some(InsufficientCash)
               else if limited then Some(RiskLimit)
               else None
  {
    var priced := if intent.limitPrice.Some? then intent.limitPrice else ltp;
    if priced.Some? {
      BlockedIff(b, intent, priced.value, now, open, earlier, today);
    }
  }
}
