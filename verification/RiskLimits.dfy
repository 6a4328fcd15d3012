/** The limits on an account and the gate every BUY passes before it executes. */
module RiskLimits {
  import opened Wrappers
  import opened Sums
  import opened Records
  import opened Ledger
  import opened BookValue
  import opened MarketSession

  const MAX_CONCURRENT_POSITIONS := 5.0
  const MAX_AGGREGATE_RISK_PCT := 3.0
  const MAX_DAILY_LOSS_PCT := 3.0
  const ASSUMED_STOP_PCT_WHEN_UNSET := 5.0

  /** A stop at or above the entry counts as no stop. */
  predicate ValidStop(averageCost: real, stopLoss: Option<real>) {
    stopLoss.Some? && 0.0 < stopLoss.value < averageCost
  }

  function PositionRisk(quantity: real, averageCost: real, stopLoss: Option<real>): real {
    if ValidStop(averageCost, stopLoss) then (averageCost - stopLoss.value) * quantity
    else averageCost * quantity * ASSUMED_STOP_PCT_WHEN_UNSET / 100.0
  }

  function Risk(k: AccountId): Position -> real {
    (p: Position) => if p.account == k then PositionRisk(p.quantity, p.averageCost, p.stopLoss) else 0.0
  }

  function SessionPnl(k: AccountId, from: int): Trade -> real {
    (t: Trade) => if t.account == k && t.executedAt >= from then t.realisedPnl else 0.0
  }

  datatype Block = DailyLoss | TooManyPositions | TooMuchRisk

  datatype RiskState = RiskState(
    accountValue: real, openPositions: real, openRisk: real, sessionPnl: real, blocked: Option<Block>)

  datatype Prospective = Prospective(intent: Intent, price: real)

  function Pct(n: real, accountValue: real): real {
    if accountValue > 0.0 then n / accountValue * 100.0 else 0.0
  }

  function OpenPositions(b: Book, k: AccountId): real {
    Sum(b.positions, Count(k))
  }

  /** Open positions once the prospective order is counted; adding to a held symbol opens none. */
  function ProspectiveCount(b: Book, k: AccountId, order: Option<Prospective>): real {
    OpenPositions(b, k) +
    if order.Some? && FindPosition(b.positions, k, order.value.intent.symbol).None? then 1.0 else 0.0
  }

  function ProspectiveRisk(b: Book, k: AccountId, order: Option<Prospective>): real {
    Sum(b.positions, Risk(k)) +
    if order.Some? then PositionRisk(order.value.intent.quantity, order.value.price, order.value.intent.stopLoss) else 0.0
  }

  function StateFrom(b: Book, k: AccountId, now: int, order: Option<Prospective>): RiskState
    requires k in b.accounts
  {
    var value := View(b, k).totalValue;
    var risk := ProspectiveRisk(b, k, order);
    var pnl := Sum(b.trades, SessionPnl(k, SessionStart(now)));
    var blocked :=
      if Pct(pnl, value) <= -MAX_DAILY_LOSS_PCT then Some(DailyLoss)
      else if ProspectiveCount(b, k, order) > MAX_CONCURRENT_POSITIONS then Some(TooManyPositions)
      else if Pct(risk, value) > MAX_AGGREGATE_RISK_PCT then Some(TooMuchRisk)
      else None;
    RiskState(value, OpenPositions(b, k), risk, pnl, blocked)
  }

  /** The price the gate uses: the limit price if one was sent, for any order type. */
  function GatePrice(intent: Intent, ltp: Option<real>): Option<real> {
    if intent.limitPrice.Some? then intent.limitPrice else ltp
  }

  /** Why the gate turns a BUY away, if it does. */
  function Gate(b: Book, intent: Intent, ltp: Option<real>, now: int): Option<Refusal>
    requires intent.account in b.accounts
  {
    match GatePrice(intent, ltp)
    case None => Some(NoPrice)
    case Some(price) =>
      if price * intent.quantity > b.accounts[intent.account].cash then Some(InsufficientCash)
      else if StateFrom(b, intent.account, now, Some(Prospective(intent, price))).blocked.Some? then Some(RiskLimit)
      else None
  }

  // ---- The gate predicts the account the fill produces ----

  lemma OpeningFill(b: Book, id: nat, price: real, at: int)
    requires WellFormed(b) && id in b.orders && b.orders[id].intent.side.Buy?
    requires FindPosition(b.positions, b.orders[id].intent.account, b.orders[id].intent.symbol).None?
    requires Covered(b, b.orders[id].intent, price)
    ensures var intent := b.orders[id].intent; var after := AfterFill(b, id, price, at, NoFault);
            && intent.account in after.accounts
            && after.accounts[intent.account].cash == b.accounts[intent.account].cash - price * intent.quantity
            && after.positions == b.positions + [Opened(intent, price)]
            && after.trades == b.trades + [BookedTrade(b, id, intent, price, at)]
            && BookedTrade(b, id, intent, price, at).realisedPnl == 0.0
  {
  }

  /**
   * A BUY of a symbol not held passed the gate and fills at any price it can
   * pay: account value does not move, one position opens, the session's P&L
   * stays, and the open risk is the gate's prediction corrected from the gate's
   * price to the fill's.
   */
  lemma FillAtAnyPrice(b: Book, id: nat, ltp: Option<real>, now: int, price: real, at: int, later: int)
    requires WellFormed(b) && id in b.orders && b.orders[id].intent.side.Buy?
    requires FindPosition(b.positions, b.orders[id].intent.account, b.orders[id].intent.symbol).None?
    requires b.orders[id].intent.account in b.accounts && Gate(b, b.orders[id].intent, ltp, now).None?
    requires Covered(b, b.orders[id].intent, price) && SessionStart(later) == SessionStart(now)
    ensures var intent := b.orders[id].intent; var k := intent.account;
            var g := GatePrice(intent, ltp).value;
            var after := AfterFill(b, id, price, at, NoFault);
            && k in after.accounts
            && View(after, k).totalValue == View(b, k).totalValue
            && StateFrom(after, k, later, None).openPositions == OpenPositions(b, k) + 1.0 <= MAX_CONCURRENT_POSITIONS
            && StateFrom(after, k, later, None).sessionPnl == StateFrom(b, k, now, None).sessionPnl
            && StateFrom(after, k, later, None).openRisk
               == StateFrom(b, k, now, Some(Prospective(intent, g))).openRisk
                  + PositionRisk(intent.quantity, price, intent.stopLoss) - PositionRisk(intent.quantity, g, intent.stopLoss)
  {
    var intent := b.orders[id].intent;
    var k := intent.account;
    OpeningFill(b, id, price, at);
    SumAppend(b.positions, Opened(intent, price), MarketValue(k));
    SumAppend(b.positions, Opened(intent, price), Risk(k));
    SumAppend(b.positions, Opened(intent, price), Count(k));
    SumAppend(b.trades, BookedTrade(b, id, intent, price, at), SessionPnl(k, SessionStart(now)));
    assert intent.quantity * price == price * intent.quantity;
  }

  /** What the account would risk with the order filled at this price, as a share of its value. */
  function FilledRiskPct(b: Book, intent: Intent, price: real): real
    requires intent.account in b.accounts
  {
    Pct(ProspectiveRisk(b, intent.account, Some(Prospective(intent, price))), View(b, intent.account).totalValue)
  }

  /**
   * The filled account is blocked exactly when the risk limit, taken at the
   * price of the fill, is exceeded; the gate has only looked at its own price.
   */
  lemma FilledIsBlockedIff(b: Book, id: nat, ltp: Option<real>, now: int, price: real, at: int, later: int)
    requires WellFormed(b) && id in b.orders && b.orders[id].intent.side.Buy?
    requires FindPosition(b.positions, b.orders[id].intent.account, b.orders[id].intent.symbol).None?
    requires b.orders[id].intent.account in b.accounts && Gate(b, b.orders[id].intent, ltp, now).None?
    requires Covered(b, b.orders[id].intent, price) && SessionStart(later) == SessionStart(now)
    ensures var intent := b.orders[id].intent; var after := AfterFill(b, id, price, at, NoFault);
            && intent.account in after.accounts
            && StateFrom(after, intent.account, later, None).blocked
               == if FilledRiskPct(b, intent, price) > MAX_AGGREGATE_RISK_PCT then Some(TooMuchRisk) else None
  {
    FillAtAnyPrice(b, id, ltp, now, price, at, later);
  }

  /**
   * A BUY of a symbol not held that passes the gate and fills at the gate's
   * price leaves account value unchanged, realises the open risk the gate
   * predicted, and leaves the account unblocked for the rest of the session.
   */
  lemma GatePredictsFill(b: Book, id: nat, ltp: Option<real>, now: int, at: int, later: int)
    requires WellFormed(b) && id in b.orders && b.orders[id].intent.side.Buy?
    requires FindPosition(b.positions, b.orders[id].intent.account, b.orders[id].intent.symbol).None?
    requires Gate(b, b.orders[id].intent, ltp, now).None?
    requires SessionStart(later) == SessionStart(now)
    ensures Covered(b, b.orders[id].intent, GatePrice(b.orders[id].intent, ltp).value)
    ensures var intent := b.orders[id].intent; var k := intent.account;
            var price := GatePrice(intent, ltp).value;
            var after := AfterFill(b, id, price, at, NoFault);
            && k in after.accounts
            && View(after, k).totalValue == View(b, k).totalValue
            && StateFrom(after, k, later, None).openRisk == StateFrom(b, k, now, Some(Prospective(intent, price))).openRisk
            && StateFrom(after, k, later, None).openPositions == OpenPositions(b, k) + 1.0 <= MAX_CONCURRENT_POSITIONS
            && StateFrom(after, k, later, None).blocked.None?
  {
    var price := GatePrice(b.orders[id].intent, ltp).value;
    FillAtAnyPrice(b, id, ltp, now, price, at, later);
    FilledIsBlockedIff(b, id, ltp, now, price, at, later);
  }

  // ---- A MARKET order is gated at its limit price and fills at the market ----

  /** A new account with one PENDING MARKET BUY of 900 shares that carries a limit price of one paisa. */
  function CheapLimitBook(k: AccountId): Book {
    Book(map[k := OpeningAccount(DEFAULT_CAPITAL)], [],
         map[0 := Order(Intent(k, "TCS", Buy, Market, 900.0, Some(0.01), None, None), Pending, None)], 1, [])
  }

  /**
   * The gate prices the order at nine rupees and passes it; the market fills it
   * at 100 each, and the account is over the risk limit.
   */
  lemma MarketOrderGatedAtItsLimit(k: AccountId, now: int)
    ensures var b := CheapLimitBook(k);
            && WellFormed(b) && Gate(b, b.orders[0].intent, Some(100.0), now).None?
            && var (after, outcome) := Execute(b, 0, None, Some(100.0), now, NoFault);
               outcome.Filled? && k in after.accounts && StateFrom(after, k, now, None).blocked == Some(TooMuchRisk)
  {
    var b := CheapLimitBook(k);
    var intent := b.orders[0].intent;
    assert PositionRisk(900.0, 0.01, None) == 0.45 && PositionRisk(900.0, 100.0, None) == 4500.0;
    assert View(b, k).totalValue == DEFAULT_CAPITAL;
    assert Pct(0.45, DEFAULT_CAPITAL) == 0.00045 && Pct(4500.0, DEFAULT_CAPITAL) == 4.5;
    assert Fills(b, 0, None, Some(100.0), NoFault);
    FilledIsBlockedIff(b, 0, Some(100.0), now, 100.0, now, now);
  }

  // ---- Adding to a held position ----

  /** Averaging lands between the two prices, strictly above any stop below both. */
  lemma AverageAbove(p: Position, intent: Intent, price: real, stop: real)
    requires p.quantity > 0.0 && intent.quantity > 0.0
    requires stop < p.averageCost && stop < price
    ensures Added(p, intent, price).averageCost > stop
  {
    AveragingKeepsCost(p, intent, price);
    var quantity := p.quantity + intent.quantity;
    assert (p.averageCost - stop) * p.quantity > 0.0;
    assert (price - stop) * intent.quantity > 0.0;
    assert quantity * (Added(p, intent, price).averageCost - stop) > 0.0;
  }

  /** The price a position's risk is measured down to: its stop, or 5% below its average cost. */
  function EffectiveStop(averageCost: real, stopLoss: Option<real>): real {
    if ValidStop(averageCost, stopLoss) then stopLoss.value
    else averageCost - averageCost * ASSUMED_STOP_PCT_WHEN_UNSET / 100.0
  }

  lemma RiskIsDistance(quantity: real, averageCost: real, stopLoss: Option<real>)
    ensures PositionRisk(quantity, averageCost, stopLoss) == quantity * averageCost - EffectiveStop(averageCost, stopLoss) * quantity
  {
    if ValidStop(averageCost, stopLoss) {
      assert (averageCost - stopLoss.value) * quantity == quantity * averageCost - stopLoss.value * quantity;
    } else {
      var assumed := averageCost * ASSUMED_STOP_PCT_WHEN_UNSET / 100.0;
      assert averageCost * quantity * ASSUMED_STOP_PCT_WHEN_UNSET / 100.0 == assumed * quantity;
      assert (averageCost - assumed) * quantity == quantity * averageCost - assumed * quantity;
    }
  }

  /** When cost adds up, risks differ by what the stops do. */
  lemma DistancesAdd(heldQuantity: real, heldAverage: real, heldStop: Option<real>,
                     newQuantity: real, newPrice: real, newStop: Option<real>,
                     quantity: real, average: real, stop: Option<real>)
    requires quantity * average == heldQuantity * heldAverage + newPrice * newQuantity
    ensures PositionRisk(quantity, average, stop)
            - (PositionRisk(heldQuantity, heldAverage, heldStop) + PositionRisk(newQuantity, newPrice, newStop))
            == EffectiveStop(heldAverage, heldStop) * heldQuantity + EffectiveStop(newPrice, newStop) * newQuantity
               - EffectiveStop(average, stop) * quantity
  {
    RiskIsDistance(quantity, average, stop);
    RiskIsDistance(heldQuantity, heldAverage, heldStop);
    RiskIsDistance(newQuantity, newPrice, newStop);
  }

  /** The risk of a position less the gate's prediction for it: the old risk plus the order's. */
  function RiskGap(p: Position, intent: Intent, price: real, q: Position): real {
    PositionRisk(q.quantity, q.averageCost, q.stopLoss)
    - (PositionRisk(p.quantity, p.averageCost, p.stopLoss) + PositionRisk(intent.quantity, price, intent.stopLoss))
  }

  /** How far the averaged position's risk is above what the gate predicted. */
  function GateError(p: Position, intent: Intent, price: real): real
    requires p.quantity > 0.0 && intent.quantity > 0.0
  {
    RiskGap(p, intent, price, Added(p, intent, price))
  }

  /**
   * Averaging keeps total cost, so the gate is wrong by exactly what the
   * averaged position's effective stop lost against the two it replaced.
   */
  lemma GateErrorIs(p: Position, intent: Intent, price: real)
    requires p.quantity > 0.0 && intent.quantity > 0.0
    ensures var q := Added(p, intent, price);
            GateError(p, intent, price) ==
            EffectiveStop(p.averageCost, p.stopLoss) * p.quantity
            + EffectiveStop(price, intent.stopLoss) * intent.quantity
            - EffectiveStop(q.averageCost, q.stopLoss) * q.quantity
  {
    var q := Added(p, intent, price);
    AveragingKeepsCost(p, intent, price);
    AveragedError(p, intent, price, q);
  }

  lemma AveragedError(p: Position, intent: Intent, price: real, q: Position)
    requires q.quantity * q.averageCost == p.quantity * p.averageCost + price * intent.quantity
    ensures RiskGap(p, intent, price, q) ==
            EffectiveStop(p.averageCost, p.stopLoss) * p.quantity
            + EffectiveStop(price, intent.stopLoss) * intent.quantity
            - EffectiveStop(q.averageCost, q.stopLoss) * q.quantity
  {
    DistancesAdd(p.quantity, p.averageCost, p.stopLoss, intent.quantity, price, intent.stopLoss,
                 q.quantity, q.averageCost, q.stopLoss);
  }

  lemma NoStopsNoError(p: Position, intent: Intent, price: real)
    requires p.quantity > 0.0 && intent.quantity > 0.0 && p.stopLoss.None? && intent.stopLoss.None?
    ensures GateError(p, intent, price) == 0.0
  {
    var q := Added(p, intent, price);
    AveragingKeepsCost(p, intent, price);
    assert PositionRisk(q.quantity, q.averageCost, None) == q.quantity * q.averageCost * ASSUMED_STOP_PCT_WHEN_UNSET / 100.0;
  }

  /** Two stops, both valid before and after: the old shares move to the order's stop. */
  lemma NewStopError(p: Position, intent: Intent, price: real)
    requires p.quantity > 0.0 && intent.quantity > 0.0 && ValidStop(price, intent.stopLoss)
    requires intent.stopLoss.value < p.averageCost
    ensures GateError(p, intent, price) == (EffectiveStop(p.averageCost, p.stopLoss) - intent.stopLoss.value) * p.quantity
  {
    var q, stop := Added(p, intent, price), intent.stopLoss.value;
    GateErrorIs(p, intent, price);
    AverageAbove(p, intent, price, stop);
    assert EffectiveStop(q.averageCost, q.stopLoss) == stop;
    assert stop * q.quantity == stop * p.quantity + stop * intent.quantity;
    assert (EffectiveStop(p.averageCost, p.stopLoss) - stop) * p.quantity
           == EffectiveStop(p.averageCost, p.stopLoss) * p.quantity - stop * p.quantity;
  }

  /** An order without a stop takes on the held one. */
  lemma HeldStopError(p: Position, intent: Intent, price: real)
    requires p.quantity > 0.0 && intent.quantity > 0.0 && ValidStop(p.averageCost, p.stopLoss)
    requires intent.stopLoss.None? && p.stopLoss.value < price
    ensures GateError(p, intent, price) == (EffectiveStop(price, None) - p.stopLoss.value) * intent.quantity
  {
    var q, stop := Added(p, intent, price), p.stopLoss.value;
    GateErrorIs(p, intent, price);
    AverageAbove(p, intent, price, stop);
    assert EffectiveStop(q.averageCost, q.stopLoss) == stop;
    assert stop * q.quantity == stop * p.quantity + stop * intent.quantity;
    assert (EffectiveStop(price, None) - stop) * intent.quantity == EffectiveStop(price, None) * intent.quantity - stop * intent.quantity;
  }

  lemma Distribute(x: real, y: real, n: real)
    ensures (x - y) * n == x * n - y * n
  {
  }

  /** The prediction is exact when neither side declares a stop, or both share one below both prices. */
  lemma RiskAdditive(p: Position, intent: Intent, price: real)
    requires p.quantity > 0.0 && intent.quantity > 0.0
    requires (p.stopLoss.None? && intent.stopLoss.None?) ||
             (ValidStop(p.averageCost, p.stopLoss) && ValidStop(price, intent.stopLoss) && p.stopLoss == intent.stopLoss)
    ensures var q := Added(p, intent, price);
            PositionRisk(q.quantity, q.averageCost, q.stopLoss) ==
            PositionRisk(p.quantity, p.averageCost, p.stopLoss) + PositionRisk(intent.quantity, price, intent.stopLoss)
  {
    if p.stopLoss.None? {
      NoStopsNoError(p, intent, price);
    } else {
      NewStopError(p, intent, price);
    }
  }

  /** Weighted by quantity, how far the stops of the two sides lie above 5% below their own prices. */
  function ExcessOverAssumed(p: Position, intent: Intent, price: real): real {
    (EffectiveStop(p.averageCost, p.stopLoss) - EffectiveStop(p.averageCost, None)) * p.quantity
    + (EffectiveStop(price, intent.stopLoss) - EffectiveStop(price, None)) * intent.quantity
  }

  lemma AssumedStopsAverage(p: Position, intent: Intent, price: real)
    requires p.quantity > 0.0 && intent.quantity > 0.0
    ensures var q := Added(p, intent, price);
            EffectiveStop(q.averageCost, None) * q.quantity
            == EffectiveStop(p.averageCost, None) * p.quantity + EffectiveStop(price, None) * intent.quantity
  {
    var q := Added(p, intent, price);
    AveragingKeepsCost(p, intent, price);
    AssumedStopValue(q.quantity, q.averageCost);
    AssumedStopValue(p.quantity, p.averageCost);
    AssumedStopValue(intent.quantity, price);
    assert intent.quantity * price == price * intent.quantity;
  }

  lemma AssumedStopValue(quantity: real, averageCost: real)
    ensures EffectiveStop(averageCost, None) * quantity == 0.95 * (quantity * averageCost)
  {
    assert EffectiveStop(averageCost, None) == 0.95 * averageCost;
    assert (0.95 * averageCost) * quantity == 0.95 * (quantity * averageCost);
  }

  /** When the averaged position has no valid stop, it falls back to 5% below its average. */
  lemma NoStopLeftError(p: Position, intent: Intent, price: real)
    requires p.quantity > 0.0 && intent.quantity > 0.0
    requires !ValidStop(Added(p, intent, price).averageCost, Added(p, intent, price).stopLoss)
    ensures GateError(p, intent, price) == ExcessOverAssumed(p, intent, price)
  {
    var q := Added(p, intent, price);
    GateErrorIs(p, intent, price);
    AssumedStopsAverage(p, intent, price);
    assert EffectiveStop(q.averageCost, q.stopLoss) == EffectiveStop(q.averageCost, None);
    Distribute(EffectiveStop(p.averageCost, p.stopLoss), EffectiveStop(p.averageCost, None), p.quantity);
    Distribute(EffectiveStop(price, intent.stopLoss), EffectiveStop(price, None), intent.quantity);
  }

  /**
   * For every held position, order and price: the gate under-estimates the
   * risk exactly when averaging lowers the quantity-weighted stop. If the
   * averaged position has a valid stop, that is the stop it ends up with;
   * otherwise it is 5% below the average, and the sides' own stops lay higher.
   */
  lemma GateUnderestimatesIff(p: Position, intent: Intent, price: real)
    requires p.quantity > 0.0 && intent.quantity > 0.0
    ensures var q := Added(p, intent, price);
            GateError(p, intent, price) > 0.0 <==>
              if ValidStop(q.averageCost, q.stopLoss)
              then q.stopLoss.value * (p.quantity + intent.quantity)
                   < EffectiveStop(p.averageCost, p.stopLoss) * p.quantity + EffectiveStop(price, intent.stopLoss) * intent.quantity
              else ExcessOverAssumed(p, intent, price) > 0.0
  {
    var q := Added(p, intent, price);
    if ValidStop(q.averageCost, q.stopLoss) {
      GateErrorIs(p, intent, price);
    } else {
      NoStopLeftError(p, intent, price);
    }
  }

  /** A lowered stop: ten held at 100 with a stop at 95, ten more at 110 with one at 90. */
  lemma LoweredStopUnderestimated(p: Position, intent: Intent)
    requires p.quantity == intent.quantity == 10.0 && p.averageCost == 100.0
    requires p.stopLoss == Some(95.0) && intent.stopLoss == Some(90.0)
    ensures GateError(p, intent, 110.0) == 50.0
  {
    NewStopError(p, intent, 110.0);
  }

  /** A stop lost to averaging: ten held at 100 without one, ten more at 110 with a stop at 108, above the average of 105. */
  lemma LostStopUnderestimated(p: Position, intent: Intent)
    requires p.quantity == intent.quantity == 10.0 && p.averageCost == 100.0
    requires p.stopLoss.None? && intent.stopLoss == Some(108.0)
    ensures GateError(p, intent, 110.0) == 35.0
  {
    var q := Added(p, intent, 110.0);
    AveragingKeepsCost(p, intent, 110.0);
    assert q.averageCost == 105.0;
    NoStopLeftError(p, intent, 110.0);
  }

  // ---- The account after adding to a held position ----

  lemma AddingFill(b: Book, id: nat, i: nat, price: real, at: int)
    requires WellFormed(b) && id in b.orders && b.orders[id].intent.side.Buy?
    requires FindPosition(b.positions, b.orders[id].intent.account, b.orders[id].intent.symbol) == Some(i)
    requires Covered(b, b.orders[id].intent, price)
    ensures var intent := b.orders[id].intent; var after := AfterFill(b, id, price, at, NoFault);
            && PositionOk(b.positions[i]) && intent.account in after.accounts
            && after.accounts[intent.account].cash == b.accounts[intent.account].cash - price * intent.quantity
            && after.positions == b.positions[i := Added(b.positions[i], intent, price)]
            && after.trades == b.trades + [BookedTrade(b, id, intent, price, at)]
            && BookedTrade(b, id, intent, price, at).realisedPnl == 0.0
  {
    assert PositionOk(b.positions[i]);
  }

  /** Marking the averaged position at the fill's price re-marks what was held. */
  lemma AddedValue(p: Position, intent: Intent, price: real)
    requires p.quantity > 0.0 && intent.quantity > 0.0
    ensures Added(p, intent, price).quantity * price - price * intent.quantity
            == p.quantity * p.currentPrice + p.quantity * (price - p.currentPrice)
  {
  }

  /** Account value once the held position is marked at the fill's price. */
  function RemarkedValue(b: Book, intent: Intent, p: Position, price: real): real
    requires intent.account in b.accounts
  {
    View(b, intent.account).totalValue + p.quantity * (price - p.currentPrice)
  }

  /** Open risk with the averaged position in place of the held one. */
  function AveragedRisk(b: Book, intent: Intent, p: Position, price: real): real
    requires p.quantity > 0.0 && intent.quantity > 0.0
  {
    var q := Added(p, intent, price);
    Sum(b.positions, Risk(intent.account)) - PositionRisk(p.quantity, p.averageCost, p.stopLoss)
    + PositionRisk(q.quantity, q.averageCost, q.stopLoss)
  }

  lemma HeldFillValue(b: Book, id: nat, i: nat, price: real, at: int)
    requires WellFormed(b) && id in b.orders && b.orders[id].intent.side.Buy?
    requires FindPosition(b.positions, b.orders[id].intent.account, b.orders[id].intent.symbol) == Some(i)
    requires Covered(b, b.orders[id].intent, price)
    ensures var intent := b.orders[id].intent;
            var after := AfterFill(b, id, price, at, NoFault);
            intent.account in after.accounts && View(after, intent.account).totalValue == RemarkedValue(b, intent, b.positions[i], price)
  {
    var intent, p := b.orders[id].intent, b.positions[i];
    AddingFill(b, id, i, price, at);
    SumUpdate(b.positions, i, Added(p, intent, price), MarketValue(intent.account));
    AddedMark(p, intent, price);
  }

  /** What averaging adds to an account's market value. */
  lemma AddedMark(p: Position, intent: Intent, price: real)
    requires p.quantity > 0.0 && intent.quantity > 0.0 && p.account == intent.account
    ensures MarketValue(p.account)(Added(p, intent, price)) - MarketValue(p.account)(p)
            == price * intent.quantity + p.quantity * (price - p.currentPrice)
  {
    AddedValue(p, intent, price);
  }

  lemma HeldFillRisk(b: Book, id: nat, i: nat, price: real, at: int)
    requires WellFormed(b) && id in b.orders && b.orders[id].intent.side.Buy?
    requires FindPosition(b.positions, b.orders[id].intent.account, b.orders[id].intent.symbol) == Some(i)
    requires Covered(b, b.orders[id].intent, price)
    ensures var intent := b.orders[id].intent; var k := intent.account; var p := b.positions[i];
            var after := AfterFill(b, id, price, at, NoFault);
            && p.quantity > 0.0
            && OpenPositions(after, k) == OpenPositions(b, k)
            && Sum(after.positions, Risk(k)) == AveragedRisk(b, intent, p, price)
  {
    var intent, p := b.orders[id].intent, b.positions[i];
    AddingFill(b, id, i, price, at);
    SumUpdate(b.positions, i, Added(p, intent, price), Risk(intent.account));
    SumUpdate(b.positions, i, Added(p, intent, price), Count(intent.account));
  }

  /** What the account measures after a BUY of a held symbol, in terms of the book before it. */
  lemma FillOnHeld(b: Book, id: nat, i: nat, price: real, at: int, now: int)
    requires WellFormed(b) && id in b.orders && b.orders[id].intent.side.Buy?
    requires FindPosition(b.positions, b.orders[id].intent.account, b.orders[id].intent.symbol) == Some(i)
    requires Covered(b, b.orders[id].intent, price)
    ensures var intent := b.orders[id].intent; var k := intent.account; var p := b.positions[i];
            var after := AfterFill(b, id, price, at, NoFault);
            && k in after.accounts && p.quantity > 0.0
            && View(after, k).totalValue == RemarkedValue(b, intent, p, price)
            && OpenPositions(after, k) == OpenPositions(b, k)
            && Sum(after.positions, Risk(k)) == AveragedRisk(b, intent, p, price)
            && Sum(after.trades, SessionPnl(k, SessionStart(now))) == Sum(b.trades, SessionPnl(k, SessionStart(now)))
  {
    var intent := b.orders[id].intent;
    AddingFill(b, id, i, price, at);
    HeldFillValue(b, id, i, price, at);
    HeldFillRisk(b, id, i, price, at);
    SumAppend(b.trades, BookedTrade(b, id, intent, price, at), SessionPnl(intent.account, SessionStart(now)));
  }

  /**
   * A BUY of a held symbol passed the gate at its price g and fills at any
   * price it can pay: the open risk is the gate's prediction, plus the gate's
   * error on this position, plus what the averaged position risks at the fill's
   * price beyond what it would at the gate's. Account value moves by the new
   * mark of the shares held before.
   */
  lemma HeldFillAtAnyPrice(b: Book, id: nat, i: nat, ltp: Option<real>, now: int, price: real, at: int, later: int)
    requires WellFormed(b) && id in b.orders && b.orders[id].intent.side.Buy?
    requires FindPosition(b.positions, b.orders[id].intent.account, b.orders[id].intent.symbol) == Some(i)
    requires b.orders[id].intent.account in b.accounts && Gate(b, b.orders[id].intent, ltp, now).None?
    requires Covered(b, b.orders[id].intent, price) && SessionStart(later) == SessionStart(now)
    ensures var intent := b.orders[id].intent; var k := intent.account; var p := b.positions[i];
            var g := GatePrice(intent, ltp).value;
            var after := AfterFill(b, id, price, at, NoFault);
            && k in after.accounts && p.quantity > 0.0
            && View(after, k).totalValue == View(b, k).totalValue + p.quantity * (price - p.currentPrice)
            && StateFrom(after, k, later, None).openPositions == OpenPositions(b, k) <= MAX_CONCURRENT_POSITIONS
            && StateFrom(after, k, later, None).sessionPnl == StateFrom(b, k, now, None).sessionPnl
            && StateFrom(after, k, later, None).openRisk
               == StateFrom(b, k, now, Some(Prospective(intent, g))).openRisk + GateError(p, intent, g)
                  + PositionRisk(Added(p, intent, price).quantity, Added(p, intent, price).averageCost, Added(p, intent, price).stopLoss)
                  - PositionRisk(Added(p, intent, g).quantity, Added(p, intent, g).averageCost, Added(p, intent, g).stopLoss)
  {
    FillOnHeld(b, id, i, price, at, now);
  }

  /**
   * The account is then blocked exactly when, at the fill's price, its session
   * loss or its averaged risk exceeds a limit of its re-marked value.
   */
  lemma HeldFillIsBlockedIff(b: Book, id: nat, i: nat, ltp: Option<real>, now: int, price: real, at: int, later: int)
    requires WellFormed(b) && id in b.orders && b.orders[id].intent.side.Buy?
    requires FindPosition(b.positions, b.orders[id].intent.account, b.orders[id].intent.symbol) == Some(i)
    requires b.orders[id].intent.account in b.accounts && Gate(b, b.orders[id].intent, ltp, now).None?
    requires Covered(b, b.orders[id].intent, price) && SessionStart(later) == SessionStart(now)
    ensures var intent := b.orders[id].intent; var p := b.positions[i];
            var after := AfterFill(b, id, price, at, NoFault);
            && intent.account in after.accounts && p.quantity > 0.0
            && StateFrom(after, intent.account, later, None).blocked
               == if Pct(StateFrom(b, intent.account, now, None).sessionPnl, RemarkedValue(b, intent, p, price)) <= -MAX_DAILY_LOSS_PCT
                  then Some(DailyLoss)
                  else if Pct(AveragedRisk(b, intent, p, price), RemarkedValue(b, intent, p, price)) > MAX_AGGREGATE_RISK_PCT
                  then Some(TooMuchRisk)
                  else None
  {
    FillOnHeld(b, id, i, price, at, now);
  }
}
