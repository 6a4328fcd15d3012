/** Which of its answers a placement gives, and what each leaves in the book. */
module Placement {
  import opened Wrappers
  import opened Records
  import opened Ledger
  import opened BookValue
  import opened RiskLimits
  import opened Trading
  import opened LimitOrders
  import opened GateLimits

  /** The request carries a key under which the user has an order. */
  predicate Known(b: Book, intent: Intent) {
    intent.clientOrderId.Some? && exists id :: id in b.orders && HasKey(b.orders[id], intent.account.user, intent.clientOrderId.value)
  }

  /** The book with this new order PENDING, its account opened if need be. */
  function WithPending(b: Book, intent: Intent): Book {
    Book(if intent.account in b.accounts then b.accounts
         else b.accounts[intent.account := Account(DEFAULT_CAPITAL, DEFAULT_CAPITAL, 0.0)],
         b.positions, b.orders[b.nextOrder := Order(intent, Pending, None)], b.nextOrder + 1, b.trades)
  }

  /** The gate has nothing against the order: it is a SELL, or the check ran and found nothing. */
  predicate Passes(b: Book, intent: Intent, env: PlaceEnv)
    requires intent.account in b.accounts
  {
    intent.side.Buy? ==> !env.gateFails && Gate(b, intent, env.gateLtp, env.now).None?
  }

  lemma PendingIsWellFormed(b: Book, intent: Intent)
    requires WellFormed(b) && intent.quantity >= 1.0
    ensures WellFormed(WithPending(b, intent)) && intent.account in WithPending(b, intent).accounts
    ensures WithPending(b, intent) == InsertOrder(Ensure(b, intent.account, DEFAULT_CAPITAL), intent)
  {
    EnsureKeepsWellFormed(b, intent.account, DEFAULT_CAPITAL);
    InsertKeepsWellFormed(Ensure(b, intent.account, DEFAULT_CAPITAL), intent);
  }

  lemma KnownIsRepeated(b: Book, intent: Intent, env: PlaceEnv)
    requires WellFormed(b) && intent.quantity >= 1.0
    ensures Place(b, intent, env).1.Repeated? <==> Known(b, intent)
    ensures !Known(b, intent) && !env.insertFails ==>
              && WellFormed(WithPending(b, intent))
              && Place(b, intent, env) == AfterInsert(WithPending(b, intent), b.nextOrder, env)
  {
    PendingIsWellFormed(b, intent);
    var b0 := Ensure(b, intent.account, DEFAULT_CAPITAL);
    if intent.clientOrderId.Some? {
      var owner := KeyOwner(b0.orders, intent.account.user, intent.clientOrderId.value, b0.nextOrder);
      assert owner.Some? <==> Known(b, intent);
    }
  }

  /** A request under a known key is answered with an order stored under it, and changes nothing else. */
  lemma RepeatChangesNothing(b: Book, intent: Intent, env: PlaceEnv)
    requires WellFormed(b) && intent.quantity >= 1.0 && Known(b, intent)
    ensures var (after, outcome) := Place(b, intent, env);
            && outcome.Repeated? && outcome.order in b.orders
            && HasKey(b.orders[outcome.order], intent.account.user, intent.clientOrderId.value)
            && after.positions == b.positions && after.orders == b.orders && after.trades == b.trades && after.nextOrder == b.nextOrder
            && (intent.account in b.accounts ==> after == b)
  {
    KnownIsRepeated(b, intent, env);
  }

  /**
   * A placement rests exactly when it stores a LIMIT order that nothing is held
   * against: whatever the market says, it moves no money and trades nothing.
   */
  lemma RestsIff(b: Book, intent: Intent, env: PlaceEnv)
    requires WellFormed(b) && intent.quantity >= 1.0
    ensures intent.account in WithPending(b, intent).accounts
    ensures var (after, outcome) := Place(b, intent, env);
            && (outcome.Resting? <==>
                  !Known(b, intent) && !env.insertFails && intent.kind.Limit? && Passes(WithPending(b, intent), intent, env))
            && (outcome.Resting? ==> outcome.order == b.nextOrder && after == WithPending(b, intent))
  {
    PendingIsWellFormed(b, intent);
    KnownIsRepeated(b, intent, env);
  }

  /**
   * Without a failing operation a placement fills exactly when it stores a
   * MARKET order that nothing is held against and that is priced and covered;
   * it then trades at once at the market's price, limit price or not.
   */
  lemma FillsIff(b: Book, intent: Intent, env: PlaceEnv)
    requires WellFormed(b) && intent.quantity >= 1.0 && env.fault.NoFault?
    ensures intent.account in WithPending(b, intent).accounts
    ensures var (after, outcome) := Place(b, intent, env);
            && (outcome.Filled? <==>
                  && !Known(b, intent) && !env.insertFails && intent.kind.Market? && Passes(WithPending(b, intent), intent, env)
                  && env.fillLtp.Some? && CanSettle(WithPending(b, intent), intent, env.fillLtp.value))
            && (outcome.Filled? ==>
                  && outcome.order == b.nextOrder
                  && outcome.trade == Trade(b.nextOrder, intent.account, intent.symbol, intent.side, intent.quantity,
                                            env.fillLtp.value, outcome.trade.realisedPnl, env.at)
                  && b.nextOrder in after.orders && after.orders[b.nextOrder] == Order(intent, Executed, env.fillLtp)
                  && after.trades == b.trades + [outcome.trade])
  {
    PendingIsWellFormed(b, intent);
    KnownIsRepeated(b, intent, env);
    if env.fillLtp.Some? {
      CanSettleIsCovered(WithPending(b, intent), intent, env.fillLtp.value);
    }
  }

  /** A BUY the gate turns away is stored as REJECTED, with the gate's reason for an answer; nothing else moves. */
  lemma GateRejects(b: Book, intent: Intent, env: PlaceEnv)
    requires WellFormed(b) && intent.quantity >= 1.0 && !Known(b, intent) && !env.insertFails && intent.side.Buy? && !env.gateFails
    ensures intent.account in WithPending(b, intent).accounts
    ensures var verdict := Gate(WithPending(b, intent), intent, env.gateLtp, env.now);
            verdict.Some? ==>
              && Place(b, intent, env).1 == Threw(verdict.value)
              && Place(b, intent, env).0
                 == WithPending(b, intent).(orders := b.orders[b.nextOrder := Order(intent, Rejected, None)])
  {
    PendingIsWellFormed(b, intent);
    KnownIsRepeated(b, intent, env);
  }

  /** Storing the order first does not change what the gate sees of an existing account. */
  lemma HaltedWithPending(b: Book, intent: Intent, ltp: Option<real>, now: int, open: int, earlier: seq<Trade>, today: seq<Trade>)
    requires WellFormed(b) && intent.account in b.accounts
    requires OpenOf(open, now) && SplitAtOpen(b.trades, intent.account, open, earlier, today)
    requires var priced := if intent.limitPrice.Some? then intent.limitPrice else ltp;
             priced.Some? && priced.value * intent.quantity <= b.accounts[intent.account].cash
    requires LossHalts(b, intent.account, today)
    ensures Gate(WithPending(b, intent), intent, ltp, now) == Some(RiskLimit)
  {
    var b1 := WithPending(b, intent);
    assert View(b1, intent.account) == View(b, intent.account);
    GateIff(b1, intent, ltp, now, open, earlier, today);
  }

  /**
   * Once this session's trades have lost three percent, every new BUY the
   * account could pay for is refused: nothing but the order, stored as
   * REJECTED, is added, whatever the market would have answered.
   */
  lemma LossHaltsBuys(b: Book, intent: Intent, env: PlaceEnv, open: int, earlier: seq<Trade>, today: seq<Trade>)
    requires WellFormed(b) && intent.account in b.accounts && intent.quantity >= 1.0 && intent.side.Buy?
    requires !Known(b, intent) && !env.insertFails && !env.gateFails
    requires OpenOf(open, env.now) && SplitAtOpen(b.trades, intent.account, open, earlier, today)
    requires var priced := if intent.limitPrice.Some? then intent.limitPrice else env.gateLtp;
             priced.Some? && priced.value * intent.quantity <= b.accounts[intent.account].cash
    requires LossHalts(b, intent.account, today)
    ensures Place(b, intent, env).1 == Threw(RiskLimit)
    ensures Place(b, intent, env).0
            == b.(orders := b.orders[b.nextOrder := Order(intent, Rejected, None)], nextOrder := b.nextOrder + 1)
  {
    HaltedWithPending(b, intent, env.gateLtp, env.now, open, earlier, today);
    GateRejects(b, intent, env);
  }
}
