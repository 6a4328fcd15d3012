/**
 * LIMIT orders: when one fills, what it trades at, and when an execution turns
 * it away, for one execution, over every sequential run, and in every state
 * the interleaving system can reach.
 */
module LimitOrders {
  import opened Wrappers
  import opened Records
  import opened Ledger
  import opened BookValue
  import opened RiskLimits
  import opened Trading
  import S = Settlement
  import I = SettlementInvariant

  // ---- One execution ----

  /** The execution gets as far as fetching a price: the order is stored, the requester's, PENDING and of an account. */
  predicate Reaches(b: Book, id: nat, requester: Option<string>, fault: Fault) {
    && !fault.AtRead? && id in b.orders
    && (requester.None? || b.orders[id].intent.account.user == requester.value)
    && b.orders[id].status.Pending? && b.orders[id].intent.account in b.accounts
  }

  /** A fetched price turns the order away exactly when it is strictly on the wrong side of a declared limit. */
  lemma LimitNotReachedIff(b: Book, id: nat, requester: Option<string>, ltp: Option<real>, at: int, fault: Fault)
    requires WellFormed(b)
    ensures var (after, outcome) := Execute(b, id, requester, ltp, at, fault);
            && (outcome == Threw(LimitNotReached) <==>
                  && Reaches(b, id, requester, fault) && ltp.Some?
                  && var intent := b.orders[id].intent;
                     && intent.kind.Limit? && intent.limitPrice.Some? && intent.limitPrice.value != 0.0
                     && (intent.side.Buy? ==> ltp.value > intent.limitPrice.value)
                     && (intent.side.Sell? ==> ltp.value < intent.limitPrice.value))
            && (outcome == Threw(LimitNotReached) ==> after == b)
  {
  }

  /** The account can pay for the BUY, or holds the shares of the SELL. */
  ghost predicate CanSettle(b: Book, intent: Intent, price: real)
    requires intent.account in b.accounts
  {
    && (intent.side.Buy? ==> price * intent.quantity <= b.accounts[intent.account].cash)
    && (intent.side.Sell? ==> exists i :: 0 <= i < |b.positions| && b.positions[i].account == intent.account
                                          && b.positions[i].symbol == intent.symbol && b.positions[i].quantity >= intent.quantity)
  }

  lemma CanSettleIsCovered(b: Book, intent: Intent, price: real)
    requires WellFormed(b) && intent.account in b.accounts
    ensures CanSettle(b, intent, price) <==> Covered(b, intent, price)
  {
    if i :| 0 <= i < |b.positions| && b.positions[i].account == intent.account && b.positions[i].symbol == intent.symbol {
      FindUnique(b.positions, i);
    }
  }

  /**
   * Without a failing operation an order fills exactly when it is PENDING,
   * priced, covered and, if it is a LIMIT order with a limit, on the right side
   * of it; it then trades its terms at the market's price.
   */
  lemma ExecuteFillsIff(b: Book, id: nat, requester: Option<string>, ltp: Option<real>, at: int)
    requires WellFormed(b) && id in b.orders
    ensures var intent := b.orders[id].intent;
            var (after, outcome) := Execute(b, id, requester, ltp, at, NoFault);
            && (outcome.Filled? <==>
                  && Reaches(b, id, requester, NoFault) && ltp.Some? && CanSettle(b, intent, ltp.value)
                  && (intent.kind.Limit? && intent.limitPrice.Some? && intent.limitPrice.value != 0.0 ==>
                        && (intent.side.Buy? ==> ltp.value <= intent.limitPrice.value)
                        && (intent.side.Sell? ==> ltp.value >= intent.limitPrice.value)))
            && (outcome.Filled? ==>
                  && id in after.orders && after.orders[id] == Order(intent, Executed, ltp)
                  && after.trades == b.trades + [outcome.trade]
                  && outcome.order == outcome.trade.order == id && outcome.trade.price == ltp.value
                  && outcome.trade.account == intent.account && outcome.trade.symbol == intent.symbol
                  && outcome.trade.side == intent.side && outcome.trade.quantity == intent.quantity
                  && outcome.trade.executedAt == at)
  {
    if Reaches(b, id, requester, NoFault) && ltp.Some? {
      CanSettleIsCovered(b, b.orders[id].intent, ltp.value);
    }
  }

  /** An order whose price is good but which is not covered is stored as REJECTED; nothing else moves. */
  lemma UncoveredIsRejectedIff(b: Book, id: nat, requester: Option<string>, ltp: Option<real>, at: int)
    requires WellFormed(b) && id in b.orders
    ensures var intent := b.orders[id].intent;
            var (after, outcome) := Execute(b, id, requester, ltp, at, NoFault);
            var uncovered := Reaches(b, id, requester, NoFault) && ltp.Some? && Within(intent, ltp.value) && !CanSettle(b, intent, ltp.value);
            && (outcome == Threw(InsufficientCash) <==> uncovered && intent.side.Buy?)
            && (outcome == Threw(InsufficientQuantity) <==> uncovered && intent.side.Sell?)
            && after == if uncovered then b.(orders := b.orders[id := Order(intent, Rejected, b.orders[id].executedPrice)])
                        else if outcome.Filled? then after else b
  {
    if Reaches(b, id, requester, NoFault) && ltp.Some? {
      CanSettleIsCovered(b, b.orders[id].intent, ltp.value);
    }
  }

  /**
   * A failure before the cash moves leaves the book as it was: reading the
   * order, moving the cash, or storing the rejection of an uncovered order. A
   * covered order never gets to the last of these.
   */
  lemma EarlyFailures(b: Book, id: nat, requester: Option<string>, ltp: Option<real>, at: int)
    requires WellFormed(b) && id in b.orders
    ensures Execute(b, id, requester, ltp, at, AtRead) == (b, Threw(OperationFailed))
    ensures Execute(b, id, requester, ltp, at, AtCash).0 == b && Execute(b, id, requester, ltp, at, AtCash).1.Threw?
    ensures var intent := b.orders[id].intent;
            var uncovered := Reaches(b, id, requester, NoFault) && ltp.Some? && Within(intent, ltp.value) && !CanSettle(b, intent, ltp.value);
            Execute(b, id, requester, ltp, at, AtRejection)
            == if uncovered then (b, Threw(OperationFailed)) else Execute(b, id, requester, ltp, at, NoFault)
  {
    if Reaches(b, id, requester, NoFault) && ltp.Some? {
      CanSettleIsCovered(b, b.orders[id].intent, ltp.value);
    }
  }

  // ---- Every sequential run ----

  /** A price the limit of this order allows; MARKET orders, absent limits and zero limits allow every price. */
  ghost predicate Within(intent: Intent, price: real) {
    intent.kind.Limit? && intent.limitPrice.Some? && intent.limitPrice.value != 0.0 ==>
      && (intent.side.Buy? ==> price <= intent.limitPrice.value)
      && (intent.side.Sell? ==> price >= intent.limitPrice.value)
  }

  /** Each trade names an order that was stored, and as long as it is stored, is within its limit. */
  ghost predicate TradesWithin(b: Book) {
    && (forall id :: id in b.orders ==> id < b.nextOrder)
    && forall t :: 0 <= t < |b.trades| ==>
         && b.trades[t].order < b.nextOrder
         && (b.trades[t].order in b.orders ==> Within(b.orders[b.trades[t].order].intent, b.trades[t].price))
  }

  /** What is traded stays within, if no order changes its terms and no old id is stored again. */
  lemma OrdersKept(b: Book, b': Book)
    requires TradesWithin(b) && b.nextOrder <= b'.nextOrder
    requires forall id :: id in b'.orders ==> id < b'.nextOrder
    requires forall id :: id in b'.orders && id < b.nextOrder ==> id in b.orders && b'.orders[id].intent == b.orders[id].intent
    requires forall t :: 0 <= t < |b'.trades| ==> b'.trades[t] in b.trades
    ensures TradesWithin(b')
  {
    forall t | 0 <= t < |b'.trades|
      ensures b'.trades[t].order < b'.nextOrder
      ensures b'.trades[t].order in b'.orders ==> Within(b'.orders[b'.trades[t].order].intent, b'.trades[t].price)
    {
      var u :| 0 <= u < |b.trades| && b.trades[u] == b'.trades[t];
    }
  }

  lemma BookingStaysWithin(b: Book, b': Book, trade: Trade)
    requires TradesWithin(b) && b'.nextOrder == b.nextOrder && b'.orders.Keys == b.orders.Keys
    requires forall id :: id in b.orders ==> b'.orders[id].intent == b.orders[id].intent
    requires b'.trades == b.trades + [trade] && trade.order in b.orders && Within(b.orders[trade.order].intent, trade.price)
    ensures TradesWithin(b')
  {
    OrdersKept(b, b'.(trades := b.trades));
  }

  lemma ExecuteStaysWithin(b: Book, id: nat, requester: Option<string>, ltp: Option<real>, at: int, fault: Fault)
    requires WellFormed(b) && TradesWithin(b)
    ensures TradesWithin(Execute(b, id, requester, ltp, at, fault).0)
  {
    var after := Execute(b, id, requester, ltp, at, fault).0;
    if Fills(b, id, requester, ltp, fault) && !fault.AtPosition? && !fault.AtTrade? {
      BookingStaysWithin(b, after, BookedTrade(b, id, b.orders[id].intent, ltp.value, at));
    } else {
      OrdersKept(b, after);
    }
  }

  lemma InsertStaysWithin(b: Book, intent: Intent)
    requires TradesWithin(b)
    ensures TradesWithin(InsertOrder(b, intent))
  {
    OrdersKept(b, InsertOrder(b, intent));
  }

  lemma PlaceStaysWithin(b: Book, intent: Intent, env: PlaceEnv)
    requires WellFormed(b) && TradesWithin(b) && intent.quantity >= 1.0
    ensures TradesWithin(Place(b, intent, env).0)
  {
    var b0 := Ensure(b, intent.account, DEFAULT_CAPITAL);
    var b1 := InsertOrder(b0, intent);
    EnsureKeepsWellFormed(b, intent.account, DEFAULT_CAPITAL);
    InsertKeepsWellFormed(b0, intent);
    InsertStaysWithin(b0, intent);
    ExecuteStaysWithin(b1, b0.nextOrder, None, env.fillLtp, env.at, env.fault);
    OrdersKept(b1, SetOrder(b1, b0.nextOrder, Rejected, None));
  }

  lemma {:induction false} SquareOffStaysWithin(b: Book, listed: seq<Position>, envs: nat -> FlattenEnv, n: nat)
    requires WellFormed(b) && TradesWithin(b) && Flattenable(b, listed) && n <= |listed|
    ensures TradesWithin(SquareOffTo(b, listed, envs, n).0)
  {
    if n > 0 {
      SquareOffStaysWithin(b, listed, envs, n - 1);
      var before, intent := SquareOffTo(b, listed, envs, n - 1).0, FlattenIntent(listed[n - 1]);
      InsertKeepsWellFormed(before, intent);
      InsertStaysWithin(before, intent);
      ExecuteStaysWithin(InsertOrder(before, intent), before.nextOrder, None,
                         envs(n - 1).ltp, envs(n - 1).at, envs(n - 1).fault);
    }
  }

  lemma OpStaysWithin(b: Book, op: Op)
    requires WellFormed(b) && TradesWithin(b) && Valid(op)
    ensures TradesWithin(ApplyOp(b, op))
  {
    match op
    case OpOpen(k, capital) => OrdersKept(b, Ensure(b, k, capital));
    case OpReset(k, fault) => OrdersKept(b, Reset(b, k, fault));
    case OpPlace(intent, env) => PlaceStaysWithin(b, intent, env);
    case OpExecute(id, requester, ltp, at, fault) => ExecuteStaysWithin(b, id, requester, ltp, at, fault);
    case OpRefresh(user, quotes) => OrdersKept(b, Refresh(b, user, quotes));
    case OpSquareOff(envs) => SquareOffStaysWithin(b, b.positions, envs, |b.positions|);
  }

  lemma {:induction false} AfterOpsWithin(ops: seq<Op>)
    requires forall i :: 0 <= i < |ops| ==> Valid(ops[i])
    ensures TradesWithin(AfterOps(EMPTY_BOOK, ops))
  {
    if |ops| > 0 {
      AfterOpsWithin(ops[..|ops| - 1]);
      OpStaysWithin(AfterOps(EMPTY_BOOK, ops[..|ops| - 1]), ops[|ops| - 1]);
    }
  }

  /**
   * Over every run, whatever fails: no trade of a stored LIMIT order with a
   * limit costs a BUY more than its limit or brings a SELL less.
   */
  lemma LimitTradesHonourTheirLimit(ops: seq<Op>, t: nat)
    requires forall i :: 0 <= i < |ops| ==> Valid(ops[i])
    requires t < |AfterOps(EMPTY_BOOK, ops).trades|
    ensures var b := AfterOps(EMPTY_BOOK, ops); var trade := b.trades[t];
            trade.order in b.orders ==>
              var intent := b.orders[trade.order].intent;
              intent.kind.Limit? && intent.limitPrice.Some? && intent.limitPrice.value != 0.0 ==>
                && (intent.side.Buy? ==> trade.price <= intent.limitPrice.value)
                && (intent.side.Sell? ==> trade.price >= intent.limitPrice.value)
  {
    AfterOpsWithin(ops);
  }

  // ---- Every interleaving ----

  /** The execution this call is in, from its fetched price to its trade. */
  function Priced(pc: S.Pc): Option<S.Run> {
    match pc
    case Debit(run) => Some(run)
    case ReadPosition(run) => Some(run)
    case Credit(run) => Some(run)
    case WritePosition(run) => Some(run)
    case InsertTrade(run) => Some(run)
    case _ => None
  }

  ghost predicate ProcWithin(p: S.Proc) {
    Priced(p.pc).Some? ==> Within(Priced(p.pc).value.intent, Priced(p.pc).value.price)
  }

  ghost predicate StoreWithin(st: S.Store) {
    forall t :: 0 <= t < |st.trades| ==>
      st.trades[t].order < |st.orders| && Within(st.orders[st.trades[t].order].intent, st.trades[t].price)
  }

  ghost predicate StateWithin(s: S.State) {
    StoreWithin(s.store) && forall i :: 0 <= i < |s.procs| ==> ProcWithin(s.procs[i])
  }

  lemma StepProcWithin(st: S.Store, p: S.Proc, reply: S.Reply)
    requires ProcWithin(p)
    ensures ProcWithin(S.NextProc(st, p, reply))
  {
  }

  lemma StepStoreWithin(st: S.Store, p: S.Proc, reply: S.Reply)
    requires StoreWithin(st) && ProcWithin(p) && I.ProcOk(st, p)
    ensures StoreWithin(S.NextStore(st, p, reply))
  {
    var st' := S.NextStore(st, p, reply);
    I.StepExtends(st, p, reply);
    forall t | 0 <= t < |st'.trades|
      ensures st'.trades[t].order < |st'.orders| && Within(st'.orders[st'.trades[t].order].intent, st'.trades[t].price)
    {
      if t < |st.trades| {
        assert st'.trades[t] == st.trades[t];
      } else {
        assert p.pc.InsertTrade? && st'.trades[t] == S.TradeOf(p.pc.run);
      }
    }
  }

  lemma ApplyStaysWithin(s: S.State, event: S.Event)
    requires I.Inv(s) && StateWithin(s)
    ensures StateWithin(S.Apply(s, event))
  {
    if event.Step? && event.proc < |s.procs| {
      StepProcWithin(s.store, s.procs[event.proc], event.reply);
      StepStoreWithin(s.store, s.procs[event.proc], event.reply);
    }
  }

  lemma {:induction false} AfterStaysWithin(s: S.State, events: seq<S.Event>)
    requires I.Inv(s) && StateWithin(s)
    ensures I.Inv(S.After(s, events)) && StateWithin(S.After(s, events))
  {
    I.AfterKeepsInv(s, events);
    if |events| > 0 {
      AfterStaysWithin(s, events[..|events| - 1]);
      ApplyStaysWithin(S.After(s, events[..|events| - 1]), events[|events| - 1]);
    }
  }

  /** The same in every state any interleaving can reach, however executions of one order race. */
  lemma RacingTradesHonourTheirLimit(s: S.State, t: nat)
    requires I.Reachable(s) && t < |s.store.trades|
    ensures var trade := s.store.trades[t];
            && trade.order < |s.store.orders|
            && var intent := s.store.orders[trade.order].intent;
               intent.kind.Limit? && intent.limitPrice.Some? && intent.limitPrice.value != 0.0 ==>
                 && (intent.side.Buy? ==> trade.price <= intent.limitPrice.value)
                 && (intent.side.Sell? ==> trade.price >= intent.limitPrice.value)
  {
    var start, events :| S.Initial(start) && S.After(start, events) == s;
    AfterStaysWithin(start, events);
  }

  /** A call that gets its price throws at once exactly when the price is strictly on the wrong side of a declared limit. */
  lemma QuoteThrowsIff(st: S.Store, p: S.Proc, price: real)
    requires p.pc.FetchPrice?
    ensures var intent := p.pc.intent; var next := S.NextPc(st, p, S.Quote(price));
            && (next == S.Thrown(S.Clean) <==>
                  && intent.kind.Limit? && intent.limitPrice.Some? && intent.limitPrice.value != 0.0
                  && (intent.side.Buy? ==> price > intent.limitPrice.value)
                  && (intent.side.Sell? ==> price < intent.limitPrice.value))
            && (next != S.Thrown(S.Clean) ==>
                  && (intent.side.Buy? ==> next.Debit?) && (intent.side.Sell? ==> next.ReadPosition?)
                  && Priced(next) == Some(S.Run(p.pc.order, intent, price, 0.0)))
  {
  }
}
