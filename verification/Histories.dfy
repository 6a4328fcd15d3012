/** Histories that the source's comments rule out, each with positive prices and named calls. */
module Histories {
  import opened Wrappers
  import opened Records
  import opened Settlement
  import opened Reconciliation
  import opened CrashRecovery

  const ALICE := AccountId("alice", "NSE")

  function Fresh(capital: real): State {
    State(Store(map[ALICE := OpeningAccount(capital)], [], []), [])
  }

  function MarketOrder(side: Side, quantity: real): Intent {
    Intent(ALICE, "TCS", side, Market, quantity, None, None, None)
  }

  /** A new placement, up to and including the insert of its order. */
  lemma Insert(start: State, events: seq<Event>, s: State, side: Side, quantity: real)
    returns (events': seq<Event>, s': State)
    requires Leads(start, events, s) && ALICE in s.store.accounts && quantity > 0.0
    ensures Leads(start, events', s') && events <= events'
    ensures var id := |s.store.orders|; var intent := MarketOrder(side, quantity);
            && s'.store == s.store.(orders := s.store.orders + [Order(intent, Pending, None)])
            && s'.procs == s.procs + [Proc(Place(intent), if side.Buy? then Gate(id) else ReadOrder(id), Some(id), None)]
  {
    var i := |s.procs|;
    events', s' := Then(start, events, s, Begin(Place(MarketOrder(side, quantity))));
    events', s' := Then(start, events', s', Step(i, Done));
    assert s'.procs == s.procs + [Proc(Place(MarketOrder(side, quantity)), InsertOrder, None, None)];
    events', s' := Then(start, events', s', Step(i, Done));
  }

  /** An inserted BUY passes the gate and is read back. */
  lemma PassGate(start: State, events: seq<Event>, s: State, i: nat, id: nat, quantity: real)
    returns (events': seq<Event>, s': State)
    requires Leads(start, events, s) && i < |s.procs| && id < |s.store.orders|
    requires s.procs[i] == Proc(Place(MarketOrder(Buy, quantity)), Gate(id), Some(id), None)
    requires s.store.orders[id] == Order(MarketOrder(Buy, quantity), Pending, None)
    ensures Leads(start, events', s') && events <= events' && s'.store == s.store
    ensures s'.procs == s.procs[i := s.procs[i].(pc := FetchPrice(id, MarketOrder(Buy, quantity)))]
  {
    events', s' := Then(start, events, s, Step(i, GatePass));
    assert s' == State(s.store, s.procs[i := s.procs[i].(pc := ReadOrder(id))]);
    events', s' := Then(start, events', s', Step(i, Done));
  }

  /** An inserted BUY passes the gate and is debited. */
  lemma PassAndDebit(start: State, events: seq<Event>, s: State, i: nat, id: nat, quantity: real, price: real)
    returns (events': seq<Event>, s': State)
    requires Leads(start, events, s) && i < |s.procs| && id < |s.store.orders| && price > 0.0
    requires s.procs[i] == Proc(Place(MarketOrder(Buy, quantity)), Gate(id), Some(id), None)
    requires s.store.orders[id] == Order(MarketOrder(Buy, quantity), Pending, None)
    requires ALICE in s.store.accounts && s.store.accounts[ALICE].cash >= price * quantity
    ensures Leads(start, events', s') && events <= events'
    ensures s'.store == Increment(s.store, ALICE, -(price * quantity), 0.0)
    ensures s'.procs == s.procs[i := Proc(Place(MarketOrder(Buy, quantity)),
                                          WritePosition(Run(id, MarketOrder(Buy, quantity), price, 0.0)), Some(id), None)]
  {
    var run := Run(id, MarketOrder(Buy, quantity), price, 0.0);
    events', s' := PassGate(start, events, s, i, id, quantity);
    events', s' := Then(start, events', s', Step(i, Quote(price)));
    assert s' == State(s.store, s.procs[i := s.procs[i].(pc := Debit(run))]);
    assert run.TotalCost() == price * quantity;
    events', s' := Then(start, events', s', Step(i, Done));
  }

  /** An inserted SELL is priced. */
  lemma PriceSale(start: State, events: seq<Event>, s: State, i: nat, id: nat, quantity: real, price: real)
    returns (events': seq<Event>, s': State)
    requires Leads(start, events, s) && i < |s.procs| && id < |s.store.orders| && price > 0.0
    requires s.procs[i] == Proc(Place(MarketOrder(Side.Sell, quantity)), ReadOrder(id), Some(id), None)
    requires s.store.orders[id] == Order(MarketOrder(Side.Sell, quantity), Pending, None)
    ensures Leads(start, events', s') && events <= events' && s'.store == s.store
    ensures s'.procs == s.procs[i := s.procs[i].(pc := ReadPosition(Run(id, MarketOrder(Side.Sell, quantity), price, 0.0)))]
  {
    var intent := MarketOrder(Side.Sell, quantity);
    events', s' := Then(start, events, s, Step(i, Done));
    assert s' == State(s.store, s.procs[i := s.procs[i].(pc := FetchPrice(id, intent))]);
    events', s' := Then(start, events', s', Step(i, Quote(price)));
  }

  /** A priced SELL of a position held at that price is credited. */
  lemma CreditSale(start: State, events: seq<Event>, s: State, i: nat, run: Run)
    returns (events': seq<Event>, s': State)
    requires Leads(start, events, s) && i < |s.procs|
    requires s.procs[i].pc == ReadPosition(run) && run.intent.side.Sell? && run.intent.account in s.store.accounts
    ensures Leads(start, events', s') && events <= events'
    ensures s'.store == Increment(s.store, run.intent.account, run.TotalCost(), 0.0)
    ensures s'.procs == s.procs[i := s.procs[i].(pc := WritePosition(run.(averageCost := run.price)))]
  {
    var priced := run.(averageCost := run.price);
    events', s' := Then(start, events, s, Step(i, Held(run.intent.quantity, run.price)));
    assert s' == State(s.store, s.procs[i := s.procs[i].(pc := Credit(priced))]);
    assert priced.TotalCost() == run.TotalCost() && priced.RealisedPnl() == 0.0;
    events', s' := Then(start, events', s', Step(i, Done));
  }

  /** The position and trade writes apply and the order save fails. */
  lemma BookWithoutSaving(start: State, events: seq<Event>, s: State, i: nat, run: Run)
    returns (events': seq<Event>, s': State)
    requires Leads(start, events, s) && i < |s.procs| && s.procs[i].pc == WritePosition(run)
    ensures Leads(start, events', s') && events <= events'
    ensures s'.store == s.store.(trades := s.store.trades + [TradeOf(run)])
    ensures s'.procs == s.procs[i := s.procs[i].(pc := Thrown(Unsaved(run)), traded := Some(|s.store.trades|))]
  {
    events', s' := Then(start, events, s, Step(i, Done));
    assert s'.store == s.store && s'.procs[i].pc == InsertTrade(run);
    events', s' := Then(start, events', s', Step(i, Done));
    assert s'.procs[i].pc == SaveExecution(run);
    events', s' := Then(start, events', s', Step(i, Fails));
  }

  /** The position write applies, the trade insert fails, and the cash movement is taken back. */
  lemma FailAndUnwind(start: State, events: seq<Event>, s: State, i: nat, run: Run)
    returns (events': seq<Event>, s': State)
    requires Leads(start, events, s) && i < |s.procs|
    requires s.procs[i].pc == WritePosition(run) && run.intent.side.Sell?
    ensures Leads(start, events', s') && events <= events'
    ensures s'.store == Increment(s.store, run.intent.account, -run.TotalCost(), -run.RealisedPnl())
    ensures s'.procs == s.procs[i := s.procs[i].(pc := Thrown(Unwound(run)))]
  {
    events', s' := Then(start, events, s, Step(i, Done));
    events', s' := Then(start, events', s', Step(i, Fails));
    assert s' == State(s.store, s.procs[i := s.procs[i].(pc := Compensate(run))]);
    events', s' := Then(start, events', s', Step(i, Done));
  }

  /** From its position write, an execution that meets no failure books its trade and is marked EXECUTED. */
  lemma Complete(start: State, events: seq<Event>, s: State, i: nat, run: Run)
    returns (events': seq<Event>, s': State)
    requires Leads(start, events, s) && i < |s.procs| && s.procs[i].pc == WritePosition(run)
    ensures Leads(start, events', s') && events <= events'
    ensures s'.store == SetStatus(s.store.(trades := s.store.trades + [TradeOf(run)]), run.id, Executed, Some(run.price))
    ensures s'.procs == s.procs[i := s.procs[i].(pc := Returned(run.id, Some(|s.store.trades|)), traded := Some(|s.store.trades|))]
  {
    events', s' := Then(start, events, s, Step(i, Done));
    assert s' == State(s.store, s.procs[i := s.procs[i].(pc := InsertTrade(run))]);
    var booked := s.store.(trades := s.store.trades + [TradeOf(run)]);
    var p := s.procs[i].(traded := Some(|s.store.trades|));
    events', s' := Then(start, events', s', Step(i, Done));
    assert s' == State(booked, s.procs[i := p.(pc := SaveExecution(run))]);
    events', s' := SaveAndPublish(start, events', s', i, run);
  }

  lemma SaveAndPublish(start: State, events: seq<Event>, s: State, i: nat, run: Run)
    returns (events': seq<Event>, s': State)
    requires Leads(start, events, s) && i < |s.procs| && s.procs[i].pc == SaveExecution(run)
    ensures Leads(start, events', s') && events <= events' && s'.store == SetStatus(s.store, run.id, Executed, Some(run.price))
    ensures s'.procs == s.procs[i := s.procs[i].(pc := Returned(run.id, s.procs[i].traded))]
  {
    events', s' := Then(start, events, s, Step(i, Done));
    assert s'.procs == s.procs[i := s.procs[i].(pc := Publish(run))];
    events', s' := Then(start, events', s', Step(i, Done));
  }

  // ---- A crash after the debit ----

  const TEN := 10.0
  const HUNDRED := 100.0

  function BuyRun(id: nat): Run { Run(id, MarketOrder(Buy, TEN), HUNDRED, 0.0) }

  /** A placed BUY of ten, taken to the point where its cash is debited at a price of 100. */
  lemma BuyDebited(capital: real) returns (events: seq<Event>, s: State)
    requires capital >= 1000.0
    ensures Leads(Fresh(capital), events, s)
    ensures s.procs == [Proc(Place(MarketOrder(Buy, TEN)), WritePosition(BuyRun(0)), Some(0), None)]
    ensures s.store == Store(map[ALICE := Account(capital, capital - 1000.0, 0.0)], [Order(MarketOrder(Buy, TEN), Pending, None)], [])
  {
    events, s := Insert(Fresh(capital), [], Fresh(capital), Buy, TEN);
    events, s := PassAndDebit(Fresh(capital), events, s, 0, 0, TEN, HUNDRED);
  }

  /**
   * The only call of the history is a placed BUY that stops between its debit
   * and its position write: the order is PENDING and its cash is not restored.
   */
  lemma CrashKeepsCashDebited() returns (events: seq<Event>, s: State)
    ensures Leads(Fresh(DEFAULT_CAPITAL), events, s)
    ensures s.procs == [Proc(Place(MarketOrder(Buy, TEN)), WritePosition(BuyRun(0)), Some(0), None)]
    ensures s.store.orders == [Order(MarketOrder(Buy, TEN), Pending, None)] && s.store.trades == []
    ensures s.store.accounts == map[ALICE := Account(DEFAULT_CAPITAL, 99000.0, 0.0)]
    ensures OrderMoved(Fresh(DEFAULT_CAPITAL), events, 0) != 0.0
  {
    events, s := BuyDebited(DEFAULT_CAPITAL);
    PendingCashUntouchedIff(Fresh(DEFAULT_CAPITAL), events, 0);
    assert !Spared(s.procs[0], 0);
  }

  // ---- A replay after a failed save ----

  /** A BUY of ten whose trade is stored and whose order status is not. */
  lemma BoughtUnsaved() returns (events: seq<Event>, s: State)
    ensures Leads(Fresh(DEFAULT_CAPITAL), events, s)
    ensures s.procs == [Proc(Place(MarketOrder(Buy, TEN)), Thrown(Unsaved(BuyRun(0))), Some(0), Some(0))]
    ensures s.store == Store(map[ALICE := Account(DEFAULT_CAPITAL, 99000.0, 0.0)],
                             [Order(MarketOrder(Buy, TEN), Pending, None)], [TradeOf(BuyRun(0))])
  {
    events, s := BuyDebited(DEFAULT_CAPITAL);
    events, s := BookWithoutSaving(Fresh(DEFAULT_CAPITAL), events, s, 0, BuyRun(0));
  }

  /**
   * `stopped` is a history after which the one order is PENDING, its only call
   * has thrown and its trade is stored. Continuing it with one direct execution
   * of that order, and nothing else, stores a second trade and a second debit.
   */
  lemma ReplayFillsTwice() returns (stopped: seq<Event>, before: State, events: seq<Event>, s: State)
    ensures Leads(Fresh(DEFAULT_CAPITAL), stopped, before) && Leads(Fresh(DEFAULT_CAPITAL), events, s) && stopped <= events
    ensures before.procs == [Proc(Place(MarketOrder(Buy, TEN)), Thrown(Unsaved(BuyRun(0))), Some(0), Some(0))]
    ensures before.store.orders == [Order(MarketOrder(Buy, TEN), Pending, None)] && before.store.trades == [TradeOf(BuyRun(0))]
    ensures s.procs == before.procs + [Proc(Execute(0, Some("alice")), Returned(0, Some(1)), None, Some(1))]
    ensures s.store.orders == [Order(MarketOrder(Buy, TEN), Executed, Some(HUNDRED))]
    ensures s.store.trades == [TradeOf(BuyRun(0)), TradeOf(BuyRun(0))]
    ensures s.store.accounts == map[ALICE := Account(DEFAULT_CAPITAL, 98000.0, 0.0)]
  {
    stopped, before := BoughtUnsaved();
    assert BuyRun(0).TotalCost() == 1000.0 && BuyRun(0).RealisedPnl() == 0.0;
    assert ReplayRun(before, 0, HUNDRED, 0.0) == BuyRun(0);
    events, s := Replay(Fresh(DEFAULT_CAPITAL), stopped, before, 0, Some("alice"), HUNDRED, 0.0, 0.0);
  }

  // ---- A SELL unwound after its proceeds were spent ----

  function SellRun(id: nat): Run { Run(id, MarketOrder(Side.Sell, TEN), HUNDRED, HUNDRED) }

  /** A BUY of ten at 100 that went all the way: its position, trade and status are stored. */
  lemma Bought() returns (events: seq<Event>, s: State)
    ensures Leads(Fresh(1000.0), events, s)
    ensures s.procs == [Proc(Place(MarketOrder(Buy, TEN)), Returned(0, Some(0)), Some(0), Some(0))]
    ensures s.store == Store(map[ALICE := Account(1000.0, 0.0, 0.0)],
                             [Order(MarketOrder(Buy, TEN), Executed, Some(HUNDRED))], [TradeOf(BuyRun(0))])
  {
    events, s := BuyDebited(1000.0);
    events, s := Complete(Fresh(1000.0), events, s, 0, BuyRun(0));
  }

  /** What was bought is sold, up to the credit of its proceeds. */
  lemma SoldCredited(bought: seq<Event>, before: State) returns (events: seq<Event>, s: State)
    requires Leads(Fresh(1000.0), bought, before) && |before.procs| == |before.store.orders| == 1
    requires before.store.accounts == map[ALICE := Account(1000.0, 0.0, 0.0)]
    ensures Leads(Fresh(1000.0), events, s) && bought <= events
    ensures s.procs == before.procs + [Proc(Place(MarketOrder(Side.Sell, TEN)), WritePosition(SellRun(1)), Some(1), None)]
    ensures s.store == Store(map[ALICE := Account(1000.0, 1000.0, 0.0)],
                             before.store.orders + [Order(MarketOrder(Side.Sell, TEN), Pending, None)], before.store.trades)
  {
    var start, sale := Fresh(1000.0), Run(1, MarketOrder(Side.Sell, TEN), HUNDRED, 0.0);
    events, s := Insert(start, bought, before, Side.Sell, TEN);
    events, s := PriceSale(start, events, s, 1, 1, TEN, HUNDRED);
    assert sale.TotalCost() == 1000.0;
    events, s := CreditSale(start, events, s, 1, sale);
  }

  /** A second BUY spends the proceeds. */
  lemma ProceedsSpent(sold: seq<Event>, before: State) returns (events: seq<Event>, s: State)
    requires Leads(Fresh(1000.0), sold, before) && |before.procs| == |before.store.orders| == 2
    requires before.store.accounts == map[ALICE := Account(1000.0, 1000.0, 0.0)]
    ensures Leads(Fresh(1000.0), events, s) && sold <= events
    ensures s.procs == before.procs + [Proc(Place(MarketOrder(Buy, TEN)), WritePosition(BuyRun(2)), Some(2), None)]
    ensures s.store == Store(map[ALICE := Account(1000.0, 0.0, 0.0)],
                             before.store.orders + [Order(MarketOrder(Buy, TEN), Pending, None)], before.store.trades)
  {
    events, s := Insert(Fresh(1000.0), sold, before, Buy, TEN);
    events, s := PassAndDebit(Fresh(1000.0), events, s, 2, 2, TEN, HUNDRED);
  }

  /**
   * Cash does go negative. After `bought`, ten shares have been bought and fully
   * booked, and nothing else has begun. They are sold, a second BUY spends the
   * proceeds, and the SELL throws and is unwound because its trade cannot be
   * stored.
   */
  lemma UnwoundSaleOverdraws() returns (bought: seq<Event>, before: State, events: seq<Event>, s: State)
    ensures Leads(Fresh(1000.0), bought, before) && Leads(Fresh(1000.0), events, s) && bought <= events
    ensures before.procs == [Proc(Place(MarketOrder(Buy, TEN)), Returned(0, Some(0)), Some(0), Some(0))]
    ensures before.store.orders == [Order(MarketOrder(Buy, TEN), Executed, Some(HUNDRED))]
    ensures s.procs == before.procs
                       + [Proc(Place(MarketOrder(Side.Sell, TEN)), Thrown(Unwound(SellRun(1))), Some(1), None)]
                       + [Proc(Place(MarketOrder(Buy, TEN)), WritePosition(BuyRun(2)), Some(2), None)]
    ensures s.store.accounts == map[ALICE := Account(1000.0, -1000.0, 0.0)]
  {
    bought, before := Bought();
    events, s := SoldCredited(bought, before);
    events, s := ProceedsSpent(events, s);
    assert SellRun(1).TotalCost() == 1000.0 && SellRun(1).RealisedPnl() == 0.0;
    events, s := FailAndUnwind(Fresh(1000.0), events, s, 1, SellRun(1));
  }
}
