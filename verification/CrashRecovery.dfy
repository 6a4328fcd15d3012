/**
 * When a stopped execution has left cash moved, and when its PENDING order can
 * be replayed: the exact conditions, over every history.
 */
module CrashRecovery {
  import opened Wrappers
  import opened Sums
  import opened Records
  import opened Settlement
  import opened SettlementInvariant
  import opened Reconciliation
  import opened Idempotency

  // ---- What one call has moved ----

  /** What one event adds to the cash of an account that exists. */
  function Change(s: State, event: Event, k: AccountId): real {
    if k in s.store.accounts then CashOf(Apply(s, event), k) - CashOf(s, k) else 0.0
  }

  /** The sum of all changes that the operations of call `i` have made to an account's cash. */
  function MovedBy(start: State, events: seq<Event>, i: nat, k: AccountId): real {
    if |events| == 0 then 0.0
    else
      var before, last := events[..|events| - 1], events[|events| - 1];
      MovedBy(start, before, i, k)
      + if last.Step? && last.proc == i then Change(After(start, before), last, k) else 0.0
  }

  /** A call's booked trade, its movement in flight and its failed compensation. */
  function NetCash(st: Store, p: Proc, k: AccountId): real {
    (if p.traded.Some? && p.traded.value < |st.trades| then TradeCash(k)(st.trades[p.traded.value]) else 0.0)
    + InFlightCash(k)(p) + ResidualCash(k)(p)
  }

  lemma StepMovesNet(st: Store, p: Proc, reply: Reply, k: AccountId)
    requires ProcOk(st, p) && k in st.accounts
    ensures k in NextStore(st, p, reply).accounts
    ensures NextStore(st, p, reply).accounts[k].cash - st.accounts[k].cash
            == NetCash(NextStore(st, p, reply), NextProc(st, p, reply), k) - NetCash(st, p, k)
  {
    StepMoves(st, p, reply, k);
    if Books(p, reply) {
      assert NextStore(st, p, reply).trades == st.trades + [TradeOf(p.pc.run)];
    } else {
      StepExtends(st, p, reply);
    }
  }

  /** Nothing is owed on an account that does not exist. */
  lemma NoAccountNoNet(st: Store, p: Proc, reply: Reply, k: AccountId)
    requires StoreOk(st) && ProcOk(st, p) && k !in st.accounts
    ensures NetCash(st, p, k) == 0.0
  {
  }

  lemma StepOnMissingAccount(st: Store, p: Proc, reply: Reply, k: AccountId)
    requires StoreOk(st) && ProcOk(st, p) && k !in st.accounts
    ensures NetCash(NextStore(st, p, reply), NextProc(st, p, reply), k) == 0.0
  {
    var st' := NextStore(st, p, reply);
    StepExtends(st, p, reply);
    if k in st'.accounts {
      OnlyCreationAddsAccounts(st, p, reply, k);
    } else {
      StepStoreOk(st, p, reply);
      StepProcOk(st, p, reply);
      NoAccountNoNet(st', NextProc(st, p, reply), reply, k);
    }
  }

  /** What a call has moved is what it booked, holds in flight or failed to give back. */
  lemma {:induction false} MovedIsNet(start: State, events: seq<Event>, i: nat, k: AccountId)
    requires Initial(start)
    ensures var s := After(start, events);
            MovedBy(start, events, i, k) == if i < |s.procs| then NetCash(s.store, s.procs[i], k) else 0.0
  {
    if |events| > 0 {
      var before, last := events[..|events| - 1], events[|events| - 1];
      MovedIsNet(start, before, i, k);
      AfterKeepsInv(start, before);
      EventMovesNet(After(start, before), last, i, k);
    }
  }

  lemma EventMovesNet(s: State, event: Event, i: nat, k: AccountId)
    requires Inv(s)
    ensures var s' := Apply(s, event);
            (if i < |s'.procs| then NetCash(s'.store, s'.procs[i], k) else 0.0)
            == (if i < |s.procs| then NetCash(s.store, s.procs[i], k) else 0.0)
               + if event.Step? && event.proc == i then Change(s, event, k) else 0.0
  {
    match event
    case Begin(call) =>
    case Step(j, reply) =>
      if j < |s.procs| {
        assert ProcOk(s.store, s.procs[j]);
        if j != i {
          if i < |s.procs| {
            assert ProcOk(s.store, s.procs[i]);
            StepExtends(s.store, s.procs[j], reply);
          }
        } else if k in s.store.accounts {
          StepMovesNet(s.store, s.procs[i], reply, k);
        } else {
          NoAccountNoNet(s.store, s.procs[i], reply, k);
          StepOnMissingAccount(s.store, s.procs[i], reply, k);
        }
      }
  }

  // ---- Exactly when a call has left cash moved ----

  /** The call has neither booked a trade, nor moved cash it may still give back, nor failed to give it back. */
  predicate LeftNothing(p: Proc) {
    p.traded.None? && !MidFlight(p) && !CompensationFailed(p)
  }

  lemma PositiveReached(start: State, events: seq<Event>)
    requires PositiveHistory(start, events)
    ensures AllPositive(After(start, events)) && Inv(After(start, events))
  {
    AfterKeepsPositive(start, events);
    AfterKeepsInv(start, events);
  }

  lemma TradeMoves(trade: Trade)
    requires trade.price > 0.0 && trade.quantity > 0.0
    ensures if trade.side.Buy? then TradeCash(trade.account)(trade) < 0.0 else TradeCash(trade.account)(trade) > 0.0
  {
    assert trade.price * trade.quantity > 0.0;
  }

  /** A call that has left something has moved cash of some account. */
  lemma LeavingMoves(st: Store, p: Proc) returns (k: AccountId)
    requires ProcOk(st, p) && PositiveProc(p) && PositiveTrades(st) && !LeftNothing(p)
    ensures NetCash(st, p, k) != 0.0
  {
    if p.traded.Some? {
      k := st.trades[p.traded.value].account;
      TradeMoves(st.trades[p.traded.value]);
      assert !MidFlight(p) && !CompensationFailed(p);
    } else {
      k := RunOf(p).intent.account;
      CostPositive(RunOf(p));
    }
  }

  /**
   * Over every positive history, what a call has moved is zero on every account
   * exactly when it has booked no trade and is neither between its cash movement
   * and its trade or compensation, nor past a compensation that failed.
   */
  lemma CallCashUntouchedIff(start: State, events: seq<Event>, i: nat)
    requires PositiveHistory(start, events) && i < |After(start, events).procs|
    ensures (forall k: AccountId :: MovedBy(start, events, i, k) == 0.0) <==> LeftNothing(After(start, events).procs[i])
  {
    var s := After(start, events);
    PositiveReached(start, events);
    assert ProcOk(s.store, s.procs[i]) && PositiveProc(s.procs[i]);
    if LeftNothing(s.procs[i]) {
      forall k: AccountId ensures MovedBy(start, events, i, k) == 0.0 {
        MovedIsNet(start, events, i, k);
      }
    } else {
      var k := LeavingMoves(s.store, s.procs[i]);
      MovedIsNet(start, events, i, k);
    }
  }

  // ---- All the calls of one order ----

  /** What the calls that execute order `id` have moved on its account, together. */
  function OrderCash(st: Store, id: nat): Proc -> real
    requires id < |st.orders|
  {
    (p: Proc) => if Target(p) == Some(id) then NetCash(st, p, st.orders[id].intent.account) else 0.0
  }

  function Shares(start: State, events: seq<Event>, id: nat): seq<real>
    requires id < |After(start, events).store.orders|
  {
    var s := After(start, events);
    seq(|s.procs|, i requires 0 <= i < |s.procs| =>
      if Target(s.procs[i]) == Some(id) then MovedBy(start, events, i, s.store.orders[id].intent.account) else 0.0)
  }

  function Itself(): real -> real {
    (x: real) => x
  }

  /** All changes made to the order's account by the calls executing it. */
  function OrderMoved(start: State, events: seq<Event>, id: nat): real
    requires id < |After(start, events).store.orders|
  {
    Sum(Shares(start, events, id), Itself())
  }

  lemma OrderMovedIsNet(start: State, events: seq<Event>, id: nat)
    requires Initial(start) && id < |After(start, events).store.orders|
    ensures OrderMoved(start, events, id) == Sum(After(start, events).procs, OrderCash(After(start, events).store, id))
  {
    var s, shares := After(start, events), Shares(start, events, id);
    forall i | 0 <= i < |shares| ensures Itself()(shares[i]) == OrderCash(s.store, id)(s.procs[i]) {
      MovedIsNet(start, events, i, s.store.orders[id].intent.account);
    }
    SumMatch(shares, Itself(), s.procs, OrderCash(s.store, id));
  }

  /** The call left nothing for this order, or is not about it. */
  predicate Spared(p: Proc, id: nat) {
    Target(p) == Some(id) ==> !MidFlight(p) && !CompensationFailed(p) && !StoppedBeforeSave(p, id)
  }

  /** A BUY's calls can only have lowered its account's cash, a SELL's only raised it, and by nothing only if spared. */
  lemma ShareSign(st: Store, p: Proc, id: nat)
    requires ProcOk(st, p) && PositiveProc(p) && PositiveTrades(st)
    requires id < |st.orders| && st.orders[id].status.Pending?
    ensures var share := OrderCash(st, id)(p);
            && (share == 0.0 <==> Spared(p, id))
            && if st.orders[id].intent.side.Buy? then share <= 0.0 else share >= 0.0
  {
    if Target(p) == Some(id) {
      if p.traded.Some? {
        BookerOfPending(st, p, id);
        TradeMoves(st.trades[p.traded.value]);
      } else if MidFlight(p) || CompensationFailed(p) {
        CostPositive(RunOf(p));
      }
    }
  }

  ghost predicate AllSpared(procs: seq<Proc>, id: nat) {
    forall i :: 0 <= i < |procs| ==> Spared(procs[i], id)
  }

  /**
   * A PENDING order's cash is untouched exactly when no call executing it is
   * between its cash movement and its trade or compensation, has failed to
   * compensate, or stopped between its trade and its status.
   */
  lemma PendingCashUntouchedIff(start: State, events: seq<Event>, id: nat)
    requires PositiveHistory(start, events)
    requires id < |After(start, events).store.orders| && After(start, events).store.orders[id].status.Pending?
    ensures OrderMoved(start, events, id) == 0.0 <==> AllSpared(After(start, events).procs, id)
  {
    var s := After(start, events);
    PositiveReached(start, events);
    OrderMovedIsNet(start, events, id);
    forall i | 0 <= i < |s.procs|
      ensures var share := OrderCash(s.store, id)(s.procs[i]);
              && (share == 0.0 <==> Spared(s.procs[i], id))
              && if s.store.orders[id].intent.side.Buy? then share <= 0.0 else share >= 0.0
    {
      ShareSign(s.store, s.procs[i], id);
    }
    SameSignSum(s.procs, OrderCash(s.store, id));
  }

  // ---- Replaying a PENDING order ----

  /** A direct execution of the order passes its checks at this price, with this much held for a SELL. */
  predicate Replayable(s: State, id: nat, requester: Option<string>, price: real, held: real) {
    && id < |s.store.orders| && s.store.orders[id].status.Pending?
    && var intent := s.store.orders[id].intent;
    && (requester.Some? ==> intent.account.user == requester.value)
    && intent.account in s.store.accounts && LimitMet(intent, price)
    && if intent.side.Buy? then s.store.accounts[intent.account].cash >= price * intent.quantity else held >= intent.quantity
  }

  function ReplayRun(s: State, id: nat, price: real, average: real): Run
    requires id < |s.store.orders|
  {
    Run(id, s.store.orders[id].intent, price, if s.store.orders[id].intent.side.Buy? then 0.0 else average)
  }

  lemma ReplayRead(start: State, events: seq<Event>, s: State, id: nat, requester: Option<string>, price: real, held: real)
    returns (events': seq<Event>, s': State)
    requires Leads(start, events, s) && Replayable(s, id, requester, price, held)
    ensures Leads(start, events', s') && events <= events'
    ensures s' == State(s.store, s.procs + [Proc(Execute(id, requester), ReadAccount(id, s.store.orders[id].intent), None, None)])
  {
    events', s' := Then(start, events, s, Begin(Execute(id, requester)));
    assert s' == State(s.store, s.procs + [Proc(Execute(id, requester), ReadOrder(id), None, None)]);
    events', s' := Then(start, events', s', Step(|s.procs|, Done));
  }

  lemma ReplayPriced(start: State, events: seq<Event>, s: State, id: nat, requester: Option<string>, price: real, held: real)
    returns (events': seq<Event>, s': State)
    requires Leads(start, events, s) && Replayable(s, id, requester, price, held) && price > 0.0
    ensures Leads(start, events', s') && events <= events'
    ensures var run := ReplayRun(s, id, price, 0.0);
            s' == State(s.store, s.procs + [Proc(Execute(id, requester),
                                                 if run.intent.side.Buy? then Debit(run) else ReadPosition(run), None, None)])
  {
    var i, call, intent := |s.procs|, Execute(id, requester), s.store.orders[id].intent;
    events', s' := ReplayRead(start, events, s, id, requester, price, held);
    events', s' := Then(start, events', s', Step(i, Done));
    assert s' == State(s.store, s.procs + [Proc(call, FetchPrice(id, intent), None, None)]);
    events', s' := Then(start, events', s', Step(i, Quote(price)));
  }

  /** The store once the replay has moved its cash. */
  function Paid(s: State, run: Run): Store {
    Increment(s.store, run.intent.account, run.CashMove(), run.RealisedPnl())
  }

  lemma BuyReplayPaid(start: State, events: seq<Event>, s: State, p: State, run: Run, requester: Option<string>)
    returns (events': seq<Event>, s': State)
    requires Leads(start, events, p) && run.intent.side.Buy? && CanDebit(s.store, run)
    requires p == State(s.store, s.procs + [Proc(Execute(run.id, requester), Debit(run), None, None)])
    ensures Leads(start, events', s') && events <= events'
    ensures s' == State(Paid(s, run), s.procs + [Proc(Execute(run.id, requester), WritePosition(run), None, None)])
  {
    events', s' := Then(start, events, p, Step(|s.procs|, Done));
  }

  lemma SellReplayPaid(start: State, events: seq<Event>, s: State, p: State, run: Run, requester: Option<string>, held: real)
    returns (events': seq<Event>, s': State)
    requires Leads(start, events, p) && run.intent.side.Sell?
    requires run.intent.account in s.store.accounts && held >= run.intent.quantity
    requires p == State(s.store, s.procs + [Proc(Execute(run.id, requester), ReadPosition(run.(averageCost := 0.0)), None, None)])
    ensures Leads(start, events', s') && events <= events'
    ensures s' == State(Paid(s, run), s.procs + [Proc(Execute(run.id, requester), WritePosition(run), None, None)])
  {
    events', s' := Then(start, events, p, Step(|s.procs|, Held(held, run.averageCost)));
    assert s' == State(s.store, s.procs + [Proc(Execute(run.id, requester), Credit(run), None, None)]);
    events', s' := Then(start, events', s', Step(|s.procs|, Done));
  }

  lemma ReplayPaid(start: State, events: seq<Event>, s: State, id: nat, requester: Option<string>, price: real, held: real, average: real)
    returns (events': seq<Event>, s': State)
    requires Leads(start, events, s) && Replayable(s, id, requester, price, held) && price > 0.0
    ensures Leads(start, events', s') && events <= events'
    ensures var run := ReplayRun(s, id, price, average);
            s' == State(Paid(s, run), s.procs + [Proc(Execute(id, requester), WritePosition(run), None, None)])
  {
    var run := ReplayRun(s, id, price, average);
    events', s' := ReplayPriced(start, events, s, id, requester, price, held);
    if run.intent.side.Buy? {
      events', s' := BuyReplayPaid(start, events', s, s', run, requester);
    } else {
      events', s' := SellReplayPaid(start, events', s, s', run, requester, held);
    }
  }

  /** The store once the replay is through. */
  function Replayed(s: State, run: Run): Store {
    SetStatus(Paid(s, run).(trades := s.store.trades + [TradeOf(run)]), run.id, Executed, Some(run.price))
  }

  function ReplayedProcs(s: State, run: Run, requester: Option<string>): seq<Proc> {
    var t := Some(|s.store.trades|);
    s.procs + [Proc(Execute(run.id, requester), Returned(run.id, t), None, t)]
  }

  lemma ReplayBooked(start: State, events: seq<Event>, s: State, paid: State, run: Run, requester: Option<string>)
    returns (events': seq<Event>, s': State)
    requires Leads(start, events, paid)
    requires paid == State(Paid(s, run), s.procs + [Proc(Execute(run.id, requester), WritePosition(run), None, None)])
    ensures Leads(start, events', s') && events <= events'
    ensures s' == State(Paid(s, run).(trades := s.store.trades + [TradeOf(run)]),
                        s.procs + [Proc(Execute(run.id, requester), SaveExecution(run), None, Some(|s.store.trades|))])
  {
    var i := |s.procs|;
    events', s' := Then(start, events, paid, Step(i, Done));
    assert s' == State(Paid(s, run), s.procs + [Proc(Execute(run.id, requester), InsertTrade(run), None, None)]);
    events', s' := Then(start, events', s', Step(i, Done));
  }

  lemma ReplaySaved(start: State, events: seq<Event>, s: State, booked: State, run: Run, requester: Option<string>)
    returns (events': seq<Event>, s': State)
    requires Leads(start, events, booked)
    requires booked == State(Paid(s, run).(trades := s.store.trades + [TradeOf(run)]),
                             s.procs + [Proc(Execute(run.id, requester), SaveExecution(run), None, Some(|s.store.trades|))])
    ensures Leads(start, events', s') && events <= events'
    ensures s' == State(Replayed(s, run), ReplayedProcs(s, run, requester))
  {
    var i := |s.procs|;
    events', s' := Then(start, events, booked, Step(i, Done));
    assert s' == State(Replayed(s, run), s.procs + [Proc(Execute(run.id, requester), Publish(run), None, Some(|s.store.trades|))]);
    events', s' := Then(start, events', s', Step(i, Done));
  }

  /** A replay that meets no failure moves the cash, books the trade and marks the order EXECUTED. */
  lemma Replay(start: State, events: seq<Event>, s: State, id: nat, requester: Option<string>, price: real, held: real, average: real)
    returns (events': seq<Event>, s': State)
    requires Leads(start, events, s) && Replayable(s, id, requester, price, held) && price > 0.0
    ensures Leads(start, events', s') && events <= events'
    ensures var run := ReplayRun(s, id, price, average); s' == State(Replayed(s, run), ReplayedProcs(s, run, requester))
  {
    var run := ReplayRun(s, id, price, average);
    events', s' := ReplayPaid(start, events, s, id, requester, price, held, average);
    events', s' := ReplayBooked(start, events', s, s', run, requester);
    events', s' := ReplaySaved(start, events', s, s', run, requester);
  }

  function TradesOf(trades: seq<Trade>, id: nat): nat {
    if |trades| == 0 then 0
    else TradesOf(trades[..|trades| - 1], id) + if trades[|trades| - 1].order == id then 1 else 0
  }

  lemma {:induction false} HasTradeIff(trades: seq<Trade>, id: nat)
    ensures HasTrade(trades, id) <==> TradesOf(trades, id) > 0
  {
    if |trades| > 0 {
      var before := trades[..|trades| - 1];
      HasTradeIff(before, id);
      if t :| 0 <= t < |trades| && trades[t].order == id && t < |trades| - 1 {
        assert before[t].order == id;
      }
      if t :| 0 <= t < |before| && before[t].order == id {
        assert trades[t].order == id;
      }
    }
  }

  /** A replay adds exactly its own cash movement to what the order's calls have moved. */
  lemma ReplayMoves(start: State, events: seq<Event>, s: State, events': seq<Event>, s': State, run: Run, requester: Option<string>)
    requires Leads(start, events, s) && Leads(start, events', s')
    requires run.id < |s.store.orders| && run.intent == s.store.orders[run.id].intent
    requires s' == State(Replayed(s, run), ReplayedProcs(s, run, requester))
    ensures OrderMoved(start, events', run.id) == OrderMoved(start, events, run.id) + run.CashMove()
  {
    AfterKeepsInv(start, events);
    OrderMovedIsNet(start, events, run.id);
    OrderMovedIsNet(start, events', run.id);
    ReplayAddsShare(s, s', run, requester);
  }

  lemma ShareKept(st: Store, st': Store, p: Proc, id: nat)
    requires ProcOk(st, p) && Extends(st, st') && id < |st.orders|
    ensures OrderCash(st', id)(p) == OrderCash(st, id)(p)
  {
  }

  lemma ReplayShare(s: State, run: Run, requester: Option<string>)
    requires run.id < |s.store.orders| && run.intent == s.store.orders[run.id].intent
    ensures OrderCash(Replayed(s, run), run.id)(ReplayedProcs(s, run, requester)[|s.procs|]) == run.CashMove()
  {
    assert Replayed(s, run).trades[|s.store.trades|] == TradeOf(run);
  }

  lemma ReplayAddsShare(s: State, s': State, run: Run, requester: Option<string>)
    requires Inv(s) && run.id < |s.store.orders| && run.intent == s.store.orders[run.id].intent
    requires s' == State(Replayed(s, run), ReplayedProcs(s, run, requester))
    ensures Sum(s'.procs, OrderCash(s'.store, run.id)) == Sum(s.procs, OrderCash(s.store, run.id)) + run.CashMove()
  {
    var later := OrderCash(s'.store, run.id);
    forall i | 0 <= i < |s.procs| ensures later(s.procs[i]) == OrderCash(s.store, run.id)(s.procs[i]) {
      ShareKept(s.store, s'.store, s.procs[i], run.id);
    }
    SumMatch(s.procs, later, s.procs, OrderCash(s.store, run.id));
    SumAppend(s.procs, ReplayedProcs(s, run, requester)[|s.procs|], later);
    ReplayShare(s, run, requester);
  }

  /**
   * Replaying a PENDING order whose execution passes its checks and meets no
   * failure fills it a second time exactly when a trade of it was already
   * stored; and it leaves one trade and one cash movement of it exactly when
   * the order's cash was untouched before.
   */
  lemma ReplayIsCleanIff(start: State, events: seq<Event>, s: State, id: nat, requester: Option<string>,
                         price: real, held: real, average: real)
    returns (events': seq<Event>, s': State)
    requires Leads(start, events, s) && Replayable(s, id, requester, price, held) && price > 0.0
    ensures Leads(start, events', s') && events <= events'
    ensures s' == State(Replayed(s, ReplayRun(s, id, price, average)), ReplayedProcs(s, ReplayRun(s, id, price, average), requester))
    ensures id < |s'.store.orders| && s'.store.orders[id].status.Executed?
    ensures TradesOf(s'.store.trades, id) == TradesOf(s.store.trades, id) + 1
    ensures TradesOf(s'.store.trades, id) >= 2 <==> HasTrade(s.store.trades, id)
    ensures TradesOf(s'.store.trades, id) == 1 && OrderMoved(start, events', id) == ReplayRun(s, id, price, average).CashMove()
            <==> AllSpared(s.procs, id)
  {
    var run := ReplayRun(s, id, price, average);
    events', s' := Replay(start, events, s, id, requester, price, held, average);
    assert s'.store.trades[..|s.store.trades|] == s.store.trades;
    HasTradeIff(s.store.trades, id);
    ReplayMoves(start, events, s, events', s', run, requester);
    PendingCashUntouchedIff(start, events, id);
    assert Reachable(s);
    PendingOrderHasTradeIff(s, id);
    if AllSpared(s.procs, id) {
      assert forall i :: 0 <= i < |s.procs| ==> !StoppedBeforeSave(s.procs[i], id);
    }
  }
}
