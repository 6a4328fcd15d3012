/** Cash and realised P&L against the trade log, under every interleaving and every failure. */
module Reconciliation {
  import opened Sums
  import opened Records
  import opened Settlement
  import opened SettlementInvariant

  // ---- What a booked trade, a call in flight and a failed compensation account for ----

  /** The call has moved cash and has neither booked its trade nor finished compensating. */
  predicate MidFlight(p: Proc) {
    p.pc.WritePosition? || p.pc.InsertTrade? || p.pc.Compensate?
  }

  predicate CompensationFailed(p: Proc) {
    p.pc.Thrown? && p.pc.ending.Drifted?
  }

  function RunOf(p: Proc): Run
    requires MidFlight(p) || CompensationFailed(p)
  {
    if p.pc.Thrown? then p.pc.ending.run else p.pc.run
  }

  function InFlightCash(k: AccountId): Proc -> real {
    (p: Proc) => if MidFlight(p) && RunOf(p).intent.account == k then RunOf(p).CashMove() else 0.0
  }

  function ResidualCash(k: AccountId): Proc -> real {
    (p: Proc) => if CompensationFailed(p) && RunOf(p).intent.account == k then RunOf(p).CashMove() else 0.0
  }

  function InFlightPnl(k: AccountId): Proc -> real {
    (p: Proc) => if MidFlight(p) && RunOf(p).intent.account == k then RunOf(p).RealisedPnl() else 0.0
  }

  function ResidualPnl(k: AccountId): Proc -> real {
    (p: Proc) => if CompensationFailed(p) && RunOf(p).intent.account == k then RunOf(p).RealisedPnl() else 0.0
  }

  ghost predicate ReconciledFor(s: State, k: AccountId)
    requires k in s.store.accounts
  {
    var a := s.store.accounts[k];
    && a.cash == a.initialCapital + Sum(s.store.trades, TradeCash(k))
                 + Sum(s.procs, InFlightCash(k)) + Sum(s.procs, ResidualCash(k))
    && a.realisedPnl == Sum(s.store.trades, TradePnl(k))
                        + Sum(s.procs, InFlightPnl(k)) + Sum(s.procs, ResidualPnl(k))
  }

  ghost predicate Reconciled(s: State) {
    forall k :: k in s.store.accounts ==> ReconciledFor(s, k)
  }

  // ---- One step ----

  /** Only four operations touch an existing balance; the others neither move cash nor start owing any. */
  lemma QuietStep(st: Store, p: Proc, reply: Reply, k: AccountId)
    requires k in st.accounts && !MidFlight(p) && !p.pc.Debit? && !p.pc.Credit?
    ensures k in NextStore(st, p, reply).accounts && NextStore(st, p, reply).accounts[k] == st.accounts[k]
    ensures !MidFlight(NextProc(st, p, reply)) && !Books(p, reply)
    ensures CompensationFailed(p) ==> NextProc(st, p, reply).pc == p.pc
    ensures CompensationFailed(NextProc(st, p, reply)) ==> CompensationFailed(p)
  {
    if !reply.Fails? && !reply.Done? {
      assert NextStore(st, p, reply) == st;
    }
  }

  /** What the step adds to an account is what it books plus what it leaves unsettled. */
  ghost predicate MovesAsOwed(st: Store, p: Proc, reply: Reply, k: AccountId)
    requires ProcOk(st, p) && k in st.accounts
  {
    var st', p' := NextStore(st, p, reply), NextProc(st, p, reply);
    && k in st'.accounts && st'.accounts[k].initialCapital == st.accounts[k].initialCapital
    && st'.accounts[k].cash - st.accounts[k].cash ==
       (if Books(p, reply) then TradeCash(k)(TradeOf(p.pc.run)) else 0.0)
       + InFlightCash(k)(p') - InFlightCash(k)(p) + ResidualCash(k)(p') - ResidualCash(k)(p)
    && st'.accounts[k].realisedPnl - st.accounts[k].realisedPnl ==
       (if Books(p, reply) then TradePnl(k)(TradeOf(p.pc.run)) else 0.0)
       + InFlightPnl(k)(p') - InFlightPnl(k)(p) + ResidualPnl(k)(p') - ResidualPnl(k)(p)
  }

  lemma QuietMoves(st: Store, p: Proc, reply: Reply, k: AccountId)
    requires ProcOk(st, p) && k in st.accounts && !MidFlight(p) && !p.pc.Debit? && !p.pc.Credit?
    ensures MovesAsOwed(st, p, reply, k)
  {
    QuietStep(st, p, reply, k);
  }

  lemma DebitMoves(st: Store, p: Proc, reply: Reply, k: AccountId)
    requires ProcOk(st, p) && k in st.accounts && p.pc.Debit?
    ensures MovesAsOwed(st, p, reply, k)
  {
  }

  lemma CreditMoves(st: Store, p: Proc, reply: Reply, k: AccountId)
    requires ProcOk(st, p) && k in st.accounts && p.pc.Credit?
    ensures MovesAsOwed(st, p, reply, k)
  {
  }

  lemma WritingMoves(st: Store, p: Proc, reply: Reply, k: AccountId)
    requires ProcOk(st, p) && k in st.accounts && p.pc.WritePosition?
    ensures MovesAsOwed(st, p, reply, k)
  {
    assert NextStore(st, p, reply) == st;
  }

  lemma BookingMoves(st: Store, p: Proc, reply: Reply, k: AccountId)
    requires ProcOk(st, p) && k in st.accounts && p.pc.InsertTrade?
    ensures MovesAsOwed(st, p, reply, k)
  {
    assert NextStore(st, p, reply).accounts == st.accounts;
  }

  lemma CompensatingMoves(st: Store, p: Proc, reply: Reply, k: AccountId)
    requires ProcOk(st, p) && k in st.accounts && p.pc.Compensate?
    ensures MovesAsOwed(st, p, reply, k)
  {
  }

  lemma StepMoves(st: Store, p: Proc, reply: Reply, k: AccountId)
    requires ProcOk(st, p) && k in st.accounts
    ensures MovesAsOwed(st, p, reply, k)
  {
    match p.pc
    case Debit(_) => DebitMoves(st, p, reply, k);
    case Credit(_) => CreditMoves(st, p, reply, k);
    case WritePosition(_) => WritingMoves(st, p, reply, k);
    case InsertTrade(_) => BookingMoves(st, p, reply, k);
    case Compensate(_) => CompensatingMoves(st, p, reply, k);
    case _ => QuietMoves(st, p, reply, k);
  }

  lemma StepReconciles(s: State, i: nat, reply: Reply, k: AccountId)
    requires Inv(s) && i < |s.procs| && k in s.store.accounts && ReconciledFor(s, k)
    ensures k in Apply(s, Step(i, reply)).store.accounts
    ensures ReconciledFor(Apply(s, Step(i, reply)), k)
  {
    var p := s.procs[i];
    var p' := NextProc(s.store, p, reply);
    StepMoves(s.store, p, reply, k);
    SumUpdate(s.procs, i, p', InFlightCash(k));
    SumUpdate(s.procs, i, p', ResidualCash(k));
    SumUpdate(s.procs, i, p', InFlightPnl(k));
    SumUpdate(s.procs, i, p', ResidualPnl(k));
    if Books(p, reply) {
      SumAppend(s.store.trades, TradeOf(p.pc.run), TradeCash(k));
      SumAppend(s.store.trades, TradeOf(p.pc.run), TradePnl(k));
    }
  }

  /** No call in flight on `k`, and none that failed to compensate there. */
  ghost predicate Untouched(procs: seq<Proc>, k: AccountId) {
    forall j :: 0 <= j < |procs| ==>
      ((MidFlight(procs[j]) || CompensationFailed(procs[j])) ==> RunOf(procs[j]).intent.account != k)
  }

  lemma UntouchedOwesNothing(procs: seq<Proc>, k: AccountId)
    requires Untouched(procs, k)
    ensures Sum(procs, InFlightCash(k)) == 0.0 && Sum(procs, ResidualCash(k)) == 0.0
    ensures Sum(procs, InFlightPnl(k)) == 0.0 && Sum(procs, ResidualPnl(k)) == 0.0
  {
    SumZero(procs, InFlightCash(k));
    SumZero(procs, ResidualCash(k));
    SumZero(procs, InFlightPnl(k));
    SumZero(procs, ResidualPnl(k));
  }

  lemma OnlyCreationAddsAccounts(st: Store, p: Proc, reply: Reply, k: AccountId)
    requires ProcOk(st, p) && k !in st.accounts && k in NextStore(st, p, reply).accounts
    ensures NextStore(st, p, reply).accounts[k] == OpeningAccount(DEFAULT_CAPITAL)
    ensures NextStore(st, p, reply).trades == st.trades
    ensures !MidFlight(NextProc(st, p, reply)) && !CompensationFailed(NextProc(st, p, reply))
  {
    assert reply.Done? && p.pc.CreateAccount?;
  }

  /** An account that does not exist yet has no trade and no call in flight. */
  lemma NewAccountReconciles(s: State, i: nat, reply: Reply, k: AccountId)
    requires Inv(s) && i < |s.procs| && k !in s.store.accounts
    requires k in Apply(s, Step(i, reply)).store.accounts
    ensures ReconciledFor(Apply(s, Step(i, reply)), k)
  {
    var p' := NextProc(s.store, s.procs[i], reply);
    OnlyCreationAddsAccounts(s.store, s.procs[i], reply, k);
    assert Untouched(s.procs[i := p'], k) by {
      forall j | 0 <= j < |s.procs| && j != i ensures ProcOk(s.store, s.procs[j]) {}
    }
    UntouchedOwesNothing(s.procs[i := p'], k);
    SumZero(s.store.trades, TradeCash(k));
    SumZero(s.store.trades, TradePnl(k));
  }

  lemma BeginReconciles(s: State, call: Call, k: AccountId)
    requires k in s.store.accounts && ReconciledFor(s, k)
    ensures ReconciledFor(Apply(s, Begin(call)), k)
  {
    SumAppend(s.procs, Start(call), InFlightCash(k));
    SumAppend(s.procs, Start(call), ResidualCash(k));
    SumAppend(s.procs, Start(call), InFlightPnl(k));
    SumAppend(s.procs, Start(call), ResidualPnl(k));
  }

  lemma ApplyReconciles(s: State, event: Event)
    requires Inv(s) && Reconciled(s)
    ensures Reconciled(Apply(s, event))
  {
    forall k | k in Apply(s, event).store.accounts ensures ReconciledFor(Apply(s, event), k) {
      match event
      case Begin(call) => BeginReconciles(s, call, k);
      case Step(i, reply) =>
        if i < |s.procs| {
          if k in s.store.accounts {
            StepReconciles(s, i, reply, k);
          } else {
            NewAccountReconciles(s, i, reply, k);
          }
        }
    }
  }

  // ---- Every history ----

  lemma {:induction false} AfterReconciles(s: State, events: seq<Event>)
    requires Initial(s)
    ensures Reconciled(After(s, events))
  {
    if |events| > 0 {
      AfterReconciles(s, events[..|events| - 1]);
      AfterKeepsInv(s, events[..|events| - 1]);
      ApplyReconciles(After(s, events[..|events| - 1]), events[|events| - 1]);
    }
  }

  /**
   * In every reachable state each balance is the opening capital, plus the
   * booked trades, plus the calls between their cash movement and their trade,
   * plus exactly the movements whose compensation failed.
   */
  lemma CashFollowsTrades(s: State, k: AccountId)
    requires Reachable(s) && k in s.store.accounts
    ensures var a := s.store.accounts[k];
            && a.cash == a.initialCapital + Sum(s.store.trades, TradeCash(k))
                         + Sum(s.procs, InFlightCash(k)) + Sum(s.procs, ResidualCash(k))
            && a.realisedPnl == Sum(s.store.trades, TradePnl(k))
                                + Sum(s.procs, InFlightPnl(k)) + Sum(s.procs, ResidualPnl(k))
  {
    var start, events :| Initial(start) && After(start, events) == s;
    AfterReconciles(start, events);
    assert ReconciledFor(s, k);
  }

  predicate Ended(p: Proc) {
    p.pc.Returned? || p.pc.Thrown?
  }

  /** Once every call has ended and none failed to compensate, the trade log explains every balance. */
  lemma SettledBooksMatchTrades(s: State, k: AccountId)
    requires Reachable(s) && k in s.store.accounts
    requires forall i :: 0 <= i < |s.procs| ==> Ended(s.procs[i]) && !CompensationFailed(s.procs[i])
    ensures s.store.accounts[k].cash == s.store.accounts[k].initialCapital + Sum(s.store.trades, TradeCash(k))
    ensures s.store.accounts[k].realisedPnl == Sum(s.store.trades, TradePnl(k))
  {
    CashFollowsTrades(s, k);
    UntouchedOwesNothing(s.procs, k);
  }

  // ---- How far below zero cash can go ----

  /** SELL proceeds that were credited and then taken back. */
  function UnwoundCredit(k: AccountId): Proc -> real {
    (p: Proc) =>
      if p.pc.Thrown? && p.pc.ending.Unwound? && p.pc.ending.run.intent.side.Sell? && p.pc.ending.run.intent.account == k
      then p.pc.ending.run.TotalCost() else 0.0
  }

  /** Quotes are positive prices, and the request validation lets only positive quantities through. */
  predicate Positive(event: Event) {
    match event
    case Begin(Place(intent)) => intent.quantity > 0.0
    case Begin(Flatten(_, _, quantity)) => quantity > 0.0
    case Step(_, Quote(price)) => price > 0.0
    case _ => true
  }

  predicate PositiveRun(run: Run) {
    run.price > 0.0 && run.intent.quantity > 0.0
  }

  predicate PositiveProc(p: Proc) {
    && (!p.call.Execute? ==> p.call.Wanted().quantity > 0.0)
    && match p.pc
       case ReadAccount(_, intent) => intent.quantity > 0.0
       case FetchPrice(_, intent) => intent.quantity > 0.0
       case Debit(run) => PositiveRun(run)
       case ReadPosition(run) => PositiveRun(run)
       case Credit(run) => PositiveRun(run)
       case WritePosition(run) => PositiveRun(run)
       case InsertTrade(run) => PositiveRun(run)
       case Compensate(run) => PositiveRun(run)
       case Thrown(Unwound(run)) => PositiveRun(run)
       case Thrown(Drifted(run)) => PositiveRun(run)
       case _ => true
  }

  ghost predicate AllPositive(s: State) {
    && PositiveOrders(s.store)
    && PositiveTrades(s.store)
    && (forall i :: 0 <= i < |s.procs| ==> PositiveProc(s.procs[i]))
  }

  ghost predicate PositiveOrders(st: Store) {
    forall i :: 0 <= i < |st.orders| ==> st.orders[i].intent.quantity > 0.0
  }

  ghost predicate PositiveTrades(st: Store) {
    forall t :: 0 <= t < |st.trades| ==> st.trades[t].price > 0.0 && st.trades[t].quantity > 0.0
  }

  lemma PricingKeepsPositive(st: Store, p: Proc, reply: Reply)
    requires PositiveProc(p) && (reply.Quote? ==> reply.price > 0.0) && (p.pc.FetchPrice? || p.pc.ReadPosition?)
    ensures PositiveProc(NextProc(st, p, reply))
  {
  }

  lemma RunningKeepsPositive(st: Store, p: Proc, reply: Reply)
    requires PositiveProc(p)
    requires MidFlight(p) || p.pc.Debit? || p.pc.Credit? || p.pc.SaveExecution? || p.pc.Publish? || p.pc.ReadBalance? || p.pc.SaveRejection?
    ensures PositiveProc(NextProc(st, p, reply))
  {
  }

  lemma StepKeepsPositive(st: Store, p: Proc, reply: Reply)
    requires PositiveOrders(st) && PositiveProc(p) && (reply.Quote? ==> reply.price > 0.0)
    ensures PositiveProc(NextProc(st, p, reply))
  {
    if p.pc.FetchPrice? || p.pc.ReadPosition? {
      PricingKeepsPositive(st, p, reply);
    } else if MidFlight(p) || p.pc.Debit? || p.pc.Credit? || p.pc.SaveExecution? || p.pc.Publish? || p.pc.ReadBalance? || p.pc.SaveRejection? {
      RunningKeepsPositive(st, p, reply);
    }
  }

  lemma StepKeepsPositiveStore(st: Store, p: Proc, reply: Reply)
    requires PositiveOrders(st) && PositiveTrades(st) && PositiveProc(p)
    ensures PositiveOrders(NextStore(st, p, reply)) && PositiveTrades(NextStore(st, p, reply))
  {
  }

  lemma ApplyKeepsPositive(s: State, event: Event)
    requires AllPositive(s) && Positive(event)
    ensures AllPositive(Apply(s, event))
  {
    match event
    case Begin(call) =>
    case Step(i, reply) =>
      if i < |s.procs| {
        StepKeepsPositive(s.store, s.procs[i], reply);
        StepKeepsPositiveStore(s.store, s.procs[i], reply);
      }
  }

  lemma CostPositive(run: Run)
    requires PositiveRun(run)
    ensures run.TotalCost() > 0.0
  {
  }

  ghost predicate AboveFloor(s: State, k: AccountId) {
    k in s.store.accounts ==> s.store.accounts[k].cash >= -Sum(s.procs, UnwoundCredit(k))
  }

  lemma UnwoundCreditNonNegative(s: State, k: AccountId)
    requires AllPositive(s)
    ensures Sum(s.procs, UnwoundCredit(k)) >= 0.0
  {
    forall i | 0 <= i < |s.procs| ensures UnwoundCredit(k)(s.procs[i]) >= 0.0 {
      assert PositiveProc(s.procs[i]);
      if s.procs[i].pc.Thrown? && s.procs[i].pc.ending.Unwound? {
        CostPositive(s.procs[i].pc.ending.run);
      }
    }
    SumNonNegative(s.procs, UnwoundCredit(k));
  }

  /** A step either leaves a covered balance or lowers it by no more than it adds to the unwound credit. */
  lemma StepFloor(st: Store, p: Proc, reply: Reply, k: AccountId)
    requires ProcOk(st, p) && PositiveProc(p) && k in st.accounts
    ensures k in NextStore(st, p, reply).accounts
    ensures var cash := NextStore(st, p, reply).accounts[k].cash;
            var unwound := UnwoundCredit(k)(NextProc(st, p, reply)) - UnwoundCredit(k)(p);
            unwound >= 0.0 && (cash >= 0.0 || cash >= st.accounts[k].cash - unwound)
  {
    if MidFlight(p) || p.pc.Debit? || p.pc.Credit? {
      CostPositive(p.pc.run);
      if p.pc.InsertTrade? || p.pc.WritePosition? {
        assert NextStore(st, p, reply).accounts == st.accounts;
      }
    } else {
      QuietStep(st, p, reply, k);
      QuietUnwinding(st, p, reply);
    }
  }

  lemma QuietUnwinding(st: Store, p: Proc, reply: Reply)
    requires !MidFlight(p)
    ensures p.pc.Thrown? ==> NextProc(st, p, reply).pc == p.pc
    ensures NextProc(st, p, reply).pc.Thrown? && NextProc(st, p, reply).pc.ending.Unwound? ==> p.pc.Thrown?
  {
  }

  lemma StepKeepsFloor(s: State, i: nat, reply: Reply, k: AccountId)
    requires Inv(s) && AllPositive(s) && i < |s.procs| && AboveFloor(s, k)
    ensures AboveFloor(Apply(s, Step(i, reply)), k)
  {
    var p := s.procs[i];
    assert PositiveProc(p) && ProcOk(s.store, p);
    SumUpdate(s.procs, i, NextProc(s.store, p, reply), UnwoundCredit(k));
    UnwoundCreditNonNegative(s, k);
    if k in s.store.accounts {
      StepFloor(s.store, p, reply, k);
    } else if k in NextStore(s.store, p, reply).accounts {
      OnlyCreationAddsAccounts(s.store, p, reply, k);
      QuietUnwinding(s.store, p, reply);
    }
  }

  lemma {:induction false} AfterKeepsPositive(s: State, events: seq<Event>)
    requires Initial(s) && forall i :: 0 <= i < |events| ==> Positive(events[i])
    ensures AllPositive(After(s, events))
  {
    if |events| > 0 {
      AfterKeepsPositive(s, events[..|events| - 1]);
      ApplyKeepsPositive(After(s, events[..|events| - 1]), events[|events| - 1]);
    }
  }

  lemma {:induction false} AfterAboveFloor(s: State, events: seq<Event>, k: AccountId)
    requires Initial(s) && forall i :: 0 <= i < |events| ==> Positive(events[i])
    requires forall j :: j in s.store.accounts ==> s.store.accounts[j].initialCapital >= 0.0
    ensures AboveFloor(After(s, events), k)
  {
    if |events| > 0 {
      var before := events[..|events| - 1];
      AfterAboveFloor(s, before, k);
      AfterKeepsInv(s, before);
      AfterKeepsPositive(s, before);
      match events[|events| - 1]
      case Begin(call) => SumAppend(After(s, before).procs, Start(call), UnwoundCredit(k));
      case Step(i, reply) =>
        if i < |After(s, before).procs| {
          StepKeepsFloor(After(s, before), i, reply, k);
        }
    }
  }

  /**
   * However many BUYs race, cash never falls below minus the SELL proceeds
   * that were taken back; with none taken back it is never negative.
   */
  lemma CashFloor(s: State, events: seq<Event>, k: AccountId)
    requires Initial(s) && forall i :: 0 <= i < |events| ==> Positive(events[i])
    requires forall j :: j in s.store.accounts ==> s.store.accounts[j].initialCapital >= 0.0
    requires k in After(s, events).store.accounts
    ensures After(s, events).store.accounts[k].cash >= -Sum(After(s, events).procs, UnwoundCredit(k))
    ensures (forall i :: 0 <= i < |After(s, events).procs| ==> UnwoundCredit(k)(After(s, events).procs[i]) == 0.0) ==>
              After(s, events).store.accounts[k].cash >= 0.0
  {
    AfterAboveFloor(s, events, k);
    if forall i :: 0 <= i < |After(s, events).procs| ==> UnwoundCredit(k)(After(s, events).procs[i]) == 0.0 {
      SumZero(After(s, events).procs, UnwoundCredit(k));
    }
  }

  // ---- Exactly when cash goes negative ----

  /** Taking a SELL's proceeds back finds less cash than it takes. */
  predicate Overdraws(st: Store, p: Proc, reply: Reply, k: AccountId) {
    && reply.Done? && p.pc.Compensate? && p.pc.run.intent.side.Sell? && p.pc.run.intent.account == k
    && k in st.accounts && st.accounts[k].cash < p.pc.run.TotalCost()
  }

  /** From a balance that is not negative, one operation makes it negative exactly when it is such a compensation. */
  lemma StepOverdrawsIff(st: Store, p: Proc, reply: Reply, k: AccountId)
    requires ProcOk(st, p) && PositiveProc(p) && k in st.accounts && st.accounts[k].cash >= 0.0
    ensures k in NextStore(st, p, reply).accounts
    ensures NextStore(st, p, reply).accounts[k].cash < 0.0 <==> Overdraws(st, p, reply, k)
  {
    if MidFlight(p) || p.pc.Debit? || p.pc.Credit? {
      CostPositive(p.pc.run);
      if p.pc.InsertTrade? || p.pc.WritePosition? {
        assert NextStore(st, p, reply).accounts == st.accounts;
      }
    } else {
      QuietStep(st, p, reply, k);
    }
  }

  predicate OverdrawsNow(s: State, event: Event, k: AccountId) {
    event.Step? && event.proc < |s.procs| && Overdraws(s.store, s.procs[event.proc], event.reply, k)
  }

  /** The account's cash; nothing before the account exists. */
  function CashOf(s: State, k: AccountId): real {
    if k in s.store.accounts then s.store.accounts[k].cash else 0.0
  }

  /** At every point of the history the account's cash is not negative. */
  predicate NeverNegative(s: State, events: seq<Event>, k: AccountId) {
    && (|events| > 0 ==> NeverNegative(s, events[..|events| - 1], k))
    && CashOf(After(s, events), k) >= 0.0
  }

  /** No event of the history overdraws the account. */
  predicate NeverOverdraws(s: State, events: seq<Event>, k: AccountId) {
    |events| > 0 ==>
      && NeverOverdraws(s, events[..|events| - 1], k)
      && !OverdrawsNow(After(s, events[..|events| - 1]), events[|events| - 1], k)
  }

  lemma EventOverdrawsIff(s: State, event: Event, k: AccountId)
    requires Inv(s) && AllPositive(s) && CashOf(s, k) >= 0.0
    ensures CashOf(Apply(s, event), k) < 0.0 <==> OverdrawsNow(s, event, k)
  {
    if event.Step? && event.proc < |s.procs| {
      var p := s.procs[event.proc];
      assert ProcOk(s.store, p) && PositiveProc(p);
      if k in s.store.accounts {
        StepOverdrawsIff(s.store, p, event.reply, k);
      } else if k in NextStore(s.store, p, event.reply).accounts {
        OnlyCreationAddsAccounts(s.store, p, event.reply, k);
      }
    }
  }

  /**
   * Over every history with positive prices and quantities, cash is never
   * negative exactly when no compensation of a SELL finds less cash than it
   * takes back.
   */
  lemma {:induction false} NeverNegativeIff(s: State, events: seq<Event>, k: AccountId)
    requires Initial(s) && forall i :: 0 <= i < |events| ==> Positive(events[i])
    requires forall j :: j in s.store.accounts ==> s.store.accounts[j].initialCapital >= 0.0
    ensures NeverNegative(s, events, k) <==> NeverOverdraws(s, events, k)
  {
    if |events| > 0 {
      var before := events[..|events| - 1];
      NeverNegativeIff(s, before, k);
      AfterKeepsPositive(s, before);
      AfterKeepsInv(s, before);
      if NeverNegative(s, before, k) {
        EventOverdrawsIff(After(s, before), events[|events| - 1], k);
      }
    }
  }

  // ---- Building a history ----

  /** A history from an initial state with positive prices and quantities. */
  ghost predicate PositiveHistory(start: State, events: seq<Event>) {
    && Initial(start)
    && forall i :: 0 <= i < |events| ==> Positive(events[i])
  }

  ghost predicate Leads(start: State, events: seq<Event>, s: State) {
    PositiveHistory(start, events) && After(start, events) == s
  }

  /** One more event. */
  lemma Then(start: State, events: seq<Event>, s: State, event: Event) returns (events': seq<Event>, s': State)
    requires Leads(start, events, s) && Positive(event)
    ensures events' == events + [event] && events <= events' && s' == Apply(s, event) && Leads(start, events', s')
  {
    events' := events + [event];
    s' := Apply(s, event);
    assert events'[..|events'| - 1] == events;
  }
}
