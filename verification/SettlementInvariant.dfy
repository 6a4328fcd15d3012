/** What every step of the settlement system keeps. */
module SettlementInvariant {
  import opened Wrappers
  import opened Records
  import opened Settlement

  // ---- The store ----

  ghost predicate HasTrade(trades: seq<Trade>, order: nat) {
    exists t :: 0 <= t < |trades| && trades[t].order == order
  }

  /** A trade that is this order's fill: its side and quantity at its executed price. */
  ghost predicate IsFill(trade: Trade, id: nat, order: Order) {
    && trade.order == id
    && trade.account == order.intent.account
    && trade.symbol == order.intent.symbol
    && trade.side == order.intent.side
    && trade.quantity == order.intent.quantity
    && order.executedPrice == Some(trade.price)
  }

  ghost predicate SameKey(a: Intent, b: Intent) {
    a.account.user == b.account.user && a.clientOrderId.Some? && a.clientOrderId == b.clientOrderId
  }

  ghost predicate KeysUnique(orders: seq<Order>) {
    forall i, j :: 0 <= i < j < |orders| ==> !SameKey(orders[i].intent, orders[j].intent)
  }

  ghost predicate FillsBooked(st: Store) {
    forall id :: 0 <= id < |st.orders| && st.orders[id].status.Executed? ==>
      exists t :: 0 <= t < |st.trades| && IsFill(st.trades[t], id, st.orders[id])
  }

  ghost predicate StoreOk(st: Store) {
    && KeysUnique(st.orders)
    && FillsBooked(st)
    && (forall t :: 0 <= t < |st.trades| ==> st.trades[t].account in st.accounts)
  }

  // ---- One call ----

  /** The order a call may execute: its own, or the one it was asked to. */
  function Target(p: Proc): Option<nat> {
    if p.call.Execute? then Some(p.call.order) else p.created
  }

  ghost predicate RunOk(st: Store, p: Proc, run: Run) {
    && Target(p) == Some(run.id)
    && run.id < |st.orders|
    && st.orders[run.id].intent == run.intent
  }

  ghost predicate Moved(st: Store, p: Proc, run: Run) {
    RunOk(st, p, run) && p.traded.None? && run.intent.account in st.accounts
  }

  ghost predicate Booked(st: Store, p: Proc, run: Run) {
    && RunOk(st, p, run)
    && p.traded.Some? && p.traded.value < |st.trades|
    && st.trades[p.traded.value] == TradeOf(run)
  }

  /** A call that was answered with an order holding its key. */
  ghost predicate Answered(st: Store, p: Proc, order: nat) {
    p.call.Place? && order < |st.orders| && SameKey(st.orders[order].intent, p.call.intent)
  }

  ghost predicate PcOk(st: Store, p: Proc) {
    match p.pc
    case FindAccount => p.call.Place? && p.created.None? && p.traded.None?
    case CreateAccount => p.call.Place? && p.created.None? && p.traded.None?
    case FindExisting => p.call.Place? && p.call.intent.clientOrderId.Some? && p.created.None? && p.traded.None?
    case InsertOrder => !p.call.Execute? && p.created.None? && p.traded.None?
    case FindWinner => p.call.Place? && p.created.None? && p.traded.None? && KeyTaken(st.orders, p.call.intent)
    case FindTrade(order) => Answered(st, p, order) && p.created.None? && p.traded.None? && HasTrade(st.trades, order)
    case Gate(order) => p.call.Place? && p.created == Some(order) && p.traded.None?
    case SaveGateRejection(order) => p.call.Place? && p.created == Some(order) && p.traded.None?
    case ReadOrder(order) => Target(p) == Some(order) && p.traded.None?
    case ReadAccount(order, intent) => RunOk(st, p, Run(order, intent, 0.0, 0.0)) && p.traded.None?
    case FetchPrice(order, intent) => RunOk(st, p, Run(order, intent, 0.0, 0.0)) && p.traded.None?
    case Debit(run) => RunOk(st, p, run) && run.intent.side.Buy? && p.traded.None?
    case ReadBalance(run) => RunOk(st, p, run) && p.traded.None?
    case SaveRejection(run) => RunOk(st, p, run) && p.traded.None?
    case ReadPosition(run) => RunOk(st, p, run) && run.intent.side.Sell? && p.traded.None?
    case Credit(run) => RunOk(st, p, run) && run.intent.side.Sell? && p.traded.None?
    case WritePosition(run) => Moved(st, p, run)
    case InsertTrade(run) => Moved(st, p, run)
    case Compensate(run) => Moved(st, p, run)
    case SaveExecution(run) => Booked(st, p, run)
    case Publish(run) => Booked(st, p, run) && !st.orders[run.id].status.Pending?
    case Returned(order, trade) =>
      && order < |st.orders|
      && (p.created.None? && p.call.Place? ==> Answered(st, p, order) && p.traded.None?)
      && (p.created.Some? ==> p.created == Some(order))
      && (p.call.Execute? ==> p.call.order == order)
      && (trade.Some? ==> trade.value < |st.trades| && st.trades[trade.value].order == order)
      && (p.traded.Some? ==> trade == p.traded && !st.orders[order].status.Pending?)
    case Thrown(ending) =>
      match ending
      case Clean => p.traded.Some? ==> Target(p).Some? && Target(p).value < |st.orders| && !st.orders[Target(p).value].status.Pending?
      case Unwound(run) => Moved(st, p, run)
      case Drifted(run) => Moved(st, p, run)
      case Unsaved(run) => Booked(st, p, run)
  }

  ghost predicate ProcOk(st: Store, p: Proc) {
    && (p.call.Execute? ==> p.created.None?)
    && (p.created.Some? ==> p.created.value < |st.orders| && st.orders[p.created.value].intent == p.call.Wanted())
    && (p.traded.Some? ==> p.traded.value < |st.trades| && Target(p) == Some(st.trades[p.traded.value].order))
    && PcOk(st, p)
  }

  // ---- The whole system ----

  ghost predicate Distinct(procs: seq<Proc>) {
    && (forall i, j :: 0 <= i < j < |procs| && procs[i].created.Some? ==> procs[i].created != procs[j].created)
    && (forall i, j :: 0 <= i < j < |procs| && procs[i].traded.Some? ==> procs[i].traded != procs[j].traded)
  }

  ghost predicate HasBooker(procs: seq<Proc>, t: nat) {
    exists i :: 0 <= i < |procs| && procs[i].traded == Some(t)
  }

  ghost predicate Inserted(s: State) {
    forall t: nat :: t < |s.store.trades| ==> HasBooker(s.procs, t)
  }

  ghost predicate Inv(s: State) {
    && StoreOk(s.store)
    && (forall i :: 0 <= i < |s.procs| ==> ProcOk(s.store, s.procs[i]))
    && Distinct(s.procs)
    && Inserted(s)
  }

  // ---- The store only grows ----

  /** Accounts, orders and trades stay; an order's terms never change and it never returns to PENDING. */
  ghost predicate Extends(st: Store, st': Store) {
    && st.accounts.Keys <= st'.accounts.Keys
    && |st.orders| <= |st'.orders|
    && st.trades <= st'.trades
    && (forall i :: 0 <= i < |st.orders| ==>
          && st'.orders[i].intent == st.orders[i].intent
          && (!st.orders[i].status.Pending? ==> !st'.orders[i].status.Pending?))
  }

  lemma StepExtends(st: Store, p: Proc, reply: Reply)
    ensures Extends(st, NextStore(st, p, reply))
  {
  }

  lemma LookupKept(st: Store, st': Store, p: Proc)
    requires PcOk(st, p) && Extends(st, st') && (p.pc.FindTrade? || p.pc.FindWinner?)
    ensures PcOk(st', p)
  {
    if p.pc.FindTrade? {
      var t :| 0 <= t < |st.trades| && st.trades[t].order == p.pc.order;
      assert st'.trades[t] == st.trades[t];
    } else {
      var i := FindByKey(st.orders, p.call.intent.account.user, p.call.intent.clientOrderId.value).value;
      assert HasKey(st'.orders[i], p.call.intent.account.user, p.call.intent.clientOrderId.value);
    }
  }

  lemma PcOkKept(st: Store, st': Store, p: Proc)
    requires PcOk(st, p) && Extends(st, st')
    ensures PcOk(st', p)
  {
    if p.pc.FindTrade? || p.pc.FindWinner? {
      LookupKept(st, st', p);
    }
  }

  lemma ProcOkKept(st: Store, st': Store, p: Proc)
    requires ProcOk(st, p) && Extends(st, st')
    ensures ProcOk(st', p)
  {
    PcOkKept(st, st', p);
  }

  // ---- One step ----

  lemma InsertKeepsKeysUnique(orders: seq<Order>, intent: Intent)
    requires KeysUnique(orders) && !KeyTaken(orders, intent)
    ensures KeysUnique(orders + [Order(intent, Pending, None)])
  {
    forall i | 0 <= i < |orders| ensures !SameKey(orders[i].intent, intent) {
      if intent.clientOrderId.Some? {
        assert !HasKey(orders[i], intent.account.user, intent.clientOrderId.value);
      }
    }
  }

  lemma StepKeepsFills(st: Store, p: Proc, reply: Reply)
    requires StoreOk(st) && ProcOk(st, p)
    ensures FillsBooked(NextStore(st, p, reply))
  {
    var st' := NextStore(st, p, reply);
    StepExtends(st, p, reply);
    forall id | 0 <= id < |st'.orders| && st'.orders[id].status.Executed?
      ensures exists t :: 0 <= t < |st'.trades| && IsFill(st'.trades[t], id, st'.orders[id])
    {
      if reply.Done? && p.pc.SaveExecution? && id == p.pc.run.id {
        assert IsFill(st'.trades[p.traded.value], id, st'.orders[id]);
      } else {
        assert id < |st.orders| && st'.orders[id] == st.orders[id];
        var t :| 0 <= t < |st.trades| && IsFill(st.trades[t], id, st.orders[id]);
        assert IsFill(st'.trades[t], id, st'.orders[id]);
      }
    }
  }

  lemma KeysFollowIntents(orders: seq<Order>, orders': seq<Order>)
    requires KeysUnique(orders) && |orders| == |orders'|
    requires forall i :: 0 <= i < |orders| ==> orders'[i].intent == orders[i].intent
    ensures KeysUnique(orders')
  {
  }

  lemma StepKeepsKeys(st: Store, p: Proc, reply: Reply)
    requires StoreOk(st) && ProcOk(st, p)
    ensures KeysUnique(NextStore(st, p, reply).orders)
  {
    if Inserts(st, p, reply) {
      InsertKeepsKeysUnique(st.orders, p.call.Wanted());
    } else {
      StepExtends(st, p, reply);
      KeysFollowIntents(st.orders, NextStore(st, p, reply).orders);
    }
  }

  lemma StepStoreOk(st: Store, p: Proc, reply: Reply)
    requires StoreOk(st) && ProcOk(st, p)
    ensures StoreOk(NextStore(st, p, reply))
  {
    StepExtends(st, p, reply);
    StepKeepsFills(st, p, reply);
    StepKeepsKeys(st, p, reply);
  }

  lemma AnswerOk(st: Store, p: Proc, order: nat)
    requires StoreOk(st) && Answered(st, p, order) && p.created.None? && p.traded.None?
    ensures ProcOk(st, p.(pc := AnswerWith(st.orders, order)))
  {
    if st.orders[order].status.Executed? {
      var t :| 0 <= t < |st.trades| && IsFill(st.trades[t], order, st.orders[order]);
      assert st.trades[t].order == order;
    }
  }

  lemma LookupStepOk(st: Store, p: Proc, reply: Reply)
    requires StoreOk(st) && ProcOk(st, p)
    requires p.pc.FindExisting? || p.pc.FindWinner? || p.pc.FindTrade?
    ensures ProcOk(NextStore(st, p, reply), NextProc(st, p, reply))
  {
    if reply.Done? && !p.pc.FindTrade? {
      var found := FindByKey(st.orders, p.call.intent.account.user, p.call.intent.clientOrderId.value);
      if found.Some? {
        AnswerOk(st, p, found.value);
      }
    }
  }

  lemma AccountStepOk(st: Store, p: Proc, reply: Reply)
    requires ProcOk(st, p) && (p.pc.FindAccount? || p.pc.CreateAccount?)
    ensures ProcOk(NextStore(st, p, reply), NextProc(st, p, reply))
  {
  }

  lemma InsertStepOk(st: Store, p: Proc, reply: Reply)
    requires ProcOk(st, p) && p.pc.InsertOrder?
    ensures ProcOk(NextStore(st, p, reply), NextProc(st, p, reply))
  {
  }

  lemma GateStepOk(st: Store, p: Proc, reply: Reply)
    requires ProcOk(st, p) && (p.pc.Gate? || p.pc.SaveGateRejection?)
    ensures ProcOk(NextStore(st, p, reply), NextProc(st, p, reply))
  {
  }

  lemma ReadOrderStepOk(st: Store, p: Proc, reply: Reply)
    requires ProcOk(st, p) && p.pc.ReadOrder?
    ensures ProcOk(NextStore(st, p, reply), NextProc(st, p, reply))
  {
  }

  lemma ReadStepOk(st: Store, p: Proc, reply: Reply)
    requires ProcOk(st, p) && (p.pc.ReadAccount? || p.pc.ReadBalance?)
    ensures ProcOk(NextStore(st, p, reply), NextProc(st, p, reply))
  {
  }

  lemma FetchPriceStepOk(st: Store, p: Proc, reply: Reply)
    requires ProcOk(st, p) && p.pc.FetchPrice?
    ensures ProcOk(NextStore(st, p, reply), NextProc(st, p, reply))
  {
  }

  lemma ReadPositionStepOk(st: Store, p: Proc, reply: Reply)
    requires ProcOk(st, p) && p.pc.ReadPosition?
    ensures ProcOk(NextStore(st, p, reply), NextProc(st, p, reply))
  {
  }

  /** Only the control point of the call changes. */
  lemma PcMoves(st: Store, st': Store, p: Proc, pc: Pc)
    requires ProcOk(st, p) && Extends(st, st') && PcOk(st', p.(pc := pc))
    ensures ProcOk(st', p.(pc := pc))
  {
  }

  lemma DebitStepOk(st: Store, p: Proc, reply: Reply)
    requires ProcOk(st, p) && p.pc.Debit?
    ensures ProcOk(NextStore(st, p, reply), NextProc(st, p, reply))
  {
    StepExtends(st, p, reply);
    PcMoves(st, NextStore(st, p, reply), p, NextPc(st, p, reply));
  }

  lemma CreditStepOk(st: Store, p: Proc, reply: Reply)
    requires ProcOk(st, p) && p.pc.Credit?
    ensures ProcOk(NextStore(st, p, reply), NextProc(st, p, reply))
  {
    StepExtends(st, p, reply);
    PcMoves(st, NextStore(st, p, reply), p, NextPc(st, p, reply));
  }

  lemma SaveRejectionStepOk(st: Store, p: Proc, reply: Reply)
    requires ProcOk(st, p) && p.pc.SaveRejection?
    ensures ProcOk(NextStore(st, p, reply), NextProc(st, p, reply))
  {
    StepExtends(st, p, reply);
    PcMoves(st, NextStore(st, p, reply), p, NextPc(st, p, reply));
  }

  lemma WritePositionStepOk(st: Store, p: Proc, reply: Reply)
    requires ProcOk(st, p) && p.pc.WritePosition?
    ensures ProcOk(NextStore(st, p, reply), NextProc(st, p, reply))
  {
    StepExtends(st, p, reply);
    PcMoves(st, NextStore(st, p, reply), p, NextPc(st, p, reply));
  }

  lemma CompensateStepOk(st: Store, p: Proc, reply: Reply)
    requires ProcOk(st, p) && p.pc.Compensate?
    ensures ProcOk(NextStore(st, p, reply), NextProc(st, p, reply))
  {
    StepExtends(st, p, reply);
    PcMoves(st, NextStore(st, p, reply), p, NextPc(st, p, reply));
  }

  lemma InsertTradeStepOk(st: Store, p: Proc, reply: Reply)
    requires ProcOk(st, p) && p.pc.InsertTrade?
    ensures ProcOk(NextStore(st, p, reply), NextProc(st, p, reply))
  {
    StepExtends(st, p, reply);
    ProcOkKept(st, NextStore(st, p, reply), p);
  }

  lemma SaveExecutionStepOk(st: Store, p: Proc, reply: Reply)
    requires ProcOk(st, p) && p.pc.SaveExecution?
    ensures ProcOk(NextStore(st, p, reply), NextProc(st, p, reply))
  {
    StepExtends(st, p, reply);
    PcMoves(st, NextStore(st, p, reply), p, NextPc(st, p, reply));
  }

  lemma PublishStepOk(st: Store, p: Proc, reply: Reply)
    requires ProcOk(st, p) && p.pc.Publish?
    ensures ProcOk(NextStore(st, p, reply), NextProc(st, p, reply))
  {
    StepExtends(st, p, reply);
    PcMoves(st, NextStore(st, p, reply), p, NextPc(st, p, reply));
  }

  lemma EndedStepOk(st: Store, p: Proc, reply: Reply)
    requires ProcOk(st, p) && (p.pc.Returned? || p.pc.Thrown?)
    ensures ProcOk(NextStore(st, p, reply), NextProc(st, p, reply))
  {
    StepExtends(st, p, reply);
    ProcOkKept(st, NextStore(st, p, reply), p);
  }

  lemma StepProcOk(st: Store, p: Proc, reply: Reply)
    requires StoreOk(st) && ProcOk(st, p)
    ensures ProcOk(NextStore(st, p, reply), NextProc(st, p, reply))
  {
    match p.pc
    case FindAccount => AccountStepOk(st, p, reply);
    case CreateAccount => AccountStepOk(st, p, reply);
    case InsertOrder => InsertStepOk(st, p, reply);
    case FindExisting => LookupStepOk(st, p, reply);
    case FindWinner => LookupStepOk(st, p, reply);
    case FindTrade(_) => LookupStepOk(st, p, reply);
    case Gate(_) => GateStepOk(st, p, reply);
    case SaveGateRejection(_) => GateStepOk(st, p, reply);
    case ReadOrder(_) => ReadOrderStepOk(st, p, reply);
    case ReadAccount(_, _) => ReadStepOk(st, p, reply);
    case ReadBalance(_) => ReadStepOk(st, p, reply);
    case FetchPrice(_, _) => FetchPriceStepOk(st, p, reply);
    case ReadPosition(_) => ReadPositionStepOk(st, p, reply);
    case Debit(_) => DebitStepOk(st, p, reply);
    case Credit(_) => CreditStepOk(st, p, reply);
    case SaveRejection(_) => SaveRejectionStepOk(st, p, reply);
    case WritePosition(_) => WritePositionStepOk(st, p, reply);
    case Compensate(_) => CompensateStepOk(st, p, reply);
    case InsertTrade(_) => InsertTradeStepOk(st, p, reply);
    case SaveExecution(_) => SaveExecutionStepOk(st, p, reply);
    case Publish(_) => PublishStepOk(st, p, reply);
    case Returned(_, _) => EndedStepOk(st, p, reply);
    case Thrown(_) => EndedStepOk(st, p, reply);
  }

  /** Replacing one call by one that may have just inserted order `orders` or trade `trades`. */
  lemma UpdateDistinct(procs: seq<Proc>, i: nat, p': Proc, orders: nat, trades: nat)
    requires Distinct(procs) && i < |procs|
    requires forall j :: 0 <= j < |procs| && procs[j].created.Some? ==> procs[j].created.value < orders
    requires forall j :: 0 <= j < |procs| && procs[j].traded.Some? ==> procs[j].traded.value < trades
    requires p'.created == procs[i].created || p'.created == Some(orders)
    requires p'.traded == procs[i].traded || p'.traded == Some(trades)
    ensures Distinct(procs[i := p'])
  {
  }

  lemma UpdateInserted(s: State, i: nat, s': State)
    requires Inserted(s) && i < |s.procs| == |s'.procs|
    requires forall j :: 0 <= j < |s.procs| && j != i ==> s'.procs[j] == s.procs[j]
    requires (s'.procs[i].traded == s.procs[i].traded && s'.store.trades == s.store.trades) ||
             (s.procs[i].traded.None? && s'.procs[i].traded == Some(|s.store.trades|) && |s'.store.trades| == |s.store.trades| + 1)
    ensures Inserted(s')
  {
    forall t: nat | t < |s'.store.trades| ensures HasBooker(s'.procs, t) {
      if t == |s.store.trades| {
        assert s'.procs[i].traded == Some(t);
      } else {
        assert HasBooker(s.procs, t);
        var j :| 0 <= j < |s.procs| && s.procs[j].traded == Some(t);
        assert s'.procs[j].traded == Some(t);
      }
    }
  }

  lemma StepDistinct(s: State, i: nat, reply: Reply)
    requires Inv(s) && i < |s.procs|
    ensures Distinct(Apply(s, Step(i, reply)).procs)
    ensures Inserted(Apply(s, Step(i, reply)))
  {
    var p' := NextProc(s.store, s.procs[i], reply);
    forall j | 0 <= j < |s.procs|
      ensures s.procs[j].created.Some? ==> s.procs[j].created.value < |s.store.orders|
      ensures s.procs[j].traded.Some? ==> s.procs[j].traded.value < |s.store.trades|
    {
      assert ProcOk(s.store, s.procs[j]);
    }
    UpdateDistinct(s.procs, i, p', |s.store.orders|, |s.store.trades|);
    UpdateInserted(s, i, Apply(s, Step(i, reply)));
  }

  lemma ProcsOkKept(st: Store, st': Store, procs: seq<Proc>)
    requires Extends(st, st') && forall i :: 0 <= i < |procs| ==> ProcOk(st, procs[i])
    ensures forall i :: 0 <= i < |procs| ==> ProcOk(st', procs[i])
  {
    forall i | 0 <= i < |procs| ensures ProcOk(st', procs[i]) {
      ProcOkKept(st, st', procs[i]);
    }
  }

  lemma BeginKeepsInv(s: State, call: Call)
    requires Inv(s)
    ensures Inv(Apply(s, Begin(call)))
  {
    var s' := Apply(s, Begin(call));
    assert ProcOk(s.store, Start(call));
    assert forall i :: 0 <= i < |s.procs| ==> s'.procs[i] == s.procs[i];
    forall t: nat | t < |s'.store.trades| ensures HasBooker(s'.procs, t) {
      assert HasBooker(s.procs, t);
      var j :| 0 <= j < |s.procs| && s.procs[j].traded == Some(t);
      assert s'.procs[j].traded == Some(t);
    }
  }

  lemma ApplyKeepsInv(s: State, event: Event)
    requires Inv(s)
    ensures Inv(Apply(s, event))
  {
    match event
    case Begin(call) => BeginKeepsInv(s, call);
    case Step(i, reply) =>
      if i < |s.procs| {
        StepStoreOk(s.store, s.procs[i], reply);
        StepExtends(s.store, s.procs[i], reply);
        StepDistinct(s, i, reply);
        StepProcOk(s.store, s.procs[i], reply);
        ProcsOkKept(s.store, NextStore(s.store, s.procs[i], reply), s.procs);
      }
  }

  lemma {:induction false} AfterKeepsInv(s: State, events: seq<Event>)
    requires Inv(s)
    ensures Inv(After(s, events))
  {
    if |events| > 0 {
      AfterKeepsInv(s, events[..|events| - 1]);
      ApplyKeepsInv(After(s, events[..|events| - 1]), events[|events| - 1]);
    }
  }

  /** Some history from an initial state leads here. */
  ghost predicate Reachable(s: State) {
    exists start, events :: Initial(start) && After(start, events) == s
  }

  lemma ReachableInv(s: State)
    requires Reachable(s)
    ensures Inv(s)
  {
    var start, events :| Initial(start) && After(start, events) == s;
    AfterKeepsInv(start, events);
  }
}
