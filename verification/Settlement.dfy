/**
 * Order placement and execution as a small-step system. Any number of calls
 * run at once; a step is one database operation of one call, and the reply
 * says what that operation did. Every operation may fail without applying.
 *
 * Positions are left to the environment: reading one may return anything.
 * What is claimed here about cash, trades and orders therefore holds however
 * the position documents are raced. The risk gate is left to the environment
 * in the same way.
 */
module Settlement {
  import opened Wrappers
  import opened Records

  // ---- Calls, control points and replies ----

  datatype Call =
    | Place(intent: Intent)
    | Flatten(account: AccountId, symbol: string, quantity: real)
    | Execute(order: nat, requester: Option<string>)
  {
    /** The order this call inserts, if it gets that far. */
    function Wanted(): Intent
      requires !Execute?
    {
      match this
      case Place(intent) => intent
      case Flatten(account, symbol, quantity) =>
        Intent(account, symbol, Sell, Market, quantity, None, None, None)
    }
  }

  /** What an execution carries in its local variables. */
  datatype Run = Run(id: nat, intent: Intent, price: real, averageCost: real)
  {
    function TotalCost(): real { price * intent.quantity }

    function RealisedPnl(): real {
      if intent.side.Sell? then (price - averageCost) * intent.quantity else 0.0
    }

    /** What the debit or credit adds to the cash balance. */
    function CashMove(): real { if intent.side.Buy? then -TotalCost() else TotalCost() }
  }

  /** How a call that threw left the account. */
  datatype Ending =
    | Clean                // it never moved cash, or its trade and order status are stored
    | Unwound(run: Run)    // it moved cash and moved it back
    | Drifted(run: Run)    // it moved cash and the compensation failed
    | Unsaved(run: Run)    // its trade is stored, its order status is not

  datatype Pc =
    | FindAccount | CreateAccount | FindExisting | InsertOrder | FindWinner
    | FindTrade(order: nat)
    | Gate(order: nat) | SaveGateRejection(order: nat)
    | ReadOrder(order: nat)
    | ReadAccount(order: nat, intent: Intent)
    | FetchPrice(order: nat, intent: Intent)
    | Debit(run: Run) | ReadBalance(run: Run) | SaveRejection(run: Run)
    | ReadPosition(run: Run) | Credit(run: Run)
    | WritePosition(run: Run) | InsertTrade(run: Run) | Compensate(run: Run)
    | SaveExecution(run: Run) | Publish(run: Run)
    | Returned(order: nat, trade: Option<nat>)
    | Thrown(ending: Ending)

  datatype Reply =
    | Fails
    | Done
    | Quote(price: real)
    | Held(quantity: real, averageCost: real)
    | NotHeld
    | GatePass
    | GateBlock

  /** `created` and `traded` record what this call inserted. */
  datatype Proc = Proc(call: Call, pc: Pc, created: Option<nat>, traded: Option<nat>)

  /** Orders and trades are numbered by insertion; nothing is deleted. */
  datatype Store = Store(accounts: map<AccountId, Account>, orders: seq<Order>, trades: seq<Trade>)

  datatype State = State(store: Store, procs: seq<Proc>)

  datatype Event = Begin(call: Call) | Step(proc: nat, reply: Reply)

  // ---- Lookups ----

  function FindByKey(orders: seq<Order>, user: string, key: string): (r: Option<nat>)
    ensures r.Some? ==> r.value < |orders| && HasKey(orders[r.value], user, key)
    ensures r.None? ==> forall i :: 0 <= i < |orders| ==> !HasKey(orders[i], user, key)
  {
    if |orders| == 0 then None
    else
      var earlier := FindByKey(orders[..|orders| - 1], user, key);
      if earlier.None? && HasKey(orders[|orders| - 1], user, key) then Some(|orders| - 1) else earlier
  }

  function FindTradeOf(trades: seq<Trade>, order: nat): (r: Option<nat>)
    ensures r.Some? ==> r.value < |trades| && trades[r.value].order == order
    ensures r.None? ==> forall i :: 0 <= i < |trades| ==> trades[i].order != order
  {
    if |trades| == 0 then None
    else
      var earlier := FindTradeOf(trades[..|trades| - 1], order);
      if earlier.None? && trades[|trades| - 1].order == order then Some(|trades| - 1) else earlier
  }

  /** The unique index on (user, clientOrderId), which covers only orders that carry a key. */
  predicate KeyTaken(orders: seq<Order>, intent: Intent) {
    intent.clientOrderId.Some? &&
    FindByKey(orders, intent.account.user, intent.clientOrderId.value).Some?
  }

  // ---- One call's control flow ----

  function Start(call: Call): Proc {
    var pc := match call
      case Place(_) => FindAccount
      case Flatten(_, _, _) => InsertOrder
      case Execute(order, _) => ReadOrder(order);
    Proc(call, pc, None, None)
  }

  /** A failure after the cash moved and before the trade is stored is compensated; others throw. */
  function AfterFailure(pc: Pc): Pc {
    match pc
    case WritePosition(run) => Compensate(run)
    case InsertTrade(run) => Compensate(run)
    case Compensate(run) => Thrown(Drifted(run))
    case SaveExecution(run) => Thrown(Unsaved(run))
    case _ => Thrown(Clean)
  }

  function AfterEnsure(intent: Intent): Pc {
    if intent.clientOrderId.Some? then FindExisting else InsertOrder
  }

  function AfterGate(order: nat, intent: Intent): Pc {
    if intent.kind.Market? then ReadOrder(order) else Returned(order, None)
  }

  function AfterInsert(order: nat, call: Call): Pc
    requires !call.Execute?
  {
    if call.Place? && call.intent.side.Buy? then Gate(order) else AfterGate(order, call.Wanted())
  }

  /** The original order, with its fill once it has one. */
  function AnswerWith(orders: seq<Order>, order: nat): Pc
    requires order < |orders|
  {
    if orders[order].status.Executed? then FindTrade(order) else Returned(order, None)
  }

  function AfterRead(st: Store, call: Call, id: nat): Pc {
    if id >= |st.orders| then Thrown(Clean)
    else
      var order := st.orders[id];
      if call.Execute? && call.requester.Some? && order.intent.account.user != call.requester.value then Thrown(Clean)
      else if !order.status.Pending? then Thrown(Clean)
      else if call.Place? then FetchPrice(id, order.intent)
      else ReadAccount(id, order.intent)
  }

  function AfterQuote(id: nat, intent: Intent, price: real): Pc {
    if !LimitMet(intent, price) then Thrown(Clean)
    else if intent.side.Buy? then Debit(Run(id, intent, price, 0.0))
    else ReadPosition(Run(id, intent, price, 0.0))
  }

  predicate CanDebit(st: Store, run: Run) {
    run.intent.account in st.accounts && st.accounts[run.intent.account].cash >= run.TotalCost()
  }

  /** The steps of placing: everything before an execution starts. */
  predicate Placing(pc: Pc) {
    || pc.FindAccount? || pc.CreateAccount? || pc.FindExisting? || pc.InsertOrder? || pc.FindWinner?
    || pc.FindTrade? || pc.Gate? || pc.SaveGateRejection?
  }

  /** Control after an operation of a placement applied. A reply of the wrong shape leaves the call where it is. */
  function AfterPlacing(st: Store, p: Proc): Pc {
    match p.pc
    case FindAccount =>
      if p.call.Execute? then p.pc
      else if p.call.Wanted().account in st.accounts then AfterEnsure(p.call.Wanted()) else CreateAccount
    case CreateAccount =>
      if p.call.Execute? then p.pc
      else if p.call.Wanted().account in st.accounts then Thrown(Clean) else AfterEnsure(p.call.Wanted())
    case FindExisting =>
      if p.call.Execute? || p.call.Wanted().clientOrderId.None? then p.pc
      else (match FindByKey(st.orders, p.call.Wanted().account.user, p.call.Wanted().clientOrderId.value)
            case Some(order) => AnswerWith(st.orders, order)
            case None => InsertOrder)
    case InsertOrder =>
      if p.call.Execute? then p.pc
      else if KeyTaken(st.orders, p.call.Wanted()) then FindWinner
      else AfterInsert(|st.orders|, p.call)
    case FindWinner =>
      if p.call.Execute? || p.call.Wanted().clientOrderId.None? then p.pc
      else (match FindByKey(st.orders, p.call.Wanted().account.user, p.call.Wanted().clientOrderId.value)
            case Some(order) => AnswerWith(st.orders, order)
            case None => Thrown(Clean))
    case FindTrade(order) => Returned(order, FindTradeOf(st.trades, order))
    case SaveGateRejection(_) => Thrown(Clean)
    case _ => p.pc
  }

  /** Control after an operation of an execution applied. */
  function AfterExecuting(st: Store, p: Proc): Pc {
    match p.pc
    case ReadOrder(order) => AfterRead(st, p.call, order)
    case ReadAccount(order, intent) =>
      if intent.account in st.accounts then FetchPrice(order, intent) else Thrown(Clean)
    case Debit(run) => if CanDebit(st, run) then WritePosition(run) else ReadBalance(run)
    case ReadBalance(run) => SaveRejection(run)
    case SaveRejection(_) => Thrown(Clean)
    case Credit(run) => if run.intent.account in st.accounts then WritePosition(run) else Thrown(Clean)
    case WritePosition(run) => InsertTrade(run)
    case InsertTrade(run) => SaveExecution(run)
    case Compensate(run) => Thrown(Unwound(run))
    case SaveExecution(run) => Publish(run)
    case Publish(run) => Returned(run.id, p.traded)
    case _ => p.pc
  }

  /** Control after a reply that carries data, or the gate's verdict. */
  function AfterData(p: Proc, reply: Reply): Pc {
    match p.pc
    case FetchPrice(order, intent) =>
      if reply.Quote? then AfterQuote(order, intent, reply.price) else p.pc
    case ReadPosition(run) =>
      if reply.NotHeld? || (reply.Held? && reply.quantity < run.intent.quantity) then SaveRejection(run)
      else if reply.Held? then Credit(run.(averageCost := reply.averageCost))
      else p.pc
    case Gate(order) =>
      if reply.GateBlock? then SaveGateRejection(order)
      else if reply.GatePass? && !p.call.Execute? then AfterGate(order, p.call.Wanted())
      else p.pc
    case _ => p.pc
  }

  function NextPc(st: Store, p: Proc, reply: Reply): Pc {
    if p.pc.Returned? || p.pc.Thrown? then p.pc
    else if reply.Fails? then AfterFailure(p.pc)
    else if reply.Done? then if Placing(p.pc) then AfterPlacing(st, p) else AfterExecuting(st, p)
    else AfterData(p, reply)
  }

  /** Whether this step inserts an order. */
  predicate Inserts(st: Store, p: Proc, reply: Reply) {
    reply.Done? && p.pc.InsertOrder? && !p.call.Execute? && !KeyTaken(st.orders, p.call.Wanted())
  }

  /** Whether this step books a trade. */
  predicate Books(p: Proc, reply: Reply) {
    reply.Done? && p.pc.InsertTrade?
  }

  function NextProc(st: Store, p: Proc, reply: Reply): Proc {
    Proc(p.call, NextPc(st, p, reply),
         if Inserts(st, p, reply) then Some(|st.orders|) else p.created,
         if Books(p, reply) then Some(|st.trades|) else p.traded)
  }

  // ---- What one operation does to the store ----

  function Increment(st: Store, account: AccountId, cash: real, pnl: real): Store {
    if account !in st.accounts then st
    else
      var a := st.accounts[account];
      st.(accounts := st.accounts[account := a.(cash := a.cash + cash, realisedPnl := a.realisedPnl + pnl)])
  }

  function SetStatus(st: Store, order: nat, status: Status, executedPrice: Option<real>): Store {
    if order >= |st.orders| then st
    else st.(orders := st.orders[order := st.orders[order].(status := status, executedPrice := executedPrice)])
  }

  function Reject(st: Store, order: nat): Store {
    if order >= |st.orders| then st
    else SetStatus(st, order, Rejected, st.orders[order].executedPrice)
  }

  function TradeOf(run: Run): Trade {
    Trade(run.id, run.intent.account, run.intent.symbol, run.intent.side, run.intent.quantity,
          run.price, run.RealisedPnl(), 0)
  }

  function NextStore(st: Store, p: Proc, reply: Reply): Store {
    if !reply.Done? then st
    else match p.pc
      case CreateAccount =>
        if p.call.Execute? || p.call.Wanted().account in st.accounts then st
        else st.(accounts := st.accounts[p.call.Wanted().account := OpeningAccount(DEFAULT_CAPITAL)])
      case InsertOrder =>
        if Inserts(st, p, reply) then st.(orders := st.orders + [Order(p.call.Wanted(), Pending, None)]) else st
      case SaveGateRejection(order) => Reject(st, order)
      case Debit(run) =>
        if CanDebit(st, run) then Increment(st, run.intent.account, -run.TotalCost(), 0.0) else st
      case SaveRejection(run) => Reject(st, run.id)
      case Credit(run) => Increment(st, run.intent.account, run.TotalCost(), run.RealisedPnl())
      case InsertTrade(run) => st.(trades := st.trades + [TradeOf(run)])
      case Compensate(run) =>
        Increment(st, run.intent.account,
                  if run.intent.side.Buy? then run.TotalCost() else -run.TotalCost(), -run.RealisedPnl())
      case SaveExecution(run) => SetStatus(st, run.id, Executed, Some(run.price))
      case _ => st
  }

  // ---- Runs of the whole system ----

  function Apply(s: State, event: Event): State {
    match event
    case Begin(call) => s.(procs := s.procs + [Start(call)])
    case Step(i, reply) =>
      if i >= |s.procs| then s
      else State(NextStore(s.store, s.procs[i], reply), s.procs[i := NextProc(s.store, s.procs[i], reply)])
  }

  /** The state after a whole history, in which calls interleave in any way. */
  function After(s: State, events: seq<Event>): State {
    if |events| == 0 then s else Apply(After(s, events[..|events| - 1]), events[|events| - 1])
  }

  /** Accounts as they are opened, nothing else stored, no call begun. */
  predicate Initial(s: State) {
    && s.store.orders == [] && s.store.trades == [] && s.procs == []
    && forall k :: k in s.store.accounts ==> s.store.accounts[k] == OpeningAccount(s.store.accounts[k].initialCapital)
  }
}
