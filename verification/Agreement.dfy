/**
 * The two models of the ledger agree: a call of the small-step system that
 * runs alone does to accounts, orders and trades what the sequential
 * specification says, for every market reply and every failing operation.
 */
module Agreement {
  import opened Wrappers
  import opened Records
  import S = Settlement
  import L = Ledger
  import I = SettlementInvariant
  import R = RiskLimits
  import T = Trading

  /**
   * What answers the call: the book the execution meets, the market, the
   * operation that fails, and, for a placement, its insert and its gate.
   */
  datatype World = World(book: L.Book, ltp: Option<real>, fault: L.Fault, insertFails: bool, verdict: S.Reply)

  function Unless(fails: bool): S.Reply {
    if fails then S.Fails else S.Done
  }

  function PositionReply(b: L.Book, intent: Intent): S.Reply {
    match L.FindPosition(b.positions, intent.account, intent.symbol)
    case None => S.NotHeld
    case Some(i) => S.Held(b.positions[i].quantity, b.positions[i].averageCost)
  }

  function ReplyOf(w: World, pc: S.Pc): S.Reply {
    match pc
    case InsertOrder => Unless(w.insertFails)
    case Gate(_) => w.verdict
    case ReadOrder(_) => Unless(w.fault.AtRead?)
    case FetchPrice(_, _) => if w.ltp.Some? then S.Quote(w.ltp.value) else S.Fails
    case Debit(_) => Unless(w.fault.AtCash?)
    case ReadPosition(run) => if w.fault.AtCash? then S.Fails else PositionReply(w.book, run.intent)
    case SaveRejection(_) => Unless(w.fault.AtRejection?)
    case WritePosition(_) => Unless(w.fault.AtPosition?)
    case InsertTrade(_) => Unless(w.fault.AtTrade?)
    case Compensate(_) => Unless((w.fault.AtPosition? || w.fault.AtTrade?) && !w.fault.restored)
    case SaveExecution(_) => Unless(w.fault.AtSave?)
    case Publish(_) => Unless(w.fault.AtPublish?)
    case _ => S.Done
  }

  function Next(w: World, st: S.Store, p: S.Proc): (S.Store, S.Proc) {
    (S.NextStore(st, p, ReplyOf(w, p.pc)), S.NextProc(st, p, ReplyOf(w, p.pc)))
  }

  function Iterate(w: World, r: (S.Store, S.Proc), n: nat): (S.Store, S.Proc)
    decreases n
  {
    if n == 0 then r else Iterate(w, Next(w, r.0, r.1), n - 1)
  }

  lemma {:induction false} IterateSplit(w: World, r: (S.Store, S.Proc), n: nat, m: nat)
    ensures Iterate(w, r, n + m) == Iterate(w, Iterate(w, r, n), m)
    decreases n
  {
    if n > 0 {
      IterateSplit(w, Next(w, r.0, r.1), n - 1, m);
    }
  }

  /** `n` steps of one call with nothing in between. */
  function Solo(w: World, st: S.Store, p: S.Proc, n: nat): (S.Store, S.Proc) {
    Iterate(w, (st, p), n)
  }

  lemma OneStep(w: World, st: S.Store, p: S.Proc)
    ensures Solo(w, st, p, 1) == Next(w, st, p)
  {
  }

  lemma SoloSplit(w: World, st: S.Store, p: S.Proc, n: nat, m: nat)
    ensures Solo(w, st, p, n + m) == Solo(w, Solo(w, st, p, n).0, Solo(w, st, p, n).1, m)
  {
    IterateSplit(w, (st, p), n, m);
  }

  /** Running alone is one of the histories of the whole system. */
  lemma {:induction false} SoloIsAHistory(start: S.State, events: seq<S.Event>, s: S.State, w: World, i: nat, n: nat)
    returns (events': seq<S.Event>)
    requires S.After(start, events) == s && i < |s.procs|
    ensures var r := Solo(w, s.store, s.procs[i], n); S.After(start, events') == S.State(r.0, s.procs[i := r.1])
    decreases n
  {
    if n == 0 {
      events' := events;
      assert s.procs[i := s.procs[i]] == s.procs;
    } else {
      var event := S.Step(i, ReplyOf(w, s.procs[i].pc));
      assert (events + [event])[..|events|] == events;
      var s' := S.Apply(s, event);
      events' := SoloIsAHistory(start, events + [event], s', w, i, n - 1);
    }
  }

  // ---- The same books ----

  /** The small-step system does not record when a trade was executed. */
  function Undated(trades: seq<Trade>): seq<Trade> {
    seq(|trades|, i requires 0 <= i < |trades| => trades[i].(executedAt := 0))
  }

  /** Same accounts, orders and trades; the positions are the book's own. */
  ghost predicate Corresponds(st: S.Store, b: L.Book) {
    && st.accounts == b.accounts
    && |st.orders| == b.nextOrder
    && (forall id: nat :: id in b.orders <==> id < |st.orders|)
    && (forall id: nat :: id < |st.orders| ==> st.orders[id] == b.orders[id])
    && st.trades == Undated(b.trades)
  }

  lemma SetOrderCorresponds(st: S.Store, b: L.Book, id: nat, status: Status, price: Option<real>)
    requires Corresponds(st, b) && id in b.orders
    ensures Corresponds(S.SetStatus(st, id, status, price), L.SetOrder(b, id, status, price))
  {
  }

  lemma TradeCorresponds(st: S.Store, b: L.Book, trade: Trade)
    requires Corresponds(st, b)
    ensures Corresponds(st.(trades := st.trades + [trade.(executedAt := 0)]), b.(trades := b.trades + [trade]))
  {
  }

  /** The call came to the end the specification names. */
  ghost predicate EndsAs(r: (S.Store, S.Proc), b: L.Book, outcome: L.Outcome) {
    && Corresponds(r.0, b)
    && match outcome
       case Filled(id, trade) =>
         && r.1.pc.Returned? && r.1.pc.order == id && r.1.pc.trade.Some?
         && r.1.pc.trade.value == |b.trades| - 1 && b.trades[|b.trades| - 1] == trade
       case Threw(_) => r.1.pc.Thrown?
       case Resting(id) => r.1.pc == S.Returned(id, None)
       case Repeated(id) =>
         && r.1.pc.Returned? && r.1.pc.order == id && id < |r.0.orders|
         && r.1.pc.trade == if r.0.orders[id].status.Executed? then S.FindTradeOf(r.0.trades, id) else None
  }

  // ---- The checks ----

  /** The order is there, the requester's, PENDING, of an existing account, and priced within its limit. */
  predicate Priced(w: World, id: nat, requester: Option<string>) {
    && !w.fault.AtRead? && id in w.book.orders
    && (requester.Some? ==> w.book.orders[id].intent.account.user == requester.value)
    && w.book.orders[id].status.Pending? && w.book.orders[id].intent.account in w.book.accounts
    && w.ltp.Some? && LimitMet(w.book.orders[id].intent, w.ltp.value)
  }

  function FirstRun(w: World, id: nat): S.Run
    requires id in w.book.orders && w.ltp.Some?
  {
    S.Run(id, w.book.orders[id].intent, w.ltp.value, 0.0)
  }

  /** Reading the order, its account unless the caller passed one along, and the price. */
  lemma ChecksAlone(w: World, st: S.Store, p: S.Proc, id: nat, requester: Option<string>) returns (n: nat)
    requires L.WellFormed(w.book) && Corresponds(st, w.book) && p.pc == S.ReadOrder(id)
    requires requester == if p.call.Execute? then p.call.requester else None
    ensures n <= 3 && Solo(w, st, p, n) ==
      (st, p.(pc := if !Priced(w, id, requester) then S.Thrown(S.Clean)
                    else if w.book.orders[id].intent.side.Buy? then S.Debit(FirstRun(w, id))
                    else S.ReadPosition(FirstRun(w, id))))
  {
    OneStep(w, st, p);
    var p1 := Solo(w, st, p, 1).1;
    n := 1;
    if p1.pc.ReadAccount? {
      OneStep(w, st, p1);
      SoloSplit(w, st, p, 1, 1);
      n := 2;
    }
    var p2 := Solo(w, st, p, n).1;
    if p2.pc.FetchPrice? {
      assert p2 == p.(pc := S.FetchPrice(id, w.book.orders[id].intent));
      OneStep(w, st, p2);
      SoloSplit(w, st, p, n, 1);
      n := n + 1;
    }
  }

  lemma UnpricedIsRefused(w: World, id: nat, requester: Option<string>, at: int)
    requires L.WellFormed(w.book) && !Priced(w, id, requester)
    ensures L.Execute(w.book, id, requester, w.ltp, at, w.fault).0 == w.book
    ensures L.Execute(w.book, id, requester, w.ltp, at, w.fault).1.Threw?
  {
  }

  // ---- Paying ----

  /** The store once the order is rejected, or as it was when saving the rejection fails. */
  lemma RejectedAlone(w: World, st: S.Store, p: S.Proc, run: S.Run)
    requires Corresponds(st, w.book) && p.pc == S.SaveRejection(run) && run.id in w.book.orders
    ensures var r := Solo(w, st, p, 1);
            && r.1.pc == S.Thrown(S.Clean)
            && Corresponds(r.0, if w.fault.AtRejection? then w.book
                                else L.SetOrder(w.book, run.id, Rejected, w.book.orders[run.id].executedPrice))
  {
    OneStep(w, st, p);
    SetOrderCorresponds(st, w.book, run.id, Rejected, w.book.orders[run.id].executedPrice);
  }

  lemma UncoveredIsRejected(w: World, id: nat, requester: Option<string>, at: int)
    requires L.WellFormed(w.book) && Priced(w, id, requester) && !w.fault.AtCash?
    requires !L.Covered(w.book, w.book.orders[id].intent, w.ltp.value)
    ensures L.Execute(w.book, id, requester, w.ltp, at, w.fault).1.Threw?
    ensures L.Execute(w.book, id, requester, w.ltp, at, w.fault).0 ==
            if w.fault.AtRejection? then w.book
            else L.SetOrder(w.book, id, Rejected, w.book.orders[id].executedPrice)
  {
  }

  /** What the execution carries once its cash has moved. */
  function PaidRun(w: World, id: nat): S.Run
    requires id in w.book.orders && w.ltp.Some?
  {
    FirstRun(w, id).(averageCost := L.SoldAt(w.book, w.book.orders[id].intent))
  }

  lemma PaidRunTotals(w: World, id: nat)
    requires id in w.book.orders && w.ltp.Some?
    ensures PaidRun(w, id).TotalCost() == w.ltp.value * w.book.orders[id].intent.quantity
    ensures PaidRun(w, id).RealisedPnl() == L.SalePnl(w.book, w.book.orders[id].intent, w.ltp.value)
  {
  }

  lemma BuyPays(w: World, st: S.Store, p: S.Proc, id: nat)
    requires Corresponds(st, w.book) && id in w.book.orders && w.ltp.Some? && !w.fault.AtCash?
    requires w.book.orders[id].intent.side.Buy? && p.pc == S.Debit(FirstRun(w, id))
    requires w.book.orders[id].intent.account in w.book.accounts && L.Covered(w.book, w.book.orders[id].intent, w.ltp.value)
    ensures var r := Solo(w, st, p, 1);
            && r.1 == p.(pc := S.WritePosition(PaidRun(w, id)))
            && Corresponds(r.0, L.MoveCash(w.book, w.book.orders[id].intent, w.ltp.value))
  {
    var intent := w.book.orders[id].intent;
    OneStep(w, st, p);
    assert FirstRun(w, id).TotalCost() == w.ltp.value * intent.quantity;
    IncrementIsMoveCash(w.book, st, intent, w.ltp.value, -FirstRun(w, id).TotalCost(), 0.0);
  }

  lemma IncrementIsMoveCash(b: L.Book, st: S.Store, intent: Intent, price: real, cash: real, pnl: real)
    requires Corresponds(st, b) && intent.account in b.accounts && pnl == L.SalePnl(b, intent, price)
    requires cash == if intent.side.Buy? then -(price * intent.quantity) else price * intent.quantity
    ensures Corresponds(S.Increment(st, intent.account, cash, pnl), L.MoveCash(b, intent, price))
  {
    var a, a' := S.Increment(st, intent.account, cash, pnl).accounts[intent.account],
                 L.MoveCash(b, intent, price).accounts[intent.account];
    assert a.cash == a'.cash && a.realisedPnl == a'.realisedPnl && a == a';
  }

  lemma SellPays(w: World, st: S.Store, p: S.Proc, id: nat)
    requires Corresponds(st, w.book) && id in w.book.orders && w.ltp.Some? && !w.fault.AtCash?
    requires w.book.orders[id].intent.side.Sell? && p.pc == S.ReadPosition(FirstRun(w, id))
    requires w.book.orders[id].intent.account in w.book.accounts && L.Covered(w.book, w.book.orders[id].intent, w.ltp.value)
    ensures var r := Solo(w, st, p, 2);
            && r.1 == p.(pc := S.WritePosition(PaidRun(w, id)))
            && Corresponds(r.0, L.MoveCash(w.book, w.book.orders[id].intent, w.ltp.value))
  {
    var intent := w.book.orders[id].intent;
    var p1 := p.(pc := S.Credit(PaidRun(w, id)));
    OneStep(w, st, p);
    assert Solo(w, st, p, 1) == (st, p1);
    OneStep(w, st, p1);
    SoloSplit(w, st, p, 1, 1);
    PaidRunTotals(w, id);
    IncrementIsMoveCash(w.book, st, intent, w.ltp.value, PaidRun(w, id).TotalCost(), PaidRun(w, id).RealisedPnl());
  }

  lemma BuyIsRejected(w: World, st: S.Store, p: S.Proc, id: nat)
    requires Corresponds(st, w.book) && id in w.book.orders && w.ltp.Some? && !w.fault.AtCash?
    requires w.book.orders[id].intent.side.Buy? && p.pc == S.Debit(FirstRun(w, id))
    requires w.book.orders[id].intent.account in w.book.accounts && !L.Covered(w.book, w.book.orders[id].intent, w.ltp.value)
    ensures var r := Solo(w, st, p, 2); r == (st, p.(pc := S.SaveRejection(FirstRun(w, id))))
  {
    assert FirstRun(w, id).TotalCost() == w.ltp.value * w.book.orders[id].intent.quantity;
    var p1 := p.(pc := S.ReadBalance(FirstRun(w, id)));
    OneStep(w, st, p);
    assert Solo(w, st, p, 1) == (st, p1);
    OneStep(w, st, p1);
    SoloSplit(w, st, p, 1, 1);
  }

  lemma SellIsRejected(w: World, st: S.Store, p: S.Proc, id: nat)
    requires Corresponds(st, w.book) && id in w.book.orders && w.ltp.Some? && !w.fault.AtCash?
    requires w.book.orders[id].intent.side.Sell? && p.pc == S.ReadPosition(FirstRun(w, id))
    requires w.book.orders[id].intent.account in w.book.accounts && !L.Covered(w.book, w.book.orders[id].intent, w.ltp.value)
    ensures Solo(w, st, p, 1) == (st, p.(pc := S.SaveRejection(FirstRun(w, id))))
  {
    OneStep(w, st, p);
  }

  // ---- Position, trade, status ----

  /** The book between the cash movement and the trade, whatever the position write does. */
  lemma RestoringUndoes(b: L.Book, st: S.Store, intent: Intent, price: real, run: S.Run)
    requires intent.account in b.accounts && Corresponds(st, L.MoveCash(b, intent, price))
    requires run.intent == intent && run.TotalCost() == price * intent.quantity && run.RealisedPnl() == L.SalePnl(b, intent, price)
    ensures Corresponds(S.Increment(st, intent.account, if intent.side.Buy? then run.TotalCost() else -run.TotalCost(),
                                    -run.RealisedPnl()), b)
  {
    var a := S.Increment(st, intent.account, if intent.side.Buy? then run.TotalCost() else -run.TotalCost(),
                         -run.RealisedPnl()).accounts[intent.account];
    assert a.cash == b.accounts[intent.account].cash && a.realisedPnl == b.accounts[intent.account].realisedPnl;
    assert a == b.accounts[intent.account];
  }

  /** From the failing write to the end of its compensation. */
  lemma FailsAndCompensates(w: World, st: S.Store, p: S.Proc, id: nat)
    requires id in w.book.orders && w.ltp.Some? && w.book.orders[id].intent.account in w.book.accounts
    requires Corresponds(st, L.MoveCash(w.book, w.book.orders[id].intent, w.ltp.value))
    requires (w.fault.AtPosition? && p.pc == S.WritePosition(PaidRun(w, id)))
             || (w.fault.AtTrade? && p.pc == S.InsertTrade(PaidRun(w, id)))
    ensures var r := Solo(w, st, p, 2);
            && r.1.pc.Thrown?
            && Corresponds(r.0, if w.fault.restored then w.book else L.MoveCash(w.book, w.book.orders[id].intent, w.ltp.value))
  {
    var p1 := p.(pc := S.Compensate(PaidRun(w, id)));
    OneStep(w, st, p);
    assert Solo(w, st, p, 1) == (st, p1);
    OneStep(w, st, p1);
    SoloSplit(w, st, p, 1, 1);
    PaidRunTotals(w, id);
    RestoringUndoes(w.book, st, w.book.orders[id].intent, w.ltp.value, PaidRun(w, id));
  }

  lemma WritesPosition(w: World, st: S.Store, p: S.Proc, id: nat)
    requires id in w.book.orders && w.ltp.Some? && !w.fault.AtPosition? && p.pc == S.WritePosition(PaidRun(w, id))
    ensures Solo(w, st, p, 1) == (st, p.(pc := S.InsertTrade(PaidRun(w, id))))
  {
    OneStep(w, st, p);
  }

  lemma BooksTrade(w: World, st: S.Store, p: S.Proc, id: nat, b: L.Book, at: int)
    requires id in w.book.orders && w.ltp.Some? && !w.fault.AtTrade? && p.pc == S.InsertTrade(PaidRun(w, id))
    requires Corresponds(st, b)
    ensures var r := Solo(w, st, p, 1);
            && r.1 == p.(pc := S.SaveExecution(PaidRun(w, id)), traded := Some(|b.trades|))
            && Corresponds(r.0, b.(trades := b.trades + [L.BookedTrade(w.book, id, w.book.orders[id].intent, w.ltp.value, at)]))
  {
    var trade := L.BookedTrade(w.book, id, w.book.orders[id].intent, w.ltp.value, at);
    OneStep(w, st, p);
    PaidRunTotals(w, id);
    assert S.TradeOf(PaidRun(w, id)) == trade.(executedAt := 0);
    TradeCorresponds(st, b, trade);
  }

  lemma SavesAndPublishes(w: World, st: S.Store, p: S.Proc, id: nat, b: L.Book)
    requires id in w.book.orders && id in b.orders && w.ltp.Some? && p.pc == S.SaveExecution(PaidRun(w, id))
    requires Corresponds(st, b)
    ensures var r := Solo(w, st, p, 2);
            && Corresponds(r.0, if w.fault.AtSave? then b else L.SetOrder(b, id, Executed, Some(w.ltp.value)))
            && if w.fault.AtSave? || w.fault.AtPublish? then r.1.pc.Thrown? else r.1.pc == S.Returned(id, p.traded)
  {
    OneStep(w, st, p);
    var (st1, p1) := Solo(w, st, p, 1);
    SetOrderCorresponds(st, b, id, Executed, Some(w.ltp.value));
    OneStep(w, st1, p1);
    SoloSplit(w, st, p, 1, 1);
    assert Solo(w, st1, p1, 1).0 == st1;
  }

  // ---- The whole execution ----

  lemma Prefixed(w: World, st: S.Store, p: S.Proc, k: nat, m: nat, b: L.Book, outcome: L.Outcome) returns (n: nat)
    requires EndsAs(Solo(w, Solo(w, st, p, k).0, Solo(w, st, p, k).1, m), b, outcome)
    ensures n == k + m && EndsAs(Solo(w, st, p, n), b, outcome)
  {
    n := k + m;
    SoloSplit(w, st, p, k, m);
  }

  /** The specification's answer to this world. */
  function Specified(w: World, id: nat, requester: Option<string>, at: int): (L.Book, L.Outcome)
    requires L.WellFormed(w.book)
  {
    L.Execute(w.book, id, requester, w.ltp, at, w.fault)
  }

  ghost predicate Pays(w: World, id: nat, requester: Option<string>) {
    L.WellFormed(w.book) && Priced(w, id, requester) && !w.fault.AtCash? && L.Covered(w.book, w.book.orders[id].intent, w.ltp.value)
  }

  lemma PaysIsFill(w: World, id: nat, requester: Option<string>, at: int)
    requires Pays(w, id, requester)
    ensures L.Fills(w.book, id, requester, w.ltp, w.fault)
    ensures Specified(w, id, requester, at).0 == L.AfterFill(w.book, id, w.ltp.value, at, w.fault)
    ensures Specified(w, id, requester, at).1 ==
            if w.fault.NoFault? || w.fault.AtRejection?
            then L.Filled(id, L.BookedTrade(w.book, id, w.book.orders[id].intent, w.ltp.value, at))
            else L.Threw(L.OperationFailed)
  {
  }

  /** Positions are not compared. */
  lemma PositionsAside(st: S.Store, b: L.Book, b': L.Book)
    requires Corresponds(st, b) && b' == b.(positions := b'.positions)
    ensures Corresponds(st, b')
  {
  }

  lemma PositionFailsAlone(w: World, st: S.Store, p: S.Proc, id: nat, requester: Option<string>, at: int)
    requires Pays(w, id, requester) && w.fault.AtPosition?
    requires Corresponds(st, L.MoveCash(w.book, w.book.orders[id].intent, w.ltp.value)) && p.pc == S.WritePosition(PaidRun(w, id))
    ensures EndsAs(Solo(w, st, p, 2), Specified(w, id, requester, at).0, Specified(w, id, requester, at).1)
  {
    PaysIsFill(w, id, requester, at);
    FailsAndCompensates(w, st, p, id);
  }

  lemma TradeFailsAlone(w: World, st: S.Store, p: S.Proc, id: nat, requester: Option<string>, at: int)
    requires Pays(w, id, requester) && w.fault.AtTrade?
    requires Corresponds(st, L.MoveCash(w.book, w.book.orders[id].intent, w.ltp.value)) && p.pc == S.InsertTrade(PaidRun(w, id))
    ensures EndsAs(Solo(w, st, p, 2), Specified(w, id, requester, at).0, Specified(w, id, requester, at).1)
  {
    PaysIsFill(w, id, requester, at);
    FailsAndCompensates(w, st, p, id);
    PositionsAside(Solo(w, st, p, 2).0,
                   if w.fault.restored then w.book else L.MoveCash(w.book, w.book.orders[id].intent, w.ltp.value),
                   Specified(w, id, requester, at).0);
  }

  lemma UnwindsAlone(w: World, st: S.Store, p: S.Proc, id: nat, requester: Option<string>, at: int) returns (n: nat)
    requires Pays(w, id, requester) && (w.fault.AtPosition? || w.fault.AtTrade?)
    requires Corresponds(st, L.MoveCash(w.book, w.book.orders[id].intent, w.ltp.value)) && p.pc == S.WritePosition(PaidRun(w, id))
    ensures n <= 3 && EndsAs(Solo(w, st, p, n), Specified(w, id, requester, at).0, Specified(w, id, requester, at).1)
  {
    if w.fault.AtPosition? {
      PositionFailsAlone(w, st, p, id, requester, at);
      n := 2;
    } else {
      WritesPosition(w, st, p, id);
      TradeFailsAlone(w, st, Solo(w, st, p, 1).1, id, requester, at);
      n := Prefixed(w, st, p, 1, 2, Specified(w, id, requester, at).0, Specified(w, id, requester, at).1);
    }
  }

  lemma BooksAlone(w: World, st: S.Store, p: S.Proc, id: nat, requester: Option<string>, at: int) returns (n: nat)
    requires Pays(w, id, requester) && !w.fault.AtPosition? && !w.fault.AtTrade?
    requires Corresponds(st, L.MoveCash(w.book, w.book.orders[id].intent, w.ltp.value)) && p.pc == S.WritePosition(PaidRun(w, id))
    ensures n <= 4 && EndsAs(Solo(w, st, p, n), Specified(w, id, requester, at).0, Specified(w, id, requester, at).1)
  {
    var after := Specified(w, id, requester, at);
    var intent := w.book.orders[id].intent;
    var paid := L.MoveCash(w.book, intent, w.ltp.value);
    var written := paid.(positions := L.WritePosition(w.book.positions, intent, w.ltp.value));
    var booked := written.(trades := w.book.trades + [L.BookedTrade(w.book, id, intent, w.ltp.value, at)]);
    PaysIsFill(w, id, requester, at);
    WritesPosition(w, st, p, id);
    var p1 := Solo(w, st, p, 1).1;
    PositionsAside(st, paid, written);
    BooksTrade(w, st, p1, id, written, at);
    var (st2, p2) := Solo(w, st, p1, 1);
    SavesAndPublishes(w, st2, p2, id, booked);
    n := Prefixed(w, st, p1, 1, 2, after.0, after.1);
    n := Prefixed(w, st, p, 1, n, after.0, after.1);
  }

  lemma FillsAlone(w: World, st: S.Store, p: S.Proc, id: nat, requester: Option<string>, at: int) returns (n: nat)
    requires Pays(w, id, requester)
    requires Corresponds(st, L.MoveCash(w.book, w.book.orders[id].intent, w.ltp.value)) && p.pc == S.WritePosition(PaidRun(w, id))
    ensures n <= 4 && EndsAs(Solo(w, st, p, n), Specified(w, id, requester, at).0, Specified(w, id, requester, at).1)
  {
    if w.fault.AtPosition? || w.fault.AtTrade? {
      n := UnwindsAlone(w, st, p, id, requester, at);
    } else {
      n := BooksAlone(w, st, p, id, requester, at);
    }
  }

  lemma BuyPaysAlone(w: World, st: S.Store, p: S.Proc, id: nat, requester: Option<string>, at: int) returns (n: nat)
    requires Pays(w, id, requester) && Corresponds(st, w.book)
    requires w.book.orders[id].intent.side.Buy? && p.pc == S.Debit(FirstRun(w, id))
    ensures n <= 6 && EndsAs(Solo(w, st, p, n), Specified(w, id, requester, at).0, Specified(w, id, requester, at).1)
  {
    BuyPays(w, st, p, id);
    n := FillsAlone(w, Solo(w, st, p, 1).0, Solo(w, st, p, 1).1, id, requester, at);
    n := Prefixed(w, st, p, 1, n, Specified(w, id, requester, at).0, Specified(w, id, requester, at).1);
  }

  lemma SellPaysAlone(w: World, st: S.Store, p: S.Proc, id: nat, requester: Option<string>, at: int) returns (n: nat)
    requires Pays(w, id, requester) && Corresponds(st, w.book)
    requires w.book.orders[id].intent.side.Sell? && p.pc == S.ReadPosition(FirstRun(w, id))
    ensures n <= 6 && EndsAs(Solo(w, st, p, n), Specified(w, id, requester, at).0, Specified(w, id, requester, at).1)
  {
    SellPays(w, st, p, id);
    n := FillsAlone(w, Solo(w, st, p, 2).0, Solo(w, st, p, 2).1, id, requester, at);
    n := Prefixed(w, st, p, 2, n, Specified(w, id, requester, at).0, Specified(w, id, requester, at).1);
  }

  lemma SavingRejectionAlone(w: World, st: S.Store, p: S.Proc, id: nat, requester: Option<string>, at: int)
    requires L.WellFormed(w.book) && Priced(w, id, requester) && !w.fault.AtCash? && Corresponds(st, w.book)
    requires !L.Covered(w.book, w.book.orders[id].intent, w.ltp.value) && p.pc == S.SaveRejection(FirstRun(w, id))
    ensures EndsAs(Solo(w, st, p, 1), Specified(w, id, requester, at).0, Specified(w, id, requester, at).1)
  {
    UncoveredIsRejected(w, id, requester, at);
    RejectedAlone(w, st, p, FirstRun(w, id));
  }

  lemma RejectsAlone(w: World, st: S.Store, p: S.Proc, id: nat, requester: Option<string>, at: int) returns (n: nat)
    requires L.WellFormed(w.book) && Priced(w, id, requester) && !w.fault.AtCash? && Corresponds(st, w.book)
    requires !L.Covered(w.book, w.book.orders[id].intent, w.ltp.value)
    requires p.pc == if w.book.orders[id].intent.side.Buy? then S.Debit(FirstRun(w, id)) else S.ReadPosition(FirstRun(w, id))
    ensures n <= 3 && EndsAs(Solo(w, st, p, n), Specified(w, id, requester, at).0, Specified(w, id, requester, at).1)
  {
    var (b, outcome) := Specified(w, id, requester, at);
    SavingRejectionAlone(w, st, p.(pc := S.SaveRejection(FirstRun(w, id))), id, requester, at);
    if w.book.orders[id].intent.side.Buy? {
      BuyIsRejected(w, st, p, id);
      n := Prefixed(w, st, p, 2, 1, b, outcome);
    } else {
      SellIsRejected(w, st, p, id);
      n := Prefixed(w, st, p, 1, 1, b, outcome);
    }
  }

  lemma CashFailsAlone(w: World, st: S.Store, p: S.Proc, id: nat, requester: Option<string>, at: int)
    requires L.WellFormed(w.book) && Priced(w, id, requester) && w.fault.AtCash? && Corresponds(st, w.book)
    requires p.pc == if w.book.orders[id].intent.side.Buy? then S.Debit(FirstRun(w, id)) else S.ReadPosition(FirstRun(w, id))
    ensures EndsAs(Solo(w, st, p, 1), Specified(w, id, requester, at).0, Specified(w, id, requester, at).1)
  {
    OneStep(w, st, p);
  }

  /** From the debit or the position read on. */
  lemma PricedAlone(w: World, st: S.Store, p: S.Proc, id: nat, requester: Option<string>, at: int) returns (n: nat)
    requires L.WellFormed(w.book) && Priced(w, id, requester) && Corresponds(st, w.book)
    requires p.pc == if w.book.orders[id].intent.side.Buy? then S.Debit(FirstRun(w, id)) else S.ReadPosition(FirstRun(w, id))
    ensures n <= 6 && EndsAs(Solo(w, st, p, n), Specified(w, id, requester, at).0, Specified(w, id, requester, at).1)
  {
    if w.fault.AtCash? {
      CashFailsAlone(w, st, p, id, requester, at);
      n := 1;
    } else if !L.Covered(w.book, w.book.orders[id].intent, w.ltp.value) {
      n := RejectsAlone(w, st, p, id, requester, at);
    } else if w.book.orders[id].intent.side.Buy? {
      n := BuyPaysAlone(w, st, p, id, requester, at);
    } else {
      n := SellPaysAlone(w, st, p, id, requester, at);
    }
  }

  lemma ExecutesAlone(w: World, st: S.Store, p: S.Proc, id: nat, requester: Option<string>, at: int) returns (n: nat)
    requires L.WellFormed(w.book) && Corresponds(st, w.book) && p.pc == S.ReadOrder(id)
    requires requester == if p.call.Execute? then p.call.requester else None
    ensures n <= 9 && EndsAs(Solo(w, st, p, n), Specified(w, id, requester, at).0, Specified(w, id, requester, at).1)
  {
    var k := ChecksAlone(w, st, p, id, requester);
    if Priced(w, id, requester) {
      n := PricedAlone(w, st, Solo(w, st, p, k).1, id, requester, at);
      n := Prefixed(w, st, p, k, n, Specified(w, id, requester, at).0, Specified(w, id, requester, at).1);
    } else {
      UnpricedIsRefused(w, id, requester, at);
      n := k;
    }
  }

  /**
   * An execution that runs alone ends within nine steps exactly as the
   * sequential specification says: the same accounts, orders and trades, and a
   * fill returned or an error thrown, whatever the market answers and whichever
   * operation fails.
   */
  lemma ExecutionAlone(w: World, st: S.Store, id: nat, requester: Option<string>, at: int) returns (n: nat)
    requires L.WellFormed(w.book) && Corresponds(st, w.book)
    ensures n <= 9
    ensures EndsAs(Solo(w, st, S.Start(S.Execute(id, requester)), n),
                   L.Execute(w.book, id, requester, w.ltp, at, w.fault).0,
                   L.Execute(w.book, id, requester, w.ltp, at, w.fault).1)
  {
    n := ExecutesAlone(w, st, S.Start(S.Execute(id, requester)), id, requester, at);
  }

  // ---- Flattening a position ----

  lemma InsertCorresponds(st: S.Store, b: L.Book, intent: Intent)
    requires Corresponds(st, b)
    ensures Corresponds(st.(orders := st.orders + [Order(intent, Pending, None)]), T.InsertOrder(b, intent))
  {
  }

  function FlattenWorld(b: L.Book, pos: L.Position, env: T.FlattenEnv): World {
    World(T.InsertOrder(b, T.FlattenIntent(pos)), env.ltp, env.fault, env.insertFails, S.Done)
  }

  /** One position of the square-off, run alone, does what the sequential flatten does. */
  lemma FlattenAlone(b: L.Book, st: S.Store, pos: L.Position, env: T.FlattenEnv) returns (n: nat)
    requires L.WellFormed(b) && Corresponds(st, b) && pos.quantity > 0.0 && pos.account in b.accounts
    ensures n <= 10
    ensures EndsAs(Solo(FlattenWorld(b, pos, env), st, S.Start(S.Flatten(pos.account, pos.symbol, pos.quantity)), n),
                   T.FlattenOne(b, pos, env).0, T.FlattenOne(b, pos, env).1)
  {
    var w, p := FlattenWorld(b, pos, env), S.Start(S.Flatten(pos.account, pos.symbol, pos.quantity));
    OneStep(w, st, p);
    if env.insertFails {
      n := 1;
    } else {
      InsertCorresponds(st, b, T.FlattenIntent(pos));
      T.InsertKeepsWellFormed(b, T.FlattenIntent(pos));
      var (st1, p1) := Solo(w, st, p, 1);
      n := ExecutesAlone(w, st1, p1, b.nextOrder, None, env.at);
      n := Prefixed(w, st, p, 1, n, T.FlattenOne(b, pos, env).0, T.FlattenOne(b, pos, env).1);
    }
  }

  // ---- Placing an order ----

  function Ensured(b: L.Book, intent: Intent): L.Book {
    L.Ensure(b, intent.account, DEFAULT_CAPITAL)
  }

  function PlaceWorld(b: L.Book, intent: Intent, env: T.PlaceEnv): World {
    var inserted := T.InsertOrder(Ensured(b, intent), intent);
    World(inserted, env.fillLtp, env.fault, env.insertFails,
          if env.gateFails then S.Fails
          else if R.Gate(inserted, intent, env.gateLtp, env.now).None? then S.GatePass else S.GateBlock)
  }

  lemma EnsuresAlone(w: World, st: S.Store, b: L.Book, p: S.Proc) returns (n: nat)
    requires Corresponds(st, b) && p.pc.FindAccount? && p.call.Place?
    ensures n <= 2 && Solo(w, st, p, n).1 == p.(pc := S.AfterEnsure(p.call.intent))
    ensures Solo(w, st, p, n).0.orders == st.orders && Corresponds(Solo(w, st, p, n).0, Ensured(b, p.call.intent))
  {
    OneStep(w, st, p);
    n := 1;
    if p.call.intent.account !in st.accounts {
      var p1 := p.(pc := S.CreateAccount);
      assert Solo(w, st, p, 1) == (st, p1);
      OneStep(w, st, p1);
      SoloSplit(w, st, p, 1, 1);
      n := 2;
    }
  }

  /** Both models find the same order under a key. */
  lemma SameOwner(st: S.Store, b: L.Book, user: string, key: string)
    requires Corresponds(st, b) && I.KeysUnique(st.orders)
    ensures S.FindByKey(st.orders, user, key) == T.KeyOwner(b.orders, user, key, b.nextOrder)
  {
    var i, j := S.FindByKey(st.orders, user, key), T.KeyOwner(b.orders, user, key, b.nextOrder);
    if i.Some? {
      assert HasKey(b.orders[i.value], user, key);
      assert I.SameKey(st.orders[i.value].intent, st.orders[j.value].intent);
    }
  }

  /** The order a placement repeats, if any. */
  function Owner(b: L.Book, intent: Intent): Option<nat> {
    if intent.clientOrderId.None? then None
    else T.KeyOwner(b.orders, intent.account.user, intent.clientOrderId.value, b.nextOrder)
  }

  lemma AnswersAlone(w: World, st: S.Store, b: L.Book, p: S.Proc, id: nat) returns (n: nat)
    requires Corresponds(st, b) && I.KeysUnique(st.orders) && p.call.Place? && p.pc.FindExisting?
    requires p.call.intent.clientOrderId.Some? && Owner(b, p.call.intent) == Some(id)
    ensures n <= 2 && EndsAs(Solo(w, st, p, n), b, L.Repeated(id))
  {
    SameOwner(st, b, p.call.intent.account.user, p.call.intent.clientOrderId.value);
    OneStep(w, st, p);
    n := 1;
    if st.orders[id].status.Executed? {
      var p1 := p.(pc := S.FindTrade(id));
      assert Solo(w, st, p, 1) == (st, p1);
      OneStep(w, st, p1);
      SoloSplit(w, st, p, 1, 1);
      n := 2;
    }
  }

  lemma NotRepeatedAlone(w: World, st: S.Store, b: L.Book, p: S.Proc) returns (n: nat)
    requires Corresponds(st, b) && I.KeysUnique(st.orders) && p.call.Place?
    requires p.pc == S.AfterEnsure(p.call.intent) && Owner(b, p.call.intent).None?
    ensures n <= 1 && Solo(w, st, p, n) == (st, p.(pc := S.InsertOrder)) && !S.KeyTaken(st.orders, p.call.intent)
  {
    n := 0;
    if p.call.intent.clientOrderId.Some? {
      SameOwner(st, b, p.call.intent.account.user, p.call.intent.clientOrderId.value);
      OneStep(w, st, p);
      n := 1;
    }
  }

  /** The specification once the order is inserted. */
  function Inserted(b: L.Book, intent: Intent, env: T.PlaceEnv): (L.Book, L.Outcome)
    requires L.WellFormed(b) && intent.quantity > 0.0
  {
    T.EnsureKeepsWellFormed(b, intent.account, DEFAULT_CAPITAL);
    T.InsertKeepsWellFormed(Ensured(b, intent), intent);
    T.AfterInsert(T.InsertOrder(Ensured(b, intent), intent), Ensured(b, intent).nextOrder, env)
  }

  lemma PastGateAlone(b: L.Book, st: S.Store, p: S.Proc, intent: Intent, env: T.PlaceEnv) returns (n: nat)
    requires L.WellFormed(b) && intent.quantity > 0.0 && Corresponds(st, PlaceWorld(b, intent, env).book)
    requires p.call == S.Place(intent) && p.pc == S.AfterGate(Ensured(b, intent).nextOrder, intent)
    requires intent.side.Buy? ==> PlaceWorld(b, intent, env).verdict == S.GatePass
    ensures n <= 9 && EndsAs(Solo(PlaceWorld(b, intent, env), st, p, n), Inserted(b, intent, env).0, Inserted(b, intent, env).1)
  {
    T.EnsureKeepsWellFormed(b, intent.account, DEFAULT_CAPITAL);
    T.InsertKeepsWellFormed(Ensured(b, intent), intent);
    if intent.kind.Market? {
      n := ExecutesAlone(PlaceWorld(b, intent, env), st, p, Ensured(b, intent).nextOrder, None, env.at);
    } else {
      n := 0;
    }
  }

  lemma GateRefusesAlone(b: L.Book, st: S.Store, p: S.Proc, intent: Intent, env: T.PlaceEnv) returns (n: nat)
    requires L.WellFormed(b) && intent.quantity > 0.0 && Corresponds(st, PlaceWorld(b, intent, env).book)
    requires p.call == S.Place(intent) && p.pc == S.Gate(Ensured(b, intent).nextOrder)
    requires intent.side.Buy? && PlaceWorld(b, intent, env).verdict != S.GatePass
    ensures n <= 2 && EndsAs(Solo(PlaceWorld(b, intent, env), st, p, n), Inserted(b, intent, env).0, Inserted(b, intent, env).1)
  {
    var w, id := PlaceWorld(b, intent, env), Ensured(b, intent).nextOrder;
    OneStep(w, st, p);
    n := 1;
    if !env.gateFails {
      var p1 := p.(pc := S.SaveGateRejection(id));
      assert Solo(w, st, p, 1) == (st, p1);
      OneStep(w, st, p1);
      SoloSplit(w, st, p, 1, 1);
      SetOrderCorresponds(st, w.book, id, Rejected, None);
      n := 2;
    }
  }

  lemma GatedAlone(b: L.Book, st: S.Store, p: S.Proc, intent: Intent, env: T.PlaceEnv) returns (n: nat)
    requires L.WellFormed(b) && intent.quantity > 0.0 && Corresponds(st, PlaceWorld(b, intent, env).book)
    requires p.call == S.Place(intent) && p.pc == S.AfterInsert(Ensured(b, intent).nextOrder, p.call)
    ensures n <= 10 && EndsAs(Solo(PlaceWorld(b, intent, env), st, p, n), Inserted(b, intent, env).0, Inserted(b, intent, env).1)
  {
    var w, id := PlaceWorld(b, intent, env), Ensured(b, intent).nextOrder;
    if intent.side.Sell? {
      n := PastGateAlone(b, st, p, intent, env);
    } else if w.verdict != S.GatePass {
      n := GateRefusesAlone(b, st, p, intent, env);
    } else {
      OneStep(w, st, p);
      var p1 := p.(pc := S.AfterGate(id, intent));
      assert Solo(w, st, p, 1) == (st, p1);
      n := PastGateAlone(b, st, p1, intent, env);
      n := Prefixed(w, st, p, 1, n, Inserted(b, intent, env).0, Inserted(b, intent, env).1);
    }
  }

  /** From the insert on. */
  lemma InsertsAlone(b: L.Book, st: S.Store, p: S.Proc, intent: Intent, env: T.PlaceEnv) returns (n: nat)
    requires L.WellFormed(b) && intent.quantity >= 1.0 && Corresponds(st, Ensured(b, intent))
    requires p.call == S.Place(intent) && p.pc == S.InsertOrder && !S.KeyTaken(st.orders, intent)
    requires Owner(Ensured(b, intent), intent).None?
    ensures n <= 11 && EndsAs(Solo(PlaceWorld(b, intent, env), st, p, n), T.Place(b, intent, env).0, T.Place(b, intent, env).1)
  {
    var w := PlaceWorld(b, intent, env);
    OneStep(w, st, p);
    n := 1;
    if !env.insertFails {
      var (st1, p1) := Solo(w, st, p, 1);
      InsertCorresponds(st, Ensured(b, intent), intent);
      n := GatedAlone(b, st1, p1, intent, env);
      n := Prefixed(w, st, p, 1, n, T.Place(b, intent, env).0, T.Place(b, intent, env).1);
    }
  }

  /**
   * A placement that runs alone ends within fourteen steps exactly as the
   * sequential specification says: repeated, refused, resting, filled or thrown.
   */
  lemma PlacementAlone(b: L.Book, st: S.Store, intent: Intent, env: T.PlaceEnv) returns (n: nat)
    requires L.WellFormed(b) && intent.quantity >= 1.0 && Corresponds(st, b) && I.KeysUnique(st.orders)
    ensures n <= 14
    ensures EndsAs(Solo(PlaceWorld(b, intent, env), st, S.Start(S.Place(intent)), n),
                   T.Place(b, intent, env).0, T.Place(b, intent, env).1)
  {
    var w, p := PlaceWorld(b, intent, env), S.Start(S.Place(intent));
    var k := EnsuresAlone(w, st, b, p);
    var (st1, p1) := Solo(w, st, p, k);
    var b1 := Ensured(b, intent);
    if Owner(b1, intent).Some? {
      n := AnswersAlone(w, st1, b1, p1, Owner(b1, intent).value);
    } else {
      var m := NotRepeatedAlone(w, st1, b1, p1);
      n := InsertsAlone(b, st1, p1.(pc := S.InsertOrder), intent, env);
      n := Prefixed(w, st1, p1, m, n, T.Place(b, intent, env).0, T.Place(b, intent, env).1);
    }
    n := Prefixed(w, st, p, k, n, T.Place(b, intent, env).0, T.Place(b, intent, env).1);
  }
}
