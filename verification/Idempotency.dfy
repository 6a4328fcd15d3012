/**
 * What repeating a request under one client key can and cannot do, when a
 * still-PENDING order may be replayed, and which calls open or need an account.
 */
module Idempotency {
  import opened Wrappers
  import opened Records
  import opened Settlement
  import opened SettlementInvariant

  // ---- One key, one order, one answer ----

  /** The call is inside `executeOrder`. */
  predicate Executing(p: Proc) {
    || p.pc.ReadOrder? || p.pc.ReadAccount? || p.pc.FetchPrice? || p.pc.Debit? || p.pc.ReadBalance?
    || p.pc.SaveRejection? || p.pc.ReadPosition? || p.pc.Credit? || p.pc.WritePosition? || p.pc.InsertTrade?
    || p.pc.Compensate? || p.pc.SaveExecution? || p.pc.Publish?
  }

  lemma OneOrderPerKey(s: State, i: nat, j: nat)
    requires Reachable(s) && i < |s.store.orders| && j < |s.store.orders|
    requires SameKey(s.store.orders[i].intent, s.store.orders[j].intent)
    ensures i == j
  {
    ReachableInv(s);
    assert KeysUnique(s.store.orders);
  }

  /** Of all the placements carrying one key, at most one inserts an order, and only that one executes or trades. */
  lemma OneExecutionPerKey(s: State, i: nat, j: nat)
    requires Reachable(s) && i < |s.procs| && j < |s.procs|
    requires s.procs[i].call.Place? && s.procs[j].call.Place?
    requires SameKey(s.procs[i].call.intent, s.procs[j].call.intent)
    requires s.procs[i].created.Some? || Executing(s.procs[i]) || s.procs[i].traded.Some?
    requires s.procs[j].created.Some? || Executing(s.procs[j]) || s.procs[j].traded.Some?
    ensures i == j
  {
    ReachableInv(s);
    InsertedItsOrder(s.store, s.procs[i]);
    InsertedItsOrder(s.store, s.procs[j]);
    OneOrderPerKey(s, s.procs[i].created.value, s.procs[j].created.value);
  }

  lemma InsertedItsOrder(st: Store, p: Proc)
    requires ProcOk(st, p) && p.call.Place? && (p.created.Some? || Executing(p) || p.traded.Some?)
    ensures p.created.Some? && p.created.value < |st.orders|
    ensures st.orders[p.created.value].intent == p.call.intent
  {
  }

  lemma ReturnsItsKey(st: Store, p: Proc)
    requires ProcOk(st, p) && p.call.Place? && p.call.intent.clientOrderId.Some? && p.pc.Returned?
    ensures p.pc.order < |st.orders| && SameKey(st.orders[p.pc.order].intent, p.call.intent)
  {
  }

  /** Every placement under one key that returns names the one order stored under that key. */
  lemma SameAnswer(s: State, i: nat, j: nat)
    requires Reachable(s) && i < |s.procs| && j < |s.procs|
    requires s.procs[i].call.Place? && s.procs[j].call.Place?
    requires SameKey(s.procs[i].call.intent, s.procs[j].call.intent)
    requires s.procs[i].pc.Returned? && s.procs[j].pc.Returned?
    ensures s.procs[i].pc.order == s.procs[j].pc.order < |s.store.orders|
    ensures SameKey(s.store.orders[s.procs[i].pc.order].intent, s.procs[i].call.intent)
  {
    ReachableInv(s);
    ReturnsItsKey(s.store, s.procs[i]);
    ReturnsItsKey(s.store, s.procs[j]);
    OneOrderPerKey(s, s.procs[i].pc.order, s.procs[j].pc.order);
  }

  lemma BookerOf(s: State, t: nat) returns (i: nat)
    requires Inv(s) && t < |s.store.trades|
    ensures i < |s.procs| && s.procs[i].traded == Some(t) && ProcOk(s.store, s.procs[i])
    ensures Target(s.procs[i]) == Some(s.store.trades[t].order)
  {
    assert HasBooker(s.procs, t);
    i :| 0 <= i < |s.procs| && s.procs[i].traded == Some(t);
  }

  /** Two trades of one order need a direct execution of it: placing alone books at most one. */
  lemma OneTradePerOrder(s: State, t: nat, u: nat)
    requires Reachable(s) && t < |s.store.trades| && u < |s.store.trades|
    requires s.store.trades[t].order == s.store.trades[u].order
    requires forall i :: 0 <= i < |s.procs| && s.procs[i].call.Execute? ==>
                           s.procs[i].call.order != s.store.trades[t].order
    ensures t == u
  {
    ReachableInv(s);
    var i := BookerOf(s, t);
    var j := BookerOf(s, u);
    assert s.procs[i].created == s.procs[j].created == Some(s.store.trades[t].order);
  }

  // ---- A retry sees the fill ----

  /** An EXECUTED order has a trade with its side and quantity at its executed price. */
  lemma ExecutedOrderHasItsFill(s: State, id: nat)
    requires Reachable(s) && id < |s.store.orders| && s.store.orders[id].status.Executed?
    ensures exists t :: 0 <= t < |s.store.trades| && IsFill(s.store.trades[t], id, s.store.orders[id])
  {
    ReachableInv(s);
  }

  /** A retry that saw EXECUTED returns a trade of that order whenever its last read applies. */
  lemma RetryReturnsTrade(s: State, i: nat)
    requires Reachable(s) && i < |s.procs| && s.procs[i].pc.FindTrade?
    ensures var pc := Apply(s, Step(i, Done)).procs[i].pc;
            && pc.Returned? && pc.order == s.procs[i].pc.order
            && pc.trade.Some? && pc.trade.value < |s.store.trades|
            && s.store.trades[pc.trade.value].order == pc.order
  {
    ReachableInv(s);
    assert PcOk(s.store, s.procs[i]);
  }

  /** Losing the race on the unique index is a success: the winner's order is always found. */
  lemma LoserFindsWinner(s: State, i: nat)
    requires Reachable(s) && i < |s.procs| && s.procs[i].pc.FindWinner?
    ensures var pc := Apply(s, Step(i, Done)).procs[i].pc;
            && s.procs[i].call.Place?
            && (pc.Returned? || pc.FindTrade?) && pc.order < |s.store.orders|
            && SameKey(s.store.orders[pc.order].intent, s.procs[i].call.intent)
  {
    ReachableInv(s);
    assert PcOk(s.store, s.procs[i]);
  }

  // ---- When a PENDING order is safe to replay ----

  /** This call stored a trade for the order and has not stored the order's status. */
  predicate StoppedBeforeSave(p: Proc, id: nat) {
    && p.traded.Some? && Target(p) == Some(id)
    && (p.pc.SaveExecution? || (p.pc.Thrown? && p.pc.ending.Unsaved?))
  }

  lemma BookerOfPending(st: Store, p: Proc, id: nat)
    requires ProcOk(st, p) && id < |st.orders| && st.orders[id].status.Pending?
    requires p.traded.Some? && Target(p) == Some(id)
    ensures StoppedBeforeSave(p, id)
  {
  }

  /**
   * A PENDING order already has a trade exactly when some call stopped between
   * the trade insert and the order save. Those are the orders that a replay
   * fills a second time.
   */
  lemma PendingOrderHasTradeIff(s: State, id: nat)
    requires Reachable(s) && id < |s.store.orders| && s.store.orders[id].status.Pending?
    ensures HasTrade(s.store.trades, id) <==>
            exists i :: 0 <= i < |s.procs| && StoppedBeforeSave(s.procs[i], id)
  {
    ReachableInv(s);
    if HasTrade(s.store.trades, id) {
      var t :| 0 <= t < |s.store.trades| && s.store.trades[t].order == id;
      var i := BookerOf(s, t);
      BookerOfPending(s.store, s.procs[i], id);
    }
    if i :| 0 <= i < |s.procs| && StoppedBeforeSave(s.procs[i], id) {
      assert ProcOk(s.store, s.procs[i]);
      assert s.store.trades[s.procs[i].traded.value].order == id;
    }
  }

  // ---- Accounts ----

  /**
   * Of the placements that found no account, only the first to create it goes
   * on, with a newly opened account; the others lose on the unique index, throw
   * and leave everything as it was.
   */
  lemma LosesAccountRaceIff(st: Store, p: Proc)
    requires p.call.Place? && p.pc.CreateAccount?
    ensures var account := p.call.intent.account;
            && (NextPc(st, p, Done) == Thrown(Clean) <==> account in st.accounts)
            && NextStore(st, p, Done)
               == if account in st.accounts then st
                  else st.(accounts := st.accounts[account := Account(DEFAULT_CAPITAL, DEFAULT_CAPITAL, 0.0)])
  {
  }

  /** A direct execution or a flatten of an order without an account throws before it fetches a price. */
  lemma NeedsAccountIff(st: Store, p: Proc)
    requires p.pc.ReadAccount?
    ensures NextPc(st, p, Done) == Thrown(Clean) <==> p.pc.intent.account !in st.accounts
    ensures NextStore(st, p, Done) == st
  {
  }
}
