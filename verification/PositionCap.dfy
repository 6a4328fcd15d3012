/** The limit of five open positions, over every sequential run of gated orders. */
module PositionCap {
  import opened Wrappers
  import opened Sums
  import opened Records
  import opened Ledger
  import opened BookValue
  import opened RiskLimits
  import opened Trading

  /** A position write adds one open position for a BUY of a symbol not held and removes one for a full SELL. */
  lemma WriteMovesCount(ps: seq<Position>, intent: Intent, price: real, k: AccountId)
    requires PositionsOk(ps) && intent.quantity > 0.0
    requires intent.side.Sell? ==> FindPosition(ps, intent.account, intent.symbol).Some?
    ensures var found := FindPosition(ps, intent.account, intent.symbol);
            Sum(WritePosition(ps, intent, price), Count(k)) - Sum(ps, Count(k)) ==
            if intent.account != k then 0.0
            else if found.None? then 1.0
            else if intent.side.Sell? && ps[found.value].quantity == intent.quantity then -1.0
            else 0.0
  {
    match FindPosition(ps, intent.account, intent.symbol)
    case None =>
      SumAppend(ps, Opened(intent, price), Count(k));
    case Some(i) =>
      assert PositionOk(ps[i]);
      if intent.side.Buy? {
        SumUpdate(ps, i, Added(ps[i], intent, price), Count(k));
      } else if ps[i].quantity == intent.quantity {
        SumRemove(ps, i, Count(k));
      } else {
        SumUpdate(ps, i, Reduced(ps[i], intent, price), Count(k));
      }
  }

  /** The fill's position write is still there when the execution ends. */
  predicate WriteStays(fault: Fault) { !fault.AtPosition? }

  /**
   * An execution opens a position exactly when it fills a BUY of a symbol not
   * held. Nothing in it looks at how many are open: a resting LIMIT order was
   * gated when it was placed and fills past the limit.
   */
  lemma ExecuteOpensIff(b: Book, id: nat, requester: Option<string>, ltp: Option<real>, at: int, fault: Fault, k: AccountId)
    requires WellFormed(b)
    ensures var after := Execute(b, id, requester, ltp, at, fault).0;
            var opens := Fills(b, id, requester, ltp, fault) && WriteStays(fault)
                         && b.orders[id].intent.side.Buy? && b.orders[id].intent.account == k
                         && FindPosition(b.positions, k, b.orders[id].intent.symbol).None?;
            && (opens ==> OpenPositions(after, k) == OpenPositions(b, k) + 1.0)
            && (!opens ==> OpenPositions(after, k) <= OpenPositions(b, k))
  {
    if Fills(b, id, requester, ltp, fault) {
      var intent := b.orders[id].intent;
      WriteMovesCount(b.positions, intent, ltp.value, k);
      var after := AfterFill(b, id, ltp.value, at, fault);
      assert after.positions == if WriteStays(fault) then WritePosition(b.positions, intent, ltp.value) else b.positions;
    }
  }

  ghost predicate WithinCap(b: Book) {
    forall k: AccountId :: OpenPositions(b, k) <= MAX_CONCURRENT_POSITIONS
  }

  lemma SamePositionsSameCount(b: Book, b': Book)
    requires WithinCap(b) && b'.positions == b.positions
    ensures WithinCap(b')
  {
    forall k: AccountId ensures OpenPositions(b', k) <= MAX_CONCURRENT_POSITIONS {
      assert OpenPositions(b', k) == OpenPositions(b, k);
    }
  }

  /** A stored order that the gate has just passed, or a SELL, executes within the cap at whatever price. */
  lemma GatedExecuteKeepsCap(b: Book, id: nat, gateLtp: Option<real>, now: int, ltp: Option<real>, at: int, fault: Fault)
    requires WellFormed(b) && WithinCap(b) && id in b.orders
    requires b.orders[id].intent.side.Buy? ==> Gate(b, b.orders[id].intent, gateLtp, now).None?
    ensures WithinCap(Execute(b, id, None, ltp, at, fault).0)
  {
    var after := Execute(b, id, None, ltp, at, fault).0;
    forall k: AccountId ensures OpenPositions(after, k) <= MAX_CONCURRENT_POSITIONS {
      ExecuteOpensIff(b, id, None, ltp, at, fault, k);
      assert OpenPositions(b, k) <= MAX_CONCURRENT_POSITIONS;
    }
  }

  lemma PlaceKeepsCap(b: Book, intent: Intent, env: PlaceEnv)
    requires WellFormed(b) && WithinCap(b) && intent.quantity >= 1.0
    ensures WithinCap(Place(b, intent, env).0)
  {
    var b0 := Ensure(b, intent.account, DEFAULT_CAPITAL);
    var b1 := InsertOrder(b0, intent);
    EnsureKeepsWellFormed(b, intent.account, DEFAULT_CAPITAL);
    InsertKeepsWellFormed(b0, intent);
    SamePositionsSameCount(b, b0);
    SamePositionsSameCount(b, b1);
    SamePositionsSameCount(b, SetOrder(b1, b0.nextOrder, Rejected, None));
    if intent.side.Sell? || Gate(b1, intent, env.gateLtp, env.now).None? {
      GatedExecuteKeepsCap(b1, b0.nextOrder, env.gateLtp, env.now, env.fillLtp, env.at, env.fault);
    }
  }

  lemma {:induction false} SquareOffKeepsCap(b: Book, listed: seq<Position>, envs: nat -> FlattenEnv, n: nat)
    requires WellFormed(b) && WithinCap(b) && Flattenable(b, listed) && n <= |listed|
    ensures WithinCap(SquareOffTo(b, listed, envs, n).0)
  {
    if n > 0 {
      SquareOffKeepsCap(b, listed, envs, n - 1);
      var before := SquareOffTo(b, listed, envs, n - 1).0;
      var intent := FlattenIntent(listed[n - 1]);
      InsertKeepsWellFormed(before, intent);
      SamePositionsSameCount(before, InsertOrder(before, intent));
      GatedExecuteKeepsCap(InsertOrder(before, intent), before.nextOrder, None, 0,
                           envs(n - 1).ltp, envs(n - 1).at, envs(n - 1).fault);
    }
  }

  lemma {:induction false} WithoutShrinks(ps: seq<Position>, k: AccountId, j: AccountId)
    ensures Sum(Without(ps, k), Count(j)) <= Sum(ps, Count(j))
  {
    if |ps| > 0 {
      WithoutShrinks(ps[1..], k, j);
      SumConcat([ps[0]], Without(ps[1..], k), Count(j));
    }
  }

  lemma OpKeepsCap(b: Book, op: Op)
    requires WellFormed(b) && WithinCap(b) && Valid(op) && !op.OpExecute?
    ensures WithinCap(ApplyOp(b, op))
  {
    match op
    case OpOpen(k, capital) => SamePositionsSameCount(b, Ensure(b, k, capital));
    case OpReset(k, fault) =>
      forall j: AccountId ensures OpenPositions(Reset(b, k, fault), j) <= MAX_CONCURRENT_POSITIONS {
        WithoutShrinks(b.positions, k, j);
        assert OpenPositions(b, j) <= MAX_CONCURRENT_POSITIONS;
      }
    case OpPlace(intent, env) => PlaceKeepsCap(b, intent, env);
    case OpRefresh(user, quotes) =>
      forall j: AccountId ensures OpenPositions(Refresh(b, user, quotes), j) <= MAX_CONCURRENT_POSITIONS {
        SumSame(b.positions, Refresh(b, user, quotes).positions, Count(j));
        assert OpenPositions(b, j) <= MAX_CONCURRENT_POSITIONS;
      }
    case OpSquareOff(envs) => SquareOffKeepsCap(b, b.positions, envs, |b.positions|);
  }

  /**
   * Over every run of placements, marks, resets and flattens, whatever fails
   * and whatever price a MARKET order fills at, no account ever holds more
   * than five positions. Only executing a resting order directly is left out.
   */
  lemma {:induction false} AtMostFivePositions(ops: seq<Op>)
    requires forall i :: 0 <= i < |ops| ==> Valid(ops[i]) && !ops[i].OpExecute?
    ensures WithinCap(AfterOps(EMPTY_BOOK, ops))
  {
    if |ops| > 0 {
      AtMostFivePositions(ops[..|ops| - 1]);
      OpKeepsCap(AfterOps(EMPTY_BOOK, ops[..|ops| - 1]), ops[|ops| - 1]);
    }
  }

  /** A SELL passes no gate: placing one never fails on a risk limit or on a missing gate price. */
  lemma SellsAreNotGated(b: Book, intent: Intent, env: PlaceEnv, env': PlaceEnv)
    requires WellFormed(b) && intent.quantity >= 1.0 && intent.side.Sell?
    requires env' == env.(gateFails := env'.gateFails, gateLtp := env'.gateLtp, now := env'.now)
    ensures Place(b, intent, env) == Place(b, intent, env')
    ensures Place(b, intent, env).1 != Threw(RiskLimit)
  {
    EnsureKeepsWellFormed(b, intent.account, DEFAULT_CAPITAL);
  }
}
