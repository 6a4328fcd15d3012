/** Placing orders, the end-of-session flatten, and whole sequential runs of the account. */
module Trading {
  import opened Wrappers
  import opened Sums
  import opened Records
  import opened Ledger
  import opened BookValue
  import opened RiskLimits

  // ---- Placing an order ----

  /** What the outside world answers during one placement. */
  datatype PlaceEnv = PlaceEnv(
    insertFails: bool, gateFails: bool, gateLtp: Option<real>, now: int,
    fillLtp: Option<real>, at: int, fault: Fault)

  /** The order stored under a key, among the ids below `n`. */
  function KeyOwner(orders: map<nat, Order>, user: string, key: string, n: nat): (r: Option<nat>)
    ensures r.Some? ==> r.value in orders && HasKey(orders[r.value], user, key)
    ensures r.None? ==> forall id :: id in orders && id < n ==> !HasKey(orders[id], user, key)
  {
    if n == 0 then None
    else if n - 1 in orders && HasKey(orders[n - 1], user, key) then Some(n - 1)
    else KeyOwner(orders, user, key, n - 1)
  }

  function InsertOrder(b: Book, intent: Intent): Book {
    b.(orders := b.orders[b.nextOrder := Order(intent, Pending, None)], nextOrder := b.nextOrder + 1)
  }

  lemma InsertKeepsWellFormed(b: Book, intent: Intent)
    requires WellFormed(b) && intent.quantity > 0.0 && intent.account in b.accounts
    ensures WellFormed(InsertOrder(b, intent))
  {
  }

  lemma EnsureKeepsWellFormed(b: Book, k: AccountId, capital: real)
    requires WellFormed(b)
    ensures WellFormed(Ensure(b, k, capital)) && k in Ensure(b, k, capital).accounts
  {
  }

  /** A new order once it is stored: the gate for a BUY, then the fill for a MARKET order. */
  function AfterInsert(b: Book, id: nat, env: PlaceEnv): (Book, Outcome)
    requires WellFormed(b) && id in b.orders
  {
    var intent := b.orders[id].intent;
    var verdict := if intent.side.Buy? then Gate(b, intent, env.gateLtp, env.now) else None;
    if intent.side.Buy? && env.gateFails then (b, Threw(OperationFailed))
    else if verdict.Some? then (SetOrder(b, id, Rejected, None), Threw(verdict.value))
    else if intent.kind.Market? then Execute(b, id, None, env.fillLtp, env.at, env.fault)
    else (b, Resting(id))
  }

  /** `placeOrder`: the request validation lets only quantities of at least one through. */
  function Place(b: Book, intent: Intent, env: PlaceEnv): (Book, Outcome)
    requires WellFormed(b) && intent.quantity >= 1.0
  {
    var b0 := Ensure(b, intent.account, DEFAULT_CAPITAL);
    var owner := if intent.clientOrderId.None? then None
                 else KeyOwner(b0.orders, intent.account.user, intent.clientOrderId.value, b0.nextOrder);
    EnsureKeepsWellFormed(b, intent.account, DEFAULT_CAPITAL);
    InsertKeepsWellFormed(b0, intent);
    if owner.Some? then (b0, Repeated(owner.value))
    else if env.insertFails then (b0, Threw(OperationFailed))
    else AfterInsert(InsertOrder(b0, intent), b0.nextOrder, env)
  }

  // ---- The end-of-session flatten ----

  datatype FlattenEnv = FlattenEnv(insertFails: bool, ltp: Option<real>, at: int, fault: Fault)

  datatype Detail =
    | Closed(account: AccountId, symbol: string, quantity: real, exitPrice: real)
    | Failed(account: AccountId, symbol: string, quantity: real, why: Refusal)

  function FlattenIntent(p: Position): Intent {
    Intent(p.account, p.symbol, Sell, Market, p.quantity, None, None, None)
  }

  /** One position of the flatten: a SELL of its whole quantity, executed without the gate. */
  function FlattenOne(b: Book, p: Position, env: FlattenEnv): (Book, Outcome)
    requires WellFormed(b) && p.quantity > 0.0 && p.account in b.accounts
  {
    InsertKeepsWellFormed(b, FlattenIntent(p));
    if env.insertFails then (b, Threw(OperationFailed))
    else Execute(InsertOrder(b, FlattenIntent(p)), b.nextOrder, None, env.ltp, env.at, env.fault)
  }

  function DetailOf(p: Position, outcome: Outcome): Detail {
    match outcome
    case Filled(_, trade) => Closed(p.account, p.symbol, p.quantity, trade.price)
    case Threw(why) => Failed(p.account, p.symbol, p.quantity, why)
    case _ => Failed(p.account, p.symbol, p.quantity, OperationFailed)
  }

  lemma FlattenKeepsWellFormed(b: Book, p: Position, env: FlattenEnv)
    requires WellFormed(b) && p.quantity > 0.0 && p.account in b.accounts
    ensures WellFormed(FlattenOne(b, p, env).0) && FlattenOne(b, p, env).0.accounts.Keys == b.accounts.Keys
  {
    if !env.insertFails {
      InsertKeepsWellFormed(b, FlattenIntent(p));
      ExecuteKeepsWellFormed(InsertOrder(b, FlattenIntent(p)), b.nextOrder, None, env.ltp, env.at, env.fault);
    }
  }

  /** Everything a flatten may close: positions of accounts that exist. */
  ghost predicate Flattenable(b: Book, listed: seq<Position>) {
    forall i :: 0 <= i < |listed| ==> listed[i].quantity > 0.0 && listed[i].account in b.accounts
  }

  /** The book and the report after the first `n` listed positions. */
  function SquareOffTo(b: Book, listed: seq<Position>, envs: nat -> FlattenEnv, n: nat): (r: (Book, seq<Detail>))
    requires WellFormed(b) && Flattenable(b, listed) && n <= |listed|
    ensures WellFormed(r.0) && r.0.accounts.Keys == b.accounts.Keys && |r.1| == n
  {
    if n == 0 then (b, [])
    else
      var (before, details) := SquareOffTo(b, listed, envs, n - 1);
      FlattenKeepsWellFormed(before, listed[n - 1], envs(n - 1));
      var (after, outcome) := FlattenOne(before, listed[n - 1], envs(n - 1));
      (after, details + [DetailOf(listed[n - 1], outcome)])
  }

  function SquareOff(b: Book, envs: nat -> FlattenEnv): (Book, seq<Detail>)
    requires WellFormed(b)
  {
    SquareOffTo(b, b.positions, envs, |b.positions|)
  }

  // ---- Sequential runs ----

  datatype Op =
    | OpOpen(k: AccountId, capital: real)
    | OpReset(k: AccountId, failure: ResetFault)
    | OpPlace(intent: Intent, env: PlaceEnv)
    | OpExecute(id: nat, requester: Option<string>, ltp: Option<real>, at: int, fault: Fault)
    | OpRefresh(user: string, quotes: map<(string, string), real>)
    | OpSquareOff(envs: nat -> FlattenEnv)

  predicate Valid(op: Op) {
    op.OpPlace? ==> op.intent.quantity >= 1.0
  }

  function ApplyOp(b: Book, op: Op): Book
    requires WellFormed(b) && Valid(op)
  {
    match op
    case OpOpen(k, capital) => Ensure(b, k, capital)
    case OpReset(k, fault) => Reset(b, k, fault)
    case OpPlace(intent, env) => Place(b, intent, env).0
    case OpExecute(id, requester, ltp, at, fault) => Execute(b, id, requester, ltp, at, fault).0
    case OpRefresh(user, quotes) => Refresh(b, user, quotes)
    case OpSquareOff(envs) => SquareOff(b, envs).0
  }

  lemma PlaceKeepsWellFormed(b: Book, intent: Intent, env: PlaceEnv)
    requires WellFormed(b) && intent.quantity >= 1.0
    ensures WellFormed(Place(b, intent, env).0)
  {
    var b0 := Ensure(b, intent.account, DEFAULT_CAPITAL);
    EnsureKeepsWellFormed(b, intent.account, DEFAULT_CAPITAL);
    InsertKeepsWellFormed(b0, intent);
    ExecuteKeepsWellFormed(InsertOrder(b0, intent), b0.nextOrder, None, env.fillLtp, env.at, env.fault);
  }

  lemma OpKeepsWellFormed(b: Book, op: Op)
    requires WellFormed(b) && Valid(op)
    ensures WellFormed(ApplyOp(b, op))
  {
    match op
    case OpOpen(k, capital) =>
    case OpReset(k, fault) => ResetKeepsWellFormed(b, k, fault);
    case OpPlace(intent, env) => PlaceKeepsWellFormed(b, intent, env);
    case OpExecute(id, requester, ltp, at, fault) => ExecuteKeepsWellFormed(b, id, requester, ltp, at, fault);
    case OpRefresh(user, quotes) => RefreshKeepsWellFormed(b, user, quotes);
    case OpSquareOff(envs) =>
  }

  /** The book after a whole run. */
  function AfterOps(b: Book, ops: seq<Op>): (r: Book)
    requires WellFormed(b) && forall i :: 0 <= i < |ops| ==> Valid(ops[i])
    ensures WellFormed(r)
  {
    if |ops| == 0 then b
    else
      var before := AfterOps(b, ops[..|ops| - 1]);
      OpKeepsWellFormed(before, ops[|ops| - 1]);
      ApplyOp(before, ops[|ops| - 1])
  }

  // ---- The books balance over every run ----

  /** Faults that leave an account in balance: none after the position write that is then compensated. */
  predicate KeepsBalance(fault: Fault) {
    fault != AtTrade(true) && fault != AtPosition(false)
  }

  ghost predicate Balanced(b: Book) {
    forall k :: k in b.accounts ==> Drift(b, k) == 0.0
  }

  ghost predicate SoundOp(op: Op) {
    match op
    case OpPlace(_, env) => KeepsBalance(env.fault)
    case OpExecute(_, _, _, _, fault) => KeepsBalance(fault)
    case OpReset(_, fault) => fault.Saves() || fault.positionsKept
    case OpSquareOff(envs) => forall i: nat :: KeepsBalance(envs(i).fault)
    case _ => true
  }

  lemma ExecuteKeepsBalanced(b: Book, id: nat, requester: Option<string>, ltp: Option<real>, at: int, fault: Fault)
    requires WellFormed(b) && Balanced(b) && KeepsBalance(fault)
    ensures Balanced(Execute(b, id, requester, ltp, at, fault).0)
  {
    var after := Execute(b, id, requester, ltp, at, fault).0;
    ExecuteKeepsWellFormed(b, id, requester, ltp, at, fault);
    forall k | k in after.accounts ensures Drift(after, k) == 0.0 {
      ExecuteDrift(b, id, requester, ltp, at, fault, k);
    }
  }

  lemma EnsureKeepsBalanced(b: Book, k: AccountId, capital: real)
    requires WellFormed(b) && Balanced(b)
    ensures Balanced(Ensure(b, k, capital))
  {
    forall j | j in Ensure(b, k, capital).accounts ensures Drift(Ensure(b, k, capital), j) == 0.0 {
      EnsureDrift(b, k, capital, j);
    }
  }

  lemma OrdersDoNotMatter(b: Book, b': Book)
    requires Balanced(b) && b'.accounts == b.accounts && b'.positions == b.positions
    ensures Balanced(b')
  {
    forall k | k in b'.accounts ensures Drift(b', k) == 0.0 {
      assert Drift(b', k) == Drift(b, k);
    }
  }

  lemma PlaceKeepsBalanced(b: Book, intent: Intent, env: PlaceEnv)
    requires WellFormed(b) && Balanced(b) && intent.quantity >= 1.0 && KeepsBalance(env.fault)
    ensures Balanced(Place(b, intent, env).0)
  {
    var b0 := Ensure(b, intent.account, DEFAULT_CAPITAL);
    var b1 := InsertOrder(b0, intent);
    EnsureKeepsWellFormed(b, intent.account, DEFAULT_CAPITAL);
    EnsureKeepsBalanced(b, intent.account, DEFAULT_CAPITAL);
    InsertKeepsWellFormed(b0, intent);
    OrdersDoNotMatter(b0, b1);
    OrdersDoNotMatter(b1, SetOrder(b1, b0.nextOrder, Rejected, None));
    ExecuteKeepsBalanced(b1, b0.nextOrder, None, env.fillLtp, env.at, env.fault);
  }

  lemma {:induction false} SquareOffKeepsBalanced(b: Book, listed: seq<Position>, envs: nat -> FlattenEnv, n: nat)
    requires WellFormed(b) && Balanced(b) && Flattenable(b, listed) && n <= |listed|
    requires forall i: nat :: i < n ==> KeepsBalance(envs(i).fault)
    ensures Balanced(SquareOffTo(b, listed, envs, n).0)
  {
    if n > 0 {
      SquareOffKeepsBalanced(b, listed, envs, n - 1);
      var before := SquareOffTo(b, listed, envs, n - 1).0;
      var intent := FlattenIntent(listed[n - 1]);
      InsertKeepsWellFormed(before, intent);
      OrdersDoNotMatter(before, InsertOrder(before, intent));
      ExecuteKeepsBalanced(InsertOrder(before, intent), before.nextOrder, None,
                           envs(n - 1).ltp, envs(n - 1).at, envs(n - 1).fault);
    }
  }

  lemma OpKeepsBalanced(b: Book, op: Op)
    requires WellFormed(b) && Balanced(b) && Valid(op) && SoundOp(op)
    ensures Balanced(ApplyOp(b, op))
  {
    match op
    case OpOpen(k, capital) => EnsureKeepsBalanced(b, k, capital);
    case OpReset(k, fault) =>
      forall j | j in Reset(b, k, fault).accounts ensures Drift(Reset(b, k, fault), j) == 0.0 {
        ResetDrift(b, k, fault, j);
      }
    case OpPlace(intent, env) => PlaceKeepsBalanced(b, intent, env);
    case OpExecute(id, requester, ltp, at, fault) => ExecuteKeepsBalanced(b, id, requester, ltp, at, fault);
    case OpRefresh(user, quotes) =>
      forall k | k in b.accounts ensures Drift(Refresh(b, user, quotes), k) == 0.0 {
        RefreshDrift(b, user, quotes, k);
      }
    case OpSquareOff(envs) => SquareOffKeepsBalanced(b, b.positions, envs, |b.positions|);
  }

  lemma {:induction false} AfterOpsBalanced(ops: seq<Op>)
    requires forall i :: 0 <= i < |ops| ==> Valid(ops[i]) && SoundOp(ops[i])
    ensures Balanced(AfterOps(EMPTY_BOOK, ops))
  {
    if |ops| > 0 {
      AfterOpsBalanced(ops[..|ops| - 1]);
      OpKeepsBalanced(AfterOps(EMPTY_BOOK, ops[..|ops| - 1]), ops[|ops| - 1]);
    }
  }

  /**
   * Over every sequential run whose faults keep the balance, every account
   * satisfies cash + cost of holdings = opening capital + realised P&L, so its
   * reported total P&L is its value above opening capital.
   */
  lemma BooksBalance(ops: seq<Op>, k: AccountId)
    requires forall i :: 0 <= i < |ops| ==> Valid(ops[i]) && SoundOp(ops[i])
    requires k in AfterOps(EMPTY_BOOK, ops).accounts
    ensures var b := AfterOps(EMPTY_BOOK, ops);
            && b.accounts[k].cash + Sum(b.positions, Cost(k)) == b.accounts[k].initialCapital + b.accounts[k].realisedPnl
            && View(b, k).totalPnl == View(b, k).totalValue - b.accounts[k].initialCapital
            && forall i :: 0 <= i < |b.positions| ==>
                 b.positions[i].unrealisedPnl == (b.positions[i].currentPrice - b.positions[i].averageCost) * b.positions[i].quantity
  {
    var b := AfterOps(EMPTY_BOOK, ops);
    AfterOpsBalanced(ops);
    TotalPnlIsGain(b, k);
    forall i | 0 <= i < |b.positions| ensures PositionOk(b.positions[i]) {}
  }

  // ---- What a flatten leaves behind ----

  /** The flatten of this position fails before its position write applies. */
  predicate Survives(env: FlattenEnv) {
    env.insertFails || env.ltp.None? || env.fault.AtRead? || env.fault.AtCash? || env.fault.AtPosition?
  }

  /** The flatten of this position reports success. */
  predicate ClosesCleanly(env: FlattenEnv) {
    !env.insertFails && env.ltp.Some? && (env.fault.NoFault? || env.fault.AtRejection?)
  }

  function Survivors(listed: seq<Position>, envs: nat -> FlattenEnv, n: nat): seq<Position>
    requires n <= |listed|
  {
    if n == 0 then []
    else Survivors(listed, envs, n - 1) + if Survives(envs(n - 1)) then [listed[n - 1]] else []
  }

  lemma FindUnique(ps: seq<Position>, i: nat)
    requires OnePerSymbol(ps) && i < |ps|
    ensures FindPosition(ps, ps[i].account, ps[i].symbol) == Some(i)
  {
    var found := FindPosition(ps, ps[i].account, ps[i].symbol);
    assert IsFor(ps[i], ps[i].account, ps[i].symbol);
  }

  /** Nothing but a missing price or a failed operation refuses a flatten: the position covers it. */
  lemma FlattenNotRefused(b: Book, i: nat, ltp: Option<real>, fault: Fault)
    requires WellFormed(b) && i < |b.positions|
    ensures Fills(InsertOrder(b, FlattenIntent(b.positions[i])), b.nextOrder, None, ltp, fault)
            <==> ltp.Some? && !fault.AtRead? && !fault.AtCash?
  {
    FindUnique(b.positions, i);
  }

  lemma FlattenRemoves(b: Book, i: nat, price: real)
    requires WellFormed(b) && i < |b.positions|
    ensures WritePosition(b.positions, FlattenIntent(b.positions[i]), price) == b.positions[..i] + b.positions[i + 1..]
  {
    FindUnique(b.positions, i);
  }

  /** The report line for a listed position. */
  ghost predicate Reports(detail: Detail, p: Position, env: FlattenEnv) {
    && detail.account == p.account && detail.symbol == p.symbol && detail.quantity == p.quantity
    && (detail.Closed? <==> ClosesCleanly(env))
    && (detail.Closed? ==> detail.exitPrice == env.ltp.value)
  }

  /** Flattening the position at index `i` of the book. */
  lemma FlattenAt(b: Book, i: nat, env: FlattenEnv)
    requires WellFormed(b) && i < |b.positions|
    ensures FlattenOne(b, b.positions[i], env).0.positions ==
            if Survives(env) then b.positions else b.positions[..i] + b.positions[i + 1..]
    ensures Reports(DetailOf(b.positions[i], FlattenOne(b, b.positions[i], env).1), b.positions[i], env)
  {
    if !env.insertFails {
      InsertKeepsWellFormed(b, FlattenIntent(b.positions[i]));
      FlattenNotRefused(b, i, env.ltp, env.fault);
      var b1 := InsertOrder(b, FlattenIntent(b.positions[i]));
      if Fills(b1, b.nextOrder, None, env.ltp, env.fault) {
        FlattenRemoves(b, i, env.ltp.value);
        assert b1.orders[b.nextOrder].intent == FlattenIntent(b.positions[i]);
      }
    }
  }

  lemma Splice(kept: seq<Position>, p: Position, rest: seq<Position>)
    ensures var ps := kept + [p] + rest; ps[|kept|] == p && ps[..|kept|] + ps[|kept| + 1..] == kept + rest
  {
  }

  /** The flatten of `p`, wherever the book holds it. */
  lemma FlattenInPlace(b: Book, kept: seq<Position>, p: Position, rest: seq<Position>, env: FlattenEnv)
    requires WellFormed(b) && b.positions == kept + [p] + rest && p.quantity > 0.0 && p.account in b.accounts
    ensures FlattenOne(b, p, env).0.positions == if Survives(env) then kept + [p] + rest else kept + rest
    ensures Reports(DetailOf(p, FlattenOne(b, p, env).1), p, env)
  {
    Splice(kept, p, rest);
    FlattenAt(b, |kept|, env);
  }

  ghost predicate AllReported(details: seq<Detail>, listed: seq<Position>, envs: nat -> FlattenEnv) {
    && |details| <= |listed|
    && forall i :: 0 <= i < |details| ==> Reports(details[i], listed[i], envs(i))
  }

  lemma OneMoreReported(details: seq<Detail>, detail: Detail, listed: seq<Position>, envs: nat -> FlattenEnv)
    requires AllReported(details, listed, envs) && |details| < |listed|
    requires Reports(detail, listed[|details|], envs(|details|))
    ensures AllReported(details + [detail], listed, envs)
  {
  }

  /** After `n` turns the book holds the survivors of those and everything yet to come, and all turns are reported. */
  ghost predicate FlattenedTo(r: (Book, seq<Detail>), b: Book, envs: nat -> FlattenEnv, n: nat)
    requires n <= |b.positions|
  {
    r.0.positions == Survivors(b.positions, envs, n) + b.positions[n..] && AllReported(r.1, b.positions, envs)
  }

  /** The turn of position `n`, with the survivors `kept` before it and `rest` behind it. */
  lemma FlattenTurn(b: Book, envs: nat -> FlattenEnv, n: nat, kept: seq<Position>, rest: seq<Position>)
    returns (after: Book, detail: Detail)
    requires WellFormed(b) && n < |b.positions|
    requires SquareOffTo(b, b.positions, envs, n).0.positions == kept + [b.positions[n]] + rest
    ensures SquareOffTo(b, b.positions, envs, n + 1) == (after, SquareOffTo(b, b.positions, envs, n).1 + [detail])
    ensures after.positions == (if Survives(envs(n)) then kept + [b.positions[n]] else kept) + rest
    ensures Reports(detail, b.positions[n], envs(n))
  {
    var before, p := SquareOffTo(b, b.positions, envs, n).0, b.positions[n];
    FlattenInPlace(before, kept, p, rest, envs(n));
    after, detail := FlattenOne(before, p, envs(n)).0, DetailOf(p, FlattenOne(before, p, envs(n)).1);
  }

  lemma NextUp(kept: seq<Position>, ps: seq<Position>, n: nat)
    requires n < |ps|
    ensures kept + ps[n..] == kept + [ps[n]] + ps[n + 1..]
  {
  }

  lemma FlattenNext(b: Book, envs: nat -> FlattenEnv, n: nat)
    requires WellFormed(b) && n < |b.positions| && FlattenedTo(SquareOffTo(b, b.positions, envs, n), b, envs, n)
    ensures FlattenedTo(SquareOffTo(b, b.positions, envs, n + 1), b, envs, n + 1)
  {
    var r := SquareOffTo(b, b.positions, envs, n);
    var kept, rest := Survivors(b.positions, envs, n), b.positions[n + 1..];
    NextUp(kept, b.positions, n);
    var after, detail := FlattenTurn(b, envs, n, kept, rest);
    FlattenedToNext(b, envs, n, r.1, after, detail);
  }

  lemma FlattenedToNext(b: Book, envs: nat -> FlattenEnv, n: nat, details: seq<Detail>, after: Book, detail: Detail)
    requires n < |b.positions| && |details| == n && AllReported(details, b.positions, envs)
    requires var kept := Survivors(b.positions, envs, n);
             after.positions == (if Survives(envs(n)) then kept + [b.positions[n]] else kept) + b.positions[n + 1..]
    requires Reports(detail, b.positions[n], envs(n))
    ensures FlattenedTo((after, details + [detail]), b, envs, n + 1)
  {
    OneMoreReported(details, detail, b.positions, envs);
  }

  lemma FlattenedNone(b: Book, envs: nat -> FlattenEnv)
    requires WellFormed(b)
    ensures FlattenedTo(SquareOffTo(b, b.positions, envs, 0), b, envs, 0)
  {
    assert Survivors(b.positions, envs, 0) + b.positions[0..] == b.positions;
  }

  lemma {:induction false} FlattenedSoFar(b: Book, envs: nat -> FlattenEnv, n: nat)
    requires WellFormed(b) && n <= |b.positions|
    ensures FlattenedTo(SquareOffTo(b, b.positions, envs, n), b, envs, n)
  {
    if n == 0 {
      FlattenedNone(b, envs);
    } else {
      FlattenedSoFar(b, envs, n - 1);
      FlattenNext(b, envs, n - 1);
    }
  }

  /** One report line per position, in order; what stays open is what failed before its position write. */
  lemma SquareOffReport(b: Book, envs: nat -> FlattenEnv)
    requires WellFormed(b)
    ensures |SquareOff(b, envs).1| == |b.positions|
    ensures forall i :: 0 <= i < |b.positions| ==> Reports(SquareOff(b, envs).1[i], b.positions[i], envs(i))
    ensures SquareOff(b, envs).0.positions == Survivors(b.positions, envs, |b.positions|)
  {
    FlattenedSoFar(b, envs, |b.positions|);
  }

  function FailedOnes(listed: seq<Position>, details: seq<Detail>): seq<Position>
    requires |listed| == |details|
  {
    if |listed| == 0 then []
    else FailedOnes(listed[..|listed| - 1], details[..|details| - 1])
         + if details[|details| - 1].Failed? then [listed[|listed| - 1]] else []
  }

  lemma {:induction false} SurvivorsFailed(listed: seq<Position>, envs: nat -> FlattenEnv, details: seq<Detail>, n: nat)
    requires n <= |listed| == |details|
    requires forall i :: 0 <= i < n ==> (details[i].Failed? <==> Survives(envs(i)))
    ensures Survivors(listed, envs, n) == FailedOnes(listed[..n], details[..n])
  {
    if n > 0 {
      SurvivorsFailed(listed, envs, details, n - 1);
      assert listed[..n][..n - 1] == listed[..n - 1] && details[..n][..n - 1] == details[..n - 1];
    }
  }

  lemma FailedAreSurvivors(listed: seq<Position>, envs: nat -> FlattenEnv, details: seq<Detail>)
    requires |listed| == |details|
    requires forall i :: 0 <= i < |listed| ==> Reports(details[i], listed[i], envs(i))
    requires forall i: nat :: i < |listed| ==> ClosesCleanly(envs(i)) || Survives(envs(i))
    ensures Survivors(listed, envs, |listed|) == FailedOnes(listed, details)
  {
    SurvivorsFailed(listed, envs, details, |listed|);
    assert listed[..|listed|] == listed && details[..|details|] == details;
  }

  /** When no failure comes after a position write, the positions left open are exactly those reported failed. */
  lemma FailedStayOpen(b: Book, envs: nat -> FlattenEnv)
    requires WellFormed(b)
    requires forall i: nat :: i < |b.positions| ==> ClosesCleanly(envs(i)) || Survives(envs(i))
    ensures |SquareOff(b, envs).1| == |b.positions|
    ensures SquareOff(b, envs).0.positions == FailedOnes(b.positions, SquareOff(b, envs).1)
  {
    SquareOffReport(b, envs);
    FailedAreSurvivors(b.positions, envs, SquareOff(b, envs).1);
  }

  lemma {:induction false} NoSurvivors(listed: seq<Position>, envs: nat -> FlattenEnv, n: nat)
    requires n <= |listed| && forall i :: 0 <= i < n ==> !Survives(envs(i))
    ensures Survivors(listed, envs, n) == []
  {
    if n > 0 {
      NoSurvivors(listed, envs, n - 1);
    }
  }

  /** A flatten that reports no failure leaves nothing open, and every balanced account holds its realised gain in cash. */
  lemma CleanSquareOffFlattens(b: Book, envs: nat -> FlattenEnv, k: AccountId)
    requires WellFormed(b) && Balanced(b) && k in b.accounts
    requires forall i :: 0 <= i < |SquareOff(b, envs).1| ==> SquareOff(b, envs).1[i].Closed?
    ensures SquareOff(b, envs).0.positions == []
    ensures k in SquareOff(b, envs).0.accounts
    ensures var a := SquareOff(b, envs).0.accounts[k]; a.cash == a.initialCapital + a.realisedPnl
  {
    SquareOffReport(b, envs);
    forall i: nat | i < |b.positions| ensures ClosesCleanly(envs(i)) {
      assert SquareOff(b, envs).1[i].Closed?;
    }
    NoSurvivors(b.positions, envs, |b.positions|);
    CleanSquareOffBalances(b, envs);
    assert Drift(SquareOff(b, envs).0, k) == 0.0;
  }

  lemma CleanSquareOffBalances(b: Book, envs: nat -> FlattenEnv)
    requires WellFormed(b) && Balanced(b) && forall i: nat :: i < |b.positions| ==> ClosesCleanly(envs(i))
    ensures Balanced(SquareOff(b, envs).0)
  {
    SquareOffKeepsBalanced(b, b.positions, envs, |b.positions|);
  }
}
