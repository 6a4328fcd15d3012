/** Positions against the trade log, over every sequential run. */
module Holdings {
  import opened Wrappers
  import opened Arithmetic
  import opened Records
  import opened Ledger
  import opened BookValue
  import opened Trading

  // ---- Looking a position up ----

  function Lookup(ps: seq<Position>, k: AccountId, symbol: string): Option<Position> {
    match FindPosition(ps, k, symbol)
    case None => None
    case Some(i) => Some(ps[i])
  }

  /** With one position per symbol, a lookup finds exactly the stored document. */
  lemma LookupIsMember(ps: seq<Position>, k: AccountId, symbol: string, p: Position)
    requires OnePerSymbol(ps)
    ensures Lookup(ps, k, symbol) == Some(p) <==> p in ps && IsFor(p, k, symbol)
  {
    if p in ps && IsFor(p, k, symbol) {
      var i :| 0 <= i < |ps| && ps[i] == p;
      FindUnique(ps, i);
    }
  }

  /** A lookup depends on the stored documents only. */
  lemma SameMembersSameLookup(ps: seq<Position>, qs: seq<Position>, k: AccountId, symbol: string)
    requires OnePerSymbol(ps) && OnePerSymbol(qs)
    requires forall p: Position :: IsFor(p, k, symbol) ==> (p in ps <==> p in qs)
    ensures Lookup(ps, k, symbol) == Lookup(qs, k, symbol)
  {
    if Lookup(ps, k, symbol).Some? {
      LookupIsMember(ps, k, symbol, Lookup(ps, k, symbol).value);
      LookupIsMember(qs, k, symbol, Lookup(ps, k, symbol).value);
    } else if Lookup(qs, k, symbol).Some? {
      LookupIsMember(ps, k, symbol, Lookup(qs, k, symbol).value);
      LookupIsMember(qs, k, symbol, Lookup(qs, k, symbol).value);
    }
  }

  predicate WritesTo(intent: Intent, k: AccountId, symbol: string) {
    intent.account == k && intent.symbol == symbol
  }

  /** The position left under the order's own account and symbol. */
  function Written(held: Option<Position>, intent: Intent, price: real): Option<Position>
    requires intent.quantity > 0.0 && (held.Some? ==> held.value.quantity > 0.0)
  {
    match held
    case None => if intent.side.Buy? then Some(Opened(intent, price)) else None
    case Some(p) =>
      if intent.side.Buy? then Some(Added(p, intent, price))
      else if p.quantity == intent.quantity then None
      else Some(Reduced(p, intent, price))
  }

  lemma UpdateMembers(ps: seq<Position>, i: nat, q: Position, p: Position)
    requires i < |ps| && p != ps[i] && p != q
    ensures p in ps <==> p in ps[i := q]
  {
    if p in ps {
      var j :| 0 <= j < |ps| && ps[j] == p;
      assert ps[i := q][j] == p;
    }
  }

  lemma RemoveMembers(ps: seq<Position>, i: nat, p: Position)
    requires i < |ps| && p != ps[i]
    ensures p in ps <==> p in ps[..i] + ps[i + 1..]
  {
    assert ps == ps[..i] + [ps[i]] + ps[i + 1..];
  }

  /** A write leaves the positions of every other account and symbol where they are. */
  lemma WriteMembers(ps: seq<Position>, intent: Intent, price: real, p: Position)
    requires PositionsOk(ps) && intent.quantity > 0.0 && !IsFor(p, intent.account, intent.symbol)
    requires intent.side.Sell? ==> FindPosition(ps, intent.account, intent.symbol).Some?
    ensures p in ps <==> p in WritePosition(ps, intent, price)
  {
    match FindPosition(ps, intent.account, intent.symbol)
    case None =>
    case Some(i) =>
      assert PositionOk(ps[i]);
      if intent.side.Buy? {
        UpdateMembers(ps, i, Added(ps[i], intent, price), p);
      } else if ps[i].quantity == intent.quantity {
        RemoveMembers(ps, i, p);
      } else {
        UpdateMembers(ps, i, Reduced(ps[i], intent, price), p);
      }
  }

  lemma WriteLookupOther(ps: seq<Position>, intent: Intent, price: real, k: AccountId, symbol: string)
    requires PositionsOk(ps) && intent.quantity > 0.0 && !WritesTo(intent, k, symbol)
    requires intent.side.Sell? ==> FindPosition(ps, intent.account, intent.symbol).Some?
    requires PositionsOk(WritePosition(ps, intent, price))
    ensures Lookup(WritePosition(ps, intent, price), k, symbol) == Lookup(ps, k, symbol)
  {
    forall p: Position | IsFor(p, k, symbol) ensures p in ps <==> p in WritePosition(ps, intent, price) {
      WriteMembers(ps, intent, price, p);
    }
    SameMembersSameLookup(ps, WritePosition(ps, intent, price), k, symbol);
  }

  lemma WriteLookupSame(ps: seq<Position>, intent: Intent, price: real)
    requires PositionsOk(ps) && intent.quantity > 0.0
    requires intent.side.Sell? ==> FindPosition(ps, intent.account, intent.symbol).Some?
    requires PositionsOk(WritePosition(ps, intent, price))
    ensures Lookup(WritePosition(ps, intent, price), intent.account, intent.symbol)
            == Written(Lookup(ps, intent.account, intent.symbol), intent, price)
  {
    var qs := WritePosition(ps, intent, price);
    match FindPosition(ps, intent.account, intent.symbol)
    case None => FindUnique(qs, |ps|);
    case Some(i) =>
      if intent.side.Sell? && ps[i].quantity == intent.quantity {
        forall j | 0 <= j < |qs| ensures !IsFor(qs[j], intent.account, intent.symbol) {
          assert qs[j] == ps[if j < i then j else j + 1];
        }
      } else {
        FindUnique(qs, i);
      }
  }

  // ---- The trade log replayed ----

  /** Net quantity, and the BUY prices since the net was last zero. */
  datatype Holding = Holding(net: real, fills: seq<real>)

  function Replay(ts: seq<Trade>, k: AccountId, symbol: string): Holding {
    if |ts| == 0 then Holding(0.0, [])
    else
      var before := Replay(ts[..|ts| - 1], k, symbol);
      var t := ts[|ts| - 1];
      if t.account != k || t.symbol != symbol then before
      else if t.side.Buy? then Holding(before.net + t.quantity, before.fills + [t.price])
      else Holding(before.net - t.quantity, if before.net == t.quantity then [] else before.fills)
  }

  lemma ReplayAppend(ts: seq<Trade>, t: Trade, k: AccountId, symbol: string)
    ensures var before := Replay(ts, k, symbol);
            Replay(ts + [t], k, symbol) ==
            if t.account != k || t.symbol != symbol then before
            else if t.side.Buy? then Holding(before.net + t.quantity, before.fills + [t.price])
            else Holding(before.net - t.quantity, if before.net == t.quantity then [] else before.fills)
  {
    assert (ts + [t])[..|ts|] == ts;
  }

  /** Not below every fill and not above every fill. */
  ghost predicate Between(fills: seq<real>, x: real) {
    && (exists i :: 0 <= i < |fills| && fills[i] <= x)
    && (exists i :: 0 <= i < |fills| && x <= fills[i])
  }

  ghost predicate MatchesLog(b: Book, k: AccountId, symbol: string) {
    var log := Replay(b.trades, k, symbol);
    match Lookup(b.positions, k, symbol)
    case None => log == Holding(0.0, [])
    case Some(p) => p.quantity == log.net && Between(log.fills, p.averageCost)
  }

  ghost predicate LogExplainsPositions(b: Book) {
    forall k: AccountId, symbol: string :: MatchesLog(b, k, symbol)
  }

  /** A point that splits two others in inverse proportion to two weights lies between them. */
  lemma WeightedBetween(held: real, price: real, q: real, n: real, a: real)
    requires q > 0.0 && n > 0.0 && (q + n) * a == q * held + price * n
    ensures (held <= a <= price) || (price <= a <= held)
  {
    assert (a - held) * (q + n) == (price - held) * n;
    assert (price - a) * (q + n) == (price - held) * q;
    SignOfProduct((a - held) * (q + n), a - held, q + n);
    SignOfProduct((held - a) * (q + n), held - a, q + n);
    SignOfProduct((price - a) * (q + n), price - a, q + n);
    SignOfProduct((a - price) * (q + n), a - price, q + n);
    SignOfProduct((price - held) * n, price - held, n);
    SignOfProduct((held - price) * n, held - price, n);
    SignOfProduct((price - held) * q, price - held, q);
    SignOfProduct((held - price) * q, held - price, q);
    Negate(a - held, q + n);
    Negate(price - a, q + n);
    Negate(price - held, n);
    Negate(price - held, q);
  }

  /** The new average lies between the old average and the price paid. */
  lemma AverageBetween(p: Position, intent: Intent, price: real)
    requires p.quantity > 0.0 && intent.quantity > 0.0
    ensures var a := Added(p, intent, price).averageCost;
            (p.averageCost <= a <= price) || (price <= a <= p.averageCost)
  {
    AveragingKeepsCost(p, intent, price);
    WeightedBetween(p.averageCost, price, p.quantity, intent.quantity, Added(p, intent, price).averageCost);
  }

  lemma BetweenAppend(fills: seq<real>, price: real, held: real, x: real)
    requires (Between(fills, held) && ((held <= x <= price) || (price <= x <= held))) || x == price
    ensures Between(fills + [price], x)
  {
    var more := fills + [price];
    assert more[|fills|] == price;
    if x != price {
      var i :| 0 <= i < |fills| && fills[i] <= held;
      var j :| 0 <= j < |fills| && held <= fills[j];
      assert more[i] == fills[i] && more[j] == fills[j];
    }
  }

  /** The book once the position and the trade are written. */
  function Booked(b: Book, id: nat, price: real, at: int): Book
    requires WellFormed(b) && id in b.orders && Covered(b, b.orders[id].intent, price)
  {
    var intent := b.orders[id].intent;
    b.(positions := WritePosition(b.positions, intent, price), trades := b.trades + [BookedTrade(b, id, intent, price, at)])
  }

  lemma OtherLogKept(b: Book, id: nat, price: real, at: int, k: AccountId, symbol: string)
    requires WellFormed(b) && id in b.orders && Covered(b, b.orders[id].intent, price)
    requires MatchesLog(b, k, symbol) && !WritesTo(b.orders[id].intent, k, symbol)
    ensures MatchesLog(Booked(b, id, price, at), k, symbol)
  {
    var intent := b.orders[id].intent;
    WriteKeepsPositionsOk(b.positions, intent, price, b.accounts.Keys);
    ReplayAppend(b.trades, BookedTrade(b, id, intent, price, at), k, symbol);
    WriteLookupOther(b.positions, intent, price, k, symbol);
  }

  lemma OwnLogKept(b: Book, id: nat, price: real, at: int)
    requires WellFormed(b) && id in b.orders && Covered(b, b.orders[id].intent, price)
    requires MatchesLog(b, b.orders[id].intent.account, b.orders[id].intent.symbol)
    ensures MatchesLog(Booked(b, id, price, at), b.orders[id].intent.account, b.orders[id].intent.symbol)
  {
    var intent := b.orders[id].intent;
    WriteKeepsPositionsOk(b.positions, intent, price, b.accounts.Keys);
    ReplayAppend(b.trades, BookedTrade(b, id, intent, price, at), intent.account, intent.symbol);
    WriteLookupSame(b.positions, intent, price);
    WrittenMatches(Lookup(b.positions, intent.account, intent.symbol), intent, price, Replay(b.trades, intent.account, intent.symbol));
  }

  lemma FillKeepsLog(b: Book, id: nat, price: real, at: int, fault: Fault, k: AccountId, symbol: string)
    requires WellFormed(b) && id in b.orders && Covered(b, b.orders[id].intent, price)
    requires MatchesLog(b, k, symbol) && !fault.AtTrade?
    ensures MatchesLog(AfterFill(b, id, price, at, fault), k, symbol)
  {
    if !fault.AtPosition? {
      if WritesTo(b.orders[id].intent, k, symbol) {
        OwnLogKept(b, id, price, at);
      } else {
        OtherLogKept(b, id, price, at, k, symbol);
      }
      var after, booked := AfterFill(b, id, price, at, fault), Booked(b, id, price, at);
      assert after.positions == booked.positions && after.trades == booked.trades;
    }
  }

  /** The written position against the log entry the fill adds. */
  lemma WrittenMatches(held: Option<Position>, intent: Intent, price: real, log: Holding)
    requires intent.quantity > 0.0 && (held.Some? ==> PositionOk(held.value))
    requires intent.side.Sell? ==> held.Some? && held.value.quantity >= intent.quantity
    requires match held case None => log == Holding(0.0, []) case Some(p) => p.quantity == log.net && Between(log.fills, p.averageCost)
    ensures var log' := if intent.side.Buy? then Holding(log.net + intent.quantity, log.fills + [price])
                        else Holding(log.net - intent.quantity, if log.net == intent.quantity then [] else log.fills);
            match Written(held, intent, price)
            case None => log' == Holding(0.0, [])
            case Some(p) => p.quantity == log'.net && Between(log'.fills, p.averageCost)
  {
    if intent.side.Buy? {
      if held.Some? {
        AverageBetween(held.value, intent, price);
        BetweenAppend(log.fills, price, held.value.averageCost, Added(held.value, intent, price).averageCost);
      } else {
        BetweenAppend(log.fills, price, price, price);
      }
    }
  }

  lemma ExecuteKeepsLog(b: Book, id: nat, requester: Option<string>, ltp: Option<real>, at: int, fault: Fault)
    requires WellFormed(b) && LogExplainsPositions(b) && !fault.AtTrade?
    ensures LogExplainsPositions(Execute(b, id, requester, ltp, at, fault).0)
  {
    var after := Execute(b, id, requester, ltp, at, fault).0;
    forall k: AccountId, symbol: string ensures MatchesLog(after, k, symbol) {
      assert MatchesLog(b, k, symbol);
      if Fills(b, id, requester, ltp, fault) {
        FillKeepsLog(b, id, ltp.value, at, fault, k, symbol);
      }
    }
  }

  lemma SameLog(b: Book, b': Book)
    requires LogExplainsPositions(b) && b'.positions == b.positions && b'.trades == b.trades
    ensures LogExplainsPositions(b')
  {
    forall k: AccountId, symbol: string ensures MatchesLog(b', k, symbol) {
      assert MatchesLog(b, k, symbol);
    }
  }

  lemma {:induction false} ReplayWithout(ts: seq<Trade>, k: AccountId, j: AccountId, symbol: string)
    ensures Replay(TradesWithout(ts, k), j, symbol) == if j == k then Holding(0.0, []) else Replay(ts, j, symbol)
  {
    if |ts| > 0 {
      ReplayWithout(ts[..|ts| - 1], k, j, symbol);
      if ts[|ts| - 1].account != k {
        ReplayAppend(TradesWithout(ts[..|ts| - 1], k), ts[|ts| - 1], j, symbol);
      }
    }
  }

  lemma {:induction false} MembersWithout(ps: seq<Position>, k: AccountId, p: Position)
    ensures p in Without(ps, k) <==> p in ps && p.account != k
  {
    if |ps| > 0 {
      MembersWithout(ps[1..], k, p);
      assert ps == [ps[0]] + ps[1..];
    }
  }

  lemma ResetKeepsLog(b: Book, k: AccountId, fault: ResetFault)
    requires WellFormed(b) && LogExplainsPositions(b) && fault.positionsKept == fault.tradesKept
    ensures LogExplainsPositions(Reset(b, k, fault))
  {
    var after := Reset(b, k, fault);
    WithoutKeepsPositionsOk(b.positions, k);
    forall j: AccountId, symbol: string ensures MatchesLog(after, j, symbol) {
      assert MatchesLog(b, j, symbol);
      ReplayWithout(b.trades, k, j, symbol);
      if j != k && !fault.positionsKept {
        forall p: Position | IsFor(p, j, symbol) ensures p in b.positions <==> p in after.positions {
          MembersWithout(b.positions, k, p);
        }
        SameMembersSameLookup(b.positions, after.positions, j, symbol);
      }
    }
  }

  lemma RefreshKeepsLog(b: Book, user: string, quotes: map<(string, string), real>)
    requires WellFormed(b) && LogExplainsPositions(b)
    ensures LogExplainsPositions(Refresh(b, user, quotes))
  {
    var after := Refresh(b, user, quotes);
    RefreshKeepsWellFormed(b, user, quotes);
    forall k: AccountId, symbol: string ensures MatchesLog(after, k, symbol) {
      assert MatchesLog(b, k, symbol);
      var found := FindPosition(b.positions, k, symbol);
      if found.Some? {
        assert IsFor(after.positions[found.value], k, symbol);
        FindUnique(after.positions, found.value);
      } else {
        assert forall i :: 0 <= i < |after.positions| ==> !IsFor(b.positions[i], k, symbol);
      }
    }
  }

  lemma PlaceKeepsLog(b: Book, intent: Intent, env: PlaceEnv)
    requires WellFormed(b) && LogExplainsPositions(b) && intent.quantity >= 1.0 && !env.fault.AtTrade?
    ensures LogExplainsPositions(Place(b, intent, env).0)
  {
    var b0 := Ensure(b, intent.account, DEFAULT_CAPITAL);
    var b1 := InsertOrder(b0, intent);
    EnsureKeepsWellFormed(b, intent.account, DEFAULT_CAPITAL);
    InsertKeepsWellFormed(b0, intent);
    SameLog(b, b0);
    SameLog(b, b1);
    SameLog(b, SetOrder(b1, b0.nextOrder, Rejected, None));
    ExecuteKeepsLog(b1, b0.nextOrder, None, env.fillLtp, env.at, env.fault);
  }

  lemma {:induction false} SquareOffKeepsLog(b: Book, listed: seq<Position>, envs: nat -> FlattenEnv, n: nat)
    requires WellFormed(b) && LogExplainsPositions(b) && Flattenable(b, listed) && n <= |listed|
    requires forall i: nat :: !envs(i).fault.AtTrade?
    ensures LogExplainsPositions(SquareOffTo(b, listed, envs, n).0)
  {
    if n > 0 {
      SquareOffKeepsLog(b, listed, envs, n - 1);
      var before := SquareOffTo(b, listed, envs, n - 1).0;
      var intent := FlattenIntent(listed[n - 1]);
      InsertKeepsWellFormed(before, intent);
      SameLog(before, InsertOrder(before, intent));
      ExecuteKeepsLog(InsertOrder(before, intent), before.nextOrder, None,
                      envs(n - 1).ltp, envs(n - 1).at, envs(n - 1).fault);
    }
  }

  ghost predicate BooksItsTrades(op: Op) {
    match op
    case OpPlace(_, env) => !env.fault.AtTrade?
    case OpExecute(_, _, _, _, fault) => !fault.AtTrade?
    case OpReset(_, fault) => fault.positionsKept == fault.tradesKept
    case OpSquareOff(envs) => forall i: nat :: !envs(i).fault.AtTrade?
    case _ => true
  }

  lemma {:induction false} AfterOpsLog(ops: seq<Op>)
    requires forall i :: 0 <= i < |ops| ==> Valid(ops[i]) && BooksItsTrades(ops[i])
    ensures LogExplainsPositions(AfterOps(EMPTY_BOOK, ops))
  {
    if |ops| > 0 {
      var before := AfterOps(EMPTY_BOOK, ops[..|ops| - 1]);
      AfterOpsLog(ops[..|ops| - 1]);
      match ops[|ops| - 1]
      case OpOpen(k, capital) => SameLog(before, Ensure(before, k, capital));
      case OpReset(k, fault) => ResetKeepsLog(before, k, fault);
      case OpPlace(intent, env) => PlaceKeepsLog(before, intent, env);
      case OpExecute(id, requester, ltp, at, fault) => ExecuteKeepsLog(before, id, requester, ltp, at, fault);
      case OpRefresh(user, quotes) => RefreshKeepsLog(before, user, quotes);
      case OpSquareOff(envs) => SquareOffKeepsLog(before, before.positions, envs, |before.positions|);
    }
  }

  /**
   * Over every sequential run without a failed trade insert and without a reset
   * that deletes only one of positions and trades, what is held of a
   * symbol is what the trades since the last reset bought less what they sold,
   * positive exactly when a position exists, and the position's average cost
   * lies between the lowest and the highest BUY fill since it was opened.
   */
  lemma PositionsFollowTrades(ops: seq<Op>, k: AccountId, symbol: string)
    requires forall i :: 0 <= i < |ops| ==> Valid(ops[i]) && BooksItsTrades(ops[i])
    ensures var b := AfterOps(EMPTY_BOOK, ops); var log := Replay(b.trades, k, symbol); var held := Lookup(b.positions, k, symbol);
            && (held.Some? <==> log.net > 0.0)
            && (held.None? ==> log.net == 0.0)
            && (held.Some? ==> held.value.quantity == log.net && Between(log.fills, held.value.averageCost))
  {
    AfterOpsLog(ops);
    var b := AfterOps(EMPTY_BOOK, ops);
    assert MatchesLog(b, k, symbol);
    if Lookup(b.positions, k, symbol).Some? {
      assert PositionOk(b.positions[FindPosition(b.positions, k, symbol).value]);
    }
  }
}
