/**
 * LIMIT orders are checked against the limits when they are placed and not
 * again when they fill, so a run can open any number of positions.
 */
module LimitFills {
  import opened Wrappers
  import opened Sums
  import opened Records
  import opened Ledger
  import opened BookValue
  import opened RiskLimits
  import opened Trading

  const ALICE := AccountId("alice", "NSE")

  /** A different symbol for every number. */
  function Ticker(i: nat): string { seq(i, _ => 'A') }

  /** A resting BUY of one share at a limit of one rupee. */
  function LimitBuy(i: nat): Intent {
    Intent(ALICE, Ticker(i), Buy, Limit, 1.0, Some(1.0), None, None)
  }

  const QUIET := PlaceEnv(false, false, None, 0, None, 0, NoFault)

  /** `n` orders placed and the first `m` of them filled. */
  function Stage(n: nat, m: nat): Book {
    Book(map[ALICE := Account(DEFAULT_CAPITAL, DEFAULT_CAPITAL - m as real, 0.0)],
         seq(m, i requires 0 <= i < m => Opened(LimitBuy(i), 1.0)),
         map id: nat | id < n :: Order(LimitBuy(id), if id < m then Executed else Pending, if id < m then Some(1.0) else None),
         n,
         seq(m, i requires 0 <= i < m => Trade(i, ALICE, Ticker(i), Buy, 1.0, 1.0, 0.0, 0)))
  }

  lemma NotHeldYet(n: nat, m: nat, i: nat)
    requires m <= i
    ensures FindPosition(Stage(n, m).positions, ALICE, Ticker(i)).None?
  {
    var found := FindPosition(Stage(n, m).positions, ALICE, Ticker(i));
    assert forall j: nat :: j < m ==> |Ticker(j)| != |Ticker(i)|;
  }

  lemma StageWellFormed(n: nat, m: nat)
    requires m <= n
    ensures WellFormed(Stage(n, m))
  {
    var ps := Stage(n, m).positions;
    forall i | 0 <= i < m ensures PositionOk(ps[i]) {
      assert (1.0 - 1.0) * 1.0 == 0.0;
    }
    forall i, j | 0 <= i < j < m ensures ps[i].symbol != ps[j].symbol {
      assert |Ticker(i)| != |Ticker(j)|;
    }
  }

  /** With nothing open, the gate passes every such order: one position, a risk of five paise. */
  lemma GatePasses(n: nat, intent: Intent)
    requires intent == LimitBuy(n)
    ensures Gate(InsertOrder(Stage(n, 0), intent), intent, None, 0).None?
  {
    var b := InsertOrder(Stage(n, 0), intent);
    assert b.positions == [] && b.trades == [];
    assert PositionRisk(1.0, 1.0, None) == 0.05;
    assert Pct(0.05, DEFAULT_CAPITAL) == 0.00005;
    assert StateFrom(b, ALICE, 0, Some(Prospective(intent, 1.0))).blocked.None?;
  }

  lemma PlaceOne(n: nat)
    requires n > 0
    ensures WellFormed(Stage(n - 1, 0)) && Place(Stage(n - 1, 0), LimitBuy(n - 1), QUIET).0 == Stage(n, 0)
  {
    var b, intent := Stage(n - 1, 0), LimitBuy(n - 1);
    StageWellFormed(n - 1, 0);
    InsertKeepsWellFormed(b, intent);
    GatePasses(n - 1, intent);
    assert InsertOrder(b, intent).orders == Stage(n, 0).orders;
    assert InsertOrder(b, intent) == Stage(n, 0);
  }

  lemma RoomForOne(m: nat)
    requires m as real < DEFAULT_CAPITAL
    ensures DEFAULT_CAPITAL - m as real >= 1.0
  {
    assert m + 1 <= 100_000;
  }

  lemma Affordable(n: nat, m: nat)
    requires m < n && m as real < DEFAULT_CAPITAL
    ensures Covered(Stage(n, m), LimitBuy(m), 1.0)
  {
    RoomForOne(m);
    assert 1.0 * LimitBuy(m).quantity == 1.0;
  }

  lemma Fillable(n: nat, m: nat)
    requires m < n && m as real < DEFAULT_CAPITAL
    ensures Fills(Stage(n, m), m, Some("alice"), Some(1.0), NoFault)
  {
    Affordable(n, m);
    assert Stage(n, m).orders[m] == Order(LimitBuy(m), Pending, None);
  }

  lemma FillPays(n: nat, m: nat)
    requires m < n
    ensures MoveCash(Stage(n, m), LimitBuy(m), 1.0).accounts == Stage(n, m + 1).accounts
    ensures BookedTrade(Stage(n, m), m, LimitBuy(m), 1.0, 0) == Trade(m, ALICE, Ticker(m), Buy, 1.0, 1.0, 0.0, 0)
  {
    assert 1.0 * LimitBuy(m).quantity == 1.0;
  }

  lemma FillOpens(n: nat, m: nat)
    requires m < n
    ensures WellFormed(Stage(n, m))
    ensures WritePosition(Stage(n, m).positions, LimitBuy(m), 1.0) == Stage(n, m + 1).positions
  {
    StageWellFormed(n, m);
    NotHeldYet(n, m, m);
  }

  lemma FillOne(n: nat, m: nat)
    requires m < n && m as real < DEFAULT_CAPITAL
    ensures WellFormed(Stage(n, m))
    ensures Execute(Stage(n, m), m, Some("alice"), Some(1.0), 0, NoFault).0 == Stage(n, m + 1)
  {
    Fillable(n, m);
    FillPays(n, m);
    FillOpens(n, m);
    var b := Stage(n, m);
    assert b.orders[m := Order(LimitBuy(m), Executed, Some(1.0))] == Stage(n, m + 1).orders;
    assert b.trades + [Trade(m, ALICE, Ticker(m), Buy, 1.0, 1.0, 0.0, 0)] == Stage(n, m + 1).trades;
  }

  /** Every order placed is a LIMIT order. */
  predicate PlacesLimits(ops: seq<Op>) {
    forall i :: 0 <= i < |ops| && ops[i].OpPlace? ==> ops[i].intent.kind.Limit?
  }

  /** These operations are all valid, place LIMIT orders only and lead from the empty book to this one. */
  ghost predicate LeadsTo(ops: seq<Op>, b: Book) {
    (forall i :: 0 <= i < |ops| ==> Valid(ops[i])) && PlacesLimits(ops) && AfterOps(EMPTY_BOOK, ops) == b
  }

  lemma OneMoreOp(ops: seq<Op>, b: Book, op: Op, b': Book)
    requires LeadsTo(ops, b) && Valid(op) && PlacesLimits([op]) && WellFormed(b) && ApplyOp(b, op) == b'
    ensures LeadsTo(ops + [op], b')
  {
    assert (ops + [op])[..|ops|] == ops && [op][0] == op;
  }

  lemma PlaceOp(n: nat) returns (op: Op)
    requires n > 0
    ensures Valid(op) && PlacesLimits([op]) && WellFormed(Stage(n - 1, 0)) && ApplyOp(Stage(n - 1, 0), op) == Stage(n, 0)
  {
    var intent, b, b' := LimitBuy(n - 1), Stage(n - 1, 0), Stage(n, 0);
    PlaceOne(n);
    assert Place(b, intent, QUIET).0 == b';
    op := OpPlace(intent, QUIET);
  }

  lemma OneMorePlacement(ops: seq<Op>, n: nat) returns (ops': seq<Op>)
    requires n > 0 && LeadsTo(ops, Stage(n - 1, 0))
    ensures LeadsTo(ops', Stage(n, 0))
  {
    var op := PlaceOp(n);
    ops' := ops + [op];
    OneMoreOp(ops, Stage(n - 1, 0), op, Stage(n, 0));
  }

  lemma OneMoreFill(ops: seq<Op>, n: nat, m: nat) returns (ops': seq<Op>)
    requires 0 < m <= n && m as real <= DEFAULT_CAPITAL && LeadsTo(ops, Stage(n, m - 1))
    ensures LeadsTo(ops', Stage(n, m))
  {
    FillOne(n, m - 1);
    ops' := ops + [OpExecute(m - 1, Some("alice"), Some(1.0), 0, NoFault)];
    OneMoreOp(ops, Stage(n, m - 1), OpExecute(m - 1, Some("alice"), Some(1.0), 0, NoFault), Stage(n, m));
  }

  lemma AccountOpened()
    ensures LeadsTo([OpOpen(ALICE, DEFAULT_CAPITAL)], Stage(0, 0))
  {
    assert Ensure(EMPTY_BOOK, ALICE, DEFAULT_CAPITAL).accounts == Stage(0, 0).accounts;
    assert Ensure(EMPTY_BOOK, ALICE, DEFAULT_CAPITAL).orders == Stage(0, 0).orders;
    assert LeadsTo([], EMPTY_BOOK);
    OneMoreOp([], EMPTY_BOOK, OpOpen(ALICE, DEFAULT_CAPITAL), Stage(0, 0));
    assert [] + [OpOpen(ALICE, DEFAULT_CAPITAL)] == [OpOpen(ALICE, DEFAULT_CAPITAL)];
  }

  lemma {:induction false} PlacesReach(n: nat) returns (ops: seq<Op>)
    ensures LeadsTo(ops, Stage(n, 0))
  {
    if n == 0 {
      ops := [OpOpen(ALICE, DEFAULT_CAPITAL)];
      AccountOpened();
    } else {
      ops := PlacesReach(n - 1);
      ops := OneMorePlacement(ops, n);
    }
  }

  lemma {:induction false} FillsReach(n: nat, m: nat) returns (ops: seq<Op>)
    requires m <= n && m as real <= DEFAULT_CAPITAL
    ensures LeadsTo(ops, Stage(n, m))
  {
    if m == 0 {
      ops := PlacesReach(n);
    } else {
      ops := FillsReach(n, m - 1);
      ops := OneMoreFill(ops, n, m);
    }
  }

  lemma {:induction false} AllCounted(ps: seq<Position>)
    requires forall i :: 0 <= i < |ps| ==> ps[i].account == ALICE
    ensures Sum(ps, Count(ALICE)) == |ps| as real
  {
    if |ps| > 0 {
      AllCounted(ps[1..]);
    }
  }

  /** For every number of positions the capital can pay for, a run of LIMIT orders reaches it. */
  lemma LimitFillsPassTheCap(n: nat) returns (ops: seq<Op>)
    requires n as real <= DEFAULT_CAPITAL
    ensures (forall i :: 0 <= i < |ops| ==> Valid(ops[i])) && PlacesLimits(ops)
    ensures OpenPositions(AfterOps(EMPTY_BOOK, ops), ALICE) == n as real
  {
    ops := FillsReach(n, n);
    AllCounted(Stage(n, n).positions);
  }
}
