/** Marking to market: what a refresh writes, and how account value follows the quotes. */
module Marks {
  import opened Sums
  import opened Records
  import opened Ledger
  import opened BookValue

  type Quotes = map<(string, string), real>   // by symbol and exchange

  /** A quote arrived for this position of the user. */
  predicate Quoted(p: Position, user: string, quotes: Quotes) {
    p.account.user == user && (p.symbol, p.account.exchange) in quotes
  }

  /**
   * Every quoted position of the user is marked at its quote, with the
   * unrealised P&L that follows; every other one, and everything else in the
   * book, is as it was.
   */
  lemma RefreshWrites(b: Book, user: string, quotes: Quotes, i: nat)
    requires i < |b.positions|
    ensures var after := Refresh(b, user, quotes);
            && after.accounts == b.accounts && after.orders == b.orders && after.nextOrder == b.nextOrder && after.trades == b.trades
            && |after.positions| == |b.positions|
            && var p, q := b.positions[i], after.positions[i];
               if Quoted(p, user, quotes)
               then var quote := quotes[(p.symbol, p.account.exchange)];
                    q == Position(p.account, p.symbol, p.quantity, p.averageCost, quote, (quote - p.averageCost) * p.quantity, p.stopLoss)
               else q == p
  {
  }

  /** What the quotes add to the value of an account's position: quantity times quote less old mark. */
  function Repricing(k: AccountId, user: string, quotes: Quotes): Position -> real {
    (p: Position) =>
      if p.account == k && Quoted(p, user, quotes)
      then p.quantity * (quotes[(p.symbol, p.account.exchange)] - p.currentPrice) else 0.0
  }

  lemma MarkMoves(p: Position, q: Position, user: string, quotes: Quotes, k: AccountId)
    requires PositionOk(p) && q == Marked(p, user, quotes)
    ensures MarketValue(k)(q) == MarketValue(k)(p) + Repricing(k, user, quotes)(p)
    ensures Unrealised(k)(q) == Unrealised(k)(p) + Repricing(k, user, quotes)(p)
  {
    if Quoted(p, user, quotes) {
      var quote := quotes[(p.symbol, p.account.exchange)];
      assert p.quantity * quote == p.quantity * p.currentPrice + p.quantity * (quote - p.currentPrice);
      assert (quote - p.averageCost) * p.quantity == (p.currentPrice - p.averageCost) * p.quantity + p.quantity * (quote - p.currentPrice);
    }
  }

  /** Sums over two position lists whose terms differ by a third measure of the first. */
  lemma {:induction false} SumMoves(ps: seq<Position>, qs: seq<Position>, f: Position -> real, d: Position -> real)
    requires |ps| == |qs| && forall i :: 0 <= i < |ps| ==> f(qs[i]) == f(ps[i]) + d(ps[i])
    ensures Sum(qs, f) == Sum(ps, f) + Sum(ps, d)
  {
    if |ps| > 0 {
      forall i | 0 <= i < |ps[1..]| ensures f(qs[1..][i]) == f(ps[1..][i]) + d(ps[1..][i]) {
        assert ps[1..][i] == ps[i + 1] && qs[1..][i] == qs[i + 1];
      }
      SumMoves(ps[1..], qs[1..], f, d);
    }
  }

  /** A refresh moves account value, unrealised and total P&L all by the repricing of what is held, and realised P&L not at all. */
  lemma RefreshMovesValue(b: Book, user: string, quotes: Quotes, k: AccountId)
    requires WellFormed(b) && k in b.accounts
    ensures var before, after := View(b, k), View(Refresh(b, user, quotes), k);
            var moved := Sum(b.positions, Repricing(k, user, quotes));
            && after.totalValue == before.totalValue + moved
            && after.unrealisedPnl == before.unrealisedPnl + moved
            && after.totalPnl == before.totalPnl + moved
  {
    var qs := Refresh(b, user, quotes).positions;
    forall i | 0 <= i < |b.positions|
      ensures MarketValue(k)(qs[i]) == MarketValue(k)(b.positions[i]) + Repricing(k, user, quotes)(b.positions[i])
      ensures Unrealised(k)(qs[i]) == Unrealised(k)(b.positions[i]) + Repricing(k, user, quotes)(b.positions[i])
    {
      MarkMoves(b.positions[i], qs[i], user, quotes, k);
    }
    SumMoves(b.positions, qs, MarketValue(k), Repricing(k, user, quotes));
    SumMoves(b.positions, qs, Unrealised(k), Repricing(k, user, quotes));
  }

  /** What an account's position is worth at its quote. */
  function AtQuote(k: AccountId, quotes: Quotes): Position -> real {
    (p: Position) =>
      if p.account == k && (p.symbol, p.account.exchange) in quotes then p.quantity * quotes[(p.symbol, p.account.exchange)] else 0.0
  }

  /** With every symbol quoted, account value no longer depends on any old mark: it is cash plus holdings at the quotes. */
  lemma FullyQuotedValue(b: Book, quotes: Quotes, k: AccountId)
    requires k in b.accounts
    requires forall i :: 0 <= i < |b.positions| && b.positions[i].account == k ==> (b.positions[i].symbol, k.exchange) in quotes
    ensures View(Refresh(b, k.user, quotes), k).totalValue == b.accounts[k].cash + Sum(b.positions, AtQuote(k, quotes))
  {
    var qs := Refresh(b, k.user, quotes).positions;
    forall i | 0 <= i < |b.positions| ensures MarketValue(k)(qs[i]) == AtQuote(k, quotes)(b.positions[i]) {
      RefreshWrites(b, k.user, quotes, i);
    }
    SumMatch(qs, MarketValue(k), b.positions, AtQuote(k, quotes));
  }

  /** Two refreshes are one with the newer quotes in front: a symbol that could not be priced again keeps its last mark. */
  lemma LastQuoteWins(b: Book, user: string, first: Quotes, second: Quotes)
    ensures Refresh(Refresh(b, user, first), user, second) == Refresh(b, user, first + second)
  {
    forall i | 0 <= i < |b.positions|
      ensures Refresh(Refresh(b, user, first), user, second).positions[i] == Refresh(b, user, first + second).positions[i]
    {
      RefreshWrites(b, user, first, i);
      RefreshWrites(Refresh(b, user, first), user, second, i);
      RefreshWrites(b, user, first + second, i);
    }
    assert Refresh(Refresh(b, user, first), user, second).positions == Refresh(b, user, first + second).positions;
  }
}
