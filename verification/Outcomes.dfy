/** Evaluated signals: matching outcomes to signals by id, and sorting them into buckets. */
module Outcomes {
  import opened Wrappers
  import opened Sums
  import opened Arithmetic
  import opened Rounding

  datatype Kind = TargetHit | StopHit | Open | NoData

  /** One row of the evaluator's response; an empty id is no id. */
  datatype Row = Row(id: Option<string>, kind: Kind, exitPrice: Option<real>, pnlPct: Option<real>)

  datatype SignalOutcome = SignalOutcome(kind: Kind, exitPrice: Option<real>, pnlPct: real)

  datatype Evaluated = Evaluated(symbol: string, confidence: real, kind: Kind, pnlPct: real)

  // ---- Rows to outcomes ----

  predicate Named(r: Row, id: string) {
    r.id == Some(id) && id != ""
  }

  function OutcomeIn(r: Row): SignalOutcome {
    SignalOutcome(r.kind, r.exitPrice, r.pnlPct.GetOr(0.0))
  }

  /** What a signal is paired with: the last row naming it, wherever it stands. */
  function OutcomeFor(rows: seq<Row>, id: string): Option<SignalOutcome> {
    if |rows| == 0 then None
    else if Named(rows[|rows| - 1], id) then Some(OutcomeIn(rows[|rows| - 1]))
    else OutcomeFor(rows[..|rows| - 1], id)
  }

  function At(m: map<string, SignalOutcome>, id: string): Option<SignalOutcome> {
    if id in m then Some(m[id]) else None
  }

  /** Row `i` names the signal and no later one does. */
  predicate LastNaming(rows: seq<Row>, id: string, i: nat) {
    i < |rows| && Named(rows[i], id) && forall j :: i < j < |rows| ==> !Named(rows[j], id)
  }

  /** The row's own figures: a missing exit price stays missing, a missing P&L counts as zero. */
  predicate Carries(o: SignalOutcome, r: Row) {
    o.kind == r.kind && o.exitPrice == r.exitPrice && if r.pnlPct.Some? then o.pnlPct == r.pnlPct.value else o.pnlPct == 0.0
  }

  lemma LastNamingKept(before: seq<Row>, last: Row, id: string, i: nat)
    requires LastNaming(before, id, i) && !Named(last, id)
    ensures LastNaming(before + [last], id, i) && (before + [last])[i] == before[i]
  {
  }

  /** A signal is paired with the figures of the last row naming it, and with nothing exactly when no row does. */
  lemma {:induction false} PairedWithLastRow(rows: seq<Row>, id: string) returns (i: nat)
    ensures OutcomeFor(rows, id).None? <==> forall r :: r in rows ==> !Named(r, id)
    ensures OutcomeFor(rows, id).Some? ==> LastNaming(rows, id, i) && Carries(OutcomeFor(rows, id).value, rows[i])
  {
    i := 0;
    if |rows| > 0 {
      var before, last := rows[..|rows| - 1], rows[|rows| - 1];
      assert rows == before + [last];
      if Named(last, id) {
        i := |rows| - 1;
      } else {
        i := PairedWithLastRow(before, id);
        if OutcomeFor(before, id).Some? {
          LastNamingKept(before, last, id, i);
        }
      }
    }
  }

  method IndexOutcomes(rows: seq<Row>) returns (byId: map<string, SignalOutcome>)
    ensures forall id :: At(byId, id) == OutcomeFor(rows, id)
  {
    byId := map[];
    var i := 0;
    while i < |rows|
      invariant 0 <= i <= |rows|
      invariant forall id :: At(byId, id) == OutcomeFor(rows[..i], id)
    {
      var r := rows[i];
      assert rows[..i + 1][..i] == rows[..i];
      if r.id.Some? && r.id.value != "" {
        byId := byId[r.id.value := OutcomeIn(r)];
      }
      i := i + 1;
    }
    assert rows[..i] == rows;
  }

  predicate DistinctIds(rows: seq<Row>) {
    forall i, j :: 0 <= i < j < |rows| ==> rows[i].id != rows[j].id || rows[i].id == None || rows[i].id == Some("")
  }

  lemma {:induction false} OutcomeIsOfSomeRow(rows: seq<Row>, id: string)
    ensures OutcomeFor(rows, id).None? <==> forall r :: r in rows ==> !Named(r, id)
    ensures DistinctIds(rows) ==> forall r :: r in rows && Named(r, id) ==> OutcomeFor(rows, id) == Some(OutcomeIn(r))
  {
    if |rows| > 0 {
      var before, last := rows[..|rows| - 1], rows[|rows| - 1];
      OutcomeIsOfSomeRow(before, id);
      assert rows == before + [last];
    }
  }

  /** A reordered response pairs no outcome with another signal. */
  lemma OrderDoesNotMatter(rows: seq<Row>, reordered: seq<Row>, id: string)
    requires DistinctIds(rows) && DistinctIds(reordered) && multiset(rows) == multiset(reordered)
    ensures OutcomeFor(rows, id) == OutcomeFor(reordered, id)
  {
    OutcomeIsOfSomeRow(rows, id);
    OutcomeIsOfSomeRow(reordered, id);
    forall r ensures r in rows <==> r in reordered {
      assert r in rows <==> r in multiset(rows);
      assert r in reordered <==> r in multiset(reordered);
    }
  }

  // ---- Selections ----

  function Where(xs: seq<Evaluated>, p: Evaluated -> bool): seq<Evaluated> {
    if |xs| == 0 then []
    else Where(xs[..|xs| - 1], p) + if p(xs[|xs| - 1]) then [xs[|xs| - 1]] else []
  }

  function IsKind(kind: Kind): Evaluated -> bool {
    (e: Evaluated) => e.kind == kind
  }

  function HasKey(keyOf: Evaluated -> string, key: string): Evaluated -> bool {
    (e: Evaluated) => keyOf(e) == key
  }

  function Pnl(): Evaluated -> real {
    (e: Evaluated) => e.pnlPct
  }

  function Unit(): Evaluated -> real {
    (e: Evaluated) => 1.0
  }

  function Win(): Evaluated -> real {
    (e: Evaluated) => if e.kind.TargetHit? then 1.0 else 0.0
  }

  lemma {:induction false} SumOfUnits(xs: seq<Evaluated>)
    ensures Sum(xs, Unit()) == |xs| as real
  {
    if |xs| > 0 {
      SumOfUnits(xs[1..]);
    }
  }

  lemma {:induction false} SumOfWins(xs: seq<Evaluated>)
    ensures Sum(xs, Win()) == |Where(xs, IsKind(TargetHit))| as real
  {
    if |xs| > 0 {
      var before, last := xs[..|xs| - 1], xs[|xs| - 1];
      SumOfWins(before);
      SumAppend(before, last, Win());
      assert xs == before + [last];
    }
  }

  lemma WhereSnoc(xs: seq<Evaluated>, x: Evaluated, p: Evaluated -> bool)
    ensures Where(xs + [x], p) == Where(xs, p) + if p(x) then [x] else []
  {
    assert (xs + [x])[..|xs|] == xs;
  }

  lemma SumWhere(xs: seq<Evaluated>, p: Evaluated -> bool, f: Evaluated -> real)
    requires |xs| > 0
    ensures var before, last := xs[..|xs| - 1], xs[|xs| - 1];
            Sum(Where(xs, p), f) == Sum(Where(before, p), f) + if p(last) then f(last) else 0.0
  {
    var before, last := xs[..|xs| - 1], xs[|xs| - 1];
    if p(last) {
      SumAppend(Where(before, p), last, f);
    } else {
      assert Where(xs, p) == Where(before, p);
    }
  }

  predicate AllClosed(xs: seq<Evaluated>) {
    forall i :: 0 <= i < |xs| ==> xs[i].kind.TargetHit? || xs[i].kind.StopHit?
  }

  /** Closed outcomes fall into wins and losses, whatever is added up over them. */
  lemma {:induction false} WinsAndLosses(xs: seq<Evaluated>, f: Evaluated -> real)
    requires AllClosed(xs)
    ensures Sum(xs, f) == Sum(Where(xs, IsKind(TargetHit)), f) + Sum(Where(xs, IsKind(StopHit)), f)
    ensures |xs| == |Where(xs, IsKind(TargetHit))| + |Where(xs, IsKind(StopHit))|
  {
    if |xs| > 0 {
      var before, last := xs[..|xs| - 1], xs[|xs| - 1];
      WinsAndLosses(before, f);
      SumAppend(before, last, f);
      assert xs == before + [last];
      SumWhere(xs, IsKind(TargetHit), f);
      SumWhere(xs, IsKind(StopHit), f);
    }
  }

  /** The summary's counts: every evaluated signal is resolved, open or without data. */
  lemma {:induction false} CountsCover(xs: seq<Evaluated>)
    ensures |xs| == |Where(xs, IsKind(TargetHit))| + |Where(xs, IsKind(StopHit))|
                    + |Where(xs, IsKind(Open))| + |Where(xs, IsKind(NoData))|
  {
    if |xs| > 0 {
      CountsCover(xs[..|xs| - 1]);
    }
  }

  // ---- Buckets ----

  datatype Bucket = Bucket(key: string, trades: nat, winRate: int, avgPnlPct: real)

  predicate Distinct(keys: seq<string>) {
    forall i, j :: 0 <= i < j < |keys| ==> keys[i] != keys[j]
  }

  predicate IsGroup(xs: seq<Evaluated>, keyOf: Evaluated -> string, key: string, items: seq<Evaluated>) {
    items == Where(xs, HasKey(keyOf, key)) && |items| > 0
  }

  /** `order` lists the keys once each, and every group holds its key's outcomes in their order. */
  ghost predicate IsGrouping(xs: seq<Evaluated>, keyOf: Evaluated -> string, order: seq<string>,
                             groups: map<string, seq<Evaluated>>) {
    && Distinct(order)
    && (forall key :: key in groups <==> key in order)
    && (forall key :: key in groups ==> IsGroup(xs, keyOf, key, groups[key]))
    && forall i :: 0 <= i < |xs| ==> keyOf(xs[i]) in groups
  }

  lemma {:induction false} NoneHasKey(xs: seq<Evaluated>, keyOf: Evaluated -> string, key: string)
    requires forall i :: 0 <= i < |xs| ==> keyOf(xs[i]) != key
    ensures Where(xs, HasKey(keyOf, key)) == []
  {
    if |xs| > 0 {
      NoneHasKey(xs[..|xs| - 1], keyOf, key);
    }
  }

  /** One more outcome joins its key's group and no other. */
  lemma GroupAfter(xs: seq<Evaluated>, e: Evaluated, keyOf: Evaluated -> string, key: string, items: seq<Evaluated>)
    requires items == Where(xs, HasKey(keyOf, key))
    ensures key == keyOf(e) ==> IsGroup(xs + [e], keyOf, key, items + [e])
    ensures key != keyOf(e) && |items| > 0 ==> IsGroup(xs + [e], keyOf, key, items)
  {
    WhereSnoc(xs, e, HasKey(keyOf, key));
  }

  lemma GroupGrows(xs: seq<Evaluated>, e: Evaluated, keyOf: Evaluated -> string, order: seq<string>,
                   groups: map<string, seq<Evaluated>>)
    requires IsGrouping(xs, keyOf, order, groups) && keyOf(e) in groups
    ensures IsGrouping(xs + [e], keyOf, order, groups[keyOf(e) := groups[keyOf(e)] + [e]])
  {
    var more := groups[keyOf(e) := groups[keyOf(e)] + [e]];
    forall key | key in more ensures IsGroup(xs + [e], keyOf, key, more[key]) {
      GroupAfter(xs, e, keyOf, key, groups[key]);
    }
  }

  lemma NewKeyIsDistinct(keys: seq<string>, key: string)
    requires Distinct(keys) && key !in keys
    ensures Distinct(keys + [key])
  {
  }

  /** The new outcome's own group, and each of the others. */
  lemma GroupsAfterOpening(xs: seq<Evaluated>, e: Evaluated, keyOf: Evaluated -> string, groups: map<string, seq<Evaluated>>)
    requires keyOf(e) !in groups && (forall i :: 0 <= i < |xs| ==> keyOf(xs[i]) in groups)
    requires forall key :: key in groups ==> IsGroup(xs, keyOf, key, groups[key])
    ensures IsGroup(xs + [e], keyOf, keyOf(e), [] + [e])
    ensures forall key :: key in groups ==> IsGroup(xs + [e], keyOf, key, groups[key])
  {
    NoneHasKey(xs, keyOf, keyOf(e));
    GroupAfter(xs, e, keyOf, keyOf(e), []);
    forall key | key in groups ensures IsGroup(xs + [e], keyOf, key, groups[key]) {
      GroupAfter(xs, e, keyOf, key, groups[key]);
    }
  }

  lemma GroupOpens(xs: seq<Evaluated>, e: Evaluated, keyOf: Evaluated -> string, order: seq<string>,
                   groups: map<string, seq<Evaluated>>)
    requires IsGrouping(xs, keyOf, order, groups) && keyOf(e) !in groups
    ensures IsGrouping(xs + [e], keyOf, order + [keyOf(e)], groups[keyOf(e) := [] + [e]])
  {
    NewKeyIsDistinct(order, keyOf(e));
    GroupsAfterOpening(xs, e, keyOf, groups);
  }

  method GroupBy(closed: seq<Evaluated>, keyOf: Evaluated -> string)
    returns (order: seq<string>, groups: map<string, seq<Evaluated>>)
    ensures IsGrouping(closed, keyOf, order, groups)
  {
    order, groups := [], map[];
    var i := 0;
    while i < |closed|
      invariant 0 <= i <= |closed|
      invariant IsGrouping(closed[..i], keyOf, order, groups)
    {
      var e := closed[i];
      var k := keyOf(e);
      assert closed[..i + 1] == closed[..i] + [e];
      if k !in groups {
        GroupOpens(closed[..i], e, keyOf, order, groups);
        assert groups[k := []][k := [] + [e]] == groups[k := [] + [e]];
        groups := groups[k := []];
        order := order + [k];
      } else {
        GroupGrows(closed[..i], e, keyOf, order, groups);
      }
      groups := groups[k := groups[k] + [e]];
      i := i + 1;
    }
    assert closed[..i] == closed;
  }

  function GroupSum(xs: seq<Evaluated>, keyOf: Evaluated -> string, f: Evaluated -> real): string -> real {
    (key: string) => Sum(Where(xs, HasKey(keyOf, key)), f)
  }

  function Only(key: string, x: real): string -> real {
    (other: string) => if other == key then x else 0.0
  }

  lemma SumOnly(keys: seq<string>, key: string, x: real)
    requires Distinct(keys) && key in keys
    ensures Sum(keys, Only(key, x)) == x
  {
    var i :| 0 <= i < |keys| && keys[i] == key;
    SumSplit(keys, i, Only(key, x));
    SumZero(keys[..i], Only(key, x));
    SumZero(keys[i + 1..], Only(key, x));
  }

  /**
   * Buckets lose and repeat nothing: whatever is added up over the outcomes
   * (trades, wins, P&L) is the total of the same over the buckets.
   */
  lemma {:induction false} BucketsConserve(xs: seq<Evaluated>, keyOf: Evaluated -> string, keys: seq<string>, f: Evaluated -> real)
    requires Distinct(keys) && forall i :: 0 <= i < |xs| ==> keyOf(xs[i]) in keys
    ensures Sum(keys, GroupSum(xs, keyOf, f)) == Sum(xs, f)
  {
    if |xs| == 0 {
      SumZero(keys, GroupSum(xs, keyOf, f));
    } else {
      var before, last := xs[..|xs| - 1], xs[|xs| - 1];
      BucketsConserve(before, keyOf, keys, f);
      assert xs == before + [last];
      SumAppend(before, last, f);
      GroupSumsAfter(before, last, keyOf, keys, f);
      SumOnly(keys, keyOf(last), f(last));
    }
  }

  lemma GroupSumsAfter(before: seq<Evaluated>, last: Evaluated, keyOf: Evaluated -> string, keys: seq<string>, f: Evaluated -> real)
    ensures Sum(keys, GroupSum(before + [last], keyOf, f))
            == Sum(keys, GroupSum(before, keyOf, f)) + Sum(keys, Only(keyOf(last), f(last)))
  {
    var xs := before + [last];
    assert xs[..|before|] == before;
    forall i | 0 <= i < |keys|
      ensures GroupSum(xs, keyOf, f)(keys[i]) == GroupSum(before, keyOf, f)(keys[i]) + Only(keyOf(last), f(last))(keys[i])
    {
      SumWhere(xs, HasKey(keyOf, keys[i]), f);
    }
    SumLinear(keys, GroupSum(xs, keyOf, f), GroupSum(before, keyOf, f), Only(keyOf(last), f(last)));
  }

  // ---- The displayed buckets ----

  /** A number within `step` of another, both taken `n` times. */
  lemma NearestTimes(x: real, r: real, step: real, n: real)
    requires n > 0.0 && -step <= r - x <= step
    ensures -(step * n) <= r * n - x * n <= step * n
  {
    Scale(r, x + step, n);
    Scale(x, r + step, n);
  }

  /** A share of `n` in percent, to the nearest whole number. */
  predicate NearShare(percent: int, part: real, n: real) {
    -(0.5 * n) <= percent as real * n - 100.0 * part <= 0.5 * n
  }

  /** A mean of `n` numbers, to the nearest hundredth. */
  predicate NearMean(mean: real, sum: real, n: real) {
    -(0.005 * n) <= mean * n - sum <= 0.005 * n
  }

  lemma NearestShare(part: real, n: real)
    requires n > 0.0
    ensures NearShare(Round(part / n * 100.0), part, n)
  {
    var x := part / n * 100.0;
    Quotient(part, n);
    assert x * n == 100.0 * (part / n * n);
    assert Round(x) as real - 0.5 <= x < Round(x) as real + 0.5;
    NearestTimes(x, Round(x) as real, 0.5, n);
  }

  lemma NearestMean(sum: real, n: real)
    requires n > 0.0
    ensures NearMean(Round(sum / n * 100.0) as real / 100.0, sum, n)
  {
    var x := sum / n;
    Quotient(sum, n);
    RoundIsNear(x);
    NearestTimes(x, Round2(x), 0.005, n);
  }

  function BucketOf(key: string, items: seq<Evaluated>): Bucket
    requires |items| > 0
  {
    Bucket(key, |items|, Round(|Where(items, IsKind(TargetHit))| as real / |items| as real * 100.0),
           Round(Sum(items, Pnl()) / |items| as real * 100.0) as real / 100.0)
  }

  /** The figures of a bucket: how many outcomes it has, their share of wins and their mean P&L. */
  ghost predicate Figures(b: Bucket, items: seq<Evaluated>) {
    && b.trades == |items|
    && NearShare(b.winRate, |Where(items, IsKind(TargetHit))| as real, |items| as real)
    && NearMean(b.avgPnlPct, Sum(items, Pnl()), |items| as real)
  }

  lemma BucketHasFigures(key: string, items: seq<Evaluated>)
    requires |items| > 0
    ensures BucketOf(key, items).key == key && Figures(BucketOf(key, items), items)
  {
    NearestShare(|Where(items, IsKind(TargetHit))| as real, |items| as real);
    NearestMean(Sum(items, Pnl()), |items| as real);
  }

  predicate Descending(bs: seq<Bucket>) {
    forall i, j :: 0 <= i < j < |bs| ==> bs[i].trades >= bs[j].trades
  }

  /** Stable: a bucket goes behind those with as many trades. */
  function Insert(bs: seq<Bucket>, b: Bucket): seq<Bucket> {
    if |bs| == 0 || bs[|bs| - 1].trades >= b.trades then bs + [b]
    else Insert(bs[..|bs| - 1], b) + [bs[|bs| - 1]]
  }

  lemma {:induction false} InsertKeepsOrder(bs: seq<Bucket>, b: Bucket)
    requires Descending(bs)
    ensures Descending(Insert(bs, b)) && forall x :: x in Insert(bs, b) <==> x in bs || x == b
  {
    if |bs| > 0 && bs[|bs| - 1].trades < b.trades {
      var before, last := bs[..|bs| - 1], bs[|bs| - 1];
      InsertKeepsOrder(before, b);
      assert bs == before + [last];
      var r := Insert(before, b);
      forall i | 0 <= i < |r| ensures r[i].trades >= last.trades {
        assert r[i] in r;
      }
    }
  }

  function Trades(): Bucket -> real {
    (b: Bucket) => b.trades as real
  }

  lemma {:induction false} InsertAddsTrades(bs: seq<Bucket>, b: Bucket)
    ensures Sum(Insert(bs, b), Trades()) == Sum(bs, Trades()) + b.trades as real
  {
    if |bs| == 0 || bs[|bs| - 1].trades >= b.trades {
      SumAppend(bs, b, Trades());
    } else {
      var before, last := bs[..|bs| - 1], bs[|bs| - 1];
      InsertAddsTrades(before, b);
      SumAppend(Insert(before, b), last, Trades());
      SumAppend(before, last, Trades());
      assert bs == before + [last];
    }
  }

  predicate Occurs(closed: seq<Evaluated>, keyOf: Evaluated -> string, key: string) {
    |Where(closed, HasKey(keyOf, key))| > 0
  }

  function BucketFor(closed: seq<Evaluated>, keyOf: Evaluated -> string, key: string): Bucket
    requires Occurs(closed, keyOf, key)
  {
    BucketOf(key, Where(closed, HasKey(keyOf, key)))
  }

  function Sorted(bs: seq<Bucket>): seq<Bucket> {
    if |bs| == 0 then [] else Insert(Sorted(bs[..|bs| - 1]), bs[|bs| - 1])
  }

  lemma {:induction false} SortingReorders(bs: seq<Bucket>)
    ensures Descending(Sorted(bs)) && (forall b :: b in Sorted(bs) <==> b in bs)
    ensures Sum(Sorted(bs), Trades()) == Sum(bs, Trades())
  {
    if |bs| > 0 {
      var before, last := bs[..|bs| - 1], bs[|bs| - 1];
      SortingReorders(before);
      InsertKeepsOrder(Sorted(before), last);
      InsertAddsTrades(Sorted(before), last);
      SumAppend(before, last, Trades());
      assert bs == before + [last];
    }
  }

  lemma {:induction false} TradesAddUp(closed: seq<Evaluated>, keyOf: Evaluated -> string, keys: seq<string>, bs: seq<Bucket>)
    requires |bs| == |keys| && forall i :: 0 <= i < |bs| ==> bs[i].trades == |Where(closed, HasKey(keyOf, keys[i]))|
    ensures Sum(bs, Trades()) == Sum(keys, GroupSum(closed, keyOf, Unit()))
  {
    if |keys| > 0 {
      TradesAddUp(closed, keyOf, keys[1..], bs[1..]);
      SumOfUnits(Where(closed, HasKey(keyOf, keys[0])));
    }
  }

  /** Grouped keys are the ones that occur. */
  lemma GroupedIff(closed: seq<Evaluated>, keyOf: Evaluated -> string, order: seq<string>, groups: map<string, seq<Evaluated>>)
    requires IsGrouping(closed, keyOf, order, groups)
    ensures forall key :: key in order <==> Occurs(closed, keyOf, key)
  {
    forall key | key !in order ensures !Occurs(closed, keyOf, key) {
      NoneHasKey(closed, keyOf, key);
    }
  }

  /**
   * One bucket for every key that occurs, most trades first; each reports its
   * own outcomes and together they count every outcome once.
   */
  method BucketBy(closed: seq<Evaluated>, keyOf: Evaluated -> string) returns (buckets: seq<Bucket>)
    ensures Descending(buckets)
    ensures forall b :: b in buckets <==> Occurs(closed, keyOf, b.key) && b == BucketFor(closed, keyOf, b.key)
    ensures forall b :: b in buckets ==> Figures(b, Where(closed, HasKey(keyOf, b.key)))
    ensures Sum(buckets, Trades()) == |closed| as real
  {
    var order, groups := GroupBy(closed, keyOf);
    GroupedIff(closed, keyOf, order, groups);
    buckets := [];
    var i := 0;
    while i < |order|
      invariant 0 <= i <= |order| && |buckets| == i
      invariant forall j :: 0 <= j < i ==> buckets[j] == BucketFor(closed, keyOf, order[j])
    {
      buckets := buckets + [BucketOf(order[i], groups[order[i]])];
      i := i + 1;
    }
    TradesAddUp(closed, keyOf, order, buckets);
    BucketsConserve(closed, keyOf, order, Unit());
    SumOfUnits(closed);
    SortingReorders(buckets);
    ListedIff(closed, keyOf, order, buckets);
    ListedFigures(closed, keyOf, buckets);
    buckets := Sorted(buckets);
  }

  lemma ListedFigures(closed: seq<Evaluated>, keyOf: Evaluated -> string, bs: seq<Bucket>)
    requires forall b :: b in bs ==> Occurs(closed, keyOf, b.key) && b == BucketFor(closed, keyOf, b.key)
    ensures forall b :: b in bs ==> Figures(b, Where(closed, HasKey(keyOf, b.key)))
  {
    forall b | b in bs ensures Figures(b, Where(closed, HasKey(keyOf, b.key))) {
      BucketHasFigures(b.key, Where(closed, HasKey(keyOf, b.key)));
    }
  }

  lemma ListedIff(closed: seq<Evaluated>, keyOf: Evaluated -> string, keys: seq<string>, bs: seq<Bucket>)
    requires forall key :: key in keys <==> Occurs(closed, keyOf, key)
    requires |bs| == |keys| && forall i :: 0 <= i < |bs| ==> bs[i] == BucketFor(closed, keyOf, keys[i])
    ensures forall b :: b in bs <==> Occurs(closed, keyOf, b.key) && b == BucketFor(closed, keyOf, b.key)
  {
    forall b: Bucket | Occurs(closed, keyOf, b.key) && b == BucketFor(closed, keyOf, b.key) ensures b in bs {
      var i :| 0 <= i < |keys| && keys[i] == b.key;
      assert bs[i] == b;
    }
  }
}
