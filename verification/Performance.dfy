/** Expectancy and breakeven of a set of closed outcomes, before and after rounding. */
module Performance {
  import opened Wrappers
  import opened Arithmetic
  import opened Sums
  import opened Outcomes
  import opened Rounding

  // ---- The statistics before rounding ----

  function Wins(xs: seq<Evaluated>): seq<Evaluated> { Where(xs, IsKind(TargetHit)) }

  function Losses(xs: seq<Evaluated>): seq<Evaluated> { Where(xs, IsKind(StopHit)) }

  function Mean(xs: seq<Evaluated>): real
    requires |xs| > 0
  {
    Sum(xs, Pnl()) / |xs| as real
  }

  function AvgWin(xs: seq<Evaluated>): real { if |Wins(xs)| > 0 then Mean(Wins(xs)) else 0.0 }

  /** The signed mean loss. */
  function MeanLoss(xs: seq<Evaluated>): real { if |Losses(xs)| > 0 then Mean(Losses(xs)) else 0.0 }

  function AvgLoss(xs: seq<Evaluated>): real { Abs(MeanLoss(xs)) }

  /** Share of wins, as a fraction. */
  function WinShare(xs: seq<Evaluated>): real
    requires |xs| > 0
  {
    |Wins(xs)| as real / |xs| as real
  }

  function WinRate(xs: seq<Evaluated>): real
    requires |xs| > 0
  {
    WinShare(xs) * 100.0
  }

  function WinLossRatio(xs: seq<Evaluated>): Option<real> {
    if AvgLoss(xs) > 0.0 then Some(AvgWin(xs) / AvgLoss(xs)) else None
  }

  function Breakeven(xs: seq<Evaluated>): Option<real> {
    var ratio := WinLossRatio(xs);
    if ratio.Some? && ratio.value + 1.0 > 0.0 then Some(1.0 / (ratio.value + 1.0) * 100.0) else None
  }

  datatype Stats = Stats(sampleSize: nat, winRate: real, avgWinPct: real, avgLossPct: real, winLossRatio: Option<real>,
                         breakevenWinRate: Option<real>, expectancyPct: real)

  function Rounded(x: Option<real>): Option<real> {
    if x.Some? then Some(Round2(x.value)) else None
  }

  function PerformanceStats(xs: seq<Evaluated>): Stats {
    if |xs| == 0 then Stats(0, 0.0, 0.0, 0.0, None, None, 0.0)
    else
      Stats(|xs|, Round2(WinRate(xs)), Round2(AvgWin(xs)), Round2(AvgLoss(xs)), Rounded(WinLossRatio(xs)),
            Rounded(Breakeven(xs)), Round(Mean(xs) * 1000.0) as real / 1000.0)
  }

  /** Within a rounding step of a number that may be missing. */
  predicate ShownAs(shown: Option<real>, exact: Option<real>) {
    (shown.Some? <==> exact.Some?) && (exact.Some? ==> Abs(shown.value - exact.value) <= 0.005)
  }

  /** Every reported figure is the exact one to within half a step. */
  lemma ReportedFigures(xs: seq<Evaluated>)
    requires |xs| > 0
    ensures var s := PerformanceStats(xs);
            && s.sampleSize == |xs|
            && Abs(s.winRate - WinRate(xs)) <= 0.005 && Abs(s.expectancyPct - Mean(xs)) <= 0.0005
            && Abs(s.avgWinPct - AvgWin(xs)) <= 0.005 && Abs(s.avgLossPct - AvgLoss(xs)) <= 0.005
            && ShownAs(s.winLossRatio, WinLossRatio(xs)) && ShownAs(s.breakevenWinRate, Breakeven(xs))
  {
    RoundIsNear(WinRate(xs));
    RoundIsNear(AvgWin(xs));
    RoundIsNear(AvgLoss(xs));
    ExpectancyIsNear(Mean(xs));
    NearOption(WinLossRatio(xs));
    NearOption(Breakeven(xs));
  }

  /** Without outcomes of a kind there is no average of it, no ratio and no breakeven; without any, no rate and no expectancy. */
  lemma NothingToReport(xs: seq<Evaluated>)
    ensures var s := PerformanceStats(xs);
            && (|xs| == 0 ==> s.sampleSize == 0 && s.winRate == 0.0 && s.expectancyPct == 0.0)
            && (|Where(xs, IsKind(TargetHit))| == 0 ==> s.avgWinPct == 0.0)
            && (|Where(xs, IsKind(StopHit))| == 0 ==> s.avgLossPct == 0.0 && s.winLossRatio.None? && s.breakevenWinRate.None?)
  {
    RoundIsNear(0.0);
  }

  lemma NearOption(x: Option<real>)
    ensures ShownAs(Rounded(x), x)
  {
    if x.Some? {
      RoundIsNear(x.value);
    }
  }

  lemma ExpectancyIsNear(x: real)
    ensures Abs(Round(x * 1000.0) as real / 1000.0 - x) <= 0.0005
  {
    var y := x * 1000.0;
    assert Round(y) as real - 0.5 <= y < Round(y) as real + 0.5;
    assert Round(y) as real / 1000.0 * 1000.0 == Round(y) as real;
  }

  // ---- Expectancy ----

  lemma MeanTimesSize(xs: seq<Evaluated>)
    requires |xs| > 0
    ensures Mean(xs) * |xs| as real == Sum(xs, Pnl())
  {
    Quotient(Sum(xs, Pnl()), |xs| as real);
  }

  lemma WinTotal(xs: seq<Evaluated>)
    ensures |Wins(xs)| as real * AvgWin(xs) == Sum(Wins(xs), Pnl())
  {
    if |Wins(xs)| > 0 {
      MeanTimesSize(Wins(xs));
    }
  }

  lemma LossTotal(xs: seq<Evaluated>)
    ensures |Losses(xs)| as real * MeanLoss(xs) == Sum(Losses(xs), Pnl())
  {
    if |Losses(xs)| > 0 {
      MeanTimesSize(Losses(xs));
    }
  }

  lemma MeanTotal(xs: seq<Evaluated>)
    requires |xs| > 0 && AllClosed(xs)
    ensures |Wins(xs)| as real + |Losses(xs)| as real == |xs| as real
    ensures Mean(xs) * |xs| as real == |Wins(xs)| as real * AvgWin(xs) + |Losses(xs)| as real * MeanLoss(xs)
  {
    WinsAndLosses(xs, Pnl());
    MeanTimesSize(xs);
    WinTotal(xs);
    LossTotal(xs);
  }

  lemma WeightedMean(w: real, l: real, n: real, a: real, m: real, mean: real)
    requires n > 0.0 && w + l == n && mean * n == w * a + l * m
    ensures mean == (w / n) * a + (1.0 - w / n) * m
  {
    var share := w / n;
    Quotient(w, n);
    assert (1.0 - share) * n == l;
    assert (share * n) * a == (share * a) * n;
    assert ((1.0 - share) * n) * m == ((1.0 - share) * m) * n;
    Cancel(mean, share * a + (1.0 - share) * m, n);
  }

  /** Expectancy is the win share of the average win plus the loss share of the signed mean loss. */
  lemma ExpectancyDecomposes(xs: seq<Evaluated>)
    requires |xs| > 0 && AllClosed(xs)
    ensures Mean(xs) == WinShare(xs) * AvgWin(xs) + (1.0 - WinShare(xs)) * MeanLoss(xs)
  {
    MeanTotal(xs);
    WeightedMean(|Wins(xs)| as real, |Losses(xs)| as real, |xs| as real, AvgWin(xs), MeanLoss(xs), Mean(xs));
  }

  lemma Share(w: real, n: real)
    requires 0.0 <= w <= n && n > 0.0
    ensures w / n <= 1.0 && (w / n < 1.0 <==> w < n)
  {
    Quotient(w, n);
    SignOfProduct((1.0 - w / n) * n, 1.0 - w / n, n);
    SignOfProduct((w / n - 1.0) * n, w / n - 1.0, n);
    assert (1.0 - w / n) * n == n - w && (w / n - 1.0) * n == w - n;
  }

  lemma ShareBelowOne(xs: seq<Evaluated>)
    requires |xs| > 0 && AllClosed(xs)
    ensures WinShare(xs) <= 1.0 && (WinShare(xs) < 1.0 <==> |Losses(xs)| > 0)
  {
    WinsAndLosses(xs, Pnl());
    Share(|Wins(xs)| as real, |xs| as real);
  }

  /** The two forms differ by twice the loss share of a positive mean loss. */
  lemma FormsAgreeIff(mean: real, gain: real, rest: real, loss: real)
    requires mean == gain + rest * loss && rest >= 0.0 && (rest == 0.0 ==> loss == 0.0)
    ensures mean == gain - rest * Abs(loss) <==> loss <= 0.0
  {
    if loss <= 0.0 {
      assert rest * Abs(loss) == 0.0 - rest * loss;
    } else {
      SignOfProduct(rest * loss, rest, loss);
    }
  }

  /**
   * The documented formula, with the loss as a magnitude, is the expectancy
   * exactly when the stopped-out trades did not make money on average.
   */
  lemma DocumentedExpectancyIff(xs: seq<Evaluated>)
    requires |xs| > 0 && AllClosed(xs)
    ensures Mean(xs) == WinShare(xs) * AvgWin(xs) - (1.0 - WinShare(xs)) * AvgLoss(xs) <==> MeanLoss(xs) <= 0.0
  {
    ExpectancyDecomposes(xs);
    ShareBelowOne(xs);
    FormsAgreeIff(Mean(xs), WinShare(xs) * AvgWin(xs), 1.0 - WinShare(xs), MeanLoss(xs));
  }

  // ---- Breakeven ----

  lemma AboveBreakeven(share: real, win: real, loss: real)
    requires loss > 0.0 && win / loss + 1.0 > 0.0
    ensures share * 100.0 > 1.0 / (win / loss + 1.0) * 100.0 <==> share * win - (1.0 - share) * loss > 0.0
  {
    var whole := win / loss + 1.0;
    var bar := 1.0 / whole;
    assert bar * whole == 1.0;
    assert whole * loss == win + loss by {
      assert (win / loss) * loss == win;
    }
    var margin := share - bar;
    assert margin * (whole * loss) == share * (win + loss) - (bar * whole) * loss;
    assert whole * loss > 0.0;
    assert margin > 0.0 <==> margin * (whole * loss) > 0.0 by {
      SignOfProduct(margin * (whole * loss), margin, whole * loss);
    }
  }

  lemma BreakevenExistsIff(xs: seq<Evaluated>)
    ensures Breakeven(xs).Some? <==> AvgLoss(xs) > 0.0 && AvgWin(xs) + AvgLoss(xs) > 0.0
  {
    if AvgLoss(xs) > 0.0 {
      RatioSign(AvgWin(xs), AvgLoss(xs));
    }
  }

  lemma RatioSign(win: real, loss: real)
    requires loss > 0.0
    ensures win / loss + 1.0 > 0.0 <==> win + loss > 0.0
  {
    Quotient(win, loss);
    SignOfProduct((win / loss + 1.0) * loss, win / loss + 1.0, loss);
    assert (win / loss + 1.0) * loss == win + loss;
  }

  /** With a negative mean loss, beating breakeven and positive expectancy are the same thing. */
  lemma BeatsBreakevenIff(xs: seq<Evaluated>)
    requires |xs| > 0 && AllClosed(xs) && MeanLoss(xs) < 0.0 && AvgWin(xs) + AvgLoss(xs) > 0.0
    ensures Breakeven(xs).Some? && (WinRate(xs) > Breakeven(xs).value <==> Mean(xs) > 0.0)
  {
    BreakevenExistsIff(xs);
    DocumentedExpectancyIff(xs);
    AboveBreakeven(WinShare(xs), AvgWin(xs), AvgLoss(xs));
  }

  /** For every sample with a breakeven, the win rate beats it exactly when the documented formula is positive. */
  lemma BreakevenTestsTheFormula(xs: seq<Evaluated>)
    requires |xs| > 0 && Breakeven(xs).Some?
    ensures WinRate(xs) > Breakeven(xs).value
            <==> WinShare(xs) * AvgWin(xs) - (1.0 - WinShare(xs)) * AvgLoss(xs) > 0.0
  {
    AboveBreakeven(WinShare(xs), AvgWin(xs), AvgLoss(xs));
  }

  lemma PairSums(a: Evaluated, b: Evaluated)
    ensures Sum([a], Pnl()) == a.pnlPct && Sum([b], Pnl()) == b.pnlPct && Sum([a, b], Pnl()) == a.pnlPct + b.pnlPct
  {
    SumAppend([], a, Pnl());
    SumAppend([], b, Pnl());
    SumAppend([a], b, Pnl());
    assert [] + [a] == [a] && [] + [b] == [b] && [a] + [b] == [a, b];
  }

  lemma PairSplits(a: Evaluated, b: Evaluated)
    requires a.kind.TargetHit? && b.kind.StopHit?
    ensures Wins([a, b]) == [a] && Losses([a, b]) == [b]
  {
    var won, lost := IsKind(TargetHit), IsKind(StopHit);
    assert [a, b][..1] == [a] && [a][..0] == [];
    assert Where([a], won) == [] + [a];
    assert Where([a, b], won) == [a] + [];
    assert Where([a], lost) == [] + [];
    assert Where([a, b], lost) == [] + [b];
  }

  /** Where stops were hit in profit the bar misleads: half won, breakeven is half, yet every trade made money. */
  lemma ProfitableStopsMislead(symbol: string)
    ensures var xs := [Evaluated(symbol, 1.0, TargetHit, 1.0), Evaluated(symbol, 1.0, StopHit, 1.0)];
            AllClosed(xs) && WinRate(xs) == 50.0 && Breakeven(xs) == Some(50.0) && Mean(xs) == 1.0
  {
    var a, b := Evaluated(symbol, 1.0, TargetHit, 1.0), Evaluated(symbol, 1.0, StopHit, 1.0);
    PairSums(a, b);
    PairSplits(a, b);
  }

  // ---- After rounding ----

  /**
   * What the page shows never flatters: a shown win rate above the shown
   * breakeven means positive expectancy. The other way it can only fail while
   * the two rates lie less than 0.01 apart.
   */
  lemma ShownComparison(xs: seq<Evaluated>)
    requires |xs| > 0 && AllClosed(xs) && MeanLoss(xs) < 0.0 && AvgWin(xs) + AvgLoss(xs) > 0.0
    ensures var shown := PerformanceStats(xs);
            && shown.breakevenWinRate.Some? && Breakeven(xs).Some?
            && (shown.winRate > shown.breakevenWinRate.value ==> Mean(xs) > 0.0)
            && (Mean(xs) > 0.0 && shown.winRate <= shown.breakevenWinRate.value ==>
                  0.0 < WinRate(xs) - Breakeven(xs).value < 0.01)
  {
    BeatsBreakevenIff(xs);
    var rate, bar := WinRate(xs), Breakeven(xs).value;
    if rate <= bar {
      RoundIsMonotone(rate, bar);
    } else {
      RoundIsMonotone(bar, rate);
      Collapsed(rate, bar);
    }
  }

  /** A shown positive expectancy is a positive one, and puts the win rate above breakeven. */
  lemma ShownExpectancyIsHonest(xs: seq<Evaluated>)
    requires |xs| > 0 && AllClosed(xs) && MeanLoss(xs) < 0.0 && AvgWin(xs) + AvgLoss(xs) > 0.0
    requires PerformanceStats(xs).expectancyPct > 0.0
    ensures Breakeven(xs).Some? && Mean(xs) > 0.0 && WinRate(xs) > Breakeven(xs).value
  {
    BeatsBreakevenIff(xs);
    var shown := Mean(xs) * 1000.0;
    assert Round(shown) >= 1;
    assert shown + 0.5 >= 1.0;
  }

  // ---- The confidence interval ----

  function SquaredDeviation(centre: real): Evaluated -> real {
    (e: Evaluated) => (e.pnlPct - centre) * (e.pnlPct - centre)
  }

  /** The squared deviations from the mean, summed: n - 1 times the sample variance. */
  function Deviations(xs: seq<Evaluated>): real
    requires |xs| > 0
  {
    Sum(xs, SquaredDeviation(Mean(xs)))
  }

  function Squared(): Evaluated -> real {
    (e: Evaluated) => e.pnlPct * e.pnlPct
  }

  function Centred(m: real): Evaluated -> real {
    (e: Evaluated) => e.pnlPct - m
  }

  function PlusCentred(m: real): Evaluated -> real {
    (e: Evaluated) => e.pnlPct + (e.pnlPct - m)
  }

  function Times(c: real, f: Evaluated -> real): Evaluated -> real {
    (e: Evaluated) => c * f(e)
  }

  lemma {:induction false} SumTimes(xs: seq<Evaluated>, c: real, f: Evaluated -> real)
    ensures Sum(xs, Times(c, f)) == c * Sum(xs, f)
  {
    if |xs| > 0 {
      SumTimes(xs[1..], c, f);
    }
  }

  lemma {:induction false} SumCentred(xs: seq<Evaluated>, m: real)
    ensures Sum(xs, Centred(m)) == Sum(xs, Pnl()) - m * |xs| as real
  {
    if |xs| > 0 {
      SumCentred(xs[1..], m);
      assert m * |xs| as real == m * |xs[1..]| as real + m;
    }
  }

  lemma ExpandSquare(x: real, m: real)
    ensures (x - m) * (x - m) == x * x + (0.0 - m) * (x + (x - m))
  {
  }

  lemma DeviationsSplit(xs: seq<Evaluated>, m: real)
    ensures Sum(xs, SquaredDeviation(m)) == Sum(xs, Squared()) + Sum(xs, Times(0.0 - m, PlusCentred(m)))
  {
    forall i | 0 <= i < |xs| ensures SquaredDeviation(m)(xs[i]) == Squared()(xs[i]) + Times(0.0 - m, PlusCentred(m))(xs[i]) {
      ExpandSquare(xs[i].pnlPct, m);
    }
    SumLinear(xs, SquaredDeviation(m), Squared(), Times(0.0 - m, PlusCentred(m)));
  }

  /** What is centred at the mean adds up to nothing. */
  lemma CentredAtMean(xs: seq<Evaluated>, m: real)
    requires m * |xs| as real == Sum(xs, Pnl())
    ensures Sum(xs, PlusCentred(m)) == Sum(xs, Pnl())
  {
    SumCentred(xs, m);
    SumLinear(xs, PlusCentred(m), Pnl(), Centred(m));
  }

  lemma TimesAtMean(xs: seq<Evaluated>, m: real)
    requires m * |xs| as real == Sum(xs, Pnl())
    ensures Sum(xs, Times(0.0 - m, PlusCentred(m))) == 0.0 - m * Sum(xs, Pnl())
  {
    var sum := Sum(xs, PlusCentred(m));
    CentredAtMean(xs, m);
    SumTimes(xs, 0.0 - m, PlusCentred(m));
    Negate(m, sum);
  }

  lemma CentredDeviations(xs: seq<Evaluated>, m: real)
    requires m * |xs| as real == Sum(xs, Pnl())
    ensures Sum(xs, SquaredDeviation(m)) == Sum(xs, Squared()) - m * Sum(xs, Pnl())
  {
    DeviationsSplit(xs, m);
    TimesAtMean(xs, m);
  }

  /** The sample's spread is its sum of squares less mean times sum. */
  lemma DeviationsAre(xs: seq<Evaluated>)
    requires |xs| > 0
    ensures Deviations(xs) == Sum(xs, Squared()) - Mean(xs) * Sum(xs, Pnl())
  {
    MeanTimesSize(xs);
    CentredDeviations(xs, Mean(xs));
  }

  /** `s` is the standard error of the mean: the square root of the sample variance over the sample size. */
  predicate IsStdErr(xs: seq<Evaluated>, s: real)
    requires |xs| > 1
  {
    s >= 0.0 && s * s * |xs| as real * (|xs| as real - 1.0) == Deviations(xs)
  }

  /** Equal outcomes do not deviate. */
  lemma EqualDoNotDeviate(xs: seq<Evaluated>)
    requires |xs| > 0 && forall i :: 0 <= i < |xs| ==> xs[i].pnlPct == xs[0].pnlPct
    ensures Deviations(xs) == 0.0
  {
    SameSum(xs, xs[0].pnlPct);
    MeanTimesSize(xs);
    Cancel(Mean(xs), xs[0].pnlPct, |xs| as real);
    SumZero(xs, SquaredDeviation(Mean(xs)));
  }

  lemma SquareIsNonNegative(x: real)
    ensures x * x >= 0.0
  {
  }

  lemma NoDeviationIsEqual(xs: seq<Evaluated>, i: nat)
    requires i < |xs| && Deviations(xs) == 0.0
    ensures xs[i].pnlPct == Mean(xs)
  {
    var m := Mean(xs);
    forall j | 0 <= j < |xs| ensures SquaredDeviation(m)(xs[j]) >= 0.0 {
      SquareIsNonNegative(xs[j].pnlPct - m);
    }
    SameSignSum(xs, SquaredDeviation(m));
    assert SquaredDeviation(m)(xs[i]) == 0.0;
    NoSquare(xs[i].pnlPct - m);
  }

  /** There is no error exactly when every outcome made the same. */
  lemma NoErrorIff(xs: seq<Evaluated>)
    requires |xs| > 1
    ensures IsStdErr(xs, 0.0) <==> forall i :: 0 <= i < |xs| ==> xs[i].pnlPct == xs[0].pnlPct
  {
    if Deviations(xs) == 0.0 {
      forall i | 0 <= i < |xs| ensures xs[i].pnlPct == xs[0].pnlPct {
        NoDeviationIsEqual(xs, i);
        NoDeviationIsEqual(xs, 0);
      }
    } else if forall i :: 0 <= i < |xs| ==> xs[i].pnlPct == xs[0].pnlPct {
      EqualDoNotDeviate(xs);
    }
  }

  lemma NoSquare(x: real)
    requires x * x == 0.0
    ensures x == 0.0
  {
    Squares(Abs(x), 0.0);
  }

  lemma {:induction false} SameSum(xs: seq<Evaluated>, x: real)
    requires forall i :: 0 <= i < |xs| ==> xs[i].pnlPct == x
    ensures Sum(xs, Pnl()) == x * |xs| as real
  {
    if |xs| > 0 {
      assert forall i :: 0 <= i < |xs[1..]| ==> xs[1..][i] == xs[i + 1];
      SameSum(xs[1..], x);
    }
  }

  datatype Interval = Interval(low: real, high: real)

  function Ci95(xs: seq<Evaluated>, s: real): Option<Interval> {
    if |xs| > 1 then Some(Interval(Round2(Mean(xs) - 1.96 * s), Round2(Mean(xs) + 1.96 * s))) else None
  }

  predicate Inconclusive(xs: seq<Evaluated>, s: real) {
    var ci := Ci95(xs, s);
    ci.None? || (ci.value.low <= 0.0 && ci.value.high >= 0.0)
  }

  function Pairs(xs: seq<Evaluated>): real {
    |xs| as real * (|xs| as real - 1.0)
  }

  lemma WithinReach(d: real, s: real, n: real, deviations: real)
    requires d >= 0.0 && s >= 0.0 && n > 1.0 && s * s * n * (n - 1.0) == deviations
    ensures d <= 1.96 * s <==> d * d * (n * (n - 1.0)) <= 1.96 * 1.96 * deviations
    ensures d < 1.96 * s <==> d * d * (n * (n - 1.0)) < 1.96 * 1.96 * deviations
  {
    var k, reach := n * (n - 1.0), 1.96 * s;
    SignOfProduct(k, n, n - 1.0);
    Squares(d, reach);
    Scale(d * d, reach * reach, k);
    StdErrSquared(s, n, deviations);
  }

  lemma StdErrSquared(s: real, n: real, deviations: real)
    requires s * s * n * (n - 1.0) == deviations
    ensures (1.96 * s) * (1.96 * s) * (n * (n - 1.0)) == 1.96 * 1.96 * deviations
  {
    assert (1.96 * s) * (1.96 * s) == 1.96 * 1.96 * (s * s);
    assert s * s * (n * (n - 1.0)) == s * s * n * (n - 1.0);
  }

  /** `d` is within, or strictly inside, the sample's spread. */
  predicate Within(xs: seq<Evaluated>, d: real)
    requires |xs| > 0
  {
    d * d * Pairs(xs) <= 1.96 * 1.96 * Deviations(xs)
  }

  predicate Inside(xs: seq<Evaluated>, d: real)
    requires |xs| > 0
  {
    d * d * Pairs(xs) < 1.96 * 1.96 * Deviations(xs)
  }

  /** The spread is 1.96 standard errors, without the square root. */
  lemma WithinIff(xs: seq<Evaluated>, s: real, d: real)
    requires |xs| > 1 && IsStdErr(xs, s) && d >= 0.0
    ensures (d <= 1.96 * s <==> Within(xs, d)) && (d < 1.96 * s <==> Inside(xs, d))
  {
    WithinReach(d, s, |xs| as real, Deviations(xs));
  }

  /**
   * Before rounding, the interval spans zero exactly when the mean, squared, is
   * within the sample's own spread.
   */
  lemma SpansZeroIff(xs: seq<Evaluated>, s: real)
    requires |xs| > 1 && IsStdErr(xs, s)
    ensures Mean(xs) - 1.96 * s <= 0.0 <= Mean(xs) + 1.96 * s
            <==> Mean(xs) * Mean(xs) * Pairs(xs) <= 1.96 * 1.96 * Deviations(xs)
  {
    var d := Abs(Mean(xs));
    WithinIff(xs, s, d);
    assert d * d == Mean(xs) * Mean(xs);
    assert d * d * Pairs(xs) == Mean(xs) * Mean(xs) * Pairs(xs);
  }

  /** The mean is within the spread once half a rounding step is taken off it. */
  predicate NearZero(xs: seq<Evaluated>)
    requires |xs| > 0
  {
    var d := Abs(Mean(xs)) - 0.005;
    if Mean(xs) >= 0.0 then d < 0.0 || Inside(xs, d) else d <= 0.0 || Within(xs, d)
  }

  lemma FlagIff(m: real, s: real, inside: bool, within: bool)
    requires s >= 0.0
    requires Abs(m) >= 0.005 ==> (inside <==> Abs(m) - 0.005 < 1.96 * s) && (within <==> Abs(m) - 0.005 <= 1.96 * s)
    ensures Round2(m - 1.96 * s) <= 0.0 <= Round2(m + 1.96 * s)
            <==> if m >= 0.0 then m < 0.005 || inside else m >= -0.005 || within
  {
    RoundSign(m - 1.96 * s);
    RoundSign(m + 1.96 * s);
  }

  /**
   * As reported, with both bounds rounded, the flag is set exactly when there
   * is at most one outcome or the mean less half a hundredth is within the
   * sample's spread. The square root does not appear.
   */
  lemma InconclusiveIff(xs: seq<Evaluated>, s: real)
    requires |xs| > 1 ==> IsStdErr(xs, s)
    ensures Inconclusive(xs, s) <==> |xs| <= 1 || NearZero(xs)
  {
    if |xs| > 1 {
      var d := Abs(Mean(xs)) - 0.005;
      if d >= 0.0 {
        WithinIff(xs, s, d);
      }
      FlagIff(Mean(xs), s, Inside(xs, d), Within(xs, d));
    }
  }

  lemma SettledSign(m: real, s: real, other: real)
    requires s >= 0.0 && !(Round2(m - 1.96 * s) <= 0.0 <= Round2(m + 1.96 * s)) && Abs(other - m) <= 1.96 * s
    ensures m != 0.0 && (other > 0.0 <==> m > 0.0) && (other < 0.0 <==> m < 0.0)
  {
    RoundSign(m - 1.96 * s);
    RoundSign(m + 1.96 * s);
  }

  /**
   * A conclusive sample settles the sign: its mean is not zero, and every mean
   * within the sample's spread of it has the same sign.
   */
  lemma ConclusiveSettlesTheSign(xs: seq<Evaluated>, s: real, other: real)
    requires |xs| > 1 && IsStdErr(xs, s) && !Inconclusive(xs, s) && Within(xs, Abs(other - Mean(xs)))
    ensures Mean(xs) != 0.0 && (other > 0.0 <==> Mean(xs) > 0.0) && (other < 0.0 <==> Mean(xs) < 0.0)
  {
    WithinIff(xs, s, Abs(other - Mean(xs)));
    SettledSign(Mean(xs), s, other);
  }
}
