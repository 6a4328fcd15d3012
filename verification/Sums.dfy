/** Sums of a real-valued measure over a sequence: the `reduce` of the source's read models. */
module Sums {

  function Sum<T>(xs: seq<T>, f: T -> real): real
  {
    if |xs| == 0 then 0.0 else f(xs[0]) + Sum(xs[1..], f)
  }

  lemma {:induction false} SumConcat<T>(xs: seq<T>, ys: seq<T>, f: T -> real)
    ensures Sum(xs + ys, f) == Sum(xs, f) + Sum(ys, f)
  {
    if |xs| == 0 {
      assert xs + ys == ys;
    } else {
      assert (xs + ys)[1..] == xs[1..] + ys;
      SumConcat(xs[1..], ys, f);
    }
  }

  lemma SumAppend<T>(xs: seq<T>, x: T, f: T -> real)
    ensures Sum(xs + [x], f) == Sum(xs, f) + f(x)
  {
    SumConcat(xs, [x], f);
  }

  lemma SumSplit<T>(xs: seq<T>, i: nat, f: T -> real)
    requires i < |xs|
    ensures Sum(xs, f) == Sum(xs[..i], f) + f(xs[i]) + Sum(xs[i + 1..], f)
  {
    assert xs == (xs[..i] + [xs[i]]) + xs[i + 1..];
    SumConcat(xs[..i] + [xs[i]], xs[i + 1..], f);
    SumAppend(xs[..i], xs[i], f);
  }

  lemma SumUpdate<T>(xs: seq<T>, i: nat, x: T, f: T -> real)
    requires i < |xs|
    ensures Sum(xs[i := x], f) == Sum(xs, f) - f(xs[i]) + f(x)
  {
    SumSplit(xs, i, f);
    SumSplit(xs[i := x], i, f);
    assert xs[i := x][..i] == xs[..i] && xs[i := x][i + 1..] == xs[i + 1..];
  }

  lemma SumRemove<T>(xs: seq<T>, i: nat, f: T -> real)
    requires i < |xs|
    ensures Sum(xs[..i] + xs[i + 1..], f) == Sum(xs, f) - f(xs[i])
  {
    SumSplit(xs, i, f);
    SumConcat(xs[..i], xs[i + 1..], f);
  }

  lemma {:induction false} SumZero<T>(xs: seq<T>, f: T -> real)
    requires forall i :: 0 <= i < |xs| ==> f(xs[i]) == 0.0
    ensures Sum(xs, f) == 0.0
  {
    if |xs| > 0 {
      forall i | 0 <= i < |xs[1..]| ensures f(xs[1..][i]) == 0.0 {
        assert xs[1..][i] == xs[i + 1];
      }
      SumZero(xs[1..], f);
    }
  }

  lemma {:induction false} SumNonNegative<T>(xs: seq<T>, f: T -> real)
    requires forall i :: 0 <= i < |xs| ==> f(xs[i]) >= 0.0
    ensures Sum(xs, f) >= 0.0
  {
    if |xs| > 0 {
      forall i | 0 <= i < |xs[1..]| ensures f(xs[1..][i]) >= 0.0 {
        assert xs[1..][i] == xs[i + 1];
      }
      SumNonNegative(xs[1..], f);
    }
  }

  /** A pointwise equation between measures carries over to their sums. */
  lemma {:induction false} SumLinear<T>(xs: seq<T>, f: T -> real, g: T -> real, h: T -> real)
    requires forall i :: 0 <= i < |xs| ==> f(xs[i]) == g(xs[i]) + h(xs[i])
    ensures Sum(xs, f) == Sum(xs, g) + Sum(xs, h)
  {
    if |xs| > 0 {
      forall i | 0 <= i < |xs[1..]| ensures f(xs[1..][i]) == g(xs[1..][i]) + h(xs[1..][i]) {
        assert xs[1..][i] == xs[i + 1];
      }
      SumLinear(xs[1..], f, g, h);
    }
  }

  /** Sums of equal length whose terms agree are equal, whatever is summed. */
  lemma {:induction false} SumMatch<T, U>(xs: seq<T>, f: T -> real, ys: seq<U>, g: U -> real)
    requires |xs| == |ys| && forall i :: 0 <= i < |xs| ==> f(xs[i]) == g(ys[i])
    ensures Sum(xs, f) == Sum(ys, g)
  {
    if |xs| > 0 {
      forall i | 0 <= i < |xs[1..]| ensures f(xs[1..][i]) == g(ys[1..][i]) {
        assert xs[1..][i] == xs[i + 1] && ys[1..][i] == ys[i + 1];
      }
      SumMatch(xs[1..], f, ys[1..], g);
    }
  }

  lemma SumSame<T>(xs: seq<T>, ys: seq<T>, f: T -> real)
    requires |xs| == |ys| && forall i :: 0 <= i < |xs| ==> f(xs[i]) == f(ys[i])
    ensures Sum(xs, f) == Sum(ys, f)
  {
    SumMatch(xs, f, ys, f);
  }

  /** Terms of one sign cancel only if every one of them is zero. */
  lemma {:induction false} SameSignSum<T>(xs: seq<T>, f: T -> real)
    requires (forall i :: 0 <= i < |xs| ==> f(xs[i]) >= 0.0) || (forall i :: 0 <= i < |xs| ==> f(xs[i]) <= 0.0)
    ensures Sum(xs, f) == 0.0 <==> forall i :: 0 <= i < |xs| ==> f(xs[i]) == 0.0
    ensures (forall i :: 0 <= i < |xs| ==> f(xs[i]) >= 0.0) ==> Sum(xs, f) >= 0.0
    ensures (forall i :: 0 <= i < |xs| ==> f(xs[i]) <= 0.0) ==> Sum(xs, f) <= 0.0
  {
    if |xs| > 0 {
      assert forall i :: 0 <= i < |xs[1..]| ==> xs[1..][i] == xs[i + 1];
      SameSignSum(xs[1..], f);
      if Sum(xs, f) == 0.0 {
        forall i | 0 <= i < |xs| ensures f(xs[i]) == 0.0 {
          assert i > 0 ==> xs[i] == xs[1..][i - 1];
        }
      }
    }
  }
}
