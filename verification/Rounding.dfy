/** `Math.round` and the two-decimal rounding of displayed figures, over exact reals. */
module Rounding {
  /** `Math.round`: half goes up. */
  function Round(x: real): int { (x + 0.5).Floor }

  function Round2(x: real): real { Round(x * 100.0) as real / 100.0 }

  function Abs(x: real): real { if x < 0.0 then -x else x }

  lemma RoundIsNear(x: real)
    ensures Abs(Round2(x) - x) <= 0.005
  {
    var y := x * 100.0;
    assert Round(y) as real - 0.5 <= y < Round(y) as real + 0.5;
    assert Round2(x) * 100.0 == Round(y) as real;
  }

  lemma RoundIsMonotone(x: real, y: real)
    requires x <= y
    ensures Round(x) <= Round(y) && Round2(x) <= Round2(y)
  {
    assert x * 100.0 <= y * 100.0;
    assert Round(x * 100.0) <= Round(y * 100.0);
    assert Round2(x) * 100.0 == Round(x * 100.0) as real && Round2(y) * 100.0 == Round(y * 100.0) as real;
  }

  /** Numbers rounded to the same hundredth are less than a hundredth apart. */
  lemma Collapsed(x: real, y: real)
    ensures Round2(x) == Round2(y) ==> -0.01 < x - y < 0.01
  {
    var a, b := x * 100.0, y * 100.0;
    assert Round(a) as real - 0.5 <= a < Round(a) as real + 0.5;
    assert Round(b) as real - 0.5 <= b < Round(b) as real + 0.5;
    assert Round2(x) * 100.0 == Round(a) as real && Round2(y) * 100.0 == Round(b) as real;
  }

  /** Where a rounded number changes sign. */
  lemma RoundSign(x: real)
    ensures Round2(x) <= 0.0 <==> x < 0.005
    ensures Round2(x) >= 0.0 <==> x >= -0.005
  {
    var y := x * 100.0;
    assert Round(y) as real - 0.5 <= y < Round(y) as real + 0.5;
    assert Round2(x) * 100.0 == Round(y) as real;
  }
}
