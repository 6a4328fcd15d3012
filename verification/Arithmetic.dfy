/** Products and quotients of reals: the facts the solver is slow to find. */
module Arithmetic {
  lemma Quotient(x: real, n: real)
    requires n > 0.0
    ensures x / n * n == x
  {
  }

  lemma Cancel(x: real, y: real, n: real)
    requires n > 0.0 && x * n == y * n
    ensures x == y
  {
    assert (x - y) * n == 0.0;
  }

  lemma Negate(x: real, y: real)
    ensures (0.0 - x) * y == 0.0 - x * y
  {
  }

  lemma SignOfProduct(product: real, x: real, y: real)
    requires y > 0.0 && product == x * y
    ensures product > 0.0 <==> x > 0.0
  {
    if x <= 0.0 {
      assert (0.0 - x) * y >= 0.0;
    }
  }

  /** Multiplying by a positive number keeps an order. */
  lemma Scale(x: real, y: real, n: real)
    requires n > 0.0
    ensures (x <= y <==> x * n <= y * n) && (x < y <==> x * n < y * n)
  {
    SignOfProduct((y - x) * n, y - x, n);
    SignOfProduct((x - y) * n, x - y, n);
    assert (y - x) * n == y * n - x * n && (x - y) * n == x * n - y * n;
  }

  /** Squares compare as the numbers do. */
  lemma Squares(x: real, y: real)
    requires x >= 0.0 && y >= 0.0
    ensures (x <= y <==> x * x <= y * y) && (x < y <==> x * x < y * y)
  {
    assert y * y - x * x == (y - x) * (y + x);
    if x + y > 0.0 {
      SignOfProduct((y - x) * (y + x), y - x, y + x);
      SignOfProduct((x - y) * (y + x), x - y, y + x);
      assert (x - y) * (y + x) == x * x - y * y;
    }
  }
}
