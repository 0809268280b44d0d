/** Products and quotients of reals. */
module Reals {
  lemma Divides(x: real, n: real)
    requires n != 0.0
    ensures n * (x / n) == x
  {
  }

  lemma NonNegativeProduct(a: real, b: real)
    requires a >= 0.0 && b >= 0.0
    ensures a * b >= 0.0
  {
  }

  lemma SameSign(n: real, y: real)
    requires n > 0.0
    ensures n * y >= 0.0 <==> y >= 0.0
    ensures n * y == 0.0 <==> y == 0.0
  {
  }

  lemma Cancel(a: real, b: real, m: real)
    requires m > 0.0 && a * m == b * m
    ensures a == b
  {
    assert (a - b) * m == a * m - b * m;
    SameSign(m, a - b);
  }

  lemma DivMonotone(a: real, b: real, m: real)
    requires a <= b && m > 0.0
    ensures a / m <= b / m
  {
    var x, y := a / m, b / m;
    Divides(a, m);
    Divides(b, m);
    assert m * (y - x) == m * y - m * x;
    SameSign(m, y - x);
  }
}
