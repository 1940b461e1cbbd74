/** Ordered-field facts used wherever the code divides, squares or averages. */
module RealArithmetic {
  function Max(a: real, b: real): real { if a >= b then a else b }
  function Min(a: real, b: real): real { if a <= b then a else b }

  lemma SquareIsPositive(x: real)
    ensures x * x >= 0.0
  {
  }

  lemma QuotientNonNegative(a: real, n: real)
    requires a >= 0.0 && n > 0.0
    ensures a / n >= 0.0
  {
  }

  lemma PositiveProduct(x: real, y: real)
    ensures x > 0.0 && y > 0.0 ==> x * y > 0.0
    ensures x >= 0.0 && y >= 0.0 ==> x * y >= 0.0
    ensures x < 0.0 && y > 0.0 ==> x * y < 0.0
  {
  }

  lemma SameQuotient(x: real, y: real, d: real)
    requires d > 0.0 && x * d == y
    ensures x == y / d
  {
  }

  lemma SquaresOrder(a: real, b: real)
    requires b >= 0.0
    ensures a * a <= b * b <==> -b <= a <= b
  {
    assert (b - a) * (b + a) == b * b - a * a;
    if -b <= a <= b {
      PositiveProduct(b - a, b + a);
    } else if a > b {
      PositiveProduct(b - a, b + a);
    } else {
      PositiveProduct(b + a, b - a);
      assert (b + a) * (b - a) == (b - a) * (b + a);
    }
  }

  lemma QuotientTimes(a: real, d: real)
    requires d > 0.0
    ensures (a / d) * d == a
  {
  }

  lemma ScaleOrder(x: real, y: real, d: real)
    requires d > 0.0
    ensures x <= y <==> x * d <= y * d
  {
    assert (y - x) * d == y * d - x * d;
    assert (x - y) * d == x * d - y * d;
    PositiveProduct(y - x, d);
    PositiveProduct(x - y, d);
  }

  lemma DivideOrder(a: real, x: real, d: real)
    requires d > 0.0
    ensures a / d <= x <==> a <= d * x
    ensures x <= a / d <==> d * x <= a
  {
    QuotientTimes(a, d);
    ScaleOrder(a / d, x, d);
    ScaleOrder(x, a / d, d);
  }

  lemma PositiveQuotient(a: real, n: real)
    requires a > 0.0 && n > 0.0
    ensures a / n > 0.0
  {
    DivideOrder(a, 0.0, n);
  }

  lemma QuotientOfSum(a: real, t: real, d: real)
    requires d > 0.0
    ensures (a - t) / d == a / d - t / d
    ensures (a + t) / d == a / d + t / d
  {
    var x, y := a / d, t / d;
    assert x * d == a && y * d == t;
    SameQuotient(x - y, a - t, d);
    SameQuotient(x + y, a + t, d);
  }

  lemma SumOfQuotients(a: real, b: real, d: real)
    requires d > 0.0 && a + b == d
    ensures a / d == 1.0 - b / d
  {
    var y := b / d;
    assert (1.0 - y) * d == d - b;
    SameQuotient(1.0 - y, a, d);
  }

  lemma QuotientMonotone(a: real, b: real, n: real)
    requires a <= b && n > 0.0
    ensures a / n <= b / n
  {
    QuotientTimes(b, n);
    DivideOrder(a, b / n, n);
  }
}
