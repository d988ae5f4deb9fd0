// Facts about exact real division and products that the solver needs spelled out.
module Reals {
  lemma QuotientIs(a: real, b: real, x: real)
    requires b != 0.0 && x * b == a
    ensures a / b == x
  {
  }

  lemma QuotientAdds(a: real, b: real, d: real)
    requires d != 0.0
    ensures (a + b) / d == a / d + b / d
  {
    QuotientIs(a + b, d, a / d + b / d);
  }

  lemma CancelRight(a: real, b: real, c: real)
    requires c != 0.0 && a * c == b * c
    ensures a == b
  {
    QuotientIs(a * c, c, a);
    QuotientIs(b * c, c, b);
  }

  lemma Distribute(u: real, a: real, b: real)
    ensures u * (a + b) == u * a + u * b
  {
  }

  lemma PositiveProduct(x: real, y: real)
    requires x > 0.0 && y > 0.0
    ensures x * y > 0.0
  {
  }

  lemma ProductSign(x: real, y: real, product: real)
    requires product == x * y && ((x > 0.0 && y > 0.0) || (x < 0.0 && y < 0.0))
    ensures product > 0.0
  {
  }

  lemma SquareSign(x: real, sq: real)
    requires sq == x * x
    ensures sq >= 0.0
    ensures sq == 0.0 <==> x == 0.0
  {
    if x != 0.0 {
      ProductSign(x, x, sq);
    }
  }

  lemma SignOfFactor(x: real, y: real)
    requires x * y >= 0.0 && y > 0.0
    ensures x >= 0.0
  {
  }
}
