// The triangle inequality without square roots: bounds on squared lengths.
module Norms {
  import opened Vectors

  lemma SquareGrows(x: real, y: real)
    ensures y >= 0.0 && x > y ==> x * x > y * y
  {
    if y >= 0.0 && x > y {
      ProductSign(x - y, x + y);
    }
  }

  lemma RootOrdered(d: real, c: real, dd: real, cc: real)
    requires c >= 0.0 && dd == d * d && cc == c * c && dd <= cc
    ensures d <= c
  {
    SquareGrows(d, c);
  }

  lemma DotBound(d: real, p: real, r: real, a: real, b: real)
    requires a >= 0.0 && b >= 0.0 && d * d <= p * r && 0.0 <= p <= a * a && 0.0 <= r <= b * b
    ensures d <= a * b
  {
    ProductSign(a, b);
    ProductsOrdered(p, a * a, r, b * b);
    SquaresMultiply(a, b, a * b);
    RootOrdered(d, a * b, d * d, (a * b) * (a * b));
  }

  // Two squared lengths within squared bounds: the inner product is within the product.
  lemma DotWithin(u: Vec, v: Vec, a: real, b: real)
    requires a >= 0.0 && b >= 0.0 && Square(u) <= a * a && Square(v) <= b * b
    ensures Dot(u, v) <= a * b
  {
    SquareNonNegative(u);
    SquareNonNegative(v);
    SquaredDot(u, v);
    DotBound(Dot(u, v), Square(u), Square(v), a, b);
  }

  // Cauchy and Schwarz.
  lemma SquaredDot(u: Vec, v: Vec)
    ensures Dot(u, v) * Dot(u, v) <= Square(u) * Square(v)
  {
    LagrangeIdentity(u, v);
    SquareNonNegative(Cross(u, v));
  }

  lemma ProductsOrdered(p: real, q: real, r: real, s: real)
    requires 0.0 <= p <= q && 0.0 <= r <= s
    ensures p * r <= q * s
  {
    ProductSign(q - p, r);
    ProductSign(q, s - r);
  }

  lemma SquaresMultiply(a: real, b: real, c: real)
    requires c == a * b
    ensures (a * a) * (b * b) == c * c
  {
  }

  // The triangle inequality, on squares.
  lemma SumWithin(u: Vec, v: Vec, a: real, b: real)
    requires a >= 0.0 && b >= 0.0 && Square(u) <= a * a && Square(v) <= b * b
    ensures Square(Add(u, v)) <= (a + b) * (a + b)
  {
    DotWithin(u, v, a, b);
    SquareOfSum(u, v);
    assert (a + b) * (a + b) == a * a + 2.0 * (a * b) + b * b;
  }

  lemma SquareOfSum(u: Vec, v: Vec)
    ensures Square(Add(u, v)) == Square(u) + 2.0 * Dot(u, v) + Square(v)
  {
  }
}
