// Three-dimensional vectors over exact reals (experimental_modeling/requirements.py:118-123).
module Vectors {
  datatype Vec = Vec(x: real, y: real, z: real)

  function Add(a: Vec, b: Vec): Vec { Vec(a.x + b.x, a.y + b.y, a.z + b.z) }

  function Sub(a: Vec, b: Vec): Vec { Vec(a.x - b.x, a.y - b.y, a.z - b.z) }

  function Mul(a: Vec, s: real): Vec { Vec(a.x * s, a.y * s, a.z * s) }

  function Dot(a: Vec, b: Vec): real { a.x * b.x + a.y * b.y + a.z * b.z }

  function Cross(a: Vec, b: Vec): Vec {
    Vec(a.y * b.z - a.z * b.y, a.z * b.x - a.x * b.z, a.x * b.y - a.y * b.x)
  }

  // The square of `norm`; every comparison of norms is made on these squares.
  function Square(a: Vec): real { Dot(a, a) }

  function SquaredDistance(a: Vec, b: Vec): real { Square(Sub(a, b)) }

  const Origin := Vec(0.0, 0.0, 0.0)

  lemma ProductSign(a: real, b: real)
    ensures a >= 0.0 && b >= 0.0 ==> a * b >= 0.0
    ensures a >= 0.0 && b <= 0.0 ==> a * b <= 0.0
    ensures a > 0.0 && b > 0.0 ==> a * b > 0.0
  {
  }

  // Squares are stated as products of two equal factors, a form the solver keeps apart from
  // its own square terms.
  lemma EqualFactors(x: real, y: real)
    requires x == y
    ensures x * y >= 0.0
    ensures x != 0.0 ==> x * y > 0.0
  {
  }

  lemma SumOfProducts(a: Vec, b: Vec)
    requires a == b
    ensures a.x * b.x + a.y * b.y + a.z * b.z >= 0.0
    ensures a != Origin ==> a.x * b.x + a.y * b.y + a.z * b.z > 0.0
  {
    EqualFactors(a.x, b.x);
    EqualFactors(a.y, b.y);
    EqualFactors(a.z, b.z);
  }

  lemma DotPositive(a: Vec, b: Vec)
    requires a == b
    ensures Dot(a, b) >= 0.0
    ensures a != Origin ==> Dot(a, b) > 0.0
  {
    SumOfProducts(a, b);
  }

  lemma SquareNonNegative(a: Vec)
    ensures Square(a) >= 0.0
    ensures a != Origin ==> Square(a) > 0.0
  {
    DotPositive(a, a);
  }

  lemma CrossVanishes(a: Vec, b: Vec)
    requires a == Origin || b == Origin || a == b
    ensures Cross(a, b) == Origin
  {
  }

  lemma DotLinear(a: Vec, b: Vec, c: Vec, s: real)
    ensures Dot(a, Add(b, c)) == Dot(a, b) + Dot(a, c)
    ensures Dot(a, Sub(b, c)) == Dot(a, b) - Dot(a, c)
    ensures Dot(a, Mul(b, s)) == s * Dot(a, b)
    ensures Dot(a, b) == Dot(b, a)
  {
  }

  // The square of a difference.
  lemma SquareOfDifference(a: Vec, b: Vec)
    ensures Square(Sub(a, b)) == Square(a) - 2.0 * Dot(a, b) + Square(b)
  {
  }

  lemma LagrangeIdentity(a: Vec, b: Vec)
    ensures Square(Cross(a, b)) == Square(a) * Square(b) - Dot(a, b) * Dot(a, b)
  {
  }
}
