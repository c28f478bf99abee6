// Closest-point distance from a point to a triangle by Voronoi regions
// (experimental_modeling/requirements.py:156-183), on squared distances. Each region test puts the
// candidate point in a supporting position: no point of the triangle is on the far side of the
// plane through it, so none is closer. In the face region the candidate is the foot of the
// perpendicular.
module TriangleDistance {
  import opened Vectors

  const AREA_FLOOR := 0.000000000000000000000001  // 1e-24
  const LENGTH_FLOOR := 0.000000000000000000000000000001  // 1e-30

  function Min(x: real, y: real): real { if x <= y then x else y }

  function Clamp01(x: real): real { if x <= 0.0 then 0.0 else if x >= 1.0 then 1.0 else x }

  function SegmentPoint(p: Vec, a: Vec, b: Vec): Vec {
    var edge := Sub(b, a);
    var length2 := Dot(edge, edge);
    if length2 <= LENGTH_FLOOR then a
    else Add(a, Mul(edge, Clamp01(Dot(Sub(p, a), edge) / length2)))
  }

  function PointSegment(p: Vec, a: Vec, b: Vec): real {
    SquaredDistance(p, SegmentPoint(p, a, b))
  }

  function ThreeSegments(p: Vec, a: Vec, b: Vec, c: Vec): real {
    Min(Min(PointSegment(p, a, b), PointSegment(p, b, c)), PointSegment(p, c, a))
  }

  // A barycentric area from four of the six dot products.
  function Area(x: real, y: real, u: real, v: real): real { x * y - u * v }

  // The last lines of the program: the point of the face with the given barycentric areas.
  function FaceDistance(p: Vec, a: Vec, b: Vec, c: Vec, va: real, vb: real, vc: real): real {
    var denominator := va + vb + vc;
    if -LENGTH_FLOOR < denominator < LENGTH_FLOOR then ThreeSegments(p, a, b, c)
    else
      SquaredDistance(p, Add(a, Add(Mul(Sub(b, a), vb / denominator),
                                    Mul(Sub(c, a), vc / denominator))))
  }

  // The region tests, in the order in which the program makes them. A division is reached only
  // when its divisor is nonzero: that is a proof obligation of this function.
  function PointTriangle(p: Vec, a: Vec, b: Vec, c: Vec): real {
    var ab, ac, ap := Sub(b, a), Sub(c, a), Sub(p, a);
    var area := Cross(ab, ac);
    if Dot(area, area) <= AREA_FLOOR then ThreeSegments(p, a, b, c)
    else
      Setup(p, a, b, c);
      EdgesPositive(a, b, c);
      EdgeSquare(a, b, c);
      var d1, d2 := Dot(ab, ap), Dot(ac, ap);
      if d1 <= 0.0 && d2 <= 0.0 then Square(ap)
      else
        var bp := Sub(p, b);
        var d3, d4 := Dot(ab, bp), Dot(ac, bp);
        if d3 >= 0.0 && d4 <= d3 then Square(bp)
        else
          var vc := Area(d1, d4, d3, d2);
          if vc <= 0.0 && d1 >= 0.0 && d3 <= 0.0 then
            SquaredDistance(p, Add(a, Mul(ab, d1 / (d1 - d3))))
          else
            var cp := Sub(p, c);
            var d5, d6 := Dot(ab, cp), Dot(ac, cp);
            if d6 >= 0.0 && d5 <= d6 then Square(cp)
            else
              var vb := Area(d5, d2, d1, d6);
              if vb <= 0.0 && d2 >= 0.0 && d6 <= 0.0 then
                SquaredDistance(p, Add(a, Mul(ac, d2 / (d2 - d6))))
              else
                var va := Area(d3, d6, d5, d4);
                if va <= 0.0 && d4 - d3 >= 0.0 && d5 - d6 >= 0.0 then
                  SquaredDistance(p, Add(b, Mul(Sub(c, b), (d4 - d3) / ((d4 - d3) + (d5 - d6)))))
                else
                  FaceDistance(p, a, b, c, va, vb, vc)
  }

  // ---- What the answer should be ----

  function At(a: Vec, b: Vec, c: Vec, s: real, t: real): Vec {
    Add(a, Add(Mul(Sub(b, a), s), Mul(Sub(c, a), t)))
  }

  predicate Weights(s: real, t: real) { s >= 0.0 && t >= 0.0 && s + t <= 1.0 }

  ghost predicate InTriangle(q: Vec, a: Vec, b: Vec, c: Vec) {
    exists s, t :: Weights(s, t) && q == At(a, b, c, s, t)
  }

  ghost predicate NoCloser(x: real, p: Vec, a: Vec, b: Vec, c: Vec) {
    forall s, t :: Weights(s, t) ==> x <= SquaredDistance(p, At(a, b, c, s, t))
  }

  ghost predicate Attained(x: real, p: Vec, a: Vec, b: Vec, c: Vec) {
    exists q :: InTriangle(q, a, b, c) && x == SquaredDistance(p, q)
  }

  // x is the square of the distance from p to the triangle abc.
  ghost predicate IsSquaredDistance(x: real, p: Vec, a: Vec, b: Vec, c: Vec) {
    Attained(x, p, a, b, c) && NoCloser(x, p, a, b, c)
  }

  // ---- Scalars: the six dot products in terms of the Gram matrix ----

  lemma DotShift(u: Vec, p: Vec, a: Vec, b: Vec)
    ensures Dot(u, Sub(p, b)) == Dot(u, Sub(p, a)) - Dot(u, Sub(b, a))
  {
  }

  lemma EdgeSquare(a: Vec, b: Vec, c: Vec)
    ensures Square(Sub(c, b)) ==
            Square(Sub(b, a)) - 2.0 * Dot(Sub(b, a), Sub(c, a)) + Square(Sub(c, a))
  {
    assert Sub(c, b) == Sub(Sub(c, a), Sub(b, a));
    SquareOfDifference(Sub(c, a), Sub(b, a));
  }

  lemma EdgesPositive(a: Vec, b: Vec, c: Vec)
    requires Square(Cross(Sub(b, a), Sub(c, a))) > 0.0
    ensures Square(Sub(b, a)) > 0.0
    ensures Square(Sub(c, a)) > 0.0
    ensures Square(Sub(c, b)) > 0.0
  {
    var ab, ac := Sub(b, a), Sub(c, a);
    if ab == Origin || ac == Origin || ab == ac {
      CrossVanishes(ab, ac);
      assert false;
    }
    SquareNonNegative(ab);
    SquareNonNegative(ac);
    SquareNonNegative(Sub(c, b));
  }

  lemma Setup(p: Vec, a: Vec, b: Vec, c: Vec)
    ensures var ab, ac, ap := Sub(b, a), Sub(c, a), Sub(p, a);
            var bp, cp := Sub(p, b), Sub(p, c);
            && Dot(ab, bp) == Dot(ab, ap) - Square(ab)
            && Dot(ac, bp) == Dot(ac, ap) - Dot(ab, ac)
            && Dot(ab, cp) == Dot(ab, ap) - Dot(ab, ac)
            && Dot(ac, cp) == Dot(ac, ap) - Square(ac)
  {
    var ab, ac := Sub(b, a), Sub(c, a);
    DotShift(ab, p, a, b);
    DotShift(ac, p, a, b);
    DotShift(ab, p, a, c);
    DotShift(ac, p, a, c);
  }

  // The program's products of dot products are the areas in Gram coordinates.
  lemma AreaForms(d1: real, d2: real, d3: real, d4: real, d5: real, d6: real,
                  g11: real, g12: real, g22: real)
    requires d3 == d1 - g11 && d4 == d2 - g12 && d5 == d1 - g12 && d6 == d2 - g22
    ensures Area(d1, d4, d3, d2) == Vc(d1, d2, g11, g12)
    ensures Area(d5, d2, d1, d6) == Vb(d1, d2, g12, g22)
    ensures Area(d3, d6, d5, d4) == Va(d1, d2, g11, g12, g22)
  {
  }

  lemma AreasOf(p: Vec, a: Vec, b: Vec, c: Vec)
    ensures var d1, d2 := Dot(Sub(b, a), Sub(p, a)), Dot(Sub(c, a), Sub(p, a));
            var d3, d4 := Dot(Sub(b, a), Sub(p, b)), Dot(Sub(c, a), Sub(p, b));
            var d5, d6 := Dot(Sub(b, a), Sub(p, c)), Dot(Sub(c, a), Sub(p, c));
            var g11, g12, g22 := Square(Sub(b, a)), Dot(Sub(b, a), Sub(c, a)), Square(Sub(c, a));
            && Area(d1, d4, d3, d2) == Vc(d1, d2, g11, g12)
            && Area(d5, d2, d1, d6) == Vb(d1, d2, g12, g22)
            && Area(d3, d6, d5, d4) == Va(d1, d2, g11, g12, g22)
  {
    Setup(p, a, b, c);
    AreaForms(Dot(Sub(b, a), Sub(p, a)), Dot(Sub(c, a), Sub(p, a)),
              Dot(Sub(b, a), Sub(p, b)), Dot(Sub(c, a), Sub(p, b)),
              Dot(Sub(b, a), Sub(p, c)), Dot(Sub(c, a), Sub(p, c)),
              Square(Sub(b, a)), Dot(Sub(b, a), Sub(c, a)), Square(Sub(c, a)));
  }

  // ---- Supporting planes ----

  // If q lies on or behind the plane through x normal to p - x, then q is no closer to p than x.
  lemma Support(p: Vec, x: Vec, q: Vec)
    requires Dot(Sub(p, x), Sub(q, x)) <= 0.0
    ensures SquaredDistance(p, x) <= SquaredDistance(p, q)
  {
    assert Sub(p, q) == Sub(Sub(p, x), Sub(q, x));
    SquareOfDifference(Sub(p, x), Sub(q, x));
    SquareNonNegative(Sub(q, x));
  }

  lemma AffineAxis(r: real, x: real, a: real, b: real, c: real, s: real, t: real)
    ensures r * (a + ((b - a) * s + (c - a) * t) - x)
            == (1.0 - s - t) * (r * (a - x)) + s * (r * (b - x)) + t * (r * (c - x))
  {
  }

  lemma AffineDot(r: Vec, x: Vec, a: Vec, b: Vec, c: Vec, s: real, t: real)
    ensures Dot(r, Sub(At(a, b, c, s, t), x))
            == (1.0 - s - t) * Dot(r, Sub(a, x)) + s * Dot(r, Sub(b, x)) + t * Dot(r, Sub(c, x))
  {
    AffineAxis(r.x, x.x, a.x, b.x, c.x, s, t);
    AffineAxis(r.y, x.y, a.y, b.y, c.y, s, t);
    AffineAxis(r.z, x.z, a.z, b.z, c.z, s, t);
  }

  lemma SupportTriangle(p: Vec, x: Vec, a: Vec, b: Vec, c: Vec)
    requires Dot(Sub(p, x), Sub(a, x)) <= 0.0
    requires Dot(Sub(p, x), Sub(b, x)) <= 0.0
    requires Dot(Sub(p, x), Sub(c, x)) <= 0.0
    ensures NoCloser(SquaredDistance(p, x), p, a, b, c)
  {
    forall s, t | Weights(s, t)
      ensures SquaredDistance(p, x) <= SquaredDistance(p, At(a, b, c, s, t))
    {
      SupportAt(p, x, Sub(p, x), a, b, c, s, t);
    }
  }

  lemma WeightedSum(s: real, t: real, da: real, db: real, dc: real)
    requires Weights(s, t) && da <= 0.0 && db <= 0.0 && dc <= 0.0
    ensures (1.0 - s - t) * da + s * db + t * dc <= 0.0
  {
    ProductSign(1.0 - s - t, da);
    ProductSign(s, db);
    ProductSign(t, dc);
  }

  lemma SupportAt(p: Vec, x: Vec, r: Vec, a: Vec, b: Vec, c: Vec, s: real, t: real)
    requires r == Sub(p, x) && Dot(r, Sub(a, x)) <= 0.0 && Dot(r, Sub(b, x)) <= 0.0 && Dot(r, Sub(c, x)) <= 0.0
    requires Weights(s, t)
    ensures SquaredDistance(p, x) <= SquaredDistance(p, At(a, b, c, s, t))
  {
    AffineDot(r, x, a, b, c, s, t);
    WeightedSum(s, t, Dot(r, Sub(a, x)), Dot(r, Sub(b, x)), Dot(r, Sub(c, x)));
    Support(p, x, At(a, b, c, s, t));
  }

  // A point of the triangle that supports it at distance x is the closest point.
  lemma Closest(p: Vec, x: Vec, a: Vec, b: Vec, c: Vec, s: real, t: real)
    requires Weights(s, t) && x == At(a, b, c, s, t)
    requires Dot(Sub(p, x), Sub(a, x)) <= 0.0
    requires Dot(Sub(p, x), Sub(b, x)) <= 0.0
    requires Dot(Sub(p, x), Sub(c, x)) <= 0.0
    ensures IsSquaredDistance(SquaredDistance(p, x), p, a, b, c)
  {
    SupportTriangle(p, x, a, b, c);
    assert InTriangle(x, a, b, c);
  }

  // ---- The six region tests in Gram coordinates ----
  // d1 = ab.ap, d2 = ac.ap and g11, g12, g22 are ab.ab, ab.ac, ac.ac.

  function Vc(d1: real, d2: real, g11: real, g12: real): real { g11 * d2 - g12 * d1 }

  function Vb(d1: real, d2: real, g12: real, g22: real): real { g22 * d1 - g12 * d2 }

  function Va(d1: real, d2: real, g11: real, g12: real, g22: real): real {
    (d1 - g11) * (d2 - g22) - (d1 - g12) * (d2 - g12)
  }

  predicate AllTestsFail(d1: real, d2: real, g11: real, g12: real, g22: real) {
    && !(d1 <= 0.0 && d2 <= 0.0)
    && !(d1 - g11 >= 0.0 && d2 - g12 <= d1 - g11)
    && !(d2 - g22 >= 0.0 && d1 - g12 <= d2 - g22)
    && !(Vc(d1, d2, g11, g12) <= 0.0 && d1 >= 0.0 && d1 - g11 <= 0.0)
    && !(Vb(d1, d2, g12, g22) <= 0.0 && d2 >= 0.0 && d2 - g22 <= 0.0)
    && !(Va(d1, d2, g11, g12, g22) <= 0.0
         && (d2 - g12) - (d1 - g11) >= 0.0 && (d1 - g12) - (d2 - g22) >= 0.0)
  }

  lemma BehindEdge(d1: real, d2: real, g11: real, g12: real, g22: real)
    requires g22 > 0.0 && g12 < 0.0 && g11 * g22 - g12 * g12 > 0.0
    requires d2 > 0.0 && g22 * d1 - g12 * d2 > 0.0
    ensures g11 * d2 - g12 * d1 > 0.0
  {
    ProductSign(-g12, g22 * d1 - g12 * d2);
    ProductSign(g11 * g22 - g12 * g12, d2);
    assert g22 * (g11 * d2 - g12 * d1)
        == (g11 * g22 - g12 * g12) * d2 + -g12 * (g22 * d1 - g12 * d2);
    ProductSign(g22, g11 * d2 - g12 * d1);
  }

  // To the side of a, the tests of a, ac and c leave a gap only on the inner side of the line ab.
  lemma BehindCorner(d1: real, d2: real, g11: real, g12: real, g22: real)
    requires g11 > 0.0 && g22 > 0.0 && g11 * g22 - g12 * g12 > 0.0
    requires d1 < 0.0 && d2 > 0.0
    requires !(Vb(d1, d2, g12, g22) <= 0.0 && d2 - g22 <= 0.0)
    requires !(d2 - g22 >= 0.0 && d1 - g12 <= d2 - g22)
    ensures Vc(d1, d2, g11, g12) > 0.0
  {
    ProductSign(g11, d2);
    if g12 >= 0.0 {
      ProductSign(g12, d1);
    } else if Vb(d1, d2, g12, g22) > 0.0 {
      BehindEdge(d1, d2, g11, g12, g22);
    } else {
      ProductSign(g11, d2 - g22);
      ProductSign(-g12, d1 - g12);
      assert g11 * (d2 - g22) == g11 * d2 - g11 * g22;
      assert -g12 * (d1 - g12) == g12 * g12 - g12 * d1;
    }
  }

  // The tests do not depend on the order in which the corners are named.
  lemma SwapCorners(d1: real, d2: real, g11: real, g12: real, g22: real)
    requires AllTestsFail(d1, d2, g11, g12, g22)
    ensures AllTestsFail(d2, d1, g22, g12, g11)
  {
  }

  lemma RenameAreas(d1: real, d2: real, g11: real, g12: real, g22: real)
    ensures var e1, e2 := g11 - d1, (d2 - g12) - (d1 - g11);
            var h12, h22 := g11 - g12, g11 - 2.0 * g12 + g22;
            && Vc(e1, e2, g11, h12) == Vc(d1, d2, g11, g12)
            && Vb(e1, e2, h12, h22) == Va(d1, d2, g11, g12, g22)
            && Va(e1, e2, g11, h12, h22) == Vb(d1, d2, g12, g22)
            && g11 * h22 - h12 * h12 == g11 * g22 - g12 * g12
  {
  }

  // Naming b first: the same triangle seen from b, with edges ba and bc.
  lemma RenameCorners(d1: real, d2: real, g11: real, g12: real, g22: real)
    requires AllTestsFail(d1, d2, g11, g12, g22)
    ensures AllTestsFail(g11 - d1, (d2 - g12) - (d1 - g11),
                         g11, g11 - g12, g11 - 2.0 * g12 + g22)
  {
    RenameAreas(d1, d2, g11, g12, g22);
  }

  lemma FacePositive(d1: real, d2: real, g11: real, g12: real, g22: real)
    requires g11 > 0.0 && g22 > 0.0 && g11 * g22 - g12 * g12 > 0.0
    requires g11 - 2.0 * g12 + g22 > 0.0
    requires AllTestsFail(d1, d2, g11, g12, g22)
    ensures Vc(d1, d2, g11, g12) > 0.0
  {
    if Vc(d1, d2, g11, g12) <= 0.0 {
      RenameAreas(d1, d2, g11, g12, g22);
      RenameCorners(d1, d2, g11, g12, g22);
      if d1 < 0.0 {
        BehindCorner(d1, d2, g11, g12, g22);
      } else {
        BehindCorner(g11 - d1, (d2 - g12) - (d1 - g11), g11, g11 - g12, g11 - 2.0 * g12 + g22);
      }
    }
  }

  // When every region test has failed the three barycentric areas are positive, and they add up
  // to the squared area, so the last guard of the program can never be taken.
  lemma AreasPositive(d1: real, d2: real, g11: real, g12: real, g22: real)
    requires g11 > 0.0 && g22 > 0.0 && g11 * g22 - g12 * g12 > 0.0
    requires g11 - 2.0 * g12 + g22 > 0.0
    requires AllTestsFail(d1, d2, g11, g12, g22)
    ensures Va(d1, d2, g11, g12, g22) > 0.0
    ensures Vb(d1, d2, g12, g22) > 0.0
    ensures Vc(d1, d2, g11, g12) > 0.0
  {
    FacePositive(d1, d2, g11, g12, g22);
    SwapCorners(d1, d2, g11, g12, g22);
    FacePositive(d2, d1, g22, g12, g11);
    var e1, e2 := g11 - d1, (d2 - g12) - (d1 - g11);
    var h12, h22 := g11 - g12, g11 - 2.0 * g12 + g22;
    RenameAreas(d1, d2, g11, g12, g22);
    RenameCorners(d1, d2, g11, g12, g22);
    SwapCorners(e1, e2, g11, h12, h22);
    FacePositive(e2, e1, h22, h12, g11);
  }

  lemma AreaSum(d1: real, d2: real, g11: real, g12: real, g22: real)
    ensures Va(d1, d2, g11, g12, g22) + Vb(d1, d2, g12, g22) + Vc(d1, d2, g11, g12)
            == g11 * g22 - g12 * g12
  {
  }

  // ---- Each answer supports the triangle ----

  lemma EdgeSupport(r: Vec, x: Vec, a: Vec, b: Vec, c: Vec, w: real)
    requires x == Add(a, Mul(Sub(b, a), w))
    requires Dot(Sub(b, a), r) == 0.0 && Dot(Sub(c, a), r) <= 0.0
    ensures Dot(r, Sub(a, x)) <= 0.0 && Dot(r, Sub(b, x)) <= 0.0 && Dot(r, Sub(c, x)) <= 0.0
  {
    AxisShift(r, x, a, a, Sub(b, a), w);
    AxisShift(r, x, b, a, Sub(b, a), w);
    AxisShift(r, x, c, a, Sub(b, a), w);
    DotLinear(r, Sub(b, a), a, 0.0);
    DotLinear(r, Sub(c, a), a, 0.0);
    assert Sub(a, a) == Origin && Dot(r, Origin) == 0.0;
  }

  lemma AxisShift(r: Vec, x: Vec, q: Vec, a: Vec, u: Vec, w: real)
    requires x == Add(a, Mul(u, w))
    ensures Dot(r, Sub(q, x)) == Dot(r, Sub(q, a)) - w * Dot(r, u)
  {
    assert Sub(q, x) == Sub(Sub(q, a), Mul(u, w));
    DotLinear(r, Sub(q, a), Mul(u, w), 0.0);
    DotLinear(r, u, u, w);
  }

  lemma Quotient(n: real, d: real)
    requires 0.0 <= n <= d && d > 0.0
    ensures 0.0 <= n / d <= 1.0
    ensures n / d * d == n
  {
  }

  // The foot of the perpendicular on the edge ab.
  lemma EdgeFoot(p: Vec, a: Vec, b: Vec, w: real)
    requires w * Square(Sub(b, a)) == Dot(Sub(b, a), Sub(p, a))
    ensures Dot(Sub(b, a), Sub(p, Add(a, Mul(Sub(b, a), w)))) == 0.0
  {
    var ab := Sub(b, a);
    assert Sub(p, Add(a, Mul(ab, w))) == Sub(Sub(p, a), Mul(ab, w));
    DotLinear(ab, Sub(p, a), Mul(ab, w), 0.0);
    DotLinear(ab, ab, ab, w);
  }

  lemma EdgeOther(p: Vec, a: Vec, b: Vec, c: Vec, w: real)
    ensures Dot(Sub(c, a), Sub(p, Add(a, Mul(Sub(b, a), w))))
            == Dot(Sub(c, a), Sub(p, a)) - w * Dot(Sub(b, a), Sub(c, a))
  {
    var ab, ac := Sub(b, a), Sub(c, a);
    assert Sub(p, Add(a, Mul(ab, w))) == Sub(Sub(p, a), Mul(ab, w));
    DotLinear(ac, Sub(p, a), Mul(ab, w), 0.0);
    DotLinear(ac, ab, ab, w);
    DotLinear(ab, ac, ac, 0.0);
  }

  lemma ScaledFoot(d1: real, d2: real, g11: real, g12: real, w: real)
    requires g11 > 0.0 && w * g11 == d1 && g11 * d2 - g12 * d1 <= 0.0
    ensures d2 - w * g12 <= 0.0
  {
    assert g11 * (d2 - w * g12) == g11 * d2 - g12 * (w * g11);
    ProductSign(g11, d2 - w * g12);
  }

  // The answer given in an edge region: the foot w on ab, with c on the far side.
  lemma EdgeRegion(p: Vec, a: Vec, b: Vec, c: Vec, w: real)
    requires Square(Sub(b, a)) > 0.0
    requires w * Square(Sub(b, a)) == Dot(Sub(b, a), Sub(p, a))
    requires Vc(Dot(Sub(b, a), Sub(p, a)), Dot(Sub(c, a), Sub(p, a)),
                Square(Sub(b, a)), Dot(Sub(b, a), Sub(c, a))) <= 0.0
    ensures var x := Add(a, Mul(Sub(b, a), w));
            && Dot(Sub(p, x), Sub(a, x)) <= 0.0
            && Dot(Sub(p, x), Sub(b, x)) <= 0.0
            && Dot(Sub(p, x), Sub(c, x)) <= 0.0
  {
    var x := Add(a, Mul(Sub(b, a), w));
    EdgeFoot(p, a, b, w);
    EdgeOther(p, a, b, c, w);
    ScaledFoot(Dot(Sub(b, a), Sub(p, a)), Dot(Sub(c, a), Sub(p, a)),
               Square(Sub(b, a)), Dot(Sub(b, a), Sub(c, a)), w);
    EdgeSupport(Sub(p, x), x, a, b, c, w);
  }

  lemma CornerRegion(p: Vec, a: Vec, b: Vec, c: Vec)
    requires Dot(Sub(b, a), Sub(p, a)) <= 0.0 && Dot(Sub(c, a), Sub(p, a)) <= 0.0
    ensures Dot(Sub(p, a), Sub(a, a)) <= 0.0
    ensures Dot(Sub(p, a), Sub(b, a)) <= 0.0
    ensures Dot(Sub(p, a), Sub(c, a)) <= 0.0
  {
    assert Sub(a, a) == Origin && Dot(Sub(p, a), Origin) == 0.0;
  }

  lemma Cramer(d1: real, d2: real, g11: real, g12: real, g22: real, s: real, t: real)
    requires g11 * g22 - g12 * g12 > 0.0
    requires s * (g11 * g22 - g12 * g12) == Vb(d1, d2, g12, g22)
    requires t * (g11 * g22 - g12 * g12) == Vc(d1, d2, g11, g12)
    ensures d1 == s * g11 + t * g12 && d2 == s * g12 + t * g22
  {
    var delta := g11 * g22 - g12 * g12;
    assert delta * d1 == g11 * Vb(d1, d2, g12, g22) + g12 * Vc(d1, d2, g11, g12);
    assert delta * d2 == g12 * Vb(d1, d2, g12, g22) + g22 * Vc(d1, d2, g11, g12);
    assert delta * (s * g11 + t * g12) == g11 * (s * delta) + g12 * (t * delta);
    assert delta * (s * g12 + t * g22) == g12 * (s * delta) + g22 * (t * delta);
    Cancel(delta, d1, s * g11 + t * g12);
    Cancel(delta, d2, s * g12 + t * g22);
  }

  lemma Cancel(k: real, x: real, y: real)
    requires k > 0.0 && k * x == k * y
    ensures x == y
  {
  }

  lemma FaceResidual(p: Vec, a: Vec, b: Vec, c: Vec, u: Vec, s: real, t: real)
    ensures Dot(u, Sub(p, At(a, b, c, s, t)))
            == Dot(u, Sub(p, a)) - s * Dot(u, Sub(b, a)) - t * Dot(u, Sub(c, a))
  {
    var ab, ac := Sub(b, a), Sub(c, a);
    assert Sub(p, At(a, b, c, s, t)) == Sub(Sub(p, a), Add(Mul(ab, s), Mul(ac, t)));
    DotLinear(u, Sub(p, a), Add(Mul(ab, s), Mul(ac, t)), 0.0);
    DotLinear(u, Mul(ab, s), Mul(ac, t), 0.0);
    DotLinear(u, ab, ab, s);
    DotLinear(u, ac, ac, t);
  }

  // A residual orthogonal to both edges is orthogonal to the whole face.
  lemma FaceFlat(r: Vec, a: Vec, b: Vec, c: Vec, s: real, t: real, q: Vec, s': real, t': real)
    requires q == At(a, b, c, s', t')
    requires Dot(Sub(b, a), r) == 0.0 && Dot(Sub(c, a), r) == 0.0
    ensures Dot(r, Sub(q, At(a, b, c, s, t))) == 0.0
  {
    var ab, ac := Sub(b, a), Sub(c, a);
    assert Sub(q, At(a, b, c, s, t)) == Add(Mul(ab, s' - s), Mul(ac, t' - t));
    DotLinear(r, Mul(ab, s' - s), Mul(ac, t' - t), 0.0);
    DotLinear(r, ab, ab, s' - s);
    DotLinear(r, ac, ac, t' - t);
  }

  lemma CornersAt(a: Vec, b: Vec, c: Vec)
    ensures At(a, b, c, 0.0, 0.0) == a
    ensures At(a, b, c, 1.0, 0.0) == b
    ensures At(a, b, c, 0.0, 1.0) == c
  {
    MulUnits(Sub(b, a));
    MulUnits(Sub(c, a));
  }

  lemma MulUnits(u: Vec)
    ensures Mul(u, 0.0) == Origin && Mul(u, 1.0) == u
  {
  }

  lemma EdgesAt(a: Vec, b: Vec, c: Vec, w: real)
    ensures At(a, b, c, w, 0.0) == Add(a, Mul(Sub(b, a), w))
    ensures At(a, b, c, 0.0, w) == Add(a, Mul(Sub(c, a), w))
    ensures At(a, b, c, 1.0 - w, w) == Add(b, Mul(Sub(c, b), w))
  {
  }

  predicate FaceCoordinates(p: Vec, a: Vec, b: Vec, c: Vec, s: real, t: real) {
    var ab, ac, ap := Sub(b, a), Sub(c, a), Sub(p, a);
    var delta := Square(ab) * Square(ac) - Dot(ab, ac) * Dot(ab, ac);
    && s * delta == Vb(Dot(ab, ap), Dot(ac, ap), Dot(ab, ac), Square(ac))
    && t * delta == Vc(Dot(ab, ap), Dot(ac, ap), Square(ab), Dot(ab, ac))
  }

  lemma FaceOrthogonal(p: Vec, a: Vec, b: Vec, c: Vec, s: real, t: real)
    requires Square(Cross(Sub(b, a), Sub(c, a))) > 0.0
    requires FaceCoordinates(p, a, b, c, s, t)
    ensures Dot(Sub(b, a), Sub(p, At(a, b, c, s, t))) == 0.0
    ensures Dot(Sub(c, a), Sub(p, At(a, b, c, s, t))) == 0.0
  {
    var ab, ac, ap := Sub(b, a), Sub(c, a), Sub(p, a);
    LagrangeIdentity(ab, ac);
    Cramer(Dot(ab, ap), Dot(ac, ap), Square(ab), Dot(ab, ac), Square(ac), s, t);
    FaceResidual(p, a, b, c, ab, s, t);
    FaceResidual(p, a, b, c, ac, s, t);
    DotLinear(ab, ac, ac, 0.0);
  }

  // ---- Exactness, one region at a time ----

  predicate Solid(a: Vec, b: Vec, c: Vec) { Square(Cross(Sub(b, a), Sub(c, a))) > AREA_FLOOR }

  predicate TakesA(p: Vec, a: Vec, b: Vec, c: Vec) {
    Dot(Sub(b, a), Sub(p, a)) <= 0.0 && Dot(Sub(c, a), Sub(p, a)) <= 0.0
  }

  predicate TakesB(p: Vec, a: Vec, b: Vec, c: Vec) {
    Dot(Sub(b, a), Sub(p, b)) >= 0.0 && Dot(Sub(c, a), Sub(p, b)) <= Dot(Sub(b, a), Sub(p, b))
  }

  predicate TakesAB(p: Vec, a: Vec, b: Vec, c: Vec) {
    && Area(Dot(Sub(b, a), Sub(p, a)), Dot(Sub(c, a), Sub(p, b)),
            Dot(Sub(b, a), Sub(p, b)), Dot(Sub(c, a), Sub(p, a))) <= 0.0
    && Dot(Sub(b, a), Sub(p, a)) >= 0.0 && Dot(Sub(b, a), Sub(p, b)) <= 0.0
  }

  predicate TakesC(p: Vec, a: Vec, b: Vec, c: Vec) {
    Dot(Sub(c, a), Sub(p, c)) >= 0.0 && Dot(Sub(b, a), Sub(p, c)) <= Dot(Sub(c, a), Sub(p, c))
  }

  predicate TakesAC(p: Vec, a: Vec, b: Vec, c: Vec) {
    && Area(Dot(Sub(b, a), Sub(p, c)), Dot(Sub(c, a), Sub(p, a)),
            Dot(Sub(b, a), Sub(p, a)), Dot(Sub(c, a), Sub(p, c))) <= 0.0
    && Dot(Sub(c, a), Sub(p, a)) >= 0.0 && Dot(Sub(c, a), Sub(p, c)) <= 0.0
  }

  predicate TakesBC(p: Vec, a: Vec, b: Vec, c: Vec) {
    && Area(Dot(Sub(b, a), Sub(p, b)), Dot(Sub(c, a), Sub(p, c)),
            Dot(Sub(b, a), Sub(p, c)), Dot(Sub(c, a), Sub(p, b))) <= 0.0
    && Dot(Sub(c, a), Sub(p, b)) - Dot(Sub(b, a), Sub(p, b)) >= 0.0
    && Dot(Sub(b, a), Sub(p, c)) - Dot(Sub(c, a), Sub(p, c)) >= 0.0
  }

  lemma AtB(p: Vec, a: Vec, b: Vec, c: Vec)
    requires Dot(Sub(b, a), Sub(p, b)) >= 0.0
    requires Dot(Sub(c, a), Sub(p, b)) <= Dot(Sub(b, a), Sub(p, b))
    ensures IsSquaredDistance(Square(Sub(p, b)), p, a, b, c)
  {
    var bp := Sub(p, b);
    BetweenCorners(bp, a, b, c);
    DotNegated(bp, a, b);
    CornerRegion(p, b, a, c);
    CornersAt(a, b, c);
    Closest(p, b, a, b, c, 1.0, 0.0);
  }

  lemma BetweenCorners(r: Vec, a: Vec, b: Vec, c: Vec)
    ensures Dot(Sub(c, b), r) == Dot(Sub(c, a), r) - Dot(Sub(b, a), r)
  {
    assert Sub(c, b) == Sub(Sub(c, a), Sub(b, a));
    DotLinear(r, Sub(c, a), Sub(b, a), 0.0);
  }

  lemma DotNegated(r: Vec, a: Vec, b: Vec)
    ensures Dot(Sub(a, b), r) == -Dot(Sub(b, a), r)
  {
  }

  lemma AtC(p: Vec, a: Vec, b: Vec, c: Vec)
    requires Dot(Sub(c, a), Sub(p, c)) >= 0.0
    requires Dot(Sub(b, a), Sub(p, c)) <= Dot(Sub(c, a), Sub(p, c))
    ensures IsSquaredDistance(Square(Sub(p, c)), p, a, b, c)
  {
    var cp := Sub(p, c);
    BetweenCorners(cp, a, c, b);
    DotNegated(cp, a, c);
    CornerRegion(p, c, a, b);
    CornersAt(a, b, c);
    Closest(p, c, a, b, c, 0.0, 1.0);
  }

  lemma AtAB(p: Vec, a: Vec, b: Vec, c: Vec)
    requires Square(Sub(b, a)) > 0.0
    requires 0.0 <= Dot(Sub(b, a), Sub(p, a)) <= Square(Sub(b, a))
    requires Vc(Dot(Sub(b, a), Sub(p, a)), Dot(Sub(c, a), Sub(p, a)),
                Square(Sub(b, a)), Dot(Sub(b, a), Sub(c, a))) <= 0.0
    ensures IsSquaredDistance(SquaredDistance(p, Add(a, Mul(Sub(b, a),
              Dot(Sub(b, a), Sub(p, a)) / Square(Sub(b, a))))), p, a, b, c)
  {
    var w := Dot(Sub(b, a), Sub(p, a)) / Square(Sub(b, a));
    Quotient(Dot(Sub(b, a), Sub(p, a)), Square(Sub(b, a)));
    EdgeRegion(p, a, b, c, w);
    var x := Add(a, Mul(Sub(b, a), w));
    EdgesAt(a, b, c, w);
    Closest(p, x, a, b, c, w, 0.0);
  }

  // The edge bc seen from b, in the Gram coordinates taken at a.
  lemma SeenFromB(p: Vec, a: Vec, b: Vec, c: Vec)
    ensures var d1, d2 := Dot(Sub(b, a), Sub(p, a)), Dot(Sub(c, a), Sub(p, a));
            var g11, g12, g22 := Square(Sub(b, a)), Dot(Sub(b, a), Sub(c, a)), Square(Sub(c, a));
            && Dot(Sub(c, b), Sub(p, b)) == (d2 - g12) - (d1 - g11)
            && Dot(Sub(a, b), Sub(p, b)) == g11 - d1
            && Dot(Sub(c, b), Sub(a, b)) == g11 - g12
            && Square(Sub(c, b)) == g11 - 2.0 * g12 + g22
  {
    Setup(p, a, b, c);
    EdgeSquare(a, b, c);
    BetweenCorners(Sub(p, b), a, b, c);
    DotNegated(Sub(p, b), a, b);
    DotNegated(Sub(c, b), a, b);
    BetweenCorners(Sub(b, a), a, b, c);
    DotLinear(Sub(b, a), Sub(c, b), Sub(c, b), 0.0);
    DotLinear(Sub(b, a), Sub(c, a), Sub(c, a), 0.0);
    DotLinear(Sub(a, b), Sub(c, b), Sub(c, b), 0.0);
  }

  lemma AreaRenamed(e1: real, e2: real, h12: real, h22: real,
                    d1: real, d2: real, g11: real, g12: real, g22: real)
    requires e1 == g11 - d1 && e2 == (d2 - g12) - (d1 - g11)
    requires h12 == g11 - g12 && h22 == g11 - 2.0 * g12 + g22
    ensures Vc(e2, e1, h22, h12) == Va(d1, d2, g11, g12, g22)
  {
    RenameAreas(d1, d2, g11, g12, g22);
  }

  lemma AreaFromB(p: Vec, a: Vec, b: Vec, c: Vec)
    ensures Vc(Dot(Sub(c, b), Sub(p, b)), Dot(Sub(a, b), Sub(p, b)),
               Square(Sub(c, b)), Dot(Sub(c, b), Sub(a, b)))
            == Va(Dot(Sub(b, a), Sub(p, a)), Dot(Sub(c, a), Sub(p, a)),
                  Square(Sub(b, a)), Dot(Sub(b, a), Sub(c, a)), Square(Sub(c, a)))
  {
    SeenFromB(p, a, b, c);
    AreaRenamed(Dot(Sub(a, b), Sub(p, b)), Dot(Sub(c, b), Sub(p, b)),
                Dot(Sub(c, b), Sub(a, b)), Square(Sub(c, b)),
                Dot(Sub(b, a), Sub(p, a)), Dot(Sub(c, a), Sub(p, a)),
                Square(Sub(b, a)), Dot(Sub(b, a), Sub(c, a)), Square(Sub(c, a)));
  }

  lemma AtBC(p: Vec, x: Vec, a: Vec, b: Vec, c: Vec, w: real)
    requires Square(Sub(c, b)) > 0.0 && x == Add(b, Mul(Sub(c, b), w))
    requires 0.0 <= w <= 1.0 && w * Square(Sub(c, b)) == Dot(Sub(c, b), Sub(p, b))
    requires Vc(Dot(Sub(c, b), Sub(p, b)), Dot(Sub(a, b), Sub(p, b)),
                Square(Sub(c, b)), Dot(Sub(c, b), Sub(a, b))) <= 0.0
    ensures IsSquaredDistance(SquaredDistance(p, x), p, a, b, c)
  {
    EdgeRegion(p, b, c, a, w);
    EdgesAt(a, b, c, w);
    Closest(p, x, a, b, c, 1.0 - w, w);
  }

  lemma FaceCorners(r: Vec, x: Vec, a: Vec, b: Vec, c: Vec, s: real, t: real)
    requires x == At(a, b, c, s, t)
    requires Dot(Sub(b, a), r) == 0.0 && Dot(Sub(c, a), r) == 0.0
    ensures Dot(r, Sub(a, x)) == 0.0 && Dot(r, Sub(b, x)) == 0.0 && Dot(r, Sub(c, x)) == 0.0
  {
    CornersAt(a, b, c);
    FaceFlat(r, a, b, c, s, t, a, 0.0, 0.0);
    FaceFlat(r, a, b, c, s, t, b, 1.0, 0.0);
    FaceFlat(r, a, b, c, s, t, c, 0.0, 1.0);
  }

  lemma AtFace(p: Vec, x: Vec, a: Vec, b: Vec, c: Vec, s: real, t: real)
    requires Weights(s, t) && x == At(a, b, c, s, t)
    requires Dot(Sub(b, a), Sub(p, x)) == 0.0
    requires Dot(Sub(c, a), Sub(p, x)) == 0.0
    ensures IsSquaredDistance(SquaredDistance(p, x), p, a, b, c)
  {
    FaceCorners(Sub(p, x), x, a, b, c, s, t);
    Closest(p, x, a, b, c, s, t);
  }

  lemma AreaWeights(va: real, vb: real, vc: real, delta: real)
    requires va >= 0.0 && vb >= 0.0 && vc >= 0.0 && va + vb + vc == delta && delta > 0.0
    ensures Weights(vb / delta, vc / delta)
    ensures vb / delta * delta == vb && vc / delta * delta == vc
  {
    Quotient(vb, delta);
    Quotient(vc, delta);
    Quotient(vb + vc, delta);
    assert (vb + vc) / delta == vb / delta + vc / delta;
  }

  lemma AtAC(p: Vec, a: Vec, b: Vec, c: Vec)
    requires Square(Sub(c, a)) > 0.0
    requires 0.0 <= Dot(Sub(c, a), Sub(p, a)) <= Square(Sub(c, a))
    requires Vb(Dot(Sub(b, a), Sub(p, a)), Dot(Sub(c, a), Sub(p, a)),
                Dot(Sub(b, a), Sub(c, a)), Square(Sub(c, a))) <= 0.0
    ensures IsSquaredDistance(SquaredDistance(p, Add(a, Mul(Sub(c, a),
              Dot(Sub(c, a), Sub(p, a)) / Square(Sub(c, a))))), p, a, b, c)
  {
    var w := Dot(Sub(c, a), Sub(p, a)) / Square(Sub(c, a));
    Quotient(Dot(Sub(c, a), Sub(p, a)), Square(Sub(c, a)));
    DotLinear(Sub(b, a), Sub(c, a), Sub(c, a), 0.0);
    EdgeRegion(p, a, c, b, w);
    var x := Add(a, Mul(Sub(c, a), w));
    EdgesAt(a, b, c, w);
    Closest(p, x, a, b, c, 0.0, w);
  }

  lemma CaseA(p: Vec, a: Vec, b: Vec, c: Vec)
    requires Solid(a, b, c) && TakesA(p, a, b, c)
    ensures IsSquaredDistance(PointTriangle(p, a, b, c), p, a, b, c)
  {
    CornerRegion(p, a, b, c);
    CornersAt(a, b, c);
    Closest(p, a, a, b, c, 0.0, 0.0);
  }

  lemma CaseB(p: Vec, a: Vec, b: Vec, c: Vec)
    requires Solid(a, b, c) && !TakesA(p, a, b, c) && TakesB(p, a, b, c)
    ensures IsSquaredDistance(PointTriangle(p, a, b, c), p, a, b, c)
  {
    AtB(p, a, b, c);
  }

  lemma CaseC(p: Vec, a: Vec, b: Vec, c: Vec)
    requires Solid(a, b, c) && !TakesA(p, a, b, c) && !TakesB(p, a, b, c) && !TakesAB(p, a, b, c)
    requires TakesC(p, a, b, c)
    ensures IsSquaredDistance(PointTriangle(p, a, b, c), p, a, b, c)
  {
    AtC(p, a, b, c);
  }

  lemma CaseAB(p: Vec, a: Vec, b: Vec, c: Vec)
    requires Solid(a, b, c) && !TakesA(p, a, b, c) && !TakesB(p, a, b, c) && TakesAB(p, a, b, c)
    ensures IsSquaredDistance(PointTriangle(p, a, b, c), p, a, b, c)
  {
    Setup(p, a, b, c);
    EdgesPositive(a, b, c);
    AreasOf(p, a, b, c);
    AtAB(p, a, b, c);
  }

  lemma CaseAC(p: Vec, a: Vec, b: Vec, c: Vec)
    requires Solid(a, b, c) && !TakesA(p, a, b, c) && !TakesB(p, a, b, c) && !TakesAB(p, a, b, c)
    requires !TakesC(p, a, b, c) && TakesAC(p, a, b, c)
    ensures IsSquaredDistance(PointTriangle(p, a, b, c), p, a, b, c)
  {
    Setup(p, a, b, c);
    EdgesPositive(a, b, c);
    AreasOf(p, a, b, c);
    AtAC(p, a, b, c);
  }

  lemma CaseBC(p: Vec, a: Vec, b: Vec, c: Vec)
    requires Solid(a, b, c) && !TakesA(p, a, b, c) && !TakesB(p, a, b, c) && !TakesAB(p, a, b, c)
    requires !TakesC(p, a, b, c) && !TakesAC(p, a, b, c) && TakesBC(p, a, b, c)
    ensures IsSquaredDistance(PointTriangle(p, a, b, c), p, a, b, c)
  {
    EdgeBC(p, a, b, c);
    var d43 := Dot(Sub(c, a), Sub(p, b)) - Dot(Sub(b, a), Sub(p, b));
    var d56 := Dot(Sub(b, a), Sub(p, c)) - Dot(Sub(c, a), Sub(p, c));
    var w := d43 / (d43 + d56);
    Quotient(d43, d43 + d56);
    AtBC(p, Add(b, Mul(Sub(c, b), w)), a, b, c, w);
  }

  lemma EdgeBC(p: Vec, a: Vec, b: Vec, c: Vec)
    requires Solid(a, b, c) && TakesBC(p, a, b, c)
    ensures var d43 := Dot(Sub(c, a), Sub(p, b)) - Dot(Sub(b, a), Sub(p, b));
            var d56 := Dot(Sub(b, a), Sub(p, c)) - Dot(Sub(c, a), Sub(p, c));
            d43 == Dot(Sub(c, b), Sub(p, b)) && d43 + d56 == Square(Sub(c, b)) > 0.0
    ensures Vc(Dot(Sub(c, b), Sub(p, b)), Dot(Sub(a, b), Sub(p, b)),
               Square(Sub(c, b)), Dot(Sub(c, b), Sub(a, b))) <= 0.0
  {
    Setup(p, a, b, c);
    EdgesPositive(a, b, c);
    AreasOf(p, a, b, c);
    SeenFromB(p, a, b, c);
    AreaFromB(p, a, b, c);
  }

  lemma FaceScalars(d1: real, d2: real, d3: real, d4: real, d5: real, d6: real,
                    g11: real, g12: real, g22: real)
    requires d3 == d1 - g11 && d4 == d2 - g12 && d5 == d1 - g12 && d6 == d2 - g22
    requires g11 > 0.0 && g22 > 0.0 && g11 * g22 - g12 * g12 > 0.0 && g11 - 2.0 * g12 + g22 > 0.0
    requires !(d1 <= 0.0 && d2 <= 0.0)
    requires !(d3 >= 0.0 && d4 <= d3)
    requires !(Area(d1, d4, d3, d2) <= 0.0 && d1 >= 0.0 && d3 <= 0.0)
    requires !(d6 >= 0.0 && d5 <= d6)
    requires !(Area(d5, d2, d1, d6) <= 0.0 && d2 >= 0.0 && d6 <= 0.0)
    requires !(Area(d3, d6, d5, d4) <= 0.0 && d4 - d3 >= 0.0 && d5 - d6 >= 0.0)
    ensures Area(d3, d6, d5, d4) > 0.0
    ensures Area(d5, d2, d1, d6) == Vb(d1, d2, g12, g22) > 0.0
    ensures Area(d1, d4, d3, d2) == Vc(d1, d2, g11, g12) > 0.0
    ensures (Area(d3, d6, d5, d4)) + (Area(d5, d2, d1, d6)) + (Area(d1, d4, d3, d2)) == g11 * g22 - g12 * g12
  {
    AreaSum(d1, d2, g11, g12, g22);
    AreaForms(d1, d2, d3, d4, d5, d6, g11, g12, g22);
    AreasPositive(d1, d2, g11, g12, g22);
  }

  lemma GramOfTriangle(a: Vec, b: Vec, c: Vec) returns (g11: real, g12: real, g22: real)
    requires Square(Cross(Sub(b, a), Sub(c, a))) > 0.0
    ensures g11 == Square(Sub(b, a)) && g12 == Dot(Sub(b, a), Sub(c, a)) && g22 == Square(Sub(c, a))
    ensures g11 > 0.0 && g22 > 0.0 && g11 - 2.0 * g12 + g22 > 0.0
    ensures g11 * g22 - g12 * g12 == Square(Cross(Sub(b, a), Sub(c, a)))
  {
    EdgesPositive(a, b, c);
    EdgeSquare(a, b, c);
    LagrangeIdentity(Sub(b, a), Sub(c, a));
    g11, g12, g22 := Square(Sub(b, a)), Dot(Sub(b, a), Sub(c, a)), Square(Sub(c, a));
  }

  // When no test holds the three areas are positive and add up to the squared area, so the last
  // guard of the program cannot be taken and the weights are those of the perpendicular's foot.
  lemma CaseFace(p: Vec, a: Vec, b: Vec, c: Vec)
    requires Solid(a, b, c) && !TakesA(p, a, b, c) && !TakesB(p, a, b, c) && !TakesAB(p, a, b, c)
    requires !TakesC(p, a, b, c) && !TakesAC(p, a, b, c) && !TakesBC(p, a, b, c)
    ensures IsSquaredDistance(PointTriangle(p, a, b, c), p, a, b, c)
  {
    var g11, g12, g22 := GramOfTriangle(a, b, c);
    var d1, d2 := Dot(Sub(b, a), Sub(p, a)), Dot(Sub(c, a), Sub(p, a));
    var d3, d4 := Dot(Sub(b, a), Sub(p, b)), Dot(Sub(c, a), Sub(p, b));
    var d5, d6 := Dot(Sub(b, a), Sub(p, c)), Dot(Sub(c, a), Sub(p, c));
    Setup(p, a, b, c);
    FaceScalars(d1, d2, d3, d4, d5, d6, g11, g12, g22);
    FaceAnswer(p, a, b, c, d1, d2, d3, d4, d5, d6, g11, g12, g22);
  }

  lemma FaceBranch(p: Vec, a: Vec, b: Vec, c: Vec,
                   d1: real, d2: real, d3: real, d4: real, d5: real, d6: real)
    requires Solid(a, b, c) && !TakesA(p, a, b, c) && !TakesB(p, a, b, c) && !TakesAB(p, a, b, c)
    requires !TakesC(p, a, b, c) && !TakesAC(p, a, b, c) && !TakesBC(p, a, b, c)
    requires d1 == Dot(Sub(b, a), Sub(p, a)) && d2 == Dot(Sub(c, a), Sub(p, a))
    requires d3 == Dot(Sub(b, a), Sub(p, b)) && d4 == Dot(Sub(c, a), Sub(p, b))
    requires d5 == Dot(Sub(b, a), Sub(p, c)) && d6 == Dot(Sub(c, a), Sub(p, c))
    ensures PointTriangle(p, a, b, c)
            == FaceDistance(p, a, b, c, Area(d3, d6, d5, d4), Area(d5, d2, d1, d6), Area(d1, d4, d3, d2))
  {
  }

  lemma FaceAnswer(p: Vec, a: Vec, b: Vec, c: Vec,
                   d1: real, d2: real, d3: real, d4: real, d5: real, d6: real,
                   g11: real, g12: real, g22: real)
    requires Solid(a, b, c) && !TakesA(p, a, b, c) && !TakesB(p, a, b, c) && !TakesAB(p, a, b, c)
    requires !TakesC(p, a, b, c) && !TakesAC(p, a, b, c) && !TakesBC(p, a, b, c)
    requires d1 == Dot(Sub(b, a), Sub(p, a)) && d2 == Dot(Sub(c, a), Sub(p, a))
    requires d3 == Dot(Sub(b, a), Sub(p, b)) && d4 == Dot(Sub(c, a), Sub(p, b))
    requires d5 == Dot(Sub(b, a), Sub(p, c)) && d6 == Dot(Sub(c, a), Sub(p, c))
    requires g11 == Square(Sub(b, a)) && g12 == Dot(Sub(b, a), Sub(c, a)) && g22 == Square(Sub(c, a))
    requires g11 * g22 - g12 * g12 > AREA_FLOOR
    requires Area(d3, d6, d5, d4) > 0.0
    requires Area(d5, d2, d1, d6) == Vb(d1, d2, g12, g22) > 0.0
    requires Area(d1, d4, d3, d2) == Vc(d1, d2, g11, g12) > 0.0
    requires (Area(d3, d6, d5, d4)) + (Area(d5, d2, d1, d6)) + (Area(d1, d4, d3, d2)) == g11 * g22 - g12 * g12
    ensures IsSquaredDistance(PointTriangle(p, a, b, c), p, a, b, c)
  {
    var va, vb, vc := Area(d3, d6, d5, d4), Area(d5, d2, d1, d6), Area(d1, d4, d3, d2);
    AreaWeights(va, vb, vc, va + vb + vc);
    var s, t := vb / (va + vb + vc), vc / (va + vb + vc);
    FaceBranch(p, a, b, c, d1, d2, d3, d4, d5, d6);
    assert FaceDistance(p, a, b, c, va, vb, vc) == SquaredDistance(p, At(a, b, c, s, t));
    FaceOrthogonal(p, a, b, c, s, t);
    AtFace(p, At(a, b, c, s, t), a, b, c, s, t);
  }

  // Above the area floor the answer is the squared distance to the triangle.
  lemma TriangleExact(p: Vec, a: Vec, b: Vec, c: Vec)
    requires Solid(a, b, c)
    ensures IsSquaredDistance(PointTriangle(p, a, b, c), p, a, b, c)
  {
    if TakesA(p, a, b, c) {
      CaseA(p, a, b, c);
    } else if TakesB(p, a, b, c) {
      CaseB(p, a, b, c);
    } else if TakesAB(p, a, b, c) {
      CaseAB(p, a, b, c);
    } else if TakesC(p, a, b, c) {
      CaseC(p, a, b, c);
    } else if TakesAC(p, a, b, c) {
      CaseAC(p, a, b, c);
    } else if TakesBC(p, a, b, c) {
      CaseBC(p, a, b, c);
    } else {
      CaseFace(p, a, b, c);
    }
  }
}
