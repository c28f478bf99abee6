// What the three-segment fallback measures (experimental_modeling/requirements.py:156-168, 182):
// the distance to the boundary of the triangle, which is the distance to the triangle exactly
// when the foot of the perpendicular does not fall strictly inside. Then some point of the
// boundary is closest, by the same region tests as above the area floor; and otherwise the foot
// is closer than every point of the boundary. A triangle without area has no such foot.
module TriangleFallback {
  import opened Norms
  import opened Vectors
  import opened TriangleDistance

  function OnSegment(a: Vec, b: Vec, w: real): Vec { Add(a, Mul(Sub(b, a), w)) }

  ghost predicate Resolved(a: Vec, b: Vec) { a == b || Square(Sub(b, a)) > LENGTH_FLOOR }

  lemma SubOrigin(b: Vec, a: Vec)
    ensures Sub(b, a) == Origin <==> b == a
  {
  }

  lemma EdgePositive(a: Vec, b: Vec)
    requires a != b
    ensures Square(Sub(b, a)) > 0.0
  {
    SquareNonNegative(Sub(b, a));
    SubOrigin(b, a);
  }

  // The squared distance to a segment, however short.
  function ExactSegment(p: Vec, a: Vec, b: Vec): real { SquaredDistance(p, SegmentFoot(p, a, b)) }

  function SegmentFoot(p: Vec, a: Vec, b: Vec): Vec {
    if a == b then a
    else
      EdgePositive(a, b);
      OnSegment(a, b, Clamp01(Dot(Sub(p, a), Sub(b, a)) / Square(Sub(b, a))))
  }

  // No edge comes closer than the fallback says. The program departs from this only on an edge that
  // is too short for its division.
  predicate EdgesMeasured(p: Vec, a: Vec, b: Vec, c: Vec) {
    AtMostAll(ThreeSegments(p, a, b, c), ExactSegment(p, a, b), ExactSegment(p, b, c), ExactSegment(p, c, a))
  }

  predicate AtMostAll(x: real, u: real, v: real, w: real) { x <= u && x <= v && x <= w }

  // The guard of the short-edge branch, and the side of the first end on which it makes no mistake.
  predicate EdgeMeasured(p: Vec, a: Vec, b: Vec) {
    a == b || Square(Sub(b, a)) > LENGTH_FLOOR || Dot(Sub(p, a), Sub(b, a)) <= 0.0
  }

  // Some nearest edge is measured.
  predicate NearestMeasured(p: Vec, a: Vec, b: Vec, c: Vec) {
    var u, v, w := ExactSegment(p, a, b), ExactSegment(p, b, c), ExactSegment(p, c, a);
    || (EdgeMeasured(p, a, b) && AtMostAll(u, u, v, w))
    || (EdgeMeasured(p, b, c) && AtMostAll(v, u, v, w))
    || (EdgeMeasured(p, c, a) && AtMostAll(w, u, v, w))
  }

  // The foot of the perpendicular from p has three positive barycentric areas.
  predicate FootInside(p: Vec, a: Vec, b: Vec, c: Vec) {
    var d1, d2 := Dot(Sub(b, a), Sub(p, a)), Dot(Sub(c, a), Sub(p, a));
    var g11, g12, g22 := Square(Sub(b, a)), Dot(Sub(b, a), Sub(c, a)), Square(Sub(c, a));
    Va(d1, d2, g11, g12, g22) > 0.0 && Vb(d1, d2, g12, g22) > 0.0 && Vc(d1, d2, g11, g12) > 0.0
  }

  lemma SegmentAttained(p: Vec, a: Vec, b: Vec) returns (w: real)
    ensures 0.0 <= w <= 1.0 && PointSegment(p, a, b) == SquaredDistance(p, OnSegment(a, b, w))
  {
    if Square(Sub(b, a)) <= LENGTH_FLOOR {
      w := 0.0;
      MulUnits(Sub(b, a));
      assert OnSegment(a, b, 0.0) == a;
    } else {
      w := Clamp01(Dot(Sub(p, a), Sub(b, a)) / Square(Sub(b, a)));
    }
  }

  // Moving along a segment from x changes the residual's dot product in proportion.
  lemma AlongSegment(r: Vec, a: Vec, b: Vec, w: real, w': real)
    ensures Dot(r, Sub(OnSegment(a, b, w'), OnSegment(a, b, w))) == (w' - w) * Dot(r, Sub(b, a))
  {
    assert Sub(OnSegment(a, b, w'), OnSegment(a, b, w)) == Mul(Sub(b, a), w' - w);
    DotLinear(r, Sub(b, a), Sub(b, a), w' - w);
  }

  lemma ResidualOnSegment(p: Vec, a: Vec, b: Vec, w: real)
    ensures Dot(Sub(p, OnSegment(a, b, w)), Sub(b, a))
            == Dot(Sub(p, a), Sub(b, a)) - w * Square(Sub(b, a))
  {
    assert Sub(p, OnSegment(a, b, w)) == Sub(Sub(p, a), Mul(Sub(b, a), w));
    DotLinear(Sub(b, a), Sub(p, a), Mul(Sub(b, a), w), 0.0);
    DotLinear(Sub(b, a), Sub(b, a), Sub(b, a), w);
    DotLinear(Sub(p, OnSegment(a, b, w)), Sub(b, a), Sub(b, a), 0.0);
    DotLinear(Sub(p, a), Sub(b, a), Sub(b, a), 0.0);
  }

  lemma ClampScalars(d: real, g: real, w': real)
    requires g > 0.0 && 0.0 <= w' <= 1.0
    ensures var w := Clamp01(d / g); (w' - w) * (d - w * g) <= 0.0
  {
    var w := Clamp01(d / g);
    assert d / g * g == d;
    if d / g <= 0.0 {
      ProductSign(-(d / g), g);
      ProductSign(w', -d);
    } else if d / g >= 1.0 {
      ProductSign(d / g - 1.0, g);
      ProductSign(1.0 - w', d - g);
    }
  }

  lemma SegmentLeast(p: Vec, a: Vec, b: Vec, w': real)
    requires 0.0 <= w' <= 1.0
    ensures ExactSegment(p, a, b) <= SquaredDistance(p, OnSegment(a, b, w'))
  {
    if a == b {
      assert Sub(b, a) == Origin;
      assert OnSegment(a, b, w') == a;
    } else {
      EdgePositive(a, b);
      var w := Clamp01(Dot(Sub(p, a), Sub(b, a)) / Square(Sub(b, a)));
      var x := OnSegment(a, b, w);
      ClampScalars(Dot(Sub(p, a), Sub(b, a)), Square(Sub(b, a)), w');
      ResidualOnSegment(p, a, b, w);
      AlongSegment(Sub(p, x), a, b, w, w');
      Support(p, x, OnSegment(a, b, w'));
    }
  }

  lemma ExactAttained(p: Vec, a: Vec, b: Vec) returns (w: real)
    ensures 0.0 <= w <= 1.0 && ExactSegment(p, a, b) == SquaredDistance(p, OnSegment(a, b, w))
  {
    if a == b {
      w := 0.0;
      MulUnits(Sub(b, a));
      assert OnSegment(a, b, 0.0) == a;
    } else {
      EdgePositive(a, b);
      w := Clamp01(Dot(Sub(p, a), Sub(b, a)) / Square(Sub(b, a)));
    }
  }

  lemma ResolvedSegment(p: Vec, a: Vec, b: Vec)
    requires Resolved(a, b)
    ensures PointSegment(p, a, b) == ExactSegment(p, a, b)
  {
    if a == b {
      assert Sub(b, a) == Origin;
    }
  }

  // ---- When a segment is measured ----

  lemma SegmentSquare(p: Vec, a: Vec, b: Vec, w: real)
    ensures SquaredDistance(p, OnSegment(a, b, w))
         == SquaredDistance(p, a) - 2.0 * (w * Dot(Sub(p, a), Sub(b, a))) + (w * w) * Square(Sub(b, a))
  {
    var u, e := Sub(p, a), Sub(b, a);
    assert Sub(p, OnSegment(a, b, w)) == Sub(u, Mul(e, w));
    SquareOfStep(u, e, w);
  }

  lemma SquareOfStep(u: Vec, e: Vec, w: real)
    ensures Square(Sub(u, Mul(e, w))) == Square(u) - 2.0 * (w * Dot(u, e)) + (w * w) * Square(e)
  {
    StepAxis(u.x, e.x, w);
    StepAxis(u.y, e.y, w);
    StepAxis(u.z, e.z, w);
  }

  lemma StepAxis(u: real, e: real, w: real)
    ensures (u - e * w) * (u - e * w) == u * u - 2.0 * (w * (u * e)) + (w * w) * (e * e)
  {
  }

  // A clamped foot away from the first end is strictly closer.
  lemma FootGains(d: real, g: real, w: real)
    requires g > 0.0 && d > 0.0 && w == Clamp01(d / g)
    ensures (w * w) * g < 2.0 * (w * d)
  {
    var q := d / g;
    assert q * g == d;
    if q <= 0.0 {
      ProductSign(-q, g);
    }
    if q >= 1.0 {
      ProductSign(q - 1.0, g);
    }
    assert w > 0.0 && w * g <= d;
    ProductSign(w, d - w * g);
    ProductSign(w, d);
    assert (w * w) * g == w * (w * g);
  }

  lemma SegmentAbove(p: Vec, a: Vec, b: Vec)
    ensures ExactSegment(p, a, b) <= PointSegment(p, a, b)
  {
    var w := SegmentAttained(p, a, b);
    SegmentLeast(p, a, b, w);
  }

  // The program's distance to a segment is exact if and only if the segment is measured.
  lemma SegmentExactIff(p: Vec, a: Vec, b: Vec)
    ensures PointSegment(p, a, b) == ExactSegment(p, a, b) <==> EdgeMeasured(p, a, b)
  {
    if Resolved(a, b) {
      ResolvedSegment(p, a, b);
    } else {
      EdgePositive(a, b);
      var d, g := Dot(Sub(p, a), Sub(b, a)), Square(Sub(b, a));
      var w := Clamp01(d / g);
      SegmentSquare(p, a, b, w);
      if d <= 0.0 {
        QuotientSign(d, g);
        assert OnSegment(a, b, 0.0) == a;
      } else {
        FootGains(d, g, w);
      }
    }
  }

  lemma QuotientSign(d: real, g: real)
    requires g > 0.0 && d <= 0.0
    ensures d / g <= 0.0
  {
    var q := d / g;
    assert q * g == d;
    if q > 0.0 {
      ProductSign(q, g);
    }
  }

  lemma NearestScalars(x: real, y: real, z: real, u: real, v: real, w: real, i: bool, j: bool, k: bool, least: real)
    requires u <= x && v <= y && w <= z && least == Min(Min(x, y), z)
    requires (x == u <==> i) && (y == v <==> j) && (z == w <==> k)
    ensures AtMostAll(least, u, v, w)
       <==> (i && AtMostAll(u, u, v, w)) || (j && AtMostAll(v, u, v, w)) || (k && AtMostAll(w, u, v, w))
  {
  }

  // No edge comes closer than the fallback says exactly when some nearest edge is measured.
  lemma MeasuredIff(p: Vec, a: Vec, b: Vec, c: Vec)
    ensures EdgesMeasured(p, a, b, c) <==> NearestMeasured(p, a, b, c)
  {
    SegmentAbove(p, a, b);
    SegmentAbove(p, b, c);
    SegmentAbove(p, c, a);
    SegmentExactIff(p, a, b);
    SegmentExactIff(p, b, c);
    SegmentExactIff(p, c, a);
    NearestScalars(PointSegment(p, a, b), PointSegment(p, b, c), PointSegment(p, c, a),
                   ExactSegment(p, a, b), ExactSegment(p, b, c), ExactSegment(p, c, a),
                   EdgeMeasured(p, a, b), EdgeMeasured(p, b, c), EdgeMeasured(p, c, a), ThreeSegments(p, a, b, c));
  }

  // With edges of no length or of more than 1e-15, nothing is left out.
  lemma ResolvedIsMeasured(p: Vec, a: Vec, b: Vec, c: Vec)
    requires Resolved(a, b) && Resolved(b, c) && Resolved(c, a)
    ensures EdgesMeasured(p, a, b, c) && NearestMeasured(p, a, b, c)
  {
    ResolvedSegment(p, a, b);
    ResolvedSegment(p, b, c);
    ResolvedSegment(p, c, a);
    LeastIsBelow(PointSegment(p, a, b), PointSegment(p, b, c), PointSegment(p, c, a),
                 ExactSegment(p, a, b), ExactSegment(p, b, c), ExactSegment(p, c, a), ThreeSegments(p, a, b, c));
    MeasuredIff(p, a, b, c);
  }

  lemma LeastIsBelow(x: real, y: real, z: real, u: real, v: real, w: real, least: real)
    requires x == u && y == v && z == w && least == Min(Min(x, y), z)
    ensures AtMostAll(least, u, v, w)
  {
  }

  // ---- The boundary ----

  predicate EdgeWeights(s: real, t: real) {
    Weights(s, t) && (s == 0.0 || t == 0.0 || s + t == 1.0)
  }

  ghost predicate OnBoundary(q: Vec, a: Vec, b: Vec, c: Vec) {
    exists s, t :: EdgeWeights(s, t) && q == At(a, b, c, s, t)
  }

  lemma EdgeWitness(q: Vec, a: Vec, b: Vec, c: Vec, s: real, t: real)
    requires EdgeWeights(s, t) && q == At(a, b, c, s, t)
    ensures OnBoundary(q, a, b, c)
  {
  }

  lemma EdgeCoordinates(q: Vec, a: Vec, b: Vec, c: Vec) returns (s: real, t: real)
    requires OnBoundary(q, a, b, c)
    ensures EdgeWeights(s, t) && q == At(a, b, c, s, t)
  {
    s, t :| EdgeWeights(s, t) && q == At(a, b, c, s, t);
  }

  lemma SegmentsOnTriangle(a: Vec, b: Vec, c: Vec, w: real)
    ensures OnSegment(a, b, w) == At(a, b, c, w, 0.0)
    ensures OnSegment(b, c, w) == At(a, b, c, 1.0 - w, w)
    ensures OnSegment(c, a, w) == At(a, b, c, 0.0, 1.0 - w)
  {
    EdgesAt(a, b, c, w);
    EdgesAt(a, b, c, 1.0 - w);
    assert OnSegment(c, a, w) == OnSegment(a, c, 1.0 - w);
  }

  lemma SegmentPointsOnBoundary(a: Vec, b: Vec, c: Vec, w: real)
    requires 0.0 <= w <= 1.0
    ensures OnBoundary(OnSegment(a, b, w), a, b, c)
    ensures OnBoundary(OnSegment(b, c, w), a, b, c)
    ensures OnBoundary(OnSegment(c, a, w), a, b, c)
  {
    SegmentsOnTriangle(a, b, c, w);
    EdgeWitness(OnSegment(a, b, w), a, b, c, w, 0.0);
    EdgeWitness(OnSegment(b, c, w), a, b, c, 1.0 - w, w);
    EdgeWitness(OnSegment(c, a, w), a, b, c, 0.0, 1.0 - w);
  }

  lemma BoundaryInTriangle(q: Vec, a: Vec, b: Vec, c: Vec)
    requires OnBoundary(q, a, b, c)
    ensures InTriangle(q, a, b, c)
  {
    var s, t := EdgeCoordinates(q, a, b, c);
    assert Weights(s, t);
  }

  // Always: the fallback is the squared distance to some boundary point.
  lemma FallbackOnBoundary(p: Vec, a: Vec, b: Vec, c: Vec) returns (q: Vec)
    ensures OnBoundary(q, a, b, c) && ThreeSegments(p, a, b, c) == SquaredDistance(p, q)
  {
    var u := SegmentAttained(p, a, b);
    var v := SegmentAttained(p, b, c);
    var w := SegmentAttained(p, c, a);
    SegmentPointsOnBoundary(a, b, c, u);
    SegmentPointsOnBoundary(a, b, c, v);
    SegmentPointsOnBoundary(a, b, c, w);
    if ThreeSegments(p, a, b, c) == PointSegment(p, a, b) {
      q := OnSegment(a, b, u);
    } else if ThreeSegments(p, a, b, c) == PointSegment(p, b, c) {
      q := OnSegment(b, c, v);
    } else {
      q := OnSegment(c, a, w);
    }
  }

  lemma OnOneSegment(q: Vec, a: Vec, b: Vec, c: Vec) returns (edge: nat, w: real)
    requires OnBoundary(q, a, b, c)
    ensures 0.0 <= w <= 1.0
    ensures edge == 0 ==> q == OnSegment(a, b, w)
    ensures edge == 1 ==> q == OnSegment(b, c, w)
    ensures edge > 1 ==> q == OnSegment(c, a, w)
  {
    var s, t := EdgeCoordinates(q, a, b, c);
    if t == 0.0 {
      edge, w := 0, s;
    } else if s == 0.0 {
      edge, w := 2, 1.0 - t;
    } else {
      edge, w := 1, t;
    }
    SegmentsOnTriangle(a, b, c, w);
  }

  lemma LeastOfThree(x: real, y: real, z: real)
    ensures var m := Min(Min(x, y), z); m <= x && m <= y && m <= z
  {
  }

  // No boundary point is closer exactly when no edge is.
  lemma FallbackBelowBoundary(p: Vec, a: Vec, b: Vec, c: Vec, q: Vec)
    requires EdgesMeasured(p, a, b, c) && OnBoundary(q, a, b, c)
    ensures ThreeSegments(p, a, b, c) <= SquaredDistance(p, q)
  {
    var edge, w := OnOneSegment(q, a, b, c);
    if edge == 0 {
      SegmentLeast(p, a, b, w);
    } else if edge == 1 {
      SegmentLeast(p, b, c, w);
    } else {
      SegmentLeast(p, c, a, w);
    }
  }

  lemma NoCloserIsMeasured(p: Vec, a: Vec, b: Vec, c: Vec)
    requires NoCloser(ThreeSegments(p, a, b, c), p, a, b, c)
    ensures EdgesMeasured(p, a, b, c)
  {
    var u := ExactAttained(p, a, b);
    var v := ExactAttained(p, b, c);
    var w := ExactAttained(p, c, a);
    SegmentsOnTriangle(a, b, c, u);
    SegmentsOnTriangle(a, b, c, v);
    SegmentsOnTriangle(a, b, c, w);
    assert Weights(u, 0.0) && Weights(1.0 - v, v) && Weights(0.0, 1.0 - w);
  }

  // For every input, whichever branch answers, some point of the triangle is at that distance.
  lemma AnswerAttained(p: Vec, a: Vec, b: Vec, c: Vec)
    ensures Attained(PointTriangle(p, a, b, c), p, a, b, c)
  {
    if Solid(a, b, c) {
      TriangleExact(p, a, b, c);
    } else {
      var q := FallbackOnBoundary(p, a, b, c);
      BoundaryInTriangle(q, a, b, c);
    }
  }

  // ---- When the boundary holds the closest point ----

  lemma SegmentStart(a: Vec, b: Vec)
    ensures OnSegment(a, b, 0.0) == a
  {
    MulUnits(Sub(b, a));
  }

  lemma CornersOnBoundary(a: Vec, b: Vec, c: Vec)
    ensures OnBoundary(a, a, b, c) && OnBoundary(b, a, b, c) && OnBoundary(c, a, b, c)
  {
    SegmentPointsOnBoundary(a, b, c, 0.0);
    SegmentStart(a, b);
    SegmentStart(b, c);
    SegmentStart(c, a);
  }

  lemma CornerA(p: Vec, a: Vec, b: Vec, c: Vec)
    requires TakesA(p, a, b, c)
    ensures OnBoundary(a, a, b, c) && IsSquaredDistance(SquaredDistance(p, a), p, a, b, c)
  {
    CornersOnBoundary(a, b, c);
    CornersAt(a, b, c);
    CornerRegion(p, a, b, c);
    Closest(p, a, a, b, c, 0.0, 0.0);
  }

  lemma CornerB(p: Vec, a: Vec, b: Vec, c: Vec)
    requires TakesB(p, a, b, c)
    ensures OnBoundary(b, a, b, c) && IsSquaredDistance(SquaredDistance(p, b), p, a, b, c)
  {
    CornersOnBoundary(a, b, c);
    AtB(p, a, b, c);
  }

  lemma CornerC(p: Vec, a: Vec, b: Vec, c: Vec)
    requires TakesC(p, a, b, c)
    ensures OnBoundary(c, a, b, c) && IsSquaredDistance(SquaredDistance(p, c), p, a, b, c)
  {
    CornersOnBoundary(a, b, c);
    AtC(p, a, b, c);
  }

  lemma CornerClosest(p: Vec, a: Vec, b: Vec, c: Vec,
                      d1: real, d2: real, g11: real, g12: real, g22: real) returns (q: Vec)
    requires d1 == Dot(Sub(b, a), Sub(p, a)) && d2 == Dot(Sub(c, a), Sub(p, a))
    requires g11 == Square(Sub(b, a)) && g12 == Dot(Sub(b, a), Sub(c, a)) && g22 == Square(Sub(c, a))
    requires || (d1 <= 0.0 && d2 <= 0.0)
             || (d1 - g11 >= 0.0 && d2 - g12 <= d1 - g11)
             || (d2 - g22 >= 0.0 && d1 - g12 <= d2 - g22)
    ensures OnBoundary(q, a, b, c) && IsSquaredDistance(SquaredDistance(p, q), p, a, b, c)
  {
    Setup(p, a, b, c);
    if d1 <= 0.0 && d2 <= 0.0 {
      q := a;
      CornerA(p, a, b, c);
    } else if d1 - g11 >= 0.0 && d2 - g12 <= d1 - g11 {
      q := b;
      CornerB(p, a, b, c);
    } else {
      q := c;
      CornerC(p, a, b, c);
    }
  }

  lemma EdgeClosest(p: Vec, a: Vec, b: Vec, c: Vec,
                    d1: real, d2: real, g11: real, g12: real, g22: real) returns (q: Vec)
    requires d1 == Dot(Sub(b, a), Sub(p, a)) && d2 == Dot(Sub(c, a), Sub(p, a))
    requires g11 == Square(Sub(b, a)) && g12 == Dot(Sub(b, a), Sub(c, a)) && g22 == Square(Sub(c, a))
    requires g11 > 0.0 && g22 > 0.0
    requires || (Vc(d1, d2, g11, g12) <= 0.0 && d1 >= 0.0 && d1 - g11 <= 0.0)
             || (Vb(d1, d2, g12, g22) <= 0.0 && d2 >= 0.0 && d2 - g22 <= 0.0)
    ensures OnBoundary(q, a, b, c) && IsSquaredDistance(SquaredDistance(p, q), p, a, b, c)
  {
    if Vc(d1, d2, g11, g12) <= 0.0 && d1 >= 0.0 && d1 - g11 <= 0.0 {
      AtAB(p, a, b, c);
      Quotient(d1, g11);
      q := OnSegment(a, b, d1 / g11);
      SegmentPointsOnBoundary(a, b, c, d1 / g11);
    } else {
      AtAC(p, a, b, c);
      Quotient(d2, g22);
      q := OnSegment(a, c, d2 / g22);
      assert q == OnSegment(c, a, 1.0 - d2 / g22);
      SegmentPointsOnBoundary(a, b, c, 1.0 - d2 / g22);
    }
  }

  lemma FootFraction(e: real, h: real) returns (w: real)
    requires 0.0 <= e <= h && h > 0.0
    ensures 0.0 <= w <= 1.0 && w * h == e
  {
    w := e / h;
    Quotient(e, h);
  }

  lemma FarEdgeClosest(p: Vec, a: Vec, b: Vec, c: Vec,
                       d1: real, d2: real, g11: real, g12: real, g22: real) returns (q: Vec)
    requires d1 == Dot(Sub(b, a), Sub(p, a)) && d2 == Dot(Sub(c, a), Sub(p, a))
    requires g11 == Square(Sub(b, a)) && g12 == Dot(Sub(b, a), Sub(c, a)) && g22 == Square(Sub(c, a))
    requires g11 - 2.0 * g12 + g22 > 0.0
    requires Va(d1, d2, g11, g12, g22) <= 0.0
    requires (d2 - g12) - (d1 - g11) >= 0.0 && (d1 - g12) - (d2 - g22) >= 0.0
    ensures OnBoundary(q, a, b, c) && IsSquaredDistance(SquaredDistance(p, q), p, a, b, c)
  {
    SeenFromB(p, a, b, c);
    AreaFromB(p, a, b, c);
    var w := FootFraction(Dot(Sub(c, b), Sub(p, b)), Square(Sub(c, b)));
    q := OnSegment(b, c, w);
    SegmentPointsOnBoundary(a, b, c, w);
    AtBC(p, q, a, b, c, w);
  }

  lemma BoundaryClosest(p: Vec, a: Vec, b: Vec, c: Vec) returns (q: Vec)
    requires Square(Cross(Sub(b, a), Sub(c, a))) > 0.0
    requires !FootInside(p, a, b, c)
    ensures OnBoundary(q, a, b, c) && IsSquaredDistance(SquaredDistance(p, q), p, a, b, c)
  {
    var d1, d2 := Dot(Sub(b, a), Sub(p, a)), Dot(Sub(c, a), Sub(p, a));
    var g11, g12, g22 := GramOfTriangle(a, b, c);
    if AllTestsFail(d1, d2, g11, g12, g22) {
      AreasPositive(d1, d2, g11, g12, g22);
      assert false;
    }
    if || (d1 <= 0.0 && d2 <= 0.0)
       || (d1 - g11 >= 0.0 && d2 - g12 <= d1 - g11)
       || (d2 - g22 >= 0.0 && d1 - g12 <= d2 - g22) {
      q := CornerClosest(p, a, b, c, d1, d2, g11, g12, g22);
    } else if || (Vc(d1, d2, g11, g12) <= 0.0 && d1 >= 0.0 && d1 - g11 <= 0.0)
              || (Vb(d1, d2, g12, g22) <= 0.0 && d2 >= 0.0 && d2 - g22 <= 0.0) {
      q := EdgeClosest(p, a, b, c, d1, d2, g11, g12, g22);
    } else {
      q := FarEdgeClosest(p, a, b, c, d1, d2, g11, g12, g22);
    }
  }

  // ---- When it does not ----

  lemma SignFromSum(g: real, e: real, m: real, n: real)
    requires g > 0.0 && g * e == m + n && m >= 0.0 && n > 0.0
    ensures e > 0.0
  {
    ProductSign(g, -e);
  }

  // The Gram form is positive; x' and y' repeat x and y.
  lemma GramFormPositive(x: real, y: real, x': real, y': real, g11: real, g12: real, g22: real)
    requires g11 > 0.0 && g11 * g22 - g12 * g12 > 0.0
    requires x == x' && y == y' && (x != 0.0 || y != 0.0)
    ensures x * x' * g11 + (x * y' + y * x') * g12 + y * y' * g22 > 0.0
  {
    var e := x * x' * g11 + (x * y' + y * x') * g12 + y * y' * g22;
    var m, m' := x * g11 + y * g12, x' * g11 + y' * g12;
    var delta := g11 * g22 - g12 * g12;
    assert g11 * e == m * m' + (y * y') * delta;
    EqualFactors(m, m');
    EqualFactors(x, x');
    EqualFactors(y, y');
    if y == 0.0 {
      ProductSign(x * x', g11);
    } else {
      ProductSign(y * y', delta);
      SignFromSum(g11, e, m * m', (y * y') * delta);
    }
  }

  lemma OriginDot(u: Vec, v: Vec)
    ensures u == Origin ==> Dot(u, v) == 0.0
  {
  }

  lemma CombinationDot(u: Vec, v: Vec, w: Vec, x: real, y: real)
    ensures Dot(Add(Mul(u, x), Mul(v, y)), w) == x * Dot(u, w) + y * Dot(v, w)
  {
    DotLinear(w, Mul(u, x), Mul(v, y), 0.0);
    DotLinear(w, u, u, x);
    DotLinear(w, v, v, y);
    DotLinear(Add(Mul(u, x), Mul(v, y)), w, w, 0.0);
    DotLinear(u, w, w, 0.0);
    DotLinear(v, w, w, 0.0);
  }

  lemma DotOfCombinations(u: Vec, v: Vec, x: real, y: real, x': real, y': real)
    ensures Dot(Add(Mul(u, x), Mul(v, y)), Add(Mul(u, x'), Mul(v, y')))
            == x * x' * Dot(u, u) + (x * y' + y * x') * Dot(u, v) + y * y' * Dot(v, v)
  {
    var w := Add(Mul(u, x'), Mul(v, y'));
    CombinationDot(u, v, w, x, y);
    CombinationDot(u, v, u, x', y');
    CombinationDot(u, v, v, x', y');
    DotLinear(u, w, w, 0.0);
    DotLinear(v, w, w, 0.0);
    DotLinear(u, v, v, 0.0);
    Distribute(x, x', y', Dot(u, u), Dot(u, v));
    Distribute(y, x', y', Dot(u, v), Dot(v, v));
  }

  lemma Distribute(x: real, x': real, y': real, d: real, e: real)
    ensures x * (x' * d + y' * e) == x * x' * d + x * y' * e
  {
  }

  lemma CombinationNonzero(u: Vec, v: Vec, x: real, y: real, x': real, y': real)
    requires Dot(u, u) > 0.0 && Dot(u, u) * Dot(v, v) - Dot(u, v) * Dot(u, v) > 0.0
    requires x == x' && y == y' && (x != 0.0 || y != 0.0)
    ensures Add(Mul(u, x), Mul(v, y)) != Origin
  {
    DotOfCombinations(u, v, x, y, x', y');
    GramFormPositive(x, y, x', y', Dot(u, u), Dot(u, v), Dot(v, v));
    OriginDot(Add(Mul(u, x), Mul(v, y)), Add(Mul(u, x'), Mul(v, y')));
  }

  // Two points of the plane of the triangle with different coordinates are apart.
  lemma CoordinatesSeparate(a: Vec, b: Vec, c: Vec, s: real, t: real, s': real, t': real)
    requires Square(Cross(Sub(b, a), Sub(c, a))) > 0.0
    requires s != s' || t != t'
    ensures Square(Sub(At(a, b, c, s', t'), At(a, b, c, s, t))) > 0.0
  {
    var g11, g12, g22 := GramOfTriangle(a, b, c);
    assert Sub(At(a, b, c, s', t'), At(a, b, c, s, t))
        == Add(Mul(Sub(b, a), s' - s), Mul(Sub(c, a), t' - t));
    CombinationNonzero(Sub(b, a), Sub(c, a), s' - s, t' - t, s' - s, t' - t);
    SquareNonNegative(Sub(At(a, b, c, s', t'), At(a, b, c, s, t)));
  }

  // Off the foot of the perpendicular every point of the plane is strictly farther.
  lemma FootIsStrict(p: Vec, x: Vec, a: Vec, b: Vec, c: Vec, s: real, t: real, s': real, t': real)
    requires Square(Cross(Sub(b, a), Sub(c, a))) > 0.0 && x == At(a, b, c, s, t)
    requires Dot(Sub(b, a), Sub(p, x)) == 0.0 && Dot(Sub(c, a), Sub(p, x)) == 0.0
    requires s != s' || t != t'
    ensures SquaredDistance(p, x) < SquaredDistance(p, At(a, b, c, s', t'))
  {
    var q := At(a, b, c, s', t');
    FaceFlat(Sub(p, x), a, b, c, s, t, q, s', t');
    CoordinatesSeparate(a, b, c, s, t, s', t');
    assert Sub(p, q) == Sub(Sub(p, x), Sub(q, x));
    SquareOfDifference(Sub(p, x), Sub(q, x));
  }

  lemma FootStrictlyInside(p: Vec, a: Vec, b: Vec, c: Vec) returns (s: real, t: real)
    requires Square(Cross(Sub(b, a), Sub(c, a))) > 0.0 && FootInside(p, a, b, c)
    ensures s > 0.0 && t > 0.0 && s + t < 1.0
    ensures Dot(Sub(b, a), Sub(p, At(a, b, c, s, t))) == 0.0
    ensures Dot(Sub(c, a), Sub(p, At(a, b, c, s, t))) == 0.0
  {
    var d1, d2 := Dot(Sub(b, a), Sub(p, a)), Dot(Sub(c, a), Sub(p, a));
    var g11, g12, g22 := GramOfTriangle(a, b, c);
    AreaSum(d1, d2, g11, g12, g22);
    var delta := g11 * g22 - g12 * g12;
    s, t := StrictWeights(Va(d1, d2, g11, g12, g22), Vb(d1, d2, g12, g22), Vc(d1, d2, g11, g12), delta);
    FaceOrthogonal(p, a, b, c, s, t);
  }

  lemma StrictWeights(va: real, vb: real, vc: real, delta: real) returns (s: real, t: real)
    requires va > 0.0 && vb > 0.0 && vc > 0.0 && va + vb + vc == delta
    ensures s > 0.0 && t > 0.0 && s + t < 1.0 && s * delta == vb && t * delta == vc
  {
    s, t := vb / delta, vc / delta;
    AreaWeights(va, vb, vc, delta);
    assert (1.0 - s - t) * delta == va;
    ProductSign(delta, -(1.0 - s - t));
    ProductSign(delta, -s);
    ProductSign(delta, -t);
  }

  // ---- The exact condition ----

  lemma MeasuredClosest(p: Vec, a: Vec, b: Vec, c: Vec)
    requires Square(Cross(Sub(b, a), Sub(c, a))) > 0.0 && !FootInside(p, a, b, c) && EdgesMeasured(p, a, b, c)
    ensures IsSquaredDistance(ThreeSegments(p, a, b, c), p, a, b, c)
  {
    var q := FallbackOnBoundary(p, a, b, c);
    BoundaryInTriangle(q, a, b, c);
    var x := BoundaryClosest(p, a, b, c);
    FallbackBelowBoundary(p, a, b, c, x);
  }

  // For a triangle with area the fallback is the distance to the triangle exactly when the foot of
  // the perpendicular is not strictly inside and a nearest edge is measured.
  lemma FallbackExactIff(p: Vec, a: Vec, b: Vec, c: Vec)
    requires Square(Cross(Sub(b, a), Sub(c, a))) > 0.0
    ensures IsSquaredDistance(ThreeSegments(p, a, b, c), p, a, b, c)
       <==> !FootInside(p, a, b, c) && NearestMeasured(p, a, b, c)
  {
    MeasuredIff(p, a, b, c);
    if FootInside(p, a, b, c) {
      FootInsideBeatsBoundary(p, a, b, c);
    } else if EdgesMeasured(p, a, b, c) {
      MeasuredClosest(p, a, b, c);
    } else if NoCloser(ThreeSegments(p, a, b, c), p, a, b, c) {
      NoCloserIsMeasured(p, a, b, c);
    }
  }

  lemma FootInsideBeatsBoundary(p: Vec, a: Vec, b: Vec, c: Vec)
    requires Square(Cross(Sub(b, a), Sub(c, a))) > 0.0 && FootInside(p, a, b, c)
    ensures !NoCloser(ThreeSegments(p, a, b, c), p, a, b, c)
  {
    var q := FallbackOnBoundary(p, a, b, c);
    var s, t := FootStrictlyInside(p, a, b, c);
    var s', t' := EdgeCoordinates(q, a, b, c);
    FootIsStrict(p, At(a, b, c, s, t), a, b, c, s, t, s', t');
    assert Weights(s, t);
  }

  // ---- Triangles without area ----

  lemma ParallelSquare(u: Vec, v: Vec, g11: real, g12: real, g22: real)
    requires g11 == Dot(v, v) && g12 == Dot(v, u) && g22 == Dot(u, u)
    requires g11 * g22 - g12 * g12 == 0.0
    ensures Dot(Add(Mul(u, g11), Mul(v, -g12)), Add(Mul(u, g11), Mul(v, -g12))) == 0.0
  {
    DotOfCombinations(u, v, g11, -g12, g11, -g12);
    DotLinear(u, v, v, 0.0);
    ParallelScalars(g11, g12, g22);
  }

  lemma ParallelScalars(g11: real, g12: real, g22: real)
    requires g11 * g22 - g12 * g12 == 0.0
    ensures g11 * g11 * g22 + (g11 * -g12 + -g12 * g11) * g12 + -g12 * -g12 * g11 == 0.0
  {
    assert g11 * g11 * g22 + (g11 * -g12 + -g12 * g11) * g12 + -g12 * -g12 * g11
        == g11 * (g11 * g22 - g12 * g12);
  }

  lemma ParallelResidual(u: Vec, v: Vec, g11: real, g12: real)
    requires g11 == Dot(v, v) && g12 == Dot(v, u) && Square(Cross(v, u)) == 0.0
    ensures Add(Mul(u, g11), Mul(v, -g12)) == Origin
  {
    LagrangeIdentity(v, u);
    ParallelSquare(u, v, g11, g12, Dot(u, u));
    SquareNonNegative(Add(Mul(u, g11), Mul(v, -g12)));
  }

  lemma OriginComponents(u: Vec, v: Vec, g: real, h: real, k: real)
    requires Add(Mul(u, g), Mul(v, -h)) == Origin && g > 0.0 && k == h / g
    ensures u == Mul(v, k)
  {
    ScaledEqual(u.x, v.x, g, h);
    ScaledEqual(u.y, v.y, g, h);
    ScaledEqual(u.z, v.z, g, h);
  }

  lemma Parallel(u: Vec, v: Vec) returns (k: real)
    requires v != Origin && Square(Cross(v, u)) == 0.0
    ensures u == Mul(v, k)
  {
    SquareNonNegative(v);
    ParallelResidual(u, v, Dot(v, v), Dot(v, u));
    k := Dot(v, u) / Dot(v, v);
    OriginComponents(u, v, Dot(v, v), Dot(v, u), k);
  }

  lemma ScaledEqual(u: real, v: real, g: real, h: real)
    requires g > 0.0 && u * g + v * -h == 0.0
    ensures u == v * (h / g)
  {
    assert h / g * g == h;
    assert (v * (h / g)) * g == v * (h / g * g);
    Cancel(g, u, v * (h / g));
  }

  lemma FlatCoordinate(a: Vec, b: Vec, c: Vec, s: real, t: real, k: real)
    requires Sub(c, a) == Mul(Sub(b, a), k)
    ensures At(a, b, c, s, t) == OnSegment(a, b, s + t * k)
  {
    FlatAxis(a.x, (b.x - a.x), s, t, k);
    FlatAxis(a.y, (b.y - a.y), s, t, k);
    FlatAxis(a.z, (b.z - a.z), s, t, k);
  }

  lemma FlatAxis(a: real, u: real, s: real, t: real, k: real)
    ensures a + (u * s + (u * k) * t) == a + u * (s + t * k)
  {
  }

  lemma FlatOther(a: Vec, b: Vec, c: Vec, m: real, k: real)
    requires Sub(c, a) == Mul(Sub(b, a), k) && k != 0.0
    ensures OnSegment(a, b, m) == OnSegment(c, a, 1.0 - m / k)
  {
    assert m / k * k == m;
    FlatOtherAxis(a.x, b.x - a.x, c.x, m, k, m / k);
    FlatOtherAxis(a.y, b.y - a.y, c.y, m, k, m / k);
    FlatOtherAxis(a.z, b.z - a.z, c.z, m, k, m / k);
  }

  lemma FlatOtherAxis(a: real, u: real, c: real, m: real, k: real, w: real)
    requires c - a == u * k && w * k == m
    ensures a + u * m == c + (a - c) * (1.0 - w)
  {
    assert u * m == (u * k) * w;
  }

  lemma FlatBounds(s: real, t: real, k: real)
    requires Weights(s, t)
    ensures var m := s + t * k;
            || 0.0 <= m <= 1.0
            || (k != 0.0 && 0.0 <= m / k <= 1.0)
  {
    var m := s + t * k;
    if k <= 0.0 {
      ProductSign(t, k);
      ProductSign(1.0 - t, -k);
      if m < 0.0 {
        ProductSign(t, -k);
        Quotient(-m, -k);
        assert -m / -k == m / k;
      }
    } else {
      ProductSign(t, k);
      if k <= 1.0 {
        ProductSign(t, 1.0 - k);
      } else {
        ProductSign(s, k - 1.0);
        ProductSign(1.0 - s - t, k);
        Quotient(m, k);
      }
    }
  }

  // Every point of a collinear triangle lies on one of its edges.
  lemma FlatOnBoundary(a: Vec, b: Vec, c: Vec, s: real, t: real)
    requires Square(Cross(Sub(b, a), Sub(c, a))) == 0.0 && Weights(s, t)
    ensures OnBoundary(At(a, b, c, s, t), a, b, c)
  {
    if Sub(b, a) == Origin {
      assert At(a, b, c, s, t) == At(a, b, c, 0.0, t);
      EdgeWitness(At(a, b, c, s, t), a, b, c, 0.0, t);
    } else {
      var k := Parallel(Sub(c, a), Sub(b, a));
      FlatCoordinate(a, b, c, s, t, k);
      FlatBounds(s, t, k);
      var m := s + t * k;
      if 0.0 <= m <= 1.0 {
        SegmentPointsOnBoundary(a, b, c, m);
      } else {
        FlatOther(a, b, c, m, k);
        SegmentPointsOnBoundary(a, b, c, 1.0 - m / k);
      }
    }
  }

  lemma MeasuredFlat(p: Vec, a: Vec, b: Vec, c: Vec)
    requires Square(Cross(Sub(b, a), Sub(c, a))) == 0.0 && EdgesMeasured(p, a, b, c)
    ensures IsSquaredDistance(ThreeSegments(p, a, b, c), p, a, b, c)
  {
    var q := FallbackOnBoundary(p, a, b, c);
    BoundaryInTriangle(q, a, b, c);
    forall s, t | Weights(s, t)
      ensures ThreeSegments(p, a, b, c) <= SquaredDistance(p, At(a, b, c, s, t))
    {
      FlatOnBoundary(a, b, c, s, t);
      FallbackBelowBoundary(p, a, b, c, At(a, b, c, s, t));
    }
  }

  lemma FallbackFlat(p: Vec, a: Vec, b: Vec, c: Vec)
    requires Square(Cross(Sub(b, a), Sub(c, a))) == 0.0
    ensures IsSquaredDistance(ThreeSegments(p, a, b, c), p, a, b, c) <==> NearestMeasured(p, a, b, c)
  {
    MeasuredIff(p, a, b, c);
    if EdgesMeasured(p, a, b, c) {
      MeasuredFlat(p, a, b, c);
    }
    if IsSquaredDistance(ThreeSegments(p, a, b, c), p, a, b, c) {
      NoCloserIsMeasured(p, a, b, c);
    }
  }

  lemma FlatHasNoInside(p: Vec, a: Vec, b: Vec, c: Vec)
    requires Square(Cross(Sub(b, a), Sub(c, a))) == 0.0
    ensures !FootInside(p, a, b, c)
  {
    LagrangeIdentity(Sub(b, a), Sub(c, a));
    AreaSum(Dot(Sub(b, a), Sub(p, a)), Dot(Sub(c, a), Sub(p, a)),
            Square(Sub(b, a)), Dot(Sub(b, a), Sub(c, a)), Square(Sub(c, a)));
  }

  lemma BelowFloor(p: Vec, a: Vec, b: Vec, c: Vec)
    requires !Solid(a, b, c)
    ensures PointTriangle(p, a, b, c) == ThreeSegments(p, a, b, c)
  {
  }

  lemma FlatIff(p: Vec, a: Vec, b: Vec, c: Vec)
    requires Square(Cross(Sub(b, a), Sub(c, a))) == 0.0
    ensures IsSquaredDistance(ThreeSegments(p, a, b, c), p, a, b, c)
       <==> !FootInside(p, a, b, c) && NearestMeasured(p, a, b, c)
  {
    FallbackFlat(p, a, b, c);
    FlatHasNoInside(p, a, b, c);
  }

  lemma FallbackIff(p: Vec, a: Vec, b: Vec, c: Vec)
    ensures IsSquaredDistance(ThreeSegments(p, a, b, c), p, a, b, c)
       <==> !FootInside(p, a, b, c) && NearestMeasured(p, a, b, c)
  {
    if Square(Cross(Sub(b, a), Sub(c, a))) > 0.0 {
      FallbackExactIff(p, a, b, c);
    } else {
      SquareNonNegative(Cross(Sub(b, a), Sub(c, a)));
      FlatIff(p, a, b, c);
    }
  }

  // On every input: the program's answer is the squared distance to the triangle if and only if the
  // triangle is above the area floor, or the foot of the perpendicular is not strictly inside it and
  // a nearest edge is measured: it has no length, is longer than 1e-15, or p is behind its first end.
  lemma AnswerExactIff(p: Vec, a: Vec, b: Vec, c: Vec)
    ensures IsSquaredDistance(PointTriangle(p, a, b, c), p, a, b, c)
       <==> Solid(a, b, c) || (!FootInside(p, a, b, c) && NearestMeasured(p, a, b, c))
  {
    if Solid(a, b, c) {
      TriangleExact(p, a, b, c);
    } else {
      BelowFloor(p, a, b, c);
      FallbackIff(p, a, b, c);
    }
  }

  // ---- How much a short edge can add ----

  const SHORT := 0.000000000000001  // 1e-15

  lemma SquareMonotone(r: real)
    requires r >= 0.0
    ensures r * r <= (r + SHORT) * (r + SHORT)
  {
    ProductSign(r, SHORT);
    assert (r + SHORT) * (r + SHORT) == r * r + 2.0 * (r * SHORT) + SHORT * SHORT;
  }

  lemma ShortStep(a: Vec, b: Vec, w: real)
    requires 0.0 <= w <= 1.0 && Square(Sub(b, a)) <= LENGTH_FLOOR
    ensures Square(Sub(OnSegment(a, b, w), a)) <= SHORT * SHORT
  {
    var e := Sub(b, a);
    assert Sub(OnSegment(a, b, w), a) == Mul(e, w);
    assert Square(Mul(e, w)) == (w * w) * Square(e);
    SquareNonNegative(e);
    ProductsOrdered(w, 1.0, w, 1.0);
    ProductSign(w, w);
    ProductsOrdered(w * w, 1.0, Square(e), LENGTH_FLOOR);
  }

  lemma SegmentNear(p: Vec, q: Vec, a: Vec, b: Vec, w: real, r: real)
    requires 0.0 <= w <= 1.0 && q == OnSegment(a, b, w) && r >= 0.0 && SquaredDistance(p, q) <= r * r
    ensures PointSegment(p, a, b) <= (r + SHORT) * (r + SHORT)
  {
    if Square(Sub(b, a)) <= LENGTH_FLOOR {
      ShortStep(a, b, w);
      assert Add(Sub(p, q), Sub(q, a)) == Sub(p, a);
      SumWithin(Sub(p, q), Sub(q, a), r, SHORT);
    } else {
      ResolvedSegment(p, a, b);
      SegmentLeast(p, a, b, w);
      SquareMonotone(r);
    }
  }

  lemma FallbackNear(p: Vec, q: Vec, a: Vec, b: Vec, c: Vec, r: real)
    requires OnBoundary(q, a, b, c) && r >= 0.0 && SquaredDistance(p, q) <= r * r
    ensures ThreeSegments(p, a, b, c) <= (r + SHORT) * (r + SHORT)
  {
    LeastOfThree(PointSegment(p, a, b), PointSegment(p, b, c), PointSegment(p, c, a));
    var edge, w := OnOneSegment(q, a, b, c);
    if edge == 0 {
      SegmentNear(p, q, a, b, w, r);
    } else if edge == 1 {
      SegmentNear(p, q, b, c, w, r);
    } else {
      SegmentNear(p, q, c, a, w, r);
    }
  }

  // Short edges or not, unless the foot is strictly inside a triangle below the floor, the answer is
  // within 1e-15 of the distance: when some point is at distance r, it is at most r + 1e-15.
  lemma AnswerNear(p: Vec, a: Vec, b: Vec, c: Vec, s: real, t: real, r: real)
    requires Solid(a, b, c) || !FootInside(p, a, b, c)
    requires Weights(s, t) && r >= 0.0 && SquaredDistance(p, At(a, b, c, s, t)) <= r * r
    ensures PointTriangle(p, a, b, c) <= (r + SHORT) * (r + SHORT)
  {
    SquareNonNegative(Cross(Sub(b, a), Sub(c, a)));
    if Solid(a, b, c) {
      TriangleExact(p, a, b, c);
      SquareMonotone(r);
    } else if Square(Cross(Sub(b, a), Sub(c, a))) > 0.0 {
      var q := BoundaryClosest(p, a, b, c);
      FallbackNear(p, q, a, b, c, r);
    } else {
      FlatOnBoundary(a, b, c, s, t);
      FallbackNear(p, At(a, b, c, s, t), a, b, c, r);
    }
  }

  lemma SmallTriangle(p: Vec, a: Vec, b: Vec, c: Vec)
    requires p == Vec(0.0000002, 0.0000002, 0.0) && a == Origin
    requires b == Vec(0.000001, 0.0, 0.0) && c == Vec(0.0, 0.000001, 0.0)
    ensures !Solid(a, b, c) && FootInside(p, a, b, c)
    ensures Resolved(a, b) && Resolved(b, c) && Resolved(c, a)
  {
    assert Sub(b, a) == b && Sub(c, a) == c && Sub(p, a) == p;
    assert Dot(b, p) == 0.0000000000002 && Dot(c, p) == 0.0000000000002;
    assert Square(b) == 0.000000000001 && Square(c) == 0.000000000001 && Dot(b, c) == 0.0;
    assert Cross(b, c) == Vec(0.0, 0.0, 0.000000000001);
  }

  lemma Away(p: Vec, q: Vec)
    requires p.x != q.x || p.y != q.y
    ensures SquaredDistance(p, q) > 0.0
  {
    EdgePositive(q, p);
  }

  lemma AwayFromEdges(p: Vec, b: Vec, c: Vec, w: real)
    requires p.x != 0.0 && p.y == 0.0 && b.y == 0.0 && b.x != p.x && c.x == 0.0 && c.y == 1.0
    ensures var q := OnSegment(b, c, w); p.x != q.x || p.y != q.y
    ensures OnSegment(c, Origin, w).x != p.x
  {
    if OnSegment(b, c, w).y == 0.0 {
      assert w == 0.0;
    }
  }

  // An edge from the origin, of length 1e-15, and its middle.
  lemma ShortTriangle(p: Vec, a: Vec, b: Vec, c: Vec)
    requires a == Origin && p.x != 0.0 && p.y == 0.0 && b.y == 0.0 && b.x != p.x && c.x == 0.0 && c.y == 1.0
    requires Square(Sub(b, a)) <= LENGTH_FLOOR
    ensures PointSegment(p, a, b) > 0.0 && PointSegment(p, b, c) > 0.0 && PointSegment(p, c, a) > 0.0
  {
    var u := SegmentAttained(p, b, c);
    AwayFromEdges(p, b, c, u);
    Away(p, OnSegment(b, c, u));
    var v := SegmentAttained(p, c, a);
    AwayFromEdges(p, b, c, v);
    Away(p, OnSegment(c, a, v));
    Away(p, a);
  }

  lemma ShortEdge(p: Vec, a: Vec, b: Vec, c: Vec)
    requires p == Vec(0.0000000000000005, 0.0, 0.0) && a == Origin
    requires b == Vec(0.000000000000001, 0.0, 0.0) && c == Vec(0.0, 1.0, 0.0)
    ensures !Solid(a, b, c) && Square(Sub(b, a)) <= LENGTH_FLOOR && p == OnSegment(a, b, 0.5)
  {
    assert Sub(b, a) == b && Sub(c, a) == c;
    assert Cross(b, c) == Vec(0.0, 0.0, 0.000000000000001);
    assert Square(b) == 0.000000000000000000000000000001;
  }

  lemma LeastPositive(x: real, y: real, z: real)
    requires x > 0.0 && y > 0.0 && z > 0.0
    ensures Min(Min(x, y), z) > 0.0
  {
  }

  lemma OwnDistance(p: Vec)
    ensures SquaredDistance(p, p) == 0.0
  {
    assert Sub(p, p) == Origin;
  }

  lemma MiddleOfEdge(p: Vec, a: Vec, b: Vec, c: Vec)
    requires p == OnSegment(a, b, 0.5) && ThreeSegments(p, a, b, c) > 0.0
    ensures InTriangle(p, a, b, c) && !NearestMeasured(p, a, b, c)
  {
    SegmentPointsOnBoundary(a, b, c, 0.5);
    BoundaryInTriangle(p, a, b, c);
    MeasuredIff(p, a, b, c);
    if EdgesMeasured(p, a, b, c) {
      FallbackBelowBoundary(p, a, b, c, p);
      OwnDistance(p);
    }
  }

  lemma ShortAnswer(p: Vec, a: Vec, b: Vec, c: Vec)
    requires a == Origin && p.x != 0.0 && p.y == 0.0 && b.y == 0.0 && b.x != p.x && c.x == 0.0 && c.y == 1.0
    requires !Solid(a, b, c) && Square(Sub(b, a)) <= LENGTH_FLOOR && p == OnSegment(a, b, 0.5)
    ensures InTriangle(p, a, b, c) && !NearestMeasured(p, a, b, c) && PointTriangle(p, a, b, c) > 0.0
  {
    ShortTriangle(p, a, b, c);
    LeastPositive(PointSegment(p, a, b), PointSegment(p, b, c), PointSegment(p, c, a));
    MiddleOfEdge(p, a, b, c);
    BelowFloor(p, a, b, c);
  }

  // A triangle with a short edge, and a point on that edge that the program does not find there.
  lemma ShortEdgeTooLarge(p: Vec, a: Vec, b: Vec, c: Vec)
    requires p == Vec(0.0000000000000005, 0.0, 0.0) && a == Origin
    requires b == Vec(0.000000000000001, 0.0, 0.0) && c == Vec(0.0, 1.0, 0.0)
    ensures InTriangle(p, a, b, c) && !NearestMeasured(p, a, b, c) && PointTriangle(p, a, b, c) > 0.0
  {
    ShortEdge(p, a, b, c);
    ShortAnswer(p, a, b, c);
  }

  // An input below the floor whose answer is not the distance to the triangle.
  lemma FallbackTooLarge() returns (p: Vec, a: Vec, b: Vec, c: Vec)
    ensures NearestMeasured(p, a, b, c) && !IsSquaredDistance(PointTriangle(p, a, b, c), p, a, b, c)
  {
    p, a := Vec(0.0000002, 0.0000002, 0.0), Origin;
    b, c := Vec(0.000001, 0.0, 0.0), Vec(0.0, 0.000001, 0.0);
    SmallTriangle(p, a, b, c);
    ResolvedIsMeasured(p, a, b, c);
    AnswerExactIff(p, a, b, c);
  }
}
