// Two-sided ray and triangle intersection (experimental_modeling/requirements.py:143-153).
module Ray {
  import opened Options
  import opened Vectors

  const EPSILON := 0.000000001  // 1e-9

  // `inv * x` with inv = 1 / determinant.
  function Over(determinant: real, x: real): real
    requires determinant != 0.0
  {
    1.0 / determinant * x
  }

  function RayDistance(origin: Vec, direction: Vec, a: Vec, b: Vec, c: Vec): Option<real> {
    var ab, ac := Sub(b, a), Sub(c, a);
    var h := Cross(direction, ac);
    var determinant := Dot(ab, h);
    if -EPSILON < determinant < EPSILON then None
    else
      var s := Sub(origin, a);
      var u := Over(determinant, Dot(s, h));
      if u < -EPSILON || u > 1.0 + EPSILON then None
      else
        var q := Cross(s, ab);
        var v := Over(determinant, Dot(direction, q));
        if v < -EPSILON || u + v > 1.0 + EPSILON then None
        else
          var distance := Over(determinant, Dot(ac, q));
          if distance >= -EPSILON then Some(distance) else None
  }

  function Determinant(direction: Vec, a: Vec, b: Vec, c: Vec): real {
    Dot(Sub(b, a), Cross(direction, Sub(c, a)))
  }

  // The line point at parameter t is the plane point with coordinates u, v.
  predicate Meets(origin: Vec, direction: Vec, a: Vec, b: Vec, c: Vec, t: real, u: real, v: real) {
    Add(origin, Mul(direction, t)) == Add(a, Add(Mul(Sub(b, a), u), Mul(Sub(c, a), v)))
  }

  predicate InBounds(t: real, u: real, v: real) {
    -EPSILON <= u <= 1.0 + EPSILON && v >= -EPSILON && u + v <= 1.0 + EPSILON && t >= -EPSILON
  }

  // ---- Triple products ----

  function Triple(x: Vec, y: Vec, z: Vec): real { Dot(x, Cross(y, z)) }

  lemma TripleCycle(x: Vec, y: Vec, z: Vec)
    ensures Triple(x, y, z) == Triple(y, z, x)
    ensures Triple(x, y, z) == -Triple(x, z, y)
    ensures Triple(x, x, y) == 0.0 && Triple(x, y, x) == 0.0
  {
    TripleTurns(x, y, z);
    TripleSwaps(x, y, z);
    TripleRepeats(x, y);
    TripleTurns(x, y, x);
  }

  lemma TripleTurns(x: Vec, y: Vec, z: Vec)
    ensures Triple(x, y, z) == Triple(y, z, x)
  {
    TripleScalars(x.x, x.y, x.z, y.x, y.y, y.z, z.x, z.y, z.z);
  }

  lemma TripleSwaps(x: Vec, y: Vec, z: Vec)
    ensures Triple(x, y, z) == -Triple(x, z, y)
  {
    SwappedScalars(x.x, x.y, x.z, y.x, y.y, y.z, z.x, z.y, z.z);
  }

  // From the swap: a triple with two equal factors is its own negative.
  lemma TripleRepeats(x: Vec, y: Vec)
    ensures Triple(x, x, y) == 0.0 && Triple(x, y, x) == 0.0
  {
    TripleTurns(y, x, x);
    TripleTurns(x, x, y);
    TripleSwaps(y, x, x);
  }

  lemma TripleScalars(x0: real, x1: real, x2: real, y0: real, y1: real, y2: real, z0: real, z1: real, z2: real)
    ensures x0 * (y1 * z2 - y2 * z1) + x1 * (y2 * z0 - y0 * z2) + x2 * (y0 * z1 - y1 * z0)
         == y0 * (z1 * x2 - z2 * x1) + y1 * (z2 * x0 - z0 * x2) + y2 * (z0 * x1 - z1 * x0)
  {
  }

  lemma SwappedScalars(x0: real, x1: real, x2: real, y0: real, y1: real, y2: real, z0: real, z1: real, z2: real)
    ensures x0 * (y1 * z2 - y2 * z1) + x1 * (y2 * z0 - y0 * z2) + x2 * (y0 * z1 - y1 * z0)
         == -(x0 * (z1 * y2 - z2 * y1) + x1 * (z2 * y0 - z0 * y2) + x2 * (z0 * y1 - z1 * y0))
  {
  }

  lemma TripleOfCombination(x: Vec, y: Vec, z: Vec, u: real, v: real, t: real, w: Vec)
    ensures Dot(Sub(Add(Mul(x, u), Mul(y, v)), Mul(z, t)), w)
            == u * Dot(x, w) + v * Dot(y, w) - t * Dot(z, w)
  {
    DotLinear(w, Add(Mul(x, u), Mul(y, v)), Mul(z, t), 0.0);
    DotLinear(w, Mul(x, u), Mul(y, v), 0.0);
    DotLinear(w, x, x, u);
    DotLinear(w, y, y, v);
    DotLinear(w, z, z, t);
    DotLinear(Sub(Add(Mul(x, u), Mul(y, v)), Mul(z, t)), w, w, 0.0);
    DotLinear(x, w, w, 0.0);
    DotLinear(y, w, w, 0.0);
    DotLinear(z, w, w, 0.0);
  }

  lemma TripleProducts(ab: Vec, ac: Vec, d: Vec, t: real, u: real, v: real, s: Vec)
    requires s == Sub(Add(Mul(ab, u), Mul(ac, v)), Mul(d, t))
    ensures Dot(s, Cross(d, ac)) == u * Dot(ab, Cross(d, ac))
    ensures Dot(d, Cross(s, ab)) == v * Dot(ab, Cross(d, ac))
    ensures Dot(ac, Cross(s, ab)) == t * Dot(ab, Cross(d, ac))
  {
    TripleOfCombination(ab, ac, d, u, v, t, Cross(d, ac));
    TripleOfCombination(ab, ac, d, u, v, t, Cross(ab, d));
    TripleOfCombination(ab, ac, d, u, v, t, Cross(ab, ac));
    TripleCycle(d, ac, d);
    TripleCycle(ac, d, ac);
    TripleCycle(d, s, ab);
    TripleCycle(ab, d, d);
    TripleCycle(d, ab, d);
    TripleCycle(ac, ab, d);
    TripleCycle(ac, s, ab);
    TripleCycle(ab, ac, ab);
    TripleCycle(d, ab, ac);
    TripleCycle(ab, ac, d);
  }

  // Cramer's rule for s = u ab + v ac - t d, multiplied out, one axis at a time.
  lemma CramerAxis(s0: real, s1: real, s2: real, b0: real, b1: real, b2: real,
                   c0: real, c1: real, c2: real, d0: real, d1: real, d2: real)
    ensures s0 * (b0 * (d1 * c2 - d2 * c1) + b1 * (d2 * c0 - d0 * c2) + b2 * (d0 * c1 - d1 * c0))
            + d0 * (c0 * (s1 * b2 - s2 * b1) + c1 * (s2 * b0 - s0 * b2) + c2 * (s0 * b1 - s1 * b0))
            == b0 * (s0 * (d1 * c2 - d2 * c1) + s1 * (d2 * c0 - d0 * c2) + s2 * (d0 * c1 - d1 * c0))
            + c0 * (d0 * (s1 * b2 - s2 * b1) + d1 * (s2 * b0 - s0 * b2) + d2 * (s0 * b1 - s1 * b0))
  {
  }

  lemma CramerX(s: Vec, ab: Vec, ac: Vec, d: Vec)
    ensures s.x * Dot(ab, Cross(d, ac)) + d.x * Dot(ac, Cross(s, ab))
            == ab.x * Dot(s, Cross(d, ac)) + ac.x * Dot(d, Cross(s, ab))
  {
    CramerAxis(s.x, s.y, s.z, ab.x, ab.y, ab.z,
               ac.x, ac.y, ac.z, d.x, d.y, d.z);
  }

  lemma CramerY(s: Vec, ab: Vec, ac: Vec, d: Vec)
    ensures s.y * Dot(ab, Cross(d, ac)) + d.y * Dot(ac, Cross(s, ab))
            == ab.y * Dot(s, Cross(d, ac)) + ac.y * Dot(d, Cross(s, ab))
  {
    CramerAxis(s.y, s.z, s.x, ab.y, ab.z, ab.x,
               ac.y, ac.z, ac.x, d.y, d.z, d.x);
  }

  lemma CramerZ(s: Vec, ab: Vec, ac: Vec, d: Vec)
    ensures s.z * Dot(ab, Cross(d, ac)) + d.z * Dot(ac, Cross(s, ab))
            == ab.z * Dot(s, Cross(d, ac)) + ac.z * Dot(d, Cross(s, ab))
  {
    CramerAxis(s.z, s.x, s.y, ab.z, ab.x, ab.y,
               ac.z, ac.x, ac.y, d.z, d.x, d.y);
  }

  lemma CramerIdentity(s: Vec, ab: Vec, ac: Vec, d: Vec)
    ensures Add(Mul(s, Dot(ab, Cross(d, ac))), Mul(d, Dot(ac, Cross(s, ab))))
            == Add(Mul(ab, Dot(s, Cross(d, ac))), Mul(ac, Dot(d, Cross(s, ab))))
  {
    CramerX(s, ab, ac, d);
    CramerY(s, ab, ac, d);
    CramerZ(s, ab, ac, d);
  }

  lemma DivideAxis(k: real, s: real, b: real, c: real, d: real, t: real, u: real, v: real)
    requires k != 0.0 && s * k + d * (k * t) == b * (k * u) + c * (k * v)
    ensures s + d * t == b * u + c * v
  {
    assert k * (s + d * t - (b * u + c * v)) == 0.0;
  }

  // ---- Soundness and completeness ----

  // The three numbers the program computes, whatever it then returns.
  function Solution(origin: Vec, direction: Vec, a: Vec, b: Vec, c: Vec): (real, real, real)
    requires Determinant(direction, a, b, c) != 0.0
  {
    var ab, ac, s := Sub(b, a), Sub(c, a), Sub(origin, a);
    var k := Determinant(direction, a, b, c);
    (Over(k, Dot(ac, Cross(s, ab))), Over(k, Dot(s, Cross(direction, ac))),
     Over(k, Dot(direction, Cross(s, ab))))
  }

  lemma Reciprocal(k: real, x: real)
    requires k != 0.0
    ensures k * Over(k, x) == x
  {
    assert 1.0 / k * k == 1.0;
  }

  lemma SolutionMeets(origin: Vec, direction: Vec, a: Vec, b: Vec, c: Vec)
    requires Determinant(direction, a, b, c) != 0.0
    ensures var (t, u, v) := Solution(origin, direction, a, b, c);
            Meets(origin, direction, a, b, c, t, u, v)
  {
    var ab, ac, s := Sub(b, a), Sub(c, a), Sub(origin, a);
    var k := Determinant(direction, a, b, c);
    var (t, u, v) := Solution(origin, direction, a, b, c);
    Reciprocal(k, Dot(ac, Cross(s, ab)));
    Reciprocal(k, Dot(s, Cross(direction, ac)));
    Reciprocal(k, Dot(direction, Cross(s, ab)));
    CramerIdentity(s, ab, ac, direction);
    MeetsAxes(origin, direction, a, b, c, t, u, v, k, Dot(ac, Cross(s, ab)), Dot(s, Cross(direction, ac)),
              Dot(direction, Cross(s, ab)));
  }

  // One axis of the equation, before the division.
  predicate Scaled(k: real, o: real, d: real, a: real, b: real, c: real, kt: real, ku: real, kv: real) {
    (o - a) * k + d * kt == (b - a) * ku + (c - a) * kv
  }

  lemma ScaledAxes(origin: Vec, d: Vec, a: Vec, b: Vec, c: Vec, kt: real, ku: real, kv: real, k: real)
    requires Add(Mul(Sub(origin, a), k), Mul(d, kt)) == Add(Mul(Sub(b, a), ku), Mul(Sub(c, a), kv))
    ensures Scaled(k, origin.x, d.x, a.x, b.x, c.x, kt, ku, kv)
    ensures Scaled(k, origin.y, d.y, a.y, b.y, c.y, kt, ku, kv)
    ensures Scaled(k, origin.z, d.z, a.z, b.z, c.z, kt, ku, kv)
  {
  }

  lemma MeetsAxis(k: real, o: real, d: real, a: real, b: real, c: real, t: real, u: real, v: real,
                  kt: real, ku: real, kv: real)
    requires k != 0.0 && kt == k * t && ku == k * u && kv == k * v && Scaled(k, o, d, a, b, c, kt, ku, kv)
    ensures o + d * t == a + ((b - a) * u + (c - a) * v)
  {
    DivideAxis(k, o - a, b - a, c - a, d, t, u, v);
  }

  lemma MeetsAxes(origin: Vec, d: Vec, a: Vec, b: Vec, c: Vec, t: real, u: real, v: real, k: real,
                  kt: real, ku: real, kv: real)
    requires k != 0.0 && kt == k * t && ku == k * u && kv == k * v
    requires Add(Mul(Sub(origin, a), k), Mul(d, kt)) == Add(Mul(Sub(b, a), ku), Mul(Sub(c, a), kv))
    ensures Meets(origin, d, a, b, c, t, u, v)
  {
    ScaledAxes(origin, d, a, b, c, kt, ku, kv, k);
    MeetsAxis(k, origin.x, d.x, a.x, b.x, c.x, t, u, v, kt, ku, kv);
    MeetsAxis(k, origin.y, d.y, a.y, b.y, c.y, t, u, v, kt, ku, kv);
    MeetsAxis(k, origin.z, d.z, a.z, b.z, c.z, t, u, v, kt, ku, kv);
    MeetsByAxes(origin, d, a, b, c, t, u, v);
  }

  lemma MeetsByAxes(origin: Vec, d: Vec, a: Vec, b: Vec, c: Vec, t: real, u: real, v: real)
    requires origin.x + d.x * t == a.x + ((b.x - a.x) * u + (c.x - a.x) * v)
    requires origin.y + d.y * t == a.y + ((b.y - a.y) * u + (c.y - a.y) * v)
    requires origin.z + d.z * t == a.z + ((b.z - a.z) * u + (c.z - a.z) * v)
    ensures Meets(origin, d, a, b, c, t, u, v)
  {
  }

  lemma SolutionUnique(origin: Vec, direction: Vec, a: Vec, b: Vec, c: Vec, t: real, u: real, v: real)
    requires Determinant(direction, a, b, c) != 0.0
    requires Meets(origin, direction, a, b, c, t, u, v)
    ensures Solution(origin, direction, a, b, c) == (t, u, v)
  {
    var ab, ac, s := Sub(b, a), Sub(c, a), Sub(origin, a);
    var k := Determinant(direction, a, b, c);
    MeetsDifference(origin, direction, a, b, c, t, u, v);
    TripleProducts(ab, ac, direction, t, u, v, s);
    Undo(k, t, Dot(ac, Cross(s, ab)));
    Undo(k, u, Dot(s, Cross(direction, ac)));
    Undo(k, v, Dot(direction, Cross(s, ab)));
  }

  lemma MeetsDifference(o: Vec, d: Vec, a: Vec, b: Vec, c: Vec, t: real, u: real, v: real)
    requires Meets(o, d, a, b, c, t, u, v)
    ensures Sub(o, a) == Sub(Add(Mul(Sub(b, a), u), Mul(Sub(c, a), v)), Mul(d, t))
  {
  }

  lemma Undo(k: real, x: real, y: real)
    requires k != 0.0 && y == x * k
    ensures Over(k, y) == x
  {
    assert 1.0 / k * k == 1.0;
  }

  // With the determinant outside the cut-off, the answer is t exactly when the line has its
  // unique crossing (t, u, v) with the plane of the triangle inside the bounds.
  lemma RayExact(origin: Vec, direction: Vec, a: Vec, b: Vec, c: Vec, t: real, u: real, v: real)
    requires !(-EPSILON < Determinant(direction, a, b, c) < EPSILON)
    requires Meets(origin, direction, a, b, c, t, u, v)
    ensures RayDistance(origin, direction, a, b, c) == if InBounds(t, u, v) then Some(t) else None
  {
    SolutionUnique(origin, direction, a, b, c, t, u, v);
  }

  // Read the other way: every answer is a crossing, and every crossing in bounds is an answer.
  lemma RaySoundAndComplete(origin: Vec, direction: Vec, a: Vec, b: Vec, c: Vec, t: real)
    requires !(-EPSILON < Determinant(direction, a, b, c) < EPSILON)
    ensures RayDistance(origin, direction, a, b, c) == Some(t)
       <==> exists u, v :: Meets(origin, direction, a, b, c, t, u, v) && InBounds(t, u, v)
  {
    SolutionMeets(origin, direction, a, b, c);
    var (t', u', v') := Solution(origin, direction, a, b, c);
    RayExact(origin, direction, a, b, c, t', u', v');
    if exists u, v :: Meets(origin, direction, a, b, c, t, u, v) && InBounds(t, u, v) {
      var u, v :| Meets(origin, direction, a, b, c, t, u, v) && InBounds(t, u, v);
      RayExact(origin, direction, a, b, c, t, u, v);
    }
  }
}
