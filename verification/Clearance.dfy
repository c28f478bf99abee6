// The clearance requirement: no triangle crosses the centre line, and every sample keeps its
// distance (experimental_modeling/requirements.py:220-238).
module Clearance {
  import opened Norms
  import opened Options
  import opened Vectors
  import TriangleDistance
  import TriangleFallback
  import opened Ray

  datatype Triangle = Triangle(a: Vec, b: Vec, c: Vec)

  // `lengths[i]` is the norm of segment i: the square root is an input with its defining property.
  datatype Path = Path(points: seq<Vec>, lengths: seq<real>) {
    predicate Shaped() { |lengths| > 0 && |points| == |lengths| + 1 }

    ghost predicate Valid() {
      && Shaped()
      && forall i :: 0 <= i < |lengths| ==>
           lengths[i] >= 0.0 && lengths[i] * lengths[i] == Square(Sub(points[i + 1], points[i]))
    }
  }

  // Unverified stands for the ValueError that leaves a requirement row unknown.
  datatype Outcome = Unverified | Measured(passed: bool, blocked: seq<nat>, samples: nat, least: real)

  const MAX_WORK := 8000000

  function Direction(path: Path, i: nat): Vec
    requires i < |path.lengths| && |path.points| == |path.lengths| + 1 && path.lengths[i] != 0.0
  {
    Mul(Sub(path.points[i + 1], path.points[i]), 1.0 / path.lengths[i])
  }

  predicate Crosses(path: Path, epsilon: real, i: nat, t: Triangle)
    requires i < |path.lengths| && |path.points| == |path.lengths| + 1 && path.lengths[i] != 0.0
  {
    var hit := RayDistance(path.points[i], Direction(path, i), t.a, t.b, t.c);
    hit.Some? && epsilon < hit.value < path.lengths[i] - epsilon
  }

  predicate Blocked(path: Path, epsilon: real, triangles: seq<Triangle>, i: nat)
    requires i < |path.lengths| && |path.points| == |path.lengths| + 1 && path.lengths[i] != 0.0
  {
    exists j :: 0 <= j < |triangles| && Crosses(path, epsilon, i, triangles[j])
  }

  predicate LongEnough(path: Path, epsilon: real, n: nat)
    requires n <= |path.lengths|
  {
    forall i :: 0 <= i < n ==> path.lengths[i] > 2.0 * epsilon
  }

  function BlockedSegments(path: Path, epsilon: real, triangles: seq<Triangle>, n: nat): seq<nat>
    requires |path.points| == |path.lengths| + 1 && n <= |path.lengths|
    requires epsilon > 0.0 && LongEnough(path, epsilon, n)
  {
    if n == 0 then []
    else
      BlockedSegments(path, epsilon, triangles, n - 1)
      + if Blocked(path, epsilon, triangles, n - 1) then [n - 1] else []
  }

  function Sample(path: Path, count: nat, i: nat, k: nat): Vec
    requires count > 0 && i + 1 < |path.points|
  {
    Add(path.points[i], Mul(Sub(path.points[i + 1], path.points[i]), k as real / count as real))
  }

  function Distance(p: Vec, t: Triangle): real { TriangleDistance.PointTriangle(p, t.a, t.b, t.c) }

  // x is no larger than any distance sampled on the first n segments.
  ghost predicate Lower(x: real, path: Path, count: nat, triangles: seq<Triangle>, n: nat)
    requires count > 0 && n < |path.points|
  {
    forall i: nat, k: nat, j: nat {:trigger Distance(Sample(path, count, i, k), triangles[j])} ::
      i < n && k <= count && j < |triangles| ==>
        x <= Distance(Sample(path, count, i, k), triangles[j])
  }

  // x is one of those distances.
  ghost predicate Taken(x: real, path: Path, count: nat, triangles: seq<Triangle>, n: nat)
    requires count > 0 && n < |path.points|
  {
    exists i: nat, k: nat, j: nat {:trigger Distance(Sample(path, count, i, k), triangles[j])} ::
      i < n && k <= count && j < |triangles|
      && x == Distance(Sample(path, count, i, k), triangles[j])
  }

  method NearestTriangle(p: Vec, triangles: seq<Triangle>) returns (least: real, ghost at: nat)
    requires |triangles| > 0
    ensures at < |triangles| && least == Distance(p, triangles[at])
    ensures forall j :: 0 <= j < |triangles| ==> least <= Distance(p, triangles[j])
  {
    least, at := Distance(p, triangles[0]), 0;
    for j := 1 to |triangles|
      invariant at < |triangles| && least == Distance(p, triangles[at])
      invariant forall m :: 0 <= m < j ==> least <= Distance(p, triangles[m])
    {
      var next := Distance(p, triangles[j]);
      if next < least {
        least, at := next, j;
      }
    }
  }

  method CrossingExists(path: Path, epsilon: real, triangles: seq<Triangle>, i: nat) returns (found: bool)
    requires i < |path.lengths| && |path.points| == |path.lengths| + 1 && path.lengths[i] != 0.0
    ensures found <==> Blocked(path, epsilon, triangles, i)
  {
    found := false;
    for j := 0 to |triangles|
      invariant !found
      invariant forall m :: 0 <= m < j ==> !Crosses(path, epsilon, i, triangles[m])
    {
      if Crosses(path, epsilon, i, triangles[j]) {
        found := true;
        return;
      }
    }
  }

  ghost predicate LowerOn(x: real, path: Path, count: nat, triangles: seq<Triangle>, i: nat, n: nat)
    requires count > 0 && i + 1 < |path.points|
  {
    forall k: nat, j: nat {:trigger Distance(Sample(path, count, i, k), triangles[j])} ::
      k < n && j < |triangles| ==> x <= Distance(Sample(path, count, i, k), triangles[j])
  }

  ghost predicate TakenOn(x: real, path: Path, count: nat, triangles: seq<Triangle>, i: nat)
    requires count > 0 && i + 1 < |path.points|
  {
    exists k: nat, j: nat {:trigger Distance(Sample(path, count, i, k), triangles[j])} ::
      k <= count && j < |triangles| && x == Distance(Sample(path, count, i, k), triangles[j])
  }

  // The samples of one segment, folded into the running minimum.
  method SampleSegment(path: Path, count: nat, triangles: seq<Triangle>, i: nat, before: Option<real>)
    returns (after: real)
    requires count > 0 && i + 1 < |path.points| && |triangles| > 0
    ensures LowerOn(after, path, count, triangles, i, count + 1)
    ensures before.Some? ==> after <= before.value
    ensures before == Some(after) || TakenOn(after, path, count, triangles, i)
  {
    var least, at := NearestTriangle(Sample(path, count, i, 0), triangles);
    after := if before.Some? && before.value <= least then before.value else least;
    SampleTaken(least, path, count, triangles, i, 0, at);
    for k := 1 to count + 1
      invariant LowerOn(after, path, count, triangles, i, k)
      invariant before.Some? ==> after <= before.value
      invariant before == Some(after) || TakenOn(after, path, count, triangles, i)
    {
      least, at := NearestTriangle(Sample(path, count, i, k), triangles);
      SampleTaken(least, path, count, triangles, i, k, at);
      LowerNext(after, least, path, count, triangles, i, k);
      if least < after {
        after := least;
      }
    }
  }

  lemma SampleTaken(x: real, path: Path, count: nat, triangles: seq<Triangle>, i: nat, k: nat, j: nat)
    requires count > 0 && i + 1 < |path.points| && k <= count && j < |triangles|
    requires x == Distance(Sample(path, count, i, k), triangles[j])
    ensures TakenOn(x, path, count, triangles, i)
  {
  }

  lemma LowerNext(x: real, y: real, path: Path, count: nat, triangles: seq<Triangle>, i: nat, k: nat)
    requires count > 0 && i + 1 < |path.points| && LowerOn(x, path, count, triangles, i, k)
    requires forall j :: 0 <= j < |triangles| ==> y <= Distance(Sample(path, count, i, k), triangles[j])
    ensures LowerOn(if y < x then y else x, path, count, triangles, i, k + 1)
  {
  }

  function SampleCount(segments: nat, count: nat): nat {
    if segments == 0 then 0 else SampleCount(segments - 1, count) + count + 1
  }

  lemma {:induction false} SampleCountIsProduct(segments: nat, count: nat)
    ensures SampleCount(segments, count) == segments * (count + 1)
  {
    if segments > 0 {
      SampleCountIsProduct(segments - 1, count);
    }
  }

  lemma Extend(path: Path, count: nat, triangles: seq<Triangle>, i: nat, before: Option<real>, after: real)
    requires count > 0 && i + 1 < |path.points|
    requires before.Some? <==> i > 0
    requires before.Some? ==>
               Lower(before.value, path, count, triangles, i) && Taken(before.value, path, count, triangles, i)
    requires LowerOn(after, path, count, triangles, i, count + 1)
    requires before.Some? ==> after <= before.value
    requires before == Some(after) || TakenOn(after, path, count, triangles, i)
    ensures Lower(after, path, count, triangles, i + 1) && Taken(after, path, count, triangles, i + 1)
  {
    if before == Some(after) {
      var m: nat, k: nat, j: nat :| m < i && k <= count && j < |triangles|
        && after == Distance(Sample(path, count, m, k), triangles[j]);
    } else {
      var k: nat, j: nat :| k <= count && j < |triangles|
        && after == Distance(Sample(path, count, i, k), triangles[j]);
    }
  }

  // The running minimum after n segments.
  ghost predicate Minimum(least: Option<real>, path: Path, count: nat, triangles: seq<Triangle>, n: nat)
    requires count > 0 && n < |path.points|
  {
    if n == 0 then least == None
    else
      least.Some? && Lower(least.value, path, count, triangles, n) && Taken(least.value, path, count, triangles, n)
  }

  method NextMinimum(path: Path, count: nat, triangles: seq<Triangle>, i: nat, least: Option<real>)
    returns (next: Option<real>)
    requires count > 0 && i + 1 < |path.points| && |triangles| > 0 && Minimum(least, path, count, triangles, i)
    ensures Minimum(next, path, count, triangles, i + 1)
  {
    var minimum := SampleSegment(path, count, triangles, i, least);
    Extend(path, count, triangles, i, least, minimum);
    next := Some(minimum);
  }

  // The sampling loop and the crossing loop, once the work budget has been checked.
  method ClearanceLoop(path: Path, triangles: seq<Triangle>, count: nat, epsilon: real)
    returns (short: bool, blocked: seq<nat>, total: nat, least: Option<real>)
    requires path.Shaped() && |triangles| > 0 && count > 0 && epsilon > 0.0
    ensures short <==> !LongEnough(path, epsilon, |path.lengths|)
    ensures !short ==>
              && blocked == BlockedSegments(path, epsilon, triangles, |path.lengths|)
              && total == SampleCount(|path.lengths|, count)
              && Minimum(least, path, count, triangles, |path.lengths|)
  {
    short, blocked, total, least := false, [], 0, None;
    for i := 0 to |path.lengths|
      invariant LongEnough(path, epsilon, i)
      invariant blocked == BlockedSegments(path, epsilon, triangles, i)
      invariant total == SampleCount(i, count)
      invariant Minimum(least, path, count, triangles, i)
    {
      if path.lengths[i] <= 2.0 * epsilon {
        short := true;
        return;
      }
      var crossed := CrossingExists(path, epsilon, triangles, i);
      if crossed {
        blocked := blocked + [i];
      }
      least := NextMinimum(path, count, triangles, i, least);
      total := total + count + 1;
    }
  }

  method ClearancePath(path: Path, triangles: seq<Triangle>, count: nat, clearance: real, epsilon: real)
    returns (r: Outcome)
    requires path.Shaped() && |triangles| > 0 && count > 0
    requires clearance >= 0.0 && epsilon > 0.0
    ensures r.Unverified? <==>
              || |triangles| * (|path.points| - 1) * (count + 2) > MAX_WORK
              || !LongEnough(path, epsilon, |path.lengths|)
    ensures r.Measured? ==>
              && r.blocked == BlockedSegments(path, epsilon, triangles, |path.lengths|)
              && r.samples == |path.lengths| * (count + 1)
              && Lower(r.least, path, count, triangles, |path.lengths|)
              && Taken(r.least, path, count, triangles, |path.lengths|)
              && (r.passed <==> r.blocked == [] && r.least >= clearance * clearance)
  {
    if |triangles| * (|path.points| - 1) * (count + 2) > MAX_WORK {
      return Unverified;
    }
    var short, blocked, total, least := ClearanceLoop(path, triangles, count, epsilon);
    SampleCountIsProduct(|path.lengths|, count);
    r := if short then Unverified
         else Measured(blocked == [] && least.value >= clearance * clearance, blocked, total, least.value);
  }

  // ---- What a pass means ----

  // The point of segment i, or of its line, that divides it at w.
  function OnLine(path: Path, i: nat, w: real): Vec
    requires i + 1 < |path.points|
  {
    Add(path.points[i], Mul(Sub(path.points[i + 1], path.points[i]), w))
  }

  // The ray test drops a triangle that is this close to parallel to the segment.
  predicate NearlyParallel(path: Path, i: nat, t: Triangle)
    requires i < |path.lengths| && |path.points| == |path.lengths| + 1
  {
    var cut := EPSILON * path.lengths[i];
    -cut < Determinant(Sub(path.points[i + 1], path.points[i]), t.a, t.b, t.c) < cut
  }

  // A point strictly inside the segment, away from its ends, that lies in a triangle.
  ghost predicate Pierced(path: Path, epsilon: real, i: nat, t: Triangle, d: real)
    requires i < |path.lengths| && |path.points| == |path.lengths| + 1 && path.lengths[i] != 0.0
  {
    && epsilon < d < path.lengths[i] - epsilon
    && TriangleDistance.InTriangle(OnLine(path, i, d / path.lengths[i]), t.a, t.b, t.c)
  }

  // The ray of the program starts at the first point, and its parameter is the distance from it.
  lemma RayIsSegment(path: Path, i: nat, t: Triangle, d: real)
    requires i < |path.lengths| && |path.points| == |path.lengths| + 1 && path.lengths[i] > 0.0
    ensures Add(path.points[i], Mul(Direction(path, i), d)) == OnLine(path, i, d / path.lengths[i])
    ensures -EPSILON < Determinant(Direction(path, i), t.a, t.b, t.c) < EPSILON <==> NearlyParallel(path, i, t)
  {
    var e, l := Sub(path.points[i + 1], path.points[i]), path.lengths[i];
    VectorShortened(e, l, d);
    CutOffScales(e, l, t);
  }

  lemma VectorShortened(e: Vec, l: real, d: real)
    requires l > 0.0
    ensures Mul(Mul(e, 1.0 / l), d) == Mul(e, d / l)
  {
    Shortened(e.x, l, d);
    Shortened(e.y, l, d);
    Shortened(e.z, l, d);
  }

  lemma Shortened(x: real, l: real, d: real)
    requires l > 0.0
    ensures x * (1.0 / l) * d == x * (d / l)
  {
    assert (1.0 / l) * d == d / l;
  }

  lemma DeterminantScales(e: Vec, s: real, t: Triangle)
    ensures Determinant(Mul(e, s), t.a, t.b, t.c) == s * Determinant(e, t.a, t.b, t.c)
  {
    var b, c := Sub(t.b, t.a), Sub(t.c, t.a);
    TripleTurns(b, Mul(e, s), c);
    TripleTurns(b, e, c);
    DotLinear(Cross(c, b), e, e, s);
    DotLinear(Mul(e, s), Cross(c, b), e, s);
    DotLinear(e, Cross(c, b), e, s);
  }

  lemma CutOffScales(e: Vec, l: real, t: Triangle)
    requires l > 0.0
    ensures -EPSILON < Determinant(Mul(e, 1.0 / l), t.a, t.b, t.c) < EPSILON
        <==> -(EPSILON * l) < Determinant(e, t.a, t.b, t.c) < EPSILON * l
  {
    var x, s := Determinant(e, t.a, t.b, t.c), 1.0 / l;
    DeterminantScales(e, s, t);
    assert s * l == 1.0;
    BoundScales(x, s, l, EPSILON);
    BoundScales(-x, s, l, EPSILON);
  }

  lemma BoundScales(x: real, s: real, l: real, bound: real)
    requires l > 0.0 && s * l == 1.0
    ensures x * s < bound <==> x < bound * l
  {
    var y := x * s;
    Rescaled(x, s, l, 1.0);
    ProductSign(bound - y, l);
    ProductSign(y - bound, l);
    Distributes(bound, y, l);
    Distributes(y, bound, l);
  }

  lemma Distributes(p: real, q: real, s: real)
    ensures p * s - q * s == (p - q) * s
  {
  }

  lemma UnblockedSegments(path: Path, epsilon: real, triangles: seq<Triangle>, n: nat, i: nat)
    requires |path.points| == |path.lengths| + 1 && n <= |path.lengths|
    requires epsilon > 0.0 && LongEnough(path, epsilon, n) && i < n
    requires BlockedSegments(path, epsilon, triangles, n) == []
    ensures !Blocked(path, epsilon, triangles, i)
  {
    if i < n - 1 {
      UnblockedSegments(path, epsilon, triangles, n - 1, i);
    }
  }

  lemma HitAnswered(origin: Vec, direction: Vec, t: Triangle, d: real)
    requires !(-EPSILON < Determinant(direction, t.a, t.b, t.c) < EPSILON) && d >= 0.0
    requires TriangleDistance.InTriangle(Add(origin, Mul(direction, d)), t.a, t.b, t.c)
    ensures RayDistance(origin, direction, t.a, t.b, t.c) == Some(d)
  {
    var u, v := Coordinates(Add(origin, Mul(direction, d)), t);
    RayExact(origin, direction, t.a, t.b, t.c, d, u, v);
  }

  lemma Coordinates(q: Vec, t: Triangle) returns (u: real, v: real)
    requires TriangleDistance.InTriangle(q, t.a, t.b, t.c)
    ensures TriangleDistance.Weights(u, v) && q == TriangleDistance.At(t.a, t.b, t.c, u, v)
  {
    u, v :| TriangleDistance.Weights(u, v) && q == TriangleDistance.At(t.a, t.b, t.c, u, v);
  }

  // No triangle that is not nearly parallel to its segment pierces an unblocked path.
  lemma UnblockedIsClear(path: Path, epsilon: real, triangles: seq<Triangle>, i: nat, j: nat, d: real)
    requires path.Valid() && epsilon > 0.0 && LongEnough(path, epsilon, |path.lengths|)
    requires BlockedSegments(path, epsilon, triangles, |path.lengths|) == []
    requires i < |path.lengths| && j < |triangles|
    requires !NearlyParallel(path, i, triangles[j])
    ensures !Pierced(path, epsilon, i, triangles[j], d)
  {
    UnblockedSegments(path, epsilon, triangles, |path.lengths|, i);
    var t := triangles[j];
    RayIsSegment(path, i, t, d);
    if Pierced(path, epsilon, i, t, d) {
      HitAnswered(path.points[i], Direction(path, i), t, d);
      assert Crosses(path, epsilon, i, triangles[j]);
    }
  }

  // Every point of every triangle above the area floor keeps the clearance from every sample.
  lemma SamplesKeepClearance(path: Path, triangles: seq<Triangle>, count: nat, clearance: real, least: real,
                             i: nat, k: nat, j: nat, q: Vec)
    requires count > 0 && |path.points| > 0 && Lower(least, path, count, triangles, |path.points| - 1)
    requires least >= clearance * clearance
    requires i + 1 < |path.points| && k <= count && j < |triangles|
    requires TriangleDistance.Solid(triangles[j].a, triangles[j].b, triangles[j].c)
    requires TriangleDistance.InTriangle(q, triangles[j].a, triangles[j].b, triangles[j].c)
    ensures SquaredDistance(Sample(path, count, i, k), q) >= clearance * clearance
  {
    var t := triangles[j];
    var p := Sample(path, count, i, k);
    TriangleDistance.TriangleExact(p, t.a, t.b, t.c);
    assert least <= Distance(p, t);
    var u, v :| TriangleDistance.Weights(u, v) && q == TriangleDistance.At(t.a, t.b, t.c, u, v);
  }

  lemma LowerAt(x: real, path: Path, count: nat, triangles: seq<Triangle>, i: nat, k: nat, j: nat)
    requires count > 0 && |path.points| > 0 && Lower(x, path, count, triangles, |path.points| - 1)
    requires i + 1 < |path.points| && k <= count && j < |triangles|
    ensures x <= Distance(Sample(path, count, i, k), triangles[j])
  {
  }

  // And every point of a triangle below the floor, unless the foot of the perpendicular from the
  // sample is strictly inside it, keeps the clearance but for 1e-15.
  lemma SamplesNearlyKeepClearance(path: Path, triangles: seq<Triangle>, count: nat, clearance: real, least: real,
                                   i: nat, k: nat, j: nat, s: real, t: real, r: real)
    requires count > 0 && |path.points| > 0 && Lower(least, path, count, triangles, |path.points| - 1)
    requires clearance >= 0.0 && least >= clearance * clearance
    requires i + 1 < |path.points| && k <= count && j < |triangles|
    requires var x, y := Sample(path, count, i, k), triangles[j];
             && (TriangleDistance.Solid(y.a, y.b, y.c) || !TriangleFallback.FootInside(x, y.a, y.b, y.c))
             && TriangleDistance.Weights(s, t) && r >= 0.0
             && SquaredDistance(x, TriangleDistance.At(y.a, y.b, y.c, s, t)) <= r * r
    ensures clearance <= r + TriangleFallback.SHORT
  {
    var x, y := Sample(path, count, i, k), triangles[j];
    LowerAt(least, path, count, triangles, i, k, j);
    TriangleFallback.AnswerNear(x, y.a, y.b, y.c, s, t, r);
    var near := r + TriangleFallback.SHORT;
    RootOrdered(clearance, near, clearance * clearance, near * near);
  }

  // ---- From the samples to the whole centre line ----

  // The samples of a segment divide it evenly, from its first point to its last.
  lemma SamplesDivide(path: Path, count: nat, i: nat, k: nat)
    requires count > 0 && i + 1 < |path.points|
    ensures Mul(Sub(Sample(path, count, i, k), path.points[i]), count as real)
            == Mul(Sub(path.points[i + 1], path.points[i]), k as real)
    ensures Sample(path, count, i, 0) == path.points[i] && Sample(path, count, i, count) == path.points[i + 1]
  {
    var e, f := Sub(path.points[i + 1], path.points[i]), k as real / count as real;
    assert f * count as real == k as real;
    Rescaled(e.x, f, count as real, k as real);
    Rescaled(e.y, f, count as real, k as real);
    Rescaled(e.z, f, count as real, k as real);
    assert count as real / count as real == 1.0 && 0 as real / count as real == 0.0;
  }

  lemma Rescaled(x: real, f: real, n: real, k: real)
    requires f * n == k
    ensures x * f * n == x * k
  {
  }

  // Some sample is at most half a step away.
  lemma NearestSample(w: real, count: nat) returns (k: nat)
    requires count > 0 && 0.0 <= w <= 1.0
    ensures k <= count && -0.5 <= (w - k as real / count as real) * count as real <= 0.5
  {
    var n := count as real;
    ProductSign(w, n);
    ProductSign(1.0 - w, n);
    k := (w * n + 0.5).Floor;
    assert k as real / n * n == k as real;
    assert (w - k as real / n) * n == w * n - k as real;
  }

  // A stretch of at most half a step is at most half a step long.
  lemma HalfStep(e: Vec, f: real, length: real, n: real, half: real)
    requires length >= 0.0 && length * length == Square(e) && n > 0.0 && half == length / (2.0 * n)
    requires -0.5 <= f * n <= 0.5
    ensures half >= 0.0 && Square(Mul(e, f)) <= half * half
  {
    DotLinear(Mul(e, f), e, e, f);
    DotLinear(e, e, e, f);
    assert Square(Mul(e, f)) == f * (f * Square(e));
    HalfStepScalars(f, length, n, half);
  }

  lemma HalfStepScalars(f: real, length: real, n: real, half: real)
    requires length >= 0.0 && n > 0.0 && half == length / (2.0 * n) && -0.5 <= f * n <= 0.5
    ensures half >= 0.0 && f * (f * (length * length)) <= half * half
  {
    var m := 2.0 * n;
    assert half * m == length;
    assert half >= 0.0;
    var x := f * m;
    assert f * (f * (length * length)) == (x * half) * (x * half);
    ProductSign(1.0 - x, half);
    ProductSign(1.0 + x, half);
    SquareWithin(x * half, half);
  }

  lemma SquareWithin(x: real, y: real)
    requires -y <= x <= y
    ensures x * x <= y * y
  {
    ProductSign(y - x, y + x);
  }

  lemma Negated(w: real, x: real, n: real)
    ensures (x - w) * n == -((w - x) * n)
  {
  }

  lemma MovedAlong(a: Vec, e: Vec, q: Vec, x: real, w: real)
    ensures Sub(Add(a, Mul(e, x)), q) == Add(Sub(Add(a, Mul(e, w)), q), Mul(e, x - w))
  {
  }

  lemma StepAway(a: Vec, e: Vec, q: Vec, x: real, w: real, r: real, half: real)
    requires r >= 0.0 && half >= 0.0 && SquaredDistance(Add(a, Mul(e, w)), q) <= r * r
    requires Square(Mul(e, x - w)) <= half * half
    ensures SquaredDistance(Add(a, Mul(e, x)), q) <= (r + half) * (r + half)
  {
    MovedAlong(a, e, q, x, w);
    SumWithin(Sub(Add(a, Mul(e, w)), q), Mul(e, x - w), r, half);
  }

  lemma BetweenSamples(path: Path, count: nat, i: nat, w: real, k: nat, q: Vec, r: real, half: real)
    requires path.Valid() && count > 0 && i < |path.lengths| && k <= count
    requires -0.5 <= (w - k as real / count as real) * count as real <= 0.5
    requires r >= 0.0 && SquaredDistance(OnLine(path, i, w), q) <= r * r
    requires half == path.lengths[i] / (2.0 * count as real)
    ensures half >= 0.0 && SquaredDistance(Sample(path, count, i, k), q) <= (r + half) * (r + half)
  {
    var e, n := Sub(path.points[i + 1], path.points[i]), count as real;
    var x := k as real / n;
    Negated(w, x, n);
    HalfStep(e, x - w, path.lengths[i], n, half);
    StepAway(path.points[i], e, q, x, w, r, half);
  }

  // On a passing path every point of the centre line, sampled or not, keeps the clearance but for
  // half a step from every point of every triangle above the area floor.
  lemma CentreLineKeepsClearance(path: Path, triangles: seq<Triangle>, count: nat, clearance: real, least: real,
                                 i: nat, w: real, j: nat, q: Vec, r: real)
    requires path.Valid() && count > 0 && Lower(least, path, count, triangles, |path.lengths|)
    requires clearance >= 0.0 && least >= clearance * clearance
    requires i < |path.lengths| && 0.0 <= w <= 1.0 && j < |triangles|
    requires TriangleDistance.Solid(triangles[j].a, triangles[j].b, triangles[j].c)
    requires TriangleDistance.InTriangle(q, triangles[j].a, triangles[j].b, triangles[j].c)
    requires r >= 0.0 && SquaredDistance(OnLine(path, i, w), q) <= r * r
    ensures clearance <= r + path.lengths[i] / (2.0 * count as real)
  {
    var k := NearestSample(w, count);
    var half := path.lengths[i] / (2.0 * count as real);
    BetweenSamples(path, count, i, w, k, q, r, half);
    SamplesKeepClearance(path, triangles, count, clearance, least, i, k, j, q);
    var near := r + half;
    RootOrdered(clearance, near, clearance * clearance, near * near);
  }

  // The list of blocked segments holds exactly those.
  lemma {:induction false} BlockedExactly(path: Path, epsilon: real, triangles: seq<Triangle>, n: nat, i: nat)
    requires |path.points| == |path.lengths| + 1 && n <= |path.lengths|
    requires epsilon > 0.0 && LongEnough(path, epsilon, n)
    ensures i in BlockedSegments(path, epsilon, triangles, n) <==> i < n && Blocked(path, epsilon, triangles, i)
  {
    if n > 0 {
      BlockedExactly(path, epsilon, triangles, n - 1, i);
    }
  }

  // The point at distance d along segment i is the point of the triangle's plane with coordinates
  // u and v, within the tolerances of the ray test and away from both ends.
  ghost predicate CrossesAt(path: Path, epsilon: real, i: nat, t: Triangle, d: real, u: real, v: real)
    requires i < |path.lengths| && |path.points| == |path.lengths| + 1 && path.lengths[i] != 0.0
  {
    && !NearlyParallel(path, i, t) && InBounds(d, u, v)
    && OnLine(path, i, d / path.lengths[i]) == Add(t.a, Add(Mul(Sub(t.b, t.a), u), Mul(Sub(t.c, t.a), v)))
    && epsilon < d < path.lengths[i] - epsilon
  }

  lemma CrossesIff(path: Path, epsilon: real, i: nat, t: Triangle)
    requires i < |path.lengths| && |path.points| == |path.lengths| + 1 && path.lengths[i] > 0.0
    ensures Crosses(path, epsilon, i, t) <==> exists d, u, v :: CrossesAt(path, epsilon, i, t, d, u, v)
  {
    var origin, direction := path.points[i], Direction(path, i);
    var hit := RayDistance(origin, direction, t.a, t.b, t.c);
    if Crosses(path, epsilon, i, t) {
      RaySoundAndComplete(origin, direction, t.a, t.b, t.c, hit.value);
      var u, v :| Meets(origin, direction, t.a, t.b, t.c, hit.value, u, v) && InBounds(hit.value, u, v);
      RayIsSegment(path, i, t, hit.value);
      assert CrossesAt(path, epsilon, i, t, hit.value, u, v);
    }
    if d, u, v :| CrossesAt(path, epsilon, i, t, d, u, v) {
      RayIsSegment(path, i, t, d);
      RaySoundAndComplete(origin, direction, t.a, t.b, t.c, d);
    }
  }

  // A segment is listed as blocked if and only if some triangle crosses it so.
  lemma BlockedIff(path: Path, epsilon: real, triangles: seq<Triangle>, i: nat)
    requires path.Shaped() && epsilon > 0.0 && LongEnough(path, epsilon, |path.lengths|) && i < |path.lengths|
    ensures i in BlockedSegments(path, epsilon, triangles, |path.lengths|)
        <==> exists j, d, u, v :: 0 <= j < |triangles| && CrossesAt(path, epsilon, i, triangles[j], d, u, v)
  {
    BlockedExactly(path, epsilon, triangles, |path.lengths|, i);
    forall j | 0 <= j < |triangles|
      ensures Crosses(path, epsilon, i, triangles[j])
          <==> exists d, u, v :: CrossesAt(path, epsilon, i, triangles[j], d, u, v)
    {
      CrossesIff(path, epsilon, i, triangles[j]);
    }
  }
}
