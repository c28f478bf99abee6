// The indexed translation check of policy version 2 (experimental_modeling/translation_v2.py:33-131),
// on exact reals, as its own distance test is exact.
module Translation {
  import opened Options
  import opened Rotations
  import opened Vectors

  const MAX_VERTICES := 100000
  const MAX_FACES := 30000
  const MAX_CORNERS := 120000
  const MAX_VALENCE := 256
  const MAX_EDGES := 120000
  const MAX_MATERIALS := 128
  const MAX_COORDINATE := 1000000000.0

  // base_color, metallic and roughness
  type Material = seq<real>

  // The part as observed: `normals` has one list of corner normals per face.
  datatype Part = Part(vertices: seq<Vec>, edges: seq<seq<int>>, faces: seq<seq<int>>, assignments: seq<int>,
                       normals: seq<seq<Vec>>, palette: seq<Material>)

  // A polygon keeps its material index and its corner normals from the least corner on.
  datatype Polygon = Polygon(assignment: int, normals: seq<Vec>)

  type Polygons = map<seq<int>, Polygon>

  datatype Surface = Surface(vertices: seq<Vec>, edges: multiset<(int, int)>, polygons: Polygons, palette: seq<Material>)

  function Magnitude(x: real): real { if x < 0.0 then -x else x }

  predicate InRange(v: Vec) {
    Magnitude(v.x) <= MAX_COORDINATE && Magnitude(v.y) <= MAX_COORDINATE && Magnitude(v.z) <= MAX_COORDINATE
  }

  predicate ValidIndex(part: Part, i: int) { 0 <= i < |part.vertices| }

  predicate ValidEdge(part: Part, e: seq<int>) {
    |e| == 2 && ValidIndex(part, e[0]) && ValidIndex(part, e[1]) && e[0] != e[1]
  }

  function Undirected(a: int, b: int): (int, int) { if a <= b then (a, b) else (b, a) }

  function Edge(e: seq<int>): (int, int)
    requires |e| == 2
  {
    Undirected(e[0], e[1])
  }

  predicate AllEdgesValid(part: Part, edges: seq<seq<int>>) { forall e :: e in edges ==> ValidEdge(part, e) }

  function Counts(part: Part, edges: seq<seq<int>>): multiset<(int, int)>
    requires AllEdgesValid(part, edges)
  {
    if edges == [] then multiset{}
    else
      assert edges[0] in edges;
      multiset{Edge(edges[0])} + Counts(part, edges[1..])
  }

  // Every side of the polygon is one of the edges.
  predicate HasSides(face: seq<int>, edges: multiset<(int, int)>) {
    forall i :: 0 <= i < |face| ==> Undirected(face[i], face[if i + 1 < |face| then i + 1 else 0]) in edges
  }

  // A unit normal within 1e-5, scaled to length one; None when it is not.
  type Unit = Vec -> Option<Vec>

  predicate ValidFace(unit: Unit, part: Part, edges: multiset<(int, int)>, i: nat)
    requires i < |part.faces| && |part.faces| == |part.assignments| == |part.normals|
  {
    var face := part.faces[i];
    && 3 <= |face| <= MAX_VALENCE && (forall k :: 0 <= k < |face| ==> ValidIndex(part, face[k])) && Distinct(face)
    && HasSides(face, edges) && 0 <= part.assignments[i] < |part.palette| && |part.normals[i]| == |face|
    && forall n :: n in part.normals[i] ==> InRange(n) && unit(n).Some?
  }

  function Corners(faces: seq<seq<int>>): nat { if faces == [] then 0 else |faces[0]| + Corners(faces[1..]) }

  predicate SizesValid(part: Part) {
    && 1 <= |part.vertices| <= MAX_VERTICES && 1 <= |part.faces| <= MAX_FACES && |part.edges| <= MAX_EDGES
    && 1 <= |part.palette| <= MAX_MATERIALS && |part.faces| == |part.assignments| == |part.normals|
    && (forall v :: v in part.vertices ==> InRange(v))
  }

  // ---- One polygon, and the faces that share its key ----

  function Units(unit: Unit, normals: seq<Vec>): (r: seq<Vec>)
    requires forall n :: n in normals ==> unit(n).Some?
    ensures |r| == |normals|
  {
    seq(|normals|, i requires 0 <= i < |normals| => unit(normals[i]).value)
  }

  function PolygonOf(unit: Unit, face: seq<int>, assignment: int, normals: seq<Vec>): Polygon
    requires face != [] && |normals| == |face| && forall n :: n in normals ==> unit(n).Some?
  {
    Polygon(assignment, Rotate(Units(unit, normals), LeastIndex(face)))
  }

  // The same oriented polygon, started at another corner.
  lemma PolygonOfRotation(unit: Unit, face: seq<int>, assignment: int, normals: seq<Vec>, k: nat)
    requires face != [] && Distinct(face) && k <= |face| && |normals| == |face|
    requires forall n :: n in normals ==> unit(n).Some?
    ensures Canonical(Rotate(face, k)) == Canonical(face)
    ensures (forall n :: n in Rotate(normals, k) ==> unit(n).Some?)
         && PolygonOf(unit, Rotate(face, k), assignment, Rotate(normals, k)) == PolygonOf(unit, face, assignment, normals)
  {
    CanonicalOfRotation(face, face, k);
    UnitsOfRotation(unit, normals, k);
    CanonicalOfRotation(face, Units(unit, normals), k);
  }

  lemma UnitsOfRotation(unit: Unit, normals: seq<Vec>, k: nat)
    requires k <= |normals| && forall n :: n in normals ==> unit(n).Some?
    ensures forall n :: n in Rotate(normals, k) ==> unit(n).Some?
    ensures Units(unit, Rotate(normals, k)) == Rotate(Units(unit, normals), k)
  {
    forall n | n in Rotate(normals, k) ensures n in normals {
    }
  }

  // ---- `surface` ----

  predicate FacesValid(unit: Unit, part: Part, edges: multiset<(int, int)>)
    requires SizesValid(part)
  {
    forall i :: 0 <= i < |part.faces| ==> ValidFace(unit, part, edges, i)
  }

  predicate NoDuplicateFaces(part: Part) {
    KeysDiffer(part, |part.faces|)
  }

  predicate KeysDiffer(part: Part, n: nat)
    requires n <= |part.faces|
  {
    forall i, j :: 0 <= i < j < n ==> Canonical(part.faces[i]) != Canonical(part.faces[j])
  }

  // Exactly when `surface` does not raise.
  predicate Acceptable(unit: Unit, part: Part) {
    && SizesValid(part) && AllEdgesValid(part, part.edges)
    && FacesValid(unit, part, Counts(part, part.edges)) && Corners(part.faces) <= MAX_CORNERS && NoDuplicateFaces(part)
  }

  // The polygon that face i contributes.
  predicate Contributes(unit: Unit, part: Part, i: nat, key: seq<int>, polygon: Polygon)
    requires SizesValid(part) && i < |part.faces|
  {
    && part.faces[i] != [] && |part.normals[i]| == |part.faces[i]| && (forall n :: n in part.normals[i] ==> unit(n).Some?)
    && key == Canonical(part.faces[i])
    && polygon == PolygonOf(unit, part.faces[i], part.assignments[i], part.normals[i])
  }

  // The polygons of the first n faces.
  ghost predicate Collected(unit: Unit, part: Part, n: nat, polygons: Polygons)
    requires SizesValid(part) && n <= |part.faces|
  {
    forall key, polygon :: Entry(polygons, key, polygon) <==> FromFaces(unit, part, n, key, polygon)
  }

  predicate Entry(polygons: Polygons, key: seq<int>, polygon: Polygon) { key in polygons && polygons[key] == polygon }

  predicate FromFaces(unit: Unit, part: Part, n: nat, key: seq<int>, polygon: Polygon)
    requires SizesValid(part) && n <= |part.faces|
  {
    exists i :: 0 <= i < n && Contributes(unit, part, i, key, polygon)
  }

  ghost predicate IsSurface(unit: Unit, part: Part, s: Surface) {
    && SizesValid(part) && AllEdgesValid(part, part.edges)
    && s.vertices == part.vertices && s.palette == part.palette && s.edges == Counts(part, part.edges)
    && Collected(unit, part, |part.faces|, s.polygons)
  }

  lemma {:induction false} CountsAppend(part: Part, edges: seq<seq<int>>, e: seq<int>)
    requires AllEdgesValid(part, edges) && ValidEdge(part, e)
    ensures Counts(part, edges + [e]) == Counts(part, edges) + multiset{Edge(e)}
  {
    if edges == [] {
      assert edges + [e] == [e];
      assert [e][1..] == [];
    } else {
      assert (edges + [e])[1..] == edges[1..] + [e];
      CountsAppend(part, edges[1..], e);
    }
  }

  lemma {:induction false} CornersAppend(faces: seq<seq<int>>, face: seq<int>)
    ensures Corners(faces + [face]) == Corners(faces) + |face|
  {
    if faces == [] {
      assert faces + [face] == [face];
      assert [face][1..] == [];
    } else {
      assert (faces + [face])[1..] == faces[1..] + [face];
      CornersAppend(faces[1..], face);
    }
  }

  lemma {:induction false} CornersGrow(faces: seq<seq<int>>, n: nat)
    requires n <= |faces|
    ensures Corners(faces[..n]) <= Corners(faces)
  {
    if n > 0 {
      CornersGrow(faces[1..], n - 1);
      assert faces[..n][1..] == faces[1..][..n - 1];
    }
  }

  method EdgeCounts(part: Part) returns (counts: Option<multiset<(int, int)>>)
    ensures counts.Some? <==> AllEdgesValid(part, part.edges)
    ensures counts.Some? ==> counts.value == Counts(part, part.edges)
  {
    var edges: multiset<(int, int)> := multiset{};
    for i := 0 to |part.edges|
      invariant AllEdgesValid(part, part.edges[..i]) && edges == Counts(part, part.edges[..i])
    {
      var e := part.edges[i];
      if !ValidEdge(part, e) {
        assert e in part.edges;
        return None;
      }
      assert part.edges[..i + 1] == part.edges[..i] + [e];
      CountsAppend(part, part.edges[..i], e);
      edges := edges + multiset{Edge(e)};
    }
    assert part.edges[..|part.edges|] == part.edges;
    return Some(edges);
  }

  // One face added to the ones collected.
  lemma CollectNext(unit: Unit, part: Part, edges: multiset<(int, int)>, n: nat, polygons: Polygons, polygon: Polygon)
    requires SizesValid(part) && n < |part.faces| && ValidFace(unit, part, edges, n)
    requires Collected(unit, part, n, polygons) && Canonical(part.faces[n]) !in polygons
    requires polygon == PolygonOf(unit, part.faces[n], part.assignments[n], part.normals[n])
    ensures Collected(unit, part, n + 1, polygons[Canonical(part.faces[n]) := polygon])
  {
    var key := Canonical(part.faces[n]);
    var after := polygons[key := polygon];
    assert Contributes(unit, part, n, key, polygon);
    forall k, p ensures Entry(after, k, p) <==> FromFaces(unit, part, n + 1, k, p) {
      assert FromFaces(unit, part, n + 1, k, p) <==> FromFaces(unit, part, n, k, p) || Contributes(unit, part, n, k, p);
      assert FromFaces(unit, part, n, k, p) <==> Entry(polygons, k, p);
    }
  }

  predicate ValidUpTo(unit: Unit, part: Part, edges: multiset<(int, int)>, n: nat)
    requires SizesValid(part) && n <= |part.faces|
  {
    forall i :: 0 <= i < n ==> ValidFace(unit, part, edges, i)
  }

  // A face's key is among those collected before it exactly when an earlier face has it.
  lemma KeyCollected(unit: Unit, part: Part, edges: multiset<(int, int)>, n: nat, polygons: Polygons)
    requires SizesValid(part) && n < |part.faces| && Collected(unit, part, n, polygons)
    requires ValidUpTo(unit, part, edges, n)
    ensures Canonical(part.faces[n]) in polygons
        <==> exists i :: 0 <= i < n && Canonical(part.faces[i]) == Canonical(part.faces[n])
  {
    var key := Canonical(part.faces[n]);
    if key in polygons {
      assert Entry(polygons, key, polygons[key]);
      var i :| 0 <= i < n && Contributes(unit, part, i, key, polygons[key]);
      assert Canonical(part.faces[i]) == key;
    }
    if i :| 0 <= i < n && Canonical(part.faces[i]) == key {
      assert ValidFace(unit, part, edges, i);
      var polygon := PolygonOf(unit, part.faces[i], part.assignments[i], part.normals[i]);
      assert Contributes(unit, part, i, key, polygon);
      assert FromFaces(unit, part, n, key, polygon);
      assert Entry(polygons, key, polygon);
    }
  }

  // One pass of the loop over the faces.
  method AddFace(unit: Unit, part: Part, edges: multiset<(int, int)>, n: nat, polygons: Polygons, total: nat)
    returns (next: Option<Polygons>)
    requires SizesValid(part) && n < |part.faces| && ValidUpTo(unit, part, edges, n) && KeysDiffer(part, n)
    requires total == Corners(part.faces[..n]) && Collected(unit, part, n, polygons)
    ensures Corners(part.faces[..n + 1]) == total + |part.faces[n]|
    ensures next.Some? <==> (ValidUpTo(unit, part, edges, n + 1) && KeysDiffer(part, n + 1)
                             && Corners(part.faces[..n + 1]) <= MAX_CORNERS)
    ensures next.Some? ==> Collected(unit, part, n + 1, next.value)
  {
    var face := part.faces[n];
    CornersAppend(part.faces[..n], face);
    assert part.faces[..n + 1] == part.faces[..n] + [face];
    if !ValidFace(unit, part, edges, n) || total + |face| > MAX_CORNERS {
      return None;
    }
    KeyCollected(unit, part, edges, n, polygons);
    if Canonical(face) in polygons {
      return None;
    }
    var polygon := PolygonOf(unit, face, part.assignments[n], part.normals[n]);
    CollectNext(unit, part, edges, n, polygons, polygon);
    return Some(polygons[Canonical(face) := polygon]);
  }

  // `surface`: it raises exactly on parts that are not acceptable.
  method MakeSurface(unit: Unit, part: Part) returns (s: Option<Surface>)
    ensures s.Some? <==> Acceptable(unit, part)
    ensures s.Some? ==> IsSurface(unit, part, s.value)
  {
    if !SizesValid(part) {
      return None;
    }
    var edges := EdgeCounts(part);
    if edges.None? {
      return None;
    }
    var polygons: Polygons := map[];
    var total := 0;
    for n := 0 to |part.faces|
      invariant ValidUpTo(unit, part, edges.value, n) && KeysDiffer(part, n)
      invariant total == Corners(part.faces[..n]) && total <= MAX_CORNERS
      invariant Collected(unit, part, n, polygons)
    {
      var next := AddFace(unit, part, edges.value, n, polygons, total);
      CornersGrow(part.faces, n + 1);
      if next.None? {
        return None;
      }
      total := total + |part.faces[n]|;
      polygons := next.value;
    }
    assert part.faces[..|part.faces|] == part.faces;
    return Some(Surface(part.vertices, edges.value, polygons, part.palette));
  }

  // ---- `measure` ----

  datatype Data = Data(delta: Vec, tolerance: real, normalTolerance: real)

  // An angle between unit normals; `atan2` of a non-negative and a real is never negative.
  type Angle = (Vec, Vec) -> real

  function SquaredError(data: Data, current: Vec, prior: Vec): real { Square(Sub(Sub(current, prior), data.delta)) }

  function Shorter(m: nat, n: nat): nat { if m < n then m else n }

  predicate NormalsMatch(angle: Angle, data: Data, a: seq<Vec>, b: seq<Vec>) {
    forall i :: 0 <= i < Shorter(|a|, |b|) ==> angle(a[i], b[i]) <= data.normalTolerance
  }

  predicate PolygonsMatch(angle: Angle, data: Data, current: Polygons, prior: Polygons) {
    && current.Keys == prior.Keys
    && forall key :: key in current ==>
         current[key].assignment == prior[key].assignment
         && NormalsMatch(angle, data, current[key].normals, prior[key].normals)
  }

  // What a passing check says: the same vertices moved by delta, the same oriented polygons with
  // the same materials and normals, the same edges and the same palette.
  predicate Matches(angle: Angle, data: Data, current: Surface, prior: Surface) {
    && |current.vertices| == |prior.vertices|
    && (forall i :: 0 <= i < |current.vertices| ==>
          SquaredError(data, current.vertices[i], prior.vertices[i]) <= data.tolerance * data.tolerance)
    && PolygonsMatch(angle, data, current.polygons, prior.polygons)
    && current.palette == prior.palette && current.edges == prior.edges
  }

  // The largest squared error of the vertices both have.
  method LargestError(data: Data, current: seq<Vec>, prior: seq<Vec>) returns (largest: real)
    ensures largest >= 0.0
    ensures forall i :: 0 <= i < Shorter(|current|, |prior|) ==> SquaredError(data, current[i], prior[i]) <= largest
    ensures largest == 0.0
         || exists i :: 0 <= i < Shorter(|current|, |prior|) && SquaredError(data, current[i], prior[i]) == largest
  {
    largest := 0.0;
    for n := 0 to Shorter(|current|, |prior|)
      invariant largest >= 0.0
      invariant forall i :: 0 <= i < n ==> SquaredError(data, current[i], prior[i]) <= largest
      invariant largest == 0.0 || exists i :: 0 <= i < n && SquaredError(data, current[i], prior[i]) == largest
    {
      var squared := SquaredError(data, current[n], prior[n]);
      if squared > largest {
        largest := squared;
      }
    }
  }

  // Whether the largest of these angles is within the tolerance.
  method NormalsWithin(angle: Angle, data: Data, a: seq<Vec>, b: seq<Vec>) returns (within: bool)
    ensures within <==> NormalsMatch(angle, data, a, b)
  {
    within := true;
    for n := 0 to Shorter(|a|, |b|)
      invariant within <==> forall i :: 0 <= i < n ==> angle(a[i], b[i]) <= data.normalTolerance
    {
      within := within && angle(a[n], b[n]) <= data.normalTolerance;
    }
  }

  method PolygonsWithin(angle: Angle, data: Data, current: Polygons, prior: Polygons) returns (within: bool)
    ensures within <==> PolygonsMatch(angle, data, current, prior)
  {
    if current.Keys != prior.Keys {
      return false;
    }
    within := true;
    var left := current.Keys;
    while left != {}
      invariant left <= current.Keys
      invariant within <==> forall key :: key in current && key !in left ==>
                              (current[key].assignment == prior[key].assignment
                               && NormalsMatch(angle, data, current[key].normals, prior[key].normals))
      decreases |left|
    {
      var key :| key in left;
      var normals := NormalsWithin(angle, data, current[key].normals, prior[key].normals);
      within := within && current[key].assignment == prior[key].assignment && normals;
      left := left - {key};
    }
  }

  lemma ToleranceSquared(data: Data, limit: real)
    requires data.tolerance >= 0.0 && limit == data.tolerance * data.tolerance
    ensures limit >= 0.0
  {
    ProductSign(data.tolerance, data.tolerance);
  }

  method Measure(angle: Angle, data: Data, current: Surface, prior: Surface) returns (passed: bool)
    requires data.tolerance >= 0.0
    ensures passed <==> Matches(angle, data, current, prior)
  {
    var limit := data.tolerance * data.tolerance;
    ToleranceSquared(data, limit);
    var largest := LargestError(data, current.vertices, prior.vertices);
    var polygons := PolygonsWithin(angle, data, current.polygons, prior.polygons);
    passed := |current.vertices| == |prior.vertices| && largest <= limit && polygons
              && current.palette == prior.palette && current.edges == prior.edges;
  }
}
