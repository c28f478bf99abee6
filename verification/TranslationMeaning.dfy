// What the version-2 translation check decides, in terms of the parts as observed, without its own
// keys and counters (experimental_modeling/translation_v2.py:33-131): which parts it accepts, and
// which pairs pass.
module TranslationMeaning {
  import opened Options
  import opened Rotations
  import opened Translation
  import opened Vectors

  // ---- Edges ----

  predicate Joins(e: seq<int>, x: int, y: int) { e == [x, y] || e == [y, x] }

  predicate HasEdge(edges: seq<seq<int>>, x: int, y: int) { exists e :: e in edges && Joins(e, x, y) }

  function EdgesBetween(edges: seq<seq<int>>, x: int, y: int): nat {
    if edges == [] then 0 else (if Joins(edges[0], x, y) then 1 else 0) + EdgesBetween(edges[1..], x, y)
  }

  lemma {:induction false} CountedBetween(part: Part, edges: seq<seq<int>>, x: int, y: int)
    requires AllEdgesValid(part, edges)
    ensures Counts(part, edges)[Undirected(x, y)] == EdgesBetween(edges, x, y)
    ensures EdgesBetween(edges, x, y) > 0 <==> HasEdge(edges, x, y)
  {
    if edges != [] {
      var e := edges[0];
      assert e in edges && e == [e[0], e[1]];
      CountedBetween(part, edges[1..], x, y);
      assert Joins(e, x, y) <==> Edge(e) == Undirected(x, y);
    }
  }

  lemma {:induction false} CountsSorted(part: Part, edges: seq<seq<int>>, pair: (int, int))
    requires AllEdgesValid(part, edges) && pair in Counts(part, edges)
    ensures pair == Undirected(pair.0, pair.1)
  {
    if pair !in Counts(part, edges[1..]) {
      assert edges[0] in edges;
    } else {
      CountsSorted(part, edges[1..], pair);
    }
  }

  // ---- Which parts are accepted ----

  predicate Near(v: Vec) {
    -1000000000.0 <= v.x <= 1000000000.0 && -1000000000.0 <= v.y <= 1000000000.0 && -1000000000.0 <= v.z <= 1000000000.0
  }

  // The corner after corner k of a face.
  function NextCorner(face: seq<int>, k: nat): int
    requires k < |face|
  {
    if k == |face| - 1 then face[0] else face[k + 1]
  }

  ghost predicate GoodFace(unit: Unit, part: Part, i: nat)
    requires i < |part.faces| && |part.faces| == |part.assignments| == |part.normals|
  {
    var face := part.faces[i];
    && 3 <= |face| <= 256
    && (forall k :: 0 <= k < |face| ==> 0 <= face[k] < |part.vertices|)
    && (forall k, l :: 0 <= k < l < |face| ==> face[k] != face[l])
    && (forall k :: 0 <= k < |face| ==> HasEdge(part.edges, face[k], NextCorner(face, k)))
    && 0 <= part.assignments[i] < |part.palette|
    && |part.normals[i]| == |face|
    && forall k :: 0 <= k < |face| ==> Near(part.normals[i][k]) && unit(part.normals[i][k]).Some?
  }

  // An edge joins two different vertices of the part.
  predicate GoodEdge(e: seq<int>, n: nat) { |e| == 2 && e[0] != e[1] && 0 <= e[0] < n && 0 <= e[1] < n }

  ghost predicate GoodPart(unit: Unit, part: Part) {
    && 1 <= |part.vertices| <= 100000 && 1 <= |part.faces| <= 30000 && |part.edges| <= 120000
    && 1 <= |part.palette| <= 128 && |part.assignments| == |part.faces| && |part.normals| == |part.faces|
    && (forall i :: 0 <= i < |part.vertices| ==> Near(part.vertices[i]))
    && (forall i :: 0 <= i < |part.edges| ==> GoodEdge(part.edges[i], |part.vertices|))
    && (forall i :: 0 <= i < |part.faces| ==> GoodFace(unit, part, i))
    && Corners(part.faces) <= 120000
    && forall i, j :: 0 <= i < j < |part.faces| ==> !IsRotation(part.faces[i], part.faces[j])
  }

  lemma EdgesGood(part: Part)
    ensures AllEdgesValid(part, part.edges)
       <==> forall i :: 0 <= i < |part.edges| ==> GoodEdge(part.edges[i], |part.vertices|)
  {
    assert forall e :: ValidEdge(part, e) <==> GoodEdge(e, |part.vertices|);
    assert forall i :: 0 <= i < |part.edges| ==> part.edges[i] in part.edges;
  }

  lemma SidesGood(part: Part, face: seq<int>)
    requires AllEdgesValid(part, part.edges)
    ensures HasSides(face, Counts(part, part.edges))
       <==> forall k :: 0 <= k < |face| ==> HasEdge(part.edges, face[k], NextCorner(face, k))
  {
    forall k | 0 <= k < |face|
      ensures Undirected(face[k], face[if k + 1 < |face| then k + 1 else 0]) in Counts(part, part.edges)
         <==> HasEdge(part.edges, face[k], NextCorner(face, k))
    {
      CountedBetween(part, part.edges, face[k], NextCorner(face, k));
    }
  }

  lemma NormalsGood(unit: Unit, normals: seq<Vec>)
    ensures (forall n :: n in normals ==> InRange(n) && unit(n).Some?)
       <==> forall k :: 0 <= k < |normals| ==> Near(normals[k]) && unit(normals[k]).Some?
  {
    assert forall k :: 0 <= k < |normals| ==> normals[k] in normals;
    assert forall n: Vec :: InRange(n) <==> Near(n);
  }

  lemma FaceGood(unit: Unit, part: Part, i: nat)
    requires i < |part.faces| && |part.faces| == |part.assignments| == |part.normals|
    requires AllEdgesValid(part, part.edges)
    ensures ValidFace(unit, part, Counts(part, part.edges), i) <==> GoodFace(unit, part, i)
  {
    SidesGood(part, part.faces[i]);
    NormalsGood(unit, part.normals[i]);
  }

  // A part is accepted if and only if it is within the limits, its edges and faces are well formed
  // and supported, and no two faces are the same up to where they start.
  lemma AcceptedIff(unit: Unit, part: Part)
    ensures Acceptable(unit, part) <==> GoodPart(unit, part)
  {
    EdgesGood(part);
    assert forall v: Vec :: InRange(v) <==> Near(v);
    assert forall i :: 0 <= i < |part.vertices| ==> part.vertices[i] in part.vertices;
    if AllEdgesValid(part, part.edges) && SizesValid(part) {
      forall i | 0 <= i < |part.faces|
        ensures ValidFace(unit, part, Counts(part, part.edges), i) <==> GoodFace(unit, part, i)
      {
        FaceGood(unit, part, i);
      }
      if FacesValid(unit, part, Counts(part, part.edges)) {
        KeysAreRotations(unit, part);
      }
    }
  }

  lemma KeysAreRotations(unit: Unit, part: Part)
    requires SizesValid(part) && AllEdgesValid(part, part.edges) && FacesValid(unit, part, Counts(part, part.edges))
    ensures NoDuplicateFaces(part)
       <==> forall i, j :: 0 <= i < j < |part.faces| ==> !IsRotation(part.faces[i], part.faces[j])
  {
    forall i, j | 0 <= i < j < |part.faces|
      ensures Canonical(part.faces[i]) == Canonical(part.faces[j]) <==> IsRotation(part.faces[i], part.faces[j])
    {
      assert ValidFace(unit, part, Counts(part, part.edges), i) && ValidFace(unit, part, Counts(part, part.edges), j);
      SameKeyIffRotation(part.faces[i], part.faces[j]);
    }
  }

  // ---- Which pairs pass ----

  // Face i of one part is face j of the other from its corner k on: the same corners, the same
  // material, and corner normals that make an angle within the tolerance.
  ghost predicate SameFaceFrom(unit: Unit, angle: Angle, data: Data, current: Part, i: nat, prior: Part, j: nat, k: nat)
    requires GoodPart(unit, current) && GoodPart(unit, prior) && i < |current.faces| && j < |prior.faces|
  {
    && k <= |current.faces[i]| == |current.normals[i]| && prior.faces[j] == Rotate(current.faces[i], k)
    && current.assignments[i] == prior.assignments[j]
    && forall c :: 0 <= c < |prior.faces[j]| ==>
         NormalWithin(unit, angle, data, Rotate(current.normals[i], k), prior.normals[j], c)
  }

  predicate NormalWithin(unit: Unit, angle: Angle, data: Data, a: seq<Vec>, b: seq<Vec>, c: nat) {
    && c < |a| && c < |b| && unit(a[c]).Some? && unit(b[c]).Some?
    && angle(unit(a[c]).value, unit(b[c]).value) <= data.normalTolerance
  }

  ghost predicate SameFace(unit: Unit, angle: Angle, data: Data, current: Part, i: nat, prior: Part, j: nat)
    requires GoodPart(unit, current) && GoodPart(unit, prior) && i < |current.faces| && j < |prior.faces|
  {
    exists k :: SameFaceFrom(unit, angle, data, current, i, prior, j, k)
  }

  // Every face of each part is a face of the other.
  ghost predicate FacesCorrespond(unit: Unit, angle: Angle, data: Data, current: Part, prior: Part)
    requires GoodPart(unit, current) && GoodPart(unit, prior)
  {
    && (forall i :: 0 <= i < |current.faces| ==> Kept(unit, angle, data, current, i, prior))
    && (forall j :: 0 <= j < |prior.faces| ==> StillThere(current, prior.faces[j]))
  }

  ghost predicate Kept(unit: Unit, angle: Angle, data: Data, current: Part, i: nat, prior: Part)
    requires GoodPart(unit, current) && GoodPart(unit, prior) && i < |current.faces|
  {
    exists j :: 0 <= j < |prior.faces| && SameFace(unit, angle, data, current, i, prior, j)
  }

  predicate StillThere(current: Part, face: seq<int>) {
    exists i :: 0 <= i < |current.faces| && IsRotation(current.faces[i], face)
  }

  ghost predicate Moved(unit: Unit, angle: Angle, data: Data, current: Part, prior: Part)
    requires GoodPart(unit, current) && GoodPart(unit, prior)
  {
    && |current.vertices| == |prior.vertices|
    && (forall i :: 0 <= i < |current.vertices| ==>
          SquaredDistance(current.vertices[i], Add(prior.vertices[i], data.delta)) <= data.tolerance * data.tolerance)
    && FacesCorrespond(unit, angle, data, current, prior)
    && current.palette == prior.palette
    && SameEdges(current.edges, prior.edges)
  }

  ghost predicate SameEdges(a: seq<seq<int>>, b: seq<seq<int>>) {
    forall x, y :: EdgesBetween(a, x, y) == EdgesBetween(b, x, y)
  }

  lemma EdgesCompared(a: Part, b: Part)
    requires AllEdgesValid(a, a.edges) && AllEdgesValid(b, b.edges)
    ensures Counts(a, a.edges) == Counts(b, b.edges) <==> SameEdges(a.edges, b.edges)
  {
    var p, q := Counts(a, a.edges), Counts(b, b.edges);
    if p == q {
      forall x, y ensures EdgesBetween(a.edges, x, y) == EdgesBetween(b.edges, x, y) {
        CountedBetween(a, a.edges, x, y);
        CountedBetween(b, b.edges, x, y);
      }
    }
    if SameEdges(a.edges, b.edges) {
      forall pair | pair in p + q ensures p[pair] == q[pair] {
        PairCompared(a, b, pair);
      }
    }
  }

  lemma PairCompared(a: Part, b: Part, pair: (int, int))
    requires AllEdgesValid(a, a.edges) && AllEdgesValid(b, b.edges) && SameEdges(a.edges, b.edges)
    requires pair in Counts(a, a.edges) + Counts(b, b.edges)
    ensures Counts(a, a.edges)[pair] == Counts(b, b.edges)[pair]
  {
    if pair in Counts(a, a.edges) {
      CountsSorted(a, a.edges, pair);
    } else {
      CountsSorted(b, b.edges, pair);
    }
    CountedBetween(a, a.edges, pair.0, pair.1);
    CountedBetween(b, b.edges, pair.0, pair.1);
  }

  // The polygon of a face in its surface.
  lemma PolygonHeld(unit: Unit, part: Part, s: Surface, i: nat)
    requires Acceptable(unit, part) && IsSurface(unit, part, s) && i < |part.faces|
    ensures part.faces[i] != [] && |part.normals[i]| == |part.faces[i]|
            && (forall n :: n in part.normals[i] ==> unit(n).Some?)
    ensures var key := Canonical(part.faces[i]);
            key in s.polygons && s.polygons[key] == PolygonOf(unit, part.faces[i], part.assignments[i], part.normals[i])
  {
    var key := Canonical(part.faces[i]);
    assert ValidFace(unit, part, Counts(part, part.edges), i);
    var polygon := PolygonOf(unit, part.faces[i], part.assignments[i], part.normals[i]);
    assert Contributes(unit, part, i, key, polygon);
    assert FromFaces(unit, part, |part.faces|, key, polygon);
    assert Entry(s.polygons, key, polygon);
  }

  lemma KeyComesFrom(unit: Unit, part: Part, s: Surface, key: seq<int>) returns (i: nat)
    requires Acceptable(unit, part) && IsSurface(unit, part, s) && key in s.polygons
    ensures i < |part.faces| && key == Canonical(part.faces[i])
  {
    assert Entry(s.polygons, key, s.polygons[key]);
    i :| 0 <= i < |part.faces| && Contributes(unit, part, i, key, s.polygons[key]);
  }

  // Comparing two lists from corner m on, or from the start, is the same.
  lemma ComparedFrom(angle: Angle, data: Data, a: seq<Vec>, b: seq<Vec>, m: nat)
    requires |a| == |b| && m <= |a|
    ensures NormalsMatch(angle, data, Rotate(a, m), Rotate(b, m)) <==> NormalsMatch(angle, data, a, b)
  {
    var x, y := Rotate(a, m), Rotate(b, m);
    if NormalsMatch(angle, data, x, y) {
      forall c | 0 <= c < |a| ensures angle(a[c], b[c]) <= data.normalTolerance {
        var back := if c >= m then c - m else c + |a| - m;
        RotateAt(a, m, back);
        RotateAt(b, m, back);
        assert angle(x[back], y[back]) <= data.normalTolerance;
      }
    }
    if NormalsMatch(angle, data, a, b) {
      forall c | 0 <= c < |a| ensures angle(x[c], y[c]) <= data.normalTolerance {
        RotateAt(a, m, c);
        RotateAt(b, m, c);
      }
    }
  }

  lemma UnitsCompared(unit: Unit, angle: Angle, data: Data, a: seq<Vec>, b: seq<Vec>)
    requires |a| == |b| && (forall n :: n in a ==> unit(n).Some?) && (forall n :: n in b ==> unit(n).Some?)
    ensures NormalsMatch(angle, data, Units(unit, a), Units(unit, b))
       <==> forall c :: 0 <= c < |b| ==> NormalWithin(unit, angle, data, a, b, c)
  {
    var x, y := Units(unit, a), Units(unit, b);
    forall c | 0 <= c < |b|
      ensures angle(x[c], y[c]) <= data.normalTolerance <==> NormalWithin(unit, angle, data, a, b, c)
    {
      assert a[c] in a && b[c] in b;
    }
    if NormalsMatch(angle, data, x, y) {
      assert forall c :: 0 <= c < |b| ==> angle(x[c], y[c]) <= data.normalTolerance;
    }
  }

  // Two polygons of one key, compared as surfaces compare them and as faces.
  lemma PolygonsCompared(unit: Unit, angle: Angle, data: Data, face: seq<int>, a: seq<Vec>, other: seq<int>, b: seq<Vec>,
                         k: nat)
    requires face != [] && Distinct(face) && k <= |face| && other == Rotate(face, k) && |a| == |face| == |b|
    requires (forall n :: n in a ==> unit(n).Some?) && (forall n :: n in b ==> unit(n).Some?)
    ensures NormalsMatch(angle, data, PolygonOf(unit, face, 0, a).normals, PolygonOf(unit, other, 0, b).normals)
       <==> forall c :: 0 <= c < |b| ==> NormalWithin(unit, angle, data, Rotate(a, k), b, c)
  {
    PolygonOfRotation(unit, face, 0, a, k);
    ComparedFrom(angle, data, Units(unit, Rotate(a, k)), Units(unit, b), LeastIndex(other));
    UnitsCompared(unit, angle, data, Rotate(a, k), b);
  }

  // Face i of the new part and face j of the old one have one key: their polygons agree exactly
  // when the faces do.
  lemma FacesCompared(unit: Unit, angle: Angle, data: Data, current: Part, i: nat, prior: Part, j: nat)
    requires GoodPart(unit, current) && GoodPart(unit, prior) && i < |current.faces| && j < |prior.faces|
    requires IsRotation(current.faces[i], prior.faces[j])
    requires (forall n :: n in current.normals[i] ==> unit(n).Some?) && (forall n :: n in prior.normals[j] ==> unit(n).Some?)
    requires |current.normals[i]| == |current.faces[i]| && |prior.normals[j]| == |prior.faces[j]|
    requires current.faces[i] != [] && Distinct(current.faces[i])
    ensures SameFace(unit, angle, data, current, i, prior, j)
       <==> current.assignments[i] == prior.assignments[j]
            && NormalsMatch(angle, data, PolygonOf(unit, current.faces[i], 0, current.normals[i]).normals,
                            PolygonOf(unit, prior.faces[j], 0, prior.normals[j]).normals)
  {
    var face, a, other, b := current.faces[i], current.normals[i], prior.faces[j], prior.normals[j];
    forall k | 0 <= k <= |face| && other == Rotate(face, k)
      ensures NormalsMatch(angle, data, PolygonOf(unit, face, 0, a).normals, PolygonOf(unit, other, 0, b).normals)
         <==> forall c :: 0 <= c < |b| ==> NormalWithin(unit, angle, data, Rotate(a, k), b, c)
    {
      PolygonsCompared(unit, angle, data, face, a, other, b, k);
    }
    var k :| 0 <= k <= |face| && other == Rotate(face, k);
    if current.assignments[i] == prior.assignments[j]
       && NormalsMatch(angle, data, PolygonOf(unit, face, 0, a).normals, PolygonOf(unit, other, 0, b).normals)
    {
      assert SameFaceFrom(unit, angle, data, current, i, prior, j, k);
    }
  }

  // The polygons of two surfaces agree if and only if the faces of the parts correspond.
  lemma PolygonsMatchIff(unit: Unit, angle: Angle, data: Data, current: Part, cs: Surface, prior: Part, ps: Surface)
    requires Acceptable(unit, current) && IsSurface(unit, current, cs)
    requires Acceptable(unit, prior) && IsSurface(unit, prior, ps)
    ensures GoodPart(unit, current) && GoodPart(unit, prior)
    ensures PolygonsMatch(angle, data, cs.polygons, ps.polygons) <==> FacesCorrespond(unit, angle, data, current, prior)
  {
    AcceptedIff(unit, current);
    AcceptedIff(unit, prior);
    if PolygonsMatch(angle, data, cs.polygons, ps.polygons) {
      forall i | 0 <= i < |current.faces| ensures Kept(unit, angle, data, current, i, prior) {
        PolygonHeld(unit, current, cs, i);
        var j := KeyComesFrom(unit, prior, ps, Canonical(current.faces[i]));
        PolygonHeld(unit, prior, ps, j);
        OneKey(unit, angle, data, current, cs, i, prior, ps, j);
      }
      forall j | 0 <= j < |prior.faces| ensures StillThere(current, prior.faces[j]) {
        PolygonHeld(unit, prior, ps, j);
        var i := KeyComesFrom(unit, current, cs, Canonical(prior.faces[j]));
        PolygonHeld(unit, current, cs, i);
        OneKey(unit, angle, data, current, cs, i, prior, ps, j);
      }
    }
    if FacesCorrespond(unit, angle, data, current, prior) {
      Corresponding(unit, angle, data, current, cs, prior, ps);
    }
  }

  // Faces of one key: what the surfaces hold for it agrees exactly when the faces do.
  lemma OneKey(unit: Unit, angle: Angle, data: Data, current: Part, cs: Surface, i: nat, prior: Part, ps: Surface, j: nat)
    requires GoodPart(unit, current) && Acceptable(unit, current) && IsSurface(unit, current, cs)
    requires GoodPart(unit, prior) && Acceptable(unit, prior) && IsSurface(unit, prior, ps)
    requires i < |current.faces| && j < |prior.faces|
    ensures Canonical(current.faces[i]) == Canonical(prior.faces[j]) <==> IsRotation(current.faces[i], prior.faces[j])
    ensures var key := Canonical(current.faces[i]);
            key == Canonical(prior.faces[j]) ==>
              && key in cs.polygons && key in ps.polygons
              && (SameFace(unit, angle, data, current, i, prior, j)
                  <==> cs.polygons[key].assignment == ps.polygons[key].assignment
                       && NormalsMatch(angle, data, cs.polygons[key].normals, ps.polygons[key].normals))
  {
    PolygonHeld(unit, current, cs, i);
    PolygonHeld(unit, prior, ps, j);
    assert ValidFace(unit, current, Counts(current, current.edges), i);
    SameKeyIffRotation(current.faces[i], prior.faces[j]);
    if IsRotation(current.faces[i], prior.faces[j]) {
      FacesCompared(unit, angle, data, current, i, prior, j);
    }
  }

  lemma Corresponding(unit: Unit, angle: Angle, data: Data, current: Part, cs: Surface, prior: Part, ps: Surface)
    requires GoodPart(unit, current) && Acceptable(unit, current) && IsSurface(unit, current, cs)
    requires GoodPart(unit, prior) && Acceptable(unit, prior) && IsSurface(unit, prior, ps)
    requires FacesCorrespond(unit, angle, data, current, prior)
    ensures PolygonsMatch(angle, data, cs.polygons, ps.polygons)
  {
    forall key | key in cs.polygons
      ensures key in ps.polygons && cs.polygons[key].assignment == ps.polygons[key].assignment
              && NormalsMatch(angle, data, cs.polygons[key].normals, ps.polygons[key].normals)
    {
      var i := KeyComesFrom(unit, current, cs, key);
      assert Kept(unit, angle, data, current, i, prior);
      var j :| 0 <= j < |prior.faces| && SameFace(unit, angle, data, current, i, prior, j);
      var k :| SameFaceFrom(unit, angle, data, current, i, prior, j, k);
      OneKey(unit, angle, data, current, cs, i, prior, ps, j);
    }
    forall key | key in ps.polygons ensures key in cs.polygons {
      var j := KeyComesFrom(unit, prior, ps, key);
      assert StillThere(current, prior.faces[j]);
      var i :| 0 <= i < |current.faces| && IsRotation(current.faces[i], prior.faces[j]);
      OneKey(unit, angle, data, current, cs, i, prior, ps, j);
    }
    assert cs.polygons.Keys == ps.polygons.Keys;
  }

  lemma ErrorIsDistance(data: Data, current: Vec, prior: Vec)
    ensures SquaredError(data, current, prior) == SquaredDistance(current, Add(prior, data.delta))
  {
  }

  // The check passes if and only if the part was moved by delta: every vertex within the tolerance,
  // and the same faces, materials, normals, palette and edges.
  lemma PassesIff(unit: Unit, angle: Angle, data: Data, current: Part, cs: Surface, prior: Part, ps: Surface)
    requires Acceptable(unit, current) && IsSurface(unit, current, cs)
    requires Acceptable(unit, prior) && IsSurface(unit, prior, ps)
    ensures GoodPart(unit, current) && GoodPart(unit, prior)
    ensures Matches(angle, data, cs, ps) <==> Moved(unit, angle, data, current, prior)
  {
    PolygonsMatchIff(unit, angle, data, current, cs, prior, ps);
    EdgesCompared(current, prior);
    forall i | 0 <= i < |current.vertices| && i < |prior.vertices|
      ensures SquaredError(data, current.vertices[i], prior.vertices[i])
           == SquaredDistance(current.vertices[i], Add(prior.vertices[i], data.delta))
    {
      ErrorIsDistance(data, current.vertices[i], prior.vertices[i]);
    }
  }
}
