// What the preserved-region check decides, in terms of the meshes as observed, without its sorted
// lists, keys and counters (experimental_modeling/requirements.py:241-265).
module RegionMeaning {
  import opened Options
  import opened Vectors
  import opened PreservedRegion
  import opened RegionLaws

  // ---- The numbering of the selected vertices ----

  // Python's order on (coordinates, index), strictly.
  predicate Earlier(u: Vec, i: nat, v: Vec, j: nat) {
    u.x < v.x || (u.x == v.x && (u.y < v.y || (u.y == v.y && (u.z < v.z || (u.z == v.z && i < j)))))
  }

  // The vertices inside are numbered from 0 in this order.
  ghost predicate Numbers(naming: Naming, inside: Region, vertices: seq<Vec>) {
    && (forall i :: i in naming ==> i < |vertices| && inside(vertices[i]) && naming[i] < |naming|)
    && (forall i: nat :: i < |vertices| && inside(vertices[i]) ==> i in naming)
    && forall i, j :: i in naming && j in naming ==>
         (naming[i] < naming[j] <==> Earlier(vertices[i], i, vertices[j], j))
  }

  lemma BeforeIsEarlier(p: Point, q: Point)
    requires p.index != q.index
    ensures PointBefore(p, q) <==> Earlier(p.v, p.index, q.v, q.index)
  {
    LexicalStep(p.v.x, [p.v.y, p.v.z, p.index as real], q.v.x, [q.v.y, q.v.z, q.index as real]);
    LexicalStep(p.v.y, [p.v.z, p.index as real], q.v.y, [q.v.z, q.index as real]);
    LexicalStep(p.v.z, [p.index as real], q.v.z, [q.index as real]);
    LexicalStep(p.index as real, [], q.index as real, []);
  }

  lemma LexicalStep(x: real, a: seq<real>, y: real, b: seq<real>)
    requires |a| == |b|
    ensures AtMost([x] + a, [y] + b) <==> x < y || (x == y && AtMost(a, b))
    ensures |a| == 0 ==> [x] + a == [x] && [y] + b == [y]
    ensures |a| == 1 ==> [x] + a == [x, a[0]] && [y] + b == [y, b[0]]
    ensures |a| == 2 ==> [x] + a == [x, a[0], a[1]] && [y] + b == [y, b[0], b[1]]
    ensures |a| == 3 ==> [x] + a == [x, a[0], a[1], a[2]] && [y] + b == [y, b[0], b[1], b[2]]
  {
    assert ([x] + a)[1..] == a && ([y] + b)[1..] == b;
  }

  lemma {:induction false} RanksSize(points: seq<Point>, n: nat)
    requires n <= |points| && DistinctIndices(points)
    ensures |Ranks(points, n)| == n
  {
    if n > 0 {
      RanksSize(points, n - 1);
      assert points[n - 1].index !in Ranks(points, n - 1);
      var m := Ranks(points, n - 1);
      assert m[points[n - 1].index := n - 1].Keys == m.Keys + {points[n - 1].index};
    }
  }

  // The points are the selected vertices, each at its own place.
  predicate Placed(points: seq<Point>, vertices: seq<Vec>) {
    && DistinctIndices(points)
    && forall r :: 0 <= r < |points| ==> points[r].index < |vertices| && points[r].v == vertices[points[r].index]
  }

  lemma PointsNumbered(inside: Region, vertices: seq<Vec>, points: seq<Point>)
    requires points == Points(inside, vertices)
    ensures Numbers(Ranks(points, |points|), inside, vertices)
    ensures |Ranks(points, |points|)| == |points| && Placed(points, vertices)
  {
    PointsList(inside, vertices);
    RankAt(points);
    RanksSize(points, |points|);
    forall r | 0 <= r < |points| ensures IsPoint(points[r], inside, vertices, |vertices|) {
    }
    forall i: nat | i < |vertices| && inside(vertices[i]) ensures i in Ranks(points, |points|) {
      assert HasIndex(points, i);
    }
    RanksInOrder(vertices, points);
  }

  lemma RanksInOrder(vertices: seq<Vec>, points: seq<Point>)
    requires InOrder(points) && Placed(points, vertices)
    ensures var m := Ranks(points, |points|); forall i :: i in m ==> i < |vertices|
    ensures var m := Ranks(points, |points|);
            forall i, j :: i in m && j in m ==> (m[i] < m[j] <==> Earlier(vertices[i], i, vertices[j], j))
  {
    var m := Ranks(points, |points|);
    forall i, j | i in m && j in m ensures m[i] < m[j] <==> Earlier(vertices[i], i, vertices[j], j) {
      RankOrder(points, m[i], m[j]);
    }
  }

  lemma RankOrder(points: seq<Point>, q: nat, r: nat)
    requires InOrder(points) && DistinctIndices(points) && q < |points| && r < |points|
    ensures q < r <==> Earlier(points[q].v, points[q].index, points[r].v, points[r].index)
  {
    if q < r {
      BeforeIsEarlier(points[q], points[r]);
    } else if r < q {
      BeforeIsEarlier(points[r], points[q]);
    }
  }

  // ---- Counting triangles ----

  // The triangle lies in the region and is this one, from whichever corner, of this material.
  predicate IsFace(f: Face, naming: Naming, t: Turn, material: int) {
    && |f.triangle| == 3 && |f.normals| == 3 && f.material == material
    && f.triangle[0] in naming && f.triangle[1] in naming && f.triangle[2] in naming
    && var a, b, c := naming[f.triangle[0]], naming[f.triangle[1]], naming[f.triangle[2]];
       var u, v, w := f.normals[0], f.normals[1], f.normals[2];
       t == Turn(a, b, c, u, v, w) || t == Turn(b, c, a, v, w, u) || t == Turn(c, a, b, w, u, v)
  }

  function CountFaces(fs: seq<Face>, naming: Naming, t: Turn, material: int): nat {
    if fs == [] then 0
    else
      CountFaces(fs[..|fs| - 1], naming, t, material) + if IsFace(fs[|fs| - 1], naming, t, material) then 1 else 0
  }

  lemma FaceEntry(f: Face, naming: Naming, t: Turn, material: int)
    ensures multiset(EntryOf(f, naming))[Entry(Oriented(t), material)]
         == if IsFace(f, naming, t, material) then 1 else 0
  {
    if IsTriangle(f) && |f.normals| == 3 {
      assert f.triangle[0] in f.triangle && f.triangle[1] in f.triangle && f.triangle[2] in f.triangle;
      assert forall c :: c in f.triangle ==> c == f.triangle[0] || c == f.triangle[1] || c == f.triangle[2];
      if Contained(f, naming) {
        var turn := TurnOf(f, naming);
        OrientedDecides(turn, t);
        assert Turned(turn, t) && f.material == material <==> IsFace(f, naming, t, material);
      }
    }
  }

  lemma {:induction false} EntriesCounted(fs: seq<Face>, naming: Naming, t: Turn, material: int)
    ensures multiset(Entries(fs, naming))[Entry(Oriented(t), material)] == CountFaces(fs, naming, t, material)
  {
    if fs != [] {
      EntriesCounted(fs[..|fs| - 1], naming, t, material);
      FaceEntry(fs[|fs| - 1], naming, t, material);
      assert Entries(fs, naming) == Entries(fs[..|fs| - 1], naming) + EntryOf(fs[|fs| - 1], naming);
    }
  }

  lemma {:induction false} EntriesAreOriented(fs: seq<Face>, naming: Naming, e: Entry)
    requires e in Entries(fs, naming)
    ensures Oriented(e.turn) == e.turn
  {
    var last := EntryOf(fs[|fs| - 1], naming);
    if e in last {
      var turn := TurnOf(fs[|fs| - 1], naming);
      OrientedIsLeast(turn, turn);
      OrientedDecides(turn, Oriented(turn));
    } else {
      EntriesAreOriented(fs[..|fs| - 1], naming, e);
    }
  }

  ghost predicate SameCounts(fs: seq<Face>, p: Naming, gs: seq<Face>, q: Naming) {
    forall t: Turn, material: int :: CountFaces(fs, p, t, material) == CountFaces(gs, q, t, material)
  }

  // Two counters are equal if and only if every oriented triangle occurs equally often.
  lemma CountersIff(fs: seq<Face>, p: Naming, gs: seq<Face>, q: Naming)
    ensures multiset(Entries(fs, p)) == multiset(Entries(gs, q)) <==> SameCounts(fs, p, gs, q)
  {
    var a, b := multiset(Entries(fs, p)), multiset(Entries(gs, q));
    if a == b {
      forall t: Turn, material: int ensures CountFaces(fs, p, t, material) == CountFaces(gs, q, t, material) {
        EntriesCounted(fs, p, t, material);
        EntriesCounted(gs, q, t, material);
      }
    }
    if SameCounts(fs, p, gs, q) {
      forall e | e in a + b ensures a[e] == b[e] {
        if e in Entries(fs, p) {
          EntriesAreOriented(fs, p, e);
        } else {
          EntriesAreOriented(gs, q, e);
        }
        EntriesCounted(fs, p, e.turn, e.material);
        EntriesCounted(gs, q, e.turn, e.material);
        assert CountFaces(fs, p, e.turn, e.material) == CountFaces(gs, q, e.turn, e.material);
      }
    }
  }

  // ---- The verdict ----

  // Material and normals are listed for every triangle, and a triangle in the region has three
  // normals.
  predicate HasEvidence(m: Mesh, naming: Naming) {
    && |m.materials| == |m.triangles| == |m.normals|
    && forall k :: 0 <= k < |m.triangles| && (forall c :: c in m.triangles[k] ==> c in naming) ==> |m.normals[k]| == 3
  }

  lemma CompleteIff(m: Mesh, naming: Naming)
    ensures Complete(m, naming) <==> HasEvidence(m, naming)
  {
    if Paired(m) {
      var fs := Faces(m, |m.triangles|);
      assert forall k :: 0 <= k < |fs| ==> fs[k] in fs;
      assert forall k :: 0 <= k < |fs| ==> (Countable(fs[k], naming) <==>
        ((forall c :: c in m.triangles[k] ==> c in naming) ==> |m.normals[k]| == 3));
    }
  }

  ghost predicate WithinReach(p: Naming, q: Naming, limit: real, prior: Mesh, current: Mesh) {
    forall i, j :: i in p && j in q && i < |prior.vertices| && j < |current.vertices| && p[i] == q[j] ==>
      SquaredDistance(prior.vertices[i], current.vertices[j]) <= limit
  }

  // Every old vertex in the region is within reach of the new one of its number, each oriented
  // triangle occurs equally often, and the materials are the same.
  ghost predicate Same(p: Naming, q: Naming, limit: real, prior: Mesh, current: Mesh)
    requires Paired(prior) && Paired(current)
  {
    && WithinReach(p, q, limit, prior, current)
    && SameCounts(Faces(prior, |prior.triangles|), p, Faces(current, |current.triangles|), q)
    && current.materialHash == prior.materialHash
  }

  lemma NearIff(limit: real, prior: Mesh, current: Mesh, a: seq<Point>, b: seq<Point>)
    requires |a| == |b| && Placed(a, prior.vertices) && Placed(b, current.vertices)
    ensures Near(a, b, limit) <==> WithinReach(Ranks(a, |a|), Ranks(b, |b|), limit, prior, current)
  {
    var p, q := Ranks(a, |a|), Ranks(b, |b|);
    if WithinReach(p, q, limit, prior, current) {
      RankAt(a);
      RankAt(b);
      forall r | 0 <= r < |a| ensures SquaredDistance(a[r].v, b[r].v) <= limit {
        assert a[r].index in p && b[r].index in q && p[a[r].index] == r == q[b[r].index];
      }
    }
    if Near(a, b, limit) {
      forall i, j | i in p && j in q && i < |prior.vertices| && j < |current.vertices| && p[i] == q[j]
        ensures SquaredDistance(prior.vertices[i], current.vertices[j]) <= limit
      {
        assert a[p[i]].index == i && b[q[j]].index == j;
      }
    }
  }

  lemma ComparisonIff(limit: real, prior: Mesh, current: Mesh, a: seq<Point>, b: seq<Point>, p: Naming, q: Naming)
    requires WellFormed(prior) && WellFormed(current) && |a| == |b|
    requires Placed(a, prior.vertices) && Placed(b, current.vertices) && p == Ranks(a, |a|) && q == Ranks(b, |b|)
    ensures Comparison(a, b, limit, prior, current) == None <==> !(HasEvidence(prior, p) && HasEvidence(current, q))
    ensures Comparison(a, b, limit, prior, current) == Some(true)
       <==> HasEvidence(prior, p) && HasEvidence(current, q) && Same(p, q, limit, prior, current)
  {
    CompleteIff(prior, p);
    CompleteIff(current, q);
    NearIff(limit, prior, current, a, b);
    if HasEvidence(prior, p) && HasEvidence(current, q) {
      CountersIff(Faces(prior, |prior.triangles|), p, Faces(current, |current.triangles|), q);
    }
  }

  // The check raises exactly on an empty selection, or when equally many vertices are selected and
  // the surface evidence is incomplete; it passes exactly when equally many are and the region is
  // the same.
  lemma VerdictIff(inside: Region, limit: real, prior: Mesh, current: Mesh) returns (p: Naming, q: Naming)
    requires WellFormed(prior) && WellFormed(current)
    ensures Numbers(p, inside, prior.vertices) && Numbers(q, inside, current.vertices)
    ensures Verdict(Points(inside, prior.vertices), Points(inside, current.vertices), limit, prior, current) == None
       <==> |p| == 0 || |q| == 0 || (|p| == |q| && !(HasEvidence(prior, p) && HasEvidence(current, q)))
    ensures Verdict(Points(inside, prior.vertices), Points(inside, current.vertices), limit, prior, current)
         == Some(true)
       <==> 0 < |p| == |q| && HasEvidence(prior, p) && HasEvidence(current, q) && Same(p, q, limit, prior, current)
  {
    var a, b := Points(inside, prior.vertices), Points(inside, current.vertices);
    PointsNumbered(inside, prior.vertices, a);
    PointsNumbered(inside, current.vertices, b);
    p, q := Ranks(a, |a|), Ranks(b, |b|);
    if |a| == |b| {
      ComparisonIff(limit, prior, current, a, b, p, q);
    }
  }
}
