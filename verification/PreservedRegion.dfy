// The preserved region of a part (experimental_modeling/requirements.py:241-265).
module PreservedRegion {
  import opened Options
  import opened Vectors

  // ---- Oriented triangles, up to the corner they start from ----

  // A triangle as the numbers of its corners and their normals.
  datatype Turn = Turn(a: nat, b: nat, c: nat, u: Vec, v: Vec, w: Vec)

  // `ranks[shift:] + ranks[:shift]`, and the normals with them.
  function Shift(t: Turn, k: nat): Turn {
    if k == 0 then t else if k == 1 then Turn(t.b, t.c, t.a, t.v, t.w, t.u) else Turn(t.c, t.a, t.b, t.w, t.u, t.v)
  }

  // What Python compares: the numbers first, then the normals, component by component.
  function Code(t: Turn): (c: seq<real>)
    ensures |c| == 12
  {
    [t.a as real, t.b as real, t.c as real, t.u.x, t.u.y, t.u.z, t.v.x, t.v.y, t.v.z, t.w.x, t.w.y, t.w.z]
  }

  predicate AtMost(a: seq<real>, b: seq<real>)
    requires |a| == |b|
  {
    a == [] || a[0] < b[0] || (a[0] == b[0] && AtMost(a[1..], b[1..]))
  }

  lemma {:induction false} AtMostIsOrder(a: seq<real>, b: seq<real>)
    requires |a| == |b|
    ensures AtMost(a, b) || AtMost(b, a)
    ensures AtMost(a, b) && AtMost(b, a) ==> a == b
  {
    if a != [] {
      AtMostIsOrder(a[1..], b[1..]);
      assert a == [a[0]] + a[1..] && b == [b[0]] + b[1..];
    }
  }

  lemma {:induction false} AtMostIsTransitive(a: seq<real>, b: seq<real>, c: seq<real>)
    requires |a| == |b| == |c| && AtMost(a, b) && AtMost(b, c)
    ensures AtMost(a, c)
  {
    if a != [] {
      if a[0] == b[0] == c[0] {
        AtMostIsTransitive(a[1..], b[1..], c[1..]);
      }
    }
  }

  lemma CodeIsInjective(t: Turn, u: Turn)
    requires Code(t) == Code(u)
    ensures t == u
  {
    var c, d := Code(t), Code(u);
    assert forall i :: 0 <= i < 12 ==> c[i] == d[i];
    assert t.u == u.u && t.v == u.v && t.w == u.w;
  }

  predicate TurnAtMost(t: Turn, u: Turn) { AtMost(Code(t), Code(u)) }

  function Least(t: Turn, u: Turn): (r: Turn)
    ensures r == t || r == u
  {
    if TurnAtMost(t, u) then t else u
  }

  // `min(... for shift in range(3))`
  function Oriented(t: Turn): Turn { Least(Least(Shift(t, 0), Shift(t, 1)), Shift(t, 2)) }

  // The same triangle from one of its corners.
  predicate Turned(t: Turn, u: Turn) { u == Shift(t, 0) || u == Shift(t, 1) || u == Shift(t, 2) }

  lemma LeastIsLeast(t: Turn, u: Turn)
    ensures TurnAtMost(Least(t, u), t) && TurnAtMost(Least(t, u), u)
  {
    AtMostIsOrder(Code(t), Code(u));
    AtMostIsOrder(Code(t), Code(t));
    AtMostIsOrder(Code(u), Code(u));
  }

  lemma OrientedIsLeast(t: Turn, u: Turn)
    requires Turned(t, u)
    ensures Turned(t, Oriented(t)) && TurnAtMost(Oriented(t), u)
  {
    var first := Least(Shift(t, 0), Shift(t, 1));
    LeastIsLeast(Shift(t, 0), Shift(t, 1));
    LeastIsLeast(first, Shift(t, 2));
    if u != Shift(t, 2) {
      AtMostIsTransitive(Code(Oriented(t)), Code(first), Code(u));
    }
  }

  lemma TurnedIsEquivalence(t: Turn, u: Turn, v: Turn)
    requires Turned(t, u)
    ensures Turned(u, t) && Turned(t, t) && (Turned(u, v) ==> Turned(t, v))
  {
  }

  // Two triangles have the same key exactly when one is the other from another corner.
  lemma OrientedDecides(t: Turn, u: Turn)
    ensures Oriented(t) == Oriented(u) <==> Turned(t, u)
  {
    TurnedIsEquivalence(t, Shift(t, 0), t);
    TurnedIsEquivalence(u, Shift(u, 0), u);
    OrientedIsLeast(t, t);
    OrientedIsLeast(u, u);
    if Oriented(t) == Oriented(u) {
      TurnedIsEquivalence(u, Oriented(u), u);
      TurnedIsEquivalence(t, Oriented(t), u);
    }
    if Turned(t, u) {
      TurnedIsEquivalence(t, u, Oriented(u));
      TurnedIsEquivalence(u, t, Oriented(t));
      OrientedIsLeast(t, Oriented(u));
      OrientedIsLeast(u, Oriented(t));
      AtMostIsOrder(Code(Oriented(t)), Code(Oriented(u)));
      CodeIsInjective(Oriented(t), Oriented(u));
    }
  }

  // A triangle with three different corners read backwards has another key.
  lemma ReversalIsNotTurned(t: Turn)
    requires t.a != t.b && t.b != t.c && t.c != t.a
    ensures var r := Turn(t.c, t.b, t.a, t.w, t.v, t.u); Oriented(r) != Oriented(t)
  {
    OrientedDecides(t, Turn(t.c, t.b, t.a, t.w, t.v, t.u));
  }

  // ---- Selected vertices, in the order of their coordinates ----

  // The observed part; `normals` has one list of corner normals per triangle, rounded to 1e-6.
  datatype Mesh = Mesh(vertices: seq<Vec>, triangles: seq<seq<nat>>, materials: seq<int>, normals: seq<seq<Vec>>,
                       materialHash: string)

  predicate WellFormed(m: Mesh) {
    forall t :: t in m.triangles ==> |t| == 3 && forall i :: i in t ==> i < |m.vertices|
  }

  type Region = Vec -> bool

  datatype Point = Point(v: Vec, index: nat)

  // Python's order on (coordinates, index).
  predicate PointBefore(a: Point, b: Point) {
    AtMost(PointCode(a), PointCode(b))
  }

  function PointCode(p: Point): (c: seq<real>)
    ensures |c| == 4
  {
    [p.v.x, p.v.y, p.v.z, p.index as real]
  }

  function InsertPoint(p: Point, points: seq<Point>): seq<Point> {
    if points == [] || PointBefore(p, points[0]) then [p] + points
    else [points[0]] + InsertPoint(p, points[1..])
  }

  function SortPoints(points: seq<Point>): seq<Point> {
    if points == [] then [] else InsertPoint(points[0], SortPoints(points[1..]))
  }

  function Selected(inside: Region, vertices: seq<Vec>, n: nat): seq<Point>
    requires n <= |vertices|
  {
    if n == 0 then []
    else
      Selected(inside, vertices, n - 1) + if inside(vertices[n - 1]) then [Point(vertices[n - 1], n - 1)] else []
  }

  function Points(inside: Region, vertices: seq<Vec>): seq<Point> { SortPoints(Selected(inside, vertices, |vertices|)) }

  // The points of the list are the first n vertices inside, each once.
  ghost predicate Lists(points: seq<Point>, inside: Region, vertices: seq<Vec>, n: nat)
    requires n <= |vertices|
  {
    && (forall r :: 0 <= r < |points| ==> IsPoint(points[r], inside, vertices, n))
    && (forall q, r :: 0 <= q < r < |points| ==> points[q].index != points[r].index)
    && forall i: nat :: i < n && inside(vertices[i]) ==> HasIndex(points, i)
  }

  predicate IsPoint(p: Point, inside: Region, vertices: seq<Vec>, n: nat)
    requires n <= |vertices|
  {
    p.index < n && inside(p.v) && p.v == vertices[p.index]
  }

  predicate HasIndex(points: seq<Point>, i: nat) { exists r :: 0 <= r < |points| && points[r].index == i }

  lemma {:induction false} InsertKeepsPoints(p: Point, points: seq<Point>)
    ensures multiset(InsertPoint(p, points)) == multiset{p} + multiset(points)
  {
    if points != [] {
      assert points == [points[0]] + points[1..];
      if !PointBefore(p, points[0]) {
        InsertKeepsPoints(p, points[1..]);
      }
    }
  }

  lemma {:induction false} SortKeepsPoints(points: seq<Point>)
    ensures multiset(SortPoints(points)) == multiset(points)
  {
    if points != [] {
      assert points == [points[0]] + points[1..];
      SortKeepsPoints(points[1..]);
      InsertKeepsPoints(points[0], SortPoints(points[1..]));
    }
  }

  // In Python's order.
  predicate InOrder(points: seq<Point>) { forall q, r :: 0 <= q < r < |points| ==> PointBefore(points[q], points[r]) }

  lemma PointOrder(p: Point, q: Point, r: Point)
    ensures PointBefore(p, q) || PointBefore(q, p)
    ensures PointBefore(p, q) && PointBefore(q, r) ==> PointBefore(p, r)
  {
    AtMostIsOrder(PointCode(p), PointCode(q));
    if PointBefore(p, q) && PointBefore(q, r) {
      AtMostIsTransitive(PointCode(p), PointCode(q), PointCode(r));
    }
  }

  lemma FirstInOrder(p: Point, rest: seq<Point>)
    requires InOrder(rest) && forall q :: q in rest ==> PointBefore(p, q)
    ensures InOrder([p] + rest)
  {
    var points := [p] + rest;
    forall q, r | 0 <= q < r < |points| ensures PointBefore(points[q], points[r]) {
      assert points[r] == rest[r - 1];
      assert q > 0 ==> points[q] == rest[q - 1];
    }
  }

  lemma {:induction false} InsertInOrder(p: Point, points: seq<Point>)
    requires InOrder(points)
    ensures InOrder(InsertPoint(p, points))
  {
    if points == [] || PointBefore(p, points[0]) {
      forall q | q in points ensures PointBefore(p, q) {
        PointOrder(p, points[0], q);
      }
      FirstInOrder(p, points);
    } else {
      var rest := points[1..];
      assert forall q, r :: 0 <= q < r < |rest| ==> rest[q] == points[q + 1] && rest[r] == points[r + 1];
      InsertInOrder(p, rest);
      InsertKeepsPoints(p, rest);
      PointOrder(p, points[0], p);
      forall q | q in InsertPoint(p, rest) ensures PointBefore(points[0], q) {
        assert q in multiset(InsertPoint(p, rest));
        if q != p {
          assert q in rest;
          var r :| 0 <= r < |rest| && rest[r] == q;
          assert points[r + 1] == q;
        }
      }
      FirstInOrder(points[0], InsertPoint(p, rest));
    }
  }

  lemma {:induction false} SortInOrder(points: seq<Point>)
    ensures InOrder(SortPoints(points))
  {
    if points != [] {
      SortInOrder(points[1..]);
      InsertInOrder(points[0], SortPoints(points[1..]));
    }
  }

  lemma ListsNext(points: seq<Point>, inside: Region, vertices: seq<Vec>, n: nat)
    requires 0 < n <= |vertices| && Lists(points, inside, vertices, n - 1) && inside(vertices[n - 1])
    ensures Lists(points + [Point(vertices[n - 1], n - 1)], inside, vertices, n)
  {
    var after := points + [Point(vertices[n - 1], n - 1)];
    forall i: nat | i < n && inside(vertices[i]) ensures HasIndex(after, i) {
      if i < n - 1 {
        assert HasIndex(points, i);
        var r :| 0 <= r < |points| && points[r].index == i;
        assert after[r].index == i;
      } else {
        assert after[|after| - 1].index == i;
      }
    }
    forall r | 0 <= r < |after| ensures IsPoint(after[r], inside, vertices, n) {
      assert r < |points| ==> IsPoint(points[r], inside, vertices, n - 1);
    }
  }

  lemma ListsSkip(points: seq<Point>, inside: Region, vertices: seq<Vec>, n: nat)
    requires 0 < n <= |vertices| && Lists(points, inside, vertices, n - 1) && !inside(vertices[n - 1])
    ensures Lists(points, inside, vertices, n)
  {
    forall r | 0 <= r < |points| ensures IsPoint(points[r], inside, vertices, n) {
      assert IsPoint(points[r], inside, vertices, n - 1);
    }
  }

  lemma {:induction false} SelectedLists(inside: Region, vertices: seq<Vec>, n: nat)
    requires n <= |vertices|
    ensures Lists(Selected(inside, vertices, n), inside, vertices, n)
  {
    if n > 0 {
      SelectedLists(inside, vertices, n - 1);
      if inside(vertices[n - 1]) {
        ListsNext(Selected(inside, vertices, n - 1), inside, vertices, n);
      } else {
        ListsSkip(Selected(inside, vertices, n - 1), inside, vertices, n);
        assert Selected(inside, vertices, n) == Selected(inside, vertices, n - 1);
      }
    }
  }

  lemma SameMultisetLists(a: seq<Point>, b: seq<Point>, inside: Region, vertices: seq<Vec>, n: nat)
    requires n <= |vertices| && multiset(a) == multiset(b) && Lists(a, inside, vertices, n)
    ensures Lists(b, inside, vertices, n)
  {
    forall r | 0 <= r < |b| ensures IsPoint(b[r], inside, vertices, n) {
      assert b[r] in multiset(a);
      assert b[r] in a;
    }
    forall q, r | 0 <= q < r < |b| ensures b[q].index != b[r].index {
      RepeatedPoint(a, b, q, r);
    }
    forall i: nat | i < n && inside(vertices[i]) ensures HasIndex(b, i) {
      assert HasIndex(a, i);
      var r :| 0 <= r < |a| && a[r].index == i;
      assert a[r] in multiset(b);
      assert a[r] in b;
    }
  }

  lemma PointsList(inside: Region, vertices: seq<Vec>)
    ensures Lists(Points(inside, vertices), inside, vertices, |vertices|) && InOrder(Points(inside, vertices))
  {
    SortInOrder(Selected(inside, vertices, |vertices|));
    var selected := Selected(inside, vertices, |vertices|);
    SelectedLists(inside, vertices, |vertices|);
    SortKeepsPoints(selected);
    SameMultisetLists(selected, SortPoints(selected), inside, vertices, |vertices|);
  }

  // Two entries of b with one index would be one point of a counted twice.
  lemma RepeatedPoint(a: seq<Point>, b: seq<Point>, q: nat, r: nat)
    requires multiset(a) == multiset(b) && q < r < |b|
    requires forall i, j :: 0 <= i < j < |a| ==> a[i].index != a[j].index
    ensures b[q].index != b[r].index
  {
    assert b[q] in multiset(a) && b[r] in multiset(a);
    var i :| 0 <= i < |a| && a[i] == b[q];
    var j :| 0 <= j < |a| && a[j] == b[r];
    if i == j {
      OnceOnly(a, i);
      TwiceAtLeast(b, q, r);
    }
  }

  lemma OnceOnly(a: seq<Point>, i: nat)
    requires i < |a| && forall j, k :: 0 <= j < k < |a| ==> a[j].index != a[k].index
    ensures multiset(a)[a[i]] == 1
  {
    assert a == a[..i] + [a[i]] + a[i + 1..];
    assert a[i] !in a[..i] && a[i] !in a[i + 1..];
  }

  lemma TwiceAtLeast(b: seq<Point>, q: nat, r: nat)
    requires q < r < |b|
    ensures b[q] == b[r] ==> multiset(b)[b[q]] >= 2
  {
    assert b == b[..q] + [b[q]] + b[q + 1..r] + [b[r]] + b[r + 1..];
  }

  // `mapping`: the rank of each listed vertex.
  function Ranks(points: seq<Point>, n: nat): (m: map<nat, nat>)
    requires n <= |points|
    ensures forall i :: i in m ==> m[i] < n && points[m[i]].index == i
    ensures forall r :: 0 <= r < n ==> points[r].index in m
  {
    if n == 0 then map[] else Ranks(points, n - 1)[points[n - 1].index := n - 1]
  }

  // ---- The triangles wholly inside, by the numbers of their corners ----

  type Naming = map<nat, nat>

  datatype Entry = Entry(turn: Turn, material: int)

  // A triangle with its evidence.
  datatype Face = Face(triangle: seq<nat>, material: int, normals: seq<Vec>)

  predicate Paired(m: Mesh) { |m.materials| == |m.triangles| && |m.normals| == |m.triangles| }

  function Faces(m: Mesh, n: nat): (fs: seq<Face>)
    requires Paired(m) && n <= |m.triangles|
    ensures |fs| == n && forall i :: 0 <= i < n ==> fs[i] == Face(m.triangles[i], m.materials[i], m.normals[i])
  {
    seq(n, i requires 0 <= i < n => Face(m.triangles[i], m.materials[i], m.normals[i]))
  }

  // A triangle of the mesh: three corners.
  predicate IsTriangle(f: Face) { |f.triangle| == 3 }

  predicate Contained(f: Face, naming: Naming) { forall c :: c in f.triangle ==> c in naming }

  // A contained triangle has three normals.
  predicate Countable(f: Face, naming: Naming) { Contained(f, naming) ==> |f.normals| == 3 }

  predicate AllCountable(fs: seq<Face>, naming: Naming) { forall f :: f in fs ==> Countable(f, naming) }

  // No raise: the lists belong together, and contained triangles have three normals.
  predicate Complete(m: Mesh, naming: Naming) { Paired(m) && AllCountable(Faces(m, |m.triangles|), naming) }

  function TurnOf(f: Face, naming: Naming): Turn
    requires IsTriangle(f) && Contained(f, naming) && |f.normals| == 3
  {
    var t, n := f.triangle, f.normals;
    assert t[0] in t && t[1] in t && t[2] in t;
    Turn(naming[t[0]], naming[t[1]], naming[t[2]], n[0], n[1], n[2])
  }

  // What one face adds to the counter.
  function EntryOf(f: Face, naming: Naming): seq<Entry> {
    if IsTriangle(f) && Contained(f, naming) && |f.normals| == 3 then [Entry(Oriented(TurnOf(f, naming)), f.material)]
    else []
  }

  function Entries(fs: seq<Face>, naming: Naming): seq<Entry> {
    if fs == [] then [] else Entries(fs[..|fs| - 1], naming) + EntryOf(fs[|fs| - 1], naming)
  }

  function Counter(m: Mesh, naming: Naming): multiset<Entry>
    requires Paired(m)
  {
    multiset(Entries(Faces(m, |m.triangles|), naming))
  }

  // The inner `topology`; None when it raises.
  method Topology(m: Mesh, naming: Naming) returns (counter: Option<multiset<Entry>>)
    requires WellFormed(m)
    ensures counter.Some? <==> Complete(m, naming)
    ensures counter.Some? ==> counter.value == Counter(m, naming)
  {
    if |m.materials| != |m.triangles| || |m.normals| != |m.triangles| {
      return None;
    }
    var fs := Faces(m, |m.triangles|);
    var surfaces: seq<Entry> := [];
    for n := 0 to |fs|
      invariant AllCountable(fs[..n], naming) && surfaces == Entries(fs[..n], naming)
    {
      NextFace(fs, n, naming);
      var f := fs[n];
      assert f.triangle in m.triangles;
      if Contained(f, naming) {
        if |f.normals| != 3 {
          return None;
        }
        surfaces := surfaces + [Entry(Oriented(TurnOf(f, naming)), f.material)];
      }
    }
    assert fs[..|fs|] == fs;
    return Some(multiset(surfaces));
  }

  lemma NextFace(fs: seq<Face>, n: nat, naming: Naming)
    requires n < |fs|
    ensures AllCountable(fs[..n + 1], naming) <==> AllCountable(fs[..n], naming) && Countable(fs[n], naming)
    ensures !Countable(fs[n], naming) ==> !AllCountable(fs, naming)
    ensures Entries(fs[..n + 1], naming) == Entries(fs[..n], naming) + EntryOf(fs[n], naming)
  {
    assert fs[..n + 1] == fs[..n] + [fs[n]];
    assert fs[..n + 1][..n] == fs[..n];
  }

  // ---- `preserved_region` ----

  // The larger of the squared displacements, rank by rank.
  method LargestDisplacement(a: seq<Point>, b: seq<Point>) returns (largest: real)
    requires |a| == |b|
    ensures forall r :: 0 <= r < |a| ==> SquaredDistance(a[r].v, b[r].v) <= largest
    ensures largest == 0.0 || exists r :: 0 <= r < |a| && SquaredDistance(a[r].v, b[r].v) == largest
  {
    largest := 0.0;
    for n := 0 to |a|
      invariant forall r :: 0 <= r < n ==> SquaredDistance(a[r].v, b[r].v) <= largest
      invariant largest == 0.0 || exists r :: 0 <= r < n && SquaredDistance(a[r].v, b[r].v) == largest
    {
      var squared := SquaredDistance(a[n].v, b[n].v);
      if squared > largest {
        largest := squared;
      }
    }
  }

  predicate Near(a: seq<Point>, b: seq<Point>, limit: real) {
    |a| == |b| && forall r :: 0 <= r < |a| ==> SquaredDistance(a[r].v, b[r].v) <= limit
  }

  // The comparison of two selections of one size; None when the surface evidence is incomplete.
  function Comparison(a: seq<Point>, b: seq<Point>, limit: real, prior: Mesh, current: Mesh): Option<bool>
    requires WellFormed(prior) && WellFormed(current)
  {
    var before, after := Ranks(a, |a|), Ranks(b, |b|);
    if !Complete(prior, before) || !Complete(current, after) then None
    else
      Some(Near(a, b, limit) && Counter(prior, before) == Counter(current, after)
           && current.materialHash == prior.materialHash)
  }

  function Verdict(a: seq<Point>, b: seq<Point>, limit: real, prior: Mesh, current: Mesh): Option<bool>
    requires WellFormed(prior) && WellFormed(current)
  {
    if a == [] || b == [] then None
    else if |a| != |b| then Some(false)
    else Comparison(a, b, limit, prior, current)
  }

  method Compare(a: seq<Point>, b: seq<Point>, limit: real, prior: Mesh, current: Mesh) returns (passed: Option<bool>)
    requires WellFormed(prior) && WellFormed(current) && limit >= 0.0 && |a| == |b|
    ensures passed == Comparison(a, b, limit, prior, current)
  {
    var largest := LargestDisplacement(a, b);
    assert largest <= limit <==> Near(a, b, limit);
    var before := Topology(prior, Ranks(a, |a|));
    if before.None? {
      return None;
    }
    var after := Topology(current, Ranks(b, |b|));
    if after.None? {
      return None;
    }
    return Some(largest <= limit && before.value == after.value && current.materialHash == prior.materialHash);
  }

  // Raised only on an empty selection or incomplete surface evidence; `limit` is the square of
  // the tolerance.
  method Preserved(inside: Region, limit: real, prior: Mesh, current: Mesh) returns (passed: Option<bool>)
    requires WellFormed(prior) && WellFormed(current) && limit >= 0.0
    ensures passed == Verdict(Points(inside, prior.vertices), Points(inside, current.vertices), limit, prior, current)
  {
    var a, b := Points(inside, prior.vertices), Points(inside, current.vertices);
    if a == [] || b == [] {
      return None;
    }
    if |a| != |b| {
      return Some(false);
    }
    passed := Compare(a, b, limit, prior, current);
  }
}
