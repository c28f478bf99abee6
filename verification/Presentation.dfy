// What the translation check does not depend on: face order, cyclic start, edge order and
// direction (experimental_modeling/translation_v2.py:33-88).
module Presentation {
  import opened Options
  import opened Rotations
  import opened Vectors
  import opened Translation

  // ---- Lists with the same elements ----

  lemma SameMembers<T>(a: seq<T>, b: seq<T>)
    requires multiset(a) == multiset(b)
    ensures |a| == |b| && forall x :: x in a <==> x in b
  {
    assert |multiset(a)| == |a| && |multiset(b)| == |b|;
    forall x ensures x in a <==> x in b {
      assert x in a <==> x in multiset(a);
      assert x in b <==> x in multiset(b);
    }
  }

  lemma Removed<T>(a: seq<T>, b: seq<T>, j: nat)
    requires a != [] && multiset(a) == multiset(b) && j < |b| && b[j] == a[0]
    ensures multiset(a[1..]) == multiset(b[..j] + b[j + 1..]) && b == b[..j] + [b[j]] + b[j + 1..]
  {
    assert a == [a[0]] + a[1..];
    assert b == b[..j] + [b[j]] + b[j + 1..];
    assert multiset(a[1..]) == multiset(a) - multiset{b[j]};
    assert multiset(b[..j] + b[j + 1..]) == multiset(b) - multiset{b[j]};
  }

  // ---- Edges ----

  // An edge written in the other direction.
  predicate SameEdge(a: seq<int>, b: seq<int>) { b == a || (|a| == 2 && b == [a[1], a[0]]) }

  lemma {:induction false} CountsIgnoreDirection(part: Part, a: seq<seq<int>>, b: seq<seq<int>>)
    requires AllEdgesValid(part, a) && AllEdgesValid(part, b) && |a| == |b|
    requires forall i :: 0 <= i < |a| ==> SameEdge(a[i], b[i])
    ensures Counts(part, a) == Counts(part, b)
  {
    if a != [] {
      assert SameEdge(a[0], b[0]);
      CountsIgnoreDirection(part, a[1..], b[1..]);
    }
  }

  lemma {:induction false} CountsSplit(part: Part, a: seq<seq<int>>, e: seq<int>, b: seq<seq<int>>)
    requires AllEdgesValid(part, a + [e] + b)
    ensures AllEdgesValid(part, a + b) && ValidEdge(part, e)
    ensures Counts(part, a + [e] + b) == multiset{Edge(e)} + Counts(part, a + b)
  {
    assert (a + [e] + b)[|a|] == e;
    forall f | f in a + b ensures ValidEdge(part, f) {
      assert f in a + [e] + b;
    }
    if a == [] {
      assert [] + [e] + b == [e] + b && [] + b == b;
      assert ([e] + b)[1..] == b;
    } else {
      assert (a + [e] + b)[1..] == a[1..] + [e] + b && (a + b)[1..] == a[1..] + b;
      CountsSplit(part, a[1..], e, b);
    }
  }

  lemma {:induction false} CountsIgnoreOrder(part: Part, a: seq<seq<int>>, b: seq<seq<int>>)
    requires AllEdgesValid(part, a) && AllEdgesValid(part, b) && multiset(a) == multiset(b)
    ensures Counts(part, a) == Counts(part, b)
    decreases |a|
  {
    SameMembers(a, b);
    if a != [] {
      assert a[0] in b;
      var j :| 0 <= j < |b| && b[j] == a[0];
      Removed(a, b, j);
      CountsSplit(part, b[..j], b[j], b[j + 1..]);
      CountsIgnoreOrder(part, a[1..], b[..j] + b[j + 1..]);
    }
  }

  lemma {:induction false} CountsOfOther(a: Part, b: Part, edges: seq<seq<int>>)
    requires AllEdgesValid(a, edges) && AllEdgesValid(b, edges)
    ensures Counts(a, edges) == Counts(b, edges)
  {
    if edges != [] {
      CountsOfOther(a, b, edges[1..]);
    }
  }

  // The same edges in another order and direction.
  predicate SameEdges(a: seq<seq<int>>, turned: seq<seq<int>>, b: seq<seq<int>>) {
    |turned| == |a| && multiset(turned) == multiset(b) && forall i :: 0 <= i < |a| ==> SameEdge(a[i], turned[i])
  }

  lemma EdgesValidTogether(a: Part, b: Part, turned: seq<seq<int>>)
    requires a.vertices == b.vertices && |turned| == |a.edges|
    requires forall i :: 0 <= i < |turned| ==> SameEdge(a.edges[i], turned[i])
    ensures AllEdgesValid(a, a.edges) <==> AllEdgesValid(b, turned)
  {
    if AllEdgesValid(a, a.edges) {
      forall i | 0 <= i < |turned| ensures ValidEdge(b, turned[i]) {
        assert a.edges[i] in a.edges;
      }
    }
    if AllEdgesValid(b, turned) {
      forall i | 0 <= i < |turned| ensures ValidEdge(a, a.edges[i]) {
        assert turned[i] in turned;
      }
    }
  }

  lemma EdgesIgnoreWriting(a: Part, b: Part, turned: seq<seq<int>>)
    requires a.vertices == b.vertices && SameEdges(a.edges, turned, b.edges)
    ensures |a.edges| == |b.edges| && (AllEdgesValid(a, a.edges) <==> AllEdgesValid(b, b.edges))
    ensures AllEdgesValid(a, a.edges) ==> Counts(a, a.edges) == Counts(b, b.edges)
  {
    SameMembers(turned, b.edges);
    EdgesValidTogether(a, b, turned);
    if AllEdgesValid(a, a.edges) {
      assert AllEdgesValid(b, a.edges);
      CountsOfOther(a, b, a.edges);
      CountsIgnoreDirection(b, a.edges, turned);
      CountsIgnoreOrder(b, turned, b.edges);
    }
  }

  // ---- Faces ----

  datatype Face = Face(corners: seq<int>, assignment: int, normals: seq<Vec>)

  predicate Paired(part: Part) { |part.faces| == |part.assignments| == |part.normals| }

  function Faces(part: Part): (fs: seq<Face>)
    requires Paired(part)
    ensures |fs| == |part.faces|
    ensures forall i :: 0 <= i < |fs| ==> fs[i] == Face(part.faces[i], part.assignments[i], part.normals[i])
  {
    seq(|part.faces|, i requires 0 <= i < |part.faces| => Face(part.faces[i], part.assignments[i], part.normals[i]))
  }

  predicate TurnedBy(x: Face, y: Face, k: nat)
    requires k <= |x.corners|
  {
    && y.corners == Rotate(x.corners, k) && y.assignment == x.assignment
    && y.normals == if |x.normals| == |x.corners| then Rotate(x.normals, k) else x.normals
  }

  // The same face with its evidence, from another corner.
  predicate Turned(x: Face, y: Face) { exists k :: 0 <= k <= |x.corners| && TurnedBy(x, y, k) }

  lemma TurnedBack(x: Face, y: Face)
    requires Turned(x, y)
    ensures Turned(y, x)
  {
    var k :| 0 <= k <= |x.corners| && TurnedBy(x, y, k);
    RotateBack(x.corners, k);
    if |x.normals| == |x.corners| {
      RotateBack(x.normals, k);
    }
    assert TurnedBy(y, x, |x.corners| - k);
  }

  predicate FaceOk(unit: Unit, part: Part, edges: multiset<(int, int)>, f: Face) {
    && 3 <= |f.corners| <= MAX_VALENCE && (forall k :: 0 <= k < |f.corners| ==> ValidIndex(part, f.corners[k]))
    && Distinct(f.corners) && HasSides(f.corners, edges) && 0 <= f.assignment < |part.palette|
    && |f.normals| == |f.corners| && forall n :: n in f.normals ==> InRange(n) && unit(n).Some?
  }

  predicate AllOk(unit: Unit, part: Part, edges: multiset<(int, int)>, fs: seq<Face>) {
    forall f :: f in fs ==> FaceOk(unit, part, edges, f)
  }

  lemma FacesOk(unit: Unit, part: Part, edges: multiset<(int, int)>)
    requires SizesValid(part)
    ensures FacesValid(unit, part, edges) <==> AllOk(unit, part, edges, Faces(part))
  {
    var fs := Faces(part);
    assert forall i :: 0 <= i < |fs| ==> fs[i] in fs && (ValidFace(unit, part, edges, i) <==> FaceOk(unit, part, edges, fs[i]));
  }

  lemma SidesTurned(face: seq<int>, k: nat, edges: multiset<(int, int)>)
    requires k <= |face| && HasSides(face, edges)
    ensures HasSides(Rotate(face, k), edges)
  {
    var n := |face|;
    forall i | 0 <= i < n ensures Undirected(Rotate(face, k)[i], Rotate(face, k)[if i + 1 < n then i + 1 else 0]) in edges {
      var j := Source(n, k, i);
      RotateAt(face, k, i);
      RotateAt(face, k, if i + 1 < n then i + 1 else 0);
      assert Undirected(face[j], face[if j + 1 < n then j + 1 else 0]) in edges;
    }
  }

  lemma TurnedOk(unit: Unit, part: Part, edges: multiset<(int, int)>, x: Face, y: Face)
    requires Turned(x, y) && FaceOk(unit, part, edges, x)
    ensures FaceOk(unit, part, edges, y)
  {
    var k :| 0 <= k <= |x.corners| && TurnedBy(x, y, k);
    RotateKeepsDistinct(x.corners, k);
    SidesTurned(x.corners, k, edges);
    forall i | 0 <= i < |y.corners| ensures ValidIndex(part, y.corners[i]) {
      RotateAt(x.corners, k, i);
    }
    UnitsOfRotation(unit, x.normals, k);
    forall n | n in y.normals ensures n in x.normals {
    }
  }

  // ---- What a list of faces adds up to ----

  datatype Tally = Tally(corners: nat, keys: multiset<seq<int>>)

  function Plus(f: Face, t: Tally): Tally { Tally(|f.corners| + t.corners, multiset{Canonical(f.corners)} + t.keys) }

  function TallyOf(fs: seq<Face>): Tally {
    if fs == [] then Tally(0, multiset{}) else Plus(fs[0], TallyOf(fs[1..]))
  }

  lemma PlusCommutes(f: Face, g: Face, t: Tally)
    ensures Plus(f, Plus(g, t)) == Plus(g, Plus(f, t))
  {
  }

  lemma {:induction false} TallySplit(a: seq<Face>, f: Face, b: seq<Face>)
    ensures TallyOf(a + [f] + b) == Plus(f, TallyOf(a + b))
  {
    if a == [] {
      assert [] + [f] + b == [f] + b && [] + b == b;
      assert ([f] + b)[1..] == b;
    } else {
      assert (a + [f] + b)[1..] == a[1..] + [f] + b && (a + b)[1..] == a[1..] + b;
      TallySplit(a[1..], f, b);
      PlusCommutes(a[0], f, TallyOf(a[1..] + b));
    }
  }

  lemma {:induction false} TallyIgnoresOrder(a: seq<Face>, b: seq<Face>)
    requires multiset(a) == multiset(b)
    ensures TallyOf(a) == TallyOf(b)
    decreases |a|
  {
    SameMembers(a, b);
    if a != [] {
      assert a[0] in b;
      var j :| 0 <= j < |b| && b[j] == a[0];
      Removed(a, b, j);
      TallySplit(b[..j], b[j], b[j + 1..]);
      TallyIgnoresOrder(a[1..], b[..j] + b[j + 1..]);
    }
  }

  predicate AllTurned(xs: seq<Face>, ys: seq<Face>) { |xs| == |ys| && forall i :: 0 <= i < |xs| ==> Turned(xs[i], ys[i]) }

  predicate AllDistinct(fs: seq<Face>) { forall f :: f in fs ==> Distinct(f.corners) }

  lemma {:induction false} TallyIgnoresStarts(xs: seq<Face>, ys: seq<Face>)
    requires AllTurned(xs, ys) && AllDistinct(xs)
    ensures TallyOf(xs) == TallyOf(ys)
  {
    if xs != [] {
      var k :| 0 <= k <= |xs[0].corners| && TurnedBy(xs[0], ys[0], k);
      assert xs[0] in xs;
      if xs[0].corners != [] {
        CanonicalOfRotation(xs[0].corners, xs[0].corners, k);
      }
      TallyIgnoresStarts(xs[1..], ys[1..]);
    }
  }

  lemma {:induction false} TallyOfFaces(part: Part, n: nat)
    requires Paired(part) && n <= |part.faces|
    ensures TallyOf(Faces(part)[n..]).corners == Corners(part.faces[n..])
    decreases |part.faces| - n
  {
    var fs := Faces(part);
    if n < |fs| {
      assert fs[n..] == [fs[n]] + fs[n + 1..] && part.faces[n..] == [part.faces[n]] + part.faces[n + 1..];
      assert part.faces[n..][1..] == part.faces[n + 1..];
      TallyOfFaces(part, n + 1);
    }
  }

  predicate KeysOnce(fs: seq<Face>) {
    forall i, j :: 0 <= i < j < |fs| ==> Canonical(fs[i].corners) != Canonical(fs[j].corners)
  }

  predicate HasKey(fs: seq<Face>, key: seq<int>) { exists i :: 0 <= i < |fs| && Canonical(fs[i].corners) == key }

  lemma {:induction false} KeyTallied(fs: seq<Face>, key: seq<int>)
    ensures key in TallyOf(fs).keys <==> HasKey(fs, key)
  {
    if fs != [] {
      KeyTallied(fs[1..], key);
      assert HasKey(fs[1..], key) ==> HasKey(fs, key) by {
        if i :| 0 <= i < |fs[1..]| && Canonical(fs[1..][i].corners) == key {
          assert fs[i + 1] == fs[1..][i];
        }
      }
      if i :| 0 < i < |fs| && Canonical(fs[i].corners) == key {
        assert fs[1..][i - 1] == fs[i];
      }
    }
  }

  predicate Single(keys: multiset<seq<int>>) { forall key :: key in keys ==> keys[key] == 1 }

  lemma {:induction false} KeysOnceIff(fs: seq<Face>)
    ensures KeysOnce(fs) <==> Single(TallyOf(fs).keys)
  {
    if fs != [] {
      var key, rest := Canonical(fs[0].corners), TallyOf(fs[1..]).keys;
      KeysOnceIff(fs[1..]);
      KeyTallied(fs[1..], key);
      OnceMore(rest, key);
      assert KeysOnce(fs) <==> KeysOnce(fs[1..]) && !HasKey(fs[1..], key) by {
        assert forall i :: 0 <= i < |fs| - 1 ==> fs[1..][i] == fs[i + 1];
        if KeysOnce(fs[1..]) && !HasKey(fs[1..], key) {
          forall i, j | 0 <= i < j < |fs| ensures Canonical(fs[i].corners) != Canonical(fs[j].corners) {
            assert fs[j] == fs[1..][j - 1];
          }
        }
      }
    }
  }

  lemma OnceMore(keys: multiset<seq<int>>, key: seq<int>)
    ensures Single(multiset{key} + keys) <==> Single(keys) && key !in keys
  {
    var more := multiset{key} + keys;
    if Single(more) {
      assert more[key] == keys[key] + 1;
      assert forall k :: k in keys ==> k in more && (k != key ==> more[k] == keys[k]);
    }
  }

  // ---- One part, written down differently ----

  ghost predicate SameFaces(a: seq<Face>, b: seq<Face>) {
    exists turned: seq<Face> :: AllTurned(a, turned) && multiset(turned) == multiset(b)
  }

  // Faces in another order and from other corners, edges in another order and direction.
  ghost predicate SamePart(a: Part, b: Part) {
    && Paired(a) && Paired(b) && a.vertices == b.vertices && a.palette == b.palette
    && SameFaces(Faces(a), Faces(b))
    && exists turned: seq<seq<int>> :: SameEdges(a.edges, turned, b.edges)
  }

  lemma TurnedTogether(unit: Unit, part: Part, edges: multiset<(int, int)>, xs: seq<Face>, turned: seq<Face>)
    requires AllTurned(xs, turned) && AllOk(unit, part, edges, xs)
    ensures AllOk(unit, part, edges, turned)
  {
    forall i | 0 <= i < |turned| ensures FaceOk(unit, part, edges, turned[i]) {
      assert xs[i] in xs;
      TurnedOk(unit, part, edges, xs[i], turned[i]);
    }
  }

  lemma TurnedAllBack(xs: seq<Face>, ys: seq<Face>)
    requires AllTurned(xs, ys)
    ensures AllTurned(ys, xs)
  {
    forall i | 0 <= i < |xs| ensures Turned(ys[i], xs[i]) {
      TurnedBack(xs[i], ys[i]);
    }
  }

  lemma FacesIgnoreWriting(unit: Unit, a: Part, b: Part, edges: multiset<(int, int)>, xs: seq<Face>, ys: seq<Face>,
                           turned: seq<Face>)
    requires a.vertices == b.vertices && a.palette == b.palette
    requires AllTurned(xs, turned) && multiset(turned) == multiset(ys)
    ensures |xs| == |ys| && (AllOk(unit, a, edges, xs) <==> AllOk(unit, b, edges, ys))
  {
    SameMembers(turned, ys);
    TurnedAllBack(xs, turned);
    if AllOk(unit, a, edges, xs) {
      TurnedTogether(unit, b, edges, xs, turned);
    }
    if AllOk(unit, b, edges, ys) {
      TurnedTogether(unit, a, edges, turned, xs);
    }
  }

  // `surface` raises on both writings or on neither.
  lemma WritingsAreAcceptedTogether(unit: Unit, a: Part, b: Part)
    requires SamePart(a, b)
    ensures Acceptable(unit, a) <==> Acceptable(unit, b)
  {
    var xs, ys := Faces(a), Faces(b);
    var turned :| AllTurned(xs, turned) && multiset(turned) == multiset(ys);
    var edges: seq<seq<int>> :| SameEdges(a.edges, edges, b.edges);
    EdgesIgnoreWriting(a, b, edges);
    FacesIgnoreWriting(unit, a, b, multiset{}, xs, ys, turned);
    assert SizesValid(a) <==> SizesValid(b);
    if SizesValid(a) && AllEdgesValid(a, a.edges) {
      var counts := Counts(a, a.edges);
      FacesIgnoreWriting(unit, a, b, counts, xs, ys, turned);
      FacesOk(unit, a, counts);
      FacesOk(unit, b, counts);
      if AllOk(unit, a, counts, xs) {
        SameTally(a, b, turned);
      }
    }
  }

  lemma SameTally(a: Part, b: Part, turned: seq<Face>)
    requires Paired(a) && Paired(b) && AllTurned(Faces(a), turned) && multiset(turned) == multiset(Faces(b))
    requires AllDistinct(Faces(a))
    ensures Corners(a.faces) == Corners(b.faces) && (NoDuplicateFaces(a) <==> NoDuplicateFaces(b))
  {
    TallyIgnoresStarts(Faces(a), turned);
    TallyIgnoresOrder(turned, Faces(b));
    KeysOnceIff(Faces(a));
    KeysOnceIff(Faces(b));
    TallyOfFaces(a, 0);
    TallyOfFaces(b, 0);
    assert Faces(a)[0..] == Faces(a) && Faces(b)[0..] == Faces(b) && a.faces[0..] == a.faces && b.faces[0..] == b.faces;
    assert NoDuplicateFaces(a) <==> KeysOnce(Faces(a));
    assert NoDuplicateFaces(b) <==> KeysOnce(Faces(b));
  }

  // ---- One surface ----

  // The entry that a face makes.
  predicate Makes(unit: Unit, f: Face, key: seq<int>, polygon: Polygon) {
    && f.corners != [] && |f.normals| == |f.corners| && (forall n :: n in f.normals ==> unit(n).Some?)
    && key == Canonical(f.corners) && polygon == PolygonOf(unit, f.corners, f.assignment, f.normals)
  }

  predicate Made(unit: Unit, fs: seq<Face>, key: seq<int>, polygon: Polygon) {
    exists i :: 0 <= i < |fs| && Makes(unit, fs[i], key, polygon)
  }

  lemma MadeFromFaces(unit: Unit, part: Part, key: seq<int>, polygon: Polygon)
    requires SizesValid(part)
    ensures FromFaces(unit, part, |part.faces|, key, polygon) <==> Made(unit, Faces(part), key, polygon)
  {
    var fs := Faces(part);
    assert forall i :: 0 <= i < |fs| ==> (Makes(unit, fs[i], key, polygon) <==> Contributes(unit, part, i, key, polygon));
  }

  lemma TurnedMakes(unit: Unit, part: Part, edges: multiset<(int, int)>, x: Face, y: Face, key: seq<int>, polygon: Polygon)
    requires Turned(x, y) && FaceOk(unit, part, edges, x)
    ensures Makes(unit, x, key, polygon) <==> Makes(unit, y, key, polygon)
  {
    var k :| 0 <= k <= |x.corners| && TurnedBy(x, y, k);
    PolygonOfRotation(unit, x.corners, x.assignment, x.normals, k);
  }

  lemma MadeIgnoresWriting(unit: Unit, part: Part, edges: multiset<(int, int)>, xs: seq<Face>, ys: seq<Face>,
                           turned: seq<Face>, key: seq<int>, polygon: Polygon)
    requires AllTurned(xs, turned) && multiset(turned) == multiset(ys) && AllOk(unit, part, edges, xs)
    ensures Made(unit, xs, key, polygon) <==> Made(unit, ys, key, polygon)
  {
    forall i | 0 <= i < |xs| ensures Makes(unit, xs[i], key, polygon) <==> Makes(unit, turned[i], key, polygon) {
      assert xs[i] in xs;
      TurnedMakes(unit, part, edges, xs[i], turned[i], key, polygon);
    }
    if i :| 0 <= i < |xs| && Makes(unit, xs[i], key, polygon) {
      assert turned[i] in multiset(ys);
      var j :| 0 <= j < |ys| && ys[j] == turned[i];
      assert Made(unit, ys, key, polygon);
    }
    if j :| 0 <= j < |ys| && Makes(unit, ys[j], key, polygon) {
      assert ys[j] in multiset(turned);
      var i :| 0 <= i < |turned| && turned[i] == ys[j];
      assert Made(unit, xs, key, polygon);
    }
  }

  lemma SameEntries(p: Polygons, q: Polygons)
    requires forall key, polygon :: Entry(p, key, polygon) <==> Entry(q, key, polygon)
    ensures p == q
  {
    forall key | key in p ensures key in q && q[key] == p[key] {
      assert Entry(p, key, p[key]);
    }
    forall key | key in q ensures key in p {
      assert Entry(q, key, q[key]);
    }
  }

  lemma WritingsGiveOneSurface(unit: Unit, a: Part, b: Part, s: Surface, t: Surface)
    requires SamePart(a, b) && Acceptable(unit, a) && IsSurface(unit, a, s) && IsSurface(unit, b, t)
    ensures s == t
  {
    var turned :| AllTurned(Faces(a), turned) && multiset(turned) == multiset(Faces(b));
    var edges: seq<seq<int>> :| SameEdges(a.edges, edges, b.edges);
    EdgesIgnoreWriting(a, b, edges);
    FacesOk(unit, a, Counts(a, a.edges));
    forall key, polygon ensures Entry(s.polygons, key, polygon) <==> Entry(t.polygons, key, polygon) {
      MadeFromFaces(unit, a, key, polygon);
      MadeFromFaces(unit, b, key, polygon);
      MadeIgnoresWriting(unit, a, Counts(a, a.edges), Faces(a), Faces(b), turned, key, polygon);
      assert Entry(s.polygons, key, polygon) <==> FromFaces(unit, a, |a.faces|, key, polygon);
      assert Entry(t.polygons, key, polygon) <==> FromFaces(unit, b, |b.faces|, key, polygon);
    }
    SameEntries(s.polygons, t.polygons);
  }

  // What `surface` makes of a part: nothing when it raises.
  ghost predicate Outcome(unit: Unit, part: Part, s: Option<Surface>) {
    (s.Some? <==> Acceptable(unit, part)) && (s.Some? ==> IsSurface(unit, part, s.value))
  }

  // Two writings of a part have one outcome, so every check gives one verdict on either side.
  lemma PresentationIsIrrelevant(unit: Unit, angle: Angle, data: Data, a: Part, b: Part, s: Option<Surface>,
                                 t: Option<Surface>, other: Surface)
    requires SamePart(a, b) && Outcome(unit, a, s) && Outcome(unit, b, t)
    ensures s == t
    ensures s.Some? ==> (Matches(angle, data, s.value, other) <==> Matches(angle, data, t.value, other))
    ensures s.Some? ==> (Matches(angle, data, other, s.value) <==> Matches(angle, data, other, t.value))
  {
    WritingsAreAcceptedTogether(unit, a, b);
    if s.Some? {
      WritingsGiveOneSurface(unit, a, b, s.value, t.value);
    }
  }
}
