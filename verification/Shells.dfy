// Counting connected shells by shared edges (blender/qa/geometry.py:50-65 and, with the same
// loops under other names, blender/core/fingerprint.py:110-123).
module Shells {
  import opened Reachability

  type Face = nat
  type Edge = nat

  // The face and edge links of a mesh: `face.edges` and `edge.link_faces`.
  datatype Mesh = Mesh(edges: map<Face, seq<Edge>>, linked: map<Edge, seq<Face>>) {
    ghost predicate Valid() {
      forall f, e :: (f in edges && e in edges[f]) <==> (e in linked && f in linked[e])
    }
  }

  predicate Shares(m: Mesh, f: Face, g: Face) {
    f in m.edges && exists e :: e in m.edges[f] && e in m.linked && g in m.linked[e]
  }

  ghost function Sharing(m: Mesh): (Face, Face) -> bool {
    (f: Face, g: Face) => Shares(m, f, g)
  }

  // The faces joined to f through shared edges.
  ghost function Shell(m: Mesh, f: Face): set<Face> {
    set g | g in m.edges && Reachable(Sharing(m), {f}, g)
  }

  ghost function AllShells(m: Mesh, faces: set<Face>): set<set<Face>> {
    set f | f in faces :: Shell(m, f)
  }

  // ---- Shells are equivalence classes ----

  lemma SharesSymmetric(m: Mesh, f: Face, g: Face)
    requires m.Valid() && Shares(m, f, g)
    ensures g in m.edges && Shares(m, g, f)
  {
    var e :| e in m.edges[f] && e in m.linked && g in m.linked[e];
    assert e in m.edges[g] && f in m.linked[e];
  }

  lemma ShellClosed(m: Mesh, f: Face)
    requires m.Valid()
    ensures Closed(Sharing(m), Shell(m, f))
    ensures f in m.edges ==> f in Shell(m, f)
  {
    ReachesItself(Sharing(m), {f}, f);
    forall a, b | a in Shell(m, f) && Sharing(m)(a, b) ensures b in Shell(m, f) {
      SharesSymmetric(m, a, b);
      ReachesNext(Sharing(m), {f}, a, b);
    }
  }

  lemma Backwards(m: Mesh, f: Face, g: Face)
    requires m.Valid() && f in m.edges && g in Shell(m, f)
    ensures f in Shell(m, g)
  {
    var p :| IsPath(Sharing(m), p) && p[0] == f && p[|p| - 1] == g;
    var q := seq(|p|, i requires 0 <= i < |p| => p[|p| - 1 - i]);
    forall i | 0 <= i < |q| - 1 ensures Sharing(m)(q[i], q[i + 1]) {
      assert Sharing(m)(p[|p| - 2 - i], p[|p| - 1 - i]);
      SharesSymmetric(m, p[|p| - 2 - i], p[|p| - 1 - i]);
    }
    assert IsPath(Sharing(m), q) && q[0] in {g} && q[|q| - 1] == f;
  }

  lemma SameShell(m: Mesh, f: Face, g: Face)
    requires m.Valid() && f in m.edges && g in Shell(m, f)
    ensures Shell(m, g) == Shell(m, f)
  {
    Backwards(m, f, g);
    ShellWithin(m, f, g);
    ShellWithin(m, g, f);
  }

  lemma ShellWithin(m: Mesh, f: Face, g: Face)
    requires m.Valid() && g in Shell(m, f)
    ensures Shell(m, g) <= Shell(m, f)
  {
    ShellClosed(m, f);
    forall v | v in Shell(m, g) ensures v in Shell(m, f) {
      ReachStaysInside(Sharing(m), {g}, Shell(m, f), v);
    }
  }

  // ---- The count ----

  // Moves every unseen neighbour of a face to the stack.
  method Spread(m: Mesh, face: Face, unseen: set<Face>, pending: seq<Face>)
    returns (unseen': set<Face>, pending': seq<Face>)
    requires m.Valid() && face in m.edges
    ensures unseen' == unseen - set g | g in m.edges && Shares(m, face, g)
    ensures forall g :: g in pending' <==> g in pending || (g in unseen && g !in unseen')
    ensures unseen' == unseen ==> pending' == pending
  {
    unseen', pending' := unseen, pending;
    var edges := m.edges[face];
    for i := 0 to |edges|
      invariant unseen' <= unseen
      invariant forall g :: g in unseen && g !in unseen' ==> Shares(m, face, g)
      invariant forall k, g :: 0 <= k < i && g in m.linked[edges[k]] ==> g !in unseen'
      invariant forall g :: g in pending' <==> g in pending || (g in unseen && g !in unseen')
      invariant unseen' == unseen ==> pending' == pending
    {
      assert edges[i] in m.edges[face];
      var linked := m.linked[edges[i]];
      for j := 0 to |linked|
        invariant unseen' <= unseen
        invariant forall g :: g in unseen && g !in unseen' ==> Shares(m, face, g)
        invariant forall k, g :: 0 <= k < i && g in m.linked[edges[k]] ==> g !in unseen'
        invariant forall k :: 0 <= k < j ==> linked[k] !in unseen'
        invariant forall g :: g in pending' <==> g in pending || (g in unseen && g !in unseen')
        invariant unseen' == unseen ==> pending' == pending
      {
        if linked[j] in unseen' {
          assert linked[j] in m.linked[edges[i]];
          unseen', pending' := unseen' - {linked[j]}, pending' + [linked[j]];
        }
      }
    }
    forall g | g in m.edges && Shares(m, face, g) ensures g !in unseen' {
      var e :| e in m.edges[face] && e in m.linked && g in m.linked[e];
      var k :| 0 <= k < |edges| && edges[k] == e;
    }
    assert forall g :: g in unseen && g !in unseen' ==> Shares(m, face, g) && g in m.edges by {
      forall g | g in unseen && g !in unseen' ensures Shares(m, face, g) && g in m.edges {
        SharesSymmetric(m, face, g);
      }
    }
  }

  ghost predicate Flooding(m: Mesh, start: Face, unseen: set<Face>, left: set<Face>, pending: seq<Face>) {
    && left <= unseen && start in unseen - left
    && unseen - left <= Shell(m, start)
    && (forall g :: g in pending ==> g in unseen - left)
    && (forall f, g :: f in unseen - left && f !in pending && Shares(m, f, g) ==> g !in left)
  }

  lemma FloodStep(m: Mesh, start: Face, unseen: set<Face>, left: set<Face>, rest: seq<Face>, face: Face,
                  left': set<Face>, pending': seq<Face>)
    requires m.Valid() && start in m.edges && Flooding(m, start, unseen, left, rest + [face])
    requires left' == left - set g | g in m.edges && Shares(m, face, g)
    requires forall g :: g in pending' <==> g in rest || (g in left && g !in left')
    ensures Flooding(m, start, unseen, left', pending')
  {
    assert face in rest + [face];
    forall g | g in pending' ensures g in unseen - left' {
      assert g in rest ==> g in rest + [face];
    }
    ShellClosed(m, start);
    forall g | g in unseen - left' ensures g in Shell(m, start) {
      if g in left {
        assert Sharing(m)(face, g);
      }
    }
    forall f, g | f in unseen - left' && f !in pending' && Shares(m, f, g) ensures g !in left' {
      if f == face {
        SharesSymmetric(m, face, g);
      }
    }
  }

  // One run of the inner loop removes exactly one shell.
  method Flood(m: Mesh, start: Face, unseen: set<Face>) returns (unseen': set<Face>)
    requires m.Valid() && start in unseen && unseen <= m.edges.Keys
    requires Closed(Sharing(m), m.edges.Keys - unseen)
    ensures unseen' == unseen - Shell(m, start)
  {
    unseen' := unseen - {start};
    var pending := [start];
    ShellClosed(m, start);
    while pending != []
      invariant Flooding(m, start, unseen, unseen', pending)
      decreases unseen', |pending|
    {
      var face := pending[|pending| - 1];
      var rest := pending[..|pending| - 1];
      assert pending == rest + [face] && face in pending;
      ghost var left := unseen';
      unseen', pending := Spread(m, face, unseen', rest);
      FloodStep(m, start, unseen, left, rest, face, unseen', pending);
    }
    FloodedShell(m, start, unseen, unseen');
  }

  lemma FloodedShell(m: Mesh, start: Face, unseen: set<Face>, left: set<Face>)
    requires m.Valid() && start in unseen && unseen <= m.edges.Keys && left <= unseen && start !in left
    requires unseen - left <= Shell(m, start)
    requires forall f, g :: f in unseen - left && Shares(m, f, g) ==> g !in left
    requires Closed(Sharing(m), m.edges.Keys - unseen)
    ensures left == unseen - Shell(m, start)
  {
    var taken := unseen - left;
    forall f, g | f in taken && Sharing(m)(f, g) ensures g in taken {
      SharesSymmetric(m, f, g);
      assert Sharing(m)(g, f);
    }
    forall g | g in Shell(m, start) ensures g !in left {
      ReachStaysInside(Sharing(m), {start}, taken, g);
    }
  }

  // The answer is the number of equivalence classes of faces, for every face graph.
  method CountShells(m: Mesh) returns (count: nat)
    requires m.Valid()
    ensures count == |AllShells(m, m.edges.Keys)|
  {
    var unseen := m.edges.Keys;
    count := 0;
    while unseen != {}
      invariant unseen <= m.edges.Keys
      invariant Closed(Sharing(m), m.edges.Keys - unseen)
      invariant count == |AllShells(m, m.edges.Keys - unseen)|
      decreases unseen
    {
      count := count + 1;
      var start :| start in unseen;
      ShellClosed(m, start);
      ghost var before := unseen;
      unseen := Flood(m, start, unseen);
      OneMoreShell(m, start, before);
    }
    assert m.edges.Keys - unseen == m.edges.Keys;
  }

  lemma OneMoreShell(m: Mesh, start: Face, unseen: set<Face>)
    requires m.Valid() && start in unseen && unseen <= m.edges.Keys
    requires Closed(Sharing(m), m.edges.Keys - unseen)
    ensures var left := unseen - Shell(m, start);
            && Closed(Sharing(m), m.edges.Keys - left)
            && |AllShells(m, m.edges.Keys - left)| == |AllShells(m, m.edges.Keys - unseen)| + 1
  {
    var left := unseen - Shell(m, start);
    var done, more := m.edges.Keys - unseen, m.edges.Keys - left;
    ShellClosed(m, start);
    assert Closed(Sharing(m), more) by {
      forall f, g | f in more && Sharing(m)(f, g) ensures g in more {
        SharesSymmetric(m, f, g);
      }
    }
    if Shell(m, start) in AllShells(m, done) {
      var f :| f in done && Shell(m, f) == Shell(m, start);
      ReachStaysInside(Sharing(m), {f}, done, start);
    }
    forall f | f in more ensures Shell(m, f) in AllShells(m, done) + {Shell(m, start)} {
      if f in Shell(m, start) {
        SameShell(m, start, f);
      }
    }
    assert AllShells(m, more) == AllShells(m, done) + {Shell(m, start)};
  }
}
