// Breadth-first search over the mesh edges inside a region
// (experimental_modeling/requirements.py:126-140, 202-217).
module ConnectedPath {
  import opened Vectors
  import opened Reachability

  datatype Bound = Open | At(value: real)

  datatype Region = Region(x: (Bound, Bound), y: (Bound, Bound), z: (Bound, Bound))

  predicate Within(x: real, range: (Bound, Bound)) {
    (range.0.Open? || x >= range.0.value) && (range.1.Open? || x <= range.1.value)
  }

  predicate Inside(p: Vec, bounds: Region) {
    Within(p.x, bounds.x) && Within(p.y, bounds.y) && Within(p.z, bounds.z)
  }

  // The edge pairs of a mesh whose indices have already been checked by `mesh`.
  datatype Mesh = Mesh(vertices: seq<Vec>, edges: seq<(nat, nat)>) {
    predicate Valid() {
      forall e :: 0 <= e < |edges| ==> edges[e].0 < |vertices| && edges[e].1 < |vertices|
    }
  }

  // The counts of an early answer leave out the number of reachable vertices.
  datatype Measured =
    | Empty(selected: nat, starts: nat, goals: nat)
    | Searched(selected: nat, starts: nat, goals: nat, reachable: nat, connected: bool)

  function Selected(m: Mesh, region: Region): set<nat> {
    set i: nat | i < |m.vertices| && Inside(m.vertices[i], region)
  }

  function Chosen(m: Mesh, region: Region, other: Region): set<nat> {
    set i | i in Selected(m, region) && Inside(m.vertices[i], other)
  }

  predicate Joined(edges: seq<(nat, nat)>, selected: set<nat>, a: nat, b: nat) {
    a in selected && b in selected && ((a, b) in edges || (b, a) in edges)
  }

  // One mesh edge between two selected vertices, in either direction.
  ghost function EdgeStep(edges: seq<(nat, nat)>, selected: set<nat>): (nat, nat) -> bool {
    (a: nat, b: nat) => Joined(edges, selected, a, b)
  }

  // An edge path inside the region leads from a start vertex to a goal vertex.
  ghost predicate PathExists(m: Mesh, region: Region, from: Region, to: Region) {
    exists v :: v in Chosen(m, region, to)
             && Reachable(EdgeStep(m.edges, Selected(m, region)), Chosen(m, region, from), v)
  }

  method Adjacency(edges: seq<(nat, nat)>, selected: set<nat>) returns (adjacency: map<nat, seq<nat>>)
    ensures adjacency.Keys == selected
    ensures forall a, b :: a in selected ==> (b in adjacency[a] <==> Joined(edges, selected, a, b))
  {
    adjacency := map i | i in selected :: [];
    for e := 0 to |edges|
      invariant adjacency.Keys == selected
      invariant forall a, b :: a in selected ==> (b in adjacency[a] <==> Joined(edges[..e], selected, a, b))
    {
      var (a, b) := edges[e];
      assert edges[..e + 1] == edges[..e] + [(a, b)];
      if a in selected && b in selected {
        adjacency := adjacency[a := adjacency[a] + [b]];
        adjacency := adjacency[b := adjacency[b] + [a]];
      }
    }
    assert edges[..|edges|] == edges;
  }

  // `deque(starts)`: the members of a set in some order.
  method Listed(s: set<nat>) returns (q: seq<nat>)
    ensures forall v :: v in q <==> v in s
  {
    q := [];
    var rest := s;
    while rest != {}
      invariant rest <= s
      invariant forall v :: v in q <==> v in s - rest
      decreases rest
    {
      var v :| v in rest;
      q, rest := q + [v], rest - {v};
    }
  }

  // Adds the unseen neighbours of one vertex to the queue.
  method Visit(neighbours: seq<nat>, seen: set<nat>, todo: seq<nat>) returns (seen': set<nat>, todo': seq<nat>)
    ensures seen' == seen + set j | j in neighbours
    ensures forall v :: v in todo' <==> v in todo || (v in neighbours && v !in seen)
    ensures seen' == seen ==> todo' == todo
  {
    seen', todo' := seen, todo;
    for k := 0 to |neighbours|
      invariant seen' == seen + set j | j in neighbours[..k]
      invariant forall v :: v in todo' <==> v in todo || (v in neighbours[..k] && v !in seen)
      invariant seen' == seen ==> todo' == todo
    {
      var j := neighbours[k];
      assert neighbours[..k + 1] == neighbours[..k] + [j];
      if j !in seen' {
        seen', todo' := seen' + {j}, todo' + [j];
      }
    }
    assert neighbours[..|neighbours|] == neighbours;
  }

  method Search(edges: seq<(nat, nat)>, selected: set<nat>, starts: set<nat>) returns (seen: set<nat>)
    requires starts <= selected
    ensures seen <= selected
    ensures forall v :: v in seen <==> Reachable(EdgeStep(edges, selected), starts, v)
  {
    ghost var step := EdgeStep(edges, selected);
    var adjacency := Adjacency(edges, selected);
    seen := starts;
    var todo := Listed(starts);
    forall v | v in starts ensures Reachable(step, starts, v) {
      ReachesItself(step, starts, v);
    }
    while |todo| > 0
      invariant starts <= seen <= selected
      invariant forall v :: v in todo ==> v in seen
      invariant forall v :: v in seen ==> Reachable(step, starts, v)
      invariant forall a, b :: a in seen && a !in todo && step(a, b) ==> b in seen
      decreases selected - seen, |todo|
    {
      var i := todo[0];
      forall j | j in adjacency[i] ensures Reachable(step, starts, j) && j in selected {
        assert step(i, j);
        ReachesNext(step, starts, i, j);
      }
      ghost var before := seen;
      seen, todo := Visit(adjacency[i], seen, todo[1..]);
    }
    IsReachableSet(step, starts, seen);
  }

  lemma Shares(s: set<nat>, t: set<nat>)
    ensures s * t != {} <==> exists v :: v in t && v in s
  {
    if s * t != {} {
      var v :| v in s * t;
      assert v in t && v in s;
    }
    assert forall v :: v in t && v in s ==> v in s * t;
  }

  // The verdict is exactly the existence of a path, and the count is exactly the reachable set.
  method Connected(m: Mesh, region: Region, from: Region, to: Region) returns (joined: bool, measured: Measured)
    requires m.Valid()
    ensures joined <==> PathExists(m, region, from, to)
    ensures measured.selected == |Selected(m, region)|
    ensures measured.starts == |Chosen(m, region, from)| && measured.goals == |Chosen(m, region, to)|
    ensures measured.Empty? <==> Chosen(m, region, from) == {} || Chosen(m, region, to) == {}
    ensures measured.Searched? ==> measured.connected == joined
    ensures measured.Searched? ==> exists seen: set<nat> ::
              && measured.reachable == |seen|
              && forall v :: v in seen <==>
                   Reachable(EdgeStep(m.edges, Selected(m, region)), Chosen(m, region, from), v)
  {
    var selected := Selected(m, region);
    var starts, goals := Chosen(m, region, from), Chosen(m, region, to);
    if starts == {} || goals == {} {
      return false, Empty(|selected|, |starts|, |goals|);
    }
    var seen := Search(m.edges, selected, starts);
    joined := seen * goals != {};
    Shares(seen, goals);
    measured := Searched(|selected|, |starts|, |goals|, |seen|, joined);
  }
}
