// Paths and reachable sets, shared by the three graph searches of the repository.
module Reachability {
  ghost predicate IsPath<V(!new)>(step: (V, V) -> bool, p: seq<V>) {
    |p| > 0 && forall i :: 0 <= i < |p| - 1 ==> step(p[i], p[i + 1])
  }

  // Some path leads from a member of `from` to v.
  ghost predicate Reachable<V(!new)>(step: (V, V) -> bool, from: set<V>, v: V) {
    exists p :: IsPath(step, p) && p[0] in from && p[|p| - 1] == v
  }

  ghost predicate Closed<V(!new)>(step: (V, V) -> bool, s: set<V>) {
    forall a, b :: a in s && step(a, b) ==> b in s
  }

  lemma ReachesItself<V(!new)>(step: (V, V) -> bool, from: set<V>, v: V)
    requires v in from
    ensures Reachable(step, from, v)
  {
    assert IsPath(step, [v]) && [v][0] in from && [v][|[v]| - 1] == v;
  }

  lemma ReachesNext<V(!new)>(step: (V, V) -> bool, from: set<V>, a: V, b: V)
    requires Reachable(step, from, a) && step(a, b)
    ensures Reachable(step, from, b)
  {
    var p :| IsPath(step, p) && p[0] in from && p[|p| - 1] == a;
    var q := p + [b];
    assert IsPath(step, q) && q[0] in from && q[|q| - 1] == b;
  }

  lemma {:induction false} PathStaysInside<V(!new)>(step: (V, V) -> bool, s: set<V>, p: seq<V>)
    requires Closed(step, s) && IsPath(step, p) && p[0] in s
    ensures p[|p| - 1] in s
  {
    if |p| > 1 {
      var q := p[1..];
      assert step(p[0], p[1]);
      assert IsPath(step, q);
      PathStaysInside(step, s, q);
    }
  }

  // A closed set that holds every source holds everything reachable.
  lemma ReachStaysInside<V(!new)>(step: (V, V) -> bool, from: set<V>, s: set<V>, v: V)
    requires Closed(step, s) && from <= s && Reachable(step, from, v)
    ensures v in s
  {
    var p :| IsPath(step, p) && p[0] in from && p[|p| - 1] == v;
    PathStaysInside(step, s, p);
  }

  // A set is the reachable set when it holds the sources, is closed, and holds nothing unreachable.
  lemma IsReachableSet<V(!new)>(step: (V, V) -> bool, from: set<V>, s: set<V>)
    requires Closed(step, s) && from <= s
    requires forall v :: v in s ==> Reachable(step, from, v)
    ensures forall v :: v in s <==> Reachable(step, from, v)
  {
    forall v | Reachable(step, from, v) ensures v in s {
      ReachStaysInside(step, from, s, v);
    }
  }
}
