// What a chain of passing revisions says (experimental_modeling/translation_v2.py:96-131): shifts and
// tolerances add up, and everything but the vertices is that of the start.
module TranslationLaws {
  import opened Options
  import opened Norms
  import opened Vectors
  import opened Translation

  // ---- Chains of revisions ----

  function TotalDelta(steps: seq<Data>): Vec {
    if steps == [] then Origin else Add(TotalDelta(steps[..|steps| - 1]), steps[|steps| - 1].delta)
  }

  function TotalTolerance(steps: seq<Data>): real {
    if steps == [] then 0.0 else TotalTolerance(steps[..|steps| - 1]) + steps[|steps| - 1].tolerance
  }

  // Each surface passes against the one before it, with the step's delta and tolerance.
  predicate Chain(angle: Angle, steps: seq<Data>, surfaces: seq<Surface>) {
    && |surfaces| == |steps| + 1
    && forall i :: 0 <= i < |steps| ==> steps[i].tolerance >= 0.0 && Matches(angle, steps[i], surfaces[i + 1], surfaces[i])
  }

  lemma MoveOn(first: Vec, middle: Vec, last: Vec, d: Vec, e: Vec)
    ensures Sub(Sub(last, first), Add(d, e)) == Add(Sub(Sub(middle, first), d), Sub(Sub(last, middle), e))
  {
  }

  // No longer than the tolerance, in squares.
  predicate Within(v: Vec, tolerance: real) { Square(v) <= tolerance * tolerance }

  function Drift(first: Vec, last: Vec, delta: Vec): Vec { Sub(Sub(last, first), delta) }

  // A vertex within tolerance of its moved start, moved on within tolerance.
  lemma MoveWithin(first: Vec, middle: Vec, last: Vec, d: Vec, e: Vec, a: real, b: real)
    requires a >= 0.0 && b >= 0.0
    requires Within(Drift(first, middle, d), a) && Within(Drift(middle, last, e), b)
    ensures Within(Drift(first, last, Add(d, e)), a + b)
  {
    MoveOn(first, middle, last, d, e);
    SumWithin(Sub(Sub(middle, first), d), Sub(Sub(last, middle), e), a, b);
  }

  lemma Still(v: Vec)
    ensures Within(Drift(v, v, Origin), 0.0)
  {
    assert Drift(v, v, Origin) == Origin;
  }

  lemma StepMoves(angle: Angle, step: Data, current: Surface, prior: Surface, i: nat)
    requires Matches(angle, step, current, prior) && i < |prior.vertices|
    ensures Within(Drift(prior.vertices[i], current.vertices[i], step.delta), step.tolerance)
  {
  }

  // Along a chain every vertex lies within the summed tolerances of its start moved by the summed
  // deltas; oriented polygons, edges and palette are those of the start.
  lemma {:induction false} ChainMoves(angle: Angle, steps: seq<Data>, surfaces: seq<Surface>, i: nat)
    requires Chain(angle, steps, surfaces) && i < |surfaces[0].vertices|
    ensures var last := surfaces[|steps|];
            && |last.vertices| == |surfaces[0].vertices| && last.polygons.Keys == surfaces[0].polygons.Keys
            && last.edges == surfaces[0].edges && last.palette == surfaces[0].palette
            && (forall key :: key in last.polygons ==>
                  last.polygons[key].assignment == surfaces[0].polygons[key].assignment)
            && TotalTolerance(steps) >= 0.0
            && Within(Drift(surfaces[0].vertices[i], last.vertices[i], TotalDelta(steps)), TotalTolerance(steps))
    decreases |steps|
  {
    if steps == [] {
      Still(surfaces[0].vertices[i]);
    } else {
      var n := |steps| - 1;
      ChainMoves(angle, steps[..n], surfaces[..n + 1], i);
      StepMoves(angle, steps[n], surfaces[n + 1], surfaces[n], i);
      MoveWithin(surfaces[0].vertices[i], surfaces[n].vertices[i], surfaces[n + 1].vertices[i], TotalDelta(steps[..n]),
                 steps[n].delta, TotalTolerance(steps[..n]), steps[n].tolerance);
    }
  }
}
