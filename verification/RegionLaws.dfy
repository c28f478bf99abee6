// What a passing preserved region says, and what it does not depend on
// (experimental_modeling/requirements.py:241-265).
module RegionLaws {
  import opened Options
  import opened Vectors
  import opened PreservedRegion

  // ---- Renaming the corners of counted triangles ----

  function NameOf(names: seq<nat>, r: nat): nat { if r < |names| then names[r] else 0 }

  function Renamed(names: seq<nat>, t: Turn): Turn {
    Turn(NameOf(names, t.a), NameOf(names, t.b), NameOf(names, t.c), t.u, t.v, t.w)
  }

  // Orienting after renaming an oriented triangle is orienting after renaming it as it was.
  lemma RenameOriented(names: seq<nat>, t: Turn)
    ensures Oriented(Renamed(names, Oriented(t))) == Oriented(Renamed(names, t))
  {
    OrientedIsLeast(t, t);
    assert Turned(Renamed(names, t), Renamed(names, Oriented(t)));
    OrientedDecides(Renamed(names, t), Renamed(names, Oriented(t)));
  }

  function RenamedEntry(names: seq<nat>, e: Entry): Entry { Entry(Oriented(Renamed(names, e.turn)), e.material) }

  function RenamedEntries(names: seq<nat>, entries: seq<Entry>): seq<Entry> {
    if entries == [] then []
    else RenamedEntries(names, entries[..|entries| - 1]) + [RenamedEntry(names, entries[|entries| - 1])]
  }

  // `to` names what `from` ranks.
  predicate Composes(from: Naming, names: seq<nat>, to: Naming) {
    from.Keys == to.Keys && forall i :: i in from ==> from[i] < |names| && to[i] == names[from[i]]
  }

  lemma {:induction false} RenamedAppend(names: seq<nat>, a: seq<Entry>, b: seq<Entry>)
    ensures RenamedEntries(names, a + b) == RenamedEntries(names, a) + RenamedEntries(names, b)
    decreases |b|
  {
    if b == [] {
      assert a + b == a;
    } else {
      var n := |b| - 1;
      RenamedAppend(names, a, b[..n]);
      RenamedLast(names, a, b);
      assert RenamedEntries(names, b) == RenamedEntries(names, b[..n]) + [RenamedEntry(names, b[n])];
    }
  }

  lemma EntryRenamed(f: Face, from: Naming, names: seq<nat>, to: Naming)
    requires Composes(from, names, to)
    ensures EntryOf(f, to) == RenamedEntries(names, EntryOf(f, from))
  {
    assert Contained(f, from) <==> Contained(f, to);
    if IsTriangle(f) && Contained(f, from) && |f.normals| == 3 {
      var t := f.triangle;
      assert t[0] in t && t[1] in t && t[2] in t;
      RenameOriented(names, TurnOf(f, from));
      AppendRenamed(names, [], EntryOf(f, from)[0]);
      assert [] + [EntryOf(f, from)[0]] == EntryOf(f, from);
    }
  }

  lemma {:induction false} EntriesRenamed(fs: seq<Face>, from: Naming, names: seq<nat>, to: Naming)
    requires Composes(from, names, to)
    ensures Entries(fs, to) == RenamedEntries(names, Entries(fs, from))
  {
    if fs != [] {
      var n := |fs| - 1;
      EntriesRenamed(fs[..n], from, names, to);
      EntryRenamed(fs[n], from, names, to);
      RenamedAppend(names, Entries(fs[..n], from), EntryOf(fs[n], from));
    }
  }

  lemma AppendRenamed(names: seq<nat>, entries: seq<Entry>, e: Entry)
    ensures RenamedEntries(names, entries + [e]) == RenamedEntries(names, entries) + [RenamedEntry(names, e)]
  {
    assert (entries + [e])[..|entries|] == entries;
  }

  lemma {:induction false} RenamedSplit(names: seq<nat>, a: seq<Entry>, e: Entry, b: seq<Entry>)
    ensures multiset(RenamedEntries(names, a + [e] + b))
         == multiset(RenamedEntries(names, a + b)) + multiset{RenamedEntry(names, e)}
    decreases |b|
  {
    if b == [] {
      assert a + [e] + [] == a + [e] && a + [] == a;
      assert (a + [e])[..|a|] == a;
    } else {
      var n := |b| - 1;
      RenamedSplit(names, a, e, b[..n]);
      RenamedLast(names, a + [e], b);
      RenamedLast(names, a, b);
    }
  }

  lemma RenamedLast(names: seq<nat>, a: seq<Entry>, b: seq<Entry>)
    requires b != []
    ensures var n := |b| - 1;
            RenamedEntries(names, a + b) == RenamedEntries(names, a + b[..n]) + [RenamedEntry(names, b[n])]
  {
    assert (a + b)[..|a + b| - 1] == a + b[..|b| - 1];
  }

  // Equal counts stay equal when the corners are renamed.
  lemma {:induction false} RenamedCounts(names: seq<nat>, a: seq<Entry>, b: seq<Entry>)
    requires multiset(a) == multiset(b)
    ensures multiset(RenamedEntries(names, a)) == multiset(RenamedEntries(names, b))
    decreases |a|
  {
    if a == [] {
      assert |b| == |multiset(b)| == 0;
    } else {
      var n := |a| - 1;
      assert a == a[..n] + [a[n]];
      assert a[n] in multiset(b);
      var j :| 0 <= j < |b| && b[j] == a[n];
      var rest := b[..j] + b[j + 1..];
      assert b == b[..j] + [b[j]] + b[j + 1..];
      assert multiset(a[..n]) == multiset(a) - multiset{a[n]} == multiset(rest);
      RenamedCounts(names, a[..n], rest);
      RenamedSplit(names, b[..j], b[j], b[j + 1..]);
    }
  }

  // ---- The bijection ----

  // Old vertex to new vertex, rank by rank.
  function Pairing(a: seq<Point>, b: seq<Point>, n: nat): (m: Naming)
    requires n <= |a| && n <= |b|
  {
    if n == 0 then map[] else Pairing(a, b, n - 1)[a[n - 1].index := b[n - 1].index]
  }

  predicate DistinctIndices(a: seq<Point>) { forall q, r :: 0 <= q < r < |a| ==> a[q].index != a[r].index }

  lemma {:induction false} PairingAt(a: seq<Point>, b: seq<Point>, n: nat)
    requires n <= |a| && n <= |b| && DistinctIndices(a)
    ensures forall r :: 0 <= r < n ==> a[r].index in Pairing(a, b, n) && Pairing(a, b, n)[a[r].index] == b[r].index
    ensures forall i :: i in Pairing(a, b, n) ==> exists r :: 0 <= r < n && a[r].index == i
  {
    if n > 0 {
      PairingAt(a, b, n - 1);
    }
  }

  lemma RankAt(a: seq<Point>)
    requires DistinctIndices(a)
    ensures forall r :: 0 <= r < |a| ==> Ranks(a, |a|)[a[r].index] == r
    ensures forall i :: i in Ranks(a, |a|) ==> exists r :: 0 <= r < |a| && a[r].index == i
  {
    forall r | 0 <= r < |a| ensures Ranks(a, |a|)[a[r].index] == r {
      var q := Ranks(a, |a|)[a[r].index];
      assert a[q].index == a[r].index;
    }
  }

  function Indices(b: seq<Point>): seq<nat> { seq(|b|, r requires 0 <= r < |b| => b[r].index) }

  lemma PairingComposes(a: seq<Point>, b: seq<Point>)
    requires |a| == |b| && DistinctIndices(a)
    ensures Composes(Ranks(a, |a|), Indices(b), Pairing(a, b, |a|))
  {
    PairingAt(a, b, |a|);
    RankAt(a);
    var ranks, pairing := Ranks(a, |a|), Pairing(a, b, |a|);
    forall i | i in ranks ensures i in pairing {
      var r :| 0 <= r < |a| && a[r].index == i;
    }
    forall i | i in pairing ensures i in ranks {
      var r :| 0 <= r < |a| && a[r].index == i;
    }
    forall i | i in ranks ensures ranks[i] < |b| && pairing[i] == Indices(b)[ranks[i]] {
      var r :| 0 <= r < |a| && a[r].index == i;
    }
  }

  lemma SameCountable(m: Mesh, from: Naming, to: Naming)
    requires from.Keys == to.Keys && Complete(m, from)
    ensures Complete(m, to)
  {
    forall f | f in Faces(m, |m.triangles|) ensures Countable(f, to) {
      assert Countable(f, from);
      assert Contained(f, from) <==> Contained(f, to);
    }
  }

  // The counted triangles of the old mesh, with every corner replaced by its partner, are those of
  // the new mesh.
  lemma TrianglesCarried(a: seq<Point>, b: seq<Point>, limit: real, prior: Mesh, current: Mesh)
    requires WellFormed(prior) && WellFormed(current) && |a| == |b| && DistinctIndices(a) && DistinctIndices(b)
    requires Comparison(a, b, limit, prior, current) == Some(true)
    ensures Complete(prior, Pairing(a, b, |a|)) && Complete(current, Pairing(b, b, |b|))
    ensures Counter(prior, Pairing(a, b, |a|)) == Counter(current, Pairing(b, b, |b|))
  {
    PairingComposes(a, b);
    PairingComposes(b, b);
    SameCountable(prior, Ranks(a, |a|), Pairing(a, b, |a|));
    SameCountable(current, Ranks(b, |b|), Pairing(b, b, |b|));
    var before, after := Faces(prior, |prior.triangles|), Faces(current, |current.triangles|);
    EntriesRenamed(before, Ranks(a, |a|), Indices(b), Pairing(a, b, |a|));
    EntriesRenamed(after, Ranks(b, |b|), Indices(b), Pairing(b, b, |b|));
    RenamedCounts(Indices(b), Entries(before, Ranks(a, |a|)), Entries(after, Ranks(b, |b|)));
  }

  // m sends this old vertex to a selected new one within reach.
  predicate Reaches(m: Naming, inside: Region, limit: real, prior: Mesh, current: Mesh, i: nat)
    requires i in m
  {
    && i < |prior.vertices| && inside(prior.vertices[i]) && m[i] < |current.vertices| && inside(current.vertices[m[i]])
    && SquaredDistance(prior.vertices[i], current.vertices[m[i]]) <= limit
  }

  predicate Hits(m: Naming, j: nat) { exists i :: i in m && m[i] == j }

  // m maps the selected old vertices one to one onto the selected new ones, each within reach.
  ghost predicate IsBijection(m: Naming, inside: Region, limit: real, prior: Mesh, current: Mesh) {
    && (forall i: nat :: i < |prior.vertices| && inside(prior.vertices[i]) ==> i in m)
    && (forall i :: i in m ==> Reaches(m, inside, limit, prior, current, i))
    && (forall i, j :: i in m && j in m && m[i] == m[j] ==> i == j)
    && forall j: nat :: j < |current.vertices| && inside(current.vertices[j]) ==> Hits(m, j)
  }

  lemma PairingReaches(a: seq<Point>, b: seq<Point>, inside: Region, limit: real, prior: Mesh, current: Mesh)
    requires Lists(a, inside, prior.vertices, |prior.vertices|) && Lists(b, inside, current.vertices, |current.vertices|)
    requires Near(a, b, limit)
    ensures var m := Pairing(a, b, |a|); forall i :: i in m ==> Reaches(m, inside, limit, prior, current, i)
  {
    var m := Pairing(a, b, |a|);
    PairingAt(a, b, |a|);
    forall i | i in m ensures Reaches(m, inside, limit, prior, current, i) {
      var r :| 0 <= r < |a| && a[r].index == i;
      assert IsPoint(a[r], inside, prior.vertices, |prior.vertices|);
      assert IsPoint(b[r], inside, current.vertices, |current.vertices|);
    }
  }

  lemma PairingIsOneToOne(a: seq<Point>, b: seq<Point>)
    requires |a| == |b| && DistinctIndices(a) && DistinctIndices(b)
    ensures var m := Pairing(a, b, |a|); forall i, j :: i in m && j in m && m[i] == m[j] ==> i == j
  {
    var m := Pairing(a, b, |a|);
    PairingAt(a, b, |a|);
    forall i, j | i in m && j in m && m[i] == m[j] ensures i == j {
      var q :| 0 <= q < |a| && a[q].index == i;
      var r :| 0 <= r < |a| && a[r].index == j;
      assert b[q].index == b[r].index;
    }
  }

  lemma PairingIsBijection(a: seq<Point>, b: seq<Point>, inside: Region, limit: real, prior: Mesh, current: Mesh)
    requires Lists(a, inside, prior.vertices, |prior.vertices|) && Lists(b, inside, current.vertices, |current.vertices|)
    requires Near(a, b, limit)
    ensures IsBijection(Pairing(a, b, |a|), inside, limit, prior, current)
  {
    var m := Pairing(a, b, |a|);
    PairingAt(a, b, |a|);
    PairingReaches(a, b, inside, limit, prior, current);
    PairingIsOneToOne(a, b);
    forall i: nat | i < |prior.vertices| && inside(prior.vertices[i]) ensures i in m {
      assert HasIndex(a, i);
    }
    forall j: nat | j < |current.vertices| && inside(current.vertices[j]) ensures Hits(m, j) {
      assert HasIndex(b, j);
      var r :| 0 <= r < |b| && b[r].index == j;
      assert m[a[r].index] == j;
    }
  }

  // A passing check: a bijection of the selected vertices within tolerance that carries the
  // contained oriented triangles, with materials and normals, onto those of the new mesh.
  lemma PassingIsBijection(inside: Region, limit: real, prior: Mesh, current: Mesh)
    requires WellFormed(prior) && WellFormed(current)
    requires Verdict(Points(inside, prior.vertices), Points(inside, current.vertices), limit, prior, current) == Some(true)
    ensures var a, b := Points(inside, prior.vertices), Points(inside, current.vertices);
            var m, same := Pairing(a, b, |a|), Pairing(b, b, |b|);
            && IsBijection(m, inside, limit, prior, current)
            && (forall j :: j in same ==> same[j] == j)
            && Complete(prior, m) && Complete(current, same) && Counter(prior, m) == Counter(current, same)
            && current.materialHash == prior.materialHash
  {
    var a, b := Points(inside, prior.vertices), Points(inside, current.vertices);
    PointsList(inside, prior.vertices);
    PointsList(inside, current.vertices);
    PairingIsBijection(a, b, inside, limit, prior, current);
    TrianglesCarried(a, b, limit, prior, current);
    PairingAt(b, b, |b|);
  }

  // ---- Face order and cyclic start ----

  // The same triangle with its evidence, from another corner.
  predicate SameTriangle(f: Face, g: Face) {
    && IsTriangle(f) && |g.normals| == |f.normals| && g.material == f.material
    && var t, n := f.triangle, f.normals;
       || g == f
       || (g.triangle == [t[1], t[2], t[0]] && (|n| == 3 ==> g.normals == [n[1], n[2], n[0]]))
       || (g.triangle == [t[2], t[0], t[1]] && (|n| == 3 ==> g.normals == [n[2], n[0], n[1]]))
  }

  lemma StartIgnored(f: Face, g: Face, naming: Naming)
    requires SameTriangle(f, g)
    ensures (Contained(f, naming) <==> Contained(g, naming)) && (Countable(f, naming) <==> Countable(g, naming))
    ensures EntryOf(f, naming) == EntryOf(g, naming)
  {
    var t, u := f.triangle, g.triangle;
    assert t == [t[0], t[1], t[2]] && u == [u[0], u[1], u[2]];
    assert t[0] in t && t[1] in t && t[2] in t && u[0] in u && u[1] in u && u[2] in u;
    assert Contained(f, naming) <==> t[0] in naming && t[1] in naming && t[2] in naming;
    assert Contained(g, naming) <==> u[0] in naming && u[1] in naming && u[2] in naming;
    if Contained(f, naming) && |f.normals| == 3 {
      OrientedDecides(TurnOf(f, naming), TurnOf(g, naming));
    }
  }

  predicate Rotated(fs: seq<Face>, gs: seq<Face>) {
    |fs| == |gs| && forall i :: 0 <= i < |fs| ==> SameTriangle(fs[i], gs[i])
  }

  // Cyclic starts do not matter to the counter, nor to whether it raises.
  lemma {:induction false} StartsIgnored(fs: seq<Face>, gs: seq<Face>, naming: Naming)
    requires Rotated(fs, gs)
    ensures AllCountable(fs, naming) <==> AllCountable(gs, naming)
    ensures Entries(fs, naming) == Entries(gs, naming)
  {
    if fs != [] {
      var n := |fs| - 1;
      StartsIgnored(fs[..n], gs[..n], naming);
      assert SameTriangle(fs[n], gs[n]);
      StartIgnored(fs[n], gs[n], naming);
      CountableLast(fs, naming);
      CountableLast(gs, naming);
    }
  }

  lemma CountableLast(fs: seq<Face>, naming: Naming)
    requires fs != []
    ensures AllCountable(fs, naming) <==> AllCountable(fs[..|fs| - 1], naming) && Countable(fs[|fs| - 1], naming)
  {
    assert fs == fs[..|fs| - 1] + [fs[|fs| - 1]];
  }

  lemma EntriesLast(a: seq<Face>, b: seq<Face>, naming: Naming)
    requires b != []
    ensures var n := |b| - 1; Entries(a + b, naming) == Entries(a + b[..n], naming) + EntryOf(b[n], naming)
  {
    assert (a + b)[..|a + b| - 1] == a + b[..|b| - 1];
  }

  lemma {:induction false} EntriesSplit(a: seq<Face>, f: Face, b: seq<Face>, naming: Naming)
    ensures multiset(Entries(a + [f] + b, naming)) == multiset(Entries(a + b, naming)) + multiset(EntryOf(f, naming))
    decreases |b|
  {
    if b == [] {
      assert a + [f] + [] == a + [f] && a + [] == a;
      EntriesLast(a, [f], naming);
      assert a + [f][..0] == a;
    } else {
      EntriesSplit(a, f, b[..|b| - 1], naming);
      EntriesLast(a + [f], b, naming);
      EntriesLast(a, b, naming);
    }
  }

  lemma Removed(a: seq<Face>, b: seq<Face>, j: nat)
    requires a != [] && multiset(a) == multiset(b) && j < |b| && b[j] == a[|a| - 1]
    ensures multiset(a[..|a| - 1]) == multiset(b[..j] + b[j + 1..])
    ensures b == b[..j] + [b[j]] + b[j + 1..]
  {
    assert a == a[..|a| - 1] + [a[|a| - 1]];
    assert b == b[..j] + [b[j]] + b[j + 1..];
    assert multiset(a[..|a| - 1]) == multiset(a) - multiset{b[j]};
    assert multiset(b[..j] + b[j + 1..]) == multiset(b) - multiset{b[j]};
  }

  // Face order does not matter to the counter.
  lemma {:induction false} OrderIgnored(a: seq<Face>, b: seq<Face>, naming: Naming)
    requires multiset(a) == multiset(b)
    ensures multiset(Entries(a, naming)) == multiset(Entries(b, naming))
    decreases |a|
  {
    if a == [] {
      assert |b| == |multiset(b)| == 0;
    } else {
      assert a[|a| - 1] in multiset(b);
      var j :| 0 <= j < |b| && b[j] == a[|a| - 1];
      Removed(a, b, j);
      OrderIgnored(a[..|a| - 1], b[..j] + b[j + 1..], naming);
      EntriesSplit(b[..j], b[j], b[j + 1..], naming);
    }
  }

  lemma CountableInAnyOrder(a: seq<Face>, b: seq<Face>, naming: Naming)
    requires multiset(a) == multiset(b)
    ensures AllCountable(a, naming) <==> AllCountable(b, naming)
  {
    assert forall f :: f in a <==> f in multiset(a);
    assert forall f :: f in b <==> f in multiset(b);
  }

  // The same triangles and evidence, in another order and from other corners.
  ghost predicate SameFaces(m: Mesh, w: Mesh) {
    && Paired(m) && Paired(w)
    && exists turned :: Rotated(Faces(m, |m.triangles|), turned) && multiset(turned) == multiset(Faces(w, |w.triangles|))
  }

  lemma SameSurface(m: Mesh, w: Mesh, naming: Naming)
    requires SameFaces(m, w)
    ensures (Complete(m, naming) <==> Complete(w, naming)) && Counter(m, naming) == Counter(w, naming)
  {
    var fs, gs := Faces(m, |m.triangles|), Faces(w, |w.triangles|);
    var turned :| Rotated(fs, turned) && multiset(turned) == multiset(gs);
    StartsIgnored(fs, turned, naming);
    OrderIgnored(turned, gs, naming);
    CountableInAnyOrder(turned, gs, naming);
  }

  // So the verdict is the same for meshes written down with their triangles in another order and
  // from other corners, on either side.
  lemma VerdictIgnoresPresentation(a: seq<Point>, b: seq<Point>, limit: real, prior: Mesh, current: Mesh,
                                   prior': Mesh, current': Mesh)
    requires WellFormed(prior) && WellFormed(current) && WellFormed(prior') && WellFormed(current')
    requires SameFaces(prior, prior') && prior'.materialHash == prior.materialHash
    requires SameFaces(current, current') && current'.materialHash == current.materialHash
    ensures Verdict(a, b, limit, prior', current') == Verdict(a, b, limit, prior, current)
  {
    SameSurface(prior, prior', Ranks(a, |a|));
    SameSurface(current, current', Ranks(b, |b|));
  }
}
