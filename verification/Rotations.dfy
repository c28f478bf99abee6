// Cyclic rotations of faces, and the rotation that starts at the least vertex index
// (experimental_modeling/translation_v2.py:82-87).
module Rotations {
  // `s[k:] + s[:k]`
  function Rotate<T>(s: seq<T>, k: nat): (r: seq<T>)
    requires k <= |s|
    ensures |r| == |s|
  {
    s[k..] + s[..k]
  }

  predicate Distinct<T(==)>(s: seq<T>) { forall i, j :: 0 <= i < j < |s| ==> s[i] != s[j] }

  predicate IsRotation<T(==)>(a: seq<T>, b: seq<T>) { exists k :: 0 <= k <= |a| && b == Rotate(a, k) }

  function Reverse<T>(s: seq<T>): (r: seq<T>)
    ensures |r| == |s|
  {
    seq(|s|, i requires 0 <= i < |s| => s[|s| - 1 - i])
  }

  // Where the rotation by k takes position i from.
  function Source(n: nat, k: nat, i: nat): (j: nat)
    requires k <= n && i < n
    ensures j < n
  {
    if i + k < n then i + k else i + k - n
  }

  lemma RotateAt<T>(s: seq<T>, k: nat, i: nat)
    requires k <= |s| && i < |s|
    ensures Rotate(s, k)[i] == s[Source(|s|, k, i)]
  {
  }

  // Two rotations make one.
  function Sum(n: nat, j: nat, k: nat): (r: nat)
    requires j <= n && k <= n
    ensures r <= n
  {
    if j + k <= n then j + k else j + k - n
  }

  lemma RotateTwice<T>(s: seq<T>, j: nat, k: nat)
    requires j <= |s| && k <= |s|
    ensures Rotate(Rotate(s, j), k) == Rotate(s, Sum(|s|, j, k))
  {
    var a, b := Rotate(Rotate(s, j), k), Rotate(s, Sum(|s|, j, k));
    forall i | 0 <= i < |s| ensures a[i] == b[i] {
      RotateAt(Rotate(s, j), k, i);
      RotateAt(s, j, Source(|s|, k, i));
      RotateAt(s, Sum(|s|, j, k), i);
    }
  }

  lemma RotateAll<T>(s: seq<T>)
    ensures Rotate(s, |s|) == s && Rotate(s, 0) == s
  {
  }

  // `face.index(min(face))`
  function LeastIndex(s: seq<int>): (m: nat)
    requires s != []
    ensures m < |s| && forall i :: 0 <= i < |s| ==> s[m] <= s[i]
  {
    if |s| == 1 then 0
    else
      var m := LeastIndex(s[..|s| - 1]);
      assert forall i :: 0 <= i < |s| - 1 ==> s[..|s| - 1][i] == s[i];
      if s[|s| - 1] < s[m] then |s| - 1 else m
  }

  function Canonical(face: seq<int>): seq<int> {
    if face == [] then [] else Rotate(face, LeastIndex(face))
  }

  lemma RotateKeepsDistinct<T>(s: seq<T>, k: nat)
    requires k <= |s| && Distinct(s)
    ensures Distinct(Rotate(s, k))
  {
    forall i, j | 0 <= i < j < |s| ensures Rotate(s, k)[i] != Rotate(s, k)[j] {
      RotateAt(s, k, i);
      RotateAt(s, k, j);
    }
  }

  // The least corner of a rotated face is the least corner of the face.
  lemma LeastOfRotation(face: seq<int>, k: nat)
    requires face != [] && k <= |face| && Distinct(face)
    ensures Source(|face|, k, LeastIndex(Rotate(face, k))) == LeastIndex(face)
  {
    var g, m, n := Rotate(face, k), LeastIndex(face), LeastIndex(Rotate(face, k));
    RotateAt(face, k, n);
    var back := if m >= k then m - k else m + |face| - k;
    RotateAt(face, k, back);
    assert g[n] <= g[back] == face[m];
  }

  // Rotating a face and what belongs to its corners changes neither, once both start at the
  // least corner.
  lemma CanonicalOfRotation<T>(face: seq<int>, corners: seq<T>, k: nat)
    requires face != [] && k <= |face| && Distinct(face) && |corners| == |face|
    ensures Rotate(Rotate(corners, k), LeastIndex(Rotate(face, k))) == Rotate(corners, LeastIndex(face))
  {
    var m, n := LeastIndex(face), LeastIndex(Rotate(face, k));
    LeastOfRotation(face, k);
    var both := Sum(|face|, k, n);
    assert both == m || (both == |face| && m == 0);
    RotateTwice(corners, k, n);
    assert Rotate(Rotate(corners, k), n) == Rotate(corners, both);
    RotateAll(corners);
  }

  lemma RotateBack<T>(s: seq<T>, k: nat)
    requires k <= |s|
    ensures Rotate(Rotate(s, k), |s| - k) == s
  {
    RotateTwice(s, k, |s| - k);
    RotateAll(s);
  }

  // Two faces have the same key exactly when one is a cyclic rotation of the other.
  lemma SameKeyIffRotation(f: seq<int>, g: seq<int>)
    requires f != [] && g != [] && Distinct(f)
    ensures Canonical(f) == Canonical(g) <==> IsRotation(f, g)
  {
    if Canonical(f) == Canonical(g) {
      RotateBack(g, LeastIndex(g));
      RotateTwice(f, LeastIndex(f), |g| - LeastIndex(g));
      assert g == Rotate(f, Sum(|f|, LeastIndex(f), |g| - LeastIndex(g)));
    }
    if IsRotation(f, g) {
      var k :| 0 <= k <= |f| && g == Rotate(f, k);
      CanonicalOfRotation(f, f, k);
    }
  }

  // A face read backwards is never a rotation of itself, so never has its key.
  lemma ReversalIsNoRotation(f: seq<int>)
    requires |f| >= 3 && Distinct(f)
    ensures !IsRotation(f, Reverse(f)) && Canonical(f) != Canonical(Reverse(f))
  {
    var n := |f|;
    forall k | 0 <= k <= n ensures Reverse(f) != Rotate(f, k) {
      RotateAt(f, k, 0);
      RotateAt(f, k, 1);
      assert Reverse(f)[0] == f[n - 1] && Reverse(f)[1] == f[n - 2];
      assert Rotate(f, k)[0] != f[n - 1] || Rotate(f, k)[1] != f[n - 2];
    }
    SameKeyIffRotation(f, Reverse(f));
  }
}
