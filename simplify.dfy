/** `reduce_polygon`: outline simplification by repeated passes over the even vertices.

    A pass looks at vertex i = 0, 2, 4, ... while i + 2 < |P|, with the vertex before it
    (wrapping to the last one at i = 0) and the vertex after it, and marks it for removal
    when both adjacent edges are shorter than the distance threshold or, failing that, when
    the angle between them is below the angle threshold. All marked vertices are deleted
    together at the end of the pass; passes repeat until one marks nothing. The two float
    tests are parameters: only which vertices they are asked about, and what is done with
    the answers, is modelled. */
module Simplify {
  import opened Floats

  /** A test on (previous, current, next) vertex. */
  type Test = (Point, Point, Point) -> bool

  /** `short`: both edges shorter than `distance_th`; `flat`: the angle between the edge
      vectors below `angle_th` (in radians). */
  datatype Tests = Tests(short: Test, flat: Test)

  /** `polygon[i - 1]` with Python's negative indexing. */
  function Prev(P: seq<Point>, i: nat): (p: Point)
    requires i < |P|
    ensures i == 0 ==> p == P[|P| - 1]
    ensures i > 0 ==> p == P[i - 1]
  {
    if i == 0 then P[|P| - 1] else P[i - 1]
  }

  /** Vertex i is marked by a pass: it is one of the vertices visited, and after the distance
      test fails the angle test is asked. */
  predicate Marked(t: Tests, P: seq<Point>, i: nat)
  {
    && i % 2 == 0 && i + 2 < |P|
    && (t.short(Prev(P, i), P[i], P[i + 1]) || t.flat(Prev(P, i), P[i], P[i + 1]))
  }

  /** `points_removed` of one pass, from vertex i on (i even). */
  function MarksFrom(t: Tests, P: seq<Point>, i: nat): (m: seq<nat>)
    requires i % 2 == 0
    ensures forall k :: k in m ==> i <= k && k + 2 < |P|
    decreases |P| - i
  {
    if i + 2 >= |P| then []
    else if t.short(Prev(P, i), P[i], P[i + 1]) || t.flat(Prev(P, i), P[i], P[i + 1]) then [i] + MarksFrom(t, P, i + 2)
    else MarksFrom(t, P, i + 2)
  }

  /** The marks of one whole pass. */
  function Pass(t: Tests, P: seq<Point>): seq<nat>
  {
    MarksFrom(t, P, 0)
  }

  /** The marks from vertex i on are exactly the marked vertices at or after i. */
  lemma {:induction false} MarksFromExactly(t: Tests, P: seq<Point>, i: nat, k: nat)
    requires i % 2 == 0
    ensures k in MarksFrom(t, P, i) <==> i <= k && Marked(t, P, k)
    decreases |P| - i
  {
    if i + 2 < |P| {
      MarksFromExactly(t, P, i + 2, k);
    }
  }

  /** A pass marks exactly the even vertices before the last two whose distance test or angle
      test holds; in particular a vertex with both edges short is marked whatever the angle
      is, an odd vertex is never marked, and neither are the last two. */
  lemma PassMarks(t: Tests, P: seq<Point>, k: nat)
    ensures k in Pass(t, P) <==> Marked(t, P, k)
    ensures k % 2 == 0 && k + 2 < |P| && t.short(Prev(P, k), P[k], P[k + 1]) ==> k in Pass(t, P)
    ensures k % 2 == 1 || k + 2 >= |P| ==> k !in Pass(t, P)
  {
    MarksFromExactly(t, P, 0, k);
  }

  /** `np.delete(polygon, points_removed, axis=0)`: the vertices whose index is not listed,
      in their order. */
  function Delete(P: seq<Point>, m: seq<nat>): (r: seq<Point>)
    ensures |r| <= |P|
    decreases |P|
  {
    if P == [] then []
    else
      var n := |P| - 1;
      Delete(P[..n], m) + (if n in m then [] else [P[n]])
  }

  lemma {:induction false} DeleteNothing(P: seq<Point>)
    ensures Delete(P, []) == P
    decreases |P|
  {
    if P != [] {
      DeleteNothing(P[..|P| - 1]);
    }
  }

  /** Deleting a listed index of the polygon shortens it. */
  lemma {:induction false} DeleteShrinks(P: seq<Point>, m: seq<nat>, k: nat)
    requires k in m && k < |P|
    ensures |Delete(P, m)| < |P|
    decreases |P|
  {
    var n := |P| - 1;
    if k < n {
      DeleteShrinks(P[..n], m, k);
    }
  }

  /** Vertex j of the polygon is kept exactly when it is not listed: it is then the vertex of
      the result that follows the kept vertices before it. */
  lemma {:induction false} DeleteKeeps(P: seq<Point>, m: seq<nat>, j: nat)
    requires j < |P| && j !in m
    ensures |Delete(P[..j], m)| < |Delete(P, m)| && Delete(P, m)[|Delete(P[..j], m)|] == P[j]
    decreases |P|
  {
    var n := |P| - 1;
    assert P[..n][..j] == P[..j] by {
      assert j <= n;
    }
    if j < n {
      DeleteKeeps(P[..n], m, j);
    } else {
      assert P[..n] == P[..j];
    }
  }

  /** `a` is `b` with some elements left out, the others in their order. */
  predicate Subsequence(a: seq<Point>, b: seq<Point>)
    decreases |b|
  {
    if a == [] then true
    else if b == [] then false
    else (a[|a| - 1] == b[|b| - 1] && Subsequence(a[..|a| - 1], b[..|b| - 1]))
         || Subsequence(a, b[..|b| - 1])
  }

  lemma {:induction false} SubsequenceTransitive(a: seq<Point>, b: seq<Point>, c: seq<Point>)
    requires Subsequence(a, b) && Subsequence(b, c)
    ensures Subsequence(a, c)
    decreases |c|
  {
    if a != [] {
      var c' := c[..|c| - 1];
      if Subsequence(b, c') {
        SubsequenceTransitive(a, b, c');
      } else if a[|a| - 1] == b[|b| - 1] && Subsequence(a[..|a| - 1], b[..|b| - 1]) {
        SubsequenceTransitive(a[..|a| - 1], b[..|b| - 1], c');
      } else {
        SubsequenceTransitive(a, b[..|b| - 1], c');
      }
    }
  }

  lemma {:induction false} SubsequenceOfSelf(a: seq<Point>)
    ensures Subsequence(a, a)
    decreases |a|
  {
    if a != [] {
      SubsequenceOfSelf(a[..|a| - 1]);
    }
  }

  lemma {:induction false} DeleteSubsequence(P: seq<Point>, m: seq<nat>)
    ensures Subsequence(Delete(P, m), P)
    decreases |P|
  {
    if P != [] {
      var n := |P| - 1;
      var d := Delete(P[..n], m);
      DeleteSubsequence(P[..n], m);
      if n !in m {
        assert Delete(P, m) == d + [P[n]];
        assert (d + [P[n]])[..|d|] == d;
      } else {
        assert Delete(P, m) == d;
        assert P[..|P| - 1] == P[..n];
      }
    }
  }

  /** `reduce_polygon(polygon)`: passes until one marks nothing. Each pass that marks a
      vertex deletes it, so the loop ends. */
  function Reduced(t: Tests, P: seq<Point>): (r: seq<Point>)
    ensures |r| <= |P|
    decreases |P|
  {
    var m := Pass(t, P);
    if m == [] then P
    else
      DeleteShrinks(P, m, m[0]);
      Reduced(t, Delete(P, m))
  }

  /** The result keeps a subset of the vertices, in their order. */
  lemma {:induction false} ReducedSubsequence(t: Tests, P: seq<Point>)
    ensures Subsequence(Reduced(t, P), P)
    decreases |P|
  {
    var m := Pass(t, P);
    if m == [] {
      SubsequenceOfSelf(P);
    } else {
      DeleteShrinks(P, m, m[0]);
      ReducedSubsequence(t, Delete(P, m));
      DeleteSubsequence(P, m);
      SubsequenceTransitive(Reduced(t, P), Delete(P, m), P);
    }
  }

  /** The result is a fixed point: a further pass marks nothing, so reducing again changes
      nothing. */
  lemma {:induction false} ReducedFixedPoint(t: Tests, P: seq<Point>)
    ensures Pass(t, Reduced(t, P)) == []
    ensures Reduced(t, Reduced(t, P)) == Reduced(t, P)
    decreases |P|
  {
    var m := Pass(t, P);
    if m != [] {
      DeleteShrinks(P, m, m[0]);
      ReducedFixedPoint(t, Delete(P, m));
    }
  }

  /** A deletion that spares the last two vertices keeps them as its last two. */
  lemma DeleteKeepsTail(P: seq<Point>, m: seq<nat>)
    requires |P| >= 2 && |P| - 2 !in m && |P| - 1 !in m
    ensures var d := Delete(P, m);
      |d| >= 2 && d[|d| - 2] == P[|P| - 2] && d[|d| - 1] == P[|P| - 1]
  {
    var n := |P| - 1;
    var d := Delete(P[..n], m);
    assert Delete(P, m) == d + [P[n]];
    DeleteKeeps(P[..n], m, n - 1);
    assert P[..n][..n - 1] == P[..n - 1];
    DeleteKeeps(P, m, n - 1);
    assert |Delete(P[..n - 1], m)| == |d| - 1 by {
      assert Delete(P[..n], m) == Delete(P[..n][..n - 1], m) + [P[n - 1]];
    }
  }

  /** The last two vertices are never removed: every result of a polygon of at least two
      vertices ends with them. */
  lemma {:induction false} ReducedKeepsTail(t: Tests, P: seq<Point>)
    requires |P| >= 2
    ensures var r := Reduced(t, P);
      |r| >= 2 && r[|r| - 2] == P[|P| - 2] && r[|r| - 1] == P[|P| - 1]
    decreases |P|
  {
    var m := Pass(t, P);
    if m != [] {
      PassMarks(t, P, |P| - 2);
      PassMarks(t, P, |P| - 1);
      DeleteKeepsTail(P, m);
      DeleteShrinks(P, m, m[0]);
      ReducedKeepsTail(t, Delete(P, m));
    }
  }

  /** A polygon of fewer than three vertices is visited at no index and comes back unchanged;
      so does any polygon when neither test ever holds. */
  lemma ReducedUnchanged(t: Tests, P: seq<Point>)
    requires |P| < 3 || forall a, b, c :: !t.short(a, b, c) && !t.flat(a, b, c)
    ensures Reduced(t, P) == P
  {
    if Pass(t, P) != [] {
      PassMarks(t, P, Pass(t, P)[0]);
    }
  }

  /** The loop stops below three vertices: with tests that always hold, the triangle
      [a, b, c] loses vertex 0 and the two vertices left are returned. */
  lemma ReducedToTwo(a: Point, b: Point, c: Point)
    ensures Reduced(Tests((p, q, r) => true, (p, q, r) => true), [a, b, c]) == [b, c]
  {
    var t := Tests((p: Point, q: Point, r: Point) => true, (p: Point, q: Point, r: Point) => true);
    var P := [a, b, c];
    assert MarksFrom(t, P, 2) == [];
    assert Pass(t, P) == [0];
    assert P[..2] == [a, b] && P[..2][..1] == [a] && [a][..0] == [];
    assert Delete([a], [0]) == [];
    assert Delete([a, b], [0]) == [b];
    assert Delete(P, [0]) == [b, c];
    assert Pass(t, [b, c]) == [];
  }

  /** One pass of the `for i in range(0, len(polygon) - 2, 2)` loop. */
  method MarkPass(t: Tests, polygon: seq<Point>) returns (removed: seq<nat>)
    ensures removed == Pass(t, polygon)
  {
    removed := [];
    var i := 0;
    while i + 2 < |polygon|
      invariant i % 2 == 0
      invariant removed + MarksFrom(t, polygon, i) == Pass(t, polygon)
      decreases |polygon| - i
    {
      var prev := if i == 0 then polygon[|polygon| - 1] else polygon[i - 1];
      if t.short(prev, polygon[i], polygon[i + 1]) {
        assert MarksFrom(t, polygon, i) == [i] + MarksFrom(t, polygon, i + 2);
        removed := removed + [i];
      } else if t.flat(prev, polygon[i], polygon[i + 1]) {
        assert MarksFrom(t, polygon, i) == [i] + MarksFrom(t, polygon, i + 2);
        removed := removed + [i];
      }
      i := i + 2;
    }
    assert removed + [] == removed;
  }

  /** `reduce_polygon(polygon, angle_th, distance_th)` with the two tests of its thresholds. */
  method ReducePolygon(t: Tests, polygon: seq<Point>) returns (r: seq<Point>)
    ensures r == Reduced(t, polygon)
  {
    r := polygon;
    var removed: seq<nat> := [0];
    while |removed| > 0
      invariant Reduced(t, r) == Reduced(t, polygon)
      invariant removed == [] ==> Pass(t, r) == []
      decreases |r| + (if removed == [] then 0 else 1)
    {
      removed := MarkPass(t, r);
      if removed != [] {
        DeleteShrinks(r, removed, removed[0]);
      } else {
        DeleteNothing(r);
      }
      r := Delete(r, removed);
    }
  }
}
