/**
 * The front of the ball-pivoting reconstruction (ball_pivoting.cpp): a
 * seed triangle found by an ordered search over index triples, then a
 * worklist of undirected edges, each popped once in ascending order and
 * pivoted on to at most one new triangle.
 *
 * The geometric tests over the points (circumcentre, ball radius, empty
 * ball, pivot angle) are oracle parameters; what is modelled is the
 * combinatorics of indices, edge sets and the triangle list.
 */
module Pivoting {
  import opened Geometry

  /** `M_PI`, the starting value of the smallest pivot angle. */
  const Pi: real := 3.141592653589793

  /** Triangle of three point indices. */
  datatype Triangle = Triangle(v1: int, v2: int, v3: int)

  /** Undirected edge, stored with its smaller index first. */
  datatype Edge = Edge(v1: int, v2: int)

  /** The `Edge(a, b)` constructor: the two indices in ascending order. */
  function MakeEdge(a: int, b: int): (e: Edge)
    ensures e.v1 <= e.v2
    ensures (e.v1 == a && e.v2 == b) || (e.v1 == b && e.v2 == a)
  {
    Edge(if a < b then a else b, if a < b then b else a)
  }

  /** An edge does not depend on the order of its endpoints. */
  lemma MakeEdgeSymmetric(a: int, b: int)
    ensures MakeEdge(a, b) == MakeEdge(b, a)
  {
  }

  /** Two index pairs give the same edge exactly when they are the same unordered pair. */
  lemma MakeEdgeIdentifies(a: int, b: int, c: int, d: int)
    ensures MakeEdge(a, b) == MakeEdge(c, d) <==> (a == c && b == d) || (a == d && b == c)
  {
  }

  /** `Edge::operator<`: lexicographic on `(v1, v2)`. */
  predicate EdgeLess(e: Edge, f: Edge) {
    if e.v1 != f.v1 then e.v1 < f.v1 else e.v2 < f.v2
  }

  /** `EdgeLess` is a strict total order on edges. */
  lemma EdgeLessIsStrictTotalOrder(e: Edge, f: Edge, g: Edge)
    ensures !EdgeLess(e, e)
    ensures EdgeLess(e, f) ==> !EdgeLess(f, e)
    ensures EdgeLess(e, f) && EdgeLess(f, g) ==> EdgeLess(e, g)
    ensures e == f || EdgeLess(e, f) || EdgeLess(f, e)
  {
  }

  /** `e` is the first edge of `s`, the one `s.begin()` designates. */
  predicate IsLeast(e: Edge, s: set<Edge>) {
    e in s && forall f | f in s && f != e :: EdgeLess(e, f)
  }

  lemma {:induction false} LeastExists(s: set<Edge>)
    requires s != {}
    ensures exists e :: IsLeast(e, s)
    decreases |s|
  {
    var x :| x in s;
    var rest := s - {x};
    if rest == {} {
      assert s == {x};
      assert IsLeast(x, s);
    } else {
      LeastExists(rest);
      var y :| IsLeast(y, rest);
      if EdgeLess(x, y) {
        forall f | f in s && f != x
          ensures EdgeLess(x, f)
        {
          if f != y {
            EdgeLessIsStrictTotalOrder(x, y, f);
          }
        }
        assert IsLeast(x, s);
      } else {
        EdgeLessIsStrictTotalOrder(x, y, x);
        assert IsLeast(y, s);
      }
    }
  }

  /** A set has at most one least edge. */
  lemma LeastIsUnique(e: Edge, f: Edge, s: set<Edge>)
    requires IsLeast(e, s) && IsLeast(f, s)
    ensures e == f
  {
    if e != f {
      EdgeLessIsStrictTotalOrder(e, f, e);
    }
  }

  /** `*s.begin()`. */
  method LeastEdge(s: set<Edge>) returns (e: Edge)
    requires s != {}
    ensures IsLeast(e, s)
  {
    LeastExists(s);
    e :| IsLeast(e, s);
  }

  /** The three edges of a triangle, as `addEdgesToActive` forms them. */
  function TriangleEdges(t: Triangle): set<Edge> {
    {MakeEdge(t.v1, t.v2), MakeEdge(t.v2, t.v3), MakeEdge(t.v3, t.v1)}
  }

  /** Three distinct indices of points `0..n-1`. */
  predicate Proper(t: Triangle, n: int) {
    0 <= t.v1 < n && 0 <= t.v2 < n && 0 <= t.v3 < n &&
    t.v1 != t.v2 && t.v2 != t.v3 && t.v1 != t.v3
  }

  /** An edge between two distinct points of `0..n-1`. */
  predicate ProperEdge(e: Edge, n: int) {
    0 <= e.v1 < e.v2 < n
  }

  /** The edges of a proper triangle are proper edges. */
  lemma ProperTriangleEdges(t: Triangle, n: int)
    requires Proper(t, n)
    ensures forall e | e in TriangleEdges(t) :: ProperEdge(e, n)
  {
  }

  /** Every edge over the points `0..n-1`: a finite set. */
  ghost function EdgesOver(n: int): set<Edge> {
    set a, b | 0 <= a < n && 0 <= b < n :: Edge(a, b)
  }

  lemma RemovingMemberShrinks<T>(s: set<T>, x: T)
    requires x in s
    ensures |s - {x}| < |s|
  {
    assert s == (s - {x}) + {x};
  }

  // ----- The seed search ------------------------------------------------------

  /** `(a, b, c)` comes before `(i, j, k)` in the order of the nested loops. */
  predicate TripleBefore(a: int, b: int, c: int, i: int, j: int, k: int) {
    a < i || (a == i && (b < j || (b == j && c < k)))
  }

  /** An ascending index triple of points `0..n-1`. */
  predicate Ascending(a: int, b: int, c: int, n: int) {
    0 <= a < b < c < n
  }

  /** `t` is the first ascending triple the geometric test accepts. */
  ghost predicate IsFirstSeed(t: Triangle, n: int, accept: (int, int, int) -> bool) {
    Ascending(t.v1, t.v2, t.v3, n) && accept(t.v1, t.v2, t.v3) &&
    forall a, b, c | Ascending(a, b, c, n) && TripleBefore(a, b, c, t.v1, t.v2, t.v3) :: !accept(a, b, c)
  }

  /** No ascending triple is accepted. */
  ghost predicate NoSeed(n: int, accept: (int, int, int) -> bool) {
    forall a, b, c | Ascending(a, b, c, n) :: !accept(a, b, c)
  }

  /** The first accepted triple is unique, and excludes the absence of a seed. */
  lemma FirstSeedIsUnique(t: Triangle, u: Triangle, n: int, accept: (int, int, int) -> bool)
    requires IsFirstSeed(t, n, accept)
    ensures !NoSeed(n, accept)
    ensures IsFirstSeed(u, n, accept) ==> t == u
  {
    assert Ascending(t.v1, t.v2, t.v3, n);
    TripleOrderIsTotal(t, u);
  }

  lemma TripleOrderIsTotal(t: Triangle, u: Triangle)
    ensures t == u || TripleBefore(t.v1, t.v2, t.v3, u.v1, u.v2, u.v3) || TripleBefore(u.v1, u.v2, u.v3, t.v1, t.v2, t.v3)
  {
  }

  /** A seed is a proper triangle. */
  lemma SeedIsProper(t: Triangle, n: int, accept: (int, int, int) -> bool)
    requires IsFirstSeed(t, n, accept)
    ensures Proper(t, n)
  {
  }

  /**
   * The index enumeration of `findSeedTriangle`: `i < j < k`, stopping at
   * the first triple `accept` passes.
   */
  method FindSeed(n: int, accept: (int, int, int) -> bool) returns (seed: Option<Triangle>)
    ensures seed.Some? ==> IsFirstSeed(seed.value, n, accept)
    ensures seed.None? ==> NoSeed(n, accept)
  {
    var i := 0;
    while i < n
      invariant 0 <= i && (n >= 0 ==> i <= n)
      invariant forall a, b, c | Ascending(a, b, c, n) && a < i :: !accept(a, b, c)
    {
      var j := i + 1;
      while j < n
        invariant i + 1 <= j && j <= n
        invariant forall a, b, c | Ascending(a, b, c, n) && TripleBefore(a, b, c, i, j, 0) :: !accept(a, b, c)
      {
        var k := j + 1;
        while k < n
          invariant j + 1 <= k && k <= n
          invariant forall a, b, c | Ascending(a, b, c, n) && TripleBefore(a, b, c, i, j, k) :: !accept(a, b, c)
        {
          if accept(i, j, k) {
            return Some(Triangle(i, j, k));
          }
          k := k + 1;
        }
        j := j + 1;
      }
      i := i + 1;
    }
    return None;
  }

  // ----- The pivot ------------------------------------------------------------

  /**
   * Point `i` may close a triangle on `e`: it is neither endpoint, the
   * geometric test `fits` accepts it and its pivot angle is below `Pi`.
   */
  predicate Eligible(e: Edge, i: int, n: int, fits: (Edge, int) -> bool, angle: (Edge, int) -> real) {
    0 <= i < n && i != e.v1 && i != e.v2 && fits(e, i) && angle(e, i) < Pi
  }

  /** `c` has the smallest angle among eligible points, and is the first with it. */
  ghost predicate IsBestCandidate(e: Edge, c: int, n: int, fits: (Edge, int) -> bool, angle: (Edge, int) -> real) {
    Eligible(e, c, n, fits, angle) &&
    forall i | Eligible(e, i, n, fits, angle) ::
      angle(e, c) <= angle(e, i) && (i < c ==> angle(e, c) < angle(e, i))
  }

  /** `findBestCandidate`: the point scan keeping the strictly smallest angle. */
  method FindBestCandidate(e: Edge, n: int, fits: (Edge, int) -> bool, angle: (Edge, int) -> real)
    returns (best: int)
    ensures best == -1 <==> forall i :: !Eligible(e, i, n, fits, angle)
    ensures best != -1 ==> IsBestCandidate(e, best, n, fits, angle)
  {
    best := -1;
    var minAngle := Pi;
    var i := 0;
    while i < n
      invariant 0 <= i && (n >= 0 ==> i <= n)
      invariant best == -1 ==> minAngle == Pi && forall j | 0 <= j < i :: !Eligible(e, j, n, fits, angle)
      invariant best != -1 ==> 0 <= best < i && Eligible(e, best, n, fits, angle) && minAngle == angle(e, best)
      invariant best != -1 ==> forall j | 0 <= j < i && Eligible(e, j, n, fits, angle) ::
        minAngle <= angle(e, j) && (j < best ==> minAngle < angle(e, j))
    {
      if i != e.v1 && i != e.v2 && fits(e, i) {
        var a := angle(e, i);
        if a < minAngle {
          minAngle := a;
          best := i;
        }
      }
      i := i + 1;
    }
    if best != -1 {
      assert best != e.v1;
    }
  }

  /** A triangle pivoted on the processed edge `(t.v1, t.v2)` to its best candidate. */
  ghost predicate Pivoted(t: Triangle, n: int, processed: set<Edge>, fits: (Edge, int) -> bool, angle: (Edge, int) -> real) {
    Proper(t, n) && t.v1 < t.v2 && Edge(t.v1, t.v2) in processed &&
    IsBestCandidate(Edge(t.v1, t.v2), t.v3, n, fits, angle)
  }

  /**
   * Every edge processed since `start` was pivoted on: either no point is
   * eligible on it, or a triangle after `first` was built on it.
   */
  ghost predicate PivotedEach(first: int, n: int, triangles: seq<Triangle>, processed: set<Edge>, start: set<Edge>,
                              fits: (Edge, int) -> bool, angle: (Edge, int) -> real) {
    forall e | e in processed && e !in start ::
      (forall i :: !Eligible(e, i, n, fits, angle)) ||
      exists k | 0 <= k < |triangles| && first < k :: triangles[k].v1 == e.v1 && triangles[k].v2 == e.v2
  }

  /**
   * The state of the pivoting loop from triangle `first` on, with the
   * edges in `start` processed before it began: active edges join two
   * points and are not processed, later triangles are pivots on processed
   * edges, every edge of these triangles is active or processed, and every
   * edge processed since `start` produced its triangle when it had a
   * candidate.
   */
  ghost predicate Frontier(first: int, n: int, triangles: seq<Triangle>, active: set<Edge>, processed: set<Edge>,
                           start: set<Edge>, fits: (Edge, int) -> bool, angle: (Edge, int) -> real) {
    0 <= first < |triangles| &&
    (forall e | e in active :: ProperEdge(e, n)) &&
    active !! processed &&
    (forall i | first < i < |triangles| :: Pivoted(triangles[i], n, processed, fits, angle)) &&
    (forall i | first <= i < |triangles| :: TriangleEdges(triangles[i]) <= active + processed) &&
    PivotedEach(first, n, triangles, processed, start, fits, angle)
  }

  /** The triangles after pivoting on `e`: one more unless no candidate (`-1`) was found. */
  function PivotTriangles(triangles: seq<Triangle>, e: Edge, candidate: int): seq<Triangle> {
    if candidate == -1 then triangles else triangles + [Triangle(e.v1, e.v2, candidate)]
  }

  /** The active edges after pivoting on `e`: `e` leaves, the new triangle's unprocessed edges join. */
  function PivotActive(active: set<Edge>, processed: set<Edge>, e: Edge, candidate: int): set<Edge> {
    if candidate == -1 then active - {e}
    else (active - {e}) + (TriangleEdges(Triangle(e.v1, e.v2, candidate)) - (processed + {e}))
  }

  /** Pivoting on an active edge keeps the loop state and only appends triangles. */
  lemma PivotKeepsFrontier(first: int, n: int, triangles: seq<Triangle>, active: set<Edge>, processed: set<Edge>,
                           start: set<Edge>, e: Edge, candidate: int, fits: (Edge, int) -> bool, angle: (Edge, int) -> real)
    requires Frontier(first, n, triangles, active, processed, start, fits, angle) && e in active
    requires candidate == -1 ==> forall i :: !Eligible(e, i, n, fits, angle)
    requires candidate == -1 || IsBestCandidate(e, candidate, n, fits, angle)
    ensures Frontier(first, n, PivotTriangles(triangles, e, candidate),
      PivotActive(active, processed, e, candidate), processed + {e}, start, fits, angle)
    ensures triangles <= PivotTriangles(triangles, e, candidate)
  {
    var tris := PivotTriangles(triangles, e, candidate);
    var act := PivotActive(active, processed, e, candidate);
    var proc := processed + {e};
    assert ProperEdge(e, n);
    if candidate != -1 {
      ProperTriangleEdges(Triangle(e.v1, e.v2, candidate), n);
    }
    forall i | first < i < |tris|
      ensures Pivoted(tris[i], n, proc, fits, angle)
    {
      if i < |triangles| {
        assert tris[i] == triangles[i];
        assert Pivoted(triangles[i], n, processed, fits, angle);
      }
    }
    forall i | first <= i < |tris|
      ensures TriangleEdges(tris[i]) <= act + proc
    {
      if i < |triangles| {
        assert tris[i] == triangles[i];
        assert active + processed <= act + proc;
      }
    }
    forall f | f in proc && f !in start
      ensures (forall i :: !Eligible(f, i, n, fits, angle)) ||
        exists k | first < k < |tris| :: tris[k].v1 == f.v1 && tris[k].v2 == f.v2
    {
      if f == e {
        if candidate != -1 {
          assert tris[|triangles|] == Triangle(e.v1, e.v2, candidate);
        }
      } else if !forall i :: !Eligible(f, i, n, fits, angle) {
        var k :| first < k < |triangles| && triangles[k].v1 == f.v1 && triangles[k].v2 == f.v2;
        assert tris[k] == triangles[k];
      }
    }
  }

  /** Processing an unprocessed edge over `n` points shrinks what is left to process. */
  lemma ProcessingShrinks(n: int, processed: set<Edge>, e: Edge)
    requires ProperEdge(e, n) && e !in processed
    ensures |EdgesOver(n) - (processed + {e})| < |EdgesOver(n) - processed|
  {
    assert Edge(e.v1, e.v2) in EdgesOver(n);
    assert EdgesOver(n) - (processed + {e}) == (EdgesOver(n) - processed) - {e};
    RemovingMemberShrinks(EdgesOver(n) - processed, e);
  }

  // ----- The mesher -----------------------------------------------------------

  class BallPivoting {
    var points: seq<Point3>
    var triangles: seq<Triangle>
    var activeEdges: set<Edge>
    var processedEdges: set<Edge>
    var ballRadius: real

    constructor(radius: real)
      ensures ballRadius == radius && points == [] && triangles == []
      ensures activeEdges == {} && processedEdges == {}
    {
      ballRadius := radius;
      points := [];
      triangles := [];
      activeEdges := {};
      processedEdges := {};
    }

    method SetPoints(pts: seq<Point3>)
      modifies this`points
      ensures points == pts
    {
      points := pts;
    }

    /** `addEdgesToActive`: every edge of `t` not yet processed becomes active. */
    method AddEdgesToActive(t: Triangle)
      modifies this`activeEdges
      ensures activeEdges == old(activeEdges) + (TriangleEdges(t) - processedEdges)
      ensures old(activeEdges) !! processedEdges ==> activeEdges !! processedEdges
      ensures TriangleEdges(t) <= activeEdges + processedEdges
    {
      var e1, e2, e3 := MakeEdge(t.v1, t.v2), MakeEdge(t.v2, t.v3), MakeEdge(t.v3, t.v1);
      if e1 !in processedEdges {
        activeEdges := activeEdges + {e1};
      }
      if e2 !in processedEdges {
        activeEdges := activeEdges + {e2};
      }
      if e3 !in processedEdges {
        activeEdges := activeEdges + {e3};
      }
    }

    /** `findSeedTriangle`: the first accepted triple becomes the first triangle. */
    method FindSeedTriangle(accept: (int, int, int) -> bool) returns (found: bool)
      modifies this`triangles, this`activeEdges
      ensures found <==> !NoSeed(|points|, accept)
      ensures !found ==> triangles == old(triangles) && activeEdges == old(activeEdges)
      ensures found ==> |triangles| == |old(triangles)| + 1 && triangles[..|old(triangles)|] == old(triangles)
      ensures found ==> IsFirstSeed(triangles[|old(triangles)|], |points|, accept)
      ensures found ==> activeEdges == old(activeEdges) + (TriangleEdges(triangles[|old(triangles)|]) - processedEdges)
    {
      var seed := FindSeed(|points|, accept);
      if seed.None? {
        return false;
      }
      FirstSeedIsUnique(seed.value, seed.value, |points|, accept);
      triangles := triangles + [seed.value];
      AddEdgesToActive(seed.value);
      return true;
    }

    /**
     * `generateMesh`: nothing for fewer than three points or without a
     * seed; otherwise the seed, then one pivot per popped edge until no
     * edge is active.
     */
    method GenerateMesh(accept: (int, int, int) -> bool, fits: (Edge, int) -> bool, angle: (Edge, int) -> real)
      requires forall e | e in activeEdges :: ProperEdge(e, |points|)
      requires activeEdges !! processedEdges
      modifies this`triangles, this`activeEdges, this`processedEdges
      ensures |points| < 3 || NoSeed(|points|, accept) ==>
        triangles == old(triangles) && activeEdges == old(activeEdges) && processedEdges == old(processedEdges)
      ensures old(triangles) <= triangles
      ensures old(processedEdges) <= processedEdges && activeEdges !! processedEdges
      ensures |points| >= 3 && !NoSeed(|points|, accept) ==>
        |triangles| > |old(triangles)| &&
        IsFirstSeed(triangles[|old(triangles)|], |points|, accept) &&
        activeEdges == {} &&
        (forall i | |old(triangles)| < i < |triangles| :: Pivoted(triangles[i], |points|, processedEdges, fits, angle)) &&
        (forall i | |old(triangles)| <= i < |triangles| :: TriangleEdges(triangles[i]) <= processedEdges) &&
        PivotedEach(|old(triangles)|, |points|, triangles, processedEdges, old(processedEdges), fits, angle)
    {
      if |points| < 3 {
        return;
      }
      var found := FindSeedTriangle(accept);
      if !found {
        return;
      }
      ghost var first := |triangles| - 1;
      assert old(triangles) <= triangles;
      SeedIsProper(triangles[first], |points|, accept);
      ProperTriangleEdges(triangles[first], |points|);
      assert Front(first, processedEdges, fits, angle);
      PivotAll(first, fits, angle);
      assert old(triangles) <= triangles;
    }

    /** The `generateMesh` loop: pivot until no edge is active. */
    method PivotAll(ghost first: int, fits: (Edge, int) -> bool, angle: (Edge, int) -> real)
      requires Front(first, processedEdges, fits, angle)
      modifies this`triangles, this`activeEdges, this`processedEdges
      ensures Front(first, old(processedEdges), fits, angle) && activeEdges == {}
      ensures old(triangles) <= triangles
      ensures old(processedEdges) <= processedEdges
    {
      ghost var start := processedEdges;
      while activeEdges != {}
        invariant Front(first, start, fits, angle)
        invariant old(triangles) <= triangles
        invariant start <= processedEdges
        decreases |EdgesOver(|points|) - processedEdges|
      {
        ghost var triangles0, active0, processed0 := triangles, activeEdges, processedEdges;
        var currentEdge, candidate := PivotOnce(fits, angle);
        ProcessingShrinks(|points|, processed0, currentEdge);
        PivotKeepsFrontier(first, |points|, triangles0, active0, processed0, start, currentEdge, candidate, fits, angle);
        assert Front(first, start, fits, angle);
        assert triangles[..|old(triangles)|] == triangles0[..|old(triangles)|];
      }
    }

    /** The pivoting state of this mesher (see `Frontier`). */
    ghost predicate Front(first: int, start: set<Edge>, fits: (Edge, int) -> bool, angle: (Edge, int) -> real)
      reads this`points, this`triangles, this`activeEdges, this`processedEdges
    {
      Frontier(first, |points|, triangles, activeEdges, processedEdges, start, fits, angle)
    }

    /**
     * One pass of the `generateMesh` loop: the least active edge moves to
     * the processed set and, when a candidate exists, its triangle is
     * appended and its unprocessed edges activated.
     */
    method PivotOnce(fits: (Edge, int) -> bool, angle: (Edge, int) -> real) returns (currentEdge: Edge, candidate: int)
      requires activeEdges != {}
      modifies this`triangles, this`activeEdges, this`processedEdges
      ensures IsLeast(currentEdge, old(activeEdges))
      ensures candidate == -1 <==> forall i :: !Eligible(currentEdge, i, |points|, fits, angle)
      ensures candidate != -1 ==> IsBestCandidate(currentEdge, candidate, |points|, fits, angle)
      ensures triangles == PivotTriangles(old(triangles), currentEdge, candidate)
      ensures activeEdges == PivotActive(old(activeEdges), old(processedEdges), currentEdge, candidate)
      ensures processedEdges == old(processedEdges) + {currentEdge}
    {
      var n := |points|;
      currentEdge := LeastEdge(activeEdges);
      activeEdges := activeEdges - {currentEdge};
      processedEdges := processedEdges + {currentEdge};
      candidate := FindBestCandidate(currentEdge, n, fits, angle);
      if candidate != -1 {
        var newTriangle := Triangle(currentEdge.v1, currentEdge.v2, candidate);
        triangles := triangles + [newTriangle];
        AddEdgesToActive(newTriangle);
      }
      assert n == |points|;
    }
  }

  /** `computeCentroid`: the origin for no points, their mean otherwise. */
  method ComputeCentroid(points: seq<Point3>) returns (centroid: Point3)
    ensures |points| == 0 ==> centroid == Origin
    ensures |points| > 0 ==> centroid == Mean(points)
    ensures |points| > 0 ==> Below(Lower(points), centroid) && Below(centroid, Upper(points))
  {
    centroid := Origin;
    for i := 0 to |points|
      invariant centroid == Sum(points[..i])
    {
      SumSnoc(points[..i], points[i]);
      assert points[..i + 1] == points[..i] + [points[i]];
      centroid := Point3(centroid.x + points[i].x, centroid.y + points[i].y, centroid.z + points[i].z);
    }
    assert points[..|points|] == points;
    if |points| > 0 {
      var n := |points| as real;
      centroid := Point3(centroid.x / n, centroid.y / n, centroid.z / n);
      MeanInBox(points);
    }
  }
}
