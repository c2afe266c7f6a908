/**
 * The combinatorial part of the Bowyer-Watson triangulator of
 * visualizador_delaunay.cpp: tetrahedra over point indices, the four
 * super-tetrahedron points placed in front of the input, the cavity
 * boundary (faces seen exactly once among the tetrahedra whose
 * circumsphere holds the new point), re-tetrahedralisation towards the
 * new point, removal of invalidated tetrahedra and extraction of the
 * surface faces.
 *
 * The in-sphere predicate over the points is an oracle parameter.
 */
module Delaunay {
  import opened Geometry

  /** A tetrahedron over four point indices, with its validity flag. */
  datatype Tet = Tet(v0: int, v1: int, v2: int, v3: int, isValid: bool)

  /** A face: three point indices (`std::vector<int>` of size three). */
  datatype Face = Face(a: int, b: int, c: int)

  /** An output triangle of point indices. */
  datatype Triangle = Triangle(v1: int, v2: int, v3: int)

  /** `vertices[i]`. */
  function Vertex(t: Tet, i: int): int
    requires 0 <= i < 4
  {
    if i == 0 then t.v0 else if i == 1 then t.v1 else if i == 2 then t.v2 else t.v3
  }

  predicate HasVertex(t: Tet, v: int) {
    v == t.v0 || v == t.v1 || v == t.v2 || v == t.v3
  }

  /** `Tetrahedron::contains`: the scan over the four vertices. */
  method Contains(t: Tet, vertex: int) returns (b: bool)
    ensures b <==> HasVertex(t, vertex)
  {
    for i := 0 to 4
      invariant forall j | 0 <= j < i :: Vertex(t, j) != vertex
    {
      if Vertex(t, i) == vertex {
        return true;
      }
    }
    assert Vertex(t, 0) != vertex && Vertex(t, 1) != vertex;
    assert Vertex(t, 2) != vertex && Vertex(t, 3) != vertex;
    return false;
  }

  /** `getTetrahedronFaces`: the four vertex triples in the order of the source. */
  function Faces(t: Tet): (faces: seq<Face>)
    ensures |faces| == 4
  {
    [Face(t.v0, t.v1, t.v2), Face(t.v0, t.v1, t.v3), Face(t.v0, t.v2, t.v3), Face(t.v1, t.v2, t.v3)]
  }

  /** The tetrahedron without the vertex at position `p`, the others in order. */
  function Without(t: Tet, p: int): (f: Face)
    requires 0 <= p < 4
    ensures HasVertex(t, f.a) && HasVertex(t, f.b) && HasVertex(t, f.c)
  {
    if p == 0 then Face(t.v1, t.v2, t.v3)
    else if p == 1 then Face(t.v0, t.v2, t.v3)
    else if p == 2 then Face(t.v0, t.v1, t.v3)
    else Face(t.v0, t.v1, t.v2)
  }

  /** Face `k` is the tetrahedron without its vertex `3 - k`. */
  lemma FacesOmitOneVertex(t: Tet, k: int)
    requires 0 <= k < 4
    ensures Faces(t)[k] == Without(t, 3 - k)
  {
  }

  predicate Ascending(f: Face) {
    f.a <= f.b <= f.c
  }

  /** `r` holds the indices of `f` in one of the six orders. */
  predicate Reordering(r: Face, f: Face) {
    r == f || r == Face(f.a, f.c, f.b) || r == Face(f.b, f.a, f.c) ||
    r == Face(f.b, f.c, f.a) || r == Face(f.c, f.a, f.b) || r == Face(f.c, f.b, f.a)
  }

  /** `std::sort` on a face: the same indices in ascending order. */
  function SortFace(f: Face): (r: Face)
    ensures Ascending(r) && Reordering(r, f)
  {
    if f.a <= f.b then
      if f.b <= f.c then f
      else if f.a <= f.c then Face(f.a, f.c, f.b)
      else Face(f.c, f.a, f.b)
    else
      if f.a <= f.c then Face(f.b, f.a, f.c)
      else if f.b <= f.c then Face(f.b, f.c, f.a)
      else Face(f.c, f.b, f.a)
  }

  // ----- Face keys and their ascending order ----------------------------------

  /** `std::vector<int>::operator<` on three-element vectors: lexicographic. */
  predicate FaceLess(f: Face, g: Face) {
    f.a < g.a || (f.a == g.a && (f.b < g.b || (f.b == g.b && f.c < g.c)))
  }

  lemma FaceLessIsStrictTotalOrder(f: Face, g: Face, h: Face)
    ensures !FaceLess(f, f)
    ensures FaceLess(f, g) ==> !FaceLess(g, f)
    ensures FaceLess(f, g) && FaceLess(g, h) ==> FaceLess(f, h)
    ensures f == g || FaceLess(f, g) || FaceLess(g, f)
  {
  }

  predicate IsLeastFace(f: Face, s: set<Face>) {
    f in s && forall g | g in s && g != f :: FaceLess(f, g)
  }

  lemma {:induction false} LeastFaceExists(s: set<Face>)
    requires s != {}
    ensures exists f :: IsLeastFace(f, s)
    decreases |s|
  {
    var x :| x in s;
    var rest := s - {x};
    if rest == {} {
      assert s == {x};
      assert IsLeastFace(x, s);
    } else {
      LeastFaceExists(rest);
      var y :| IsLeastFace(y, rest);
      if FaceLess(x, y) {
        forall g | g in s && g != x
          ensures FaceLess(x, g)
        {
          if g != y {
            FaceLessIsStrictTotalOrder(x, y, g);
          }
        }
        assert IsLeastFace(x, s);
      } else {
        FaceLessIsStrictTotalOrder(x, y, x);
        assert IsLeastFace(y, s);
      }
    }
  }

  lemma LeastFaceIsUnique(f: Face, g: Face, s: set<Face>)
    requires IsLeastFace(f, s) && IsLeastFace(g, s)
    ensures f == g
  {
    if f != g {
      FaceLessIsStrictTotalOrder(f, g, f);
    }
  }

  /** The first key of a `std::map` over `s`. */
  method LeastFace(s: set<Face>) returns (f: Face)
    requires s != {}
    ensures IsLeastFace(f, s)
  {
    LeastFaceExists(s);
    f :| IsLeastFace(f, s);
  }

  /** The faces of `s` in ascending order: the iteration order of a `std::map`. */
  ghost function SortedList(s: set<Face>): seq<Face>
    decreases |s|
  {
    if s == {} then []
    else
      LeastFaceExists(s);
      var m :| IsLeastFace(m, s);
      assert s == (s - {m}) + {m};
      [m] + SortedList(s - {m})
  }

  lemma SortedListUnfold(s: set<Face>, m: Face)
    requires IsLeastFace(m, s)
    ensures SortedList(s) == [m] + SortedList(s - {m})
  {
    LeastFaceExists(s);
    var m' :| IsLeastFace(m', s) && SortedList(s) == [m'] + SortedList(s - {m'});
    LeastFaceIsUnique(m, m', s);
  }

  lemma {:induction false} SortedListMembers(s: set<Face>, f: Face)
    ensures f in SortedList(s) <==> f in s
    decreases |s|
  {
    if s != {} {
      LeastFaceExists(s);
      var m :| IsLeastFace(m, s);
      SortedListUnfold(s, m);
      assert s == (s - {m}) + {m};
      SortedListMembers(s - {m}, f);
    }
  }

  // ----- Counting faces -------------------------------------------------------

  /** The four sorted faces of a tetrahedron. */
  function SortedFaces(t: Tet): (fs: seq<Face>)
    ensures |fs| == 4
  {
    seq(4, k requires 0 <= k < 4 => SortFace(Faces(t)[k]))
  }

  function FaceParts(tets: seq<Tet>): (parts: seq<seq<Face>>)
    ensures |parts| == |tets|
  {
    seq(|tets|, j requires 0 <= j < |tets| => SortedFaces(tets[j]))
  }

  /** How often each sorted face occurs among the faces of `tets`. */
  function FaceCounts(tets: seq<Tet>): multiset<Face> {
    multiset(Concat(FaceParts(tets)))
  }

  /** A sorted face of `t` is ascending and made of vertices of `t`. */
  lemma SortedFacesOfTet(t: Tet, f: Face)
    requires f in SortedFaces(t)
    ensures Ascending(f) && HasVertex(t, f.a) && HasVertex(t, f.b) && HasVertex(t, f.c)
  {
    var k :| 0 <= k < 4 && SortedFaces(t)[k] == f;
    FacesOmitOneVertex(t, k);
  }

  /** Every counted face is a sorted face of one of the tetrahedra. */
  lemma CountedFacesAreSortedFaces(tets: seq<Tet>, f: Face)
    requires f in FaceCounts(tets)
    ensures Ascending(f)
    ensures exists j | 0 <= j < |tets| :: f in SortedFaces(tets[j])
  {
    var parts := FaceParts(tets);
    ConcatMember(parts, f);
    var j :| 0 <= j < |parts| && f in parts[j];
    SortedFacesOfTet(tets[j], f);
  }

  /** The `faceCount` map agrees with the multiset `bag`. */
  ghost predicate Agrees(count: map<Face, int>, bag: multiset<Face>) {
    forall f :: (f in count <==> f in bag) && (f in count ==> count[f] == bag[f])
  }

  /** `count[face]++` (a missing key counting as 0) keeps the map in step with the bag. */
  lemma AgreesAfterIncrement(count: map<Face, int>, bag: multiset<Face>, face: Face)
    requires Agrees(count, bag)
    ensures Agrees(count[face := (if face in count then count[face] else 0) + 1], bag + multiset{face})
  {
  }

  /** The inner loop over the four faces of one tetrahedron. */
  method CountTetFaces(count: map<Face, int>, t: Tet, ghost bag: multiset<Face>) returns (r: map<Face, int>)
    requires Agrees(count, bag)
    ensures Agrees(r, bag + multiset(SortedFaces(t)))
  {
    var faces := Faces(t);
    ghost var sorted := SortedFaces(t);
    r := count;
    for k := 0 to 4
      invariant Agrees(r, bag + multiset(sorted[..k]))
    {
      var face := SortFace(faces[k]);
      assert sorted[k] == face;
      assert sorted[..k + 1] == sorted[..k] + [sorted[k]];
      AgreesAfterIncrement(r, bag + multiset(sorted[..k]), face);
      r := r[face := (if face in r then r[face] else 0) + 1];
    }
    assert sorted[..4] == sorted;
  }

  /** The counting loop: `faceCount[sorted face]++` over every face of `tets`. */
  method CountFaces(tets: seq<Tet>) returns (count: map<Face, int>)
    ensures Agrees(count, FaceCounts(tets))
  {
    ghost var parts := FaceParts(tets);
    count := map[];
    for j := 0 to |tets|
      invariant Agrees(count, multiset(Concat(parts[..j])))
    {
      ConcatPrefixStep(parts, j);
      assert multiset(Concat(parts[..j + 1])) == multiset(Concat(parts[..j])) + multiset(SortedFaces(tets[j]));
      count := CountTetFaces(count, tets[j], multiset(Concat(parts[..j])));
    }
    assert parts[..|tets|] == parts;
  }

  /** The elements of `xs` counted exactly once in `bag`, in the order of `xs`. */
  function OnceOnly(xs: seq<Face>, bag: multiset<Face>): seq<Face> {
    if |xs| == 0 then []
    else OnceOnly(xs[..|xs| - 1], bag) + (if bag[xs[|xs| - 1]] == 1 then [xs[|xs| - 1]] else [])
  }

  lemma {:induction false} OnceOnlyMembers(xs: seq<Face>, bag: multiset<Face>, f: Face)
    ensures f in OnceOnly(xs, bag) <==> f in xs && bag[f] == 1
  {
    if |xs| > 0 {
      var init := xs[..|xs| - 1];
      OnceOnlyMembers(init, bag, f);
      assert xs == init + [xs[|xs| - 1]];
    }
  }

  /** The distinct faces of `bag`. */
  function Support(bag: multiset<Face>): set<Face> {
    set f | f in bag
  }

  /** The faces of `bag` counted exactly once, in ascending order. */
  ghost function Once(bag: multiset<Face>): seq<Face> {
    OnceOnly(SortedList(Support(bag)), bag)
  }

  /** A face is listed exactly when it occurs once. */
  lemma OnceMembers(bag: multiset<Face>, f: Face)
    ensures f in Once(bag) <==> bag[f] == 1
  {
    SortedListMembers(Support(bag), f);
    OnceOnlyMembers(SortedList(Support(bag)), bag, f);
  }

  /** Taking the least key `f` off `keys` moves it to the end of `done`. */
  lemma OnceStep(done: seq<Face>, keys: set<Face>, f: Face, bag: multiset<Face>)
    requires IsLeastFace(f, keys)
    ensures done + SortedList(keys) == (done + [f]) + SortedList(keys - {f})
    ensures OnceOnly(done + [f], bag) == OnceOnly(done, bag) + (if bag[f] == 1 then [f] else [])
  {
    SortedListUnfold(keys, f);
    assert (done + [f])[..|done|] == done;
  }

  /** The loop over `faceCount` collecting the faces counted once, in key order. */
  method OnceFaces(count: map<Face, int>, ghost bag: multiset<Face>) returns (faces: seq<Face>)
    requires Agrees(count, bag)
    ensures faces == Once(bag)
  {
    var keys := count.Keys;
    assert keys == Support(bag);
    ghost var done: seq<Face> := [];
    faces := [];
    while keys != {}
      invariant keys <= count.Keys
      invariant SortedList(count.Keys) == done + SortedList(keys)
      invariant faces == OnceOnly(done, bag)
      decreases |keys|
    {
      var f := LeastFace(keys);
      OnceStep(done, keys, f, bag);
      assert count[f] == bag[f];
      if count[f] == 1 {
        faces := faces + [f];
      }
      done := done + [f];
      keys := keys - {f};
    }
    assert SortedList(keys) == [];
    assert done + [] == done;
  }

  // ----- One insertion --------------------------------------------------------

  /** A valid tetrahedron whose circumsphere holds point `i`. */
  predicate IsBad(t: Tet, i: int, inSphere: (Tet, int) -> bool) {
    t.isValid && inSphere(t, i)
  }

  /** The bad tetrahedra, in list order (`badTetrahedra`). */
  function BadOf(tets: seq<Tet>, i: int, inSphere: (Tet, int) -> bool): seq<Tet> {
    Concat(seq(|tets|, j requires 0 <= j < |tets| => if IsBad(tets[j], i, inSphere) then [tets[j]] else []))
  }

  /** The list with every bad tetrahedron flagged invalid. */
  function Marked(tets: seq<Tet>, i: int, inSphere: (Tet, int) -> bool): (r: seq<Tet>)
    ensures |r| == |tets|
  {
    seq(|tets|, j requires 0 <= j < |tets| => if IsBad(tets[j], i, inSphere) then tets[j].(isValid := false) else tets[j])
  }

  /** Face `f` joined to point `i`: `Tetrahedron(face[0], face[1], face[2], i)`. */
  function Apex(f: Face, i: int): Tet {
    Tet(f.a, f.b, f.c, i, true)
  }

  /** The cavity boundary for point `i`: sorted faces seen once among the bad tetrahedra. */
  ghost function Boundary(tets: seq<Tet>, i: int, inSphere: (Tet, int) -> bool): seq<Face> {
    Once(FaceCounts(BadOf(tets, i, inSphere)))
  }

  /** The tetrahedra after inserting point `i`. */
  ghost function InsertStep(tets: seq<Tet>, i: int, inSphere: (Tet, int) -> bool): seq<Tet> {
    var boundary := Boundary(tets, i, inSphere);
    Marked(tets, i, inSphere) + seq(|boundary|, k requires 0 <= k < |boundary| => Apex(boundary[k], i))
  }

  /** The tetrahedra after inserting points `lo` to `hi - 1` in turn. */
  ghost function Inserted(tets: seq<Tet>, lo: int, hi: int, inSphere: (Tet, int) -> bool): seq<Tet>
    decreases hi - lo
  {
    if hi <= lo then tets else InsertStep(Inserted(tets, lo, hi - 1, inSphere), hi - 1, inSphere)
  }

  /**
   * After inserting point `i`: the old tetrahedra keep their place, the bad
   * ones now invalid; every new one is valid and is a boundary face, seen
   * exactly once among the bad tetrahedra, joined to `i`.
   */
  lemma InsertStepShape(tets: seq<Tet>, i: int, inSphere: (Tet, int) -> bool)
    ensures |InsertStep(tets, i, inSphere)| >= |tets|
    ensures forall j | 0 <= j < |tets| :: IsBad(tets[j], i, inSphere) ==> !InsertStep(tets, i, inSphere)[j].isValid
    ensures forall j | 0 <= j < |tets| :: !IsBad(tets[j], i, inSphere) ==> InsertStep(tets, i, inSphere)[j] == tets[j]
    ensures forall j | |tets| <= j < |InsertStep(tets, i, inSphere)| ::
      var t := InsertStep(tets, i, inSphere)[j];
      t.isValid && t.v3 == i && FaceCounts(BadOf(tets, i, inSphere))[Face(t.v0, t.v1, t.v2)] == 1
  {
    var boundary := Boundary(tets, i, inSphere);
    forall f | f in boundary
      ensures FaceCounts(BadOf(tets, i, inSphere))[f] == 1
    {
      OnceMembers(FaceCounts(BadOf(tets, i, inSphere)), f);
    }
  }

  /** The flagging loop over `tetrahedra`. */
  method MarkBad(tets: seq<Tet>, i: int, inSphere: (Tet, int) -> bool) returns (marked: seq<Tet>, bad: seq<Tet>)
    ensures marked == Marked(tets, i, inSphere)
    ensures bad == BadOf(tets, i, inSphere)
  {
    ghost var parts := seq(|tets|, j requires 0 <= j < |tets| => if IsBad(tets[j], i, inSphere) then [tets[j]] else []);
    ghost var target := Marked(tets, i, inSphere);
    marked := tets;
    bad := [];
    for j := 0 to |tets|
      invariant |marked| == |tets|
      invariant forall k | 0 <= k < j :: marked[k] == target[k]
      invariant forall k | j <= k < |tets| :: marked[k] == tets[k]
      invariant bad == Concat(parts[..j])
    {
      ConcatPrefixStep(parts, j);
      var t := marked[j];
      if t.isValid && inSphere(t, i) {
        bad := bad + [t];
        marked := marked[j := t.(isValid := false)];
      } else {
        assert bad + [] == bad;
      }
    }
    assert marked == target;
    assert parts[..|tets|] == parts;
  }

  /** The loop pushing one new tetrahedron per boundary face. */
  method AttachFaces(tets: seq<Tet>, boundary: seq<Face>, i: int) returns (r: seq<Tet>)
    ensures r == tets + seq(|boundary|, k requires 0 <= k < |boundary| => Apex(boundary[k], i))
  {
    r := tets;
    for k := 0 to |boundary|
      invariant r == tets + seq(k, m requires 0 <= m < k => Apex(boundary[m], i))
    {
      r := r + [Apex(boundary[k], i)];
    }
  }

  /** Only the valid tetrahedra, in order. */
  function ValidOnly(tets: seq<Tet>): seq<Tet> {
    Concat(seq(|tets|, j requires 0 <= j < |tets| => if tets[j].isValid then [tets[j]] else []))
  }

  /** After the removal no invalid tetrahedron remains, and no valid one is lost. */
  lemma ValidOnlyMembers(tets: seq<Tet>, t: Tet)
    ensures t in ValidOnly(tets) <==> t in tets && t.isValid
  {
    var parts := seq(|tets|, j requires 0 <= j < |tets| => if tets[j].isValid then [tets[j]] else []);
    ConcatMember(parts, t);
    if t in tets && t.isValid {
      var j :| 0 <= j < |tets| && tets[j] == t;
      assert t in parts[j];
    }
  }

  /** The erase-remove of the invalid tetrahedra. */
  method RemoveInvalid(tets: seq<Tet>) returns (r: seq<Tet>)
    ensures r == ValidOnly(tets)
  {
    ghost var parts := seq(|tets|, j requires 0 <= j < |tets| => if tets[j].isValid then [tets[j]] else []);
    r := [];
    for j := 0 to |tets|
      invariant r == Concat(parts[..j])
    {
      ConcatPrefixStep(parts, j);
      if tets[j].isValid {
        r := r + [tets[j]];
      } else {
        assert r + [] == r;
      }
    }
    assert parts[..|tets|] == parts;
  }

  // ----- The super tetrahedron ------------------------------------------------

  /**
   * The four vertices of the super tetrahedron around the bounding box
   * `[lo, hi]`: twenty times its largest extent from its centre.
   */
  function SuperPoints(lo: Point3, hi: Point3): (ps: seq<Point3>)
    ensures |ps| == 4
  {
    var deltaMax := Max(Max(hi.x - lo.x, hi.y - lo.y), hi.z - lo.z);
    var mid := Point3((lo.x + hi.x) / 2.0, (lo.y + hi.y) / 2.0, (lo.z + hi.z) / 2.0);
    var size := deltaMax * 20.0;
    [Point3(mid.x - size, mid.y - size, mid.z - size),
     Point3(mid.x + size, mid.y - size, mid.z - size),
     Point3(mid.x, mid.y + size, mid.z - size),
     Point3(mid.x, mid.y, mid.z + size)]
  }

  /** The input point `k` is point `k + 4` once the super vertices are in front. */
  lemma SuperVerticesShiftInput(ps: seq<Point3>, lo: Point3, hi: Point3)
    ensures |SuperPoints(lo, hi) + ps| == |ps| + 4
    ensures forall k | 0 <= k < |ps| :: (SuperPoints(lo, hi) + ps)[k + 4] == ps[k]
  {
  }

  // ----- Surface extraction ---------------------------------------------------

  predicate HasSuperVertex(t: Tet) {
    t.v0 < 4 || t.v1 < 4 || t.v2 < 4 || t.v3 < 4
  }

  /** The scan for a vertex below 4, stopping at the first. */
  method ContainsSuperVertex(t: Tet) returns (b: bool)
    ensures b <==> HasSuperVertex(t)
  {
    b := false;
    for i := 0 to 4
      invariant !b <==> forall j | 0 <= j < i :: Vertex(t, j) >= 4
    {
      if Vertex(t, i) < 4 {
        b := true;
        break;
      }
    }
    assert Vertex(t, 0) == t.v0 && Vertex(t, 1) == t.v1 && Vertex(t, 2) == t.v2 && Vertex(t, 3) == t.v3;
  }

  /** The tetrahedra with no super vertex, in order. */
  function Interior(tets: seq<Tet>): seq<Tet> {
    Concat(seq(|tets|, j requires 0 <= j < |tets| => if HasSuperVertex(tets[j]) then [] else [tets[j]]))
  }

  lemma InteriorMembers(tets: seq<Tet>, t: Tet)
    ensures t in Interior(tets) <==> t in tets && !HasSuperVertex(t)
  {
    var parts := seq(|tets|, j requires 0 <= j < |tets| => if HasSuperVertex(tets[j]) then [] else [tets[j]]);
    ConcatMember(parts, t);
    if t in tets && !HasSuperVertex(t) {
      var j :| 0 <= j < |tets| && tets[j] == t;
      assert t in parts[j];
    }
  }

  /** A face counted once with all indices at least 4, shifted down by 4. */
  function Shifted(faces: seq<Face>): seq<Triangle> {
    Concat(seq(|faces|, k requires 0 <= k < |faces| =>
      var f := faces[k];
      if f.a >= 4 && f.b >= 4 && f.c >= 4 then [Triangle(f.a - 4, f.b - 4, f.c - 4)] else []))
  }

  /** The result of `extractSurfaceTriangles`. */
  ghost function Surface(tets: seq<Tet>): seq<Triangle> {
    Shifted(Once(FaceCounts(Interior(tets))))
  }

  /** Every face of an interior tetrahedron has all its indices at least 4. */
  lemma InteriorFacesSkipSuperVertices(tets: seq<Tet>, f: Face)
    requires f in FaceCounts(Interior(tets))
    ensures f.a >= 4 && f.b >= 4 && f.c >= 4
  {
    CountedFacesAreSortedFaces(Interior(tets), f);
    var j :| 0 <= j < |Interior(tets)| && f in SortedFaces(Interior(tets)[j]);
    var t := Interior(tets)[j];
    InteriorMembers(tets, t);
    SortedFacesOfTet(t, f);
  }

  /** The shifted list holds exactly the faces with all indices at least 4, moved down by 4. */
  lemma ShiftedMembers(faces: seq<Face>, tri: Triangle)
    ensures tri in Shifted(faces) <==>
      tri.v1 >= 0 && tri.v2 >= 0 && tri.v3 >= 0 && Face(tri.v1 + 4, tri.v2 + 4, tri.v3 + 4) in faces
  {
    var parts := seq(|faces|, k requires 0 <= k < |faces| =>
      var f := faces[k];
      if f.a >= 4 && f.b >= 4 && f.c >= 4 then [Triangle(f.a - 4, f.b - 4, f.c - 4)] else []);
    ConcatMember(parts, tri);
    var f := Face(tri.v1 + 4, tri.v2 + 4, tri.v3 + 4);
    if tri in Shifted(faces) {
      var k :| 0 <= k < |parts| && tri in parts[k];
      assert faces[k] == f;
    }
    if tri.v1 >= 0 && tri.v2 >= 0 && tri.v3 >= 0 && f in faces {
      var k :| 0 <= k < |faces| && faces[k] == f;
      assert tri in parts[k];
    }
  }

  /**
   * A surface triangle is a face seen exactly once among the interior
   * tetrahedra, shifted down by 4; conversely every such face appears.
   */
  lemma SurfaceIsOnceSeenInteriorFaces(tets: seq<Tet>, tri: Triangle)
    ensures tri in Surface(tets) <==> FaceCounts(Interior(tets))[Face(tri.v1 + 4, tri.v2 + 4, tri.v3 + 4)] == 1
  {
    var bag := FaceCounts(Interior(tets));
    var f := Face(tri.v1 + 4, tri.v2 + 4, tri.v3 + 4);
    ShiftedMembers(Once(bag), tri);
    OnceMembers(bag, f);
    if bag[f] == 1 {
      InteriorFacesSkipSuperVertices(tets, f);
    }
  }

  /** Surface triangles have non-negative, ascending indices. */
  lemma SurfaceIndicesAscending(tets: seq<Tet>, tri: Triangle)
    requires tri in Surface(tets)
    ensures 0 <= tri.v1 <= tri.v2 <= tri.v3
  {
    var bag := FaceCounts(Interior(tets));
    var f := Face(tri.v1 + 4, tri.v2 + 4, tri.v3 + 4);
    ShiftedMembers(Once(bag), tri);
    OnceMembers(bag, f);
    CountedFacesAreSortedFaces(Interior(tets), f);
  }

  // ----- The triangulator -----------------------------------------------------

  class DelaunayTriangulator {
    var points: seq<Point3>
    var tetrahedra: seq<Tet>

    constructor()
      ensures points == [] && tetrahedra == []
    {
      points := [];
      tetrahedra := [];
    }

    /** `setPoints`: the input replaces the points. */
    method SetPoints(inputPoints: seq<Point3>)
      modifies this`points
      ensures points == inputPoints
    {
      points := inputPoints;
    }

    /**
     * `createSuperTetrahedron`: four points around the bounding box go in
     * front of the input and tetrahedron `(0, 1, 2, 3)` is added.
     */
    method CreateSuperTetrahedron()
      requires |points| > 0
      modifies this`points, this`tetrahedra
      ensures points == SuperPoints(Lower(old(points)), Upper(old(points))) + old(points)
      ensures tetrahedra == old(tetrahedra) + [Tet(0, 1, 2, 3, true)]
    {
      var lo, hi := Bounds(points);
      points := SuperPoints(lo, hi) + points;
      tetrahedra := tetrahedra + [Tet(0, 1, 2, 3, true)];
    }

    /** One pass of the insertion loop of `triangulate`, for point `i`. */
    method InsertPoint(i: int, inSphere: (Tet, int) -> bool)
      modifies this`tetrahedra
      ensures tetrahedra == InsertStep(old(tetrahedra), i, inSphere)
    {
      var marked, bad := MarkBad(tetrahedra, i, inSphere);
      var faceCount := CountFaces(bad);
      var boundary := OnceFaces(faceCount, FaceCounts(bad));
      tetrahedra := AttachFaces(marked, boundary, i);
    }

    /**
     * `triangulate`: nothing for fewer than four points; otherwise the
     * super tetrahedron, one insertion per input point, then only the
     * valid tetrahedra are kept.
     */
    method Triangulate(inSphere: (Tet, int) -> bool)
      modifies this`points, this`tetrahedra
      ensures |old(points)| < 4 ==> points == old(points) && tetrahedra == old(tetrahedra)
      ensures |old(points)| >= 4 ==>
        points == SuperPoints(Lower(old(points)), Upper(old(points))) + old(points) &&
        tetrahedra == ValidOnly(Inserted(old(tetrahedra) + [Tet(0, 1, 2, 3, true)], 4, |points|, inSphere))
      ensures |old(points)| >= 4 ==> forall t | t in tetrahedra :: t.isValid
    {
      if |points| < 4 {
        return;
      }
      CreateSuperTetrahedron();
      ghost var start, withSuper := tetrahedra, points;
      for i := 4 to |points|
        invariant points == withSuper
        invariant tetrahedra == Inserted(start, 4, i, inSphere)
      {
        InsertPoint(i, inSphere);
      }
      ghost var all := tetrahedra;
      tetrahedra := RemoveInvalid(tetrahedra);
      forall t | t in tetrahedra
        ensures t.isValid
      {
        ValidOnlyMembers(all, t);
      }
    }

    /** `extractSurfaceTriangles`. */
    method ExtractSurfaceTriangles() returns (surfaceTriangles: seq<Triangle>)
      ensures surfaceTriangles == Surface(tetrahedra)
    {
      var tets := tetrahedra;
      ghost var parts := seq(|tets|, j requires 0 <= j < |tets| =>
        if HasSuperVertex(tets[j]) then [] else [tets[j]]);
      var interior: seq<Tet> := [];
      for j := 0 to |tets|
        invariant interior == Concat(parts[..j])
      {
        ConcatPrefixStep(parts, j);
        var containsSuperVertex := ContainsSuperVertex(tets[j]);
        if !containsSuperVertex {
          interior := interior + [tets[j]];
        } else {
          assert interior + [] == interior;
        }
      }
      assert parts[..|tets|] == parts;
      var faceCount := CountFaces(interior);
      var faces := OnceFaces(faceCount, FaceCounts(interior));
      surfaceTriangles := ShiftFaces(faces);
    }
  }

  /** The loop over the once-seen faces pushing the shifted triangles. */
  method ShiftFaces(faces: seq<Face>) returns (triangles: seq<Triangle>)
    ensures triangles == Shifted(faces)
  {
    ghost var parts := seq(|faces|, k requires 0 <= k < |faces| =>
      var f := faces[k];
      if f.a >= 4 && f.b >= 4 && f.c >= 4 then [Triangle(f.a - 4, f.b - 4, f.c - 4)] else []);
    triangles := [];
    for k := 0 to |faces|
      invariant triangles == Concat(parts[..k])
    {
      ConcatPrefixStep(parts, k);
      var face := faces[k];
      if face.a >= 4 && face.b >= 4 && face.c >= 4 {
        triangles := triangles + [Triangle(face.a - 4, face.b - 4, face.c - 4)];
      } else {
        assert triangles + [] == triangles;
      }
    }
    assert parts[..|faces|] == parts;
  }
}
