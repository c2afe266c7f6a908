/**
 * The point-cloud Marching Cubes program (marchingCubes/main.cpp): a padded
 * bounding box around the cloud, a cubic grid of nearest-point distances,
 * the triangles Marching Cubes extracts from that grid at an iso level, and
 * the centroid of their vertices.
 *
 * The square root is a parameter, so every property below holds whatever
 * function computes it. The OpenMP-parallel fill of the grid is modelled as
 * the sequential triple loop it parallelises.
 */
module PointCloudMc {
  import opened Geometry
  import opened Bits
  import opened CubeTables
  import opened Classify

  type Triangle = Tri<Point3>

  /** Padding added on every side of the bounding box. */
  const Padding: real := 0.1

  /** Values closer than this are treated as equal by `interpolate`. */
  const Epsilon: real := 0.000001

  // ----- The grid -------------------------------------------------------------

  /** `res` nodes per axis, evenly spaced from `lo` to `hi`. */
  datatype Grid = Grid(lo: Point3, hi: Point3, res: int)

  /** Coordinate of node `i` on an axis running from `lo` to `hi` with `res` nodes. */
  function GridCoord(lo: real, hi: real, res: int, i: int): real
    requires res >= 2
  {
    lo + ((i as real) * (hi - lo)) / ((res - 1) as real)
  }

  /** Node `(i, j, k)` of the grid. */
  function GridPoint(g: Grid, i: int, j: int, k: int): Point3
    requires g.res >= 2
  {
    Point3(GridCoord(g.lo.x, g.hi.x, g.res, i), GridCoord(g.lo.y, g.hi.y, g.res, j),
           GridCoord(g.lo.z, g.hi.z, g.res, k))
  }

  /** The distance between neighbouring nodes along an axis. */
  function Spacing(lo: real, hi: real, res: int): real
    requires res >= 2
  {
    (hi - lo) / ((res - 1) as real)
  }

  /** The first node is `lo` and the last is `hi`. */
  lemma GridEnds(lo: real, hi: real, res: int)
    requires res >= 2
    ensures GridCoord(lo, hi, res, 0) == lo
    ensures GridCoord(lo, hi, res, res - 1) == hi
  {
    var d := (res - 1) as real;
    assert (d * (hi - lo)) / d == hi - lo;
  }

  /** One spacing past node `i` is node `i + 1`. */
  lemma GridStep(lo: real, hi: real, res: int, i: int)
    requires res >= 2
    ensures GridCoord(lo, hi, res, i) + Spacing(lo, hi, res) == GridCoord(lo, hi, res, i + 1)
  {
    var d := (res - 1) as real;
    assert ((i + 1) as real) * (hi - lo) == (i as real) * (hi - lo) + (hi - lo);
    assert ((i as real) * (hi - lo)) / d + (hi - lo) / d == ((i as real) * (hi - lo) + (hi - lo)) / d;
  }

  lemma MulMonotone(a: real, b: real, w: real)
    requires a <= b && w >= 0.0
    ensures a * w <= b * w
  {
    assert b * w - a * w == (b - a) * w;
  }

  lemma QuotientBetween(x: real, d: real, w: real)
    requires d > 0.0 && 0.0 <= x <= d * w
    ensures 0.0 <= x / d <= w
  {
    var q := x / d;
    assert q * d == x;
    if q < 0.0 {
      MulMonotone(q, 0.0, d);
    }
    if q > w {
      MulMonotone(w, q, d);
      assert w * d == d * w;
      assert (q - w) * d > 0.0;
    }
  }

  /** With `lo <= hi`, every node of the grid lies between `lo` and `hi`. */
  lemma GridCoordInRange(lo: real, hi: real, res: int, i: int)
    requires res >= 2 && lo <= hi && 0 <= i < res
    ensures lo <= GridCoord(lo, hi, res, i) <= hi
  {
    var d, w := (res - 1) as real, hi - lo;
    MulMonotone(0.0, i as real, w);
    MulMonotone(i as real, d, w);
    QuotientBetween((i as real) * w, d, w);
  }

  // ----- Distances ------------------------------------------------------------

  function SquaredNorm(p: Point3): real {
    p.x * p.x + p.y * p.y + p.z * p.z
  }

  /** `sqrt(dx*dx + dy*dy + dz*dz)` from `p` to `q`, with the square root given. */
  function Distance(sqrt: real -> real, p: Point3, q: Point3): real {
    sqrt(SquaredNorm(Sub(p, q)))
  }

  /**
   * The running minimum after visiting the points `ps`: it starts at the
   * largest finite float and takes `std::min(minDistance, distance)` per
   * point.
   */
  function NearestDistance(sqrt: real -> real, ps: seq<Point3>, q: Point3): real {
    if |ps| == 0 then FloatMax
    else Min(NearestDistance(sqrt, ps[..|ps| - 1], q), Distance(sqrt, q, ps[|ps| - 1]))
  }

  /**
   * The nearest distance is at most the distance to every point of the
   * cloud and at most the largest float; it is the distance to one of the
   * points unless it stayed at the largest float, as it does for an empty
   * cloud.
   */
  lemma {:induction false} NearestDistanceIsMinimum(sqrt: real -> real, ps: seq<Point3>, q: Point3)
    ensures NearestDistance(sqrt, ps, q) <= FloatMax
    ensures forall n | 0 <= n < |ps| :: NearestDistance(sqrt, ps, q) <= Distance(sqrt, q, ps[n])
    ensures NearestDistance(sqrt, ps, q) == FloatMax ||
            exists n | 0 <= n < |ps| :: NearestDistance(sqrt, ps, q) == Distance(sqrt, q, ps[n])
    ensures |ps| == 0 ==> NearestDistance(sqrt, ps, q) == FloatMax
  {
    if |ps| > 0 {
      var init := ps[..|ps| - 1];
      NearestDistanceIsMinimum(sqrt, init, q);
      assert forall n | 0 <= n < |init| :: init[n] == ps[n];
      var d := NearestDistance(sqrt, ps, q);
      if d != FloatMax {
        if d == Distance(sqrt, q, ps[|ps| - 1]) {
          assert Distance(sqrt, q, ps[|ps| - 1]) == d;
        } else {
          var n :| 0 <= n < |init| && NearestDistance(sqrt, init, q) == Distance(sqrt, q, init[n]);
          assert d == Distance(sqrt, q, ps[n]);
        }
      }
    }
  }

  // ----- The distance field ---------------------------------------------------

  /** Value of node `(i, j, k)`: its nearest distance to the cloud. */
  function NodeValue(sqrt: real -> real, ps: seq<Point3>, g: Grid, i: int, j: int, k: int): real
    requires g.res >= 2
  {
    NearestDistance(sqrt, ps, GridPoint(g, i, j, k))
  }

  function FieldLine(sqrt: real -> real, ps: seq<Point3>, g: Grid, i: int, j: int): (line: seq<real>)
    requires g.res >= 2
    ensures |line| == g.res
  {
    seq(g.res, k requires 0 <= k < g.res => NodeValue(sqrt, ps, g, i, j, k))
  }

  function FieldPlane(sqrt: real -> real, ps: seq<Point3>, g: Grid, i: int): (plane: seq<seq<real>>)
    requires g.res >= 2
    ensures |plane| == g.res
  {
    seq(g.res, j requires 0 <= j < g.res => FieldLine(sqrt, ps, g, i, j))
  }

  /** The whole `res x res x res` field of nearest distances, indexed `[i][j][k]`. */
  function DistanceField(sqrt: real -> real, ps: seq<Point3>, g: Grid): (field: seq<seq<seq<real>>>)
    requires g.res >= 2
    ensures Shaped(field, g.res)
  {
    seq(g.res, i requires 0 <= i < g.res => FieldPlane(sqrt, ps, g, i))
  }

  /** `field` holds `res` planes of `res` lines of `res` values. */
  predicate Shaped(field: seq<seq<seq<real>>>, res: int) {
    |field| == res &&
    forall i | 0 <= i < res :: |field[i]| == res && forall j | 0 <= j < res :: |field[i][j]| == res
  }

  /**
   * The distance field has the grid's shape, and entry `[i][j][k]` is the
   * nearest distance from node `(i, j, k)` to the cloud.
   */
  lemma DistanceFieldEntries(sqrt: real -> real, ps: seq<Point3>, g: Grid)
    requires g.res >= 2
    ensures Shaped(DistanceField(sqrt, ps, g), g.res)
    ensures forall i, j, k | 0 <= i < g.res && 0 <= j < g.res && 0 <= k < g.res ::
      DistanceField(sqrt, ps, g)[i][j][k] == NearestDistance(sqrt, ps, GridPoint(g, i, j, k))
  {
  }

  // ----- One cell ---------------------------------------------------------------

  /**
   * The eight corner positions of cell `(i, j, k)` as the source builds
   * them: the node `(i, j, k)`, then one spacing along x, y and z from the
   * corners already placed.
   */
  function CellCorners(g: Grid, i: int, j: int, k: int): (corners: seq<Point3>)
    requires g.res >= 2
    ensures |corners| == 8
  {
    var sx, sy, sz := Spacing(g.lo.x, g.hi.x, g.res), Spacing(g.lo.y, g.hi.y, g.res), Spacing(g.lo.z, g.hi.z, g.res);
    var v0 := GridPoint(g, i, j, k);
    var v1 := Point3(v0.x + sx, v0.y, v0.z);
    var v2 := Point3(v1.x, v1.y + sy, v1.z);
    var v3 := Point3(v0.x, v0.y + sy, v0.z);
    [v0, v1, v2, v3,
     Point3(v0.x, v0.y, v0.z + sz), Point3(v1.x, v1.y, v1.z + sz),
     Point3(v2.x, v2.y, v2.z + sz), Point3(v3.x, v3.y, v3.z + sz)]
  }

  /** Each corner of a cell is the grid node one unit offset away. */
  lemma CellCornersAreGridNodes(g: Grid, i: int, j: int, k: int, c: int)
    requires g.res >= 2 && 0 <= c < 8
    ensures CellCorners(g, i, j, k)[c] == GridPoint(g, i + CornerX(c), j + CornerY(c), k + CornerZ(c))
  {
    GridStep(g.lo.x, g.hi.x, g.res, i);
    GridStep(g.lo.y, g.hi.y, g.res, j);
    GridStep(g.lo.z, g.hi.z, g.res, k);
  }

  /** The field values at the eight corners of cell `(i, j, k)`. */
  function CornerValues(field: seq<seq<seq<real>>>, res: int, i: int, j: int, k: int): (values: seq<real>)
    requires Shaped(field, res) && 0 <= i < res - 1 && 0 <= j < res - 1 && 0 <= k < res - 1
    ensures |values| == 8
  {
    [field[i][j][k], field[i + 1][j][k], field[i + 1][j + 1][k], field[i][j + 1][k],
     field[i][j][k + 1], field[i + 1][j][k + 1], field[i + 1][j + 1][k + 1], field[i][j + 1][k + 1]]
  }

  /** The value read for corner `c` is the field at the node of that corner. */
  lemma CornerValuesAreNodeValues(field: seq<seq<seq<real>>>, res: int, i: int, j: int, k: int, c: int)
    requires Shaped(field, res) && 0 <= i < res - 1 && 0 <= j < res - 1 && 0 <= k < res - 1
    requires 0 <= c < 8
    ensures CornerValues(field, res, i, j, k)[c] == field[i + CornerX(c)][j + CornerY(c)][k + CornerZ(c)]
  {
  }

  /**
   * `interpolate`: `p1` when the two values are within `Epsilon` of each
   * other, otherwise the point at parameter `(iso - val1) / (val2 - val1)`
   * from `p1` towards `p2`.
   */
  function Interpolate(p1: Point3, p2: Point3, val1: real, val2: real, iso: real): Point3 {
    if Abs(val1 - val2) < Epsilon then p1 else Lerp(p1, p2, (iso - val1) / (val2 - val1))
  }

  /**
   * On an edge whose ends lie on different sides of the level, the
   * interpolated point lies on the edge.
   */
  lemma InterpolateOnSegment(p1: Point3, p2: Point3, val1: real, val2: real, iso: real)
    requires (val1 < iso) != (val2 < iso)
    ensures OnSegment(Interpolate(p1, p2, val1, val2, iso), p1, p2)
  {
    if Abs(val1 - val2) < Epsilon {
      assert Interpolate(p1, p2, val1, val2, iso) == Lerp(p1, p2, 0.0);
    } else {
      var t := (iso - val1) / (val2 - val1);
      if val1 < iso {
        UnitQuotient(iso - val1, val2 - val1);
      } else {
        assert t == (val1 - iso) / (val1 - val2);
        UnitQuotient(val1 - iso, val1 - val2);
      }
      assert Interpolate(p1, p2, val1, val2, iso) == Lerp(p1, p2, t);
    }
  }

  /**
   * Where the two values differ by at least `Epsilon`, the interpolated
   * point sits at the parameter where the values, interpolated linearly
   * along the edge, reach the iso level.
   */
  lemma InterpolateReachesLevel(p1: Point3, p2: Point3, val1: real, val2: real, iso: real)
    requires Abs(val1 - val2) >= Epsilon
    ensures exists t: real {:trigger Lerp(p1, p2, t)} ::
      Interpolate(p1, p2, val1, val2, iso) == Lerp(p1, p2, t) && val1 + t * (val2 - val1) == iso
  {
    var t := (iso - val1) / (val2 - val1);
    assert t * (val2 - val1) == iso - val1;
    assert Interpolate(p1, p2, val1, val2, iso) == Lerp(p1, p2, t);
  }

  /**
   * `vertList`: slot `e` holds the interpolated point of edge `e` when bit
   * `e` of `mask` is set, and the default point `(0, 0, 0)` otherwise.
   */
  function VertexList(corners: seq<Point3>, values: seq<real>, mask: int, iso: real): (vs: seq<Point3>)
    requires |corners| == 8 && |values| == 8
    ensures |vs| == 12
  {
    seq(12, e requires 0 <= e < 12 =>
      if HasBit(mask, e) then
        Interpolate(corners[EdgeStart(e)], corners[EdgeEnd(e)], values[EdgeStart(e)], values[EdgeEnd(e)], iso)
      else Origin)
  }

  /**
   * The triangles of cell `(i, j, k)`: none when the cell's edge-table
   * entry is 0, otherwise one per triple the guarded scan of its
   * triangle-table row keeps, with the vertices taken from the vertex list.
   */
  function GuardedCellTriangles(field: seq<seq<seq<real>>>, g: Grid, iso: real, i: int, j: int, k: int): seq<Triangle>
    requires g.res >= 2 && Shaped(field, g.res)
    requires 0 <= i < g.res - 1 && 0 <= j < g.res - 1 && 0 <= k < g.res - 1
  {
    var values := CornerValues(field, g.res, i, j, k);
    var ci := CubeIndex(values, iso);
    var mask := EdgeTable(ci);
    if mask == 0 then []
    else TrianglesOf(GuardedScan(TriTable(ci), mask, 0), VertexList(CellCorners(g, i, j, k), values, mask, iso))
  }

  /** A vertex-list slot whose edge bit is set holds a point on a crossed edge. */
  lemma MarkedSlotOnCrossedEdge(corners: seq<Point3>, values: seq<real>, iso: real, e: int)
    requires |corners| == 8 && |values| == 8 && 0 <= e < 12
    requires HasBit(EdgeTable(CubeIndex(values, iso)), e)
    ensures OnCrossedEdge(VertexList(corners, values, EdgeTable(CubeIndex(values, iso)), iso)[e], corners, values, iso)
  {
    var ci := CubeIndex(values, iso);
    var s, t := EdgeStart(e), EdgeEnd(e);
    EdgeTableMarksCrossedEdges(ci, e);
    CubeIndexBits(values, iso, s);
    CubeIndexBits(values, iso, t);
    InterpolateOnSegment(corners[s], corners[t], values[s], values[t], iso);
  }

  /**
   * Every vertex of every triangle of a cell lies on an edge of that cell
   * whose ends are on different sides of the iso level.
   */
  lemma CellTrianglesOnCrossedEdges(field: seq<seq<seq<real>>>, g: Grid, iso: real, i: int, j: int, k: int)
    requires g.res >= 2 && Shaped(field, g.res)
    requires 0 <= i < g.res - 1 && 0 <= j < g.res - 1 && 0 <= k < g.res - 1
    ensures forall n | 0 <= n < |GuardedCellTriangles(field, g, iso, i, j, k)| ::
      TriangleOnCrossedEdges(GuardedCellTriangles(field, g, iso, i, j, k)[n], CellCorners(g, i, j, k),
                             CornerValues(field, g.res, i, j, k), iso)
  {
    var corners, values := CellCorners(g, i, j, k), CornerValues(field, g.res, i, j, k);
    var ci := CubeIndex(values, iso);
    var mask := EdgeTable(ci);
    if mask != 0 {
      var ts := GuardedScan(TriTable(ci), mask, 0);
      var vl := VertexList(corners, values, mask, iso);
      forall n | 0 <= n < |ts|
        ensures TriangleOnCrossedEdges(TrianglesOf(ts, vl)[n], corners, values, iso)
      {
        assert Marked(mask, ts[n]);
        MarkedSlotOnCrossedEdge(corners, values, iso, ts[n].a);
        MarkedSlotOnCrossedEdge(corners, values, iso, ts[n].b);
        MarkedSlotOnCrossedEdge(corners, values, iso, ts[n].c);
      }
    }
  }

  /**
   * A cell is skipped (edge-table entry 0) exactly when its eight corners
   * all lie on the same side of the level; a skipped cell has no triangles.
   */
  lemma SkippedCellsAreUniform(values: seq<real>, iso: real)
    requires |values| == 8
    ensures EdgeTable(CubeIndex(values, iso)) == 0 <==>
      (forall n | 0 <= n < 8 :: values[n] < iso) || (forall n | 0 <= n < 8 :: !(values[n] < iso))
  {
    var ci := CubeIndex(values, iso);
    var flags := BelowLevel(values, iso);
    EdgeTableZeroExactlyWhenUniform(ci);
    assert Pow2(8) == 256;
    if forall n | 0 <= n < 8 :: values[n] < iso {
      FromBitsConst(flags, true);
    } else if forall n | 0 <= n < 8 :: !(values[n] < iso) {
      FromBitsConst(flags, false);
    } else {
      var a :| 0 <= a < 8 && values[a] < iso;
      var b :| 0 <= b < 8 && !(values[b] < iso);
      CubeIndexBits(values, iso, a);
      CubeIndexBits(values, iso, b);
      ZeroHasNoBits(a);
      ComplementHasBit(8, 0, b);
    }
  }

  // ----- One cell, as written ------------------------------------------------

  /**
   * The triangles the unguarded `!= -1` scan of `row` emits from entry `n`
   * on, their vertices read from `vertList`; `None` where the scan runs past
   * the row or indexes the vertex list with a non-edge entry.
   */
  function Emitted(row: seq<int>, n: nat, vertList: seq<Point3>): Option<seq<Triangle>>
    requires |vertList| == 12
  {
    match ScanRow(row, n)
    case None => None
    case Some(ts) => Some(TrianglesOf(ts, vertList))
  }

  /** One step of the scan: the triangle of the triple at `n`, then what the scan emits from `n + 3`. */
  lemma EmittedStep(row: seq<int>, n: nat, vertList: seq<Point3>)
    requires |vertList| == 12
    requires n + 2 < |row| && row[n] != -1 && IsEdgeTriple(TripleAt(row, n))
    ensures Emitted(row, n, vertList) ==
      var t := TripleAt(row, n);
      match Emitted(row, n + 3, vertList)
      case None => None
      case Some(ts) => Some([Tri(vertList[t.a], vertList[t.b], vertList[t.c])] + ts)
  {
    if ScanRow(row, n + 3).Some? {
      TrianglesOfCons(TripleAt(row, n), ScanRow(row, n + 3).value, vertList);
    }
  }

  /**
   * The triangles `marchingCubes` emits for cell `(i, j, k)`: none when the
   * cell's edge-table entry is 0, otherwise one per triple of its
   * triangle-table row before the first `-1`, each vertex read from the
   * vertex list, whose unmarked slots keep the default point `(0, 0, 0)`.
   * `None` when the scan runs past the row, which is undefined behaviour.
   */
  function CellTriangles(field: seq<seq<seq<real>>>, g: Grid, iso: real, i: int, j: int, k: int): Option<seq<Triangle>>
    requires g.res >= 2 && Shaped(field, g.res)
    requires 0 <= i < g.res - 1 && 0 <= j < g.res - 1 && 0 <= k < g.res - 1
  {
    var values := CornerValues(field, g.res, i, j, k);
    var ci := CubeIndex(values, iso);
    var mask := EdgeTable(ci);
    if mask == 0 then Some([])
    else Emitted(TriTable(ci), 0, VertexList(CellCorners(g, i, j, k), values, mask, iso))
  }

  /** `v` lies on a crossed edge of the cell, or is the default point of an unmarked slot. */
  ghost predicate CrossedOrDefault(v: Point3, corners: seq<Point3>, values: seq<real>, iso: real)
    requires |corners| == 8 && |values| == 8
  {
    OnCrossedEdge(v, corners, values, iso) || v == Origin
  }

  /**
   * Every vertex the program emits for a cell lies on a crossed edge of
   * that cell, or is the default point `(0, 0, 0)` read from a slot the
   * edge table left unmarked.
   */
  lemma CellVerticesCrossedOrDefault(field: seq<seq<seq<real>>>, g: Grid, iso: real, i: int, j: int, k: int)
    requires g.res >= 2 && Shaped(field, g.res)
    requires 0 <= i < g.res - 1 && 0 <= j < g.res - 1 && 0 <= k < g.res - 1
    requires CellTriangles(field, g, iso, i, j, k).Some?
    ensures forall n | 0 <= n < |CellTriangles(field, g, iso, i, j, k).value| ::
      var t := CellTriangles(field, g, iso, i, j, k).value[n];
      var corners, values := CellCorners(g, i, j, k), CornerValues(field, g.res, i, j, k);
      CrossedOrDefault(t.v0, corners, values, iso) && CrossedOrDefault(t.v1, corners, values, iso) &&
      CrossedOrDefault(t.v2, corners, values, iso)
  {
    var corners, values := CellCorners(g, i, j, k), CornerValues(field, g.res, i, j, k);
    var ci := CubeIndex(values, iso);
    var mask := EdgeTable(ci);
    if mask != 0 {
      var vl := VertexList(corners, values, mask, iso);
      forall e | 0 <= e < 12
        ensures CrossedOrDefault(vl[e], corners, values, iso)
      {
        if HasBit(mask, e) {
          MarkedSlotOnCrossedEdge(corners, values, iso, e);
        }
      }
    }
  }

  /**
   * Cube indices 151 to 254 have a nonzero edge-table entry and a
   * zero-filled triangle-table row: the program's scan runs past the row.
   */
  lemma OverrunCellUndefined(field: seq<seq<seq<real>>>, g: Grid, iso: real, i: int, j: int, k: int)
    requires g.res >= 2 && Shaped(field, g.res)
    requires 0 <= i < g.res - 1 && 0 <= j < g.res - 1 && 0 <= k < g.res - 1
    requires 151 <= CubeIndex(CornerValues(field, g.res, i, j, k), iso) < 255
    ensures CellTriangles(field, g, iso, i, j, k) == None
  {
    var ci := CubeIndex(CornerValues(field, g.res, i, j, k), iso);
    EdgeTableZeroExactlyWhenUniform(ci);
    UnfilledRowsOverrun(ci);
  }

  /**
   * A cell whose only corner below the level is corner 6 (cube index 64)
   * gets four triangles, and the first vertex of the second one is the
   * default point of the unmarked slot 11.
   */
  lemma Row64EmitsDefaultVertex(field: seq<seq<seq<real>>>, g: Grid, iso: real, i: int, j: int, k: int)
    requires g.res >= 2 && Shaped(field, g.res)
    requires 0 <= i < g.res - 1 && 0 <= j < g.res - 1 && 0 <= k < g.res - 1
    requires CubeIndex(CornerValues(field, g.res, i, j, k), iso) == 64
    ensures CellTriangles(field, g, iso, i, j, k).Some? && |CellTriangles(field, g, iso, i, j, k).value| == 4
    ensures CellTriangles(field, g, iso, i, j, k).value[1].v0 == Origin
  {
    Row64UsesUncrossedEdge();
    EdgeTableZeroExactlyWhenUniform(64);
  }

  /**
   * The program's scan of the cell's row stays inside the row and reads
   * only slots whose edges are marked, or the cell is skipped.
   */
  predicate ScanWellFormed(field: seq<seq<seq<real>>>, g: Grid, iso: real, i: int, j: int, k: int)
    requires g.res >= 2 && Shaped(field, g.res)
    requires 0 <= i < g.res - 1 && 0 <= j < g.res - 1 && 0 <= k < g.res - 1
  {
    var ci := CubeIndex(CornerValues(field, g.res, i, j, k), iso);
    var mask := EdgeTable(ci);
    mask == 0 ||
    (ScanRow(TriTable(ci), 0).Some? &&
     forall m | 0 <= m < |ScanRow(TriTable(ci), 0).value| :: Marked(mask, ScanRow(TriTable(ci), 0).value[m]))
  }

  /** On a well-formed cell the program emits exactly the guarded scan's triangles. */
  lemma CellAgreesWithGuarded(field: seq<seq<seq<real>>>, g: Grid, iso: real, i: int, j: int, k: int)
    requires g.res >= 2 && Shaped(field, g.res)
    requires 0 <= i < g.res - 1 && 0 <= j < g.res - 1 && 0 <= k < g.res - 1
    requires ScanWellFormed(field, g, iso, i, j, k)
    ensures CellTriangles(field, g, iso, i, j, k) == Some(GuardedCellTriangles(field, g, iso, i, j, k))
  {
    var ci := CubeIndex(CornerValues(field, g.res, i, j, k), iso);
    if EdgeTable(ci) != 0 {
      GuardedScanAgrees(TriTable(ci), EdgeTable(ci), 0);
    }
  }

  // ----- The whole grid -------------------------------------------------------

  /** The triangles of cells `(i, j, 0)` to `(i, j, res - 2)`, in that order. */
  function GuardedRowTriangles(field: seq<seq<seq<real>>>, g: Grid, iso: real, i: int, j: int): seq<Triangle>
    requires g.res >= 2 && Shaped(field, g.res)
    requires 0 <= i < g.res - 1 && 0 <= j < g.res - 1
  {
    Concat(GuardedRowCells(field, g, iso, i, j))
  }

  /** The triangle lists of the cells of row `(i, j)`. */
  function GuardedRowCells(field: seq<seq<seq<real>>>, g: Grid, iso: real, i: int, j: int): (cells: seq<seq<Triangle>>)
    requires g.res >= 2 && Shaped(field, g.res)
    requires 0 <= i < g.res - 1 && 0 <= j < g.res - 1
    ensures |cells| == g.res - 1
  {
    seq(g.res - 1, k requires 0 <= k < g.res - 1 => GuardedCellTriangles(field, g, iso, i, j, k))
  }

  /** The triangles of the rows `(i, 0)` to `(i, res - 2)`, in that order. */
  function GuardedPlaneTriangles(field: seq<seq<seq<real>>>, g: Grid, iso: real, i: int): seq<Triangle>
    requires g.res >= 2 && Shaped(field, g.res)
    requires 0 <= i < g.res - 1
  {
    Concat(GuardedPlaneRows(field, g, iso, i))
  }

  /** The triangle lists of the rows of plane `i`. */
  function GuardedPlaneRows(field: seq<seq<seq<real>>>, g: Grid, iso: real, i: int): (rows: seq<seq<Triangle>>)
    requires g.res >= 2 && Shaped(field, g.res)
    requires 0 <= i < g.res - 1
    ensures |rows| == g.res - 1
  {
    seq(g.res - 1, j requires 0 <= j < g.res - 1 => GuardedRowTriangles(field, g, iso, i, j))
  }

  /**
   * The triangles of the whole grid: cells visited with `i` outermost and
   * `k` innermost.
   */
  function GuardedMesh(field: seq<seq<seq<real>>>, g: Grid, iso: real): seq<Triangle>
    requires g.res >= 2 && Shaped(field, g.res)
  {
    Concat(GuardedMeshPlanes(field, g, iso))
  }

  /** The triangle lists of the planes of the grid. */
  function GuardedMeshPlanes(field: seq<seq<seq<real>>>, g: Grid, iso: real): (planes: seq<seq<Triangle>>)
    requires g.res >= 2 && Shaped(field, g.res)
    ensures |planes| == g.res - 1
  {
    seq(g.res - 1, i requires 0 <= i < g.res - 1 => GuardedPlaneTriangles(field, g, iso, i))
  }

  /** `t` is one of the triangles of some cell, its vertices on crossed edges of that cell. */
  ghost predicate FromSomeCell(field: seq<seq<seq<real>>>, g: Grid, iso: real, t: Triangle)
    requires g.res >= 2 && Shaped(field, g.res)
  {
    exists i, j, k | 0 <= i < g.res - 1 && 0 <= j < g.res - 1 && 0 <= k < g.res - 1 ::
      TriangleOnCrossedEdges(t, CellCorners(g, i, j, k), CornerValues(field, g.res, i, j, k), iso)
  }

  lemma CellTriangleFromCell(field: seq<seq<seq<real>>>, g: Grid, iso: real, i: int, j: int, k: int, t: Triangle)
    requires g.res >= 2 && Shaped(field, g.res)
    requires 0 <= i < g.res - 1 && 0 <= j < g.res - 1 && 0 <= k < g.res - 1
    requires t in GuardedCellTriangles(field, g, iso, i, j, k)
    ensures FromSomeCell(field, g, iso, t)
  {
    CellTrianglesOnCrossedEdges(field, g, iso, i, j, k);
    var n :| 0 <= n < |GuardedCellTriangles(field, g, iso, i, j, k)| && GuardedCellTriangles(field, g, iso, i, j, k)[n] == t;
    assert TriangleOnCrossedEdges(t, CellCorners(g, i, j, k), CornerValues(field, g.res, i, j, k), iso);
  }

  lemma RowTriangleFromCell(field: seq<seq<seq<real>>>, g: Grid, iso: real, i: int, j: int, t: Triangle)
    requires g.res >= 2 && Shaped(field, g.res)
    requires 0 <= i < g.res - 1 && 0 <= j < g.res - 1
    requires t in GuardedRowTriangles(field, g, iso, i, j)
    ensures FromSomeCell(field, g, iso, t)
  {
    var cells := GuardedRowCells(field, g, iso, i, j);
    ConcatMember(cells, t);
    var k :| 0 <= k < |cells| && t in cells[k];
    CellTriangleFromCell(field, g, iso, i, j, k, t);
  }

  lemma PlaneTriangleFromCell(field: seq<seq<seq<real>>>, g: Grid, iso: real, i: int, t: Triangle)
    requires g.res >= 2 && Shaped(field, g.res)
    requires 0 <= i < g.res - 1
    requires t in GuardedPlaneTriangles(field, g, iso, i)
    ensures FromSomeCell(field, g, iso, t)
  {
    var rows := GuardedPlaneRows(field, g, iso, i);
    ConcatMember(rows, t);
    var j :| 0 <= j < |rows| && t in rows[j];
    RowTriangleFromCell(field, g, iso, i, j, t);
  }

  /**
   * Every vertex of every triangle of the mesh lies on an edge of some
   * cell whose two end values are on different sides of the iso level.
   */
  lemma MeshTrianglesFromCells(field: seq<seq<seq<real>>>, g: Grid, iso: real)
    requires g.res >= 2 && Shaped(field, g.res)
    ensures forall t | t in GuardedMesh(field, g, iso) :: FromSomeCell(field, g, iso, t)
  {
    forall t | t in GuardedMesh(field, g, iso)
      ensures FromSomeCell(field, g, iso, t)
    {
      var planes := GuardedMeshPlanes(field, g, iso);
      ConcatMember(planes, t);
      var i :| 0 <= i < |planes| && t in planes[i];
      PlaneTriangleFromCell(field, g, iso, i, t);
    }
  }

  // ----- The whole grid, as written ------------------------------------------

  /** The outcomes of cells `(i, j, 0)` to `(i, j, res - 2)`. */
  function RowCells(field: seq<seq<seq<real>>>, g: Grid, iso: real, i: int, j: int): (cells: seq<Option<seq<Triangle>>>)
    requires g.res >= 2 && Shaped(field, g.res)
    requires 0 <= i < g.res - 1 && 0 <= j < g.res - 1
    ensures |cells| == g.res - 1
  {
    seq(g.res - 1, k requires 0 <= k < g.res - 1 => CellTriangles(field, g, iso, i, j, k))
  }

  /** The triangles of row `(i, j)`, undefined as soon as one cell's are. */
  function RowTriangles(field: seq<seq<seq<real>>>, g: Grid, iso: real, i: int, j: int): Option<seq<Triangle>>
    requires g.res >= 2 && Shaped(field, g.res)
    requires 0 <= i < g.res - 1 && 0 <= j < g.res - 1
  {
    JoinAll(RowCells(field, g, iso, i, j))
  }

  /** The outcomes of the rows of plane `i`. */
  function PlaneRows(field: seq<seq<seq<real>>>, g: Grid, iso: real, i: int): (rows: seq<Option<seq<Triangle>>>)
    requires g.res >= 2 && Shaped(field, g.res)
    requires 0 <= i < g.res - 1
    ensures |rows| == g.res - 1
  {
    seq(g.res - 1, j requires 0 <= j < g.res - 1 => RowTriangles(field, g, iso, i, j))
  }

  function PlaneTriangles(field: seq<seq<seq<real>>>, g: Grid, iso: real, i: int): Option<seq<Triangle>>
    requires g.res >= 2 && Shaped(field, g.res)
    requires 0 <= i < g.res - 1
  {
    JoinAll(PlaneRows(field, g, iso, i))
  }

  /** The outcomes of the planes of the grid. */
  function MeshPlanes(field: seq<seq<seq<real>>>, g: Grid, iso: real): (planes: seq<Option<seq<Triangle>>>)
    requires g.res >= 2 && Shaped(field, g.res)
    ensures |planes| == g.res - 1
  {
    seq(g.res - 1, i requires 0 <= i < g.res - 1 => PlaneTriangles(field, g, iso, i))
  }

  /**
   * The triangle list `marchingCubes` builds: the cells' triangles with
   * `i` outermost and `k` innermost, undefined as soon as one cell's are.
   */
  function MeshTriangles(field: seq<seq<seq<real>>>, g: Grid, iso: real): Option<seq<Triangle>>
    requires g.res >= 2 && Shaped(field, g.res)
  {
    JoinAll(MeshPlanes(field, g, iso))
  }

  /** The outcome of every cell of row `(i, j)` is defined. */
  ghost predicate RowCellsDefined(field: seq<seq<seq<real>>>, g: Grid, iso: real, i: int, j: int)
    requires g.res >= 2 && Shaped(field, g.res)
    requires 0 <= i < g.res - 1 && 0 <= j < g.res - 1
  {
    forall k | 0 <= k < g.res - 1 :: CellTriangles(field, g, iso, i, j, k).Some?
  }

  /** The outcome of every cell of plane `i` is defined. */
  ghost predicate PlaneCellsDefined(field: seq<seq<seq<real>>>, g: Grid, iso: real, i: int)
    requires g.res >= 2 && Shaped(field, g.res)
    requires 0 <= i < g.res - 1
  {
    forall j | 0 <= j < g.res - 1 :: RowCellsDefined(field, g, iso, i, j)
  }

  /** A row's triangles are defined exactly when the outcome of each of its cells is. */
  lemma RowDefined(field: seq<seq<seq<real>>>, g: Grid, iso: real, i: int, j: int)
    requires g.res >= 2 && Shaped(field, g.res)
    requires 0 <= i < g.res - 1 && 0 <= j < g.res - 1
    ensures RowTriangles(field, g, iso, i, j).Some? <==> RowCellsDefined(field, g, iso, i, j)
  {
    var cells := RowCells(field, g, iso, i, j);
    JoinAllDefined(cells);
    assert forall k | 0 <= k < g.res - 1 :: cells[k] == CellTriangles(field, g, iso, i, j, k);
  }

  /** A plane's triangles are defined exactly when the outcome of each of its cells is. */
  lemma PlaneDefined(field: seq<seq<seq<real>>>, g: Grid, iso: real, i: int)
    requires g.res >= 2 && Shaped(field, g.res)
    requires 0 <= i < g.res - 1
    ensures PlaneTriangles(field, g, iso, i).Some? <==> PlaneCellsDefined(field, g, iso, i)
  {
    var rows := PlaneRows(field, g, iso, i);
    JoinAllDefined(rows);
    forall j | 0 <= j < g.res - 1
      ensures rows[j].Some? <==> RowCellsDefined(field, g, iso, i, j)
    {
      RowDefined(field, g, iso, i, j);
    }
  }

  /** The program's mesh is defined exactly when the outcome of every cell is. */
  lemma WrittenMeshDefined(field: seq<seq<seq<real>>>, g: Grid, iso: real)
    requires g.res >= 2 && Shaped(field, g.res)
    ensures MeshTriangles(field, g, iso).Some? <==>
      forall i, j, k | 0 <= i < g.res - 1 && 0 <= j < g.res - 1 && 0 <= k < g.res - 1 ::
        CellTriangles(field, g, iso, i, j, k).Some?
  {
    var planes := MeshPlanes(field, g, iso);
    JoinAllDefined(planes);
    forall i | 0 <= i < g.res - 1
      ensures planes[i].Some? <==> PlaneCellsDefined(field, g, iso, i)
    {
      PlaneDefined(field, g, iso, i);
    }
    if MeshTriangles(field, g, iso).Some? {
      forall i, j, k | 0 <= i < g.res - 1 && 0 <= j < g.res - 1 && 0 <= k < g.res - 1
        ensures CellTriangles(field, g, iso, i, j, k).Some?
      {
        assert PlaneCellsDefined(field, g, iso, i);
        assert RowCellsDefined(field, g, iso, i, j);
      }
    } else {
      var i :| 0 <= i < g.res - 1 && !PlaneCellsDefined(field, g, iso, i);
      var j :| 0 <= j < g.res - 1 && !RowCellsDefined(field, g, iso, i, j);
      var k :| 0 <= k < g.res - 1 && CellTriangles(field, g, iso, i, j, k).None?;
    }
  }

  /** Each vertex of `t` lies on a crossed edge of one cell of the grid, or is the default point. */
  ghost predicate FromSomeCellOrDefault(field: seq<seq<seq<real>>>, g: Grid, iso: real, t: Triangle)
    requires g.res >= 2 && Shaped(field, g.res)
  {
    exists i, j, k | 0 <= i < g.res - 1 && 0 <= j < g.res - 1 && 0 <= k < g.res - 1 ::
      CrossedOrDefault(t.v0, CellCorners(g, i, j, k), CornerValues(field, g.res, i, j, k), iso) &&
      CrossedOrDefault(t.v1, CellCorners(g, i, j, k), CornerValues(field, g.res, i, j, k), iso) &&
      CrossedOrDefault(t.v2, CellCorners(g, i, j, k), CornerValues(field, g.res, i, j, k), iso)
  }

  /**
   * Every triangle of the program's mesh, where it is defined, comes from
   * one cell: each vertex lies on a crossed edge of that cell or is the
   * default point of an unmarked slot.
   */
  lemma WrittenMeshFromCells(field: seq<seq<seq<real>>>, g: Grid, iso: real)
    requires g.res >= 2 && Shaped(field, g.res)
    requires MeshTriangles(field, g, iso).Some?
    ensures forall t | t in MeshTriangles(field, g, iso).value :: FromSomeCellOrDefault(field, g, iso, t)
  {
    forall t | t in MeshTriangles(field, g, iso).value
      ensures FromSomeCellOrDefault(field, g, iso, t)
    {
      var planes := MeshPlanes(field, g, iso);
      JoinAllMember(planes, t);
      var i :| 0 <= i < |planes| && planes[i].Some? && t in planes[i].value;
      var rows := PlaneRows(field, g, iso, i);
      assert planes[i] == JoinAll(rows);
      JoinAllMember(rows, t);
      var j :| 0 <= j < |rows| && rows[j].Some? && t in rows[j].value;
      var cells := RowCells(field, g, iso, i, j);
      assert rows[j] == JoinAll(cells);
      JoinAllMember(cells, t);
      var k :| 0 <= k < |cells| && cells[k].Some? && t in cells[k].value;
      assert cells[k] == CellTriangles(field, g, iso, i, j, k);
      CellVerticesCrossedOrDefault(field, g, iso, i, j, k);
      var n :| 0 <= n < |cells[k].value| && cells[k].value[n] == t;
    }
  }

  /** One cell past the filled rows of the triangle table leaves the program's whole mesh undefined. */
  lemma OverrunUndefinesMesh(field: seq<seq<seq<real>>>, g: Grid, iso: real, i: int, j: int, k: int)
    requires g.res >= 2 && Shaped(field, g.res)
    requires 0 <= i < g.res - 1 && 0 <= j < g.res - 1 && 0 <= k < g.res - 1
    requires 151 <= CubeIndex(CornerValues(field, g.res, i, j, k), iso) < 255
    ensures MeshTriangles(field, g, iso) == None
  {
    OverrunCellUndefined(field, g, iso, i, j, k);
    WrittenMeshDefined(field, g, iso);
  }

  /** Where every cell is well formed, the program's mesh is the guarded mesh. */
  lemma WrittenMeshIsGuardedMesh(field: seq<seq<seq<real>>>, g: Grid, iso: real)
    requires g.res >= 2 && Shaped(field, g.res)
    requires forall i, j, k | 0 <= i < g.res - 1 && 0 <= j < g.res - 1 && 0 <= k < g.res - 1 :: ScanWellFormed(field, g, iso, i, j, k)
    ensures MeshTriangles(field, g, iso) == Some(GuardedMesh(field, g, iso))
  {
    var planes, gplanes := MeshPlanes(field, g, iso), GuardedMeshPlanes(field, g, iso);
    forall i | 0 <= i < g.res - 1
      ensures planes[i] == Some(gplanes[i])
    {
      var rows, grows := PlaneRows(field, g, iso, i), GuardedPlaneRows(field, g, iso, i);
      forall j | 0 <= j < g.res - 1
        ensures rows[j] == Some(grows[j])
      {
        var cells, gcells := RowCells(field, g, iso, i, j), GuardedRowCells(field, g, iso, i, j);
        forall k | 0 <= k < g.res - 1
          ensures cells[k] == Some(gcells[k])
        {
          CellAgreesWithGuarded(field, g, iso, i, j, k);
        }
        JoinAllSome(cells, gcells);
      }
      JoinAllSome(rows, grows);
    }
    JoinAllSome(planes, gplanes);
  }

  // ----- Centroid -------------------------------------------------------------

  /** The vertices of `ts`, three per triangle, in order. */
  function VerticesOf(ts: seq<Triangle>): (vs: seq<Point3>)
    ensures |vs| == 3 * |ts|
  {
    if |ts| == 0 then []
    else var t := ts[|ts| - 1]; VerticesOf(ts[..|ts| - 1]) + [t.v0, t.v1, t.v2]
  }

  /** A triangle's vertices in order. */
  function Corners(t: Triangle): seq<Point3> {
    [t.v0, t.v1, t.v2]
  }

  /** The accumulation loops of `calculateCentroid`: the vertex sum and count. */
  method SumVertices(ts: seq<Triangle>) returns (sum: Point3, count: int)
    ensures sum == Sum(VerticesOf(ts)) && count == |VerticesOf(ts)|
  {
    sum := Origin;
    count := 0;
    for n := 0 to |ts|
      invariant sum == Sum(VerticesOf(ts[..n])) && count == 3 * n
    {
      var vs := Corners(ts[n]);
      ghost var before := VerticesOf(ts[..n]);
      assert before + vs[..0] == before;
      for m := 0 to 3
        invariant sum == Sum(before + vs[..m]) && count == 3 * n + m
      {
        SumSnoc(before + vs[..m], vs[m]);
        assert before + vs[..m + 1] == before + vs[..m] + [vs[m]];
        sum := Point3(sum.x + vs[m].x, sum.y + vs[m].y, sum.z + vs[m].z);
        count := count + 1;
      }
      assert ts[..n + 1][..n] == ts[..n];
      assert vs[..3] == vs;
    }
    assert ts[..|ts|] == ts;
  }

  /** The centroid lies in the bounding box of the vertices it averages. */
  lemma CentroidInBox(ts: seq<Triangle>)
    requires |ts| > 0
    ensures Below(Lower(VerticesOf(ts)), Mean(VerticesOf(ts))) && Below(Mean(VerticesOf(ts)), Upper(VerticesOf(ts)))
  {
    MeanInBox(VerticesOf(ts));
  }

  // ----- Bounds ---------------------------------------------------------------

  /** `minBounds` after `calculateBounds` on a non-empty cloud. */
  function PaddedMin(ps: seq<Point3>): Point3
    requires |ps| > 0
  {
    Offset(Lower(ps), -Padding)
  }

  /** `maxBounds` after `calculateBounds` on a non-empty cloud. */
  function PaddedMax(ps: seq<Point3>): Point3
    requires |ps| > 0
  {
    Offset(Upper(ps), Padding)
  }

  /** Componentwise `p < q`. */
  predicate StrictlyBelow(p: Point3, q: Point3) {
    p.x < q.x && p.y < q.y && p.z < q.z
  }

  /**
   * Every point of the cloud lies strictly inside the padded box, and each
   * face of the box is exactly `Padding` away from some point of the cloud.
   */
  lemma PaddedBoxEncloses(ps: seq<Point3>)
    requires |ps| > 0
    ensures forall n | 0 <= n < |ps| :: StrictlyBelow(PaddedMin(ps), ps[n]) && StrictlyBelow(ps[n], PaddedMax(ps))
    ensures Attained(Offset(PaddedMin(ps), Padding), ps) && Attained(Offset(PaddedMax(ps), -Padding), ps)
  {
    LowerIsTightBound(ps);
    UpperIsTightBound(ps);
    assert Offset(PaddedMin(ps), Padding) == Lower(ps);
    assert Offset(PaddedMax(ps), -Padding) == Upper(ps);
  }

  /** With `lo <= hi`, every node of the grid lies in the box from `lo` to `hi`. */
  lemma GridNodesInBox(g: Grid, i: int, j: int, k: int)
    requires g.res >= 2 && Below(g.lo, g.hi)
    requires 0 <= i < g.res && 0 <= j < g.res && 0 <= k < g.res
    ensures Below(g.lo, GridPoint(g, i, j, k)) && Below(GridPoint(g, i, j, k), g.hi)
  {
    GridCoordInRange(g.lo.x, g.hi.x, g.res, i);
    GridCoordInRange(g.lo.y, g.hi.y, g.res, j);
    GridCoordInRange(g.lo.z, g.hi.z, g.res, k);
  }

  // ----- The program's state --------------------------------------------------

  /** The defaults of the constructor and of the iso level. */
  const DefaultGridSize: real := 0.1
  const DefaultResolution: int := 100
  const DefaultIso: real := 0.05

  /** The running minimum of `createScalarField` for one grid point. */
  method MinDistance(sqrt: real -> real, ps: seq<Point3>, q: Point3) returns (d: real)
    ensures d == NearestDistance(sqrt, ps, q)
  {
    d := FloatMax;
    for n := 0 to |ps|
      invariant d == NearestDistance(sqrt, ps[..n], q)
    {
      var p := ps[n];
      var distance := Distance(sqrt, q, p);
      assert ps[..n + 1][..n] == ps[..n];
      assert NearestDistance(sqrt, ps[..n + 1], q) == Min(NearestDistance(sqrt, ps[..n], q), distance);
      d := Min(d, distance);
    }
    assert ps[..|ps|] == ps;
  }

  // ----- The loops of `marchingCubes` ---------------------------------------

  /**
   * The body of the cell loop of `marchingCubes`: the cube index, the
   * vertex list and one triangle per triple of the row up to its `-1`.
   */
  method CellMesh(field: seq<seq<seq<real>>>, g: Grid, iso: real, i: int, j: int, k: int) returns (tris: Option<seq<Triangle>>)
    requires g.res >= 2 && Shaped(field, g.res)
    requires 0 <= i < g.res - 1 && 0 <= j < g.res - 1 && 0 <= k < g.res - 1
    ensures tris == CellTriangles(field, g, iso, i, j, k)
  {
    var vertices := CellCorners(g, i, j, k);
    var values := CornerValues(field, g.res, i, j, k);
    var cubeIndex := ComputeCubeIndex(values, iso);
    var mask := EdgeTable(cubeIndex);
    if mask == 0 {
      return Some([]);
    }
    var vertList := VertexList(vertices, values, mask, iso);
    var row := TriTable(cubeIndex);
    var acc: seq<Triangle> := [];
    var n := 0;
    if Emitted(row, 0, vertList).Some? {
      assert acc + Emitted(row, 0, vertList).value == Emitted(row, 0, vertList).value;
    }
    while n < |row| && row[n] != -1
      invariant Prepend(acc, Emitted(row, n, vertList)) == Emitted(row, 0, vertList)
      decreases |row| - n
    {
      if n + 2 >= |row| || !IsEdgeTriple(TripleAt(row, n)) {
        return None;
      }
      var t := TripleAt(row, n);
      var tri := Tri(vertList[t.a], vertList[t.b], vertList[t.c]);
      EmittedStep(row, n, vertList);
      PrependCons(acc, tri, Emitted(row, n + 3, vertList));
      acc := acc + [tri];
      n := n + 3;
    }
    if n >= |row| {
      return None;
    }
    assert acc + [] == acc;
    return Some(acc);
  }

  /** The `k` loop of `marchingCubes` for row `(i, j)`. */
  method RowMesh(field: seq<seq<seq<real>>>, g: Grid, iso: real, i: int, j: int) returns (r: Option<seq<Triangle>>)
    requires g.res >= 2 && Shaped(field, g.res)
    requires 0 <= i < g.res - 1 && 0 <= j < g.res - 1
    ensures r == RowTriangles(field, g, iso, i, j)
  {
    ghost var cells := RowCells(field, g, iso, i, j);
    r := Some([]);
    for k := 0 to g.res - 1
      invariant r == JoinAll(cells[..k])
    {
      var cell := CellMesh(field, g, iso, i, j, k);
      JoinAllPrefixStep(cells, k);
      r := if r.Some? && cell.Some? then Some(r.value + cell.value) else None;
    }
    assert cells[..g.res - 1] == cells;
  }

  /** The `j` loop of `marchingCubes` for plane `i`. */
  method PlaneMesh(field: seq<seq<seq<real>>>, g: Grid, iso: real, i: int) returns (r: Option<seq<Triangle>>)
    requires g.res >= 2 && Shaped(field, g.res)
    requires 0 <= i < g.res - 1
    ensures r == PlaneTriangles(field, g, iso, i)
  {
    ghost var rows := PlaneRows(field, g, iso, i);
    r := Some([]);
    for j := 0 to g.res - 1
      invariant r == JoinAll(rows[..j])
    {
      var row := RowMesh(field, g, iso, i, j);
      JoinAllPrefixStep(rows, j);
      r := if r.Some? && row.Some? then Some(r.value + row.value) else None;
    }
    assert rows[..g.res - 1] == rows;
  }

  /** The `i` loop of `marchingCubes`: the triangles of the whole grid. */
  method MeshOf(field: seq<seq<seq<real>>>, g: Grid, iso: real) returns (r: Option<seq<Triangle>>)
    requires g.res >= 2 && Shaped(field, g.res)
    ensures r == MeshTriangles(field, g, iso)
  {
    ghost var planes := MeshPlanes(field, g, iso);
    r := Some([]);
    for i := 0 to g.res - 1
      invariant r == JoinAll(planes[..i])
    {
      var plane := PlaneMesh(field, g, iso, i);
      JoinAllPrefixStep(planes, i);
      r := if r.Some? && plane.Some? then Some(r.value + plane.value) else None;
    }
    assert planes[..g.res - 1] == planes;
  }

  class MarchingCubes {
    var pointCloud: seq<Point3>
    var scalarField: seq<seq<seq<real>>>
    var triangles: seq<Triangle>
    /** Stored by the constructor and never read. */
    var gridSize: real
    var gridResolution: int
    var minBounds: Point3
    var maxBounds: Point3

    constructor(gridSize: real, resolution: int)
      ensures this.gridSize == gridSize && gridResolution == resolution
      ensures pointCloud == [] && scalarField == [] && triangles == []
      ensures minBounds == Origin && maxBounds == Origin
    {
      this.gridSize := gridSize;
      gridResolution := resolution;
      pointCloud, scalarField, triangles := [], [], [];
      minBounds, maxBounds := Origin, Origin;
    }

    /** The grid the bounds and the resolution span. */
    function Lattice(): Grid
      reads this`minBounds, this`maxBounds, this`gridResolution
    {
      Grid(minBounds, maxBounds, gridResolution)
    }

    /**
     * `loadPointCloud`: `file` is `None` when the file cannot be opened, and
     * otherwise the points read from it. On success the cloud is replaced
     * and the bounds recomputed.
     */
    method LoadPointCloud(file: Option<seq<Point3>>) returns (ok: bool)
      modifies this`pointCloud, this`minBounds, this`maxBounds
      ensures ok == file.Some?
      ensures pointCloud == if file.Some? then file.value else old(pointCloud)
      ensures file.Some? && |file.value| > 0 ==>
        minBounds == PaddedMin(file.value) && maxBounds == PaddedMax(file.value)
      ensures file.None? || |file.value| == 0 ==> minBounds == old(minBounds) && maxBounds == old(maxBounds)
    {
      if file.None? {
        return false;
      }
      pointCloud := file.value;
      CalculateBounds();
      return true;
    }

    /**
     * `calculateBounds`: the componentwise minimum and maximum of the cloud,
     * widened by `Padding` on every side; nothing changes for an empty cloud.
     */
    method CalculateBounds()
      modifies this`minBounds, this`maxBounds
      ensures |pointCloud| > 0 ==> minBounds == PaddedMin(pointCloud) && maxBounds == PaddedMax(pointCloud)
      ensures |pointCloud| == 0 ==> minBounds == old(minBounds) && maxBounds == old(maxBounds)
    {
      if |pointCloud| == 0 {
        return;
      }
      minBounds, maxBounds := pointCloud[0], pointCloud[0];
      for n := 0 to |pointCloud|
        invariant n == 0 ==> minBounds == pointCloud[0] && maxBounds == pointCloud[0]
        invariant n > 0 ==> minBounds == Lower(pointCloud[..n]) && maxBounds == Upper(pointCloud[..n])
      {
        var p := pointCloud[n];
        minBounds := Point3(Min(minBounds.x, p.x), Min(minBounds.y, p.y), Min(minBounds.z, p.z));
        maxBounds := Point3(Max(maxBounds.x, p.x), Max(maxBounds.y, p.y), Max(maxBounds.z, p.z));
        assert pointCloud[..n + 1][..n] == pointCloud[..n];
      }
      assert pointCloud[..|pointCloud|] == pointCloud;
      minBounds := Offset(minBounds, -Padding);
      maxBounds := Offset(maxBounds, Padding);
    }

    /**
     * `createScalarField`: entry `[i][j][k]` of the field becomes the
     * distance from grid node `(i, j, k)` to the nearest point of the cloud.
     */
    method CreateScalarField(sqrt: real -> real)
      requires gridResolution >= 2
      modifies this`scalarField
      ensures scalarField == DistanceField(sqrt, pointCloud, Lattice())
    {
      var ps, g, res := pointCloud, Lattice(), gridResolution;
      ghost var target := DistanceField(sqrt, ps, g);
      var field: seq<seq<seq<real>>> := [];
      for i := 0 to res
        invariant field == target[..i]
      {
        ghost var targetPlane := FieldPlane(sqrt, ps, g, i);
        var plane: seq<seq<real>> := [];
        for j := 0 to res
          invariant plane == targetPlane[..j]
        {
          ghost var targetLine := FieldLine(sqrt, ps, g, i, j);
          var line: seq<real> := [];
          for k := 0 to res
            invariant line == targetLine[..k]
          {
            var d := MinDistance(sqrt, ps, GridPoint(g, i, j, k));
            assert targetLine[..k + 1] == line + [d];
            line := line + [d];
          }
          assert targetLine[..res] == targetLine;
          assert targetPlane[..j + 1] == plane + [line];
          plane := plane + [line];
        }
        assert targetPlane[..res] == targetPlane;
        assert target[..i + 1] == field + [plane];
        field := field + [plane];
      }
      assert target[..res] == target;
      scalarField := field;
    }

    /**
     * `marchingCubes`: the list is cleared, then receives the triangles of
     * every cell, with `i` outermost and `k` innermost. Nothing is promised
     * where the scan of a cell runs past its row, which is undefined
     * behaviour.
     */
    method RunMarchingCubes(iso: real)
      requires gridResolution >= 2 && Shaped(scalarField, gridResolution)
      modifies this`triangles
      ensures MeshTriangles(scalarField, Lattice(), iso).Some? ==>
        triangles == MeshTriangles(scalarField, Lattice(), iso).value
    {
      triangles := [];
      var mesh := MeshOf(scalarField, Lattice(), iso);
      if mesh.Some? {
        triangles := mesh.value;
      }
    }

    /**
     * `calculateCentroid`: the mean of the vertices of all triangles, three
     * per triangle, or the origin when there are none.
     */
    method CalculateCentroid() returns (c: Point3)
      ensures |triangles| == 0 ==> c == Origin
      ensures |triangles| > 0 ==> c == Mean(VerticesOf(triangles))
    {
      if |triangles| == 0 {
        return Origin;
      }
      var sum, count := SumVertices(triangles);
      c := Point3(sum.x / count as real, sum.y / count as real, sum.z / count as real);
    }

    /**
     * `process`: load the cloud, build the distance field, extract the
     * triangles and return their centroid, which the program stores in its
     * global `meshCentroid`; `None` when the file cannot be opened.
     */
    method Process(file: Option<seq<Point3>>, sqrt: real -> real, iso: real) returns (centroid: Option<Point3>)
      requires gridResolution >= 2
      modifies this`pointCloud, this`minBounds, this`maxBounds, this`scalarField, this`triangles
      ensures file.None? ==> centroid == None && pointCloud == old(pointCloud)
      ensures file.None? ==> minBounds == old(minBounds) && maxBounds == old(maxBounds)
      ensures file.None? ==> scalarField == old(scalarField) && triangles == old(triangles)
      ensures file.Some? ==> pointCloud == file.value
      ensures file.Some? && |file.value| > 0 ==> minBounds == PaddedMin(file.value) && maxBounds == PaddedMax(file.value)
      ensures file.Some? && |file.value| == 0 ==> minBounds == old(minBounds) && maxBounds == old(maxBounds)
      ensures file.Some? ==> scalarField == DistanceField(sqrt, file.value, Lattice()) && Shaped(scalarField, gridResolution)
      ensures file.Some? && MeshTriangles(scalarField, Lattice(), iso).Some? ==>
        triangles == MeshTriangles(scalarField, Lattice(), iso).value
      ensures file.Some? ==> centroid == Some(if |triangles| == 0 then Origin else Mean(VerticesOf(triangles)))
    {
      var ok := LoadPointCloud(file);
      if !ok {
        return None;
      }
      CreateScalarField(sqrt);
      RunMarchingCubes(iso);
      var c := CalculateCentroid();
      return Some(c);
    }
  }
}
