/**
 * The grid Marching Cubes demo (marchingCubes/mc_demo.cpp): samples of a
 * scalar function at the integer points of an `nx` by `ny` by `nz` grid,
 * stored in a flat buffer indexed by `x + nx * (y + ny * z)`, a field that
 * is negative inside a sphere, and Marching Cubes over the unit cells of
 * the grid.
 *
 * The demo's tables come from a header that is not part of this model, so
 * the edge table and the triangle table are parameters here.
 */
module GridMc {
  import opened Geometry
  import opened Bits
  import opened CubeTables
  import opened Classify
  import opened FlatIndex

  /** The demo's grid size along each axis and its iso level. */
  const DemoSize: int := 10
  const DemoIso: real := 0.8

  /** Values closer than this are treated as equal by `vertexInterp`. */
  const InterpEpsilon: real := 0.00001

  // ----- The flat buffer ------------------------------------------------------

  /** The samples and the grid dimensions `marchingCubes` receives. */
  datatype Samples = Samples(grid: seq<real>, nx: int, ny: int, nz: int)

  /** The buffer holds a value for every point of the grid. */
  predicate WellSized(s: Samples) {
    s.nx >= 0 && s.ny >= 0 && s.nz >= 0 && s.nx * s.ny * s.nz <= |s.grid|
  }

  /** `grid[idx(x, y, z)]`. */
  function Sample(s: Samples, x: int, y: int, z: int): real
    requires WellSized(s) && 0 <= x < s.nx && 0 <= y < s.ny && 0 <= z < s.nz
  {
    IdxInRange(s.nx, s.ny, s.nz, x, y, z);
    s.grid[Idx(s.nx, s.ny, x, y, z)]
  }

  // ----- The corners of a cell ------------------------------------------------

  /** Offset of corner `i` as the demo computes it: `(i & 1, (i >> 1) & 1, (i >> 2) & 1)`. */
  function DemoOffset(i: int): (int, int, int)
    requires 0 <= i < 8
  {
    (i % 2, i / 2 % 2, i / 4 % 2)
  }

  /**
   * The two ways of numbering the corners of a cell: the demo's bit
   * decomposition, and the order the edge list (Bourke's `cubeVertices`)
   * assumes.
   */
  datatype CornerOrder = BitOrder | EdgeListOrder

  /** Offset of corner `i` from the cell's origin under `order`. */
  function OffsetIn(order: CornerOrder, i: int): (d: (int, int, int))
    requires 0 <= i < 8
    ensures 0 <= d.0 <= 1 && 0 <= d.1 <= 1 && 0 <= d.2 <= 1
  {
    match order
    case BitOrder => DemoOffset(i)
    case EdgeListOrder => (CornerX(i), CornerY(i), CornerZ(i))
  }

  /** Position of corner `i` of cell `(x, y, z)` under `order`. */
  function CellCorner(order: CornerOrder, x: int, y: int, z: int, i: int): Point3
    requires 0 <= i < 8
  {
    var d := OffsetIn(order, i);
    Point3((x + d.0) as real, (y + d.1) as real, (z + d.2) as real)
  }

  /** The eight corners `p[0..7]` of cell `(x, y, z)`. */
  function CellCorners(order: CornerOrder, x: int, y: int, z: int): (corners: seq<Point3>)
    ensures |corners| == 8
  {
    seq(8, i requires 0 <= i < 8 => CellCorner(order, x, y, z, i))
  }

  /**
   * The demo's offsets agree with the numbering of the edge list on corners
   * 0, 1, 4 and 5 but exchange corners 2 and 3, and 6 and 7.
   */
  lemma DemoOffsetsSwapCorners()
    ensures forall i | 0 <= i < 8 && i % 4 < 2 :: OffsetIn(BitOrder, i) == OffsetIn(EdgeListOrder, i)
    ensures forall i | 0 <= i < 8 && i % 4 >= 2 ::
      var j := if i % 2 == 0 then i + 1 else i - 1;
      OffsetIn(BitOrder, i) == OffsetIn(EdgeListOrder, j)
  {
  }

  /**
   * With the demo's offsets, edges 1, 3, 5 and 7 of the edge list join
   * corners that differ along two axes: they are diagonals of a face, not
   * edges of the cell.
   */
  lemma DemoOddEdgesAreDiagonals(x: int, y: int, z: int, e: int)
    requires 0 <= e < 8 && e % 2 == 1
    ensures !UnitStep(CellCorners(BitOrder, x, y, z)[EdgeStart(e)], CellCorners(BitOrder, x, y, z)[EdgeEnd(e)])
  {
  }

  /** In the numbering of the edge list all twelve edges join neighbouring grid points. */
  lemma CellEdgesAreUnitSteps(x: int, y: int, z: int)
    ensures forall e | 0 <= e < 12 ::
      UnitStep(CellCorners(EdgeListOrder, x, y, z)[EdgeStart(e)], CellCorners(EdgeListOrder, x, y, z)[EdgeEnd(e)])
  {
    EdgesAreUnitSteps();
    forall e | 0 <= e < 12
      ensures UnitStep(CellCorners(EdgeListOrder, x, y, z)[EdgeStart(e)], CellCorners(EdgeListOrder, x, y, z)[EdgeEnd(e)])
    {
      assert UnitStep(CornerOffset(EdgeStart(e)), CornerOffset(EdgeEnd(e)));
    }
  }

  /** The sample values `val[0..7]` at the corners of cell `(x, y, z)` under `order`. */
  function CellValues(s: Samples, order: CornerOrder, x: int, y: int, z: int): (values: seq<real>)
    requires WellSized(s) && 0 <= x < s.nx - 1 && 0 <= y < s.ny - 1 && 0 <= z < s.nz - 1
    ensures |values| == 8
  {
    seq(8, i requires 0 <= i < 8 =>
      var d := OffsetIn(order, i);
      Sample(s, x + d.0, y + d.1, z + d.2))
  }

  // ----- Interpolation along an edge ------------------------------------------

  /**
   * `vertexInterp`: `p1` when the level is within `InterpEpsilon` of
   * `valp1`, else `p2` when it is within `InterpEpsilon` of `valp2`, else
   * `p1` when the two values are that close, else the point at parameter
   * `(iso - valp1) / (valp2 - valp1)` from `p1` towards `p2`.
   */
  function VertexInterp(iso: real, p1: Point3, p2: Point3, valp1: real, valp2: real): Point3 {
    if Abs(iso - valp1) < InterpEpsilon then p1
    else if Abs(iso - valp2) < InterpEpsilon then p2
    else if Abs(valp1 - valp2) < InterpEpsilon then p1
    else Lerp(p1, p2, (iso - valp1) / (valp2 - valp1))
  }

  /** Between values on different sides of the level, the vertex lies on the segment. */
  lemma VertexInterpOnSegment(iso: real, p1: Point3, p2: Point3, valp1: real, valp2: real)
    requires (valp1 < iso) != (valp2 < iso)
    ensures OnSegment(VertexInterp(iso, p1, p2, valp1, valp2), p1, p2)
  {
    var v := VertexInterp(iso, p1, p2, valp1, valp2);
    if Abs(iso - valp1) < InterpEpsilon || (Abs(iso - valp2) >= InterpEpsilon && Abs(valp1 - valp2) < InterpEpsilon) {
      assert v == Lerp(p1, p2, 0.0);
    } else if Abs(iso - valp2) < InterpEpsilon {
      assert v == Lerp(p1, p2, 1.0);
    } else {
      var t := (iso - valp1) / (valp2 - valp1);
      assert t * (valp2 - valp1) == iso - valp1;
      assert 0.0 <= t <= 1.0;
      assert v == Lerp(p1, p2, t);
    }
  }

  /**
   * When none of the three closeness tests applies, the vertex sits at the
   * parameter where the values, interpolated linearly, reach the level.
   */
  lemma VertexInterpReachesLevel(iso: real, p1: Point3, p2: Point3, valp1: real, valp2: real)
    requires Abs(iso - valp1) >= InterpEpsilon && Abs(iso - valp2) >= InterpEpsilon
    requires Abs(valp1 - valp2) >= InterpEpsilon
    ensures exists t: real {:trigger Lerp(p1, p2, t)} ::
      VertexInterp(iso, p1, p2, valp1, valp2) == Lerp(p1, p2, t) && valp1 + t * (valp2 - valp1) == iso
  {
    var t := (iso - valp1) / (valp2 - valp1);
    assert t * (valp2 - valp1) == iso - valp1;
    assert VertexInterp(iso, p1, p2, valp1, valp2) == Lerp(p1, p2, t);
  }

  // ----- The sphere field -----------------------------------------------------

  /** Centre coordinate `(n - 1) / 2` along an axis with `n` samples. */
  function Centre(n: int): real {
    ((n - 1) as real) / 2.0
  }

  /** `R = min(min(cx, cy), cz) * 0.8`. */
  function Radius(nx: int, ny: int, nz: int): real {
    Min(Min(Centre(nx), Centre(ny)), Centre(nz)) * 0.8
  }

  /** The field at `(x, y, z)`: squared distance to the centre less `R * R`. */
  function SphereValue(nx: int, ny: int, nz: int, x: int, y: int, z: int): real {
    var dx, dy, dz := x as real - Centre(nx), y as real - Centre(ny), z as real - Centre(nz);
    var r := Radius(nx, ny, nz);
    dx * dx + dy * dy + dz * dz - r * r
  }

  /** The buffer `generateField` fills: entry `n` belongs to the sample whose position is `n`. */
  function SphereField(nx: int, ny: int, nz: int): (f: seq<real>)
    requires nx >= 0 && ny >= 0 && nz >= 0
    ensures |f| == nx * ny * nz
  {
    seq(nx * ny * nz, n requires 0 <= n < nx * ny * nz =>
      SphereValue(nx, ny, nz, n % nx, n / nx % ny, n / nx / ny))
  }

  /** Sample `(x, y, z)` of the generated field is the sphere function there. */
  lemma SphereFieldAt(nx: int, ny: int, nz: int, x: int, y: int, z: int)
    requires 0 <= x < nx && 0 <= y < ny && 0 <= z < nz
    ensures Idx(nx, ny, x, y, z) < |SphereField(nx, ny, nz)|
    ensures SphereField(nx, ny, nz)[Idx(nx, ny, x, y, z)] == SphereValue(nx, ny, nz, x, y, z)
  {
    IdxInRange(nx, ny, nz, x, y, z);
    IdxDigits(nx, ny, x, y, z);
  }

  /** The field is symmetric under reflection through the centre along each axis. */
  lemma SphereValueSymmetric(nx: int, ny: int, nz: int, x: int, y: int, z: int)
    ensures SphereValue(nx, ny, nz, nx - 1 - x, y, z) == SphereValue(nx, ny, nz, x, y, z)
    ensures SphereValue(nx, ny, nz, x, ny - 1 - y, z) == SphereValue(nx, ny, nz, x, y, z)
    ensures SphereValue(nx, ny, nz, x, y, nz - 1 - z) == SphereValue(nx, ny, nz, x, y, z)
  {
    assert (nx - 1 - x) as real - Centre(nx) == -(x as real - Centre(nx));
    assert (ny - 1 - y) as real - Centre(ny) == -(y as real - Centre(ny));
    assert (nz - 1 - z) as real - Centre(nz) == -(z as real - Centre(nz));
  }

  lemma SquareNonNegative(r: real)
    ensures r * r >= 0.0
  {
    if r < 0.0 {
      assert r * r == (-r) * (-r);
    }
  }

  /** The field is never below `-R * R`, its value at the centre. */
  lemma SphereValueAtLeast(nx: int, ny: int, nz: int, x: int, y: int, z: int)
    ensures SphereValue(nx, ny, nz, x, y, z) >= -(Radius(nx, ny, nz) * Radius(nx, ny, nz))
  {
    SquareNonNegative(x as real - Centre(nx));
    SquareNonNegative(y as real - Centre(ny));
    SquareNonNegative(z as real - Centre(nz));
  }

  /**
   * `generateField`: a buffer of `nx * ny * nz` values, the sample at
   * `(x, y, z)` written at position `idx(x, y, z)`, `x` innermost.
   */
  method GenerateField(nx: int, ny: int, nz: int) returns (f: array<real>)
    requires nx >= 0 && ny >= 0 && nz >= 0
    ensures fresh(f)
    ensures f[..] == SphereField(nx, ny, nz)
  {
    MulLeft(nx, 0, ny);
    MulLeft(nx * ny, 0, nz);
    f := new real[nx * ny * nz];
    ghost var target := SphereField(nx, ny, nz);
    ghost var done := 0;
    IdxSteps(nx, ny, 0, 0, 0);
    for z := 0 to nz
      invariant done == Idx(nx, ny, 0, 0, z)
      invariant done <= f.Length && forall m | 0 <= m < done :: f[m] == target[m]
    {
      for y := 0 to ny
        invariant done == Idx(nx, ny, 0, y, z)
        invariant done <= f.Length && forall m | 0 <= m < done :: f[m] == target[m]
      {
        for x := 0 to nx
          invariant done == Idx(nx, ny, x, y, z)
          invariant done <= f.Length && forall m | 0 <= m < done :: f[m] == target[m]
        {
          SphereFieldAt(nx, ny, nz, x, y, z);
          IdxSteps(nx, ny, x, y, z);
          f[Idx(nx, ny, x, y, z)] := SphereValue(nx, ny, nz, x, y, z);
          done := done + 1;
        }
        IdxSteps(nx, ny, nx, y, z);
      }
      IdxSteps(nx, ny, 0, ny, z);
    }
    IdxEnd(nx, ny, nz);
  }


  // ----- One cell -------------------------------------------------------------

  /** The triangle type of the demo. */
  type Triangle = Tri<Point3>

  /**
   * The vertex list: slot `e` interpolated along edge `e` when bit `e` of
   * `mask` is set. The demo leaves the other slots uninitialised; they hold
   * the origin here and are never read under `ConsistentTables`.
   */
  function DemoVertList(corners: seq<Point3>, values: seq<real>, mask: int, iso: real): (vs: seq<Point3>)
    requires |corners| == 8 && |values| == 8
    ensures |vs| == 12
  {
    seq(12, e requires 0 <= e < 12 =>
      if HasBit(mask, e) then
        VertexInterp(iso, corners[EdgeStart(e)], corners[EdgeEnd(e)], values[EdgeStart(e)], values[EdgeEnd(e)])
      else Origin)
  }

  /**
   * A triangle-table row the demo's emission loop can walk: a sentinel at a
   * triple boundary, every entry before it an edge number, and every edge
   * used marked in the row's edge-table entry, so that only computed slots
   * of the vertex list are read.
   */
  predicate RowConsistent(row: seq<int>, mask: int) {
    ScanRow(row, 0).Some? &&
    forall j | 0 <= j < |ScanRow(row, 0).value| :: Marked(mask, ScanRow(row, 0).value[j])
  }

  /** What the demo needs of the tables it includes: 256 entries, consistent rows. */
  predicate ConsistentTables(et: seq<int>, tt: seq<seq<int>>) {
    |et| == 256 && |tt| == 256 &&
    forall ci | 0 <= ci < 256 :: et[ci] != 0 ==> RowConsistent(tt[ci], et[ci])
  }

  /** Every edge-table entry marks exactly the edges whose two corners are on different sides. */
  predicate MasksCrossings(et: seq<int>) {
    |et| == 256 && forall ci | 0 <= ci < 256 :: et[ci] == CrossingMask(ci)
  }

  /** The edge table of the point-cloud program has that property. */
  lemma EdgeTableMasksCrossings()
    ensures MasksCrossings(seq(256, ci requires 0 <= ci < 256 => EdgeTable(ci)))
  {
    forall ci | 0 <= ci < 256
      ensures EdgeTable(ci) == CrossingMask(ci)
    {
      EdgeTableIsCrossingMask(ci);
    }
  }

  /** The triangles of cell `(x, y, z)`: none when its edge-table entry is 0. */
  function CellTriangles(s: Samples, order: CornerOrder, et: seq<int>, tt: seq<seq<int>>, iso: real, x: int, y: int, z: int): seq<Triangle>
    requires WellSized(s) && ConsistentTables(et, tt)
    requires 0 <= x < s.nx - 1 && 0 <= y < s.ny - 1 && 0 <= z < s.nz - 1
  {
    CubeTriangles(CellCorners(order, x, y, z), CellValues(s, order, x, y, z), et, tt, iso)
  }

  /**
   * The triangles of a cube with corners `p` and corner values `val`: none
   * when its edge-table entry is 0, otherwise one per triple of its
   * triangle-table row before the sentinel.
   */
  function CubeTriangles(p: seq<Point3>, val: seq<real>, et: seq<int>, tt: seq<seq<int>>, iso: real): seq<Triangle>
    requires |p| == 8 && |val| == 8 && ConsistentTables(et, tt)
  {
    var ci := CubeIndex(val, iso);
    var mask := et[ci];
    if mask == 0 then []
    else
      ScanRowSound(tt[ci], 0);
      TrianglesOf(ScanRow(tt[ci], 0).value, DemoVertList(p, val, mask, iso))
  }

  /** A vertex-list slot whose bit is set in a crossing mask holds a point on a crossed edge. */
  lemma MarkedSlotOnCrossedEdge(corners: seq<Point3>, values: seq<real>, iso: real, e: int)
    requires |corners| == 8 && |values| == 8 && 0 <= e < 12
    requires HasBit(CrossingMask(CubeIndex(values, iso)), e)
    ensures OnCrossedEdge(DemoVertList(corners, values, CrossingMask(CubeIndex(values, iso)), iso)[e], corners, values, iso)
  {
    var ci := CubeIndex(values, iso);
    var a, b := EdgeStart(e), EdgeEnd(e);
    CrossingMaskMarksCrossedEdges(ci, e);
    CubeIndexBits(values, iso, a);
    CubeIndexBits(values, iso, b);
    VertexInterpOnSegment(iso, corners[a], corners[b], values[a], values[b]);
  }

  /**
   * With an edge table that marks the crossed edges, every vertex of every
   * triangle of a cell lies on the segment between the two corners of an
   * edge of the list whose ends are on different sides of the level, under
   * either corner order. Under the demo's own order that segment is a face
   * diagonal for edges 1, 3, 5 and 7 (`DemoOddEdgesAreDiagonals`); under
   * the edge list's order it is an edge of the cell (`CellEdgesAreUnitSteps`).
   */
  lemma CellTrianglesOnCrossedEdges(s: Samples, order: CornerOrder, et: seq<int>, tt: seq<seq<int>>, iso: real, x: int, y: int, z: int)
    requires WellSized(s) && ConsistentTables(et, tt) && MasksCrossings(et)
    requires 0 <= x < s.nx - 1 && 0 <= y < s.ny - 1 && 0 <= z < s.nz - 1
    ensures forall n | 0 <= n < |CellTriangles(s, order, et, tt, iso, x, y, z)| ::
      TriangleOnCrossedEdges(CellTriangles(s, order, et, tt, iso, x, y, z)[n], CellCorners(order, x, y, z), CellValues(s, order, x, y, z), iso)
  {
    var corners, values := CellCorners(order, x, y, z), CellValues(s, order, x, y, z);
    var ci := CubeIndex(values, iso);
    var mask := et[ci];
    if mask != 0 {
      var ts := ScanRow(tt[ci], 0).value;
      ScanRowSound(tt[ci], 0);
      var vl := DemoVertList(corners, values, mask, iso);
      forall n | 0 <= n < |ts|
        ensures TriangleOnCrossedEdges(TrianglesOf(ts, vl)[n], corners, values, iso)
      {
        assert Marked(mask, ts[n]);
        MarkedSlotOnCrossedEdge(corners, values, iso, ts[n].a);
        MarkedSlotOnCrossedEdge(corners, values, iso, ts[n].b);
        MarkedSlotOnCrossedEdge(corners, values, iso, ts[n].c);
      }
    }
  }

  // ----- The whole grid -------------------------------------------------------

  /** The triangle lists of cells `(0, y, z)` to `(nx - 2, y, z)`. */
  function RowCells(s: Samples, order: CornerOrder, et: seq<int>, tt: seq<seq<int>>, iso: real, y: int, z: int): (cells: seq<seq<Triangle>>)
    requires WellSized(s) && ConsistentTables(et, tt)
    requires 0 <= y < s.ny - 1 && 0 <= z < s.nz - 1
    ensures |cells| == Cells(s.nx)
  {
    seq(Cells(s.nx), x requires 0 <= x < Cells(s.nx) => CellTriangles(s, order, et, tt, iso, x, y, z))
  }

  function RowTriangles(s: Samples, order: CornerOrder, et: seq<int>, tt: seq<seq<int>>, iso: real, y: int, z: int): seq<Triangle>
    requires WellSized(s) && ConsistentTables(et, tt)
    requires 0 <= y < s.ny - 1 && 0 <= z < s.nz - 1
  {
    Concat(RowCells(s, order, et, tt, iso, y, z))
  }

  /** The triangle lists of rows `(0, z)` to `(ny - 2, z)`. */
  function PlaneRows(s: Samples, order: CornerOrder, et: seq<int>, tt: seq<seq<int>>, iso: real, z: int): (rows: seq<seq<Triangle>>)
    requires WellSized(s) && ConsistentTables(et, tt)
    requires 0 <= z < s.nz - 1
    ensures |rows| == Cells(s.ny)
  {
    seq(Cells(s.ny), y requires 0 <= y < Cells(s.ny) => RowTriangles(s, order, et, tt, iso, y, z))
  }

  function PlaneTriangles(s: Samples, order: CornerOrder, et: seq<int>, tt: seq<seq<int>>, iso: real, z: int): seq<Triangle>
    requires WellSized(s) && ConsistentTables(et, tt)
    requires 0 <= z < s.nz - 1
  {
    Concat(PlaneRows(s, order, et, tt, iso, z))
  }

  /** The triangle lists of planes `0` to `nz - 2`. */
  function MeshPlanes(s: Samples, order: CornerOrder, et: seq<int>, tt: seq<seq<int>>, iso: real): (planes: seq<seq<Triangle>>)
    requires WellSized(s) && ConsistentTables(et, tt)
    ensures |planes| == Cells(s.nz)
  {
    seq(Cells(s.nz), z requires 0 <= z < Cells(s.nz) => PlaneTriangles(s, order, et, tt, iso, z))
  }

  /** The triangles of the whole grid, cells visited with `z` outermost and `x` innermost. */
  function MeshTriangles(s: Samples, order: CornerOrder, et: seq<int>, tt: seq<seq<int>>, iso: real): seq<Triangle>
    requires WellSized(s) && ConsistentTables(et, tt)
  {
    Concat(MeshPlanes(s, order, et, tt, iso))
  }

  /** `t` has its vertices on crossed edges of some cell of the grid. */
  ghost predicate FromSomeCell(s: Samples, order: CornerOrder, iso: real, t: Triangle)
    requires WellSized(s)
  {
    exists x, y, z | 0 <= x < s.nx - 1 && 0 <= y < s.ny - 1 && 0 <= z < s.nz - 1 ::
      TriangleOnCrossedEdges(t, CellCorners(order, x, y, z), CellValues(s, order, x, y, z), iso)
  }

  lemma CellTriangleFromCell(s: Samples, order: CornerOrder, et: seq<int>, tt: seq<seq<int>>, iso: real, x: int, y: int, z: int, t: Triangle)
    requires WellSized(s) && ConsistentTables(et, tt) && MasksCrossings(et)
    requires 0 <= x < s.nx - 1 && 0 <= y < s.ny - 1 && 0 <= z < s.nz - 1
    requires t in CellTriangles(s, order, et, tt, iso, x, y, z)
    ensures FromSomeCell(s, order, iso, t)
  {
    CellTrianglesOnCrossedEdges(s, order, et, tt, iso, x, y, z);
    var n :| 0 <= n < |CellTriangles(s, order, et, tt, iso, x, y, z)| && CellTriangles(s, order, et, tt, iso, x, y, z)[n] == t;
    assert TriangleOnCrossedEdges(t, CellCorners(order, x, y, z), CellValues(s, order, x, y, z), iso);
  }

  lemma RowTriangleFromCell(s: Samples, order: CornerOrder, et: seq<int>, tt: seq<seq<int>>, iso: real, y: int, z: int, t: Triangle)
    requires WellSized(s) && ConsistentTables(et, tt) && MasksCrossings(et)
    requires 0 <= y < s.ny - 1 && 0 <= z < s.nz - 1
    requires t in RowTriangles(s, order, et, tt, iso, y, z)
    ensures FromSomeCell(s, order, iso, t)
  {
    var cells := RowCells(s, order, et, tt, iso, y, z);
    ConcatMember(cells, t);
    var x :| 0 <= x < |cells| && t in cells[x];
    CellTriangleFromCell(s, order, et, tt, iso, x, y, z, t);
  }

  lemma PlaneTriangleFromCell(s: Samples, order: CornerOrder, et: seq<int>, tt: seq<seq<int>>, iso: real, z: int, t: Triangle)
    requires WellSized(s) && ConsistentTables(et, tt) && MasksCrossings(et)
    requires 0 <= z < s.nz - 1
    requires t in PlaneTriangles(s, order, et, tt, iso, z)
    ensures FromSomeCell(s, order, iso, t)
  {
    var rows := PlaneRows(s, order, et, tt, iso, z);
    ConcatMember(rows, t);
    var y :| 0 <= y < |rows| && t in rows[y];
    RowTriangleFromCell(s, order, et, tt, iso, y, z, t);
  }

  /**
   * With an edge table that marks the crossed edges, every vertex of every
   * triangle of the mesh lies on an edge of some cell whose two end values
   * are on different sides of the level.
   */
  lemma MeshTrianglesFromCells(s: Samples, order: CornerOrder, et: seq<int>, tt: seq<seq<int>>, iso: real)
    requires WellSized(s) && ConsistentTables(et, tt) && MasksCrossings(et)
    ensures forall t | t in MeshTriangles(s, order, et, tt, iso) :: FromSomeCell(s, order, iso, t)
  {
    forall t | t in MeshTriangles(s, order, et, tt, iso)
      ensures FromSomeCell(s, order, iso, t)
    {
      var planes := MeshPlanes(s, order, et, tt, iso);
      ConcatMember(planes, t);
      var z :| 0 <= z < |planes| && t in planes[z];
      PlaneTriangleFromCell(s, order, et, tt, iso, z, t);
    }
  }

  // ----- The loops of `marchingCubes` ---------------------------------------

  /**
   * The body of the cell loop: the corners and their values, gathered
   * corner by corner under `order`, then the cube's triangles.
   */
  method CellMesh(s: Samples, order: CornerOrder, et: seq<int>, tt: seq<seq<int>>, iso: real, x: int, y: int, z: int) returns (tris: seq<Triangle>)
    requires WellSized(s) && ConsistentTables(et, tt)
    requires 0 <= x < s.nx - 1 && 0 <= y < s.ny - 1 && 0 <= z < s.nz - 1
    ensures tris == CellTriangles(s, order, et, tt, iso, x, y, z)
  {
    ghost var corners, values := CellCorners(order, x, y, z), CellValues(s, order, x, y, z);
    var p: seq<Point3> := [];
    var val: seq<real> := [];
    for i := 0 to 8
      invariant p == corners[..i] && val == values[..i]
    {
      var d := OffsetIn(order, i);
      IdxInRange(s.nx, s.ny, s.nz, x + d.0, y + d.1, z + d.2);
      p := p + [Point3((x + d.0) as real, (y + d.1) as real, (z + d.2) as real)];
      val := val + [s.grid[Idx(s.nx, s.ny, x + d.0, y + d.1, z + d.2)]];
    }
    assert p == corners && val == values;
    tris := CubeMesh(p, val, et, tt, iso);
  }

  /**
   * The rest of the cell loop's body: cube index, the vertices of the
   * marked edges and one triangle per triple of the row up to its
   * sentinel.
   */
  method CubeMesh(p: seq<Point3>, val: seq<real>, et: seq<int>, tt: seq<seq<int>>, iso: real) returns (tris: seq<Triangle>)
    requires |p| == 8 && |val| == 8 && ConsistentTables(et, tt)
    ensures tris == CubeTriangles(p, val, et, tt, iso)
  {
    var cubeIndex := ComputeCubeIndex(val, iso);
    var mask := et[cubeIndex];
    tris := [];
    if mask == 0 {
      return;
    }
    var vertList := DemoVertList(p, val, mask, iso);
    var row := tt[cubeIndex];
    ScanRowSound(row, 0);
    ghost var all := ScanRow(row, 0).value;
    var n := 0;
    while row[n] != -1
      invariant ScanRow(row, n).Some?
      invariant forall j | 0 <= j < |ScanRow(row, n).value| :: IsEdgeTriple(ScanRow(row, n).value[j])
      invariant TrianglesOf(all, vertList) == tris + TrianglesOf(ScanRow(row, n).value, vertList)
      decreases |row| - n
    {
      var t := TripleAt(row, n);
      ScanRowSound(row, n + 3);
      TrianglesOfCons(t, ScanRow(row, n + 3).value, vertList);
      assert ScanRow(row, n).value == [t] + ScanRow(row, n + 3).value;
      tris := tris + [Tri(vertList[t.a], vertList[t.b], vertList[t.c])];
      n := n + 3;
    }
  }

  /** The `x` loop for row `(y, z)`. */
  method RowMesh(s: Samples, order: CornerOrder, et: seq<int>, tt: seq<seq<int>>, iso: real, y: int, z: int) returns (ts: seq<Triangle>)
    requires WellSized(s) && ConsistentTables(et, tt)
    requires 0 <= y < s.ny - 1 && 0 <= z < s.nz - 1
    ensures ts == RowTriangles(s, order, et, tt, iso, y, z)
  {
    ghost var parts := RowCells(s, order, et, tt, iso, y, z);
    ts := [];
    for x := 0 to Cells(s.nx)
      invariant ts == Concat(parts[..x])
    {
      var cell := CellMesh(s, order, et, tt, iso, x, y, z);
      ConcatPrefixStep(parts, x);
      ts := ts + cell;
    }
    assert parts[..Cells(s.nx)] == parts;
  }

  /** The `y` loop for plane `z`. */
  method PlaneMesh(s: Samples, order: CornerOrder, et: seq<int>, tt: seq<seq<int>>, iso: real, z: int) returns (ts: seq<Triangle>)
    requires WellSized(s) && ConsistentTables(et, tt)
    requires 0 <= z < s.nz - 1
    ensures ts == PlaneTriangles(s, order, et, tt, iso, z)
  {
    ghost var parts := PlaneRows(s, order, et, tt, iso, z);
    ts := [];
    for y := 0 to Cells(s.ny)
      invariant ts == Concat(parts[..y])
    {
      var row := RowMesh(s, order, et, tt, iso, y, z);
      ConcatPrefixStep(parts, y);
      ts := ts + row;
    }
    assert parts[..Cells(s.ny)] == parts;
  }

  /** The `z` loop: the triangles of the whole grid. */
  method MeshOf(s: Samples, order: CornerOrder, et: seq<int>, tt: seq<seq<int>>, iso: real) returns (ts: seq<Triangle>)
    requires WellSized(s) && ConsistentTables(et, tt)
    ensures ts == MeshTriangles(s, order, et, tt, iso)
  {
    ghost var parts := MeshPlanes(s, order, et, tt, iso);
    ts := [];
    for z := 0 to Cells(s.nz)
      invariant ts == Concat(parts[..z])
    {
      var plane := PlaneMesh(s, order, et, tt, iso, z);
      ConcatPrefixStep(parts, z);
      ts := ts + plane;
    }
    assert parts[..Cells(s.nz)] == parts;
  }

  /** The demo's global triangle list. */
  class Demo {
    var triangles: seq<Triangle>

    constructor()
      ensures triangles == []
    {
      triangles := [];
    }

    /**
     * `marchingCubes`: clears the list, then appends the triangles of every
     * cell, its corners numbered by the demo's bit decomposition.
     */
    method MarchingCubes(grid: seq<real>, nx: int, ny: int, nz: int, iso: real, et: seq<int>, tt: seq<seq<int>>)
      requires WellSized(Samples(grid, nx, ny, nz)) && ConsistentTables(et, tt)
      modifies this`triangles
      ensures triangles == MeshTriangles(Samples(grid, nx, ny, nz), BitOrder, et, tt, iso)
    {
      triangles := [];
      triangles := MeshOf(Samples(grid, nx, ny, nz), BitOrder, et, tt, iso);
    }

    /** The start of the program: the sphere field on a 10 by 10 by 10 grid, then its mesh at level 0.8. */
    method Start(et: seq<int>, tt: seq<seq<int>>)
      requires ConsistentTables(et, tt)
      modifies this`triangles
      ensures triangles == MeshTriangles(Samples(SphereField(DemoSize, DemoSize, DemoSize), DemoSize, DemoSize, DemoSize),
                                         BitOrder, et, tt, DemoIso)
    {
      var field := GenerateField(DemoSize, DemoSize, DemoSize);
      MarchingCubes(field[..], DemoSize, DemoSize, DemoSize, DemoIso, et, tt);
    }
  }
}
