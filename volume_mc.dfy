/**
 * The volume Marching Cubes program (marching_cubes.cpp): a volume of
 * bytes in a flat buffer with bounds-checked access, and Marching Cubes
 * over its unit cells with the corners above the iso level marked in the
 * cube index.
 *
 * Its edge table holds the same 256 values as the point-cloud program's,
 * so `CubeTables.EdgeTable` stands for it. Its triangle table has four
 * filled rows and its cube processing computes the vertices of edges 0
 * and 1 only; what the source then does is undefined, and the model says
 * so with `None`.
 */
module VolumeMc {
  import opened Geometry
  import opened Bits
  import opened CubeTables
  import opened FlatIndex

  newtype Byte = b: int | 0 <= b < 256

  /** The default iso level of `generateMesh`. */
  const DefaultIsoLevel: Byte := 127

  // ----- The volume -----------------------------------------------------------

  /** The state of a `VolumeData`: its buffer and its three dimensions. */
  datatype Volume = Volume(data: seq<Byte>, width: int, height: int, depth: int)

  /** The buffer holds one byte per voxel. */
  predicate Sized(v: Volume) {
    v.width >= 0 && v.height >= 0 && v.depth >= 0 && |v.data| == v.width * v.height * v.depth
  }

  predicate InRange(v: Volume, x: int, y: int, z: int) {
    0 <= x < v.width && 0 <= y < v.height && 0 <= z < v.depth
  }

  /** Position of voxel `(x, y, z)`: `z * width * height + y * width + x`. */
  function Position(v: Volume, x: int, y: int, z: int): int {
    z * v.width * v.height + y * v.width + x
  }

  /** The position is the flat index with `x` fastest, and it lies inside the buffer. */
  lemma PositionInRange(v: Volume, x: int, y: int, z: int)
    requires Sized(v) && InRange(v, x, y, z)
    ensures Position(v, x, y, z) == Idx(v.width, v.height, x, y, z)
    ensures 0 <= Position(v, x, y, z) < |v.data|
  {
    var w, h := v.width, v.height;
    assert z * w * h == w * (h * z);
    assert w * (y + h * z) == w * y + w * (h * z);
    IdxInRange(v.width, v.height, v.depth, x, y, z);
  }

  /** `getValue`: the byte of an in-range voxel, 0 for any other coordinate. */
  function Read(v: Volume, x: int, y: int, z: int): Byte
    requires Sized(v)
  {
    if InRange(v, x, y, z) then
      PositionInRange(v, x, y, z);
      v.data[Position(v, x, y, z)]
    else 0
  }

  /** `setValue`: the byte of an in-range voxel replaced; any other coordinate changes nothing. */
  function Write(v: Volume, x: int, y: int, z: int, value: Byte): (w: Volume)
    requires Sized(v)
    ensures Sized(w) && w.width == v.width && w.height == v.height && w.depth == v.depth
  {
    if InRange(v, x, y, z) then
      PositionInRange(v, x, y, z);
      v.(data := v.data[Position(v, x, y, z) := value])
    else v
  }

  /**
   * Reading after writing gives the byte written at the voxel written and
   * the old byte everywhere else; a write out of range is not seen at all.
   */
  lemma ReadAfterWrite(v: Volume, x: int, y: int, z: int, value: Byte, x2: int, y2: int, z2: int)
    requires Sized(v)
    ensures Read(Write(v, x, y, z, value), x2, y2, z2) ==
      if InRange(v, x, y, z) && x == x2 && y == y2 && z == z2 then value else Read(v, x2, y2, z2)
  {
    if InRange(v, x, y, z) && InRange(v, x2, y2, z2) {
      PositionInRange(v, x, y, z);
      PositionInRange(v, x2, y2, z2);
      IdxInjective(v.width, v.height, x, y, z, x2, y2, z2);
    }
  }

  /** A write out of range leaves the volume as it was. */
  lemma WriteOutOfRangeKeepsVolume(v: Volume, x: int, y: int, z: int, value: Byte)
    requires Sized(v) && !InRange(v, x, y, z)
    ensures Write(v, x, y, z, value) == v
  {
  }

  /** The volume the constructor makes: `w * h * d` zero bytes. */
  function Blank(w: int, h: int, d: int): (v: Volume)
    requires w >= 0 && h >= 0 && d >= 0
    ensures Sized(v) && v.width == w && v.height == h && v.depth == d
  {
    MulLeft(w, 0, h);
    MulLeft(w * h, 0, d);
    Volume(seq(w * h * d, _ => 0), w, h, d)
  }

  /** Every voxel of a new volume reads as 0. */
  lemma BlankReadsZero(w: int, h: int, d: int, x: int, y: int, z: int)
    requires w >= 0 && h >= 0 && d >= 0
    ensures Read(Blank(w, h, d), x, y, z) == 0
  {
    if InRange(Blank(w, h, d), x, y, z) {
      PositionInRange(Blank(w, h, d), x, y, z);
    }
  }

  /** `VolumeData`: the buffer and dimensions, the buffer written in place by `setValue`. */
  class VolumeData {
    var data: seq<Byte>
    var width: int
    var height: int
    var depth: int

    function Contents(): Volume
      reads this
    {
      Volume(data, width, height, depth)
    }

    constructor(w: int, h: int, d: int)
      requires w >= 0 && h >= 0 && d >= 0
      ensures Contents() == Blank(w, h, d)
    {
      width, height, depth := w, h, d;
      MulLeft(w, 0, h);
      MulLeft(w * h, 0, d);
      data := seq(w * h * d, _ => 0);
    }

    function GetValue(x: int, y: int, z: int): (b: Byte)
      reads this
      requires Sized(Contents())
      ensures !InRange(Contents(), x, y, z) ==> b == 0
    {
      Read(Contents(), x, y, z)
    }

    method SetValue(x: int, y: int, z: int, value: Byte)
      requires Sized(Contents())
      modifies this`data
      ensures Contents() == Write(old(Contents()), x, y, z, value)
    {
      if 0 <= x < width && 0 <= y < height && 0 <= z < depth {
        PositionInRange(Contents(), x, y, z);
        data := data[z * width * height + y * width + x := value];
      }
    }
  }

  // ----- The cube -------------------------------------------------------------

  /** `cubeVertices`: the offsets of the eight corners. */
  const CubeVertices: seq<(int, int, int)> :=
    [(0, 0, 0), (1, 0, 0), (1, 1, 0), (0, 1, 0), (0, 0, 1), (1, 0, 1), (1, 1, 1), (0, 1, 1)]

  /** `cubeEdges`: the two corners of each of the twelve edges. */
  const CubeEdges: seq<(int, int)> :=
    [(0, 1), (1, 2), (2, 3), (3, 0), (4, 5), (5, 6), (6, 7), (7, 4), (0, 4), (1, 5), (2, 6), (3, 7)]

  function Distance1(a: int, b: int): int {
    if a < b then b - a else a - b
  }

  /** Two offsets that differ by one along exactly one axis. */
  predicate Adjacent(p: (int, int, int), q: (int, int, int)) {
    Distance1(p.0, q.0) + Distance1(p.1, q.1) + Distance1(p.2, q.2) == 1
  }

  /** Every edge joins two corners that differ in exactly one coordinate. */
  lemma CubeEdgesJoinAdjacentCorners()
    ensures forall e | 0 <= e < 12 :: Adjacent(CubeVertices[CubeEdges[e].0], CubeVertices[CubeEdges[e].1])
  {
  }

  /** The two constants use the corner and edge numbering of the shared tables. */
  lemma CubeConstantsAgreeWithTables()
    ensures forall c | 0 <= c < 8 :: CubeVertices[c] == (CornerX(c), CornerY(c), CornerZ(c))
    ensures forall e | 0 <= e < 12 :: CubeEdges[e] == (EdgeStart(e), EdgeEnd(e))
  {
  }

  /** `cubeValues`: the bytes at the eight corners of cell `(x, y, z)`. */
  function CubeValues(v: Volume, x: int, y: int, z: int): (vals: seq<Byte>)
    requires Sized(v)
    ensures |vals| == 8
  {
    seq(8, i requires 0 <= i < 8 =>
      Read(v, x + CubeVertices[i].0, y + CubeVertices[i].1, z + CubeVertices[i].2))
  }

  /** `cubePositions`: the eight corners of cell `(x, y, z)`. */
  function CubePositions(x: int, y: int, z: int): (ps: seq<Point3>)
    ensures |ps| == 8
  {
    seq(8, i requires 0 <= i < 8 =>
      Point3((x + CubeVertices[i].0) as real, (y + CubeVertices[i].1) as real, (z + CubeVertices[i].2) as real))
  }

  /** Which corners lie above the iso level. */
  function AboveLevel(vals: seq<Byte>, iso: Byte): (flags: seq<bool>)
    ensures |flags| == |vals|
  {
    seq(|vals|, n requires 0 <= n < |vals| => vals[n] > iso)
  }

  /** The cube index: bit `n` set for each corner `n` above the iso level. */
  function CubeIndex(vals: seq<Byte>, iso: Byte): (ci: nat)
    ensures |vals| == 8 ==> ci < 256
  {
    FromBitsBound(AboveLevel(vals, iso));
    assert Pow2(8) == 256;
    FromBits(AboveLevel(vals, iso))
  }

  /** Bit `n` of the cube index is set exactly when corner `n` is above the level. */
  lemma CubeIndexBits(vals: seq<Byte>, iso: Byte, n: nat)
    requires |vals| == 8
    ensures HasBit(CubeIndex(vals, iso), n) <==> n < 8 && vals[n] > iso
  {
    FromBitsBits(AboveLevel(vals, iso), n);
  }

  /** The loop `cubeIndex |= (1 << i)` for every corner above the level. */
  method ComputeCubeIndex(vals: seq<Byte>, iso: Byte) returns (ci: int)
    requires |vals| == 8
    ensures ci == CubeIndex(vals, iso)
  {
    ghost var flags := AboveLevel(vals, iso);
    ci := 0;
    for i := 0 to 8
      invariant ci == FromBits(flags[..i])
    {
      FromBitsSnoc(flags[..i], flags[i]);
      assert flags[..i + 1] == flags[..i] + [flags[i]];
      if vals[i] > iso {
        // ci < 2^i, so the bitwise or adds 2^i
        ci := ci + Pow2(i);
      }
    }
    assert flags[..8] == flags;
  }

  /** All eight corners lie on the same side of the level. */
  predicate Uniform(vals: seq<Byte>, iso: Byte)
    requires |vals| == 8
  {
    (forall n | 0 <= n < 8 :: vals[n] > iso) || (forall n | 0 <= n < 8 :: !(vals[n] > iso))
  }

  /** The cube is skipped, its edge-table entry 0, exactly when it is uniform. */
  lemma SkippedExactlyWhenUniform(vals: seq<Byte>, iso: Byte)
    requires |vals| == 8
    ensures EdgeTable(CubeIndex(vals, iso)) == 0 <==> Uniform(vals, iso)
  {
    var ci := CubeIndex(vals, iso);
    var flags := AboveLevel(vals, iso);
    EdgeTableZeroExactlyWhenUniform(ci);
    assert Pow2(8) == 256;
    if forall n | 0 <= n < 8 :: vals[n] > iso {
      FromBitsConst(flags, true);
    } else if forall n | 0 <= n < 8 :: !(vals[n] > iso) {
      FromBitsConst(flags, false);
    } else {
      var a :| 0 <= a < 8 && vals[a] > iso;
      var b :| 0 <= b < 8 && !(vals[b] > iso);
      CubeIndexBits(vals, iso, a);
      CubeIndexBits(vals, iso, b);
      ZeroHasNoBits(a);
      ComplementHasBit(8, 0, b);
    }
  }

  // ----- Interpolation --------------------------------------------------------

  /** The tolerance of the closeness tests of `interpolate`. */
  const Tolerance: real := 0.00001

  /**
   * `interpolate` on byte values: `p1` when the level is within the
   * tolerance of `v1`, else `p2` when it is within it of `v2`, else `p1`
   * when the two values are that close, else the point at parameter
   * `(isolevel - v1) / (v2 - v1)` from `p1` towards `p2`.
   */
  function Interpolate(p1: Point3, p2: Point3, v1: Byte, v2: Byte, iso: Byte): Point3 {
    if Abs((iso as int - v1 as int) as real) < Tolerance then p1
    else if Abs((iso as int - v2 as int) as real) < Tolerance then p2
    else if Abs((v1 as int - v2 as int) as real) < Tolerance then p1
    else Lerp(p1, p2, ((iso as int - v1 as int) as real) / ((v2 as int - v1 as int) as real))
  }

  /** Between whole numbers the closeness test is an equality test. */
  lemma CloseIntegersAreEqual(a: int, b: int)
    ensures Abs((a - b) as real) < Tolerance <==> a == b
  {
  }

  /** On bytes the three tests of `interpolate` are exact comparisons. */
  lemma InterpolateOnBytes(p1: Point3, p2: Point3, v1: Byte, v2: Byte, iso: Byte)
    ensures iso == v1 ==> Interpolate(p1, p2, v1, v2, iso) == p1
    ensures iso != v1 && iso == v2 ==> Interpolate(p1, p2, v1, v2, iso) == p2
    ensures iso != v1 && iso != v2 && v1 == v2 ==> Interpolate(p1, p2, v1, v2, iso) == p1
    ensures iso != v1 && iso != v2 && v1 != v2 ==>
      Interpolate(p1, p2, v1, v2, iso) == Lerp(p1, p2, ((iso as int - v1 as int) as real) / ((v2 as int - v1 as int) as real))
  {
    CloseIntegersAreEqual(iso as int, v1 as int);
    CloseIntegersAreEqual(iso as int, v2 as int);
    CloseIntegersAreEqual(v1 as int, v2 as int);
  }

  /** Between values on different sides of the level, the point lies on the segment. */
  lemma InterpolateOnSegment(p1: Point3, p2: Point3, v1: Byte, v2: Byte, iso: Byte)
    requires (v1 > iso) != (v2 > iso)
    ensures OnSegment(Interpolate(p1, p2, v1, v2, iso), p1, p2)
  {
    InterpolateOnBytes(p1, p2, v1, v2, iso);
    var p := Interpolate(p1, p2, v1, v2, iso);
    if iso == v1 {
      assert p == Lerp(p1, p2, 0.0);
    } else if iso == v2 {
      assert p == Lerp(p1, p2, 1.0);
    } else {
      var a, b := (iso as int - v1 as int) as real, (v2 as int - v1 as int) as real;
      var t := a / b;
      if b > 0.0 {
        assert 0.0 < a < b;
        UnitQuotient(a, b);
      } else {
        assert b < a < 0.0;
        assert t == (-a) / (-b);
        UnitQuotient(-a, -b);
      }
      assert p == Lerp(p1, p2, t);
    }
  }

  // ----- Normals --------------------------------------------------------------

  /** A vertex of the mesh: its position and its normal. */
  datatype Vertex = Vertex(position: Point3, normal: Point3)

  type Triangle = Tri<Vertex>

  /** `calculateNormal` before normalisation: central differences, 0 outside the volume. */
  function Gradient(v: Volume, x: int, y: int, z: int): Point3
    requires Sized(v)
  {
    Point3((Read(v, x + 1, y, z) as int - Read(v, x - 1, y, z) as int) as real,
           (Read(v, x, y + 1, z) as int - Read(v, x, y - 1, z) as int) as real,
           (Read(v, x, y, z + 1) as int - Read(v, x, y, z - 1) as int) as real)
  }

  /** The conversion `(int)r`, which truncates towards zero. */
  function Trunc(r: real): int {
    if r >= 0.0 then r.Floor else -((-r).Floor)
  }

  /** The vertex at `p`, its normal taken at the voxel `(int)p`. */
  function VertexAt(v: Volume, normalize: Point3 -> Point3, p: Point3): Vertex
    requires Sized(v)
  {
    Vertex(p, normalize(Gradient(v, Trunc(p.x), Trunc(p.y), Trunc(p.z))))
  }

  // ----- Processing one cube --------------------------------------------------

  /** `triTable` as initialised: four rows, the others zero-filled. */
  function TriTable(ci: int): (row: seq<int>)
    ensures |row| == 16
  {
    match ci
    case 0 => [-1, -1, -1, -1, -1, -1, -1, -1, -1, -1, -1, -1, -1, -1, -1, -1]
    case 1 => [0, 8, 3, -1, -1, -1, -1, -1, -1, -1, -1, -1, -1, -1, -1, -1]
    case 2 => [0, 1, 9, -1, -1, -1, -1, -1, -1, -1, -1, -1, -1, -1, -1, -1]
    case 3 => [1, 8, 3, 9, 8, 1, -1, -1, -1, -1, -1, -1, -1, -1, -1, -1]
    case _ => ZeroRow
  }

  /**
   * `edgePoints`: the vertices of edges 0 and 1 when their bits are set in
   * `mask`; every other slot is left uninitialised (`None`).
   */
  function EdgePoints(ps: seq<Point3>, vals: seq<Byte>, mask: int, iso: Byte): (eps: seq<Option<Point3>>)
    requires |ps| == 8 && |vals| == 8
    ensures |eps| == 12
  {
    seq(12, e requires 0 <= e < 12 =>
      if e < 2 && HasBit(mask, e) then
        Some(Interpolate(ps[CubeEdges[e].0], ps[CubeEdges[e].1], vals[CubeEdges[e].0], vals[CubeEdges[e].1], iso))
      else None)
  }

  /** The three edges of `t` have computed slots. */
  predicate Computed(eps: seq<Option<Point3>>, t: EdgeTriple)
    requires |eps| == 12
  {
    IsEdgeTriple(t) && eps[t.a].Some? && eps[t.b].Some? && eps[t.c].Some?
  }

  /**
   * The emission loop from entry `n` of `row`: one triangle per triple up
   * to the sentinel. `None` when the loop reads past the end of the row or
   * reads an uninitialised slot, both undefined behaviour.
   */
  function Emit(v: Volume, normalize: Point3 -> Point3, row: seq<int>, eps: seq<Option<Point3>>, n: nat): Option<seq<Triangle>>
    requires Sized(v) && |eps| == 12
    decreases |row| - n
  {
    if n >= |row| then None
    else if row[n] == -1 then Some([])
    else if n + 2 >= |row| || !Computed(eps, TripleAt(row, n)) then None
    else
      var t := TripleAt(row, n);
      var tri := Tri(VertexAt(v, normalize, eps[t.a].value), VertexAt(v, normalize, eps[t.b].value),
                     VertexAt(v, normalize, eps[t.c].value));
      match Emit(v, normalize, row, eps, n + 3)
      case None => None
      case Some(ts) => Some([tri] + ts)
  }

  /** `processCube`: the triangles of cell `(x, y, z)`, `None` where the source is undefined. */
  function CubeTriangles(v: Volume, normalize: Point3 -> Point3, iso: Byte, x: int, y: int, z: int): Option<seq<Triangle>>
    requires Sized(v)
  {
    var vals := CubeValues(v, x, y, z);
    var ci := CubeIndex(vals, iso);
    if EdgeTable(ci) == 0 then Some([])
    else Emit(v, normalize, TriTable(ci), EdgePoints(CubePositions(x, y, z), vals, EdgeTable(ci), iso), 0)
  }

  /** A row of zeros has no sentinel: the loop runs past its end. */
  lemma {:induction false} EmitZeroRow(v: Volume, normalize: Point3 -> Point3, eps: seq<Option<Point3>>, n: nat)
    requires Sized(v) && |eps| == 12
    ensures Emit(v, normalize, ZeroRow, eps, n) == None
    decreases 16 - n
  {
    if n + 3 < 16 {
      EmitZeroRow(v, normalize, eps, n + 3);
    }
  }

  /**
   * With the tables as initialised, a cube has a defined outcome exactly
   * when all its corners lie on one side of the level, and that outcome is
   * no triangle: every other cube either reads past the end of a
   * zero-filled row or uses the vertex of an edge other than 0 and 1.
   */
  lemma CubeDefinedOnlyWhenUniform(v: Volume, normalize: Point3 -> Point3, iso: Byte, x: int, y: int, z: int)
    requires Sized(v)
    ensures CubeTriangles(v, normalize, iso, x, y, z).Some? <==> Uniform(CubeValues(v, x, y, z), iso)
    ensures CubeTriangles(v, normalize, iso, x, y, z).Some? ==> CubeTriangles(v, normalize, iso, x, y, z).value == []
  {
    var vals := CubeValues(v, x, y, z);
    var ci := CubeIndex(vals, iso);
    SkippedExactlyWhenUniform(vals, iso);
    if EdgeTable(ci) != 0 {
      var eps := EdgePoints(CubePositions(x, y, z), vals, EdgeTable(ci), iso);
      if ci >= 4 {
        EmitZeroRow(v, normalize, eps, 0);
      } else if ci == 1 {
        assert !eps[8].Some?;
      } else if ci == 2 {
        assert !eps[9].Some?;
      } else if ci == 3 {
        assert !eps[8].Some?;
      }
    }
  }

  /**
   * `processCube` on the triangles gathered so far: the cube's triangles
   * appended, with the cube's own loops over the corners, the cube index
   * and the triangle-table row.
   */
  method ProcessCube(v: Volume, normalize: Point3 -> Point3, x: int, y: int, z: int, iso: Byte) returns (r: Option<seq<Triangle>>)
    requires Sized(v)
    ensures r == CubeTriangles(v, normalize, iso, x, y, z)
  {
    var cubeValues := CubeValues(v, x, y, z);
    var cubePositions := CubePositions(x, y, z);
    var cubeIndex := ComputeCubeIndex(cubeValues, iso);
    var mask := EdgeTable(cubeIndex);
    if mask == 0 {
      return Some([]);
    }
    var edgePoints := EdgePoints(cubePositions, cubeValues, mask, iso);
    r := EmitTriangles(v, normalize, TriTable(cubeIndex), edgePoints);
  }

  /** The emission loop of `processCube` over one triangle-table row. */
  method EmitTriangles(v: Volume, normalize: Point3 -> Point3, row: seq<int>, edgePoints: seq<Option<Point3>>)
    returns (r: Option<seq<Triangle>>)
    requires Sized(v) && |edgePoints| == 12
    ensures r == Emit(v, normalize, row, edgePoints, 0)
  {
    var acc: seq<Triangle> := [];
    var n := 0;
    ghost var all := Emit(v, normalize, row, edgePoints, 0);
    assert all.Some? ==> acc + all.value == all.value;
    while n < |row| && row[n] != -1
      invariant Emit(v, normalize, row, edgePoints, 0) == Prepend(acc, Emit(v, normalize, row, edgePoints, n))
      decreases |row| - n
    {
      if n + 2 >= |row| || !Computed(edgePoints, TripleAt(row, n)) {
        return None;
      }
      var t := TripleAt(row, n);
      var triangle := Tri(VertexAt(v, normalize, edgePoints[t.a].value), VertexAt(v, normalize, edgePoints[t.b].value),
                          VertexAt(v, normalize, edgePoints[t.c].value));
      PrependCons(acc, triangle, Emit(v, normalize, row, edgePoints, n + 3));
      acc := acc + [triangle];
      n := n + 3;
    }
    if n >= |row| {
      return None;
    }
    assert acc + [] == acc;
    r := Some(acc);
  }

  // ----- The whole volume -----------------------------------------------------

  /**
   * The cells `generateMesh` visits, in order: `z` outermost and `x`
   * innermost, each coordinate below its dimension less one.
   */
  function VisitedCells(v: Volume): (cells: seq<(int, int, int)>)
    ensures |cells| == Cells(v.width) * Cells(v.height) * Cells(v.depth)
  {
    var w, h, d := Cells(v.width), Cells(v.height), Cells(v.depth);
    MulLeft(w, 0, h);
    MulLeft(w * h, 0, d);
    seq(w * h * d, i requires 0 <= i < w * h * d => (i % w, i / w % h, i / w / h))
  }

  /** Cell `(x, y, z)` is visited at position `x + W * (y + H * z)` of the order. */
  lemma VisitOrder(v: Volume, x: int, y: int, z: int)
    requires 0 <= x < Cells(v.width) && 0 <= y < Cells(v.height) && 0 <= z < Cells(v.depth)
    ensures Idx(Cells(v.width), Cells(v.height), x, y, z) < |VisitedCells(v)|
    ensures VisitedCells(v)[Idx(Cells(v.width), Cells(v.height), x, y, z)] == (x, y, z)
  {
    var w, h, d := Cells(v.width), Cells(v.height), Cells(v.depth);
    IdxInRange(w, h, d, x, y, z);
    IdxDigits(w, h, x, y, z);
  }

  /** The outcomes of the visited cells, in order. */
  function MeshParts(v: Volume, normalize: Point3 -> Point3, iso: Byte): (parts: seq<Option<seq<Triangle>>>)
    requires Sized(v)
    ensures |parts| == |VisitedCells(v)|
  {
    var cells := VisitedCells(v);
    seq(|cells|, i requires 0 <= i < |cells| => CubeTriangles(v, normalize, iso, cells[i].0, cells[i].1, cells[i].2))
  }

  /** `generateMesh`: the triangles of every visited cell, in order. */
  function Mesh(v: Volume, normalize: Point3 -> Point3, iso: Byte): Option<seq<Triangle>>
    requires Sized(v)
  {
    JoinAll(MeshParts(v, normalize, iso))
  }

  /**
   * With the tables as initialised, `generateMesh` has a defined outcome
   * exactly when every visited cell is uniform, and it is then the empty
   * mesh.
   */
  lemma MeshDefinedOnlyWhenEmpty(v: Volume, normalize: Point3 -> Point3, iso: Byte)
    requires Sized(v)
    ensures Mesh(v, normalize, iso).Some? <==>
      forall i | 0 <= i < |VisitedCells(v)| ::
        Uniform(CubeValues(v, VisitedCells(v)[i].0, VisitedCells(v)[i].1, VisitedCells(v)[i].2), iso)
    ensures Mesh(v, normalize, iso).Some? ==> Mesh(v, normalize, iso).value == []
  {
    var cells := VisitedCells(v);
    var parts := MeshParts(v, normalize, iso);
    forall i | 0 <= i < |cells|
      ensures parts[i].Some? <==> Uniform(CubeValues(v, cells[i].0, cells[i].1, cells[i].2), iso)
      ensures parts[i].Some? ==> parts[i] == Some([])
    {
      CubeDefinedOnlyWhenUniform(v, normalize, iso, cells[i].0, cells[i].1, cells[i].2);
    }
    JoinAllDefined(parts);
  }

  /** The cell loops of `generateMesh` on a snapshot of the volume. */
  method MeshOf(v: Volume, normalize: Point3 -> Point3, iso: Byte) returns (r: Option<seq<Triangle>>)
    requires Sized(v)
    ensures r == Mesh(v, normalize, iso)
  {
    var w, h, d := Cells(v.width), Cells(v.height), Cells(v.depth);
    ghost var cells := VisitedCells(v);
    ghost var parts := MeshParts(v, normalize, iso);
    ghost var done := 0;
    IdxSteps(w, h, 0, 0, 0);
    r := Some([]);
    for z := 0 to d
      invariant done == Idx(w, h, 0, 0, z) && done <= |parts|
      invariant r == JoinAll(parts[..done])
    {
      for y := 0 to h
        invariant done == Idx(w, h, 0, y, z) && done <= |parts|
        invariant r == JoinAll(parts[..done])
      {
        for x := 0 to w
          invariant done == Idx(w, h, x, y, z) && done <= |parts|
          invariant r == JoinAll(parts[..done])
        {
          VisitOrder(v, x, y, z);
          IdxSteps(w, h, x, y, z);
          var cube := ProcessCube(v, normalize, x, y, z, iso);
          JoinAllPrefixStep(parts, done);
          r := if r.Some? && cube.Some? then Some(r.value + cube.value) else None;
          done := done + 1;
        }
        IdxSteps(w, h, w, y, z);
      }
      IdxSteps(w, h, 0, h, z);
    }
    IdxEnd(w, h, d);
    assert parts[..done] == parts;
  }

  /** `generateMesh` on a volume object. */
  method GenerateMesh(volume: VolumeData, normalize: Point3 -> Point3, iso: Byte) returns (r: Option<seq<Triangle>>)
    requires Sized(volume.Contents())
    ensures r == Mesh(volume.Contents(), normalize, iso)
  {
    r := MeshOf(volume.Contents(), normalize, iso);
  }
}
