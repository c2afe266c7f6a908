# Surface reconstruction from point clouds and image stacks, in Dafny

A model of the reconstruction code of a small C++ repository. The repository
turns a stack of binarised TIFF slices into a point cloud and builds
triangle meshes from clouds and volumes. Each source file becomes one module
here:

- **EdgeExtraction** (`edge_extraction.dfy`, from `extraccion.cpp`): the
  8-neighbour edge-pixel test. It also models the manual and range-clamped
  extraction of `(col, rows - row, slice)` points and the bounding box
  printed by the statistics.
- **PointCloudMc** (`pointcloud_mc.dfy`, from `marchingCubes/main.cpp`):
  point-cloud Marching Cubes. It covers the padded bounding box, the dense
  grid of nearest-point distances, edge interpolation, `value < iso`
  classification, emission in `i, j, k` order and the per-occurrence
  centroid. The class `MarchingCubes` keeps the source's fields. The
  program's mesh (`MeshTriangles`) follows the `triTable` scan as written:
  a cell whose scan runs past its row makes the mesh undefined, and a slot
  of the vertex list whose edge is unmarked holds the default point
  `(0, 0, 0)`. The mesh of the corrected scan is `GuardedMesh`, and the two
  are proved equal wherever every cell's scan is well formed.
- **CubeTables**, **Classify**, **Bits** (`cube_tables.dfy`, `classify.dfy`,
  `bits.dfy`): Bourke's corner and edge numbering and the two tables of
  `marchingCubes/main.cpp`, transcribed verbatim. The 256-entry `edgeTable`
  is proved equal to the crossing mask of every cube index. The
  `triTable` scan `ScanRow` runs as written, until a `-1`; it yields
  nothing when it leaves the row. `GuardedScan` is the corrected scan,
  which stops at the row's end and keeps only triples of marked edges.
- **GridMc** (`grid_mc.dfy`, from `marchingCubes/mc_demo.cpp`): the demo
  on a flat sample buffer. It covers the `idx` lambda, the bit-decomposed
  corner offsets, `vertexInterp`, the sphere field generator and the
  global triangle list. The demo meshes with its own corner order
  (`BitOrder`). Bourke's order (`EdgeListOrder`) is the corrected
  alternative, and every cell function takes the order as a parameter.
  `mc_demo.cpp` takes its tables from `marching_cubes_tables.h` (line 7),
  which the model does not transcribe; its tables are parameters under
  `ConsistentTables`.
- **FlatIndex** (`flat_index.dfy`): the flat index `x + nx*(y + ny*z)`,
  shared by the demo and the volume code.
- **VolumeMc** (`volume_mc.dfy`, from `marching_cubes.cpp`): the
  bounds-checked byte volume (`VolumeData`), `value > iso` classification
  and byte interpolation. It also covers the stub triangle table, which
  has four rows.
- **Pivoting** (`ball_pivoting.dfy`, from `ball_pivoting.cpp`): normalised
  undirected edges and their order. It also covers the first accepted
  seed triple, the active/processed edge worklist of `generateMesh` and
  the centroid.
- **Delaunay** (`delaunay.dfy`, from `visualizador_delaunay.cpp`): the
  Bowyer-Watson combinatorics. It covers tetrahedron faces, the
  super-tetrahedron index layout, the cavity boundary (faces seen exactly
  once), re-tetrahedralisation, removal of invalid tetrahedra and surface
  extraction with the index shift by 4.
- **Analyzer** (`analyzer.dfy`, from `analizer.cpp`): point statistics.
  It covers nearest-neighbour distances, all pairwise distances, sorted
  summaries, the bounding box, recommended radii, the local density report
  that closes the distribution analysis (neighbour counts within a search
  radius), the radius sweep and the triangle validity guard.
- **Viewer** (`viewer.dfy`, from `visualizador.cpp`): the lexicographic
  point order, the bounds, the height-to-colour ramp and the vertices and
  z-layers built by `generateMeshFromPoints`.

**How values are modelled**

- Floats and doubles are `real`. Decimal constants are exact decimals, and
  `DBL_MAX` is its exact value.
- Geometric predicates are function parameters (oracles). So are `sqrt`,
  the distance function, `glm::normalize`, the in-sphere test, the
  ball-fit test, the pivot angle and the seed acceptance test.
- Undefined behaviour becomes `None`: reading past a table row, an
  uninitialised edge-point slot of `marching_cubes.cpp`, a division by
  zero in the colour ramp. In `marchingCubes/main.cpp` an unset slot of the
  vertex list is not undefined: `Point3D`'s constructor makes it
  `(0, 0, 0)`.

**Behaviour of the code worth knowing**

- `calculateBounds` (`marchingCubes/main.cpp:287-306`) pads every axis by
  the fixed 0.1.
- On an empty cloud it returns early and leaves the bounds as they were.
- The point-cloud Marching Cubes (`marchingCubes/main.cpp:383-393`) uses
  Bourke's corner numbering, under which corner 2 is `(1,1,0)`.
  `mc_demo.cpp:41` numbers corners by bits, `(c&1, (c>>1)&1, (c>>2)&1)`;
  the consequence is reported under Findings.
- `createScalarField` (`marchingCubes/main.cpp:324-355`) fills the field
  with an OpenMP parallel loop. Each node's value depends only on its own
  indices, so the model fills it sequentially.

## Model

| member | source | states |
|---|---|---|
| Geometry.LowerIsTightBound | visualizador.cpp:293-307 | the componentwise minimum lies below every point, and each of its coordinates is attained by some point |
| Geometry.UpperIsTightBound | visualizador.cpp:293-307 | the componentwise maximum lies above every point, and each of its coordinates is attained |
| Geometry.Bounds | visualizador_delaunay.cpp:135-142 | the min/max loop over a non-empty cloud yields exactly the componentwise minimum and maximum |
| Geometry.MeanInBox | ball_pivoting.cpp:283-296 | the arithmetic mean of a non-empty cloud lies inside its bounding box |
| FlatIndex.IdxInRange | marchingCubes/mc_demo.cpp:34 | for in-range coordinates, `x + nx*(y + ny*z)` lies in `[0, nx*ny*nz)` |
| FlatIndex.IdxInjective | marchingCubes/mc_demo.cpp:34 | two in-range coordinate triples share a flat index exactly when they are equal |
| FlatIndex.IdxDigits | marchingCubes/mc_demo.cpp:34 | `x`, `y` and `z` are recovered from the flat index by `%` and `/` |
| FlatIndex.IdxSteps | marchingCubes/mc_demo.cpp:79-81 | the z-outer, x-inner traversal visits consecutive flat indices, starting at 0 |
| FlatIndex.IdxEnd | marchingCubes/mc_demo.cpp:76 | the traversal ends at `nx*ny*nz`, the buffer size |
| Classify.CubeIndex | marchingCubes/main.cpp:404-409 | the index of eight corner values is below 256 |
| Classify.CubeIndexBits | marchingCubes/main.cpp:404-409 | bit `n` of the cube index is set iff `n < 8` and `values[n] < iso` (the demo, mc_demo.cpp:47, uses the same rule) |
| Classify.ComputeCubeIndex | marchingCubes/main.cpp:404-409 | the `|= (1 << i)` loop computes the cube index |
| CubeTables.CornerOffsetsAsListed | marchingCubes/main.cpp:383-393 | Bourke's corner offsets: 0 at the origin, 2 at `(1,1,0)`, 6 at `(1,1,1)`, and so on |
| CubeTables.EdgesAreUnitSteps | marchingCubes/main.cpp:415-438 | each of the 12 interpolated edges joins two corners one unit apart along one axis |
| CubeTables.EdgesAreDistinct | marchingCubes/main.cpp:415-438 | no two of the 12 edges join the same pair of corners |
| CubeTables.CrossingMaskMarksCrossedEdges | marchingCubes/main.cpp:52-85 | bit `e` of the reference crossing mask is set iff `e < 12` and the ends of edge `e` are classified differently |
| CubeTables.EdgeTableIsCrossingMask | marchingCubes/main.cpp:52-85 | every one of the 256 transcribed `edgeTable` entries equals the crossing mask of its index |
| CubeTables.EdgeTableMarksCrossedEdges | marchingCubes/main.cpp:52-85 | bit `e` of `edgeTable[ci]` is set iff edge `e` joins an inside and an outside corner |
| CubeTables.EdgeTableFitsTwelveBits | marchingCubes/main.cpp:52-85 | every entry lies in `[0, 4096)` |
| CubeTables.EdgeTableComplementSymmetric | marchingCubes/main.cpp:52-85 | `edgeTable[255 - ci] == edgeTable[ci]` |
| CubeTables.EdgeTableZeroExactlyWhenUniform | marchingCubes/main.cpp:412 | an entry is 0, so the cell is skipped, iff the index is 0 or 255 |
| CubeTables.TriTable | marchingCubes/main.cpp:89-245 | every row of the transcribed table has 16 entries |
| CubeTables.UnfilledRowsAreZero | marchingCubes/main.cpp:89-245 | the initialiser stops after row 150, so rows 151 to 255 are all zeros |
| CubeTables.ScanRowSound | marchingCubes/main.cpp:442-448 | when the as-written `!= -1` scan stays inside the row, it yields the triples before the first `-1` at a multiple of three |
| CubeTables.ScanRowComplete | marchingCubes/main.cpp:442-448 | conversely, such a terminated list of triples is what the scan yields |
| CubeTables.GuardedScan | marchingCubes/main.cpp:442-448 | the corrected scan keeps only triples whose edges are all marked in the mask and never reads past the row |
| CubeTables.GuardedScanAgrees | marchingCubes/main.cpp:442-448 | on every row the as-written scan handles with marked edges only, the corrected scan gives the same triples |
| CubeTables.UnfilledRowsOverrun | marchingCubes/main.cpp:442 | for cube indices 151 to 255 the as-written scan runs past the row's 16 entries |
| CubeTables.Row64UsesUncrossedEdge | marchingCubes/main.cpp:155 | row 64 lists the triple `(11, 7, 8)` although bit 11 of `edgeTable[64]` is clear |
| PointCloudMc.GridEnds | marchingCubes/main.cpp:334-338 | node 0 lies at the lower bound and node `R - 1` at the upper bound |
| PointCloudMc.GridStep | marchingCubes/main.cpp:334-338 | consecutive nodes are one spacing `range / (R - 1)` apart |
| PointCloudMc.GridCoordInRange | marchingCubes/main.cpp:334-338 | every node coordinate lies between the bounds |
| PointCloudMc.GridNodesInBox | marchingCubes/main.cpp:334-338 | every grid node lies inside the box spanned by the bounds |
| PointCloudMc.NearestDistanceIsMinimum | marchingCubes/main.cpp:341-348 | the running minimum is at most the distance to every cloud point and equals one of them, or stays at float max (always so for an empty cloud) |
| PointCloudMc.MinDistance | marchingCubes/main.cpp:341-348 | the inner loop computes that running minimum |
| PointCloudMc.DistanceField | marchingCubes/main.cpp:309-355 | the field has shape `R x R x R` |
| PointCloudMc.DistanceFieldEntries | marchingCubes/main.cpp:309-355 | entry `[i][j][k]` is the nearest-point distance of grid node `(i, j, k)` |
| PointCloudMc.CellCornersAreGridNodes | marchingCubes/main.cpp:383-393 | corner `c` of cell `(i, j, k)` is the node at `(i, j, k)` plus Bourke's offset of `c` |
| PointCloudMc.CornerValuesAreNodeValues | marchingCubes/main.cpp:395-402 | corner value `c` is the field entry at that node |
| PointCloudMc.InterpolateOnSegment | marchingCubes/main.cpp:357-366 | when the iso value separates the end values, the interpolated point lies on the segment |
| PointCloudMc.InterpolateReachesLevel | marchingCubes/main.cpp:357-366 | when the end values differ by at least the epsilon, the result is `p1 + t(p2 - p1)` with `val1 + t(val2 - val1) == iso` |
| PointCloudMc.MarkedSlotOnCrossedEdge | marchingCubes/main.cpp:415-438 | a vertex-list slot whose edge bit is set holds a point on a crossed edge of the cell |
| PointCloudMc.SkippedCellsAreUniform | marchingCubes/main.cpp:412 | a cell is skipped iff its eight values are all below, or all at or above, the iso value |
| PointCloudMc.CellTrianglesOnCrossedEdges | marchingCubes/main.cpp:441-447 | with the corrected scan, every vertex of every triangle of a cell lies on a crossed edge of that cell |
| PointCloudMc.MeshTrianglesFromCells | marchingCubes/main.cpp:376-378 | every triangle of the corrected mesh comes from some cell of the `(R-1)^3` grid |
| PointCloudMc.CellVerticesCrossedOrDefault | marchingCubes/main.cpp:414-447 | every vertex the program emits for a cell lies on a crossed edge of that cell or is the default point `(0, 0, 0)` of an unmarked slot (`Point3D`, main.cpp:18) |
| PointCloudMc.OverrunCellUndefined | marchingCubes/main.cpp:442-447 | a cell with cube index 151 to 254 has no defined outcome: its scan runs past the zero-filled row |
| PointCloudMc.Row64EmitsDefaultVertex | marchingCubes/main.cpp:155 | a cell with cube index 64 emits four triangles, the second starting at the default point of unmarked slot 11 |
| PointCloudMc.CellAgreesWithGuarded | marchingCubes/main.cpp:442-447 | where a cell's scan stays in its row and reads only marked slots, the program emits exactly the corrected scan's triangles |
| PointCloudMc.WrittenMeshDefined | marchingCubes/main.cpp:376-447 | the program's mesh is defined iff every cell's outcome is |
| PointCloudMc.OverrunUndefinesMesh | marchingCubes/main.cpp:376-447 | one cell with cube index 151 to 254 leaves the whole mesh undefined |
| PointCloudMc.WrittenMeshIsGuardedMesh | marchingCubes/main.cpp:376-447 | where every cell's scan is well formed, the program's mesh equals the corrected mesh |
| PointCloudMc.WrittenMeshFromCells | marchingCubes/main.cpp:376-447 | every triangle of the program's mesh has its three vertices on crossed edges of one cell, or at the default point |
| PointCloudMc.CellMesh | marchingCubes/main.cpp:383-447 | one cell's gather, classify, interpolate and `!= -1` emission yield that cell's triangles, or undefined when the scan leaves the row |
| PointCloudMc.RowMesh | marchingCubes/main.cpp:378 | the `k` loop appends the cells' triangles in `k` order, undefined as soon as one cell is |
| PointCloudMc.PlaneMesh | marchingCubes/main.cpp:377-378 | the `j` loop appends the rows in `j` order, undefined as soon as one row is |
| PointCloudMc.MeshOf | marchingCubes/main.cpp:376-378 | the `i, j, k` nested loop yields the program's mesh in traversal order |
| PointCloudMc.VerticesOf | marchingCubes/main.cpp:483-490 | a list of triangles has three vertex occurrences per triangle |
| PointCloudMc.SumVertices | marchingCubes/main.cpp:483-490 | the centroid loops sum every vertex occurrence and count them |
| PointCloudMc.CentroidInBox | marchingCubes/main.cpp:492-494 | the per-occurrence centroid lies inside the box of the triangle vertices |
| PointCloudMc.PaddedBoxEncloses | marchingCubes/main.cpp:287-306 | every point lies strictly inside the padded box, and the box is exactly 0.1 beyond some point on every side |
| PointCloudMc.MarchingCubes.constructor | marchingCubes/main.cpp:259-260 | grid size and resolution stored; empty cloud, field and triangles |
| PointCloudMc.MarchingCubes.LoadPointCloud | marchingCubes/main.cpp:263-284 | on a readable file, the cloud is replaced and the bounds are recomputed; otherwise nothing changes |
| PointCloudMc.MarchingCubes.CalculateBounds | marchingCubes/main.cpp:287-306 | non-empty cloud: bounds are the min/max padded by 0.1; empty cloud: bounds unchanged |
| PointCloudMc.MarchingCubes.CreateScalarField | marchingCubes/main.cpp:309-355 | the field becomes the nearest-distance field over the current bounds and resolution |
| PointCloudMc.MarchingCubes.RunMarchingCubes | marchingCubes/main.cpp:369-454 | where the program's mesh of the current field is defined, the triangle list is replaced by it |
| PointCloudMc.MarchingCubes.CalculateCentroid | marchingCubes/main.cpp:477-514 | origin for no triangles, otherwise the mean of all `3 * |triangles|` vertex occurrences |
| PointCloudMc.MarchingCubes.Process | marchingCubes/main.cpp:462-474 | a failed load changes nothing; otherwise the cloud, the padded bounds (unchanged for an empty cloud), the field, the program's mesh where it is defined, and the centroid |
| GridMc.DemoOffsetsSwapCorners | marchingCubes/mc_demo.cpp:40-44 | the bit-decomposed offsets agree with Bourke's for corners `i % 4 < 2` and swap corners 2 and 3 (and 6 and 7) otherwise |
| GridMc.DemoOddEdgesAreDiagonals | marchingCubes/mc_demo.cpp:52-63 | under those offsets, edges 1, 3, 5 and 7 join corners that are not one unit step apart |
| GridMc.CellEdgesAreUnitSteps | marchingCubes/mc_demo.cpp:52-63 | with the corrected corners every one of the 12 edges is a unit step |
| GridMc.CellValues | marchingCubes/mc_demo.cpp:43 | for cells with `x < nx-1`, `y < ny-1`, `z < nz-1` all eight corner reads are in bounds, in either corner order |
| GridMc.VertexInterpOnSegment | marchingCubes/mc_demo.cpp:23-28 | when the iso value separates the end values, the result lies on the segment |
| GridMc.VertexInterpReachesLevel | marchingCubes/mc_demo.cpp:23-28 | when none of the three tolerance tests fires, the result is `p1 + mu(p2 - p1)` with `valp1 + mu(valp2 - valp1) == iso` |
| GridMc.SphereField | marchingCubes/mc_demo.cpp:75-84 | the generated field has `nx*ny*nz` values |
| GridMc.SphereFieldAt | marchingCubes/mc_demo.cpp:79-81 | the entry at `idx(x, y, z)` is the squared distance to the centre minus `R^2` |
| GridMc.SphereValueSymmetric | marchingCubes/mc_demo.cpp:77-81 | the field is mirror-symmetric about the grid centre on every axis |
| GridMc.SphereValueAtLeast | marchingCubes/mc_demo.cpp:77-81 | every field value is at least `-R^2` |
| GridMc.GenerateField | marchingCubes/mc_demo.cpp:75-84 | the fill loop leaves the buffer equal to the sphere field |
| GridMc.EdgeTableMasksCrossings | marchingCubes/mc_demo.cpp:48-63 | Bourke's edge table marks exactly the crossed edges, so it meets the demo's table requirement |
| GridMc.MarkedSlotOnCrossedEdge | marchingCubes/mc_demo.cpp:51-63 | for any eight corner positions, including the demo's, a vertex-list slot whose edge bit is set holds a point on the segment between the two corners the edge list names, whose values straddle the level |
| GridMc.CellTrianglesOnCrossedEdges | marchingCubes/mc_demo.cpp:66-70 | under the demo's corner order (and under Bourke's), every emitted vertex lies on the segment between the listed corners of an edge whose values straddle the level; under the demo's order that segment is a face diagonal for edges 1, 3, 5 and 7 |
| GridMc.MeshTrianglesFromCells | marchingCubes/mc_demo.cpp:36 | every triangle of the mesh, in either corner order, comes from some cell of the grid in that sense |
| GridMc.CellMesh | marchingCubes/mc_demo.cpp:38-44 | the corner loop gathers the eight corners and values in the given order, then the cell's triangles follow |
| GridMc.CubeMesh | marchingCubes/mc_demo.cpp:46-70 | the index, vertex list and `!= -1` emission of one cube yield its triangles |
| GridMc.RowMesh | marchingCubes/mc_demo.cpp:36 | the inner `x` loop appends cells in `x` order |
| GridMc.PlaneMesh | marchingCubes/mc_demo.cpp:36 | the `y` loop appends rows in `y` order |
| GridMc.MeshOf | marchingCubes/mc_demo.cpp:36-71 | the z-outer, x-inner loop yields the mesh in traversal order |
| GridMc.Demo.constructor | marchingCubes/mc_demo.cpp:20 | the global triangle list starts empty |
| GridMc.Demo.MarchingCubes | marchingCubes/mc_demo.cpp:32-72 | the list is cleared and then holds the mesh of the given grid, its corners numbered by bit decomposition |
| GridMc.Demo.Start | marchingCubes/mc_demo.cpp:157-161 | `main` meshes the 10x10x10 sphere field at iso 0.8, with the demo's corner order |
| VolumeMc.PositionInRange | marching_cubes.cpp:85 | `z*w*h + y*w + x` is the flat index and lies inside the buffer |
| VolumeMc.Write | marching_cubes.cpp:88-92 | a write keeps the volume's dimensions and buffer size |
| VolumeMc.ReadAfterWrite | marching_cubes.cpp:81-92 | after an in-range write, that cell reads the stored byte and every other cell reads as before |
| VolumeMc.WriteOutOfRangeKeepsVolume | marching_cubes.cpp:89 | an out-of-range write leaves the volume unchanged |
| VolumeMc.Blank | marching_cubes.cpp:77-79 | a new volume has the given dimensions and `w*h*d` cells |
| VolumeMc.BlankReadsZero | marching_cubes.cpp:77-86 | every cell of a new volume reads 0 |
| VolumeMc.VolumeData.constructor | marching_cubes.cpp:77-79 | the object holds a blank `w x h x d` volume |
| VolumeMc.VolumeData.GetValue | marching_cubes.cpp:81-86 | out-of-range coordinates read 0 |
| VolumeMc.VolumeData.SetValue | marching_cubes.cpp:88-92 | the contents become the volume with that one write |
| VolumeMc.CubeEdgesJoinAdjacentCorners | marching_cubes.cpp:254-263 | every `cubeEdges` pair joins corners that differ in exactly one coordinate |
| VolumeMc.CubeConstantsAgreeWithTables | marching_cubes.cpp:254-263 | `cubeVertices` and `cubeEdges` are Bourke's corners and edges |
| VolumeMc.CubeValues | marching_cubes.cpp:200-207 | a cube has eight corner values, read through the bounds check |
| VolumeMc.CubeIndexBits | marching_cubes.cpp:210-215 | bit `n` is set iff `n < 8` and `cubeValues[n] > isolevel` |
| VolumeMc.ComputeCubeIndex | marching_cubes.cpp:210-215 | the loop computes that index |
| VolumeMc.SkippedExactlyWhenUniform | marching_cubes.cpp:218-220 | a cube is skipped iff all its values are above, or all at or below, the iso level |
| VolumeMc.CloseIntegersAreEqual | marching_cubes.cpp:158-160 | on byte differences the `< 0.00001` tests are exact equality tests |
| VolumeMc.InterpolateOnBytes | marching_cubes.cpp:156-164 | `p1` if `iso == v1`, else `p2` if `iso == v2`, else `p1` if `v1 == v2`, else `p1 + t(p2 - p1)` |
| VolumeMc.InterpolateOnSegment | marching_cubes.cpp:156-164 | when the iso level separates the end values, the result lies on the segment |
| VolumeMc.TriTable | marching_cubes.cpp:61-70 | each row has 16 entries; rows 4 to 255 are zero-filled |
| VolumeMc.EdgePoints | marching_cubes.cpp:223-231 | twelve slots; only edges 0 and 1 are ever computed |
| VolumeMc.EmitZeroRow | marching_cubes.cpp:235 | scanning a zero-filled row reaches an uncomputed slot or runs past the row, so it is undefined |
| VolumeMc.CubeDefinedOnlyWhenUniform | marching_cubes.cpp:193-250 | a cube's output is defined iff it is skipped as uniform, and then it is empty |
| VolumeMc.ProcessCube | marching_cubes.cpp:193-250 | the method computes that output |
| VolumeMc.EmitTriangles | marching_cubes.cpp:235-249 | the emission loop computes the row's triangles, or undefined |
| VolumeMc.VisitedCells | marching_cubes.cpp:181-187 | `(depth-1)(height-1)(width-1)` cells are visited |
| VolumeMc.VisitOrder | marching_cubes.cpp:181-187 | cell `(x, y, z)` is visited at position `x + (w-1)(y + (h-1)z)`, so the order is z-outer, x-inner |
| VolumeMc.MeshDefinedOnlyWhenEmpty | marching_cubes.cpp:178-190 | the mesh is defined iff every visited cube is uniform, and then it is empty |
| VolumeMc.MeshOf | marching_cubes.cpp:181-187 | the nested loop computes that mesh |
| VolumeMc.GenerateMesh | marching_cubes.cpp:178-190 | `generateMesh` on a `VolumeData` object gives the mesh of its contents |
| EdgeExtraction.ClearPixelIsNotEdge | extraccion.cpp:45 | a zero pixel is never an edge |
| EdgeExtraction.SetBorderPixelIsEdge | extraccion.cpp:56-59 | a nonzero pixel on the image border is an edge |
| EdgeExtraction.SurroundedPixelIsNotEdge | extraccion.cpp:48-67 | a pixel whose eight neighbours are all inside and nonzero is not an edge |
| EdgeExtraction.IsEdgePixel | extraccion.cpp:43-68 | the neighbour scan with early returns decides: nonzero with a zero or off-image neighbour |
| EdgeExtraction.RowPointsAreEdgePixels | extraccion.cpp:141-148 | a row emits `(col, rows - row, k)` exactly for its edge pixels |
| EdgeExtraction.ImagePointsAreEdgePixels | extraccion.cpp:140-149 | an image emits exactly its edge pixels' points |
| EdgeExtraction.ImagePointsInRange | extraccion.cpp:144-146 | emitted points have `0 <= x < cols`, `1 <= y <= rows` and `z` the slice number |
| EdgeExtraction.StackPointsFromRange | extraccion.cpp:132-151 | a point is emitted for a slice range iff it is an edge-pixel point of a slice in that range |
| EdgeExtraction.StackPointsInRange | extraccion.cpp:132-151 | every emitted point's `z` lies in the slice range, which is then non-empty |
| EdgeExtraction.RowEdgePoints | extraccion.cpp:141-148 | the column loop emits the row's points in column order |
| EdgeExtraction.ImageEdgePoints | extraccion.cpp:140-149 | the row loop emits the image's points in row order |
| EdgeExtraction.StackEdgePoints | extraccion.cpp:132-151 | the slice loop emits the points slice by slice |
| EdgeExtraction.MultiTiffEdgeExtractor.ExtractEdgePointsManual | extraccion.cpp:127-155 | the cloud is replaced by the points of all slices |
| EdgeExtraction.MultiTiffEdgeExtractor.ExtractEdgePointsRange | extraccion.cpp:189-233 | the cloud is replaced by the points of the clamped slice range |
| EdgeExtraction.MultiTiffEdgeExtractor.Statistics | extraccion.cpp:331-357 | no bounds for an empty cloud, otherwise its componentwise min and max |
| EdgeExtraction.Clamped | extraccion.cpp:193-194 | start is raised to 0 and end lowered to `totalImages - 1`, otherwise both are kept |
| EdgeExtraction.RangePointsInBothRanges | extraccion.cpp:189-233 | every point of a range extraction has `z` in the requested range and in the stack |
| Pivoting.MakeEdge | ball_pivoting.cpp:58 | the edge stores its two ends as `(min, max)` |
| Pivoting.MakeEdgeSymmetric | ball_pivoting.cpp:58 | `Edge(a, b) == Edge(b, a)` |
| Pivoting.MakeEdgeIdentifies | ball_pivoting.cpp:58 | two edges are equal iff they join the same unordered pair |
| Pivoting.EdgeLessIsStrictTotalOrder | ball_pivoting.cpp:60-63 | `operator<` is irreflexive, asymmetric, transitive and total |
| Pivoting.LeastExists | ball_pivoting.cpp:230 | a non-empty edge set has a least element |
| Pivoting.LeastIsUnique | ball_pivoting.cpp:230 | the least element is unique |
| Pivoting.LeastEdge | ball_pivoting.cpp:230 | `*activeEdges.begin()` is the least active edge |
| Pivoting.FirstSeedIsUnique | ball_pivoting.cpp:164-203 | the first accepted triple in `i < j < k` order is unique |
| Pivoting.SeedIsProper | ball_pivoting.cpp:167-170 | the seed has three distinct indices in range |
| Pivoting.FindSeed | ball_pivoting.cpp:164-203 | returns the first accepted triple, or none when no triple is accepted |
| Pivoting.FindBestCandidate | ball_pivoting.cpp:101-144 | `-1` iff no point other than the ends fits; otherwise an eligible point of least angle, the first one on ties |
| Pivoting.PivotKeepsFrontier | ball_pivoting.cpp:229-240 | one pivot step keeps the worklist invariant (active and processed disjoint, proper edges, triangles from the seed and pivots, and every edge processed so far that has an eligible point carries a triangle built on it) and only appends triangles |
| Pivoting.ProcessingShrinks | ball_pivoting.cpp:229-240 | processing an edge strictly shrinks the finite set of unprocessed index pairs, so the loop ends |
| Pivoting.BallPivoting.constructor | ball_pivoting.cpp:206 | radius stored; no points, triangles or edges |
| Pivoting.BallPivoting.SetPoints | ball_pivoting.cpp:208-210 | the points are replaced |
| Pivoting.BallPivoting.AddEdgesToActive | ball_pivoting.cpp:147-161 | the triangle's edges that are not processed join the active set; processed edges are untouched |
| Pivoting.BallPivoting.FindSeedTriangle | ball_pivoting.cpp:164-203 | found iff some triple is accepted; then the first one is appended and its edges become active |
| Pivoting.BallPivoting.GenerateMesh | ball_pivoting.cpp:212-243 | no change for fewer than 3 points or no seed; otherwise the seed, then pivoting until no edge is active: every later triangle is the best pivot on a processed edge, every triangle edge is processed, and every newly processed edge with an eligible point has its triangle; triangles only grow |
| Pivoting.BallPivoting.PivotAll | ball_pivoting.cpp:229-240 | the worklist loop ends with no active edge and keeps the invariant, so each edge it processed either has no eligible point or produced its pivot triangle |
| Pivoting.BallPivoting.PivotOnce | ball_pivoting.cpp:230-239 | pops the least active edge, marks it processed, and appends the pivot triangle and its new edges when a candidate exists |
| Pivoting.ComputeCentroid | ball_pivoting.cpp:283-296 | origin for no points, otherwise the mean, which lies in the bounding box |
| Delaunay.Contains | visualizador_delaunay.cpp:54-59 | true iff the vertex is one of the four |
| Delaunay.Faces | visualizador_delaunay.cpp:166-173 | a tetrahedron has four faces |
| Delaunay.Without | visualizador_delaunay.cpp:166-173 | a face built from three of the four vertices uses only vertices of the tetrahedron |
| Delaunay.FacesOmitOneVertex | visualizador_delaunay.cpp:166-173 | face `k` is the tetrahedron minus vertex `3 - k` |
| Delaunay.SortFace | visualizador_delaunay.cpp:213-215 | `std::sort` on a face gives an ascending reordering of it |
| Delaunay.FaceLessIsStrictTotalOrder | visualizador_delaunay.cpp:211 | the map's key order on faces is a strict total order |
| Delaunay.LeastFace | visualizador_delaunay.cpp:220 | map iteration starts at the least key |
| Delaunay.SortedListMembers | visualizador_delaunay.cpp:220-224 | iterating the map visits exactly its keys |
| Delaunay.SortedFacesOfTet | visualizador_delaunay.cpp:211-218 | every counted face is ascending and made of the tetrahedron's vertices |
| Delaunay.CountedFacesAreSortedFaces | visualizador_delaunay.cpp:211-218 | every counted face is the sorted face of some tetrahedron |
| Delaunay.CountTetFaces | visualizador_delaunay.cpp:213-217 | counting one tetrahedron adds its four sorted faces to the counts |
| Delaunay.CountFaces | visualizador_delaunay.cpp:211-218 | the map counts each sorted face as often as it occurs |
| Delaunay.OnceOnlyMembers | visualizador_delaunay.cpp:220-224 | a face is kept iff its count is 1 |
| Delaunay.OnceMembers | visualizador_delaunay.cpp:220-224 | the boundary holds exactly the faces seen once |
| Delaunay.OnceFaces | visualizador_delaunay.cpp:220-224 | the loop over the map collects the faces seen once, in key order |
| Delaunay.MarkBad | visualizador_delaunay.cpp:200-208 | valid tetrahedra whose circumsphere holds point `i` are marked invalid and collected; the others are kept |
| Delaunay.AttachFaces | visualizador_delaunay.cpp:227-229 | one new tetrahedron per boundary face, made of that face and point `i`, is appended |
| Delaunay.InsertStepShape | visualizador_delaunay.cpp:196-229 | one insertion invalidates the bad tetrahedra, keeps the others and appends only valid tetrahedra with apex `i` |
| Delaunay.ValidOnlyMembers | visualizador_delaunay.cpp:233-237 | the kept tetrahedra are exactly the valid ones |
| Delaunay.RemoveInvalid | visualizador_delaunay.cpp:233-237 | the erase-remove keeps the valid tetrahedra in order |
| Delaunay.SuperPoints | visualizador_delaunay.cpp:144-157 | four super vertices around the bounding box |
| Delaunay.SuperVerticesShiftInput | visualizador_delaunay.cpp:159-162 | once the super vertices are in front, input point `k` is point `k + 4` |
| Delaunay.ContainsSuperVertex | visualizador_delaunay.cpp:249-256 | true iff some vertex index is below 4 |
| Delaunay.InteriorMembers | visualizador_delaunay.cpp:249-256 | the counted tetrahedra are exactly those without a super vertex |
| Delaunay.InteriorFacesSkipSuperVertices | visualizador_delaunay.cpp:249-262 | every face counted for the surface has all indices at least 4 |
| Delaunay.ShiftedMembers | visualizador_delaunay.cpp:266-274 | a triangle is emitted iff it is a kept face with all indices at least 4, each index minus 4 |
| Delaunay.SurfaceIsOnceSeenInteriorFaces | visualizador_delaunay.cpp:242-278 | a triangle is on the surface iff its face, shifted up by 4, occurs exactly once among the interior tetrahedra |
| Delaunay.SurfaceIndicesAscending | visualizador_delaunay.cpp:266-274 | every surface triangle has indices `0 <= v1 <= v2 <= v3` |
| Delaunay.DelaunayTriangulator.constructor | visualizador_delaunay.cpp:72-73 | no points and no tetrahedra |
| Delaunay.DelaunayTriangulator.SetPoints | visualizador_delaunay.cpp:176-181 | the points are replaced |
| Delaunay.DelaunayTriangulator.CreateSuperTetrahedron | visualizador_delaunay.cpp:129-163 | the super vertices are prepended and tetrahedron `(0, 1, 2, 3)` is appended |
| Delaunay.DelaunayTriangulator.InsertPoint | visualizador_delaunay.cpp:196-229 | one iteration of the insertion loop |
| Delaunay.DelaunayTriangulator.Triangulate | visualizador_delaunay.cpp:183-240 | no change for fewer than 4 points; otherwise super vertices, one insertion per input point and only valid tetrahedra left |
| Delaunay.DelaunayTriangulator.ExtractSurfaceTriangles | visualizador_delaunay.cpp:242-278 | the result is the shifted once-seen faces of the interior tetrahedra |
| Delaunay.ShiftFaces | visualizador_delaunay.cpp:266-274 | the loop emits the shifted faces in order |
| Analyzer.Sort | analizer.cpp:74 | the sorted list is a permutation of the input |
| Analyzer.SortAscending | analizer.cpp:74 | the sorted list is ascending |
| Analyzer.SortedSummary | analizer.cpp:74-84 | first <= middle <= last, the ends are input values and every input lies between them |
| Analyzer.MeanOfSortedBetween | analizer.cpp:76-81 | the mean lies between the least and the greatest value |
| Analyzer.Total | analizer.cpp:76-81 | the accumulation loop sums the list |
| Analyzer.NearestIsMinimum | analizer.cpp:56-70 | the nearest distance is at most the distance to every other point and equals one of them, or stays at `DBL_MAX` |
| Analyzer.AllDistancesCount | analizer.cpp:59-63 | `allDistances` has `n(n - 1)` entries, at least `n` for two or more points |
| Analyzer.AllDistancesMembers | analizer.cpp:56-63 | `allDistances` holds exactly the distances between two different points |
| Analyzer.DistancesFrom | analizer.cpp:58-69 | the inner loop records point `i`'s distances and their running minimum |
| Analyzer.Distances | analizer.cpp:56-71 | the outer loop yields all nearest distances and all pairwise distances |
| Analyzer.NearestNonNegative | analizer.cpp:56-70 | with a non-negative distance, nearest distances are non-negative |
| Analyzer.BoundingBox | analizer.cpp:95-105 | the guarded updates yield the componentwise min and max |
| Analyzer.Recommended | analizer.cpp:130-133 | four recommended radii |
| Analyzer.Summarize | analizer.cpp:74-84 | sorted list, mean, median at `size/2`, first and last |
| Analyzer.AnalyzePointDistribution | analizer.cpp:46-149 | none for fewer than 2 points; otherwise the summaries of the nearest and all distances, the bounding box, the radii and, last, the local density report, absent iff there are fewer than 10 points |
| Analyzer.DistributionSummary | analizer.cpp:74-92 | nearest distances: min <= median <= max, min <= mean <= max, every nearest distance in between, min and max attained; all distances: min <= mean <= max, every pairwise distance in between, min and max attained by pairs of different points |
| Analyzer.RecommendedWithinNearest | analizer.cpp:78-79 | the recommended radius (one times the mean nearest distance, line 131) lies between the least and greatest nearest distance; with a non-negative distance the four radii are non-negative and grow |
| Analyzer.NeighbourCountBounds | analizer.cpp:173-182 | a neighbour count lies in `[0, n - 1]` |
| Analyzer.CountNeighbours | analizer.cpp:175-180 | the loop counts the other points within the radius |
| Analyzer.SumNearest | analizer.cpp:160-170 | the loop sums the first `m` nearest distances |
| Analyzer.NeighbourCounts | analizer.cpp:173-182 | the loop yields every point's count |
| Analyzer.AnalyzeLocalDensity | analizer.cpp:151-201 | none for fewer than 10 points; otherwise the search radius and the sorted counts with their min, max and mean |
| Analyzer.DensityBounds | analizer.cpp:184-190 | `0 <= min <= max <= n - 1` for the sorted counts |
| Analyzer.TestRadiusRange | analizer.cpp:203-214 | none for 0 steps; otherwise `steps + 1` radii, `minRadius + i * step` |
| Analyzer.SweepEnds | analizer.cpp:206-210 | the sweep starts at `minRadius` and ends at `maxRadius` |
| Analyzer.IsValidTriangle | analizer.cpp:237-255 | valid iff the area is at least `1e-10` and the circumradius `abc / 4A` is at most the ball radius |
| Viewer.PointLessIsStrictTotalOrder | visualizador.cpp:24-28 | `operator<` is a strict total order on distinct points |
| Viewer.HeightToColour | visualizador.cpp:315-328 | undefined iff the height range is flat; otherwise the components sum to 1 and red or blue is 0 |
| Viewer.ColourInUnitCube | visualizador.cpp:315-328 | heights inside the range get components in `[0, 1]` |
| Viewer.ColourRampEnds | visualizador.cpp:315-328 | blue at the lowest height, green at the middle, red at the highest |
| Viewer.Round | visualizador.cpp:443 | rounding lands within 0.5 of the height, and a tie goes away from zero, as `std::round` does |
| Viewer.LayerMembers | visualizador.cpp:441-445 | an index is in layer `key` iff its rounded height is `key` |
| Viewer.LayerAscending | visualizador.cpp:441-445 | each layer lists its indices ascending, hence each once |
| Viewer.LayersAreLayerIndices | visualizador.cpp:441-445 | the map holds exactly the non-empty layers |
| Viewer.GroupByLayer | visualizador.cpp:441-445 | the grouping loop builds that map |
| Viewer.MeshVisualizer.constructor | visualizador.cpp:53-56 | empty point, vertex and index lists |
| Viewer.MeshVisualizer.LoadPoints | visualizador.cpp:380-417 | an unreadable file changes nothing and fails; otherwise the points are replaced, the bounds recomputed (unchanged when no point was read), and the load succeeds iff a point was read |
| Viewer.MeshVisualizer.CalculateBounds | visualizador.cpp:293-307 | no change for no points; otherwise the componentwise min and max |
| Viewer.MeshVisualizer.GenerateMeshFromPoints | visualizador.cpp:419-508 | no change for fewer than 3 points; otherwise one height-coloured vertex per point, in order, no indices, and the layers |
| Viewer.VertexColoursInUnitCube | visualizador.cpp:429-435 | after the bounds are computed, every vertex colour lies in `[0, 1]`, unless all heights are equal |

## Left out

- OpenGL, GLFW, GLUT and GLEW code: shaders, buffers, render loops, camera, callbacks, `display`, `reshape`, `uploadMeshToGPU`, `OpenGLRenderer`. It is user interface and foreign calls.
- File and image input/output: the text parsing of `loadPointsFromFile` and `loadPointsFromXYZ` (including the PLY header and `#` comment lines), `TIFFProcessor::loadTIFF`, `loadMultiTiffImage` and the savers. A load is an optional point list (`PointCloudMc.MarchingCubes.LoadPointCloud`, `Viewer.MeshVisualizer.LoadPoints`) or a list of already binarised images.
- OpenCV calls (`cv::threshold`, `imreadmulti`) and the morphological branch of `extractEdgePointsRange`, whose edges come from `cv::erode`/`cv::subtract`. Library behaviour not visible here.
- OpenMP in `createScalarField`. The field is filled sequentially; each node's value is independent of the order.
- Floating-point rounding, float and double widths, NaN and infinity. Values are exact reals.
- `sqrt`, the distance, `glm::normalize` and `std::acos` are parameters.
- `inSphere`, `orient3d`, `findCircumcenter`, `isInsideBall` and the pivot angle are oracle parameters. Properties that need their geometry (empty circumspheres, Delaunay optimality) are not stated.
- `countValidTriangles` in `analizer.cpp` depends on `rand()`.
- Console output and progress printing everywhere.
- `visualizador_delaunay.cpp` does not compile as written: there is no four-argument point constructor and no `id` field. The model follows the evidently intended index logic.
- The commented-out triangulation in `generateMeshFromPoints`. The indices stay empty.
- The source keeps the `layers` map local. The model returns it from `Viewer.MeshVisualizer.GenerateMeshFromPoints` so that its contract can describe it.
- Viewer.HeightToColour: with a flat height range the source divides by zero and yields NaN colours. The model yields no colour.
- Viewer.Round: the conversion of `std::round` to `int` is not bounded to 32 bits.
- Analyzer.Sort: `std::sort` works in place and is not stable. The model sorts a value by insertion. For reals, the sorted result is the same.
- PointCloudMc.MarchingCubes.CreateScalarField: requires a resolution of at least 2. With 1 the source divides by `resolution - 1 == 0`.
- GridMc.Demo.MarchingCubes: `mc_demo.cpp` takes its tables from `marching_cubes_tables.h` (line 7), which the model does not transcribe. The tables are parameters that must be consistent: every row ends with a `-1` at a multiple of three within the row, and every edge it uses is in the mask.
- PointCloudMc.MarchingCubes.RunMarchingCubes: where a cell's scan runs past its row (cube indices 151 to 254) the source's behaviour is undefined, so the contract promises nothing about the triangle list then. The model leaves the list empty.
- PointCloudMc.MarchingCubes.Process: promises nothing about the triangles when the mesh is undefined, for the same reason.
- The reads past a `triTable` row are undefined in C++. The model does not follow them into the next row in memory.
- VolumeMc.EdgePoints: edges 2 to 11 are never computed, as in the source. Reading such a slot is undefined and gives no mesh.
- Pivoting.BallPivoting.GenerateMesh: requires the worklist invariant that holds after construction (active edges proper and disjoint from processed ones).
- `calculateNormal` in `marching_cubes.cpp` is the central-difference `VolumeMc.Gradient`, and `glm::normalize` is a parameter. The `(int)` cast of vertex positions is `VolumeMc.Trunc`.

## Findings

| source | as written | input that shows it | evidently intended | confidence | as-written member | corrected member |
|---|---|---|---|---|---|---|
| marchingCubes/main.cpp:89-245 | the `triTable` initialiser holds 151 rows, so rows 151 to 255 are zero-filled; the `!= -1` scan at line 442 never meets a sentinel and reads past the row's 16 entries | a cell whose cube index is 151 or more, e.g. corners 0, 1, 2, 4 and 7 below the iso value (index 151) | all 256 rows, each ending with `-1` inside the row, so the scan stays in bounds | high, not executed | PointCloudMc.OverrunUndefinesMesh | CubeTables.GuardedScan |
| marchingCubes/main.cpp:155 | row 64 and later rows use edges that `edgeTable` does not mark; row 64 has the triple `(11, 7, 8)` while `edgeTable[64]` marks only edges 5, 6 and 10, so a vertex comes from an uninterpolated slot | a cell where only corner 6 is below the iso value (cube index 64) | every triangle vertex is the interpolated crossing of a crossed edge | high, not executed | PointCloudMc.Row64EmitsDefaultVertex | PointCloudMc.CellTrianglesOnCrossedEdges |
| marchingCubes/mc_demo.cpp:41 | corners are numbered by bit decomposition, so corner 2 is `(0,1,0)` and corner 3 is `(1,1,0)`; with Bourke's edge list, edges 1, 3, 5 and 7 become face diagonals | any cell: edge 1 joins `(x+1, y, z)` with `(x, y+1, z)` | Bourke's corner order (corner 2 at `(1,1,0)`, corner 3 at `(0,1,0)`), so that every edge is a cube edge | medium (the demo's tables come from `marching_cubes_tables.h`, not transcribed here), not executed | GridMc.DemoOddEdgesAreDiagonals | GridMc.CellEdgesAreUnitSteps |
