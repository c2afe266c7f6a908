/**
 * The point-cloud viewer of visualizador.cpp, without its OpenGL side:
 * the lexicographic point order, the bounding box kept in `minBounds` and
 * `maxBounds`, the height-to-colour ramp, and the vertices and z-layers
 * built by `generateMeshFromPoints`.
 */
module Viewer {
  import opened Geometry

  // ----- Point order ----------------------------------------------------------

  /** `Point3D::operator<`: by `x`, then `y`, then `z`. */
  predicate PointLess(p: Point3, q: Point3) {
    if p.x != q.x then p.x < q.x
    else if p.y != q.y then p.y < q.y
    else p.z < q.z
  }

  /** The order is irreflexive, transitive and total on distinct points. */
  lemma PointLessIsStrictTotalOrder(p: Point3, q: Point3, r: Point3)
    ensures !PointLess(p, p)
    ensures PointLess(p, q) && PointLess(q, r) ==> PointLess(p, r)
    ensures p != q ==> (PointLess(p, q) <==> !PointLess(q, p))
    ensures PointLess(p, q) ==> p.x <= q.x
  {
  }

  // ----- Height colours -------------------------------------------------------

  datatype Colour = Colour(r: real, g: real, b: real)

  /**
   * `heightToColor`: blue through green to red as `z` rises from `minZ`
   * to `maxZ`; a flat range (`maxZ == minZ`) divides by zero and gives no
   * colour.
   */
  function HeightToColour(z: real, minZ: real, maxZ: real): (c: Option<Colour>)
    ensures c.None? <==> maxZ == minZ
    ensures c.Some? ==> c.value.r + c.value.g + c.value.b == 1.0
    ensures c.Some? ==> (c.value.r == 0.0 || c.value.b == 0.0)
  {
    if maxZ == minZ then None
    else
      var normalized := (z - minZ) / (maxZ - minZ);
      if normalized < 0.5 then
        var t := normalized * 2.0;
        Some(Colour(0.0, t, 1.0 - t))
      else
        var t := (normalized - 0.5) * 2.0;
        Some(Colour(t, 1.0 - t, 0.0))
  }

  predicate InUnitCube(c: Colour) {
    0.0 <= c.r <= 1.0 && 0.0 <= c.g <= 1.0 && 0.0 <= c.b <= 1.0
  }

  /** Heights inside the range get colours whose components lie in `[0, 1]`. */
  lemma ColourInUnitCube(z: real, minZ: real, maxZ: real)
    requires minZ < maxZ && minZ <= z <= maxZ
    ensures HeightToColour(z, minZ, maxZ).Some? && InUnitCube(HeightToColour(z, minZ, maxZ).value)
  {
    var span := maxZ - minZ;
    var normalized := (z - minZ) / span;
    assert normalized * span == z - minZ;
    UnitQuotient(z - minZ, span);
  }

  /** The lowest height is blue, the middle green and the highest red. */
  lemma ColourRampEnds(minZ: real, maxZ: real)
    requires minZ < maxZ
    ensures HeightToColour(minZ, minZ, maxZ) == Some(Colour(0.0, 0.0, 1.0))
    ensures HeightToColour((minZ + maxZ) / 2.0, minZ, maxZ) == Some(Colour(0.0, 1.0, 0.0))
    ensures HeightToColour(maxZ, minZ, maxZ) == Some(Colour(1.0, 0.0, 0.0))
  {
    var span := maxZ - minZ;
    assert ((minZ + maxZ) / 2.0 - minZ) == span / 2.0;
    assert (span / 2.0) / span == 0.5;
    assert span / span == 1.0;
  }

  // ----- Layers ---------------------------------------------------------------

  /** `std::round`: to the nearest integer, halves away from zero. */
  function Round(r: real): (n: int)
    ensures (n as real) - 0.5 <= r <= (n as real) + 0.5
    ensures r >= 0.0 ==> n >= 0
    ensures (n as real) - r == 0.5 ==> r > 0.0
    ensures r - (n as real) == 0.5 ==> r < 0.0
  {
    if r >= 0.0 then (r + 0.5).Floor else -((-r + 0.5).Floor)
  }

  /** The layer key of point `i`. */
  function LayerOf(ps: seq<Point3>, i: int): int
    requires 0 <= i < |ps|
  {
    Round(ps[i].z)
  }

  /** The indices below `k` whose layer is `key`, ascending. */
  function LayerIndices(ps: seq<Point3>, key: int, k: int): (r: seq<int>)
    requires 0 <= k <= |ps|
    ensures forall m | 0 <= m < |r| :: 0 <= r[m] < k
  {
    if k == 0 then []
    else LayerIndices(ps, key, k - 1) + (if LayerOf(ps, k - 1) == key then [k - 1] else [])
  }

  /** Every point index lies in exactly one layer, the one keyed by its rounded height. */
  lemma {:induction false} LayerMembers(ps: seq<Point3>, key: int, k: int)
    requires 0 <= k <= |ps|
    ensures forall i :: i in LayerIndices(ps, key, k) <==> 0 <= i < k && LayerOf(ps, i) == key
  {
    if k > 0 {
      LayerMembers(ps, key, k - 1);
    }
  }

  /** A layer lists its indices ascending, hence without repetition. */
  lemma {:induction false} LayerAscending(ps: seq<Point3>, key: int, k: int)
    requires 0 <= k <= |ps|
    ensures forall m, m' | 0 <= m < m' < |LayerIndices(ps, key, k)| ::
      LayerIndices(ps, key, k)[m] < LayerIndices(ps, key, k)[m']
  {
    if k > 0 {
      LayerAscending(ps, key, k - 1);
    }
  }

  /** The `layers` map after the first `k` points. */
  function Layers(ps: seq<Point3>, k: int): map<int, seq<int>>
    requires 0 <= k <= |ps|
  {
    if k == 0 then map[]
    else
      var layers := Layers(ps, k - 1);
      var key := LayerOf(ps, k - 1);
      layers[key := (if key in layers then layers[key] else []) + [k - 1]]
  }

  /** The map holds a key exactly when its layer is non-empty, and then holds that layer. */
  lemma {:induction false} LayersAreLayerIndices(ps: seq<Point3>, k: int, key: int)
    requires 0 <= k <= |ps|
    ensures key in Layers(ps, k) <==> LayerIndices(ps, key, k) != []
    ensures key in Layers(ps, k) ==> Layers(ps, k)[key] == LayerIndices(ps, key, k)
  {
    if k > 0 {
      LayersAreLayerIndices(ps, k - 1, key);
    }
  }

  /** The grouping loop of `generateMeshFromPoints`. */
  method GroupByLayer(ps: seq<Point3>) returns (layers: map<int, seq<int>>)
    ensures forall key :: key in layers <==> LayerIndices(ps, key, |ps|) != []
    ensures forall key | key in layers :: layers[key] == LayerIndices(ps, key, |ps|)
  {
    layers := map[];
    for i := 0 to |ps|
      invariant layers == Layers(ps, i)
    {
      var layer := Round(ps[i].z);
      var members := if layer in layers then layers[layer] else [];
      layers := layers[layer := members + [i]];
    }
    forall key
      ensures key in layers <==> LayerIndices(ps, key, |ps|) != []
      ensures key in layers ==> layers[key] == LayerIndices(ps, key, |ps|)
    {
      LayersAreLayerIndices(ps, |ps|, key);
    }
  }

  // ----- The viewer -----------------------------------------------------------

  datatype Vertex = Vertex(position: Point3, normal: Point3, colour: Option<Colour>)

  /** The vertex of point `p`: its position, the up normal and its height colour. */
  function PointVertex(p: Point3, minZ: real, maxZ: real): Vertex {
    Vertex(p, Point3(0.0, 0.0, 1.0), HeightToColour(p.z, minZ, maxZ))
  }

  class MeshVisualizer {
    var points: seq<Point3>
    var vertices: seq<Vertex>
    var indices: seq<int>
    var minBounds: Point3
    var maxBounds: Point3

    constructor()
      ensures points == [] && vertices == [] && indices == []
      ensures minBounds == Origin && maxBounds == Origin
    {
      points, vertices, indices := [], [], [];
      minBounds, maxBounds := Origin, Origin;
    }

    /**
     * `loadPointsFromFile`, with the parsed file passed in (`None` when it
     * cannot be opened): the points are replaced and the bounds recomputed;
     * the load succeeds when at least one point was read.
     */
    method LoadPoints(file: Option<seq<Point3>>) returns (ok: bool)
      modifies this`points, this`minBounds, this`maxBounds
      ensures ok <==> file.Some? && |file.value| > 0
      ensures points == if file.Some? then file.value else old(points)
      ensures file.Some? && |file.value| > 0 ==> minBounds == Lower(file.value) && maxBounds == Upper(file.value)
      ensures file.None? || |file.value| == 0 ==> minBounds == old(minBounds) && maxBounds == old(maxBounds)
    {
      if file.None? {
        return false;
      }
      points := file.value;
      CalculateBounds();
      return |points| > 0;
    }

    /**
     * `calculateBounds`: nothing for no points; otherwise the componentwise
     * least and greatest point.
     */
    method CalculateBounds()
      modifies this`minBounds, this`maxBounds
      ensures |points| == 0 ==> minBounds == old(minBounds) && maxBounds == old(maxBounds)
      ensures |points| > 0 ==> minBounds == Lower(points) && maxBounds == Upper(points)
    {
      if |points| == 0 {
        return;
      }
      minBounds, maxBounds := points[0], points[0];
      for k := 0 to |points|
        invariant k == 0 ==> minBounds == points[0] && maxBounds == points[0]
        invariant k > 0 ==> minBounds == Lower(points[..k]) && maxBounds == Upper(points[..k])
      {
        var point := points[k];
        if k > 0 {
          assert points[..k + 1][..k] == points[..k];
        }
        minBounds := Point3(Min(minBounds.x, point.x), Min(minBounds.y, point.y), Min(minBounds.z, point.z));
        maxBounds := Point3(Max(maxBounds.x, point.x), Max(maxBounds.y, point.y), Max(maxBounds.z, point.z));
      }
      assert points[..|points|] == points;
    }

    /**
     * `generateMeshFromPoints`: nothing for fewer than three points;
     * otherwise one vertex per point, in order, coloured by height, no
     * indices, and the points grouped by layer.
     */
    method GenerateMeshFromPoints() returns (layers: map<int, seq<int>>)
      modifies this`vertices, this`indices
      ensures |points| < 3 ==> vertices == old(vertices) && indices == old(indices) && layers == map[]
      ensures |points| >= 3 ==>
        |vertices| == |points| && indices == [] &&
        (forall i | 0 <= i < |points| :: vertices[i] == PointVertex(points[i], minBounds.z, maxBounds.z)) &&
        (forall key :: key in layers <==> LayerIndices(points, key, |points|) != []) &&
        forall key | key in layers :: layers[key] == LayerIndices(points, key, |points|)
    {
      if |points| < 3 {
        return map[];
      }
      vertices, indices := [], [];
      for i := 0 to |points|
        invariant |vertices| == i && indices == []
        invariant forall j | 0 <= j < i :: vertices[j] == PointVertex(points[j], minBounds.z, maxBounds.z)
      {
        var point := points[i];
        vertices := vertices + [Vertex(point, Point3(0.0, 0.0, 1.0), HeightToColour(point.z, minBounds.z, maxBounds.z))];
      }
      layers := GroupByLayer(points);
    }
  }

  /** After `calculateBounds` on a cloud, every vertex the viewer builds has a colour in `[0, 1]`, unless all heights are equal. */
  lemma VertexColoursInUnitCube(ps: seq<Point3>, i: int)
    requires 0 <= i < |ps|
    requires Lower(ps).z != Upper(ps).z
    ensures var v := PointVertex(ps[i], Lower(ps).z, Upper(ps).z);
      v.colour.Some? && InUnitCube(v.colour.value)
  {
    LowerIsTightBound(ps);
    UpperIsTightBound(ps);
    assert Below(Lower(ps), ps[i]) && Below(ps[i], Upper(ps));
    ColourInUnitCube(ps[i].z, Lower(ps).z, Upper(ps).z);
  }
}
