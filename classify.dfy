/**
 * Classification of a cube by its eight corner values, shared by the
 * Marching Cubes programs: the cube index with one bit per corner below the
 * iso level, and what it means for a point to lie on an edge the surface
 * crosses.
 */
module Classify {
  import opened Geometry
  import opened Bits
  import opened CubeTables

  /** Which corners lie below the iso level. */
  function BelowLevel(values: seq<real>, iso: real): (flags: seq<bool>)
    ensures |flags| == |values|
  {
    seq(|values|, n requires 0 <= n < |values| => values[n] < iso)
  }

  /** The cube index: bit `n` set for each corner `n` below the iso level. */
  function CubeIndex(values: seq<real>, iso: real): (ci: nat)
    ensures |values| == 8 ==> ci < 256
  {
    FromBitsBound(BelowLevel(values, iso));
    assert Pow2(8) == 256;
    FromBits(BelowLevel(values, iso))
  }

  /** Bit `n` of the cube index is set exactly when corner `n` is below the level. */
  lemma CubeIndexBits(values: seq<real>, iso: real, n: nat)
    requires |values| == 8
    ensures HasBit(CubeIndex(values, iso), n) <==> n < 8 && values[n] < iso
  {
    FromBitsBits(BelowLevel(values, iso), n);
  }

  /** `cubeIndex |= (1 << n)` for every corner `n` below the iso level. */
  method ComputeCubeIndex(values: seq<real>, iso: real) returns (ci: int)
    requires |values| == 8
    ensures ci == CubeIndex(values, iso)
  {
    ghost var flags := BelowLevel(values, iso);
    ci := 0;
    for n := 0 to 8
      invariant ci == FromBits(flags[..n])
    {
      FromBitsBound(flags[..n]);
      FromBitsSnoc(flags[..n], flags[n]);
      assert flags[..n + 1] == flags[..n] + [flags[n]];
      if values[n] < iso {
        // bit n of ci is clear (ci < 2^n), so the bitwise or adds 2^n
        ci := ci + Pow2(n);
      }
    }
    assert flags[..8] == flags;
  }

  /**
   * `v` lies on an edge of the cell whose two end values are on different
   * sides of the level.
   */
  ghost predicate OnCrossedEdge(v: Point3, corners: seq<Point3>, values: seq<real>, iso: real)
    requires |corners| == 8 && |values| == 8
  {
    exists e | 0 <= e < 12 ::
      (values[EdgeStart(e)] < iso) != (values[EdgeEnd(e)] < iso) &&
      OnSegment(v, corners[EdgeStart(e)], corners[EdgeEnd(e)])
  }

  ghost predicate TriangleOnCrossedEdges(t: Tri<Point3>, corners: seq<Point3>, values: seq<real>, iso: real)
    requires |corners| == 8 && |values| == 8
  {
    OnCrossedEdge(t.v0, corners, values, iso) && OnCrossedEdge(t.v1, corners, values, iso) &&
    OnCrossedEdge(t.v2, corners, values, iso)
  }
}
