/**
 * The cube geometry and the constant tables of Marching Cubes as the
 * point-cloud program (marchingCubes/main.cpp) and the volume program
 * (marching_cubes.cpp) use them: Paul Bourke's numbering of the eight
 * corners and twelve edges of a cell, the 256-entry edge table, the
 * triangle table and the scan of one triangle-table row.
 *
 * The edge table is proved to be the crossing mask of each cube index.
 * The triangle table is transcribed as initialised: 151 rows, the other
 * 105 zero-filled.
 */
module CubeTables {
  import opened Geometry
  import opened Bits

  // ----- Cell geometry -----------------------------------------------------

  /** Unit offset of corner `c` along x: corners 1, 2, 5 and 6 are on the far side. */
  function CornerX(c: int): int {
    if c % 4 == 1 || c % 4 == 2 then 1 else 0
  }

  /** Unit offset of corner `c` along y: corners 2, 3, 6 and 7 are on the far side. */
  function CornerY(c: int): int {
    if c % 4 == 2 || c % 4 == 3 then 1 else 0
  }

  /** Unit offset of corner `c` along z: corners 4 to 7 are on the far side. */
  function CornerZ(c: int): int {
    if c >= 4 then 1 else 0
  }

  /** Offset of corner `c` from the cell origin (`cubeVertices[c]`). */
  function CornerOffset(c: int): Point3 {
    Point3(CornerX(c) as real, CornerY(c) as real, CornerZ(c) as real)
  }

  /** The eight offsets in corner order, as `cubeVertices` lists them. */
  lemma CornerOffsetsAsListed()
    ensures CornerOffset(0) == Point3(0.0, 0.0, 0.0) && CornerOffset(1) == Point3(1.0, 0.0, 0.0)
    ensures CornerOffset(2) == Point3(1.0, 1.0, 0.0) && CornerOffset(3) == Point3(0.0, 1.0, 0.0)
    ensures CornerOffset(4) == Point3(0.0, 0.0, 1.0) && CornerOffset(5) == Point3(1.0, 0.0, 1.0)
    ensures CornerOffset(6) == Point3(1.0, 1.0, 1.0) && CornerOffset(7) == Point3(0.0, 1.0, 1.0)
  {
  }

  /** First corner of edge `e` (`cubeEdges[e][0]`). */
  function EdgeStart(e: int): (c: int)
    requires 0 <= e < 12
    ensures 0 <= c < 8
  {
    match e
    case 0 => 0 case 1 => 1 case 2 => 2 case 3 => 3
    case 4 => 4 case 5 => 5 case 6 => 6 case 7 => 7
    case 8 => 0 case 9 => 1 case 10 => 2 case _ => 3
  }

  /** Second corner of edge `e` (`cubeEdges[e][1]`). */
  function EdgeEnd(e: int): (c: int)
    requires 0 <= e < 12
    ensures 0 <= c < 8
  {
    match e
    case 0 => 1 case 1 => 2 case 2 => 3 case 3 => 0
    case 4 => 5 case 5 => 6 case 6 => 7 case 7 => 4
    case 8 => 4 case 9 => 5 case 10 => 6 case _ => 7
  }

  /** `p` and `q` differ in exactly one coordinate, and there by exactly 1. */
  predicate UnitStep(p: Point3, q: Point3) {
    var dx, dy, dz := q.x - p.x, q.y - p.y, q.z - p.z;
    (dy == 0.0 && dz == 0.0 && (dx == 1.0 || dx == -1.0)) ||
    (dx == 0.0 && dz == 0.0 && (dy == 1.0 || dy == -1.0)) ||
    (dx == 0.0 && dy == 0.0 && (dz == 1.0 || dz == -1.0))
  }

  /** Every edge joins two corners one unit step apart. */
  lemma EdgesAreUnitSteps()
    ensures forall e | 0 <= e < 12 :: UnitStep(CornerOffset(EdgeStart(e)), CornerOffset(EdgeEnd(e)))
  {
    CornerOffsetsAsListed();
  }

  /**
   * No two edges join the same two corners, so the twelve edges are the
   * twelve edges of the unit cube.
   */
  lemma EdgesAreDistinct()
    ensures forall e, f | 0 <= e < f < 12 ::
      (EdgeStart(e), EdgeEnd(e)) != (EdgeStart(f), EdgeEnd(f)) &&
      (EdgeStart(e), EdgeEnd(e)) != (EdgeEnd(f), EdgeStart(f))
  {
  }

  // ----- Cube index and crossing mask -------------------------------------

  /** Bit `c` of the cube index `ci`, written with literal divisors. */
  function CornerBit(ci: int, c: int): (b: int)
    requires 0 <= c < 8
    ensures b == 0 || b == 1
  {
    match c
    case 0 => ci % 2
    case 1 => (ci / 2) % 2
    case 2 => (ci / 4) % 2
    case 3 => (ci / 8) % 2
    case 4 => (ci / 16) % 2
    case 5 => (ci / 32) % 2
    case 6 => (ci / 64) % 2
    case _ => (ci / 128) % 2
  }

  lemma HalvingChain(x: int)
    ensures x / 2 / 2 == x / 4 && x / 4 / 2 == x / 8 && x / 8 / 2 == x / 16
    ensures x / 16 / 2 == x / 32 && x / 32 / 2 == x / 64 && x / 64 / 2 == x / 128
  {
  }

  lemma CornerBitIsHasBit(ci: int, c: int)
    requires 0 <= c < 8
    ensures (CornerBit(ci, c) == 1) == HasBit(ci, c)
  {
    HalvingChain(ci);
    if c >= 1 { assert HasBit(ci, c) == HasBit(ci / 2, c - 1); }
    if c >= 2 { assert HasBit(ci, c) == HasBit(ci / 4, c - 2); }
    if c >= 3 { assert HasBit(ci, c) == HasBit(ci / 8, c - 3); }
    if c >= 4 { assert HasBit(ci, c) == HasBit(ci / 16, c - 4); }
    if c >= 5 { assert HasBit(ci, c) == HasBit(ci / 32, c - 5); }
    if c >= 6 { assert HasBit(ci, c) == HasBit(ci / 64, c - 6); }
    if c >= 7 { assert HasBit(ci, c) == HasBit(ci / 128, c - 7); }
  }

  /** 1 when edge `e` joins a corner that is set in `ci` to one that is not. */
  function CrossDigit(ci: int, e: int): int
    requires 0 <= e < 12
  {
    if CornerBit(ci, EdgeStart(e)) != CornerBit(ci, EdgeEnd(e)) then 1 else 0
  }

  /** The 12-bit mask whose bit `e` is `CrossDigit(ci, e)`. */
  function CrossingMask(ci: int): int {
    CrossDigit(ci, 0) + 2 * (CrossDigit(ci, 1) + 2 * (CrossDigit(ci, 2) + 2 * (CrossDigit(ci, 3) +
    2 * (CrossDigit(ci, 4) + 2 * (CrossDigit(ci, 5) + 2 * (CrossDigit(ci, 6) + 2 * (CrossDigit(ci, 7) +
    2 * (CrossDigit(ci, 8) + 2 * (CrossDigit(ci, 9) + 2 * (CrossDigit(ci, 10) + 2 * CrossDigit(ci, 11)))))))))))
  }

  /** Which of the twelve edges cube `ci` crosses, as a sequence of flags. */
  function CrossedEdges(ci: int): (bs: seq<bool>)
    ensures |bs| == 12
  {
    seq(12, e requires 0 <= e < 12 => CrossDigit(ci, e) == 1)
  }

  lemma CrossingMaskIsFromBits(ci: int)
    ensures CrossingMask(ci) == FromBits(CrossedEdges(ci))
  {
    var bs := CrossedEdges(ci);
    assert BitsFrom(bs, 12) == 0;
    assert BitsFrom(bs, 11) == CrossDigit(ci, 11) + 2 * BitsFrom(bs, 12);
    assert BitsFrom(bs, 10) == CrossDigit(ci, 10) + 2 * BitsFrom(bs, 11);
    assert BitsFrom(bs, 9) == CrossDigit(ci, 9) + 2 * BitsFrom(bs, 10);
    assert BitsFrom(bs, 8) == CrossDigit(ci, 8) + 2 * BitsFrom(bs, 9);
    assert BitsFrom(bs, 7) == CrossDigit(ci, 7) + 2 * BitsFrom(bs, 8);
    assert BitsFrom(bs, 6) == CrossDigit(ci, 6) + 2 * BitsFrom(bs, 7);
    assert BitsFrom(bs, 5) == CrossDigit(ci, 5) + 2 * BitsFrom(bs, 6);
    assert BitsFrom(bs, 4) == CrossDigit(ci, 4) + 2 * BitsFrom(bs, 5);
    assert BitsFrom(bs, 3) == CrossDigit(ci, 3) + 2 * BitsFrom(bs, 4);
    assert BitsFrom(bs, 2) == CrossDigit(ci, 2) + 2 * BitsFrom(bs, 3);
    assert BitsFrom(bs, 1) == CrossDigit(ci, 1) + 2 * BitsFrom(bs, 2);
    assert BitsFrom(bs, 0) == CrossDigit(ci, 0) + 2 * BitsFrom(bs, 1);
  }

  // ----- The edge table -----------------------------------------------------

  /** `edgeTable[ci]`: which of the twelve edges the surface crosses in cube `ci`. */
  function EdgeTable(ci: int): int
    requires 0 <= ci < 256
  {
    EdgeBlock(ci / 16, ci % 16)
  }

  /** Entry `r` of the `b`-th run of sixteen edge-table entries. */
  function EdgeBlock(b: int, r: int): int {
    match b
    case 0 => EdgeRows0(r)
    case 1 => EdgeRows1(r)
    case 2 => EdgeRows2(r)
    case 3 => EdgeRows3(r)
    case 4 => EdgeRows4(r)
    case 5 => EdgeRows5(r)
    case 6 => EdgeRows6(r)
    case 7 => EdgeRows7(r)
    case 8 => EdgeRows8(r)
    case 9 => EdgeRows9(r)
    case 10 => EdgeRows10(r)
    case 11 => EdgeRows11(r)
    case 12 => EdgeRows12(r)
    case 13 => EdgeRows13(r)
    case 14 => EdgeRows14(r)
    case _ => EdgeRows15(r)
  }

  function EdgeRows0(r: int): int {
    match r
    case 0 => 0x000
    case 1 => 0x109
    case 2 => 0x203
    case 3 => 0x30a
    case 4 => 0x406
    case 5 => 0x50f
    case 6 => 0x605
    case 7 => 0x70c
    case 8 => 0x80c
    case 9 => 0x905
    case 10 => 0xa0f
    case 11 => 0xb06
    case 12 => 0xc0a
    case 13 => 0xd03
    case 14 => 0xe09
    case _ => 0xf00
  }

  function EdgeRows1(r: int): int {
    match r
    case 0 => 0x190
    case 1 => 0x099
    case 2 => 0x393
    case 3 => 0x29a
    case 4 => 0x596
    case 5 => 0x49f
    case 6 => 0x795
    case 7 => 0x69c
    case 8 => 0x99c
    case 9 => 0x895
    case 10 => 0xb9f
    case 11 => 0xa96
    case 12 => 0xd9a
    case 13 => 0xc93
    case 14 => 0xf99
    case _ => 0xe90
  }

  function EdgeRows2(r: int): int {
    match r
    case 0 => 0x230
    case 1 => 0x339
    case 2 => 0x033
    case 3 => 0x13a
    case 4 => 0x636
    case 5 => 0x73f
    case 6 => 0x435
    case 7 => 0x53c
    case 8 => 0xa3c
    case 9 => 0xb35
    case 10 => 0x83f
    case 11 => 0x936
    case 12 => 0xe3a
    case 13 => 0xf33
    case 14 => 0xc39
    case _ => 0xd30
  }

  function EdgeRows3(r: int): int {
    match r
    case 0 => 0x3a0
    case 1 => 0x2a9
    case 2 => 0x1a3
    case 3 => 0x0aa
    case 4 => 0x7a6
    case 5 => 0x6af
    case 6 => 0x5a5
    case 7 => 0x4ac
    case 8 => 0xbac
    case 9 => 0xaa5
    case 10 => 0x9af
    case 11 => 0x8a6
    case 12 => 0xfaa
    case 13 => 0xea3
    case 14 => 0xda9
    case _ => 0xca0
  }

  function EdgeRows4(r: int): int {
    match r
    case 0 => 0x460
    case 1 => 0x569
    case 2 => 0x663
    case 3 => 0x76a
    case 4 => 0x066
    case 5 => 0x16f
    case 6 => 0x265
    case 7 => 0x36c
    case 8 => 0xc6c
    case 9 => 0xd65
    case 10 => 0xe6f
    case 11 => 0xf66
    case 12 => 0x86a
    case 13 => 0x963
    case 14 => 0xa69
    case _ => 0xb60
  }

  function EdgeRows5(r: int): int {
    match r
    case 0 => 0x5f0
    case 1 => 0x4f9
    case 2 => 0x7f3
    case 3 => 0x6fa
    case 4 => 0x1f6
    case 5 => 0x0ff
    case 6 => 0x3f5
    case 7 => 0x2fc
    case 8 => 0xdfc
    case 9 => 0xcf5
    case 10 => 0xfff
    case 11 => 0xef6
    case 12 => 0x9fa
    case 13 => 0x8f3
    case 14 => 0xbf9
    case _ => 0xaf0
  }

  function EdgeRows6(r: int): int {
    match r
    case 0 => 0x650
    case 1 => 0x759
    case 2 => 0x453
    case 3 => 0x55a
    case 4 => 0x256
    case 5 => 0x35f
    case 6 => 0x055
    case 7 => 0x15c
    case 8 => 0xe5c
    case 9 => 0xf55
    case 10 => 0xc5f
    case 11 => 0xd56
    case 12 => 0xa5a
    case 13 => 0xb53
    case 14 => 0x859
    case _ => 0x950
  }

  function EdgeRows7(r: int): int {
    match r
    case 0 => 0x7c0
    case 1 => 0x6c9
    case 2 => 0x5c3
    case 3 => 0x4ca
    case 4 => 0x3c6
    case 5 => 0x2cf
    case 6 => 0x1c5
    case 7 => 0x0cc
    case 8 => 0xfcc
    case 9 => 0xec5
    case 10 => 0xdcf
    case 11 => 0xcc6
    case 12 => 0xbca
    case 13 => 0xac3
    case 14 => 0x9c9
    case _ => 0x8c0
  }

  function EdgeRows8(r: int): int {
    match r
    case 0 => 0x8c0
    case 1 => 0x9c9
    case 2 => 0xac3
    case 3 => 0xbca
    case 4 => 0xcc6
    case 5 => 0xdcf
    case 6 => 0xec5
    case 7 => 0xfcc
    case 8 => 0x0cc
    case 9 => 0x1c5
    case 10 => 0x2cf
    case 11 => 0x3c6
    case 12 => 0x4ca
    case 13 => 0x5c3
    case 14 => 0x6c9
    case _ => 0x7c0
  }

  function EdgeRows9(r: int): int {
    match r
    case 0 => 0x950
    case 1 => 0x859
    case 2 => 0xb53
    case 3 => 0xa5a
    case 4 => 0xd56
    case 5 => 0xc5f
    case 6 => 0xf55
    case 7 => 0xe5c
    case 8 => 0x15c
    case 9 => 0x055
    case 10 => 0x35f
    case 11 => 0x256
    case 12 => 0x55a
    case 13 => 0x453
    case 14 => 0x759
    case _ => 0x650
  }

  function EdgeRows10(r: int): int {
    match r
    case 0 => 0xaf0
    case 1 => 0xbf9
    case 2 => 0x8f3
    case 3 => 0x9fa
    case 4 => 0xef6
    case 5 => 0xfff
    case 6 => 0xcf5
    case 7 => 0xdfc
    case 8 => 0x2fc
    case 9 => 0x3f5
    case 10 => 0x0ff
    case 11 => 0x1f6
    case 12 => 0x6fa
    case 13 => 0x7f3
    case 14 => 0x4f9
    case _ => 0x5f0
  }

  function EdgeRows11(r: int): int {
    match r
    case 0 => 0xb60
    case 1 => 0xa69
    case 2 => 0x963
    case 3 => 0x86a
    case 4 => 0xf66
    case 5 => 0xe6f
    case 6 => 0xd65
    case 7 => 0xc6c
    case 8 => 0x36c
    case 9 => 0x265
    case 10 => 0x16f
    case 11 => 0x066
    case 12 => 0x76a
    case 13 => 0x663
    case 14 => 0x569
    case _ => 0x460
  }

  function EdgeRows12(r: int): int {
    match r
    case 0 => 0xca0
    case 1 => 0xda9
    case 2 => 0xea3
    case 3 => 0xfaa
    case 4 => 0x8a6
    case 5 => 0x9af
    case 6 => 0xaa5
    case 7 => 0xbac
    case 8 => 0x4ac
    case 9 => 0x5a5
    case 10 => 0x6af
    case 11 => 0x7a6
    case 12 => 0x0aa
    case 13 => 0x1a3
    case 14 => 0x2a9
    case _ => 0x3a0
  }

  function EdgeRows13(r: int): int {
    match r
    case 0 => 0xd30
    case 1 => 0xc39
    case 2 => 0xf33
    case 3 => 0xe3a
    case 4 => 0x936
    case 5 => 0x83f
    case 6 => 0xb35
    case 7 => 0xa3c
    case 8 => 0x53c
    case 9 => 0x435
    case 10 => 0x73f
    case 11 => 0x636
    case 12 => 0x13a
    case 13 => 0x033
    case 14 => 0x339
    case _ => 0x230
  }

  function EdgeRows14(r: int): int {
    match r
    case 0 => 0xe90
    case 1 => 0xf99
    case 2 => 0xc93
    case 3 => 0xd9a
    case 4 => 0xa96
    case 5 => 0xb9f
    case 6 => 0x895
    case 7 => 0x99c
    case 8 => 0x69c
    case 9 => 0x795
    case 10 => 0x49f
    case 11 => 0x596
    case 12 => 0x29a
    case 13 => 0x393
    case 14 => 0x099
    case _ => 0x190
  }

  function EdgeRows15(r: int): int {
    match r
    case 0 => 0xf00
    case 1 => 0xe09
    case 2 => 0xd03
    case 3 => 0xc0a
    case 4 => 0xb06
    case 5 => 0xa0f
    case 6 => 0x905
    case 7 => 0x80c
    case 8 => 0x70c
    case 9 => 0x605
    case 10 => 0x50f
    case 11 => 0x406
    case 12 => 0x30a
    case 13 => 0x203
    case 14 => 0x109
    case _ => 0x000
  }

  lemma EdgeRows0Agree0()
    ensures forall r | 0 <= r < 2 :: EdgeRows0(r) == CrossingMask(0 + r)
  {
  }

  lemma EdgeRows0Agree1()
    ensures forall r | 2 <= r < 4 :: EdgeRows0(r) == CrossingMask(0 + r)
  {
  }

  lemma EdgeRows0Agree2()
    ensures forall r | 4 <= r < 6 :: EdgeRows0(r) == CrossingMask(0 + r)
  {
  }

  lemma EdgeRows0Agree3()
    ensures forall r | 6 <= r < 8 :: EdgeRows0(r) == CrossingMask(0 + r)
  {
  }

  lemma EdgeRows0Agree4()
    ensures forall r | 8 <= r < 10 :: EdgeRows0(r) == CrossingMask(0 + r)
  {
  }

  lemma EdgeRows0Agree5()
    ensures forall r | 10 <= r < 12 :: EdgeRows0(r) == CrossingMask(0 + r)
  {
  }

  lemma EdgeRows0Agree6()
    ensures forall r | 12 <= r < 14 :: EdgeRows0(r) == CrossingMask(0 + r)
  {
  }

  lemma EdgeRows0Agree7()
    ensures forall r | 14 <= r < 16 :: EdgeRows0(r) == CrossingMask(0 + r)
  {
  }

  lemma EdgeRows0Agree(r: int)
    requires 0 <= r < 16
    ensures EdgeRows0(r) == CrossingMask(0 + r)
  {
    if r < 2 {
      EdgeRows0Agree0();
    } else if r < 4 {
      EdgeRows0Agree1();
    } else if r < 6 {
      EdgeRows0Agree2();
    } else if r < 8 {
      EdgeRows0Agree3();
    } else if r < 10 {
      EdgeRows0Agree4();
    } else if r < 12 {
      EdgeRows0Agree5();
    } else if r < 14 {
      EdgeRows0Agree6();
    } else {
      EdgeRows0Agree7();
    }
  }

  lemma EdgeRows1Agree0()
    ensures forall r | 0 <= r < 4 :: EdgeRows1(r) == CrossingMask(16 + r)
  {
  }

  lemma EdgeRows1Agree1()
    ensures forall r | 4 <= r < 8 :: EdgeRows1(r) == CrossingMask(16 + r)
  {
  }

  lemma EdgeRows1Agree2()
    ensures forall r | 8 <= r < 12 :: EdgeRows1(r) == CrossingMask(16 + r)
  {
  }

  lemma EdgeRows1Agree3()
    ensures forall r | 12 <= r < 16 :: EdgeRows1(r) == CrossingMask(16 + r)
  {
  }

  lemma EdgeRows1Agree(r: int)
    requires 0 <= r < 16
    ensures EdgeRows1(r) == CrossingMask(16 + r)
  {
    if r < 4 {
      EdgeRows1Agree0();
    } else if r < 8 {
      EdgeRows1Agree1();
    } else if r < 12 {
      EdgeRows1Agree2();
    } else {
      EdgeRows1Agree3();
    }
  }

  lemma EdgeRows2Agree0()
    ensures forall r | 0 <= r < 4 :: EdgeRows2(r) == CrossingMask(32 + r)
  {
  }

  lemma EdgeRows2Agree1()
    ensures forall r | 4 <= r < 8 :: EdgeRows2(r) == CrossingMask(32 + r)
  {
  }

  lemma EdgeRows2Agree2()
    ensures forall r | 8 <= r < 12 :: EdgeRows2(r) == CrossingMask(32 + r)
  {
  }

  lemma EdgeRows2Agree3()
    ensures forall r | 12 <= r < 16 :: EdgeRows2(r) == CrossingMask(32 + r)
  {
  }

  lemma EdgeRows2Agree(r: int)
    requires 0 <= r < 16
    ensures EdgeRows2(r) == CrossingMask(32 + r)
  {
    if r < 4 {
      EdgeRows2Agree0();
    } else if r < 8 {
      EdgeRows2Agree1();
    } else if r < 12 {
      EdgeRows2Agree2();
    } else {
      EdgeRows2Agree3();
    }
  }

  lemma EdgeRows3Agree0()
    ensures forall r | 0 <= r < 4 :: EdgeRows3(r) == CrossingMask(48 + r)
  {
  }

  lemma EdgeRows3Agree1()
    ensures forall r | 4 <= r < 8 :: EdgeRows3(r) == CrossingMask(48 + r)
  {
  }

  lemma EdgeRows3Agree2()
    ensures forall r | 8 <= r < 12 :: EdgeRows3(r) == CrossingMask(48 + r)
  {
  }

  lemma EdgeRows3Agree3()
    ensures forall r | 12 <= r < 16 :: EdgeRows3(r) == CrossingMask(48 + r)
  {
  }

  lemma EdgeRows3Agree(r: int)
    requires 0 <= r < 16
    ensures EdgeRows3(r) == CrossingMask(48 + r)
  {
    if r < 4 {
      EdgeRows3Agree0();
    } else if r < 8 {
      EdgeRows3Agree1();
    } else if r < 12 {
      EdgeRows3Agree2();
    } else {
      EdgeRows3Agree3();
    }
  }

  lemma EdgeRows4Agree0()
    ensures forall r | 0 <= r < 4 :: EdgeRows4(r) == CrossingMask(64 + r)
  {
  }

  lemma EdgeRows4Agree1()
    ensures forall r | 4 <= r < 8 :: EdgeRows4(r) == CrossingMask(64 + r)
  {
  }

  lemma EdgeRows4Agree2()
    ensures forall r | 8 <= r < 12 :: EdgeRows4(r) == CrossingMask(64 + r)
  {
  }

  lemma EdgeRows4Agree3()
    ensures forall r | 12 <= r < 16 :: EdgeRows4(r) == CrossingMask(64 + r)
  {
  }

  lemma EdgeRows4Agree(r: int)
    requires 0 <= r < 16
    ensures EdgeRows4(r) == CrossingMask(64 + r)
  {
    if r < 4 {
      EdgeRows4Agree0();
    } else if r < 8 {
      EdgeRows4Agree1();
    } else if r < 12 {
      EdgeRows4Agree2();
    } else {
      EdgeRows4Agree3();
    }
  }

  lemma EdgeRows5Agree0()
    ensures forall r | 0 <= r < 4 :: EdgeRows5(r) == CrossingMask(80 + r)
  {
  }

  lemma EdgeRows5Agree1()
    ensures forall r | 4 <= r < 8 :: EdgeRows5(r) == CrossingMask(80 + r)
  {
  }

  lemma EdgeRows5Agree2()
    ensures forall r | 8 <= r < 12 :: EdgeRows5(r) == CrossingMask(80 + r)
  {
  }

  lemma EdgeRows5Agree3()
    ensures forall r | 12 <= r < 16 :: EdgeRows5(r) == CrossingMask(80 + r)
  {
  }

  lemma EdgeRows5Agree(r: int)
    requires 0 <= r < 16
    ensures EdgeRows5(r) == CrossingMask(80 + r)
  {
    if r < 4 {
      EdgeRows5Agree0();
    } else if r < 8 {
      EdgeRows5Agree1();
    } else if r < 12 {
      EdgeRows5Agree2();
    } else {
      EdgeRows5Agree3();
    }
  }

  lemma EdgeRows6Agree0()
    ensures forall r | 0 <= r < 4 :: EdgeRows6(r) == CrossingMask(96 + r)
  {
  }

  lemma EdgeRows6Agree1()
    ensures forall r | 4 <= r < 8 :: EdgeRows6(r) == CrossingMask(96 + r)
  {
  }

  lemma EdgeRows6Agree2()
    ensures forall r | 8 <= r < 12 :: EdgeRows6(r) == CrossingMask(96 + r)
  {
  }

  lemma EdgeRows6Agree3()
    ensures forall r | 12 <= r < 16 :: EdgeRows6(r) == CrossingMask(96 + r)
  {
  }

  lemma EdgeRows6Agree(r: int)
    requires 0 <= r < 16
    ensures EdgeRows6(r) == CrossingMask(96 + r)
  {
    if r < 4 {
      EdgeRows6Agree0();
    } else if r < 8 {
      EdgeRows6Agree1();
    } else if r < 12 {
      EdgeRows6Agree2();
    } else {
      EdgeRows6Agree3();
    }
  }

  lemma EdgeRows7Agree0()
    ensures forall r | 0 <= r < 4 :: EdgeRows7(r) == CrossingMask(112 + r)
  {
  }

  lemma EdgeRows7Agree1()
    ensures forall r | 4 <= r < 8 :: EdgeRows7(r) == CrossingMask(112 + r)
  {
  }

  lemma EdgeRows7Agree2()
    ensures forall r | 8 <= r < 12 :: EdgeRows7(r) == CrossingMask(112 + r)
  {
  }

  lemma EdgeRows7Agree3()
    ensures forall r | 12 <= r < 16 :: EdgeRows7(r) == CrossingMask(112 + r)
  {
  }

  lemma EdgeRows7Agree(r: int)
    requires 0 <= r < 16
    ensures EdgeRows7(r) == CrossingMask(112 + r)
  {
    if r < 4 {
      EdgeRows7Agree0();
    } else if r < 8 {
      EdgeRows7Agree1();
    } else if r < 12 {
      EdgeRows7Agree2();
    } else {
      EdgeRows7Agree3();
    }
  }

  lemma EdgeRows8Agree0()
    ensures forall r | 0 <= r < 4 :: EdgeRows8(r) == CrossingMask(128 + r)
  {
  }

  lemma EdgeRows8Agree1()
    ensures forall r | 4 <= r < 8 :: EdgeRows8(r) == CrossingMask(128 + r)
  {
  }

  lemma EdgeRows8Agree2()
    ensures forall r | 8 <= r < 12 :: EdgeRows8(r) == CrossingMask(128 + r)
  {
  }

  lemma EdgeRows8Agree3()
    ensures forall r | 12 <= r < 16 :: EdgeRows8(r) == CrossingMask(128 + r)
  {
  }

  lemma EdgeRows8Agree(r: int)
    requires 0 <= r < 16
    ensures EdgeRows8(r) == CrossingMask(128 + r)
  {
    if r < 4 {
      EdgeRows8Agree0();
    } else if r < 8 {
      EdgeRows8Agree1();
    } else if r < 12 {
      EdgeRows8Agree2();
    } else {
      EdgeRows8Agree3();
    }
  }

  lemma EdgeRows9Agree0()
    ensures forall r | 0 <= r < 4 :: EdgeRows9(r) == CrossingMask(144 + r)
  {
  }

  lemma EdgeRows9Agree1()
    ensures forall r | 4 <= r < 8 :: EdgeRows9(r) == CrossingMask(144 + r)
  {
  }

  lemma EdgeRows9Agree2()
    ensures forall r | 8 <= r < 12 :: EdgeRows9(r) == CrossingMask(144 + r)
  {
  }

  lemma EdgeRows9Agree3()
    ensures forall r | 12 <= r < 16 :: EdgeRows9(r) == CrossingMask(144 + r)
  {
  }

  lemma EdgeRows9Agree(r: int)
    requires 0 <= r < 16
    ensures EdgeRows9(r) == CrossingMask(144 + r)
  {
    if r < 4 {
      EdgeRows9Agree0();
    } else if r < 8 {
      EdgeRows9Agree1();
    } else if r < 12 {
      EdgeRows9Agree2();
    } else {
      EdgeRows9Agree3();
    }
  }

  lemma EdgeRows10Agree0()
    ensures forall r | 0 <= r < 4 :: EdgeRows10(r) == CrossingMask(160 + r)
  {
  }

  lemma EdgeRows10Agree1()
    ensures forall r | 4 <= r < 8 :: EdgeRows10(r) == CrossingMask(160 + r)
  {
  }

  lemma EdgeRows10Agree2()
    ensures forall r | 8 <= r < 12 :: EdgeRows10(r) == CrossingMask(160 + r)
  {
  }

  lemma EdgeRows10Agree3()
    ensures forall r | 12 <= r < 16 :: EdgeRows10(r) == CrossingMask(160 + r)
  {
  }

  lemma EdgeRows10Agree(r: int)
    requires 0 <= r < 16
    ensures EdgeRows10(r) == CrossingMask(160 + r)
  {
    if r < 4 {
      EdgeRows10Agree0();
    } else if r < 8 {
      EdgeRows10Agree1();
    } else if r < 12 {
      EdgeRows10Agree2();
    } else {
      EdgeRows10Agree3();
    }
  }

  lemma EdgeRows11Agree0()
    ensures forall r | 0 <= r < 4 :: EdgeRows11(r) == CrossingMask(176 + r)
  {
  }

  lemma EdgeRows11Agree1()
    ensures forall r | 4 <= r < 8 :: EdgeRows11(r) == CrossingMask(176 + r)
  {
  }

  lemma EdgeRows11Agree2()
    ensures forall r | 8 <= r < 12 :: EdgeRows11(r) == CrossingMask(176 + r)
  {
  }

  lemma EdgeRows11Agree3()
    ensures forall r | 12 <= r < 16 :: EdgeRows11(r) == CrossingMask(176 + r)
  {
  }

  lemma EdgeRows11Agree(r: int)
    requires 0 <= r < 16
    ensures EdgeRows11(r) == CrossingMask(176 + r)
  {
    if r < 4 {
      EdgeRows11Agree0();
    } else if r < 8 {
      EdgeRows11Agree1();
    } else if r < 12 {
      EdgeRows11Agree2();
    } else {
      EdgeRows11Agree3();
    }
  }

  lemma EdgeRows12Agree0()
    ensures forall r | 0 <= r < 4 :: EdgeRows12(r) == CrossingMask(192 + r)
  {
  }

  lemma EdgeRows12Agree1()
    ensures forall r | 4 <= r < 8 :: EdgeRows12(r) == CrossingMask(192 + r)
  {
  }

  lemma EdgeRows12Agree2()
    ensures forall r | 8 <= r < 12 :: EdgeRows12(r) == CrossingMask(192 + r)
  {
  }

  lemma EdgeRows12Agree3()
    ensures forall r | 12 <= r < 16 :: EdgeRows12(r) == CrossingMask(192 + r)
  {
  }

  lemma EdgeRows12Agree(r: int)
    requires 0 <= r < 16
    ensures EdgeRows12(r) == CrossingMask(192 + r)
  {
    if r < 4 {
      EdgeRows12Agree0();
    } else if r < 8 {
      EdgeRows12Agree1();
    } else if r < 12 {
      EdgeRows12Agree2();
    } else {
      EdgeRows12Agree3();
    }
  }

  lemma EdgeRows13Agree0()
    ensures forall r | 0 <= r < 4 :: EdgeRows13(r) == CrossingMask(208 + r)
  {
  }

  lemma EdgeRows13Agree1()
    ensures forall r | 4 <= r < 8 :: EdgeRows13(r) == CrossingMask(208 + r)
  {
  }

  lemma EdgeRows13Agree2()
    ensures forall r | 8 <= r < 12 :: EdgeRows13(r) == CrossingMask(208 + r)
  {
  }

  lemma EdgeRows13Agree3()
    ensures forall r | 12 <= r < 16 :: EdgeRows13(r) == CrossingMask(208 + r)
  {
  }

  lemma EdgeRows13Agree(r: int)
    requires 0 <= r < 16
    ensures EdgeRows13(r) == CrossingMask(208 + r)
  {
    if r < 4 {
      EdgeRows13Agree0();
    } else if r < 8 {
      EdgeRows13Agree1();
    } else if r < 12 {
      EdgeRows13Agree2();
    } else {
      EdgeRows13Agree3();
    }
  }

  lemma EdgeRows14Agree0()
    ensures forall r | 0 <= r < 4 :: EdgeRows14(r) == CrossingMask(224 + r)
  {
  }

  lemma EdgeRows14Agree1()
    ensures forall r | 4 <= r < 8 :: EdgeRows14(r) == CrossingMask(224 + r)
  {
  }

  lemma EdgeRows14Agree2()
    ensures forall r | 8 <= r < 12 :: EdgeRows14(r) == CrossingMask(224 + r)
  {
  }

  lemma EdgeRows14Agree3()
    ensures forall r | 12 <= r < 16 :: EdgeRows14(r) == CrossingMask(224 + r)
  {
  }

  lemma EdgeRows14Agree(r: int)
    requires 0 <= r < 16
    ensures EdgeRows14(r) == CrossingMask(224 + r)
  {
    if r < 4 {
      EdgeRows14Agree0();
    } else if r < 8 {
      EdgeRows14Agree1();
    } else if r < 12 {
      EdgeRows14Agree2();
    } else {
      EdgeRows14Agree3();
    }
  }

  lemma EdgeRows15Agree0()
    ensures forall r | 0 <= r < 4 :: EdgeRows15(r) == CrossingMask(240 + r)
  {
  }

  lemma EdgeRows15Agree1()
    ensures forall r | 4 <= r < 8 :: EdgeRows15(r) == CrossingMask(240 + r)
  {
  }

  lemma EdgeRows15Agree2()
    ensures forall r | 8 <= r < 12 :: EdgeRows15(r) == CrossingMask(240 + r)
  {
  }

  lemma EdgeRows15Agree3()
    ensures forall r | 12 <= r < 16 :: EdgeRows15(r) == CrossingMask(240 + r)
  {
  }

  lemma EdgeRows15Agree(r: int)
    requires 0 <= r < 16
    ensures EdgeRows15(r) == CrossingMask(240 + r)
  {
    if r < 4 {
      EdgeRows15Agree0();
    } else if r < 8 {
      EdgeRows15Agree1();
    } else if r < 12 {
      EdgeRows15Agree2();
    } else {
      EdgeRows15Agree3();
    }
  }

  lemma EdgeBlockAgrees(b: int, r: int)
    requires 0 <= b < 16 && 0 <= r < 16
    ensures EdgeBlock(b, r) == CrossingMask(16 * b + r)
  {
    match b
    case 0 => EdgeRows0Agree(r);
    case 1 => EdgeRows1Agree(r);
    case 2 => EdgeRows2Agree(r);
    case 3 => EdgeRows3Agree(r);
    case 4 => EdgeRows4Agree(r);
    case 5 => EdgeRows5Agree(r);
    case 6 => EdgeRows6Agree(r);
    case 7 => EdgeRows7Agree(r);
    case 8 => EdgeRows8Agree(r);
    case 9 => EdgeRows9Agree(r);
    case 10 => EdgeRows10Agree(r);
    case 11 => EdgeRows11Agree(r);
    case 12 => EdgeRows12Agree(r);
    case 13 => EdgeRows13Agree(r);
    case 14 => EdgeRows14Agree(r);
    case _ => EdgeRows15Agree(r);
  }

  /** Entry `ci` of the edge table is the crossing mask of `ci`. */
  lemma EdgeTableIsCrossingMask(ci: int)
    requires 0 <= ci < 256
    ensures EdgeTable(ci) == CrossingMask(ci)
  {
    EdgeBlockAgrees(ci / 16, ci % 16);
  }

  /** Bit `e` of the crossing mask is the crossing digit of edge `e`. */
  lemma CrossingMaskBits(ci: int, e: nat)
    ensures HasBit(CrossingMask(ci), e) <==> e < 12 && CrossDigit(ci, e) == 1
  {
    CrossingMaskIsFromBits(ci);
    FromBitsBits(CrossedEdges(ci), e);
  }

  lemma CrossingMaskMarksCrossedEdges(ci: int, e: nat)
    ensures HasBit(CrossingMask(ci), e) <==> e < 12 && HasBit(ci, EdgeStart(e)) != HasBit(ci, EdgeEnd(e))
  {
    CrossingMaskBits(ci, e);
    if e < 12 {
      var a, b := EdgeStart(e), EdgeEnd(e);
      CornerBitIsHasBit(ci, a);
      CornerBitIsHasBit(ci, b);
      assert CrossDigit(ci, e) == 1 <==> CornerBit(ci, a) != CornerBit(ci, b);
    }
  }

  /**
   * Bit `e` of `edgeTable[ci]` is set exactly when `e` is one of the twelve
   * edges and its two corners lie on different sides of the surface, that
   * is exactly one of the two corner bits of `ci` is set.
   */
  lemma EdgeTableMarksCrossedEdges(ci: int, e: nat)
    requires 0 <= ci < 256
    ensures HasBit(EdgeTable(ci), e) <==> e < 12 && HasBit(ci, EdgeStart(e)) != HasBit(ci, EdgeEnd(e))
  {
    EdgeTableIsCrossingMask(ci);
    CrossingMaskMarksCrossedEdges(ci, e);
  }

  /** Every edge-table entry fits in twelve bits. */
  lemma EdgeTableFitsTwelveBits(ci: int)
    requires 0 <= ci < 256
    ensures 0 <= EdgeTable(ci) < 4096
  {
    EdgeTableIsCrossingMask(ci);
    CrossingMaskIsFromBits(ci);
    FromBitsBound(CrossedEdges(ci));
    assert Pow2(12) == 4096;
  }

  /** Complementing a cube index complements each of its eight corner bits. */
  lemma ComplementCornerBit(ci: int, c: int)
    requires 0 <= ci < 256 && 0 <= c < 8
    ensures CornerBit(255 - ci, c) == 1 - CornerBit(ci, c)
  {
    CornerBitIsHasBit(ci, c);
    CornerBitIsHasBit(255 - ci, c);
    assert Pow2(8) == 256;
    ComplementHasBit(8, ci, c);
  }

  /**
   * A cube and its complement (every corner flipped) cross the same edges:
   * `edgeTable[ci] == edgeTable[255 - ci]`.
   */
  lemma EdgeTableComplementSymmetric(ci: int)
    requires 0 <= ci < 256
    ensures EdgeTable(255 - ci) == EdgeTable(ci)
  {
    EdgeTableIsCrossingMask(ci);
    EdgeTableIsCrossingMask(255 - ci);
    forall c | 0 <= c < 8
      ensures CornerBit(255 - ci, c) == 1 - CornerBit(ci, c)
    {
      ComplementCornerBit(ci, c);
    }
    assert forall e | 0 <= e < 12 :: CrossDigit(255 - ci, e) == CrossDigit(ci, e);
  }

  lemma EdgeRows0NonZero()
    ensures forall r | 1 <= r < 16 :: EdgeRows0(r) != 0
  {
  }

  lemma EdgeRows1NonZero()
    ensures forall r | 0 <= r < 16 :: EdgeRows1(r) != 0
  {
  }

  lemma EdgeRows2NonZero()
    ensures forall r | 0 <= r < 16 :: EdgeRows2(r) != 0
  {
  }

  lemma EdgeRows3NonZero()
    ensures forall r | 0 <= r < 16 :: EdgeRows3(r) != 0
  {
  }

  lemma EdgeRows4NonZero()
    ensures forall r | 0 <= r < 16 :: EdgeRows4(r) != 0
  {
  }

  lemma EdgeRows5NonZero()
    ensures forall r | 0 <= r < 16 :: EdgeRows5(r) != 0
  {
  }

  lemma EdgeRows6NonZero()
    ensures forall r | 0 <= r < 16 :: EdgeRows6(r) != 0
  {
  }

  lemma EdgeRows7NonZero()
    ensures forall r | 0 <= r < 16 :: EdgeRows7(r) != 0
  {
  }

  lemma EdgeRows8NonZero()
    ensures forall r | 0 <= r < 16 :: EdgeRows8(r) != 0
  {
  }

  lemma EdgeRows9NonZero()
    ensures forall r | 0 <= r < 16 :: EdgeRows9(r) != 0
  {
  }

  lemma EdgeRows10NonZero()
    ensures forall r | 0 <= r < 16 :: EdgeRows10(r) != 0
  {
  }

  lemma EdgeRows11NonZero()
    ensures forall r | 0 <= r < 16 :: EdgeRows11(r) != 0
  {
  }

  lemma EdgeRows12NonZero()
    ensures forall r | 0 <= r < 16 :: EdgeRows12(r) != 0
  {
  }

  lemma EdgeRows13NonZero()
    ensures forall r | 0 <= r < 16 :: EdgeRows13(r) != 0
  {
  }

  lemma EdgeRows14NonZero()
    ensures forall r | 0 <= r < 16 :: EdgeRows14(r) != 0
  {
  }

  lemma EdgeRows15NonZero()
    ensures forall r | 0 <= r < 15 :: EdgeRows15(r) != 0
  {
  }

  /**
   * The edge-table entry is zero exactly for the two uniform cubes, all
   * corners below the level (255) or none (0); every other cube has a
   * crossed edge.
   */
  lemma EdgeTableZeroExactlyWhenUniform(ci: int)
    requires 0 <= ci < 256
    ensures EdgeTable(ci) == 0 <==> ci == 0 || ci == 255
  {
    var b, r := ci / 16, ci % 16;
    assert ci == 0 <==> b == 0 && r == 0;
    assert ci == 255 <==> b == 15 && r == 15;
    match b
    case 0 => EdgeRows0NonZero();
    case 1 => EdgeRows1NonZero();
    case 2 => EdgeRows2NonZero();
    case 3 => EdgeRows3NonZero();
    case 4 => EdgeRows4NonZero();
    case 5 => EdgeRows5NonZero();
    case 6 => EdgeRows6NonZero();
    case 7 => EdgeRows7NonZero();
    case 8 => EdgeRows8NonZero();
    case 9 => EdgeRows9NonZero();
    case 10 => EdgeRows10NonZero();
    case 11 => EdgeRows11NonZero();
    case 12 => EdgeRows12NonZero();
    case 13 => EdgeRows13NonZero();
    case 14 => EdgeRows14NonZero();
    case _ => EdgeRows15NonZero();
  }

  // ----- The triangle table -------------------------------------------------

  /** A row of the triangle table that the initialiser does not reach. */
  const ZeroRow: seq<int> := [0, 0, 0, 0, 0, 0, 0, 0, 0, 0, 0, 0, 0, 0, 0, 0]

  /**
   * `triTable[ci]`: rows 0 to 150 as initialised, rows 151 to 255
   * zero-filled.
   */
  function TriTable(ci: int): (row: seq<int>)
    requires 0 <= ci < 256
    ensures |row| == 16
  {
    match ci / 16
    case 0 => TriRows0(ci % 16)
    case 1 => TriRows1(ci % 16)
    case 2 => TriRows2(ci % 16)
    case 3 => TriRows3(ci % 16)
    case 4 => TriRows4(ci % 16)
    case 5 => TriRows5(ci % 16)
    case 6 => TriRows6(ci % 16)
    case 7 => TriRows7(ci % 16)
    case 8 => TriRows8(ci % 16)
    case 9 => TriRows9(ci % 16)
    case _ => ZeroRow
  }

  function TriRows0(r: int): (row: seq<int>)
    ensures |row| == 16
  {
    match r
    case 0 => [-1, -1, -1, -1, -1, -1, -1, -1, -1, -1, -1, -1, -1, -1, -1, -1]
    case 1 => [0, 8, 3, -1, -1, -1, -1, -1, -1, -1, -1, -1, -1, -1, -1, -1]
    case 2 => [0, 1, 9, -1, -1, -1, -1, -1, -1, -1, -1, -1, -1, -1, -1, -1]
    case 3 => [1, 8, 3, 9, 8, 1, -1, -1, -1, -1, -1, -1, -1, -1, -1, -1]
    case 4 => [1, 2, 10, -1, -1, -1, -1, -1, -1, -1, -1, -1, -1, -1, -1, -1]
    case 5 => [0, 8, 3, 1, 2, 10, -1, -1, -1, -1, -1, -1, -1, -1, -1, -1]
    case 6 => [9, 2, 10, 0, 2, 9, -1, -1, -1, -1, -1, -1, -1, -1, -1, -1]
    case 7 => [2, 8, 3, 2, 10, 8, 10, 9, 8, -1, -1, -1, -1, -1, -1, -1]
    case 8 => [3, 11, 2, -1, -1, -1, -1, -1, -1, -1, -1, -1, -1, -1, -1, -1]
    case 9 => [0, 11, 2, 8, 11, 0, -1, -1, -1, -1, -1, -1, -1, -1, -1, -1]
    case 10 => [1, 9, 0, 2, 3, 11, -1, -1, -1, -1, -1, -1, -1, -1, -1, -1]
    case 11 => [1, 11, 2, 1, 9, 11, 9, 8, 11, -1, -1, -1, -1, -1, -1, -1]
    case 12 => [3, 10, 1, 11, 10, 3, -1, -1, -1, -1, -1, -1, -1, -1, -1, -1]
    case 13 => [0, 10, 1, 0, 8, 10, 8, 11, 10, -1, -1, -1, -1, -1, -1, -1]
    case 14 => [3, 9, 0, 3, 11, 9, 11, 10, 9, -1, -1, -1, -1, -1, -1, -1]
    case _ => [9, 8, 10, 10, 8, 11, -1, -1, -1, -1, -1, -1, -1, -1, -1, -1]
  }

  function TriRows1(r: int): (row: seq<int>)
    ensures |row| == 16
  {
    match r
    case 0 => [4, 7, 8, -1, -1, -1, -1, -1, -1, -1, -1, -1, -1, -1, -1, -1]
    case 1 => [4, 3, 0, 7, 3, 4, -1, -1, -1, -1, -1, -1, -1, -1, -1, -1]
    case 2 => [0, 1, 9, 8, 4, 7, -1, -1, -1, -1, -1, -1, -1, -1, -1, -1]
    case 3 => [4, 1, 9, 4, 7, 1, 7, 3, 1, -1, -1, -1, -1, -1, -1, -1]
    case 4 => [1, 2, 10, 8, 4, 7, -1, -1, -1, -1, -1, -1, -1, -1, -1, -1]
    case 5 => [3, 4, 7, 3, 0, 4, 1, 2, 10, -1, -1, -1, -1, -1, -1, -1]
    case 6 => [9, 2, 10, 9, 0, 2, 8, 4, 7, -1, -1, -1, -1, -1, -1, -1]
    case 7 => [2, 10, 9, 2, 9, 7, 2, 7, 3, 7, 9, 4, -1, -1, -1, -1]
    case 8 => [8, 4, 7, 3, 11, 2, -1, -1, -1, -1, -1, -1, -1, -1, -1, -1]
    case 9 => [11, 4, 7, 11, 2, 4, 2, 0, 4, -1, -1, -1, -1, -1, -1, -1]
    case 10 => [9, 0, 1, 8, 4, 7, 2, 3, 11, -1, -1, -1, -1, -1, -1, -1]
    case 11 => [4, 7, 11, 9, 4, 11, 9, 11, 2, 9, 2, 1, -1, -1, -1, -1]
    case 12 => [3, 10, 1, 3, 11, 10, 7, 8, 4, -1, -1, -1, -1, -1, -1, -1]
    case 13 => [1, 11, 10, 1, 4, 11, 1, 0, 4, 7, 11, 4, -1, -1, -1, -1]
    case 14 => [4, 7, 8, 9, 0, 11, 9, 11, 10, 11, 0, 3, -1, -1, -1, -1]
    case _ => [4, 7, 11, 4, 11, 9, 9, 11, 10, -1, -1, -1, -1, -1, -1, -1]
  }

  function TriRows2(r: int): (row: seq<int>)
    ensures |row| == 16
  {
    match r
    case 0 => [9, 5, 4, -1, -1, -1, -1, -1, -1, -1, -1, -1, -1, -1, -1, -1]
    case 1 => [9, 5, 4, 0, 8, 3, -1, -1, -1, -1, -1, -1, -1, -1, -1, -1]
    case 2 => [0, 5, 4, 1, 5, 0, -1, -1, -1, -1, -1, -1, -1, -1, -1, -1]
    case 3 => [8, 5, 4, 8, 3, 5, 3, 1, 5, -1, -1, -1, -1, -1, -1, -1]
    case 4 => [1, 2, 10, 9, 5, 4, -1, -1, -1, -1, -1, -1, -1, -1, -1, -1]
    case 5 => [3, 0, 8, 1, 2, 10, 4, 9, 5, -1, -1, -1, -1, -1, -1, -1]
    case 6 => [5, 2, 10, 5, 4, 2, 4, 0, 2, -1, -1, -1, -1, -1, -1, -1]
    case 7 => [2, 10, 5, 3, 2, 5, 3, 5, 4, 3, 4, 8, -1, -1, -1, -1]
    case 8 => [9, 5, 4, 2, 3, 11, -1, -1, -1, -1, -1, -1, -1, -1, -1, -1]
    case 9 => [0, 11, 2, 0, 8, 11, 4, 9, 5, -1, -1, -1, -1, -1, -1, -1]
    case 10 => [0, 5, 4, 0, 1, 5, 2, 3, 11, -1, -1, -1, -1, -1, -1, -1]
    case 11 => [2, 1, 5, 2, 5, 8, 2, 8, 11, 4, 8, 5, -1, -1, -1, -1]
    case 12 => [10, 3, 11, 10, 1, 3, 9, 5, 4, -1, -1, -1, -1, -1, -1, -1]
    case 13 => [4, 9, 5, 0, 8, 1, 8, 10, 1, 8, 11, 10, -1, -1, -1, -1]
    case 14 => [5, 4, 0, 5, 0, 11, 5, 11, 10, 11, 0, 3, -1, -1, -1, -1]
    case _ => [5, 4, 8, 5, 8, 10, 10, 8, 11, -1, -1, -1, -1, -1, -1, -1]
  }

  function TriRows3(r: int): (row: seq<int>)
    ensures |row| == 16
  {
    match r
    case 0 => [9, 7, 8, 5, 7, 9, -1, -1, -1, -1, -1, -1, -1, -1, -1, -1]
    case 1 => [9, 3, 0, 9, 5, 3, 5, 7, 3, -1, -1, -1, -1, -1, -1, -1]
    case 2 => [0, 7, 8, 0, 1, 7, 1, 5, 7, -1, -1, -1, -1, -1, -1, -1]
    case 3 => [1, 5, 3, 3, 5, 7, -1, -1, -1, -1, -1, -1, -1, -1, -1, -1]
    case 4 => [9, 7, 8, 9, 5, 7, 10, 1, 2, -1, -1, -1, -1, -1, -1, -1]
    case 5 => [10, 1, 2, 9, 5, 0, 5, 3, 0, 5, 7, 3, -1, -1, -1, -1]
    case 6 => [8, 0, 2, 8, 2, 5, 8, 5, 7, 10, 5, 2, -1, -1, -1, -1]
    case 7 => [2, 10, 5, 2, 5, 3, 3, 5, 7, -1, -1, -1, -1, -1, -1, -1]
    case 8 => [7, 9, 5, 7, 8, 9, 3, 11, 2, -1, -1, -1, -1, -1, -1, -1]
    case 9 => [9, 5, 7, 9, 7, 2, 9, 2, 0, 2, 7, 11, -1, -1, -1, -1]
    case 10 => [2, 3, 11, 0, 1, 8, 1, 7, 8, 1, 5, 7, -1, -1, -1, -1]
    case 11 => [11, 2, 1, 11, 1, 7, 7, 1, 5, -1, -1, -1, -1, -1, -1, -1]
    case 12 => [9, 5, 8, 8, 5, 7, 10, 1, 3, 10, 3, 11, -1, -1, -1, -1]
    case 13 => [5, 7, 0, 5, 0, 9, 7, 11, 0, 1, 0, 10, 11, 10, 0, -1]
    case 14 => [11, 10, 0, 11, 0, 3, 10, 5, 0, 8, 0, 7, 5, 7, 0, -1]
    case _ => [11, 10, 5, 7, 11, 5, -1, -1, -1, -1, -1, -1, -1, -1, -1, -1]
  }

  function TriRows4(r: int): (row: seq<int>)
    ensures |row| == 16
  {
    match r
    case 0 => [10, 5, 6, 11, 7, 8, 11, 8, 3, 9, 0, 1, -1, -1, -1, -1]
    case 1 => [6, 10, 5, 7, 11, 3, 7, 3, 0, 4, 9, 8, -1, -1, -1, -1]
    case 2 => [5, 6, 10, 4, 7, 11, 4, 11, 9, 9, 11, 2, 9, 2, 1, -1]
    case 3 => [11, 7, 2, 7, 6, 2, 8, 4, 9, 8, 9, 3, 3, 9, 1, -1]
    case 4 => [2, 3, 6, 3, 7, 6, 0, 1, 9, 4, 7, 8, -1, -1, -1, -1]
    case 5 => [1, 9, 0, 2, 3, 6, 3, 7, 6, 4, 7, 8, -1, -1, -1, -1]
    case 6 => [1, 2, 10, 5, 6, 4, 6, 7, 4, 3, 0, 8, -1, -1, -1, -1]
    case 7 => [10, 5, 2, 5, 6, 2, 8, 4, 7, 9, 0, 1, -1, -1, -1, -1]
    case 8 => [6, 2, 5, 2, 1, 5, 7, 8, 4, 3, 0, 6, -1, -1, -1, -1]
    case 9 => [1, 5, 2, 5, 6, 2, 4, 7, 8, -1, -1, -1, -1, -1, -1, -1]
    case 10 => [9, 5, 4, 2, 3, 11, 6, 10, 7, 10, 8, 7, -1, -1, -1, -1]
    case 11 => [5, 4, 9, 10, 7, 6, 10, 8, 7, 2, 3, 11, -1, -1, -1, -1]
    case 12 => [6, 10, 7, 10, 8, 7, 2, 3, 11, 0, 1, 4, 1, 5, 4, -1]
    case 13 => [7, 6, 10, 7, 10, 8, 5, 4, 9, 1, 2, 3, 1, 3, 11, -1]
    case 14 => [4, 9, 5, 0, 8, 6, 0, 6, 2, 6, 8, 7, -1, -1, -1, -1]
    case _ => [6, 2, 7, 2, 3, 7, 4, 9, 5, 0, 1, 8, 1, 7, 8, -1]
  }

  function TriRows5(r: int): (row: seq<int>)
    ensures |row| == 16
  {
    match r
    case 0 => [6, 2, 7, 2, 3, 7, 5, 4, 1, 4, 0, 1, -1, -1, -1, -1]
    case 1 => [3, 7, 2, 7, 6, 2, 1, 5, 0, 5, 4, 0, -1, -1, -1, -1]
    case 2 => [6, 10, 5, 7, 8, 4, 3, 11, 2, -1, -1, -1, -1, -1, -1, -1]
    case 3 => [5, 6, 10, 4, 7, 8, 0, 1, 9, 2, 3, 11, -1, -1, -1, -1]
    case 4 => [2, 3, 11, 1, 9, 0, 5, 6, 10, 4, 7, 8, -1, -1, -1, -1]
    case 5 => [11, 2, 1, 11, 1, 7, 7, 1, 5, 4, 7, 8, -1, -1, -1, -1]
    case 6 => [9, 5, 4, 10, 6, 1, 6, 2, 1, 7, 8, 3, -1, -1, -1, -1]
    case 7 => [6, 1, 2, 6, 5, 1, 4, 7, 8, 0, 9, 3, 9, 7, 3, -1]
    case 8 => [7, 8, 4, 6, 5, 2, 5, 1, 2, 3, 0, 6, 0, 6, 4, -1]
    case 9 => [2, 5, 6, 2, 1, 5, 8, 4, 7, 3, 0, 9, 0, 9, 4, -1]
    case 10 => [4, 9, 5, 7, 11, 6, 3, 0, 8, 2, 10, 1, -1, -1, -1, -1]
    case 11 => [0, 8, 3, 9, 5, 4, 10, 6, 1, 6, 2, 1, 7, 11, 6, -1]
    case 12 => [6, 2, 10, 5, 4, 11, 5, 11, 1, 1, 11, 3, 4, 7, 11, -1]
    case 13 => [6, 2, 10, 5, 4, 7, 5, 7, 11, 5, 11, 1, 1, 11, 3, -1]
    case 14 => [9, 5, 4, 2, 10, 1, 7, 6, 11, 3, 0, 8, -1, -1, -1, -1]
    case _ => [9, 5, 4, 0, 2, 10, 0, 10, 3, 3, 10, 11, 6, 7, 11, -1]
  }

  function TriRows6(r: int): (row: seq<int>)
    ensures |row| == 16
  {
    match r
    case 0 => [7, 6, 11, 5, 4, 10, 4, 2, 10, 4, 0, 2, -1, -1, -1, -1]
    case 1 => [3, 4, 7, 3, 0, 4, 10, 6, 11, 10, 11, 2, -1, -1, -1, -1]
    case 2 => [7, 6, 11, 4, 8, 5, 8, 1, 5, 8, 3, 1, -1, -1, -1, -1]
    case 3 => [5, 4, 0, 5, 0, 1, 7, 6, 11, 2, 3, 8, 2, 8, 0, -1]
    case 4 => [6, 11, 7, 5, 4, 1, 4, 0, 1, -1, -1, -1, -1, -1, -1, -1]
    case 5 => [6, 11, 7, 1, 5, 3, 5, 8, 3, 5, 4, 8, -1, -1, -1, -1]
    case 6 => [9, 5, 4, 7, 6, 11, 2, 3, 10, 3, 5, 10, 3, 4, 5, -1]
    case 7 => [9, 5, 4, 0, 8, 2, 8, 10, 2, 8, 7, 10, 7, 6, 10, -1]
    case 8 => [3, 10, 2, 3, 5, 10, 3, 4, 5, 3, 8, 4, 7, 6, 11, -1]
    case 9 => [5, 10, 2, 5, 2, 4, 4, 2, 0, 7, 6, 11, -1, -1, -1, -1]
    case 10 => [4, 9, 5, 6, 11, 7, -1, -1, -1, -1, -1, -1, -1, -1, -1, -1]
    case 11 => [4, 9, 5, 0, 8, 3, 7, 6, 11, -1, -1, -1, -1, -1, -1, -1]
    case 12 => [5, 0, 1, 5, 4, 0, 7, 6, 11, -1, -1, -1, -1, -1, -1, -1]
    case 13 => [11, 7, 6, 8, 3, 4, 3, 5, 4, 3, 1, 5, -1, -1, -1, -1]
    case 14 => [9, 5, 4, 10, 1, 2, 7, 6, 11, -1, -1, -1, -1, -1, -1, -1]
    case _ => [6, 11, 7, 1, 2, 10, 0, 8, 3, 4, 9, 5, -1, -1, -1, -1]
  }

  function TriRows7(r: int): (row: seq<int>)
    ensures |row| == 16
  {
    match r
    case 0 => [7, 6, 11, 5, 4, 10, 4, 2, 10, 4, 0, 2, -1, -1, -1, -1]
    case 1 => [3, 4, 8, 3, 5, 4, 3, 2, 5, 10, 5, 2, 11, 7, 6, -1]
    case 2 => [7, 2, 3, 6, 2, 7, 5, 4, 9, -1, -1, -1, -1, -1, -1, -1]
    case 3 => [9, 5, 4, 0, 8, 6, 0, 6, 2, 6, 8, 7, -1, -1, -1, -1]
    case 4 => [3, 6, 2, 3, 7, 6, 1, 5, 0, 5, 4, 0, -1, -1, -1, -1]
    case 5 => [6, 2, 7, 2, 3, 7, 5, 4, 1, 4, 0, 1, -1, -1, -1, -1]
    case 6 => [2, 10, 1, 7, 6, 8, 6, 4, 8, 6, 5, 4, -1, -1, -1, -1]
    case 7 => [1, 2, 10, 3, 7, 0, 7, 4, 0, 7, 6, 4, 5, 4, 6, -1]
    case 8 => [4, 0, 2, 4, 2, 5, 5, 2, 10, 7, 6, 8, 6, 11, 8, -1]
    case 9 => [3, 7, 2, 7, 6, 2, 5, 4, 10, 4, 2, 10, -1, -1, -1, -1]
    case 10 => [6, 10, 5, 7, 6, 11, 4, 8, 9, 4, 9, 0, -1, -1, -1, -1]
    case 11 => [3, 7, 0, 7, 6, 0, 0, 6, 5, 0, 5, 9, -1, -1, -1, -1]
    case 12 => [7, 6, 11, 5, 4, 10, 4, 0, 10, 0, 2, 10, -1, -1, -1, -1]
    case 13 => [3, 7, 6, 3, 6, 2, 0, 4, 9, -1, -1, -1, -1, -1, -1, -1]
    case 14 => [6, 10, 5, 7, 6, 11, 8, 4, 2, 8, 2, 3, 4, 0, 2, -1]
    case _ => [6, 10, 5, 7, 6, 11, -1, -1, -1, -1, -1, -1, -1, -1, -1, -1]
  }

  function TriRows8(r: int): (row: seq<int>)
    ensures |row| == 16
  {
    match r
    case 0 => [3, 0, 8, 11, 6, 7, 10, 5, 6, -1, -1, -1, -1, -1, -1, -1]
    case 1 => [0, 1, 9, 11, 6, 7, 5, 6, 10, -1, -1, -1, -1, -1, -1, -1]
    case 2 => [8, 1, 9, 8, 3, 1, 11, 6, 7, 10, 5, 6, -1, -1, -1, -1]
    case 3 => [10, 1, 2, 6, 7, 11, -1, -1, -1, -1, -1, -1, -1, -1, -1, -1]
    case 4 => [1, 2, 10, 3, 0, 8, 6, 7, 11, -1, -1, -1, -1, -1, -1, -1]
    case 5 => [2, 9, 0, 2, 10, 9, 6, 7, 11, -1, -1, -1, -1, -1, -1, -1]
    case 6 => [6, 7, 11, 2, 10, 3, 10, 8, 3, 10, 9, 8, -1, -1, -1, -1]
    case 7 => [7, 2, 3, 6, 2, 7, 5, 4, 9, -1, -1, -1, -1, -1, -1, -1]
    case 8 => [9, 5, 4, 0, 8, 2, 8, 7, 2, 7, 6, 2, -1, -1, -1, -1]
    case 9 => [2, 3, 6, 3, 7, 6, 0, 1, 5, 0, 5, 4, -1, -1, -1, -1]
    case 10 => [6, 2, 7, 2, 3, 7, 1, 5, 4, 1, 4, 0, -1, -1, -1, -1]
    case 11 => [4, 9, 5, 11, 6, 7, 2, 3, 10, 3, 1, 10, 3, 8, 1, -1]
    case 12 => [1, 10, 2, 0, 8, 7, 0, 7, 4, 7, 6, 4, 9, 5, 4, -1]
    case 13 => [4, 0, 2, 4, 2, 5, 5, 2, 10, 7, 6, 8, 6, 11, 8, -1]
    case 14 => [7, 6, 11, 4, 5, 8, 5, 10, 8, 10, 2, 8, 2, 3, 8, -1]
    case _ => [6, 4, 9, 6, 9, 11, 11, 9, 8, -1, -1, -1, -1, -1, -1, -1]
  }

  function TriRows9(r: int): (row: seq<int>)
    ensures |row| == 16
  {
    match r
    case 0 => [3, 6, 11, 0, 6, 3, 0, 4, 6, 9, 5, 4, -1, -1, -1, -1]
    case 1 => [0, 11, 8, 0, 5, 11, 0, 1, 5, 5, 6, 11, -1, -1, -1, -1]
    case 2 => [6, 11, 3, 6, 3, 5, 5, 3, 1, -1, -1, -1, -1, -1, -1, -1]
    case 3 => [1, 2, 10, 9, 5, 11, 9, 11, 8, 11, 5, 6, -1, -1, -1, -1]
    case 4 => [0, 11, 3, 0, 6, 11, 0, 9, 6, 5, 6, 9, 1, 2, 10, -1]
    case 5 => [11, 3, 6, 3, 0, 6, 6, 0, 5, 5, 0, 4, -1, -1, -1, -1]
    case 6 => [6, 11, 3, 6, 3, 5, 5, 3, 1, 4, 5, 0, 5, 6, 4, -1]
    case 7 => ZeroRow
    case 8 => ZeroRow
    case 9 => ZeroRow
    case 10 => ZeroRow
    case 11 => ZeroRow
    case 12 => ZeroRow
    case 13 => ZeroRow
    case 14 => ZeroRow
    case _ => ZeroRow
  }

  /** Rows 151 to 255 are the zero-filled rows. */
  lemma UnfilledRowsAreZero(ci: int)
    requires 151 <= ci < 256
    ensures TriTable(ci) == ZeroRow
  {
  }

  // ----- Reading a triangle-table row ---------------------------------------

  /** The three edges whose vertices make one triangle. */
  datatype EdgeTriple = EdgeTriple(a: int, b: int, c: int)

  predicate IsEdge(e: int) {
    0 <= e < 12
  }

  predicate IsEdgeTriple(t: EdgeTriple) {
    IsEdge(t.a) && IsEdge(t.b) && IsEdge(t.c)
  }

  /** The triple made of entries `n`, `n + 1` and `n + 2` of `row`. */
  function TripleAt(row: seq<int>, n: nat): EdgeTriple
    requires n + 2 < |row|
  {
    EdgeTriple(row[n], row[n + 1], row[n + 2])
  }

  /**
   * The triples visited by `for (i = n; row[i] != -1; i += 3)` whose three
   * entries index the 12-slot vertex list. `None` when the loop would read
   * past the end of the row, or use an entry outside 0..11 as an index of
   * the vertex list: both are undefined behaviour in the source.
   */
  function ScanRow(row: seq<int>, n: nat): (r: Option<seq<EdgeTriple>>)
    ensures r.Some? ==> forall j | 0 <= j < |r.value| :: IsEdgeTriple(r.value[j])
    decreases |row| - n
  {
    if n >= |row| then None
    else if row[n] == -1 then Some([])
    else if n + 2 >= |row| || !IsEdgeTriple(TripleAt(row, n)) then None
    else match ScanRow(row, n + 3)
      case None => None
      case Some(ts) => Some([TripleAt(row, n)] + ts)
  }

  /**
   * `ts` are the triples at `n`, `n + 3`, ... of `row`, each made of edge
   * numbers and none starting with the sentinel, and the sentinel -1 sits
   * right after them.
   */
  ghost predicate ScannedTo(row: seq<int>, n: nat, ts: seq<EdgeTriple>) {
    n + 3 * |ts| < |row| && row[n + 3 * |ts|] == -1 &&
    forall j | 0 <= j < |ts| ::
      row[n + 3 * j] != -1 && ts[j] == TripleAt(row, n + 3 * j) && IsEdgeTriple(ts[j])
  }

  /** A successful scan stops at the first sentinel found at a triple boundary. */
  lemma {:induction false} ScanRowSound(row: seq<int>, n: nat)
    requires ScanRow(row, n).Some?
    ensures ScannedTo(row, n, ScanRow(row, n).value)
    decreases |row| - n
  {
    if row[n] != -1 {
      ScanRowSound(row, n + 3);
      var ts := ScanRow(row, n + 3).value;
      var us := ScanRow(row, n).value;
      assert us == [TripleAt(row, n)] + ts;
      forall j | 0 <= j < |us|
        ensures row[n + 3 * j] != -1 && us[j] == TripleAt(row, n + 3 * j) && IsEdgeTriple(us[j])
      {
        if j > 0 {
          assert us[j] == ts[j - 1];
          assert n + 3 * j == (n + 3) + 3 * (j - 1);
        }
      }
    }
  }

  /** Conversely, a row laid out as `ScannedTo` describes scans to exactly `ts`. */
  lemma {:induction false} ScanRowComplete(row: seq<int>, n: nat, ts: seq<EdgeTriple>)
    requires ScannedTo(row, n, ts)
    ensures ScanRow(row, n) == Some(ts)
    decreases |ts|
  {
    if |ts| > 0 {
      assert row[n] != -1 && ts[0] == TripleAt(row, n);
      forall j | 0 <= j < |ts| - 1
        ensures row[(n + 3) + 3 * j] != -1 && ts[1..][j] == TripleAt(row, (n + 3) + 3 * j)
        ensures IsEdgeTriple(ts[1..][j])
      {
        assert (n + 3) + 3 * j == n + 3 * (j + 1);
      }
      ScanRowComplete(row, n + 3, ts[1..]);
      assert ts == [ts[0]] + ts[1..];
    }
  }

  /** `t` is made of edges whose bits are set in `mask`. */
  predicate Marked(mask: int, t: EdgeTriple) {
    IsEdgeTriple(t) && HasBit(mask, t.a) && HasBit(mask, t.b) && HasBit(mask, t.c)
  }

  /**
   * The scan the table-driven emission evidently intends: it stops at the
   * sentinel or where no whole triple is left in the row, and keeps only
   * the triples whose three edges are marked in `mask`, the edges whose
   * vertices were computed.
   */
  function GuardedScan(row: seq<int>, mask: int, n: nat): (ts: seq<EdgeTriple>)
    ensures forall j | 0 <= j < |ts| :: Marked(mask, ts[j])
    ensures 3 * |ts| <= |row| - n || |ts| == 0
    decreases |row| - n
  {
    if n + 2 >= |row| || row[n] == -1 then []
    else
      var rest := GuardedScan(row, mask, n + 3);
      if Marked(mask, TripleAt(row, n)) then [TripleAt(row, n)] + rest else rest
  }

  /**
   * Where the as-written scan succeeds and only uses marked edges, the
   * guarded scan yields the same triples.
   */
  lemma {:induction false} GuardedScanAgrees(row: seq<int>, mask: int, n: nat)
    requires ScanRow(row, n).Some?
    requires forall j | 0 <= j < |ScanRow(row, n).value| :: Marked(mask, ScanRow(row, n).value[j])
    ensures GuardedScan(row, mask, n) == ScanRow(row, n).value
    decreases |row| - n
  {
    if row[n] != -1 {
      var ts := ScanRow(row, n + 3).value;
      assert ScanRow(row, n).value == [TripleAt(row, n)] + ts;
      assert ScanRow(row, n).value[0] == TripleAt(row, n);
      forall j | 0 <= j < |ts|
        ensures Marked(mask, ts[j])
      {
        assert ts[j] == ScanRow(row, n).value[j + 1];
      }
      GuardedScanAgrees(row, mask, n + 3);
    }
  }

  /** A triangle whose corners are vertex-list entries of type `V`. */
  datatype Tri<V> = Tri(v0: V, v1: V, v2: V)

  /** One triangle per triple, its corners the vertex-list entries the triple names. */
  function TrianglesOf<V>(ts: seq<EdgeTriple>, vertList: seq<V>): (tris: seq<Tri<V>>)
    requires |vertList| == 12
    requires forall j | 0 <= j < |ts| :: IsEdgeTriple(ts[j])
  {
    seq(|ts|, j requires 0 <= j < |ts| && IsEdgeTriple(ts[j]) => Tri(vertList[ts[j].a], vertList[ts[j].b], vertList[ts[j].c]))
  }

  /** Emitting one more triple in front emits its triangle in front. */
  lemma TrianglesOfCons<V>(t: EdgeTriple, ts: seq<EdgeTriple>, vertList: seq<V>)
    requires |vertList| == 12 && IsEdgeTriple(t)
    requires forall j | 0 <= j < |ts| :: IsEdgeTriple(ts[j])
    ensures TrianglesOf([t] + ts, vertList) ==
      [Tri(vertList[t.a], vertList[t.b], vertList[t.c])] + TrianglesOf(ts, vertList)
  {
    var us := [t] + ts;
    assert forall j | 0 < j < |us| :: us[j] == ts[j - 1];
  }

  // ----- Two defects of the triangle table as initialised --------------------

  /**
   * The zero-filled rows 151 to 255 contain no sentinel: the as-written
   * scan of `triTable[ci]` runs past the end of the row.
   */
  lemma UnfilledRowsOverrun(ci: int)
    requires 151 <= ci < 256
    ensures ScanRow(TriTable(ci), 0) == None
  {
    UnfilledRowsAreZero(ci);
    assert ScanRow(ZeroRow, 15) == None;
    assert ScanRow(ZeroRow, 12) == None;
    assert ScanRow(ZeroRow, 9) == None;
    assert ScanRow(ZeroRow, 6) == None;
    assert ScanRow(ZeroRow, 3) == None;
  }

  /**
   * Row 64 names edge 11 in its second triple, but cube 64 (only corner 6
   * set) does not cross edge 11, from corner 3 to corner 7, so its vertex
   * is never computed for that cube.
   */
  lemma Row64UsesUncrossedEdge()
    ensures ScanRow(TriTable(64), 0).Some?
    ensures |ScanRow(TriTable(64), 0).value| == 4
    ensures ScanRow(TriTable(64), 0).value[1] == EdgeTriple(11, 7, 8)
    ensures !HasBit(EdgeTable(64), 11)
  {
    var row := TriTable(64);
    assert row == [10, 5, 6, 11, 7, 8, 11, 8, 3, 9, 0, 1, -1, -1, -1, -1];
    var t0, t1, t2, t3 := EdgeTriple(10, 5, 6), EdgeTriple(11, 7, 8), EdgeTriple(11, 8, 3), EdgeTriple(9, 0, 1);
    assert TripleAt(row, 0) == t0 && TripleAt(row, 3) == t1;
    assert TripleAt(row, 6) == t2 && TripleAt(row, 9) == t3;
    assert ScanRow(row, 12) == Some([]);
    assert ScanRow(row, 9).value == [t3];
    assert ScanRow(row, 6).value == [t2, t3];
    assert ScanRow(row, 3).value == [t1, t2, t3];
    assert ScanRow(row, 0).value == [t0, t1, t2, t3];
    EdgeTableMarksCrossedEdges(64, 11);
    CornerBitIsHasBit(64, 3);
    CornerBitIsHasBit(64, 7);
  }
}
