/**
 * Positions in a flat buffer holding a three-dimensional grid row by row:
 * sample `(x, y, z)` of an `nx` by `ny` by `nz` grid sits at
 * `x + nx * (y + ny * z)`, so `x` varies fastest and `z` slowest.
 */
module FlatIndex {

  /** Position of sample `(x, y, z)` in the flat buffer. */
  function Idx(nx: int, ny: int, x: int, y: int, z: int): int {
    x + nx * (y + ny * z)
  }

  lemma MulLeft(n: int, a: int, b: int)
    requires n >= 0 && a <= b
    ensures n * a <= n * b
  {
    assert n * b - n * a == n * (b - a);
  }

  /** A digit below `n` followed by a digit below `m` is a number below `n * m`. */
  lemma MixedRadixBound(a: int, n: int, b: int, m: int)
    requires 0 <= a < n && 0 <= b < m
    ensures 0 <= a + n * b < n * m
  {
    MulLeft(n, 0, b);
    MulLeft(n, b, m - 1);
    assert n * (m - 1) == n * m - n;
  }

  /** Division and remainder by `n` take `a + n * b` apart again. */
  lemma MixedRadixDigits(a: int, n: int, b: int)
    requires 0 <= a < n
    ensures (a + n * b) / n == b && (a + n * b) % n == a
  {
    var s := a + n * b;
    var q, r := s / n, s % n;
    assert n * (q - b) == a - r;
    if q - b >= 1 {
      MulLeft(n, 1, q - b);
    } else if q - b <= -1 {
      MulLeft(n, q - b, -1);
    }
  }

  /** Every sample of the grid has its place in a buffer of `nx * ny * nz` values. */
  lemma IdxInRange(nx: int, ny: int, nz: int, x: int, y: int, z: int)
    requires 0 <= x < nx && 0 <= y < ny && 0 <= z < nz
    ensures 0 <= Idx(nx, ny, x, y, z) < nx * ny * nz
  {
    MixedRadixBound(y, ny, z, nz);
    MixedRadixBound(x, nx, y + ny * z, ny * nz);
    assert nx * (ny * nz) == nx * ny * nz;
  }

  /** The coordinates can be read back from the position. */
  lemma IdxDigits(nx: int, ny: int, x: int, y: int, z: int)
    requires 0 <= x < nx && 0 <= y < ny
    ensures Idx(nx, ny, x, y, z) % nx == x
    ensures Idx(nx, ny, x, y, z) / nx % ny == y
    ensures Idx(nx, ny, x, y, z) / nx / ny == z
  {
    MixedRadixDigits(x, nx, y + ny * z);
    MixedRadixDigits(y, ny, z);
  }

  /** Distinct samples have distinct positions. */
  lemma IdxInjective(nx: int, ny: int, x1: int, y1: int, z1: int, x2: int, y2: int, z2: int)
    requires 0 <= x1 < nx && 0 <= y1 < ny && 0 <= x2 < nx && 0 <= y2 < ny
    ensures Idx(nx, ny, x1, y1, z1) == Idx(nx, ny, x2, y2, z2) <==> x1 == x2 && y1 == y2 && z1 == z2
  {
    IdxDigits(nx, ny, x1, y1, z1);
    IdxDigits(nx, ny, x2, y2, z2);
  }

  /** Positions run on by one along `x`, and from the end of a row to the start of the next. */
  lemma IdxSteps(nx: int, ny: int, x: int, y: int, z: int)
    ensures Idx(nx, ny, x + 1, y, z) == Idx(nx, ny, x, y, z) + 1
    ensures Idx(nx, ny, nx, y, z) == Idx(nx, ny, 0, y + 1, z)
    ensures Idx(nx, ny, 0, ny, z) == Idx(nx, ny, 0, 0, z + 1)
    ensures Idx(nx, ny, 0, 0, 0) == 0
  {
    assert nx * (y + ny * z) + nx == nx * (y + 1 + ny * z);
    assert nx * (ny + ny * z) == nx * (0 + ny * (z + 1));
  }

  /** The position just past the last sample is the number of samples. */
  lemma IdxEnd(nx: int, ny: int, nz: int)
    ensures Idx(nx, ny, 0, 0, nz) == nx * ny * nz
  {
    assert nx * (0 + ny * nz) == nx * ny * nz;
  }

  /** Number of cells along an axis with `n` samples: the loop bound `n - 1`, at least 0. */
  function Cells(n: int): nat {
    if n >= 1 then n - 1 else 0
  }
}
