/**
 * Edge-pixel extraction from a stack of binary images (extraccion.cpp):
 * a pixel is an edge when it is set and one of its eight neighbours is
 * clear or lies off the image; every edge pixel of image `k` becomes the
 * point `(col, rows - row, k)` of a point cloud.
 */
module EdgeExtraction {
  import opened Geometry

  /** A grey-level image: `rows` rows of `cols` pixel values. */
  datatype Image = Image(rows: int, cols: int, pixels: seq<seq<int>>)

  predicate WellFormed(img: Image) {
    img.rows >= 0 && img.cols >= 0 && |img.pixels| == img.rows &&
    forall r | 0 <= r < img.rows :: |img.pixels[r]| == img.cols
  }

  predicate Inside(img: Image, r: int, c: int) {
    0 <= r < img.rows && 0 <= c < img.cols
  }

  /** `img.at<uchar>(r, c)`. */
  function At(img: Image, r: int, c: int): int
    requires WellFormed(img) && Inside(img, r, c)
  {
    img.pixels[r][c]
  }

  /** A neighbour that makes its centre an edge: off the image, or clear. */
  predicate Exposed(img: Image, r: int, c: int)
    requires WellFormed(img)
  {
    !Inside(img, r, c) || At(img, r, c) == 0
  }

  /** `(r, c)` is one of the eight neighbours of `(row, col)`. */
  predicate Neighbour(row: int, col: int, r: int, c: int) {
    row - 1 <= r <= row + 1 && col - 1 <= c <= col + 1 && !(r == row && c == col)
  }

  /** The pixel at `(row, col)` is set and has an exposed neighbour. */
  predicate IsEdge(img: Image, row: int, col: int)
    requires WellFormed(img) && Inside(img, row, col)
  {
    At(img, row, col) != 0 &&
    exists r, c | row - 1 <= r <= row + 1 && col - 1 <= c <= col + 1 && !(r == row && c == col) ::
      Exposed(img, r, c)
  }

  /** A clear pixel is never an edge. */
  lemma ClearPixelIsNotEdge(img: Image, row: int, col: int)
    requires WellFormed(img) && Inside(img, row, col) && At(img, row, col) == 0
    ensures !IsEdge(img, row, col)
  {
  }

  /** A set pixel on the border of the image is an edge. */
  lemma SetBorderPixelIsEdge(img: Image, row: int, col: int)
    requires WellFormed(img) && Inside(img, row, col) && At(img, row, col) != 0
    requires row == 0 || row == img.rows - 1 || col == 0 || col == img.cols - 1
    ensures IsEdge(img, row, col)
  {
    if row == 0 {
      assert Neighbour(row, col, row - 1, col) && Exposed(img, row - 1, col);
    } else if row == img.rows - 1 {
      assert Neighbour(row, col, row + 1, col) && Exposed(img, row + 1, col);
    } else if col == 0 {
      assert Neighbour(row, col, row, col - 1) && Exposed(img, row, col - 1);
    } else {
      assert Neighbour(row, col, row, col + 1) && Exposed(img, row, col + 1);
    }
  }

  /** A set pixel whose eight neighbours are all inside and set is not an edge. */
  lemma SurroundedPixelIsNotEdge(img: Image, row: int, col: int)
    requires WellFormed(img) && Inside(img, row, col)
    requires forall r, c | Neighbour(row, col, r, c) :: Inside(img, r, c) && At(img, r, c) != 0
    ensures !IsEdge(img, row, col)
  {
  }

  /** `isEdgePixel`: the neighbour scan, row offset outer, column offset inner. */
  method IsEdgePixel(img: Image, row: int, col: int) returns (b: bool)
    requires WellFormed(img) && Inside(img, row, col)
    ensures b == IsEdge(img, row, col)
  {
    if img.pixels[row][col] == 0 {
      return false;
    }
    for dr := -1 to 2
      invariant forall r, c | Neighbour(row, col, r, c) && r < row + dr :: !Exposed(img, r, c)
    {
      for dc := -1 to 2
        invariant forall r, c | Neighbour(row, col, r, c) && (r < row + dr || (r == row + dr && c < col + dc)) ::
          !Exposed(img, r, c)
      {
        if dr == 0 && dc == 0 {
          continue;
        }
        var newRow, newCol := row + dr, col + dc;
        if newRow < 0 || newRow >= img.rows || newCol < 0 || newCol >= img.cols {
          assert Neighbour(row, col, newRow, newCol) && Exposed(img, newRow, newCol);
          return true;
        }
        if img.pixels[newRow][newCol] == 0 {
          assert Neighbour(row, col, newRow, newCol) && Exposed(img, newRow, newCol);
          return true;
        }
      }
    }
    return false;
  }

  // ----- The points of one image ----------------------------------------------

  /** The point of pixel `(r, c)` of image `k`: `(c, rows - r, k)`. */
  function PixelPoint(img: Image, r: int, c: int, k: int): Point3 {
    Point3(c as real, (img.rows - r) as real, k as real)
  }

  /** One point per edge pixel of row `r`, left to right, as lists of zero or one point. */
  function RowParts(img: Image, r: int, k: int): (parts: seq<seq<Point3>>)
    requires WellFormed(img) && 0 <= r < img.rows
    ensures |parts| == img.cols
  {
    seq(img.cols, c requires 0 <= c < img.cols => if IsEdge(img, r, c) then [PixelPoint(img, r, c, k)] else [])
  }

  function RowPoints(img: Image, r: int, k: int): seq<Point3>
    requires WellFormed(img) && 0 <= r < img.rows
  {
    Concat(RowParts(img, r, k))
  }

  function ImageParts(img: Image, k: int): (parts: seq<seq<Point3>>)
    requires WellFormed(img)
    ensures |parts| == img.rows
  {
    seq(img.rows, r requires 0 <= r < img.rows => RowPoints(img, r, k))
  }

  /** The points of the edge pixels of image `k`, top row first. */
  function ImagePoints(img: Image, k: int): seq<Point3>
    requires WellFormed(img)
  {
    Concat(ImageParts(img, k))
  }

  /** The points of a row are exactly those of its edge pixels. */
  lemma RowPointsAreEdgePixels(img: Image, r: int, k: int, p: Point3)
    requires WellFormed(img) && 0 <= r < img.rows
    ensures p in RowPoints(img, r, k) <==>
      exists c | 0 <= c < img.cols :: IsEdge(img, r, c) && p == PixelPoint(img, r, c, k)
  {
    var parts := RowParts(img, r, k);
    ConcatMember(parts, p);
    if p in RowPoints(img, r, k) {
      var c :| 0 <= c < |parts| && p in parts[c];
      assert IsEdge(img, r, c) && p == PixelPoint(img, r, c, k);
    }
    if exists c | 0 <= c < img.cols :: IsEdge(img, r, c) && p == PixelPoint(img, r, c, k) {
      var c :| 0 <= c < img.cols && IsEdge(img, r, c) && p == PixelPoint(img, r, c, k);
      assert p in parts[c];
    }
  }

  /**
   * The points of an image are exactly those of its edge pixels: `x` a
   * column, `y` in `1..rows`, `z` the image's index.
   */
  lemma ImagePointsAreEdgePixels(img: Image, k: int, p: Point3)
    requires WellFormed(img)
    ensures p in ImagePoints(img, k) <==>
      exists r, c | Inside(img, r, c) :: IsEdge(img, r, c) && p == PixelPoint(img, r, c, k)
  {
    var parts := ImageParts(img, k);
    ConcatMember(parts, p);
    if p in ImagePoints(img, k) {
      var r :| 0 <= r < |parts| && p in parts[r];
      RowPointsAreEdgePixels(img, r, k, p);
    }
    if exists r, c | Inside(img, r, c) :: IsEdge(img, r, c) && p == PixelPoint(img, r, c, k) {
      var r, c :| Inside(img, r, c) && IsEdge(img, r, c) && p == PixelPoint(img, r, c, k);
      RowPointsAreEdgePixels(img, r, k, p);
      assert p in parts[r];
    }
  }

  /** Every point of image `k` has `0 <= x < cols`, `1 <= y <= rows` and `z == k`. */
  lemma ImagePointsInRange(img: Image, k: int, p: Point3)
    requires WellFormed(img) && p in ImagePoints(img, k)
    ensures 0.0 <= p.x < img.cols as real && 1.0 <= p.y <= img.rows as real && p.z == k as real
  {
    ImagePointsAreEdgePixels(img, k, p);
  }

  // ----- A range of images ----------------------------------------------------

  /** Number of images from `lo` to `hi` inclusive. */
  function Span(lo: int, hi: int): nat {
    if lo <= hi then hi - lo + 1 else 0
  }

  predicate AllWellFormed(images: seq<Image>) {
    forall i | 0 <= i < |images| :: WellFormed(images[i])
  }

  function StackParts(images: seq<Image>, lo: int, hi: int): (parts: seq<seq<Point3>>)
    requires AllWellFormed(images) && 0 <= lo && hi < |images|
    ensures |parts| == Span(lo, hi)
  {
    seq(Span(lo, hi), i requires 0 <= i < Span(lo, hi) => ImagePoints(images[lo + i], lo + i))
  }

  /** The points of images `lo` to `hi`, in image order. */
  function StackPoints(images: seq<Image>, lo: int, hi: int): seq<Point3>
    requires AllWellFormed(images) && 0 <= lo && hi < |images|
  {
    Concat(StackParts(images, lo, hi))
  }

  lemma StackPartsAt(images: seq<Image>, lo: int, hi: int, i: int)
    requires AllWellFormed(images) && 0 <= lo && hi < |images| && 0 <= i < Span(lo, hi)
    ensures StackParts(images, lo, hi)[i] == ImagePoints(images[lo + i], lo + i)
  {
  }

  /** A point of the range comes from an edge pixel of an image of the range. */
  lemma StackPointsFromRange(images: seq<Image>, lo: int, hi: int, p: Point3)
    requires AllWellFormed(images) && 0 <= lo && hi < |images|
    ensures p in StackPoints(images, lo, hi) <==>
      exists k | lo <= k <= hi :: p in ImagePoints(images[k], k)
  {
    var parts := StackParts(images, lo, hi);
    ConcatMember(parts, p);
    if p in Concat(parts) {
      var i :| 0 <= i < |parts| && p in parts[i];
      StackPartsAt(images, lo, hi, i);
      var k := lo + i;
      assert lo <= k <= hi && p in ImagePoints(images[k], k);
    } else {
      forall k | lo <= k <= hi
        ensures p !in ImagePoints(images[k], k)
      {
        StackPartsAt(images, lo, hi, k - lo);
      }
    }
  }

  /** Every point of the range has its `z` in `[lo, hi]`; an empty range has no points. */
  lemma StackPointsInRange(images: seq<Image>, lo: int, hi: int, p: Point3)
    requires AllWellFormed(images) && 0 <= lo && hi < |images|
    requires p in StackPoints(images, lo, hi)
    ensures lo <= hi && lo as real <= p.z <= hi as real
  {
    StackPointsFromRange(images, lo, hi, p);
    var k :| lo <= k <= hi && p in ImagePoints(images[k], k);
    ImagePointsInRange(images[k], k, p);
  }

  // ----- The loops ------------------------------------------------------------

  /** The column loop for row `r` of image `k`. */
  method RowEdgePoints(img: Image, r: int, k: int) returns (ps: seq<Point3>)
    requires WellFormed(img) && 0 <= r < img.rows
    ensures ps == RowPoints(img, r, k)
  {
    ghost var parts := RowParts(img, r, k);
    ps := [];
    for col := 0 to img.cols
      invariant ps == Concat(parts[..col])
    {
      var edge := IsEdgePixel(img, r, col);
      ConcatPrefixStep(parts, col);
      if edge {
        ps := ps + [PixelPoint(img, r, col, k)];
      } else {
        assert ps + [] == ps;
      }
    }
    assert parts[..img.cols] == parts;
  }

  /** The row loop for image `k`. */
  method ImageEdgePoints(img: Image, k: int) returns (ps: seq<Point3>)
    requires WellFormed(img)
    ensures ps == ImagePoints(img, k)
  {
    ghost var parts := ImageParts(img, k);
    ps := [];
    for row := 0 to img.rows
      invariant ps == Concat(parts[..row])
    {
      var rowPoints := RowEdgePoints(img, row, k);
      ConcatPrefixStep(parts, row);
      ps := ps + rowPoints;
    }
    assert parts[..img.rows] == parts;
  }

  /** The image loop from `lo` to `hi` inclusive. */
  method StackEdgePoints(images: seq<Image>, lo: int, hi: int) returns (ps: seq<Point3>)
    requires AllWellFormed(images) && 0 <= lo && hi < |images|
    ensures ps == StackPoints(images, lo, hi)
  {
    ghost var parts := StackParts(images, lo, hi);
    ps := [];
    var imgIndex := lo;
    while imgIndex <= hi
      invariant lo <= imgIndex && imgIndex - lo <= Span(lo, hi)
      invariant ps == Concat(parts[..imgIndex - lo])
    {
      var imagePoints := ImageEdgePoints(images[imgIndex], imgIndex);
      ConcatPrefixStep(parts, imgIndex - lo);
      ps := ps + imagePoints;
      imgIndex := imgIndex + 1;
    }
    assert parts[..imgIndex - lo] == parts;
  }

  /** The extractor's images, their count and the point cloud it builds. */
  class MultiTiffEdgeExtractor {
    var images: seq<Image>
    var pointCloud: seq<Point3>
    var totalImages: int

    /** The state after a successful load: one count per image, every image well formed. */
    predicate Loaded()
      reads this`images, this`totalImages
    {
      totalImages == |images| && AllWellFormed(images)
    }

    /** `extractEdgePointsManual`: the cloud replaced by the points of every image. */
    method ExtractEdgePointsManual()
      requires Loaded()
      modifies this`pointCloud
      ensures pointCloud == StackPoints(images, 0, totalImages - 1)
    {
      pointCloud := [];
      var ps := StackEdgePoints(images, 0, totalImages - 1);
      pointCloud := ps;
    }

    /**
     * `extractEdgePointsRange`, manual branch: the range clamped to the
     * images present, then the points of the images in it.
     */
    method ExtractEdgePointsRange(startImg: int, endImg: int)
      requires Loaded()
      modifies this`pointCloud
      ensures pointCloud == StackPoints(images, Clamped(startImg, endImg, totalImages).0, Clamped(startImg, endImg, totalImages).1)
    {
      pointCloud := [];
      var start := if startImg < 0 then 0 else startImg;
      var end := if totalImages - 1 < endImg then totalImages - 1 else endImg;
      var ps := StackEdgePoints(images, start, end);
      pointCloud := ps;
    }

    /** The bounds loop of `printStatistics`; `None` for an empty cloud. */
    method Statistics() returns (bounds: Option<(Point3, Point3)>)
      ensures bounds.None? <==> |pointCloud| == 0
      ensures bounds.Some? ==> bounds.value == (Lower(pointCloud), Upper(pointCloud))
    {
      if |pointCloud| == 0 {
        return None;
      }
      var lo, hi := Bounds(pointCloud);
      bounds := Some((lo, hi));
    }
  }

  /** `max(0, start)` and `min(total - 1, end)`. */
  function Clamped(start: int, end: int, total: int): (r: (int, int))
    ensures 0 <= r.0 && r.1 <= total - 1
    ensures r.0 == start || (start < 0 && r.0 == 0)
    ensures r.1 == end || (end > total - 1 && r.1 == total - 1)
  {
    (if start < 0 then 0 else start, if total - 1 < end then total - 1 else end)
  }

  /**
   * Only images inside both the requested and the available range
   * contribute: every point's `z` lies in `[start, end]` and in
   * `[0, total - 1]`, and the cloud is empty when nothing is left.
   */
  lemma RangePointsInBothRanges(images: seq<Image>, start: int, end: int, p: Point3)
    requires AllWellFormed(images)
    requires p in StackPoints(images, Clamped(start, end, |images|).0, Clamped(start, end, |images|).1)
    ensures start as real <= p.z <= end as real && 0.0 <= p.z <= (|images| - 1) as real
  {
    var (lo, hi) := Clamped(start, end, |images|);
    StackPointsInRange(images, lo, hi, p);
  }
}
