/**
 * The point-cloud statistics of analizer.cpp, used to pick a ball radius
 * for ball pivoting: nearest-neighbour distances, all pairwise distances,
 * their sorted summaries, the bounding box, the recommended radii, the
 * local neighbour counts, the radius sweep and the circumradius test.
 *
 * The Euclidean distance and the square root are parameters; `std::sort`
 * is modelled by a sorting function whose result is the unique ascending
 * permutation of its input.
 */
module Analyzer {
  import opened Geometry

  /** `std::numeric_limits<double>::max()`. */
  const DoubleMax: real := 179769313486231570814527423731704356798070567525844996598917476803157260780028538760589558632766878171540458953514382464234321326889464182768467546703537516986049910576551282076245490090389328944075868508455133942304583236903222948165808559332123348274797826204144723168738177180919299881250404026184124858368.0

  /** Smallest Heron area treated as a real triangle. */
  const MinArea: real := 0.0000000001

  /** At most this many points enter the local search radius. */
  const SampleLimit := 100

  // ----- Sorting --------------------------------------------------------------

  predicate Ascending(xs: seq<real>) {
    forall i, j | 0 <= i < j < |xs| :: xs[i] <= xs[j]
  }

  function Insert(x: real, xs: seq<real>): (r: seq<real>)
    ensures |r| == |xs| + 1
    ensures multiset(r) == multiset(xs) + multiset{x}
  {
    if |xs| == 0 then [x]
    else if x <= xs[0] then [x] + xs
    else
      assert xs == [xs[0]] + xs[1..];
      [xs[0]] + Insert(x, xs[1..])
  }

  /** Inserting a value at least `lo` into values at least `lo` gives values at least `lo`. */
  lemma {:induction false} InsertAbove(x: real, xs: seq<real>, lo: real)
    requires lo <= x && forall k | 0 <= k < |xs| :: lo <= xs[k]
    ensures forall k | 0 <= k < |xs| + 1 :: lo <= Insert(x, xs)[k]
  {
    if |xs| > 0 && x > xs[0] {
      InsertAbove(x, xs[1..], lo);
    }
  }

  /** Insertion keeps a list ascending. */
  lemma {:induction false} InsertAscending(x: real, xs: seq<real>)
    requires Ascending(xs)
    ensures Ascending(Insert(x, xs))
  {
    if |xs| > 0 && x > xs[0] {
      var rest := xs[1..];
      InsertAscending(x, rest);
      InsertAbove(x, rest, xs[0]);
      ConsAscending(xs[0], Insert(x, rest));
    }
  }

  lemma ConsAscending(h: real, t: seq<real>)
    requires Ascending(t) && forall k | 0 <= k < |t| :: h <= t[k]
    ensures Ascending([h] + t)
  {
    var s := [h] + t;
    forall i, j | 0 <= i < j < |s|
      ensures s[i] <= s[j]
    {
      if i > 0 {
        assert s[i] == t[i - 1] && s[j] == t[j - 1];
      } else {
        assert s[j] == t[j - 1];
      }
    }
  }

  /** `std::sort`: a permutation of its input, ascending by `SortAscending`. */
  function Sort(xs: seq<real>): (r: seq<real>)
    ensures |r| == |xs|
    ensures multiset(r) == multiset(xs)
  {
    if |xs| == 0 then []
    else
      assert xs == xs[..|xs| - 1] + [xs[|xs| - 1]];
      Insert(xs[|xs| - 1], Sort(xs[..|xs| - 1]))
  }

  lemma {:induction false} SortAscending(xs: seq<real>)
    ensures Ascending(Sort(xs))
  {
    if |xs| > 0 {
      SortAscending(xs[..|xs| - 1]);
      InsertAscending(xs[|xs| - 1], Sort(xs[..|xs| - 1]));
    }
  }

  /** Every element of an ascending list lies between its first and last. */
  lemma AscendingBetween(s: seq<real>, k: int)
    requires Ascending(s) && 0 <= k < |s|
    ensures s[0] <= s[k] <= s[|s| - 1]
  {
    if 0 < k { assert s[0] <= s[k]; }
    if k < |s| - 1 { assert s[k] <= s[|s| - 1]; }
  }

  /** A value of a list is an element of any permutation of it. */
  lemma PermutationMember(s: seq<real>, xs: seq<real>, x: real)
    requires multiset(s) == multiset(xs) && x in xs
    ensures exists k | 0 <= k < |s| :: s[k] == x
  {
    assert x in multiset(xs);
    assert x in multiset(s);
  }

  /**
   * The first element of a sorted list is the least input, the last the
   * greatest, and the element at `size / 2` lies between them.
   */
  lemma SortedSummary(xs: seq<real>)
    requires |xs| > 0
    ensures var s := Sort(xs);
      s[0] <= s[|s| / 2] <= s[|s| - 1] &&
      s[0] in xs && s[|s| - 1] in xs &&
      forall x | x in xs :: s[0] <= x <= s[|s| - 1]
  {
    var s := Sort(xs);
    var n := |s|;
    SortAscending(xs);
    AscendingBetween(s, n / 2);
    PermutationMember(xs, s, s[0]);
    PermutationMember(xs, s, s[n - 1]);
    forall x | x in xs
      ensures s[0] <= x <= s[n - 1]
    {
      PermutationMember(s, xs, x);
      var k :| 0 <= k < n && s[k] == x;
      AscendingBetween(s, k);
    }
  }

  /** The mean of a non-empty list lies between its least and greatest element. */
  lemma MeanOfSortedBetween(xs: seq<real>)
    requires |xs| > 0
    ensures var s := Sort(xs);
      s[0] <= SumReals(s) / (|s| as real) <= s[|s| - 1]
  {
    var s := Sort(xs);
    SortAscending(xs);
    forall k | 0 <= k < |s|
      ensures s[0] <= s[k] <= s[|s| - 1]
    {
      AscendingBetween(s, k);
    }
    SumRealsBetween(s, s[0], s[|s| - 1]);
    AverageBetween(SumReals(s), |s|, s[0], s[|s| - 1]);
  }

  /** The accumulation loop `for (double d : xs) sum += d`. */
  method Total(xs: seq<real>) returns (sum: real)
    ensures sum == SumReals(xs)
  {
    sum := 0.0;
    for k := 0 to |xs|
      invariant sum == SumReals(xs[..k])
    {
      assert xs[..k + 1][..k] == xs[..k];
      sum := sum + xs[k];
    }
    assert xs[..|xs|] == xs;
  }

  // ----- Distances ------------------------------------------------------------

  /** The running minimum of the distances from point `i` to points `0..k-1` other than `i`. */
  function NearestUpTo(ps: seq<Point3>, i: int, dist: (Point3, Point3) -> real, k: int): real
    requires 0 <= i < |ps| && 0 <= k <= |ps|
  {
    if k == 0 then DoubleMax
    else
      var m := NearestUpTo(ps, i, dist, k - 1);
      if k - 1 != i && dist(ps[i], ps[k - 1]) < m then dist(ps[i], ps[k - 1]) else m
  }

  /** The nearest-neighbour distance of point `i`, starting from `DoubleMax`. */
  function NearestDistance(ps: seq<Point3>, i: int, dist: (Point3, Point3) -> real): real
    requires 0 <= i < |ps|
  {
    NearestUpTo(ps, i, dist, |ps|)
  }

  /**
   * The nearest distance of point `i` is at most its distance to every
   * other point, and is one of those distances unless all of them are at
   * least `DoubleMax`.
   */
  lemma {:induction false} NearestIsMinimum(ps: seq<Point3>, i: int, dist: (Point3, Point3) -> real, k: int)
    requires 0 <= i < |ps| && 0 <= k <= |ps|
    ensures NearestUpTo(ps, i, dist, k) <= DoubleMax
    ensures forall j | 0 <= j < k && j != i :: NearestUpTo(ps, i, dist, k) <= dist(ps[i], ps[j])
    ensures (exists j | 0 <= j < k && j != i :: NearestUpTo(ps, i, dist, k) == dist(ps[i], ps[j])) ||
            (NearestUpTo(ps, i, dist, k) == DoubleMax && forall j | 0 <= j < k && j != i :: dist(ps[i], ps[j]) >= DoubleMax)
  {
    if k > 0 {
      NearestIsMinimum(ps, i, dist, k - 1);
    }
  }

  /** Distances from point `i` to every other point, in index order. */
  function Row(ps: seq<Point3>, i: int, dist: (Point3, Point3) -> real): seq<real>
    requires 0 <= i < |ps|
  {
    Concat(seq(|ps|, j requires 0 <= j < |ps| => if j == i then [] else [dist(ps[i], ps[j])]))
  }

  /** `allDistances`: the rows of every point, one after the other. */
  function AllDistances(ps: seq<Point3>, dist: (Point3, Point3) -> real): seq<real> {
    Concat(seq(|ps|, i requires 0 <= i < |ps| => Row(ps, i, dist)))
  }

  lemma {:induction false} ConcatLengths<T>(xss: seq<seq<T>>, m: nat)
    requires forall k | 0 <= k < |xss| :: |xss[k]| == m
    ensures |Concat(xss)| == |xss| * m
  {
    if |xss| > 0 {
      var init := xss[..|xss| - 1];
      ConcatLengths(init, m);
      assert |Concat(xss)| == (|xss| - 1) * m + m;
    }
  }

  lemma {:induction false} RowLengthUpTo(ps: seq<Point3>, i: int, dist: (Point3, Point3) -> real, k: int)
    requires 0 <= i < |ps| && 0 <= k <= |ps|
    ensures |Concat(seq(|ps|, j requires 0 <= j < |ps| => if j == i then [] else [dist(ps[i], ps[j])])[..k])| ==
      if i < k then k - 1 else k
  {
    var parts := seq(|ps|, j requires 0 <= j < |ps| => if j == i then [] else [dist(ps[i], ps[j])]);
    if k > 0 {
      RowLengthUpTo(ps, i, dist, k - 1);
      ConcatPrefixStep(parts, k - 1);
    }
  }

  /** `allDistances` has one entry per ordered pair of distinct points: `n (n - 1)`. */
  lemma AllDistancesCount(ps: seq<Point3>, dist: (Point3, Point3) -> real)
    ensures |AllDistances(ps, dist)| == |ps| * (|ps| - 1)
    ensures |ps| >= 2 ==> |AllDistances(ps, dist)| >= |ps|
  {
    var rows := seq(|ps|, i requires 0 <= i < |ps| => Row(ps, i, dist));
    if |ps| > 0 {
      forall i | 0 <= i < |ps|
        ensures |rows[i]| == |ps| - 1
      {
        var parts := seq(|ps|, j requires 0 <= j < |ps| => if j == i then [] else [dist(ps[i], ps[j])]);
        RowLengthUpTo(ps, i, dist, |ps|);
        assert parts[..|ps|] == parts;
      }
      ConcatLengths(rows, |ps| - 1);
      if |ps| >= 2 {
        var n := |ps|;
        assert n * (n - 1) == n + n * (n - 2);
        assert n * (n - 2) >= 0;
      }
    }
  }

  /** The list of all distances holds exactly the distances between two different points. */
  lemma AllDistancesMembers(ps: seq<Point3>, dist: (Point3, Point3) -> real, x: real)
    ensures x in AllDistances(ps, dist) <==>
      exists i, j | 0 <= i < |ps| && 0 <= j < |ps| && i != j :: x == dist(ps[i], ps[j])
  {
    var rows := seq(|ps|, i requires 0 <= i < |ps| => Row(ps, i, dist));
    ConcatMember(rows, x);
    forall i | 0 <= i < |ps|
      ensures x in rows[i] <==> exists j | 0 <= j < |ps| && j != i :: x == dist(ps[i], ps[j])
    {
      var parts := seq(|ps|, j requires 0 <= j < |ps| => if j == i then [] else [dist(ps[i], ps[j])]);
      ConcatMember(parts, x);
      assert rows[i] == Concat(parts);
      if x in rows[i] {
        var j :| 0 <= j < |ps| && x in parts[j];
        assert j != i && x == dist(ps[i], ps[j]);
      }
      if exists j | 0 <= j < |ps| && j != i :: x == dist(ps[i], ps[j]) {
        var j :| 0 <= j < |ps| && j != i && x == dist(ps[i], ps[j]);
        assert x in parts[j];
      }
    }
  }

  /** The inner loop over `j`: the row of distances of point `i` and their running minimum. */
  method DistancesFrom(ps: seq<Point3>, i: int, dist: (Point3, Point3) -> real) returns (row: seq<real>, minDist: real)
    requires 0 <= i < |ps|
    ensures row == Row(ps, i, dist)
    ensures minDist == NearestDistance(ps, i, dist)
  {
    ghost var parts := seq(|ps|, j requires 0 <= j < |ps| => if j == i then [] else [dist(ps[i], ps[j])]);
    row := [];
    minDist := DoubleMax;
    for j := 0 to |ps|
      invariant row == Concat(parts[..j])
      invariant minDist == NearestUpTo(ps, i, dist, j)
    {
      ConcatPrefixStep(parts, j);
      if i == j {
        assert row + [] == row;
        continue;
      }
      var d := dist(ps[i], ps[j]);
      row := row + [d];
      if d < minDist {
        minDist := d;
      }
    }
    assert parts[..|ps|] == parts;
  }

  /** The nearest distance of every point, in index order. */
  function NearestAll(ps: seq<Point3>, dist: (Point3, Point3) -> real): (r: seq<real>)
    ensures |r| == |ps|
  {
    seq(|ps|, i requires 0 <= i < |ps| => NearestDistance(ps, i, dist))
  }

  /** The outer loop over `i` of `analyzePointDistribution`. */
  method Distances(ps: seq<Point3>, dist: (Point3, Point3) -> real) returns (nearest: seq<real>, all: seq<real>)
    ensures nearest == NearestAll(ps, dist)
    ensures all == AllDistances(ps, dist)
  {
    ghost var rows := seq(|ps|, i requires 0 <= i < |ps| => Row(ps, i, dist));
    nearest := [];
    all := [];
    for i := 0 to |ps|
      invariant nearest == NearestAll(ps, dist)[..i]
      invariant all == Concat(rows[..i])
    {
      ConcatPrefixStep(rows, i);
      var row, minDist := DistancesFrom(ps, i, dist);
      all := all + row;
      nearest := nearest + [minDist];
    }
    assert rows[..|ps|] == rows;
  }

  /** With a non-negative distance every nearest distance is non-negative. */
  lemma NearestNonNegative(ps: seq<Point3>, dist: (Point3, Point3) -> real, i: int)
    requires 0 <= i < |ps|
    requires forall p, q :: dist(p, q) >= 0.0
    ensures NearestDistance(ps, i, dist) >= 0.0
  {
    NearestIsMinimum(ps, i, dist, |ps|);
  }

  // ----- The bounding box -----------------------------------------------------

  /** The bounding-box loop with its six guarded updates. */
  method BoundingBox(ps: seq<Point3>) returns (minPoint: Point3, maxPoint: Point3)
    requires |ps| > 0
    ensures minPoint == Lower(ps) && maxPoint == Upper(ps)
  {
    minPoint, maxPoint := ps[0], ps[0];
    for k := 0 to |ps|
      invariant k == 0 ==> minPoint == ps[0] && maxPoint == ps[0]
      invariant k > 0 ==> minPoint == Lower(ps[..k]) && maxPoint == Upper(ps[..k])
    {
      var p := ps[k];
      if k > 0 {
        assert ps[..k + 1][..k] == ps[..k];
      }
      if p.x < minPoint.x { minPoint := minPoint.(x := p.x); }
      if p.y < minPoint.y { minPoint := minPoint.(y := p.y); }
      if p.z < minPoint.z { minPoint := minPoint.(z := p.z); }
      if p.x > maxPoint.x { maxPoint := maxPoint.(x := p.x); }
      if p.y > maxPoint.y { maxPoint := maxPoint.(y := p.y); }
      if p.z > maxPoint.z { maxPoint := maxPoint.(z := p.z); }
    }
    assert ps[..|ps|] == ps;
  }

  // ----- The distribution report ----------------------------------------------

  /** The four recommended radii: half, one, one and a half and two times the mean. */
  function Recommended(avgNearest: real): (radii: seq<real>)
    ensures |radii| == 4
  {
    [avgNearest * 0.5, avgNearest * 1.0, avgNearest * 1.5, avgNearest * 2.0]
  }

  datatype Distribution = Distribution(
    sortedNearest: seq<real>, sortedAll: seq<real>,
    avgNearest: real, medianNearest: real, minNearest: real, maxNearest: real,
    avgAll: real, minPoint: Point3, maxPoint: Point3, radii: seq<real>,
    density: Option<Density>)

  /** The mean of a non-empty list. */
  function Average(xs: seq<real>): real
    requires |xs| > 0
  {
    SumReals(xs) / (|xs| as real)
  }

  /** `sorted` is `xs` sorted, with its mean, middle, first and last element. */
  predicate Summarizes(xs: seq<real>, sorted: seq<real>, mean: real, median: real, least: real, greatest: real) {
    |xs| > 0 && sorted == Sort(xs) &&
    mean == Average(sorted) && median == sorted[|xs| / 2] &&
    least == sorted[0] && greatest == sorted[|xs| - 1]
  }

  /** Sorts a non-empty list and reads off its mean, median, minimum and maximum. */
  method Summarize(xs: seq<real>) returns (sorted: seq<real>, mean: real, median: real, least: real, greatest: real)
    requires |xs| > 0
    ensures Summarizes(xs, sorted, mean, median, least, greatest)
  {
    sorted := Sort(xs);
    var sum := Total(sorted);
    mean := sum / (|xs| as real);
    median := sorted[|xs| / 2];
    least := sorted[0];
    greatest := sorted[|xs| - 1];
  }

  /** `analyzePointDistribution`: nothing for fewer than two points. */
  method AnalyzePointDistribution(ps: seq<Point3>, dist: (Point3, Point3) -> real) returns (r: Option<Distribution>)
    ensures r.None? <==> |ps| < 2
    ensures r.Some? ==>
      var d := r.value;
      Summarizes(NearestAll(ps, dist), d.sortedNearest, d.avgNearest, d.medianNearest, d.minNearest, d.maxNearest) &&
      |AllDistances(ps, dist)| == |ps| * (|ps| - 1) && |AllDistances(ps, dist)| >= |ps| &&
      d.sortedAll == Sort(AllDistances(ps, dist)) && d.avgAll == Average(d.sortedAll) &&
      d.minPoint == Lower(ps) && d.maxPoint == Upper(ps) &&
      d.radii == Recommended(d.avgNearest) &&
      (d.density.None? <==> |ps| < 10) &&
      (d.density.Some? ==> IsDensityOf(ps, dist, d.density.value))
  {
    if |ps| < 2 {
      return None;
    }
    var n := |ps|;
    var nearest, all := Distances(ps, dist);
    AllDistancesCount(ps, dist);
    var sortedNearest, avgNearest, medianNearest, minNearest, maxNearest := Summarize(nearest);
    var sortedAll, avgAll, _, _, _ := Summarize(all);
    var minPoint, maxPoint := BoundingBox(ps);
    var density := AnalyzeLocalDensity(ps, dist);
    r := Some(Distribution(sortedNearest, sortedAll, avgNearest, medianNearest, minNearest, maxNearest,
      avgAll, minPoint, maxPoint, Recommended(avgNearest), density));
  }

  /**
   * The nearest-distance summary is ordered: minimum, median, mean and
   * maximum; the minimum is the least nearest distance, the maximum the
   * greatest, both attained. The summary of all distances is ordered the
   * same way: its least and greatest element bound, and are, distances
   * between two different points, and its mean lies between them.
   */
  lemma DistributionSummary(ps: seq<Point3>, dist: (Point3, Point3) -> real)
    requires |ps| >= 2
    ensures var s := Sort(NearestAll(ps, dist));
      s[0] <= s[|s| / 2] <= s[|s| - 1] &&
      s[0] <= SumReals(s) / (|s| as real) <= s[|s| - 1] &&
      forall i | 0 <= i < |ps| :: s[0] <= NearestDistance(ps, i, dist) <= s[|s| - 1]
    ensures var s := Sort(NearestAll(ps, dist));
      (exists i | 0 <= i < |ps| :: s[0] == NearestDistance(ps, i, dist)) &&
      (exists i | 0 <= i < |ps| :: s[|s| - 1] == NearestDistance(ps, i, dist))
    ensures var s := Sort(AllDistances(ps, dist));
      |s| > 0 && s[0] <= SumReals(s) / (|s| as real) <= s[|s| - 1] &&
      forall i, j | 0 <= i < |ps| && 0 <= j < |ps| && i != j :: s[0] <= dist(ps[i], ps[j]) <= s[|s| - 1]
    ensures var s := Sort(AllDistances(ps, dist));
      |s| > 0 &&
      (exists i, j | 0 <= i < |ps| && 0 <= j < |ps| && i != j :: s[0] == dist(ps[i], ps[j])) &&
      (exists i, j | 0 <= i < |ps| && 0 <= j < |ps| && i != j :: s[|s| - 1] == dist(ps[i], ps[j]))
  {
    var xs := NearestAll(ps, dist);
    SortedSummary(xs);
    MeanOfSortedBetween(xs);
    var s := Sort(xs);
    forall i | 0 <= i < |ps|
      ensures s[0] <= NearestDistance(ps, i, dist) <= s[|s| - 1]
    {
      assert xs[i] in xs;
    }
    var lo :| 0 <= lo < |xs| && xs[lo] == s[0];
    var hi :| 0 <= hi < |xs| && xs[hi] == s[|s| - 1];
    AllSummary(ps, dist);
  }

  /** The all-distances half of `DistributionSummary`. */
  lemma AllSummary(ps: seq<Point3>, dist: (Point3, Point3) -> real)
    requires |ps| >= 2
    ensures var s := Sort(AllDistances(ps, dist));
      |s| > 0 && s[0] <= SumReals(s) / (|s| as real) <= s[|s| - 1] &&
      forall i, j | 0 <= i < |ps| && 0 <= j < |ps| && i != j :: s[0] <= dist(ps[i], ps[j]) <= s[|s| - 1]
    ensures var s := Sort(AllDistances(ps, dist));
      |s| > 0 &&
      (exists i, j | 0 <= i < |ps| && 0 <= j < |ps| && i != j :: s[0] == dist(ps[i], ps[j])) &&
      (exists i, j | 0 <= i < |ps| && 0 <= j < |ps| && i != j :: s[|s| - 1] == dist(ps[i], ps[j]))
  {
    var xs := AllDistances(ps, dist);
    AllDistancesMembers(ps, dist, dist(ps[0], ps[1]));
    SortedSummary(xs);
    MeanOfSortedBetween(xs);
    var s := Sort(xs);
    forall i, j | 0 <= i < |ps| && 0 <= j < |ps| && i != j
      ensures s[0] <= dist(ps[i], ps[j]) <= s[|s| - 1]
    {
      AllDistancesMembers(ps, dist, dist(ps[i], ps[j]));
    }
    AllDistancesMembers(ps, dist, s[0]);
    AllDistancesMembers(ps, dist, s[|s| - 1]);
  }

  /**
   * The recommended radius (one times the mean nearest distance) lies
   * between the least and the greatest nearest distance; for a distance
   * that is never negative the four radii are non-negative and grow.
   */
  lemma RecommendedWithinNearest(ps: seq<Point3>, dist: (Point3, Point3) -> real)
    requires |ps| >= 2
    ensures var s := Sort(NearestAll(ps, dist));
      var radii := Recommended(Average(s));
      s[0] <= radii[1] <= s[|s| - 1]
    ensures (forall p, q :: dist(p, q) >= 0.0) ==>
      var radii := Recommended(Average(Sort(NearestAll(ps, dist))));
      0.0 <= radii[0] <= radii[1] <= radii[2] <= radii[3]
  {
    var xs := NearestAll(ps, dist);
    var s := Sort(xs);
    MeanOfSortedBetween(xs);
    assert Recommended(Average(s))[1] == Average(s);
    if forall p, q :: dist(p, q) >= 0.0 {
      SortedSummary(xs);
      var i :| 0 <= i < |xs| && xs[i] == s[0];
      NearestNonNegative(ps, dist, i);
    }
  }

  // ----- Local density --------------------------------------------------------

  /** The number of points `j < k`, other than `i`, within `radius` of point `i`. */
  function NeighbourCount(ps: seq<Point3>, i: int, radius: real, dist: (Point3, Point3) -> real, k: int): int
    requires 0 <= i < |ps| && 0 <= k <= |ps|
  {
    if k == 0 then 0
    else NeighbourCount(ps, i, radius, dist, k - 1) + (if k - 1 != i && dist(ps[i], ps[k - 1]) <= radius then 1 else 0)
  }

  /** A point has between 0 and `n - 1` neighbours. */
  lemma {:induction false} NeighbourCountBounds(ps: seq<Point3>, i: int, radius: real, dist: (Point3, Point3) -> real, k: int)
    requires 0 <= i < |ps| && 0 <= k <= |ps|
    ensures 0 <= NeighbourCount(ps, i, radius, dist, k) <= (if i < k then k - 1 else k)
  {
    if k > 0 {
      NeighbourCountBounds(ps, i, radius, dist, k - 1);
    }
  }

  /** The counting loop for point `i`. */
  method CountNeighbours(ps: seq<Point3>, i: int, radius: real, dist: (Point3, Point3) -> real) returns (count: int)
    requires 0 <= i < |ps|
    ensures count == NeighbourCount(ps, i, radius, dist, |ps|)
  {
    count := 0;
    for j := 0 to |ps|
      invariant count == NeighbourCount(ps, i, radius, dist, j)
    {
      if i == j {
        continue;
      }
      if dist(ps[i], ps[j]) <= radius {
        count := count + 1;
      }
    }
  }

  /** The neighbour count of every point, as reals. */
  function Counts(ps: seq<Point3>, radius: real, dist: (Point3, Point3) -> real): (r: seq<real>)
    ensures |r| == |ps|
  {
    seq(|ps|, i requires 0 <= i < |ps| => NeighbourCount(ps, i, radius, dist, |ps|) as real)
  }

  /** `2 *` the mean nearest distance of the first `min(n, 100)` points. */
  function SearchRadius(ps: seq<Point3>, dist: (Point3, Point3) -> real): real
    requires |ps| > 0
  {
    var m := if |ps| < SampleLimit then |ps| else SampleLimit;
    2.0 * (SumReals(NearestAll(ps, dist)[..m]) / (m as real))
  }

  datatype Density = Density(searchRadius: real, sortedCounts: seq<real>,
    minNeighbors: real, maxNeighbors: real, avgNeighbors: real)

  /**
   * `d` is the density report of `ps`: the search radius, the sorted
   * neighbour counts within it, their least, greatest and mean.
   */
  predicate IsDensityOf(ps: seq<Point3>, dist: (Point3, Point3) -> real, d: Density) {
    |ps| > 0 &&
    d.searchRadius == SearchRadius(ps, dist) &&
    d.sortedCounts == Sort(Counts(ps, d.searchRadius, dist)) && |d.sortedCounts| == |ps| &&
    d.minNeighbors == d.sortedCounts[0] && d.maxNeighbors == d.sortedCounts[|ps| - 1] &&
    d.avgNeighbors == Average(d.sortedCounts)
  }

  /** The sum of the nearest distances of the first `m` points. */
  method SumNearest(ps: seq<Point3>, m: int, dist: (Point3, Point3) -> real) returns (sum: real)
    requires 0 <= m <= |ps|
    ensures sum == SumReals(NearestAll(ps, dist)[..m])
  {
    sum := 0.0;
    for i := 0 to m
      invariant sum == SumReals(NearestAll(ps, dist)[..i])
    {
      var _, minDist := DistancesFrom(ps, i, dist);
      assert NearestAll(ps, dist)[..i + 1][..i] == NearestAll(ps, dist)[..i];
      sum := sum + minDist;
    }
  }

  /** The neighbour count of every point within `radius`. */
  method NeighbourCounts(ps: seq<Point3>, radius: real, dist: (Point3, Point3) -> real) returns (counts: seq<real>)
    ensures counts == Counts(ps, radius, dist)
  {
    counts := [];
    for i := 0 to |ps|
      invariant counts == Counts(ps, radius, dist)[..i]
    {
      var count := CountNeighbours(ps, i, radius, dist);
      counts := counts + [count as real];
    }
    assert counts == Counts(ps, radius, dist)[..|ps|];
  }

  /** `analyzeLocalDensity`: nothing for fewer than ten points. */
  method AnalyzeLocalDensity(ps: seq<Point3>, dist: (Point3, Point3) -> real) returns (r: Option<Density>)
    ensures r.None? <==> |ps| < 10
    ensures r.Some? ==> IsDensityOf(ps, dist, r.value)
  {
    if |ps| < 10 {
      return None;
    }
    var n := |ps|;
    var m := if n < SampleLimit then n else SampleLimit;
    var sumNearest := SumNearest(ps, m, dist);
    var searchRadius := 2.0 * (sumNearest / (m as real));
    var counts := NeighbourCounts(ps, searchRadius, dist);
    var sortedCounts, avgNeighbors, _, minNeighbors, maxNeighbors := Summarize(counts);
    r := Some(Density(searchRadius, sortedCounts, minNeighbors, maxNeighbors, avgNeighbors));
  }

  /** The least and greatest neighbour counts lie in `[0, n - 1]`. */
  lemma DensityBounds(ps: seq<Point3>, radius: real, dist: (Point3, Point3) -> real)
    requires |ps| > 0
    ensures var s := Sort(Counts(ps, radius, dist));
      0.0 <= s[0] <= s[|s| - 1] <= (|ps| - 1) as real
  {
    var xs := Counts(ps, radius, dist);
    SortedSummary(xs);
    var s := Sort(xs);
    var lo :| 0 <= lo < |xs| && xs[lo] == s[0];
    var hi :| 0 <= hi < |xs| && xs[hi] == s[|s| - 1];
    NeighbourCountBounds(ps, lo, radius, dist, |ps|);
    NeighbourCountBounds(ps, hi, radius, dist, |ps|);
  }

  // ----- Radius sweep and circumradius test -----------------------------------

  /**
   * `testRadiusRange`: the radii `minRadius + i * step` for `i` in
   * `0..steps`; with `steps == 0` the step divides by zero and no radius
   * is defined.
   */
  method TestRadiusRange(minRadius: real, maxRadius: real, steps: int) returns (radii: Option<seq<real>>)
    ensures radii.None? <==> steps == 0
    ensures radii.Some? ==> |radii.value| == (if steps >= 0 then steps + 1 else 0)
    ensures radii.Some? ==> forall i | 0 <= i < |radii.value| ::
      radii.value[i] == minRadius + (i as real) * ((maxRadius - minRadius) / (steps as real))
  {
    if steps == 0 {
      return None;
    }
    var step := (maxRadius - minRadius) / (steps as real);
    var rs: seq<real> := [];
    var i := 0;
    while i <= steps
      invariant 0 <= i && |rs| == i
      invariant if steps >= 0 then i <= steps + 1 else i == 0
      invariant forall k | 0 <= k < i :: rs[k] == minRadius + (k as real) * step
    {
      rs := rs + [minRadius + (i as real) * step];
      i := i + 1;
    }
    return Some(rs);
  }

  /** The sweep starts at `minRadius`, ends exactly at `maxRadius` and rises by equal steps. */
  lemma SweepEnds(minRadius: real, maxRadius: real, steps: int)
    requires steps > 0
    ensures var step := (maxRadius - minRadius) / (steps as real);
      minRadius + (0 as real) * step == minRadius &&
      minRadius + (steps as real) * step == maxRadius
  {
    var step := (maxRadius - minRadius) / (steps as real);
    assert (steps as real) * step == maxRadius - minRadius;
  }

  /** Heron's area of the triangle with sides `a`, `b`, `c`. */
  function HeronArea(a: real, b: real, c: real, sqrt: real -> real): real {
    var s := (a + b + c) / 2.0;
    sqrt(s * (s - a) * (s - b) * (s - c))
  }

  /**
   * `isValidTriangle`: false for an area below `MinArea`, otherwise
   * whether the circumradius `abc / (4 area)` is within the ball radius.
   */
  function IsValidTriangle(ps: seq<Point3>, i: int, j: int, k: int, ballRadius: real,
                           dist: (Point3, Point3) -> real, sqrt: real -> real): (r: bool)
    requires 0 <= i < |ps| && 0 <= j < |ps| && 0 <= k < |ps|
    ensures var a, b, c := dist(ps[i], ps[j]), dist(ps[j], ps[k]), dist(ps[k], ps[i]);
      var area := HeronArea(a, b, c, sqrt);
      r <==> area >= MinArea && a * b * c <= 4.0 * area * ballRadius
  {
    var a := dist(ps[i], ps[j]);
    var b := dist(ps[j], ps[k]);
    var c := dist(ps[k], ps[i]);
    var area := HeronArea(a, b, c, sqrt);
    if area < MinArea then false
    else
      var circumradius := (a * b * c) / (4.0 * area);
      QuotientAtMost(a * b * c, 4.0 * area, ballRadius);
      circumradius <= ballRadius
  }

  lemma QuotientAtMost(x: real, y: real, bound: real)
    requires y > 0.0
    ensures x / y <= bound <==> x <= y * bound
  {
    var q := x / y;
    assert q * y == x;
    if q <= bound {
      assert q * y <= bound * y;
    } else {
      assert q * y > bound * y;
    }
  }
}
