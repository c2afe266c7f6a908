/**
 * Shared geometric vocabulary of the reconstruction programs: points with
 * real coordinates, componentwise bounds of a point sequence and the
 * arithmetic mean of a point sequence.
 *
 * Single- and double-precision coordinates are modelled as mathematical
 * reals; rounding is not modelled.
 */
module Geometry {

  datatype Option<T> = None | Some(value: T)

  datatype Point3 = Point3(x: real, y: real, z: real)

  const Origin: Point3 := Point3(0.0, 0.0, 0.0)

  /** Largest finite single-precision value, `std::numeric_limits<float>::max()`. */
  const FloatMax: real := 340282346638528859811704183484516925440.0

  function Add(p: Point3, q: Point3): Point3 {
    Point3(p.x + q.x, p.y + q.y, p.z + q.z)
  }

  function Sub(p: Point3, q: Point3): Point3 {
    Point3(p.x - q.x, p.y - q.y, p.z - q.z)
  }

  function Scale(p: Point3, t: real): Point3 {
    Point3(t * p.x, t * p.y, t * p.z)
  }

  /** `p` moved by `d` along each of the three axes. */
  function Offset(p: Point3, d: real): Point3 {
    Point3(p.x + d, p.y + d, p.z + d)
  }

  function Abs(r: real): real {
    if r < 0.0 then -r else r
  }

  /** The point `p1 + t * (p2 - p1)`. */
  function Lerp(p1: Point3, p2: Point3, t: real): Point3 {
    Add(p1, Scale(Sub(p2, p1), t))
  }

  /** `p` lies on the closed segment from `p1` to `p2`. */
  ghost predicate OnSegment(p: Point3, p1: Point3, p2: Point3) {
    exists t: real {:trigger Lerp(p1, p2, t)} :: 0.0 <= t <= 1.0 && p == Lerp(p1, p2, t)
  }

  function Min(a: real, b: real): (r: real)
    ensures r <= a && r <= b && (r == a || r == b)
  {
    if b < a then b else a
  }

  function Max(a: real, b: real): (r: real)
    ensures r >= a && r >= b && (r == a || r == b)
  {
    if a < b then b else a
  }

  function MinCorner(p: Point3, q: Point3): Point3 {
    Point3(Min(p.x, q.x), Min(p.y, q.y), Min(p.z, q.z))
  }

  function MaxCorner(p: Point3, q: Point3): Point3 {
    Point3(Max(p.x, q.x), Max(p.y, q.y), Max(p.z, q.z))
  }

  /** Componentwise `p <= q`. */
  predicate Below(p: Point3, q: Point3) {
    p.x <= q.x && p.y <= q.y && p.z <= q.z
  }

  /** Componentwise minimum of a non-empty point sequence. */
  function Lower(ps: seq<Point3>): Point3
    requires |ps| > 0
  {
    if |ps| == 1 then ps[0] else MinCorner(Lower(ps[..|ps| - 1]), ps[|ps| - 1])
  }

  /** Componentwise maximum of a non-empty point sequence. */
  function Upper(ps: seq<Point3>): Point3
    requires |ps| > 0
  {
    if |ps| == 1 then ps[0] else MaxCorner(Upper(ps[..|ps| - 1]), ps[|ps| - 1])
  }

  /** Each coordinate of `b` is the same coordinate of some point of `ps`. */
  ghost predicate Attained(b: Point3, ps: seq<Point3>) {
    (exists i :: 0 <= i < |ps| && b.x == ps[i].x) &&
    (exists i :: 0 <= i < |ps| && b.y == ps[i].y) &&
    (exists i :: 0 <= i < |ps| && b.z == ps[i].z)
  }

  lemma {:induction false} LowerIsTightBound(ps: seq<Point3>)
    requires |ps| > 0
    ensures forall i | 0 <= i < |ps| :: Below(Lower(ps), ps[i])
    ensures Attained(Lower(ps), ps)
  {
    if |ps| > 1 {
      var init := ps[..|ps| - 1];
      LowerIsTightBound(init);
      assert forall i | 0 <= i < |init| :: ps[i] == init[i];
      var l := Lower(init);
      var last := |ps| - 1;
      if l.x <= ps[last].x {
        var i :| 0 <= i < |init| && l.x == init[i].x;
        assert Lower(ps).x == ps[i].x;
      } else {
        assert Lower(ps).x == ps[last].x;
      }
      if l.y <= ps[last].y {
        var i :| 0 <= i < |init| && l.y == init[i].y;
        assert Lower(ps).y == ps[i].y;
      } else {
        assert Lower(ps).y == ps[last].y;
      }
      if l.z <= ps[last].z {
        var i :| 0 <= i < |init| && l.z == init[i].z;
        assert Lower(ps).z == ps[i].z;
      } else {
        assert Lower(ps).z == ps[last].z;
      }
    } else {
      assert Lower(ps).x == ps[0].x;
    }
  }

  lemma {:induction false} UpperIsTightBound(ps: seq<Point3>)
    requires |ps| > 0
    ensures forall i | 0 <= i < |ps| :: Below(ps[i], Upper(ps))
    ensures Attained(Upper(ps), ps)
  {
    if |ps| > 1 {
      var init := ps[..|ps| - 1];
      UpperIsTightBound(init);
      assert forall i | 0 <= i < |init| :: ps[i] == init[i];
      var u := Upper(init);
      var last := |ps| - 1;
      if ps[last].x <= u.x {
        var i :| 0 <= i < |init| && u.x == init[i].x;
        assert Upper(ps).x == ps[i].x;
      } else {
        assert Upper(ps).x == ps[last].x;
      }
      if ps[last].y <= u.y {
        var i :| 0 <= i < |init| && u.y == init[i].y;
        assert Upper(ps).y == ps[i].y;
      } else {
        assert Upper(ps).y == ps[last].y;
      }
      if ps[last].z <= u.z {
        var i :| 0 <= i < |init| && u.z == init[i].z;
        assert Upper(ps).z == ps[i].z;
      } else {
        assert Upper(ps).z == ps[last].z;
      }
    } else {
      assert Upper(ps).x == ps[0].x;
    }
  }

  /** The running-minimum and running-maximum loop over a non-empty point sequence. */
  method Bounds(ps: seq<Point3>) returns (lo: Point3, hi: Point3)
    requires |ps| > 0
    ensures lo == Lower(ps) && hi == Upper(ps)
  {
    lo, hi := ps[0], ps[0];
    for n := 1 to |ps|
      invariant lo == Lower(ps[..n]) && hi == Upper(ps[..n])
    {
      var point := ps[n];
      assert ps[..n + 1][..n] == ps[..n];
      lo := Point3(Min(lo.x, point.x), Min(lo.y, point.y), Min(lo.z, point.z));
      hi := Point3(Max(hi.x, point.x), Max(hi.y, point.y), Max(hi.z, point.z));
    }
    assert ps[..|ps|] == ps;
  }

  /** Componentwise sum of a point sequence. */
  function Sum(ps: seq<Point3>): Point3 {
    if |ps| == 0 then Origin else Add(Sum(ps[..|ps| - 1]), ps[|ps| - 1])
  }

  /** Appending a point adds it to the sum: the running sum of a loop. */
  lemma SumSnoc(ps: seq<Point3>, p: Point3)
    ensures Sum(ps + [p]) == Add(Sum(ps), p)
  {
    assert (ps + [p])[..|ps|] == ps;
  }

  /** Arithmetic mean of a non-empty point sequence. */
  function Mean(ps: seq<Point3>): Point3
    requires |ps| > 0
  {
    var s := Sum(ps);
    var n := |ps| as real;
    Point3(s.x / n, s.y / n, s.z / n)
  }

  /** Coordinate `axis` (0, 1 or 2) of `p`. */
  function Coord(p: Point3, axis: int): real {
    if axis == 0 then p.x else if axis == 1 then p.y else p.z
  }

  function SumReals(xs: seq<real>): real {
    if |xs| == 0 then 0.0 else SumReals(xs[..|xs| - 1]) + xs[|xs| - 1]
  }

  /** `r` added to itself `n` times. */
  function Repeat(n: nat, r: real): real {
    if n == 0 then 0.0 else Repeat(n - 1, r) + r
  }

  lemma {:induction false} RepeatIsProduct(n: nat, r: real)
    ensures Repeat(n, r) == (n as real) * r
  {
    if n > 0 {
      RepeatIsProduct(n - 1, r);
      assert (n as real) * r == ((n - 1) as real) * r + r;
    }
  }

  /** Coordinate `axis` of every point of `ps`. */
  function Coords(ps: seq<Point3>, axis: int): (xs: seq<real>)
    ensures |xs| == |ps| && forall i | 0 <= i < |ps| :: xs[i] == Coord(ps[i], axis)
  {
    seq(|ps|, i requires 0 <= i < |ps| => Coord(ps[i], axis))
  }

  lemma {:induction false} SumByCoords(ps: seq<Point3>, axis: int)
    ensures Coord(Sum(ps), axis) == SumReals(Coords(ps, axis))
  {
    if |ps| > 0 {
      var init := ps[..|ps| - 1];
      SumByCoords(init, axis);
      assert Coords(ps, axis)[..|ps| - 1] == Coords(init, axis);
    }
  }

  lemma {:induction false} SumRealsBetween(xs: seq<real>, lo: real, hi: real)
    requires forall i | 0 <= i < |xs| :: lo <= xs[i] <= hi
    ensures Repeat(|xs|, lo) <= SumReals(xs) <= Repeat(|xs|, hi)
  {
    if |xs| > 0 {
      var init := xs[..|xs| - 1];
      assert forall i | 0 <= i < |init| :: init[i] == xs[i];
      SumRealsBetween(init, lo, hi);
    }
  }

  /** A quotient of a non-negative number by one at least as large lies in `[0, 1]`. */
  lemma UnitQuotient(x: real, y: real)
    requires 0.0 <= x <= y && 0.0 < y
    ensures 0.0 <= x / y <= 1.0
  {
    var q := x / y;
    assert q * y == x;
    assert (1.0 - q) * y == y - x;
  }

  /** A sum of `n > 0` terms, each in `[lo, hi]`, divided by `n` lies in `[lo, hi]`. */
  lemma AverageBetween(s: real, n: nat, lo: real, hi: real)
    requires n > 0 && Repeat(n, lo) <= s <= Repeat(n, hi)
    ensures lo <= s / (n as real) <= hi
  {
    RepeatIsProduct(n, lo);
    RepeatIsProduct(n, hi);
    var m := n as real;
    var q := s / m;
    assert q * m == s;
    assert m * lo <= m * q <= m * hi;
  }

  lemma AxisMeanBetween(ps: seq<Point3>, axis: int, lo: real, hi: real)
    requires |ps| > 0
    requires forall i | 0 <= i < |ps| :: lo <= Coord(ps[i], axis) <= hi
    ensures lo <= Coord(Sum(ps), axis) / (|ps| as real) <= hi
  {
    SumByCoords(ps, axis);
    SumRealsBetween(Coords(ps, axis), lo, hi);
    AverageBetween(Coord(Sum(ps), axis), |ps|, lo, hi);
  }

  /** The mean of points lying in a box lies in that box. */
  lemma MeanBetween(ps: seq<Point3>, lo: Point3, hi: Point3)
    requires |ps| > 0
    requires forall i | 0 <= i < |ps| :: Below(lo, ps[i]) && Below(ps[i], hi)
    ensures Below(lo, Mean(ps)) && Below(Mean(ps), hi)
  {
    AxisMeanBetween(ps, 0, lo.x, hi.x);
    AxisMeanBetween(ps, 1, lo.y, hi.y);
    AxisMeanBetween(ps, 2, lo.z, hi.z);
  }

  /** The mean of a non-empty point sequence lies in its bounding box. */
  lemma MeanInBox(ps: seq<Point3>)
    requires |ps| > 0
    ensures Below(Lower(ps), Mean(ps)) && Below(Mean(ps), Upper(ps))
  {
    LowerIsTightBound(ps);
    UpperIsTightBound(ps);
    MeanBetween(ps, Lower(ps), Upper(ps));
  }

  // ----- Concatenation of sequences ------------------------------------------

  /** `xss[0] + xss[1] + ... + xss[|xss| - 1]`. */
  function Concat<T>(xss: seq<seq<T>>): seq<T> {
    if |xss| == 0 then [] else Concat(xss[..|xss| - 1]) + xss[|xss| - 1]
  }

  /** Extending the concatenated prefix by one more part appends that part. */
  lemma ConcatPrefixStep<T>(xss: seq<seq<T>>, n: nat)
    requires n < |xss|
    ensures Concat(xss[..n + 1]) == Concat(xss[..n]) + xss[n]
  {
    assert xss[..n + 1][..n] == xss[..n];
  }

  /** An element of a concatenation is an element of one of its parts, and conversely. */
  lemma {:induction false} ConcatMember<T>(xss: seq<seq<T>>, x: T)
    ensures x in Concat(xss) <==> exists m | 0 <= m < |xss| :: x in xss[m]
  {
    if |xss| > 0 {
      var init := xss[..|xss| - 1];
      ConcatMember(init, x);
      assert forall m | 0 <= m < |init| :: init[m] == xss[m];
      if x in Concat(xss) && x !in xss[|xss| - 1] {
        var m :| 0 <= m < |init| && x in init[m];
        assert x in xss[m];
      }
    }
  }

  // ----- Outcomes that may be undefined --------------------------------------

  /** `acc` followed by the outcome `rest`, undefined when `rest` is. */
  function Prepend<T>(acc: seq<T>, rest: Option<seq<T>>): Option<seq<T>> {
    match rest
    case None => None
    case Some(ts) => Some(acc + ts)
  }

  lemma PrependCons<T>(acc: seq<T>, t: T, rest: Option<seq<T>>)
    ensures Prepend(acc, match rest case None => None case Some(ts) => Some([t] + ts)) == Prepend(acc + [t], rest)
  {
    if rest.Some? {
      assert acc + ([t] + rest.value) == (acc + [t]) + rest.value;
    }
  }

  /** The outcomes joined in order: undefined as soon as one of them is. */
  function JoinAll<T>(parts: seq<Option<seq<T>>>): Option<seq<T>> {
    if |parts| == 0 then Some([])
    else
      var init := JoinAll(parts[..|parts| - 1]);
      if init.Some? && parts[|parts| - 1].Some? then Some(init.value + parts[|parts| - 1].value) else None
  }

  lemma JoinAllPrefixStep<T>(parts: seq<Option<seq<T>>>, k: nat)
    requires k < |parts|
    ensures JoinAll(parts[..k + 1]) ==
      if JoinAll(parts[..k]).Some? && parts[k].Some? then Some(JoinAll(parts[..k]).value + parts[k].value) else None
  {
    assert parts[..k + 1][..k] == parts[..k];
  }

  /** Joined outcomes are defined exactly when each one is, and empty when each one is empty. */
  lemma {:induction false} JoinAllDefined<T>(parts: seq<Option<seq<T>>>)
    ensures JoinAll(parts).Some? <==> forall i | 0 <= i < |parts| :: parts[i].Some?
    ensures (forall i | 0 <= i < |parts| :: parts[i] == Some([])) ==> JoinAll(parts) == Some([])
  {
    if |parts| > 0 {
      var init := parts[..|parts| - 1];
      JoinAllDefined(init);
      assert forall i | 0 <= i < |init| :: init[i] == parts[i];
      var nothing: seq<T> := [];
      assert nothing + nothing == nothing;
    }
  }

  /** An element of joined outcomes is an element of one of them. */
  lemma {:induction false} JoinAllMember<T>(parts: seq<Option<seq<T>>>, x: T)
    requires JoinAll(parts).Some? && x in JoinAll(parts).value
    ensures exists m | 0 <= m < |parts| :: parts[m].Some? && x in parts[m].value
  {
    var n := |parts| - 1;
    var init := parts[..n];
    if x !in parts[n].value {
      JoinAllMember(init, x);
      var m :| 0 <= m < |init| && init[m].Some? && x in init[m].value;
      assert parts[m] == init[m];
    }
  }

  /** Parts that are all defined join to the concatenation of their values. */
  lemma {:induction false} JoinAllSome<T>(parts: seq<Option<seq<T>>>, xss: seq<seq<T>>)
    requires |parts| == |xss| && forall i | 0 <= i < |parts| :: parts[i] == Some(xss[i])
    ensures JoinAll(parts) == Some(Concat(xss))
  {
    if |parts| > 0 {
      var n := |parts| - 1;
      assert forall i | 0 <= i < n :: parts[..n][i] == Some(xss[..n][i]);
      JoinAllSome(parts[..n], xss[..n]);
    }
  }
}
