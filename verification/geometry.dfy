/**
 * Points, tube segments and the distance formulas of the microtubule field:
 * the vector helpers point/line, cross_product, distanceP and the size-dispatching
 * distance of p1906-mol-field-microtubule.cc.
 *
 * Coordinates are reals.  The floating-point library calls the code relies on
 * (sqrt inside gsl_blas_dnrm2, sin, cos, the histogram entropy sEntropy and the
 * SVD least-squares solver) are not reimplemented: they are fields of a
 * `Numerics` value that every caller passes in.
 */
module Geometry {

  datatype Point = Point(x: real, y: real, z: real)

  /** One row (x1, y1, z1, x2, y2, z2) of a tube matrix. */
  datatype Segment = Segment(start: Point, end: Point)

  /**
   * The IEEE double values the modelled computations can produce: finite
   * values, the +infinity used as "no distance yet" (GSL_POSINF), and NaN.
   */
  datatype ExtReal = Finite(value: real) | PosInf | NaN

  /** IEEE `a < b`: false whenever either side is NaN. */
  predicate Less(a: ExtReal, b: ExtReal)
  {
    match (a, b)
    case (Finite(u), Finite(v)) => u < v
    case (Finite(_), PosInf) => true
    case _ => false
  }

  /** IEEE `a <= b`: false whenever either side is NaN. */
  predicate AtMost(a: ExtReal, b: ExtReal)
  {
    match (a, b)
    case (Finite(u), Finite(v)) => u <= v
    case (Finite(_), PosInf) => true
    case (PosInf, PosInf) => true
    case _ => false
  }

  datatype Option<T> = None | Some(value: T)

  /** What the SVD least-squares solve yields: the parameters (t, s), or NaN in one of them. */
  datatype Solution = Solved(t: real, s: real) | NotANumber

  /**
   * The numerical routines the C++ code calls and the model takes as given.
   * `solve(a, c)` is the least-squares solution of a.start + t (a.end - a.start) == c.start + s (c.end - c.start).
   */
  datatype Numerics = Numerics(
    sqrt: real -> real,
    sin: real -> real,
    cos: real -> real,
    entropy: seq<real> -> real,
    solve: (Segment, Segment) -> Solution)

  /** The properties of the square root the model relies on. */
  ghost predicate SqrtLike(sqrt: real -> real)
  {
    && sqrt(0.0) == 0.0
    && (forall x :: 0.0 <= x ==> 0.0 <= sqrt(x))
    && (forall x, y :: 0.0 <= x < y ==> sqrt(x) < sqrt(y))
  }

  function Add(p: Point, q: Point): Point
  {
    Point(p.x + q.x, p.y + q.y, p.z + q.z)
  }

  /** gsl_vector_sub: p - q. */
  function Sub(p: Point, q: Point): Point
  {
    Point(p.x - q.x, p.y - q.y, p.z - q.z)
  }

  function Scale(k: real, p: Point): Point
  {
    Point(k * p.x, k * p.y, k * p.z)
  }

  /** cross_product(u, v). */
  function Cross(u: Point, v: Point): Point
  {
    Point(u.y * v.z - u.z * v.y,
          u.z * v.x - u.x * v.z,
          u.x * v.y - u.y * v.x)
  }

  function Abs(r: real): real
  {
    if r < 0.0 then -r else r
  }

  /** gsl_blas_dasum: the sum of the absolute values of the components (an L1 norm). */
  function Dasum(v: Point): real
  {
    Abs(v.x) + Abs(v.y) + Abs(v.z)
  }

  function SumSquares(v: Point): real
  {
    v.x * v.x + v.y * v.y + v.z * v.z
  }

  /** distanceP(p, q): gsl_blas_dnrm2 of p - q, the Euclidean distance. */
  function Euclid(m: Numerics, p: Point, q: Point): real
  {
    m.sqrt(SumSquares(Sub(p, q)))
  }

  /**
   * distance(pt, segment) on a six-element operand: the L1 norm of
   * (pt - p1) x (pt - p2) divided by the L1 norm of p2 - p1.
   */
  function LineDistance(pt: Point, s: Segment): ExtReal
  {
    Quotient(Dasum(Cross(Sub(pt, s.start), Sub(pt, s.end))), Dasum(Sub(s.end, s.start)))
  }

  /** numerator / baseline in IEEE arithmetic for a numerator that is 0 whenever the baseline is: 0/0 is NaN. */
  function Quotient(numerator: real, baseline: real): ExtReal
  {
    if baseline == 0.0 then NaN else Finite(numerator / baseline)
  }

  /** point(v, x, y, z): a three-element gsl vector. */
  function PointVec(p: Point): seq<real>
  {
    [p.x, p.y, p.z]
  }

  /** line(v, ...): a six-element gsl vector holding both end points. */
  function SegmentVec(s: Segment): seq<real>
  {
    [s.start.x, s.start.y, s.start.z, s.end.x, s.end.y, s.end.z]
  }

  /**
   * distance(pt, segment_or_point): dispatches on the size of the operand;
   * three elements are a point, six a segment, and any other size yields -1.
   */
  function Distance(m: Numerics, pt: Point, operand: seq<real>): ExtReal
  {
    if |operand| == 3 then
      Finite(Euclid(m, pt, Point(operand[0], operand[1], operand[2])))
    else if |operand| == 6 then
      LineDistance(pt, Segment(Point(operand[0], operand[1], operand[2]),
                               Point(operand[3], operand[4], operand[5])))
    else
      Finite(-1.0)
  }

  /** Inclusive axis-aligned bounding box of a segment, as getOverlap3D tests it. */
  predicate InSegmentBox(p: Point, s: Segment)
  {
    && Min(s.start.x, s.end.x) <= p.x <= Max(s.start.x, s.end.x)
    && Min(s.start.y, s.end.y) <= p.y <= Max(s.start.y, s.end.y)
    && Min(s.start.z, s.end.z) <= p.z <= Max(s.start.z, s.end.z)
  }

  function Min(a: real, b: real): real
  {
    if a < b then a else b
  }

  function Max(a: real, b: real): real
  {
    if a < b then b else a
  }

  lemma DasumZeroIffZero(v: Point)
    ensures Dasum(v) >= 0.0
    ensures Dasum(v) == 0.0 <==> v == Point(0.0, 0.0, 0.0)
  {
  }

  /** The point operand of `distance` is the Euclidean distance: symmetric, zero on equal points, never negative. */
  lemma DistanceBetweenPoints(m: Numerics, p: Point, q: Point)
    requires SqrtLike(m.sqrt)
    ensures Distance(m, p, PointVec(q)) == Finite(Euclid(m, p, q))
    ensures Distance(m, p, PointVec(q)) == Distance(m, q, PointVec(p))
    ensures Euclid(m, p, q) >= 0.0
    ensures p == q ==> Euclid(m, p, q) == 0.0
  {
    assert SumSquares(Sub(p, q)) == SumSquares(Sub(q, p));
    assert SumSquares(Sub(p, q)) >= 0.0;
  }

  /** The segment operand of `distance` is the line distance, and every other size is the error value -1. */
  lemma DistanceOperands(m: Numerics, pt: Point, s: Segment, other: seq<real>)
    requires |other| != 3 && |other| != 6
    ensures Distance(m, pt, SegmentVec(s)) == LineDistance(pt, s)
    ensures Distance(m, pt, other) == Finite(-1.0)
  {
  }

  /** The line distance is never negative or infinite, and it is NaN exactly for a degenerate segment. */
  lemma LineDistanceRange(pt: Point, s: Segment)
    ensures LineDistance(pt, s).NaN? <==> s.start == s.end
    ensures !LineDistance(pt, s).PosInf?
    ensures LineDistance(pt, s).Finite? ==> LineDistance(pt, s).value >= 0.0
  {
  }

  /** A line distance of 0 means the segment is proper and (pt - p1) x (pt - p2) vanishes. */
  lemma LineDistanceZero(pt: Point, s: Segment)
    requires LineDistance(pt, s) == Finite(0.0)
    ensures Sub(s.end, s.start) != Point(0.0, 0.0, 0.0)
    ensures Cross(Sub(pt, s.start), Sub(pt, s.end)) == Point(0.0, 0.0, 0.0)
  {
    ZeroNormQuotient(Cross(Sub(pt, s.start), Sub(pt, s.end)), Sub(s.end, s.start));
  }

  /** Conversely, a proper segment whose cross product vanishes is at line distance 0. */
  lemma LineDistanceZeroBack(pt: Point, s: Segment)
    requires Sub(s.end, s.start) != Point(0.0, 0.0, 0.0)
    requires Cross(Sub(pt, s.start), Sub(pt, s.end)) == Point(0.0, 0.0, 0.0)
    ensures LineDistance(pt, s) == Finite(0.0)
  {
    ZeroNormBack(Cross(Sub(pt, s.start), Sub(pt, s.end)), Sub(s.end, s.start));
  }

  lemma ZeroNormQuotient(c: Point, d: Point)
    requires Quotient(Dasum(c), Dasum(d)) == Finite(0.0)
    ensures c == Point(0.0, 0.0, 0.0) && d != Point(0.0, 0.0, 0.0)
  {
    ZeroQuotient(Dasum(c), Dasum(d));
    DasumZeroIffZero(c);
    DasumZeroIffZero(d);
  }

  lemma ZeroNormBack(c: Point, d: Point)
    requires c == Point(0.0, 0.0, 0.0) && d != Point(0.0, 0.0, 0.0)
    ensures Quotient(Dasum(c), Dasum(d)) == Finite(0.0)
  {
    DasumZeroIffZero(d);
    ZeroOver(Dasum(d));
  }

  lemma ZeroOver(b: real)
    requires b != 0.0
    ensures Quotient(0.0, b) == Finite(0.0)
  {
  }

  lemma ZeroQuotient(a: real, b: real)
    requires Quotient(a, b) == Finite(0.0)
    ensures a == 0.0 && b != 0.0
  {
    assert a == a / b * b;
  }

  /** On a degenerate segment the numerator is zero too, so the quotient is 0/0 (NaN) and never an infinity. */
  lemma DegenerateNumeratorIsZero(pt: Point, s: Segment)
    requires s.start == s.end
    ensures Dasum(Cross(Sub(pt, s.start), Sub(pt, s.end))) == 0.0
  {
  }

  lemma ProductsCommute(t: real, w: real, a: real, b: real)
    ensures (t * a) * (w * b) - (t * b) * (w * a) == 0.0
  {
  }

  /** Two multiples of the same vector have a zero cross product. */
  lemma CrossOfParallel(t: real, w: real, d: Point)
    ensures Cross(Scale(t, d), Scale(w, d)) == Point(0.0, 0.0, 0.0)
  {
    ProductsCommute(t, w, d.y, d.z);
    ProductsCommute(t, w, d.z, d.x);
    ProductsCommute(t, w, d.x, d.y);
  }

  /** A point on the line through a non-degenerate segment is at line distance 0. */
  lemma LineDistanceOnLine(pt: Point, s: Segment, t: real)
    requires s.start != s.end
    requires pt == Add(s.start, Scale(t, Sub(s.end, s.start)))
    ensures LineDistance(pt, s) == Finite(0.0)
  {
    var d := Sub(s.end, s.start);
    assert Sub(pt, s.start) == Scale(t, d);
    assert Sub(pt, s.end) == Scale(t - 1.0, d);
    CrossOfParallel(t, t - 1.0, d);
    assert d != Point(0.0, 0.0, 0.0);
    LineDistanceZeroBack(pt, s);
  }

  /** u x (u - d) == d x u, since u x u == 0. */
  lemma CrossWithDifference(u: Point, d: Point)
    ensures Cross(u, Sub(u, d)) == Sub(Point(0.0, 0.0, 0.0), Cross(u, d))
  {
  }

  /** A vector whose cross product with a non-zero d vanishes is a multiple of d. */
  lemma ParallelIsMultiple(u: Point, d: Point) returns (t: real)
    requires d != Point(0.0, 0.0, 0.0)
    requires Cross(u, d) == Point(0.0, 0.0, 0.0)
    ensures u == Scale(t, d)
  {
    if d.x != 0.0 {
      t := u.x / d.x;
      MultipleOnAxis(u.x, d.x, u.y, d.y);
      MultipleOnAxis(u.x, d.x, u.z, d.z);
    } else if d.y != 0.0 {
      t := u.y / d.y;
      MultipleOnAxis(u.y, d.y, u.x, d.x);
      MultipleOnAxis(u.y, d.y, u.z, d.z);
    } else {
      t := u.z / d.z;
      MultipleOnAxis(u.z, d.z, u.x, d.x);
      MultipleOnAxis(u.z, d.z, u.y, d.y);
    }
  }

  lemma MultipleOnAxis(ua: real, da: real, ub: real, db: real)
    requires da != 0.0
    requires ub * da == ua * db
    ensures ub == (ua / da) * db && ua == (ua / da) * da
  {
    assert ua / da * da == ua;
    calc {
      (ua / da) * db;
      (ua * db) / da;
      (ub * da) / da;
      ub;
    }
  }

  /** Conversely, line distance 0 puts the point on the line through the segment. */
  lemma LineDistanceZeroOnLine(pt: Point, s: Segment)
    requires LineDistance(pt, s) == Finite(0.0)
    ensures s.start != s.end
    ensures exists t :: pt == Add(s.start, Scale(t, Sub(s.end, s.start)))
  {
    var d := Sub(s.end, s.start);
    var u := Sub(pt, s.start);
    LineDistanceZero(pt, s);
    assert Sub(pt, s.end) == Sub(u, d);
    CrossWithDifference(u, d);
    var t := ParallelIsMultiple(u, d);
    assert pt == Add(s.start, Scale(t, d));
  }

  /** distance() on a segment is 0 exactly for the points of the line through a proper segment. */
  lemma LineDistanceZeroIffOnLine(pt: Point, s: Segment)
    ensures LineDistance(pt, s) == Finite(0.0) <==>
              s.start != s.end && exists t :: pt == Add(s.start, Scale(t, Sub(s.end, s.start)))
  {
    if LineDistance(pt, s) == Finite(0.0) {
      LineDistanceZeroOnLine(pt, s);
    }
    if s.start != s.end && exists t :: pt == Add(s.start, Scale(t, Sub(s.end, s.start))) {
      var t :| pt == Add(s.start, Scale(t, Sub(s.end, s.start)));
      LineDistanceOnLine(pt, s, t);
    }
  }

  /** The unit test of distance: the origin lies on the segment (-1,-1,-1)-(2,2,2). */
  lemma LineDistanceUnitTest()
    ensures LineDistance(Point(0.0, 0.0, 0.0),
                         Segment(Point(-1.0, -1.0, -1.0), Point(2.0, 2.0, 2.0))) == Finite(0.0)
  {
    LineDistanceOnLine(Point(0.0, 0.0, 0.0),
                       Segment(Point(-1.0, -1.0, -1.0), Point(2.0, 2.0, 2.0)), 1.0 / 3.0);
  }
}
