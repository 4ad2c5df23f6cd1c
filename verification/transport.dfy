/**
 * What both revisions of the motor transport (the microtubule field's
 * motorWalk / float2Tube and the extended motion's) have in common: when a
 * position is in contact with a tube, the first Brownian position that is,
 * which rows a bound motor walks, and how long the walk takes.
 */
module Transport {
  import opened Geometry
  import opened Random
  import opened Scans
  import opened Tubes

  /** The tube radius, in nm, within which a motor is in contact with a tube. */
  const TubeRadius: real := 15.0

  /** The walking speed of a bound motor, in nm per second. */
  const MovementRate: real := 1000.0

  /** Position p is in contact with a tube: findNearestTube finds a row within the tube radius. */
  predicate Touches(tubeMatrix: seq<Segment>, p: Point)
  {
    NearestTube(p, tubeMatrix, TubeRadius, |tubeMatrix|) != -1
  }

  /** Contact means exactly that some row lies within the tube radius. */
  lemma TouchesIffNearRow(tubeMatrix: seq<Segment>, p: Point)
    ensures Touches(tubeMatrix, p) <==> exists i :: 0 <= i < |tubeMatrix| && WithinRadius(p, tubeMatrix[i], TubeRadius)
  {
    NearestTubeIsFirstMinimum(p, tubeMatrix, TubeRadius, |tubeMatrix|);
  }

  /** The Brownian position after j steps from start is in contact with a tube. */
  predicate TouchesAt(tubeMatrix: seq<Segment>, start: Point, normal: nat -> real, first: nat, sigma: real, j: nat)
  {
    Touches(tubeMatrix, Path(start, normal, first, sigma, j))
  }

  /**
   * The first number of steps in from .. limit - 1 after which the Brownian
   * position touches a tube, or limit when none of them does.
   */
  function FirstContact(tubeMatrix: seq<Segment>, start: Point, normal: nat -> real, first: nat, sigma: real, from: nat, limit: nat): (k: nat)
    ensures from <= limit ==> from <= k <= limit
    decreases limit - from
  {
    if from >= limit then limit
    else if TouchesAt(tubeMatrix, start, normal, first, sigma, from) then from
    else FirstContact(tubeMatrix, start, normal, first, sigma, from + 1, limit)
  }

  /** When FirstContact stops before limit, the position it names does touch a tube. */
  lemma {:induction false} FirstContactTouches(tubeMatrix: seq<Segment>, start: Point, normal: nat -> real, first: nat, sigma: real, from: nat, limit: nat)
    requires from <= limit
    ensures FirstContact(tubeMatrix, start, normal, first, sigma, from, limit) < limit ==>
      TouchesAt(tubeMatrix, start, normal, first, sigma, FirstContact(tubeMatrix, start, normal, first, sigma, from, limit))
    decreases limit - from
  {
    if from < limit && !TouchesAt(tubeMatrix, start, normal, first, sigma, from) {
      FirstContactTouches(tubeMatrix, start, normal, first, sigma, from + 1, limit);
    }
  }

  /** No position FirstContact passes over touches a tube, so with limit none in the range does. */
  lemma {:induction false} FirstContactNoneBefore(tubeMatrix: seq<Segment>, start: Point, normal: nat -> real, first: nat, sigma: real, from: nat, limit: nat)
    requires from <= limit
    ensures forall j :: from <= j < FirstContact(tubeMatrix, start, normal, first, sigma, from, limit) ==>
      !TouchesAt(tubeMatrix, start, normal, first, sigma, j)
    decreases limit - from
  {
    if from < limit && !TouchesAt(tubeMatrix, start, normal, first, sigma, from) {
      FirstContactNoneBefore(tubeMatrix, start, normal, first, sigma, from + 1, limit);
    }
  }

  /** The time that steps clock updates of period each add up to. */
  function Elapsed(steps: nat, period: real): real
  {
    if steps == 0 then 0.0 else Elapsed(steps - 1, period) + period
  }

  /** The clock updates of a float loop add up to the number of steps times the period. */
  lemma {:induction false} ElapsedIsProduct(steps: nat, period: real)
    ensures Elapsed(steps, period) == steps as real * period
  {
    if steps > 0 {
      ElapsedIsProduct(steps - 1, period);
      assert steps as real * period == (steps - 1) as real * period + period;
    }
  }

  /** Clock updates of a non-negative period never turn the clock back. */
  lemma {:induction false} ElapsedNonNegative(steps: nat, period: real)
    requires 0.0 <= period
    ensures 0.0 <= Elapsed(steps, period)
  {
    if steps > 0 {
      ElapsedNonNegative(steps - 1, period);
    }
  }

  /** Writing x at index i of a recorded table extends the record up to i by x and leaves the rest as it was. */
  lemma RecordAt<T>(before: seq<T>, after: seq<T>, i: nat, x: T)
    requires i < |before| && after == before[i := x]
    ensures after[..i + 1] == before[..i] + [x]
    ensures after[i + 1..] == before[i + 1..]
  {
  }

  /** Appending the position after i steps to a list ending in the first i positions gives the first i + 1. */
  lemma AppendPath(pts: seq<Point>, start: Point, normal: nat -> real, first: nat, sigma: real, i: nat)
    ensures (pts + PathPrefix(start, normal, first, sigma, i)) + [Path(start, normal, first, sigma, i)]
         == pts + PathPrefix(start, normal, first, sigma, i + 1)
  {
  }

  /** How many rows a motor bound to row seg walks: up to and including the last row of seg's tube. */
  function SegToGo(seg: nat, segPerTube: nat): nat
    requires segPerTube > 0
  {
    segPerTube - seg % segPerTube
  }

  /** The end points of the count rows from row seg on. */
  function RowEnds(tubeMatrix: seq<Segment>, seg: nat, count: nat): (ends: seq<Point>)
    requires seg + count <= |tubeMatrix|
    ensures |ends| == count
  {
    seq(count, k requires 0 <= k < count => tubeMatrix[seg + k].end)
  }

  /**
   * The positions a motor bound to row seg records: its start, then the end
   * point of every row from seg to the last row of seg's tube.
   */
  function Walk(tubeMatrix: seq<Segment>, startPt: Point, seg: nat, segPerTube: nat): (walk: seq<Point>)
    requires segPerTube > 0 && seg < |tubeMatrix| && |tubeMatrix| % segPerTube == 0
    ensures |walk| == SegToGo(seg, segPerTube) + 1
  {
    WalkWithinTube(seg, segPerTube, |tubeMatrix|);
    [startPt] + RowEnds(tubeMatrix, seg, SegToGo(seg, segPerTube))
  }

  /**
   * A walk starts where the motor was bound and then records the end points
   * of consecutive segments of seg's tube, from segment seg % segPerTube to
   * the tube's last segment, so that it stops at the start of the next tube.
   * Tube t's first row is Offset(t, segPerTube), that is t * segPerTube.
   */
  lemma WalkAlongTube(tubeMatrix: seq<Segment>, startPt: Point, seg: nat, segPerTube: nat)
    requires segPerTube > 0 && seg < |tubeMatrix| && |tubeMatrix| % segPerTube == 0
    ensures Offset(seg / segPerTube, segPerTube) == seg / segPerTube * segPerTube
    ensures Walk(tubeMatrix, startPt, seg, segPerTube)[0] == startPt
    ensures forall k :: 1 <= k < |Walk(tubeMatrix, startPt, seg, segPerTube)| ==>
      && seg % segPerTube + (k - 1) < segPerTube
      && Offset(seg / segPerTube, segPerTube) + (seg % segPerTube + (k - 1)) < |tubeMatrix|
      && Walk(tubeMatrix, startPt, seg, segPerTube)[k]
         == tubeMatrix[Offset(seg / segPerTube, segPerTube) + (seg % segPerTube + (k - 1))].end
    ensures seg + (|Walk(tubeMatrix, startPt, seg, segPerTube)| - 1) == Offset(seg / segPerTube + 1, segPerTube)
  {
    var walk := Walk(tubeMatrix, startPt, seg, segPerTube);
    forall k | 1 <= k < |walk|
      ensures seg % segPerTube + (k - 1) < segPerTube
      ensures Offset(seg / segPerTube, segPerTube) + (seg % segPerTube + (k - 1)) < |tubeMatrix|
      ensures walk[k] == tubeMatrix[Offset(seg / segPerTube, segPerTube) + (seg % segPerTube + (k - 1))].end
    {
      WalkRow(seg, segPerTube, |tubeMatrix|, k - 1);
    }
    WalkWithinTube(seg, segPerTube, |tubeMatrix|);
    OffsetIsProduct(seg / segPerTube, segPerTube);
  }

  /** The row a motor at p binds to: the row findNearestTube picks. */
  function BoundRow(tubeMatrix: seq<Segment>, p: Point): (seg: nat)
    requires Touches(tubeMatrix, p)
    ensures seg < |tubeMatrix| && WithinRadius(p, tubeMatrix[seg], TubeRadius)
  {
    NearestTubeIsFirstMinimum(p, tubeMatrix, TubeRadius, |tubeMatrix|);
    NearestTube(p, tubeMatrix, TubeRadius, |tubeMatrix|) as nat
  }

  /**
   * The time a walk through the first n recorded positions takes: every
   * step costs the Euclidean distance it covers over the movement rate.
   */
  function WalkTime(m: Numerics, ps: seq<Point>, n: nat): real
    requires n <= |ps|
  {
    if n <= 1 then 0.0 else WalkTime(m, ps, n - 1) + Euclid(m, ps[n - 2], ps[n - 1]) / MovementRate
  }

  /**
   * A bound motor starting on row seg, with tubes laid out segPerTube rows
   * apiece, walks the rows of tube seg / segPerTube from its segment
   * seg % segPerTube to its last one, between one and segPerTube rows, all
   * inside the tube matrix and none of another tube.
   */
  lemma WalkWithinTube(seg: nat, segPerTube: nat, rows: nat)
    requires segPerTube > 0 && seg < rows && rows % segPerTube == 0
    ensures 1 <= SegToGo(seg, segPerTube) <= segPerTube
    ensures seg == Offset(seg / segPerTube, segPerTube) + seg % segPerTube
    ensures seg + SegToGo(seg, segPerTube) == Offset(seg / segPerTube + 1, segPerTube) <= rows
  {
    DivModOffset(seg, segPerTube);
    DivModOffset(rows, segPerTube);
    OffsetOrder(seg / segPerTube, rows / segPerTube, segPerTube, seg);
  }

  /** Dividing x by d names the tube (d rows apiece) and the segment within it that row x is. */
  lemma DivModOffset(x: nat, d: nat)
    requires d > 0
    ensures x == Offset(x / d, d) + x % d && x % d < d
  {
    OffsetIsProduct(x / d, d);
  }

  /** A row x between the first rows of tubes i and n belongs to a tube before n, so tube i ends by tube n's start. */
  lemma OffsetOrder(i: nat, n: nat, d: nat, x: nat)
    requires Offset(i, d) <= x < Offset(n, d)
    ensures i + 1 <= n && Offset(i + 1, d) <= Offset(n, d)
  {
    if n <= i {
      OffsetMonotone(n, i, d);
    }
    OffsetMonotone(i + 1, n, d);
  }

  /** A bound motor walks at least one row, and all of them lie inside the tube matrix. */
  lemma WalkFits(seg: nat, segPerTube: nat, rows: nat)
    requires segPerTube > 0 && seg < rows && rows % segPerTube == 0
    ensures 1 <= SegToGo(seg, segPerTube) && seg + SegToGo(seg, segPerTube) <= rows
  {
    WalkWithinTube(seg, segPerTube, rows);
  }

  /** The walked rows, named by tube and segment: row seg + k is segment seg % segPerTube + k of seg's tube. */
  lemma WalkRow(seg: nat, segPerTube: nat, rows: nat, k: nat)
    requires segPerTube > 0 && seg < rows && rows % segPerTube == 0
    requires k < SegToGo(seg, segPerTube)
    ensures seg % segPerTube + k < segPerTube
    ensures seg + k == Offset(seg / segPerTube, segPerTube) + (seg % segPerTube + k) < rows
  {
    WalkWithinTube(seg, segPerTube, rows);
  }

  /** With a square root that never returns a negative value, walking never takes negative time. */
  lemma {:induction false} WalkTimeNonNegative(m: Numerics, ps: seq<Point>, n: nat)
    requires n <= |ps|
    requires SqrtLike(m.sqrt)
    ensures WalkTime(m, ps, n) >= 0.0
  {
    if n > 1 {
      WalkTimeNonNegative(m, ps, n - 1);
      var d := ps[n - 2];
      var e := ps[n - 1];
      assert SumSquares(Sub(d, e)) >= 0.0;
    }
  }

  /** Extending the walk by one recorded position adds that step's time. */
  lemma WalkTimeSnoc(m: Numerics, ps: seq<Point>, p: Point)
    requires |ps| >= 1
    ensures WalkTime(m, ps + [p], |ps| + 1) == WalkTime(m, ps, |ps|) + Euclid(m, ps[|ps| - 1], p) / MovementRate
  {
    WalkTimePrefix(m, ps, ps + [p], |ps|);
  }

  /** The walking time of a prefix depends on nothing past it. */
  lemma {:induction false} WalkTimePrefix(m: Numerics, ps: seq<Point>, qs: seq<Point>, n: nat)
    requires n <= |ps| && n <= |qs| && ps[..n] == qs[..n]
    ensures WalkTime(m, ps, n) == WalkTime(m, qs, n)
  {
    if n > 1 {
      assert ps[..n - 1] == ps[..n][..n - 1];
      assert qs[..n - 1] == qs[..n][..n - 1];
      assert ps[n - 2] == ps[..n][n - 2] && ps[n - 1] == ps[..n][n - 1];
      assert qs[n - 2] == qs[..n][n - 2] && qs[n - 1] == qs[..n][n - 1];
      WalkTimePrefix(m, ps, qs, n - 1);
    }
  }
}
