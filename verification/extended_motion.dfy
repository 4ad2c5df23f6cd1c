/**
 * The motion component of p1906-mol-extended-motion.cc: a simulated clock and
 * a reflecting bounding box, updated in place, and the motor transport of
 * this revision, which appends every recorded position to a growing position
 * list instead of writing into a fixed point table.
 */
module Extended {
  import opened Geometry
  import opened Random
  import opened Scans
  import opened Transport

  /** ULONG_MAX on a platform with 64-bit unsigned long: the "no tube" sentinel of this revision. */
  const ULongMax: nat := 0xFFFF_FFFF_FFFF_FFFF

  /** The mass diffusivity D of brownianMotion. */
  const Diffusivity: real := 1.0

  /** The binding probability motorWalk fixes for testing: the motor always binds. */
  const BindingProbability: real := 1.0

  /** How many Brownian steps float2Tube takes at most before it gives up. */
  const FloatTimeout: nat := 100

  /** INT_MAX for a 32-bit int, the result type of findNearestTube in this revision. */
  const IntMax: int := 0x7FFF_FFFF

  /** The conversion of a C int to size_t: negative values wrap around modulo 2^64. */
  function ToSize(i: int): (s: nat)
    requires -IntMax - 1 <= i <= IntMax
    ensures s <= ULongMax
    ensures i >= 0 ==> s == i
    ensures i == -1 <==> s == ULongMax
  {
    if i < 0 then i + ULongMax + 1 else i
  }

  /** The standard deviation of one Brownian step over timePeriod: sqrt(2 D t). */
  function Spread(m: Numerics, timePeriod: real): real
  {
    m.sqrt(2.0 * Diffusivity * timePeriod)
  }

  /**
   * One axis of checkBoundingBox: a coordinate below lo is mirrored at lo,
   * then one above hi is mirrored at hi, in that order and both checked.
   */
  function ReflectAxis(c: real, lo: real, hi: real): real
  {
    var c1 := if c < lo then lo + (lo - c) else c;
    if c1 > hi then hi - (c1 - hi) else c1
  }

  /** The position checkBoundingBox leaves: every axis reflected independently. */
  function Reflect(p: Point, lowerLeft: Point, upperRight: Point): Point
  {
    Point(ReflectAxis(p.x, lowerLeft.x, upperRight.x),
          ReflectAxis(p.y, lowerLeft.y, upperRight.y),
          ReflectAxis(p.z, lowerLeft.z, upperRight.z))
  }

  /**
   * On one axis of a box with lo <= hi: an inside coordinate is kept, one
   * below lo by at most the box width becomes 2 lo - c, one above hi by at
   * most the box width becomes 2 hi - c, and in all these cases the result
   * is inside the box.  A coordinate further out is reflected twice or lands
   * outside.
   */
  lemma ReflectAxisCases(c: real, lo: real, hi: real)
    requires lo <= hi
    ensures lo <= c <= hi ==> ReflectAxis(c, lo, hi) == c
    ensures c < lo && lo - c <= hi - lo ==> ReflectAxis(c, lo, hi) == 2.0 * lo - c
    ensures hi < c && c - hi <= hi - lo ==> ReflectAxis(c, lo, hi) == 2.0 * hi - c
    ensures lo - (hi - lo) <= c <= hi + (hi - lo) ==> lo <= ReflectAxis(c, lo, hi) <= hi
    ensures c < lo && lo - c > hi - lo ==> ReflectAxis(c, lo, hi) == 2.0 * hi - 2.0 * lo + c
  {
  }

  /** A position inside the box is left alone, and one within a box width of it is brought back inside. */
  lemma ReflectIntoBox(p: Point, lowerLeft: Point, upperRight: Point)
    requires lowerLeft.x <= upperRight.x && lowerLeft.y <= upperRight.y && lowerLeft.z <= upperRight.z
    ensures InBox(p, lowerLeft, upperRight) ==> Reflect(p, lowerLeft, upperRight) == p
    ensures InBox(p, Sub(Scale(2.0, lowerLeft), upperRight), Sub(Scale(2.0, upperRight), lowerLeft)) ==>
      InBox(Reflect(p, lowerLeft, upperRight), lowerLeft, upperRight)
  {
    ReflectAxisCases(p.x, lowerLeft.x, upperRight.x);
    ReflectAxisCases(p.y, lowerLeft.y, upperRight.y);
    ReflectAxisCases(p.z, lowerLeft.z, upperRight.z);
  }

  /** p lies in the closed axis-aligned box from lowerLeft to upperRight. */
  predicate InBox(p: Point, lowerLeft: Point, upperRight: Point)
  {
    && lowerLeft.x <= p.x <= upperRight.x
    && lowerLeft.y <= p.y <= upperRight.y
    && lowerLeft.z <= p.z <= upperRight.z
  }

  /** The extended motion component: its simulated clock and its bounding box. */
  class ExtendedMotion {
    /** t.time: the simulated time, in seconds. */
    var time: real
    /** bb.lower_left and bb.upper_right. */
    var lowerLeft: Point
    var upperRight: Point

    /** The constructor sets nothing: the clock and the box hold whatever they were allocated with. */
    constructor ()
    {
    }

    /** setBoundingBox: store both corners. */
    method SetBoundingBox(lowerLeft: Point, upperRight: Point)
      modifies this
      ensures this.lowerLeft == lowerLeft && this.upperRight == upperRight
      ensures time == old(time)
    {
      this.lowerLeft := lowerLeft;
      this.upperRight := upperRight;
    }

    /**
     * checkBoundingBox: reflect the position back into the bounding box, axis
     * by axis.  lastPos is not read.
     */
    method CheckBoundingBox(lastPos: Point, currentPos: Point) returns (pos: Point)
      ensures pos == Reflect(currentPos, lowerLeft, upperRight)
    {
      var cpx, cpy, cpz := currentPos.x, currentPos.y, currentPos.z;
      if cpx < lowerLeft.x {
        cpx := lowerLeft.x + (lowerLeft.x - cpx);
      }
      if cpx > upperRight.x {
        cpx := upperRight.x - (cpx - upperRight.x);
      }
      if cpy < lowerLeft.y {
        cpy := lowerLeft.y + (lowerLeft.y - cpy);
      }
      if cpy > upperRight.y {
        cpy := upperRight.y - (cpy - upperRight.y);
      }
      if cpz < lowerLeft.z {
        cpz := lowerLeft.z + (lowerLeft.z - cpz);
      }
      if cpz > upperRight.z {
        cpz := upperRight.z - (cpz - upperRight.z);
      }
      pos := Point(cpx, cpy, cpz);
    }

    /** getTime: the time the clock shows. */
    method GetTime() returns (t: real)
      ensures t == time
    {
      t := time;
    }

    /** initTime: the clock restarts at zero; the box is untouched. */
    method InitTime()
      modifies this
      ensures time == 0.0
      ensures lowerLeft == old(lowerLeft) && upperRight == old(upperRight)
    {
      time := 0.0;
    }

    /** updateTime: the clock advances by exactly eventTime; the box is untouched. */
    method UpdateTime(eventTime: real)
      modifies this
      ensures time == old(time) + eventTime
      ensures lowerLeft == old(lowerLeft) && upperRight == old(upperRight)
    {
      time := time + eventTime;
    }

    /**
     * brownianMotion (this revision): every coordinate moves by a Gaussian
     * draw of standard deviation sqrt(2 D timePeriod).
     */
    method BrownianMotion(m: Numerics, r: Rng, currentPos: Point, timePeriod: real) returns (newPos: Point)
      modifies r
      ensures newPos == BrownianStep(currentPos, r.normal, old(r.drawn), Spread(m, timePeriod))
      ensures r.drawn == old(r.drawn) + 3
    {
      var sigma := m.sqrt(2.0 * Diffusivity * timePeriod);
      var dx := r.Gaussian(sigma);
      var dy := r.Gaussian(sigma);
      var dz := r.Gaussian(sigma);
      newPos := Point(currentPos.x + dx, currentPos.y + dy, currentPos.z + dz);
    }

    /**
     * One step of the float loops: brownianMotion from the position after i
     * Brownian steps gives the position after i + 1.
     */
    method FloatStep(m: Numerics, r: Rng, currentPos: Point, timePeriod: real, ghost start: Point, ghost first: nat, ghost i: nat)
      returns (newPos: Point)
      requires currentPos == Path(start, r.normal, first, Spread(m, timePeriod), i) && r.drawn == first + 3 * i
      modifies r
      ensures newPos == Path(start, r.normal, first, Spread(m, timePeriod), i + 1) && r.drawn == first + 3 * (i + 1)
    {
      newPos := BrownianMotion(m, r, currentPos, timePeriod);
    }

    /**
     * One step of the float loops with its clock tick: after i steps that
     * took the clock from t0 to t0 + Elapsed(i), the step gives the position
     * after i + 1 steps and the clock t0 + Elapsed(i + 1).
     */
    method DriftStep(m: Numerics, r: Rng, currentPos: Point, timePeriod: real,
                     ghost start: Point, ghost first: nat, ghost i: nat, ghost t0: real)
      returns (newPos: Point)
      requires currentPos == Path(start, r.normal, first, Spread(m, timePeriod), i) && r.drawn == first + 3 * i
      requires time == t0 + Elapsed(i, timePeriod)
      modifies this, r
      ensures newPos == Path(start, r.normal, first, Spread(m, timePeriod), i + 1) && r.drawn == first + 3 * (i + 1)
      ensures time == t0 + Elapsed(i + 1, timePeriod)
      ensures lowerLeft == old(lowerLeft) && upperRight == old(upperRight)
    {
      newPos := FloatStep(m, r, currentPos, timePeriod, start, first, i);
      UpdateTime(timePeriod);
    }

    /**
     * motorWalk (this revision): draw a uniform variate and give up when it
     * exceeds the binding probability; give up when findNearestTube, read as
     * a size_t, is the ULONG_MAX sentinel; otherwise append startPt and the
     * end point of every row from the bound one to the last row of its tube,
     * each step advancing the clock by its length over the movement rate.
     * The binding probability is a parameter; the code fixes it at
     * BindingProbability, with which the motor always binds.
     */
    method MotorWalk(m: Numerics, r: Rng, startPt: Point, pts: seq<Point>, tubeMatrix: seq<Segment>, segPerTube: nat,
                     bindingProbability: real)
      returns (walked: seq<Point>)
      requires segPerTube > 0 && |tubeMatrix| % segPerTube == 0
      requires |tubeMatrix| <= IntMax
      modifies this, r
      ensures r.drawn == old(r.drawn) + 1
      ensures lowerLeft == old(lowerLeft) && upperRight == old(upperRight)
      ensures r.uniform(old(r.drawn)) > bindingProbability || !Touches(tubeMatrix, startPt) ==>
        walked == pts && time == old(time)
      ensures r.uniform(old(r.drawn)) <= bindingProbability && Touches(tubeMatrix, startPt) ==>
        && walked == pts + Walk(tubeMatrix, startPt, BoundRow(tubeMatrix, startPt), segPerTube)
        && time == old(time) + WalkTime(m, walked[|pts|..], |walked| - |pts|)
      ensures SqrtLike(m.sqrt) ==> old(time) <= time
    {
      var u := r.Uniform();
      if u > bindingProbability {
        return pts;
      }
      var found := FindNearestTube(startPt, tubeMatrix, TubeRadius);
      var seg := ToSize(found);
      if seg == ULongMax {
        return pts;
      }
      walked := WalkRows(m, startPt, seg, pts, tubeMatrix, segPerTube);
    }

    /**
     * The walking part of motorWalk, once the motor is bound to row seg:
     * append startPt, then the end point of every row from seg to the last
     * row of seg's tube, each step advancing the clock by the distance
     * between the last two appended points over the movement rate.
     */
    method WalkRows(m: Numerics, startPt: Point, seg: nat, pts: seq<Point>, tubeMatrix: seq<Segment>, segPerTube: nat)
      returns (walked: seq<Point>)
      requires segPerTube > 0 && seg < |tubeMatrix| && |tubeMatrix| % segPerTube == 0
      modifies this
      ensures walked == pts + Walk(tubeMatrix, startPt, seg, segPerTube)
      ensures time == old(time) + WalkTime(m, walked[|pts|..], |walked| - |pts|)
      ensures lowerLeft == old(lowerLeft) && upperRight == old(upperRight)
      ensures SqrtLike(m.sqrt) ==> old(time) <= time
    {
      WalkFits(seg, segPerTube, |tubeMatrix|);
      ghost var walk := Walk(tubeMatrix, startPt, seg, segPerTube);
      walked := pts + [startPt];
      var segOfTube := seg % segPerTube;
      var segToGo := segPerTube - segOfTube;
      assert segToGo == SegToGo(seg, segPerTube);
      for i := seg to seg + segToGo
        invariant walked == pts + walk[..i - seg + 1]
        invariant time == old(time) + WalkTime(m, walk, i - seg + 1)
        invariant lowerLeft == old(lowerLeft) && upperRight == old(upperRight)
      {
        var segment := tubeMatrix[i];
        assert walk[i - seg + 1] == segment.end;
        assert walk[..i - seg + 2] == walk[..i - seg + 1] + [segment.end];
        walked := walked + [segment.end];
        var pos1 := walked[|walked| - 2];
        var pos2 := walked[|walked| - 1];
        assert pos1 == walk[i - seg] && pos2 == walk[i - seg + 1];
        UpdateTime(Euclid(m, pos1, pos2) / MovementRate);
      }
      assert walk[..|walk|] == walk;
      assert walked[|pts|..] == walk;
      assert SqrtLike(m.sqrt) ==> old(time) <= time by {
        if SqrtLike(m.sqrt) {
          WalkTimeNonNegative(m, walk, |walk|);
        }
      }
    }

    /**
     * float2Tube (this revision): append the current position, take a
     * Brownian step, advance the clock by timePeriod and only then ask
     * findNearestTube about the new position, stopping on contact; give up
     * after FloatTimeout steps.  The touching position itself is not
     * appended.  Returns the touched row, or ULONG_MAX: the int result of
     * the scan, read as a size_t.
     */
    method Float2Tube(m: Numerics, r: Rng, startPt: Point, pts: seq<Point>, tubeMatrix: seq<Segment>, timePeriod: real)
      returns (contact: nat, walked: seq<Point>)
      requires |tubeMatrix| <= IntMax
      modifies this, r
      ensures var k := FirstContact(tubeMatrix, startPt, r.normal, old(r.drawn), Spread(m, timePeriod), 1, FloatTimeout + 1);
        var steps := if k <= FloatTimeout then k else FloatTimeout;
        && walked == pts + PathPrefix(startPt, r.normal, old(r.drawn), Spread(m, timePeriod), steps)
        && contact == (if k <= FloatTimeout
                       then NearestTube(Path(startPt, r.normal, old(r.drawn), Spread(m, timePeriod), k), tubeMatrix, TubeRadius, |tubeMatrix|)
                       else ULongMax)
        && time == old(time) + Elapsed(steps, timePeriod)
        && r.drawn == old(r.drawn) + 3 * steps
      ensures |pts| < |walked| <= |pts| + FloatTimeout
      ensures lowerLeft == old(lowerLeft) && upperRight == old(upperRight)
    {
      ghost var first := r.drawn;
      ghost var sigma := Spread(m, timePeriod);
      ghost var k := FirstContact(tubeMatrix, startPt, r.normal, first, sigma, 1, FloatTimeout + 1);
      var currentPos := startPt;
      var numPts := 0;
      var ts: int := -1;
      walked := pts;
      var i := 0;
      while i < FloatTimeout
        invariant i <= FloatTimeout && i + 1 <= k && numPts == i
        invariant FirstContact(tubeMatrix, startPt, r.normal, first, sigma, i + 1, FloatTimeout + 1) == k
        invariant currentPos == Path(startPt, r.normal, first, sigma, i)
        invariant r.drawn == first + 3 * i
        invariant time == old(time) + Elapsed(i, timePeriod)
        invariant walked == pts + PathPrefix(startPt, r.normal, first, sigma, i)
        invariant lowerLeft == old(lowerLeft) && upperRight == old(upperRight)
        invariant ts == -1
      {
        AppendPath(pts, startPt, r.normal, first, sigma, i);
        walked := walked + [currentPos];
        numPts := numPts + 1;
        currentPos := DriftStep(m, r, currentPos, timePeriod, startPt, first, i, old(time));
        ts := FindNearestTube(currentPos, tubeMatrix, TubeRadius);
        i := i + 1;
        assert ts != -1 <==> TouchesAt(tubeMatrix, startPt, r.normal, first, sigma, i);
        if ToSize(ts) != ULongMax {
          assert k == i;
          contact := ToSize(ts);
          return;
        }
      }
      contact := ToSize(ts);
    }

    /**
     * freeFloat (this revision): for time steps, append the current
     * position, take a Brownian step and advance the clock by timePeriod;
     * returns the number of steps.  As in the microtubule field, the walk
     * starts from whatever the fresh position buffer holds (initialPos)
     * rather than from startPt, which is never read.
     */
    method FreeFloat(m: Numerics, r: Rng, startPt: Point, initialPos: Point, pts: seq<Point>, time: int, timePeriod: real)
      returns (numPts: int, walked: seq<Point>)
      modifies this, r
      ensures numPts == if time > 0 then time else 0
      ensures walked == pts + PathPrefix(initialPos, r.normal, old(r.drawn), Spread(m, timePeriod), numPts)
      ensures this.time == old(this.time) + Elapsed(numPts, timePeriod)
      ensures r.drawn == old(r.drawn) + 3 * numPts
      ensures lowerLeft == old(lowerLeft) && upperRight == old(upperRight)
    {
      ghost var first := r.drawn;
      ghost var sigma := Spread(m, timePeriod);
      ghost var steps := if time > 0 then time else 0;
      var currentPos := initialPos;
      numPts := 0;
      walked := pts;
      var i := 0;
      while i < time
        invariant 0 <= i <= steps && numPts == i
        invariant currentPos == Path(initialPos, r.normal, first, sigma, i)
        invariant r.drawn == first + 3 * i
        invariant this.time == old(this.time) + Elapsed(i, timePeriod)
        invariant walked == pts + PathPrefix(initialPos, r.normal, first, sigma, i)
        invariant lowerLeft == old(lowerLeft) && upperRight == old(upperRight)
        decreases time - i
      {
        AppendPath(pts, initialPos, r.normal, first, sigma, i);
        walked := walked + [currentPos];
        currentPos := DriftStep(m, r, currentPos, timePeriod, initialPos, first, i, old(this.time));
        numPts := numPts + 1;
        i := i + 1;
      }
    }
  }
}
