/**
 * Motor transport as p1906-mol-field-microtubule.cc writes it: the motor
 * walks along a tube (motorWalk), floats until it touches one (float2Tube)
 * or floats for a fixed number of steps (freeFloat), recording its positions
 * in a caller-supplied point table and advancing a simulated clock passed by
 * address.
 */
module FieldMotion {
  import opened Geometry
  import opened Random
  import opened Scans
  import opened Transport

  /** struct simtime_t: the simulated clock, in seconds. */
  class SimTime {
    var time: real

    constructor (time: real)
      ensures this.time == time
    {
      this.time := time;
    }
  }

  /** How many positions float2Tube records at most before it gives up. */
  const FloatTimeout: nat := 200

  /** initTime: the clock restarts at zero. */
  method InitTime(t: SimTime)
    modifies t
    ensures t.time == 0.0
  {
    t.time := 0.0;
  }

  /** updateTime: the clock advances by exactly eventTime. */
  method UpdateTime(t: SimTime, eventTime: real)
    modifies t
    ensures t.time == old(t.time) + eventTime
  {
    t.time := t.time + eventTime;
  }

  /** propagationDelay: the time the clock shows. */
  method PropagationDelay(t: SimTime) returns (delay: real)
    ensures delay == t.time
  {
    delay := t.time;
  }

  /**
   * brownianMotion (this revision): every coordinate moves by a Gaussian
   * draw whose standard deviation is the time period itself.
   */
  method BrownianMotion(r: Rng, currentPos: Point, timePeriod: real) returns (newPos: Point)
    modifies r
    ensures newPos == BrownianStep(currentPos, r.normal, old(r.drawn), timePeriod)
    ensures r.drawn == old(r.drawn) + 3
  {
    var dx := r.Gaussian(timePeriod);
    var dy := r.Gaussian(timePeriod);
    var dz := r.Gaussian(timePeriod);
    newPos := Point(currentPos.x + dx, currentPos.y + dy, currentPos.z + dz);
  }

  /**
   * motorWalk: the motor starts on the row findNearestTube picks for startPt
   * (the code assumes startPt lies on a tube), records startPt, then walks to
   * the end of every row up to the last row of that tube, recording each end
   * point and advancing the clock by the step's length over the movement
   * rate.  Returns the number of recorded points.
   */
  method MotorWalk(m: Numerics, startPt: Point, pts: array<Point>, tubeMatrix: seq<Segment>, segPerTube: nat, t: SimTime)
    returns (numPts: nat)
    requires segPerTube > 0 && |tubeMatrix| % segPerTube == 0
    requires Touches(tubeMatrix, startPt)
    requires SegToGo(BoundRow(tubeMatrix, startPt), segPerTube) < pts.Length
    modifies pts, t
    ensures numPts == SegToGo(BoundRow(tubeMatrix, startPt), segPerTube) + 1
    ensures pts[..numPts] == Walk(tubeMatrix, startPt, BoundRow(tubeMatrix, startPt), segPerTube)
    ensures pts[numPts..] == old(pts[numPts..])
    ensures t.time == old(t.time) + WalkTime(m, pts[..numPts], numPts)
    ensures SqrtLike(m.sqrt) ==> old(t.time) <= t.time
  {
    var seg := FindNearestTube(startPt, tubeMatrix, TubeRadius);
    numPts := WalkRows(m, startPt, seg, pts, tubeMatrix, segPerTube, t);
  }

  /**
   * The walking loop of motorWalk, once the motor is bound to row seg:
   * record startPt, then the end point of every row from seg to the last row
   * of seg's tube, each step advancing the clock by its length over the
   * movement rate.
   */
  method WalkRows(m: Numerics, startPt: Point, seg: nat, pts: array<Point>, tubeMatrix: seq<Segment>, segPerTube: nat, t: SimTime)
    returns (numPts: nat)
    requires segPerTube > 0 && seg < |tubeMatrix| && |tubeMatrix| % segPerTube == 0
    requires SegToGo(seg, segPerTube) < pts.Length
    modifies pts, t
    ensures numPts == SegToGo(seg, segPerTube) + 1
    ensures pts[..numPts] == Walk(tubeMatrix, startPt, seg, segPerTube)
    ensures pts[numPts..] == old(pts[numPts..])
    ensures t.time == old(t.time) + WalkTime(m, pts[..numPts], numPts)
    ensures SqrtLike(m.sqrt) ==> old(t.time) <= t.time
  {
    WalkFits(seg, segPerTube, |tubeMatrix|);
    ghost var walk := Walk(tubeMatrix, startPt, seg, segPerTube);
    pts[0] := startPt;
    var p := 1;
    var segOfTube := seg % segPerTube;
    var segToGo := segPerTube - segOfTube;
    assert segToGo == SegToGo(seg, segPerTube);
    for i := seg to seg + segToGo
      invariant p == i - seg + 1
      invariant pts[..p] == walk[..p]
      invariant pts[|walk|..] == old(pts[|walk|..])
      invariant t.time == old(t.time) + WalkTime(m, walk, p)
    {
      var segment := tubeMatrix[i];
      assert walk[p] == segment.end;
      assert pts[p - 1] == pts[..p][p - 1] == walk[p - 1];
      ghost var before := pts[..];
      pts[p] := segment.end;
      RecordAt(before, pts[..], p, segment.end);
      assert pts[..p + 1] == walk[..p + 1];
      var pt1 := pts[p - 1];
      var pt2 := pts[p];
      UpdateTime(t, Euclid(m, pt1, pt2) / MovementRate);
      p := p + 1;
    }
    numPts := p;
    assert pts[..numPts] == walk;
    assert SqrtLike(m.sqrt) ==> old(t.time) <= t.time by {
      if SqrtLike(m.sqrt) {
        WalkTimeNonNegative(m, walk, numPts);
      }
    }
  }

  /**
   * One step of the float loops: brownianMotion from the position after i
   * Brownian steps gives the position after i + 1.
   */
  method FloatStep(r: Rng, currentPos: Point, timePeriod: real, ghost start: Point, ghost first: nat, ghost i: nat)
    returns (newPos: Point)
    requires currentPos == Path(start, r.normal, first, timePeriod, i) && r.drawn == first + 3 * i
    modifies r
    ensures newPos == Path(start, r.normal, first, timePeriod, i + 1) && r.drawn == first + 3 * (i + 1)
  {
    newPos := BrownianMotion(r, currentPos, timePeriod);
  }

  /** How many positions float2Tube records: up to and including the first touching one, at most FloatTimeout. */
  function FloatRecorded(tubeMatrix: seq<Segment>, startPt: Point, normal: nat -> real, first: nat, sigma: real): (n: nat)
    ensures 1 <= n <= FloatTimeout
  {
    var k := FirstContact(tubeMatrix, startPt, normal, first, sigma, 0, FloatTimeout);
    if k < FloatTimeout then k + 1 else FloatTimeout
  }

  /**
   * float2Tube (this revision): record the current position, stop when it
   * touches a tube, otherwise take a Brownian step and advance the clock by
   * timePeriod; give up after FloatTimeout positions.  Returns the touched
   * row, or -1, and the number of recorded positions.
   */
  method Float2Tube(r: Rng, startPt: Point, pts: array<Point>, tubeMatrix: seq<Segment>, timePeriod: real, t: SimTime)
    returns (contact: int, npts: nat)
    requires FloatRecorded(tubeMatrix, startPt, r.normal, r.drawn, timePeriod) <= pts.Length
    modifies r, pts, t
    ensures var k := FirstContact(tubeMatrix, startPt, r.normal, old(r.drawn), timePeriod, 0, FloatTimeout);
      && npts == FloatRecorded(tubeMatrix, startPt, r.normal, old(r.drawn), timePeriod)
      && contact == (if k < FloatTimeout
                     then NearestTube(Path(startPt, r.normal, old(r.drawn), timePeriod, k), tubeMatrix, TubeRadius, |tubeMatrix|)
                     else -1)
      && t.time == old(t.time) + Elapsed(if k < FloatTimeout then k else FloatTimeout, timePeriod)
      && r.drawn == old(r.drawn) + 3 * (if k < FloatTimeout then k else FloatTimeout)
    ensures pts[..npts] == PathPrefix(startPt, r.normal, old(r.drawn), timePeriod, npts)
    ensures pts[npts..] == old(pts[npts..])
  {
    ghost var first := r.drawn;
    ghost var k := FirstContact(tubeMatrix, startPt, r.normal, first, timePeriod, 0, FloatTimeout);
    ghost var recorded := FloatRecorded(tubeMatrix, startPt, r.normal, first, timePeriod);
    var currentPos := startPt;
    var numPts := 0;
    var ts := -1;
    for i := 0 to FloatTimeout
      invariant i <= k && numPts == i
      invariant FirstContact(tubeMatrix, startPt, r.normal, first, timePeriod, i, FloatTimeout) == k
      invariant currentPos == Path(startPt, r.normal, first, timePeriod, i)
      invariant r.drawn == first + 3 * i
      invariant t.time == old(t.time) + Elapsed(i, timePeriod)
      invariant pts[..i] == PathPrefix(startPt, r.normal, first, timePeriod, i)
      invariant pts[recorded..] == old(pts[recorded..])
      invariant ts == -1
    {
      ghost var before := pts[..];
      pts[i] := currentPos;
      RecordAt(before, pts[..], i, currentPos);
      ts := FindNearestTube(currentPos, tubeMatrix, TubeRadius);
      numPts := numPts + 1;
      if ts != -1 {
        npts := numPts;
        contact := ts;
        return;
      }
      var newPos := FloatStep(r, currentPos, timePeriod, startPt, first, i);
      UpdateTime(t, timePeriod);
      currentPos := newPos;
    }
    npts := numPts;
    contact := ts;
  }

  /**
   * freeFloat (this revision): for time steps, record the current position,
   * take a Brownian step and advance the clock by timePeriod; returns the
   * number of steps.  The walk starts from whatever the fresh position
   * buffer holds, because the code copies that buffer onto itself instead of
   * copying startPt into it: initialPos stands for that content, and startPt
   * is never read.
   */
  method FreeFloat(r: Rng, startPt: Point, initialPos: Point, pts: array<Point>, time: int, timePeriod: real, t: SimTime)
    returns (numPts: int)
    requires (if time > 0 then time else 0) <= pts.Length
    modifies r, pts, t
    ensures numPts == if time > 0 then time else 0
    ensures pts[..numPts] == PathPrefix(initialPos, r.normal, old(r.drawn), timePeriod, numPts)
    ensures pts[numPts..] == old(pts[numPts..])
    ensures t.time == old(t.time) + Elapsed(numPts, timePeriod)
    ensures r.drawn == old(r.drawn) + 3 * numPts
  {
    ghost var first := r.drawn;
    ghost var steps := if time > 0 then time else 0;
    var currentPos := initialPos;
    numPts := 0;
    var i := 0;
    while i < time
      invariant 0 <= i <= steps && numPts == i
      invariant currentPos == Path(initialPos, r.normal, first, timePeriod, i)
      invariant r.drawn == first + 3 * i
      invariant t.time == old(t.time) + Elapsed(i, timePeriod)
      invariant pts[..i] == PathPrefix(initialPos, r.normal, first, timePeriod, i)
      invariant pts[steps..] == old(pts[steps..])
      decreases time - i
    {
      ghost var before := pts[..];
      pts[i] := currentPos;
      RecordAt(before, pts[..], i, currentPos);
      var newPos := FloatStep(r, currentPos, timePeriod, initialPos, first, i);
      UpdateTime(t, timePeriod);
      currentPos := newPos;
      numPts := numPts + 1;
      i := i + 1;
    }
  }
}
