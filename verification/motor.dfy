/**
 * The molecular motor of p1906-mol-motor.cc: an extended motion component
 * with a current location, a destination volume stored as six numbers, an
 * append-only position history and its own random number generator.  The
 * motor inherits its clock, bounding box and transport from the extended
 * motion class; here it holds one as a component.
 */
module Motors {
  import opened Geometry
  import opened Random
  import opened Scans
  import opened Transport
  import opened Extended

  /** The six slots of destination_volume: the lower-left corner in 0-2, the upper-right corner in 3-5. */
  function Slots(lowerLeft: Point, upperRight: Point): seq<real>
  {
    [lowerLeft.x, lowerLeft.y, lowerLeft.z, upperRight.x, upperRight.y, upperRight.z]
  }

  /** The lower-left corner a six-slot destination volume describes. */
  function LowerLeftOf(dv: seq<real>): Point
    requires |dv| == 6
  {
    Point(dv[0], dv[1], dv[2])
  }

  /** The upper-right corner a six-slot destination volume describes. */
  function UpperRightOf(dv: seq<real>): Point
    requires |dv| == 6
  {
    Point(dv[3], dv[4], dv[5])
  }

  /** Storing two corners in six slots loses nothing, and every six slots are two stored corners. */
  lemma SlotsRoundTrip(lowerLeft: Point, upperRight: Point, dv: seq<real>)
    requires |dv| == 6
    ensures |Slots(lowerLeft, upperRight)| == 6
    ensures LowerLeftOf(Slots(lowerLeft, upperRight)) == lowerLeft
    ensures UpperRightOf(Slots(lowerLeft, upperRight)) == upperRight
    ensures Slots(LowerLeftOf(dv), UpperRightOf(dv)) == dv
  {
  }

  /**
   * The test inDestination makes, as written: x between the two corners, but
   * y and z only bounded from above, by both corners.
   */
  predicate InVolume(p: Point, dv: seq<real>)
    requires |dv| == 6
  {
    && p.x >= dv[0] && p.x <= dv[3]
    && p.y <= dv[1] && p.y <= dv[4]
    && p.z <= dv[2] && p.z <= dv[5]
  }

  /**
   * For a well-formed box the test reads: x inside the box, y and z at most
   * the lower-left corner's.  It agrees with containment in the box exactly
   * on the box's bottom edge along x, where y and z equal the lower corner's.
   */
  lemma InVolumeCharacterised(p: Point, lowerLeft: Point, upperRight: Point)
    requires lowerLeft.x <= upperRight.x && lowerLeft.y <= upperRight.y && lowerLeft.z <= upperRight.z
    ensures InVolume(p, Slots(lowerLeft, upperRight)) <==>
      lowerLeft.x <= p.x <= upperRight.x && p.y <= lowerLeft.y && p.z <= lowerLeft.z
    ensures InVolume(p, Slots(lowerLeft, upperRight)) && InBox(p, lowerLeft, upperRight) <==>
      lowerLeft.x <= p.x <= upperRight.x && p.y == lowerLeft.y && p.z == lowerLeft.z
  {
    var dv := Slots(lowerLeft, upperRight);
    assert dv[0] == lowerLeft.x && dv[1] == lowerLeft.y && dv[2] == lowerLeft.z;
    assert dv[3] == upperRight.x && dv[4] == upperRight.y && dv[5] == upperRight.z;
  }

  /**
   * The test is not containment in the box: the centre of the unit cube is
   * inside it but fails the test, and a point far below the cube passes.
   */
  lemma InVolumeIsNotInBox()
    ensures var lowerLeft, upperRight := Point(0.0, 0.0, 0.0), Point(1.0, 1.0, 1.0);
      && InBox(Point(0.5, 0.5, 0.5), lowerLeft, upperRight)
      && !InVolume(Point(0.5, 0.5, 0.5), Slots(lowerLeft, upperRight))
      && !InBox(Point(0.5, -5.0, -5.0), lowerLeft, upperRight)
      && InVolume(Point(0.5, -5.0, -5.0), Slots(lowerLeft, upperRight))
  {
    var lowerLeft, upperRight := Point(0.0, 0.0, 0.0), Point(1.0, 1.0, 1.0);
    InVolumeCharacterised(Point(0.5, 0.5, 0.5), lowerLeft, upperRight);
    InVolumeCharacterised(Point(0.5, -5.0, -5.0), lowerLeft, upperRight);
  }

  /** The Brownian position after j steps from start passes the destination test. */
  predicate ArrivedAt(dv: seq<real>, start: Point, normal: nat -> real, first: nat, sigma: real, j: nat)
    requires |dv| == 6
  {
    InVolume(Path(start, normal, first, sigma, j), dv)
  }

  /**
   * The first number of steps in from .. bound after which the Brownian
   * position passes the destination test, or bound when none before it does.
   */
  function FirstArrival(dv: seq<real>, start: Point, normal: nat -> real, first: nat, sigma: real, from: nat, bound: nat): (k: nat)
    requires |dv| == 6
    ensures from <= bound ==> from <= k <= bound
    decreases bound - from
  {
    if from >= bound then bound
    else if ArrivedAt(dv, start, normal, first, sigma, from) then from
    else FirstArrival(dv, start, normal, first, sigma, from + 1, bound)
  }

  /** When the path passes the test after bound steps, the first arrival does pass it. */
  lemma {:induction false} FirstArrivalArrives(dv: seq<real>, start: Point, normal: nat -> real, first: nat, sigma: real, from: nat, bound: nat)
    requires |dv| == 6 && from <= bound
    requires ArrivedAt(dv, start, normal, first, sigma, bound)
    ensures ArrivedAt(dv, start, normal, first, sigma, FirstArrival(dv, start, normal, first, sigma, from, bound))
    decreases bound - from
  {
    if from < bound && !ArrivedAt(dv, start, normal, first, sigma, from) {
      FirstArrivalArrives(dv, start, normal, first, sigma, from + 1, bound);
    }
  }

  /** No position strictly before the first arrival passes the test. */
  lemma {:induction false} FirstArrivalNoneBefore(dv: seq<real>, start: Point, normal: nat -> real, first: nat, sigma: real, from: nat, bound: nat)
    requires |dv| == 6
    ensures forall j :: from <= j < FirstArrival(dv, start, normal, first, sigma, from, bound) ==>
      !ArrivedAt(dv, start, normal, first, sigma, j)
    decreases bound - from
  {
    if from < bound && !ArrivedAt(dv, start, normal, first, sigma, from) {
      FirstArrivalNoneBefore(dv, start, normal, first, sigma, from + 1, bound);
    }
  }

  /**
   * How many Brownian steps one float2Tube of the extended motion takes: up
   * to the first step that touches a tube, at most FloatTimeout.
   */
  function FloatSteps(tubeMatrix: seq<Segment>, start: Point, normal: nat -> real, first: nat, sigma: real): (steps: nat)
    ensures steps <= FloatTimeout
  {
    var k := FirstContact(tubeMatrix, start, normal, first, sigma, 1, FloatTimeout + 1);
    if k <= FloatTimeout then k else FloatTimeout
  }

  /** Whether motorWalk binds: the uniform draw is within the binding probability and a tube is in reach. */
  predicate Binds(tubeMatrix: seq<Segment>, start: Point, u: real)
  {
    u <= BindingProbability && Touches(tubeMatrix, start)
  }

  class Motor {
    /** The extended motion part: clock, bounding box and transport. */
    const motion: ExtendedMotion
    /** The motor's own generator r. */
    const rng: Rng
    /** destination_volume: six slots, lower-left corner then upper-right corner. */
    const destinationVolume: array<real>
    /** current_location. */
    var currentLocation: Point
    /** pos_history: every position the motor has recorded, oldest first. */
    var posHistory: seq<Point>

    /** The destination volume always has its six slots. */
    ghost predicate Valid()
    {
      destinationVolume.Length == 6
    }

    /**
     * The constructor: an empty position history, a six-slot destination
     * volume and a location whose contents are left as allocated, and a
     * fresh generator over the given variate streams.
     */
    constructor (normal: nat -> real, uniform: nat -> Unit)
      ensures Valid() && posHistory == []
      ensures fresh(motion) && fresh(rng) && fresh(destinationVolume)
      ensures rng.normal == normal && rng.uniform == uniform && rng.drawn == 0
    {
      motion := new ExtendedMotion();
      destinationVolume := new real[6];
      posHistory := [];
      rng := new Rng(normal, uniform);
    }

    /** setStartingPoint: the motor now stands at pt; its history is untouched. */
    method SetStartingPoint(pt: Point)
      modifies this
      ensures currentLocation == pt && posHistory == old(posHistory)
    {
      currentLocation := pt;
    }

    /** setDestinationVolume: the lower-left corner goes to slots 0-2, the upper-right corner to slots 3-5. */
    method SetDestinationVolume(lowerLeft: Point, upperRight: Point)
      requires Valid()
      modifies destinationVolume
      ensures destinationVolume[..] == Slots(lowerLeft, upperRight)
      ensures LowerLeftOf(destinationVolume[..]) == lowerLeft && UpperRightOf(destinationVolume[..]) == upperRight
    {
      destinationVolume[0] := lowerLeft.x;
      destinationVolume[1] := lowerLeft.y;
      destinationVolume[2] := lowerLeft.z;
      destinationVolume[3] := upperRight.x;
      destinationVolume[4] := upperRight.y;
      destinationVolume[5] := upperRight.z;
      SlotsRoundTrip(lowerLeft, upperRight, destinationVolume[..]);
    }

    /** inDestination: the destination test, as written, on the current location. */
    method InDestination() returns (inDest: bool)
      requires Valid()
      ensures inDest <==> InVolume(currentLocation, destinationVolume[..])
      ensures inDest ==> destinationVolume[0] <= currentLocation.x <= destinationVolume[3]
    {
      inDest := false;
      if && currentLocation.x >= destinationVolume[0]
         && currentLocation.x <= destinationVolume[3]
         && currentLocation.y <= destinationVolume[1]
         && currentLocation.y <= destinationVolume[4]
         && currentLocation.z <= destinationVolume[2]
         && currentLocation.z <= destinationVolume[5]
      {
        inDest := true;
      }
    }

    /**
     * float2Destination: record the current location, then, until the
     * destination test passes, take a Brownian step (the extended motion's,
     * of standard deviation sqrt(2 D timePeriod)), advance the clock by
     * timePeriod, move there and record the new location.  Returns the time.
     * The code loops for as long as the test fails; the model asks for a
     * number of steps `bound` after which the path passes the test, and the
     * motor then stops at the first such step.
     */
    method Float2Destination(m: Numerics, timePeriod: real, ghost bound: nat) returns (t: real)
      requires Valid()
      requires ArrivedAt(destinationVolume[..], currentLocation, rng.normal, rng.drawn, Spread(m, timePeriod), bound)
      modifies this, motion, rng
      ensures var k := FirstArrival(destinationVolume[..], old(currentLocation), rng.normal, old(rng.drawn), Spread(m, timePeriod), 0, bound);
        && posHistory == old(posHistory) + PathPrefix(old(currentLocation), rng.normal, old(rng.drawn), Spread(m, timePeriod), k + 1)
        && currentLocation == Path(old(currentLocation), rng.normal, old(rng.drawn), Spread(m, timePeriod), k)
        && motion.time == old(motion.time) + Elapsed(k, timePeriod)
        && rng.drawn == old(rng.drawn) + 3 * k
      ensures InVolume(currentLocation, destinationVolume[..])
      ensures t == motion.time
      ensures motion.lowerLeft == old(motion.lowerLeft) && motion.upperRight == old(motion.upperRight)
    {
      ghost var dv := destinationVolume[..];
      ghost var start := currentLocation;
      ghost var first := rng.drawn;
      ghost var sigma := Spread(m, timePeriod);
      ghost var k := FirstArrival(dv, start, rng.normal, first, sigma, 0, bound);
      AppendPath(posHistory, start, rng.normal, first, sigma, 0);
      posHistory := posHistory + [currentLocation];
      ghost var i: nat := 0;
      var inDest := InDestination();
      assert inDest == ArrivedAt(dv, start, rng.normal, first, sigma, 0);
      while !inDest
        invariant i <= k && FirstArrival(dv, start, rng.normal, first, sigma, i, bound) == k
        invariant inDest <==> ArrivedAt(dv, start, rng.normal, first, sigma, i)
        invariant Floated(sigma, timePeriod, start, first, i, old(motion.time), old(posHistory))
        invariant motion.lowerLeft == old(motion.lowerLeft) && motion.upperRight == old(motion.upperRight)
        decreases bound - i
      {
        inDest := Wander(m, timePeriod, start, first, i, old(motion.time), old(posHistory), dv);
        i := i + 1;
      }
      t := motion.GetTime();
    }

    /**
     * One round of the float2Destination loop: a Brownian step and a clock
     * tick of timePeriod, the move to the new position, its recording, and
     * the destination test on it.  After i rounds from start, it leaves the
     * motor where i + 1 rounds do.
     */
    method Wander(m: Numerics, timePeriod: real, ghost start: Point, ghost first: nat, ghost i: nat,
                  ghost t0: real, ghost h0: seq<Point>, ghost dv: seq<real>)
      returns (inDest: bool)
      requires Valid() && dv == destinationVolume[..]
      requires Floated(Spread(m, timePeriod), timePeriod, start, first, i, t0, h0)
      modifies this, motion, rng
      ensures Floated(Spread(m, timePeriod), timePeriod, start, first, i + 1, t0, h0)
      ensures inDest <==> ArrivedAt(dv, start, rng.normal, first, Spread(m, timePeriod), i + 1)
      ensures motion.lowerLeft == old(motion.lowerLeft) && motion.upperRight == old(motion.upperRight)
    {
      var newPos := motion.DriftStep(m, rng, currentLocation, timePeriod, start, first, i, t0);
      currentLocation := newPos;
      AppendPath(h0, start, rng.normal, first, Spread(m, timePeriod), i + 1);
      posHistory := posHistory + [currentLocation];
      inDest := InDestination();
    }

    /**
     * The motor after i rounds of float2Destination from start, with the
     * first step drawing variate `first`, the clock having read t0 and the
     * history h0 before the first round.
     */
    ghost predicate Floated(sigma: real, timePeriod: real, start: Point, first: nat, i: nat, t0: real, h0: seq<Point>)
      reads this, motion, rng
    {
      && currentLocation == Path(start, rng.normal, first, sigma, i)
      && rng.drawn == first + 3 * i
      && motion.time == t0 + Elapsed(i, timePeriod)
      && posHistory == h0 + PathPrefix(start, rng.normal, first, sigma, i + 1)
    }

    /**
     * One round of move2Destination: float2Tube, then motorWalk, both from
     * the current location (the walk ignores where the float made contact).
     * The round appends the float's path from the current location up to its
     * contact step, or its timeout, then, when the motor binds, the walk from
     * the current location; the clock gains timePeriod per float step plus
     * the walking time; three variates are drawn per step and one for the
     * binding decision.  It appends at least one position, keeps what was
     * there, and, with a sane square root and a non-negative time period,
     * does not turn the clock back.
     */
    method FloatAndWalk(m: Numerics, tubeMatrix: seq<Segment>, segPerTube: nat, timePeriod: real, pts: seq<Point>)
      returns (walked: seq<Point>, ghost steps: nat, ghost floated: seq<Point>)
      requires segPerTube > 0 && |tubeMatrix| % segPerTube == 0 && |tubeMatrix| <= IntMax
      modifies motion, rng
      ensures steps == FloatSteps(tubeMatrix, currentLocation, rng.normal, old(rng.drawn), Spread(m, timePeriod))
      ensures floated == pts + PathPrefix(currentLocation, rng.normal, old(rng.drawn), Spread(m, timePeriod), steps)
      ensures rng.drawn == old(rng.drawn) + 3 * steps + 1
      ensures Binds(tubeMatrix, currentLocation, rng.uniform(old(rng.drawn) + 3 * steps)) ==>
        && walked == floated + Walk(tubeMatrix, currentLocation, BoundRow(tubeMatrix, currentLocation), segPerTube)
        && motion.time == old(motion.time) + Elapsed(steps, timePeriod) + WalkTime(m, walked[|floated|..], |walked| - |floated|)
      ensures !Binds(tubeMatrix, currentLocation, rng.uniform(old(rng.drawn) + 3 * steps)) ==>
        walked == floated && motion.time == old(motion.time) + Elapsed(steps, timePeriod)
      ensures pts <= walked && |pts| < |walked|
      ensures SqrtLike(m.sqrt) && 0.0 <= timePeriod ==> old(motion.time) <= motion.time
      ensures motion.lowerLeft == old(motion.lowerLeft) && motion.upperRight == old(motion.upperRight)
    {
      steps := FloatSteps(tubeMatrix, currentLocation, rng.normal, rng.drawn, Spread(m, timePeriod));
      if 0.0 <= timePeriod {
        ElapsedNonNegative(steps, timePeriod);
      }
      var contact, afloat := motion.Float2Tube(m, rng, currentLocation, pts, tubeMatrix, timePeriod);
      floated := afloat;
      walked := motion.MotorWalk(m, rng, currentLocation, afloat, tubeMatrix, segPerTube, BindingProbability);
      assert pts <= floated <= walked;
    }

    /**
     * move2Destination: until the destination test passes, float to a tube
     * and walk along it, both from the current location, appending to pts.
     * The code never moves the current location, so the test gives the same
     * answer every round and the loop runs forever unless the motor starts in
     * the destination.  The model runs at most `rounds` rounds and reports
     * whether the motor arrived: it arrives exactly when it started there,
     * and otherwise every round appends at least one position and the motor
     * stays where it was.
     */
    method Move2Destination(m: Numerics, tubeMatrix: seq<Segment>, segPerTube: nat, timePeriod: real,
                            pts: seq<Point>, rounds: nat)
      returns (t: real, walked: seq<Point>, arrived: bool)
      requires Valid()
      requires segPerTube > 0 && |tubeMatrix| % segPerTube == 0 && |tubeMatrix| <= IntMax
      modifies motion, rng
      ensures currentLocation == old(currentLocation) && posHistory == old(posHistory)
      ensures arrived <==> InVolume(currentLocation, destinationVolume[..])
      ensures arrived ==> walked == pts && motion.time == old(motion.time) && rng.drawn == old(rng.drawn)
      ensures !arrived ==> pts <= walked && |pts| + rounds <= |walked|
      ensures SqrtLike(m.sqrt) && 0.0 <= timePeriod ==> old(motion.time) <= motion.time
      ensures t == motion.time
      ensures motion.lowerLeft == old(motion.lowerLeft) && motion.upperRight == old(motion.upperRight)
    {
      walked := pts;
      var round := 0;
      arrived := InDestination();
      while !arrived && round < rounds
        invariant round <= rounds
        invariant !arrived <==> !InVolume(currentLocation, destinationVolume[..])
        invariant arrived ==> round == 0
        invariant round == 0 ==> walked == pts && motion.time == old(motion.time) && rng.drawn == old(rng.drawn)
        invariant pts <= walked && |pts| + round <= |walked|
        invariant SqrtLike(m.sqrt) && 0.0 <= timePeriod ==> old(motion.time) <= motion.time
        invariant motion.lowerLeft == old(motion.lowerLeft) && motion.upperRight == old(motion.upperRight)
        decreases rounds - round
      {
        ghost var steps, floated;
        walked, steps, floated := FloatAndWalk(m, tubeMatrix, segPerTube, timePeriod, walked);
        round := round + 1;
        arrived := InDestination();
      }
      t := motion.GetTime();
    }
  }
}
