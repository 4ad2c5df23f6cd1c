# Molecular motors on microtubules (IEEE 1906.1), modelled in Dafny

This project models the bookkeeping core of the IEEE 1906.1 molecular-motor
channel of the ns-3 `p1906` module:

- the microtubule network as a flat segment table, where tube `i`, segment `j`
  is row `i * segPerTube + j`;
- the scans over that table;
- the motor transport, in both revisions the code carries:
  - the microtubule field's `motorWalk` / `float2Tube` / `freeFloat`, which
    write into a fixed point table and a clock passed by address;
  - the extended motion's versions, which append to a growing position list
    and keep the clock and a reflecting bounding box in the object;
- the motor itself, which floats towards a destination volume and keeps an
  append-only position history.

The numerics are not re-implemented. The GSL square root, `sin`, `cos`, the
histogram entropy and the SVD least-squares solve are fields of a `Numerics`
value that every caller supplies. The Gaussian and uniform draws come from an
`Rng` object: two variate streams and a cursor.

Modules:

| module | file | contents |
|---|---|---|
| `Geometry` | `geometry.dfy` | points, segments, `distance` / `distanceP` / `cross_product` |
| `Random` | `random.dfy` | the generator and the Brownian path |
| `Tubes` | `tubes.dfy` | the characteristics structure and its setters, `genTube`, `genTubes` |
| `Scans` | `scans.dfy` | `findNearestTube`, `getOverlap3D`, `getAllOverlaps3D` |
| `VectorField` | `vectorfield.dfy` | `tubes2VectorField`, `findClosestPoint` and its unit test |
| `Transport` | `transport.dfy` | specifications both transport revisions share: contact, the first contact along a path, the rows a bound motor walks, walking time, elapsed time |
| `FieldMotion` | `field_motion.dfy` | the microtubule field's transport and clock |
| `Extended` | `extended_motion.dfy` | the extended motion class |
| `Motors` | `motor.dfy` | the motor class |

## Model

| member | source | states |
|---|---|---|
| Geometry.DistanceBetweenPoints | p1906/extensions/p1906-mol-field-microtubule.cc:434-444 | `distance` on a three-element operand is the Euclidean distance of `distanceP`; it is symmetric, never negative, and 0 for equal points |
| Geometry.Euclid | p1906/extensions/p1906-mol-field-microtubule.cc:434-444 | `distanceP`, the square root of the summed squared differences; no ensures of its own: `Geometry.DistanceBetweenPoints` states that it is symmetric, never negative and 0 on equal points |
| Geometry.Distance | p1906/extensions/p1906-mol-field-microtubule.cc:449-512 | `distance`, dispatching on the operand size; no ensures of its own: `Geometry.DistanceOperands` and `Geometry.DistanceBetweenPoints` state what each size yields |
| Geometry.LineDistance | p1906/extensions/p1906-mol-field-microtubule.cc:470-506 | the L1 norm of the cross product over the L1 norm of the segment vector; no ensures of its own: `Geometry.LineDistanceRange` and `Geometry.LineDistanceZeroIffOnLine` state its range and its zeros |
| Geometry.Cross | p1906/extensions/p1906-mol-field-microtubule.cc:516-531 | `cross_product`; no ensures of its own: it enters the model through `Geometry.LineDistance`, whose zeros `Geometry.LineDistanceZeroIffOnLine` characterises |
| Geometry.DistanceOperands | p1906/extensions/p1906-mol-field-microtubule.cc:449-512 | a six-element operand gives the line distance; any other size gives -1 |
| Geometry.LineDistanceRange | p1906/extensions/p1906-mol-field-microtubule.cc:470-506 | the line distance is never negative and never infinite; it is NaN (0/0) exactly when the segment is degenerate |
| Geometry.LineDistanceZeroIffOnLine | p1906/extensions/p1906-mol-field-microtubule.cc:470-531 | the L1 cross-product quotient is 0 exactly for points on the line through a proper segment (both directions) |
| Geometry.LineDistanceOnLine | p1906/extensions/p1906-mol-field-microtubule.cc:470-531 | every point start + t (end - start) of a proper segment is at line distance 0 |
| Geometry.LineDistanceUnitTest | p1906/extensions/p1906-mol-field-microtubule.cc:166-172 | the origin is at distance 0 from the segment (-1,-1,-1)-(2,2,2) |
| Random.Rng.Gaussian | p1906/extensions/p1906-mol-field-microtubule.cc:1160-1163 | a Gaussian draw of deviation sigma is sigma times the next standard normal variate; the cursor moves by one |
| Random.Rng.Uniform | p1906/extensions/p1906-mol-extended-motion.cc:182 | a uniform draw is the next uniform variate; the cursor moves by one |
| Random.PathPrefixAt | p1906/extensions/p1906-mol-field-microtubule.cc:656-674 | the recorded positions are the Brownian path in order, and the first one is the start |
| Random.PathSteps | p1906/extensions/p1906-mol-field-microtubule.cc:1155-1166 | consecutive recorded positions differ by exactly one Brownian step of the next three variates |
| Random.PathWithoutSpread | p1906/extensions/p1906-mol-field-microtubule.cc:1155-1166 | with zero deviation the motor never moves |
| Tubes.TubeCharacteristics.SetTubeVolume | p1906/extensions/p1906-mol-field-microtubule.cc:344-348 | the volume changes; no other field does, the segment count included |
| Tubes.TubeCharacteristics.SetTubeLength | p1906/extensions/p1906-mol-field-microtubule.cc:350-355 | the tube length changes and the segment length becomes a fifth of it; no other field changes |
| Tubes.TubeCharacteristics.SetTubeIntraAngle | p1906/extensions/p1906-mol-field-microtubule.cc:357-361 | only the intra-tube angle changes |
| Tubes.TubeCharacteristics.SetTubeInterAngle | p1906/extensions/p1906-mol-field-microtubule.cc:363-367 | only the inter-tube angle changes |
| Tubes.TubeCharacteristics.SetTubeDensity | p1906/extensions/p1906-mol-field-microtubule.cc:369-374 | the density changes and the segment count becomes density times volume, truncated toward zero; no other field changes |
| Tubes.TubeCharacteristics.SetTubePersistenceLength | p1906/extensions/p1906-mol-field-microtubule.cc:376-380 | only the persistence length changes |
| Tubes.TubeCharacteristics.SetTubeSegments | p1906/extensions/p1906-mol-field-microtubule.cc:382-386 | segments per tube changes and the tube count becomes the integer quotient of the segment count by it; no other field changes |
| Tubes.DefaultCharacteristics | p1906/extensions/p1906-mol-field-microtubule.cc:82-88 | the constructor's setter sequence leaves every derived field consistent: segment length 20, 250 segments, 10 per tube, 25 tubes |
| Tubes.VolumeAfterDensity | p1906/extensions/p1906-mol-field-microtubule.cc:344-348 | setting the volume after the density leaves a stale segment count: the derived fields are no longer consistent |
| Tubes.ChainLinked | p1906/extensions/p1906-mol-field-microtubule.cc:1482-1504 | a generated tube starts at its start point; each segment starts where the previous one ends and spans its displacement; the tube ends at the start plus the sum of the displacements |
| Tubes.TubeChainLinked | p1906/extensions/p1906-mol-field-microtubule.cc:1482-1504 | the rows `genTube` builds form one connected chain from the start point |
| Tubes.GenTube | p1906/extensions/p1906-mol-field-microtubule.cc:1446-1507 | the first segPerTube rows of the segment matrix become the tube chain; later rows are untouched; the structural entropy becomes that of both angle columns; no other field changes |
| Tubes.CopyTube | p1906/extensions/p1906-mol-field-microtubule.cc:731-735 | the tube's rows are copied into the matrix from row base on; the rows before and after are untouched |
| Tubes.PlaceTube | p1906/extensions/p1906-mol-field-microtubule.cc:719-735 | one pass of the loop: with the first i tubes in place, tube i is generated and placed after them, and its entropy is returned for the total; no other characteristics field changes |
| Tubes.NetworkLinked | p1906/extensions/p1906-mol-field-microtubule.cc:717-738 | the network has numTubes * segPerTube rows; row Offset(i, segPerTube) + j, proved equal to i * segPerTube + j, is segment j of tube i; a tube's first row starts at its start point, and every other row starts where the row before ends |
| Tubes.GenTubes | p1906/extensions/p1906-mol-field-microtubule.cc:706-740 | the tube matrix becomes every tube's chain, tube after tube, each row written once; the structural entropy becomes the sum over the tubes |
| Scans.NearestTubeIsFirstMinimum | p1906/extensions/p1906-mol-field-microtubule.cc:411-431 | the result is -1 exactly when no row is within the radius; otherwise the row is within the radius, at most as far as every in-radius row, and strictly nearer than every earlier in-radius row |
| Scans.NearestTube | p1906/extensions/p1906-mol-field-microtubule.cc:411-431 | the scan over the first n rows returns -1 or a row index below n; `Scans.NearestTubeIsFirstMinimum` states that it is the first in-radius row of minimal line distance |
| Scans.FindNearestTube | p1906/extensions/p1906-mol-field-microtubule.cc:411-431 | the scan loop returns the nearest-tube specification |
| Scans.OverlapsRecorded | p1906/extensions/p1906-mol-field-microtubule.cc:1037-1151 | at most one crossing per row; every recorded point lies in both segments' inclusive boxes; recorded rows strictly increase |
| Scans.OverlapsComplete | p1906/extensions/p1906-mol-field-microtubule.cc:1037-1151 | every row whose solve is not NaN and whose crossing lies in both boxes is recorded |
| Scans.Crossing | p1906/extensions/p1906-mol-field-microtubule.cc:1080-1135 | the loop body of `getOverlap3D` for one row: the solved point, kept when neither parameter is NaN and it lies in both boxes; no ensures of its own: `Scans.OverlapsRecorded` and `Scans.OverlapsComplete` state its effect |
| Scans.Overlaps | p1906/extensions/p1906-mol-field-microtubule.cc:1070-1147 | the crossings of the first n rows, in row order; no ensures of its own: `Scans.OverlapsRecorded` and `Scans.OverlapsComplete` characterise it, and `Scans.GetOverlap3D` writes exactly it |
| Scans.OverlapDemo | p1906/extensions/p1906-mol-field-microtubule.cc:191-197 | (0,0,0)-(5,5,0) against (5,0,0)-(0,5,0), solved at (0.5, 0.5), records the single crossing (2.5, 2.5, 0) |
| Scans.GetOverlap3D | p1906/extensions/p1906-mol-field-microtubule.cc:1037-1151 | the points and the row indices written are exactly the crossings in row order; the return value is their count; the rest of both outputs is untouched |
| Scans.AllOverlapsCount | p1906/extensions/p1906-mol-field-microtubule.cc:1003-1035 | the collected points number the sum of the per-probe counts; each probe records at most one point per row |
| Scans.GetAllOverlaps3D | p1906/extensions/p1906-mol-field-microtubule.cc:1003-1035 | the output holds every probe's crossings, probe after probe; the return value is the sum of the per-probe counts |
| Scans.CopyPoints | p1906/extensions/p1906-mol-field-microtubule.cc:1020-1029 | the first count probe points land at row base on; the rows before and after are untouched |
| Scans.AppendProbe | p1906/extensions/p1906-mol-field-microtubule.cc:1014-1030 | one pass of the loop: the probe of row i is appended after the pp points already collected, its length is returned, and rows from bound on are untouched |
| VectorField.FieldRoundTrip | p1906/extensions/p1906-mol-field-microtubule.cc:288-311 | a segment and its field row recover each other: anchor = start and anchor + vector = end |
| VectorField.FieldRecoversTubes | p1906/extensions/p1906-mol-field-microtubule.cc:288-311 | every row of the tube matrix is recovered from its field row |
| VectorField.Tubes2VectorField | p1906/extensions/p1906-mol-field-microtubule.cc:288-311 | row i of the field is anchored at segment i's start with vector end - start; rows past the matrix are untouched |
| VectorField.FindClosestPoint | p1906/extensions/p1906-mol-field-microtubule.cc:1281-1362 | the result is the anchor and vector of a row nearest the query, strictly nearer than every earlier row, so the first minimum wins |
| VectorField.UnitTestFindClosestPoint | p1906/extensions/p1906-mol-field-microtubule.cc:914-962 | with a square root that is 0 at 0 and increasing, the unit test reports failure |
| VectorField.ClosestIsQuery | p1906/extensions/p1906-mol-field-microtubule.cc:914-962 | in the unit test's field, only the row anchored at the query point (1,1,1), whose vector is (1,1,1), can be nearest |
| Transport.TouchesIffNearRow | p1906/extensions/p1906-mol-field-microtubule.cc:411-431 | a position is in contact exactly when some row lies within the tube radius |
| Transport.FirstContactTouches | p1906/extensions/p1906-mol-field-microtubule.cc:656-668 | the first contact step, when it exists, is in contact |
| Transport.FirstContactNoneBefore | p1906/extensions/p1906-mol-field-microtubule.cc:656-668 | no step before the first contact step is in contact |
| Transport.ElapsedIsProduct | p1906/extensions/p1906-mol-extended-motion.cc:352-368 | n clock updates of timePeriod add n * timePeriod |
| Transport.ElapsedNonNegative | p1906/extensions/p1906-mol-extended-motion.cc:384-387 | updates of a non-negative period never turn the clock back |
| Transport.BoundRow | p1906/extensions/p1906-mol-field-microtubule.cc:549-552 | the row a motor in contact binds to is in the matrix and within the tube radius |
| Transport.WalkAlongTube | p1906/extensions/p1906-mol-field-microtubule.cc:555-580 | the walk starts at startPt, then records the ends of segments seg % segPerTube to the last one of tube seg / segPerTube, whose first row Offset(seg / segPerTube, segPerTube) is proved to be (seg / segPerTube) * segPerTube; it stops at the first row of the next tube |
| Transport.WalkWithinTube | p1906/extensions/p1906-mol-field-microtubule.cc:558-562 | a bound motor walks between 1 and segPerTube rows (segPerTube - seg % segPerTube), all inside the matrix and all in seg's tube |
| Transport.WalkTimeNonNegative | p1906/extensions/p1906-mol-field-microtubule.cc:570-578 | with a square root that never returns a negative value, walking never takes negative time |
| Transport.WalkTimeSnoc | p1906/extensions/p1906-mol-extended-motion.cc:228-241 | each appended end point adds distance(previous, last) / 1000 to the time |
| FieldMotion.InitTime | p1906/extensions/p1906-mol-field-microtubule.cc:320-323 | the clock reads 0 |
| FieldMotion.UpdateTime | p1906/extensions/p1906-mol-field-microtubule.cc:326-329 | the clock advances by exactly the event time |
| FieldMotion.PropagationDelay | p1906/extensions/p1906-mol-field-microtubule.cc:314-317 | returns the time the clock shows |
| FieldMotion.BrownianMotion | p1906/extensions/p1906-mol-field-microtubule.cc:1155-1166 | the new position is one Brownian step whose deviation is timePeriod itself; three variates are drawn |
| FieldMotion.MotorWalk | p1906/extensions/p1906-mol-field-microtubule.cc:533-580 | the point count is segPerTube - seg % segPerTube + 1; the table holds startPt, then the row ends of the bound tube; the rest of the table is untouched; the time grows by the walking time and never decreases |
| FieldMotion.WalkRows | p1906/extensions/p1906-mol-field-microtubule.cc:555-580 | the walking loop, from any row seg, records the walk of seg and adds its walking time |
| FieldMotion.FloatRecorded | p1906/extensions/p1906-mol-field-microtubule.cc:656-676 | float2Tube records between 1 and 200 positions |
| FieldMotion.Float2Tube | p1906/extensions/p1906-mol-field-microtubule.cc:640-677 | it tests before each step; it records the path up to and including the first contact step, at most 200 positions; it returns the contact row or -1; it adds timePeriod for every step taken, so 0 when the start is in contact; the rest of the table is untouched |
| FieldMotion.FreeFloat | p1906/extensions/p1906-mol-field-microtubule.cc:681-700 | for time > 0 it records time positions of the path, adds time steps of timePeriod and returns time; for time <= 0 it does nothing |
| Extended.ToSize | p1906/extensions/p1906-mol-extended-motion.cc:190-192 | an int read as a size_t: a non-negative value is kept, and -1 is exactly ULONG_MAX |
| Extended.ReflectAxisCases | p1906/extensions/p1906-mol-extended-motion.cc:135-153 | per axis: inside is unchanged, below becomes 2 ll - c, above becomes 2 ur - c; an overshoot of at most ur - ll lands in [ll, ur] |
| Extended.ReflectIntoBox | p1906/extensions/p1906-mol-extended-motion.cc:120-155 | a position inside the box is unchanged; one within a box width of it is reflected into the box |
| Extended.ExtendedMotion.SetBoundingBox | p1906/extensions/p1906-mol-extended-motion.cc:113-117 | both corners are stored; the clock is untouched |
| Extended.ExtendedMotion.CheckBoundingBox | p1906/extensions/p1906-mol-extended-motion.cc:120-155 | the result is the per-axis reflection of the position into the box |
| Extended.ExtendedMotion.GetTime | p1906/extensions/p1906-mol-extended-motion.cc:372-375 | returns the clock |
| Extended.ExtendedMotion.InitTime | p1906/extensions/p1906-mol-extended-motion.cc:378-381 | the clock reads 0; the box is untouched |
| Extended.ExtendedMotion.UpdateTime | p1906/extensions/p1906-mol-extended-motion.cc:384-387 | the clock advances by exactly the event time; the box is untouched |
| Extended.ExtendedMotion.BrownianMotion | p1906/extensions/p1906-mol-extended-motion.cc:306-338 | the new position is one Brownian step of deviation sqrt(2 D timePeriod); three variates are drawn |
| Extended.ExtendedMotion.MotorWalk | p1906/extensions/p1906-mol-extended-motion.cc:159-243 | one uniform draw; if the draw exceeds the binding probability, or no tube is in reach (the ULONG_MAX sentinel), pts and the clock are unchanged; otherwise it appends startPt and the row ends of the bound tube, and the clock grows by their walking time; time never decreases |
| Extended.ExtendedMotion.WalkRows | p1906/extensions/p1906-mol-extended-motion.cc:199-241 | the appending loop adds exactly the walk of seg and its walking time |
| Extended.ExtendedMotion.Float2Tube | p1906/extensions/p1906-mol-extended-motion.cc:259-300 | it appends the position before each step and tests after the step, so the touching position is not appended; at most 100 steps, so pts grows by 1 to 100; the clock gains timePeriod per step; it returns the contact row or ULONG_MAX |
| Extended.ExtendedMotion.FreeFloat | p1906/extensions/p1906-mol-extended-motion.cc:341-369 | appends max(time, 0) path positions, adds that many timePeriods and returns that count |
| Motors.SlotsRoundTrip | p1906/extensions/p1906-mol-motor.cc:79-87 | the six slots recover both corners, and every six slots are two stored corners |
| Motors.InVolume | p1906/extensions/p1906-mol-motor.cc:94-99 | the six comparisons of `inDestination` as written; no ensures of its own: `Motors.InVolumeCharacterised` and `Motors.InVolumeIsNotInBox` state what the test means |
| Motors.InVolumeCharacterised | p1906/extensions/p1906-mol-motor.cc:94-99 | for a well-formed box, the test as written means ll.x <= x <= ur.x, y <= ll.y and z <= ll.z; it agrees with box containment only where y == ll.y and z == ll.z |
| Motors.InVolumeIsNotInBox | p1906/extensions/p1906-mol-motor.cc:94-99 | the centre of the unit cube fails the test; (0.5, -5, -5), outside the cube, passes |
| Motors.FirstArrival | p1906/extensions/p1906-mol-motor.cc:136-152 | the step at which the loop of `float2Destination` stops: between from and bound; `Motors.FirstArrivalArrives` and `Motors.FirstArrivalNoneBefore` state that it is the first step that passes the test |
| Motors.FirstArrivalArrives | p1906/extensions/p1906-mol-motor.cc:136-152 | if the path passes the destination test at some step, the first such step passes it |
| Motors.FirstArrivalNoneBefore | p1906/extensions/p1906-mol-motor.cc:136-152 | no step before the first arrival passes the test |
| Motors.Motor.constructor | p1906/extensions/p1906-mol-motor.cc:44-70 | the position history is empty; the destination volume has six slots; the generator is fresh |
| Motors.Motor.SetStartingPoint | p1906/extensions/p1906-mol-motor.cc:73-76 | the current location becomes the point; the history is untouched |
| Motors.Motor.SetDestinationVolume | p1906/extensions/p1906-mol-motor.cc:79-87 | slots 0-2 hold the lower-left corner and slots 3-5 the upper-right corner |
| Motors.Motor.InDestination | p1906/extensions/p1906-mol-motor.cc:90-103 | true exactly when the current location passes the test as written |
| Motors.Motor.Wander | p1906/extensions/p1906-mol-motor.cc:136-152 | one round moves the motor one Brownian step, adds timePeriod, appends the new location and tests it |
| Motors.Motor.Float2Destination | p1906/extensions/p1906-mol-motor.cc:125-156 | it stops at the first step that passes the test, and the final location passes it; the history grows by the start plus one entry per step and ends with the current location; the clock gains timePeriod per step; it returns the clock |
| Motors.Motor.FloatAndWalk | p1906/extensions/p1906-mol-motor.cc:114-117 | one round appends the float path from the current location up to its first contact step (at most 100 steps), then, when the uniform draw is within the binding probability and the current location touches a tube, the walk from that same location: the code ignores where the float made contact; the clock gains timePeriod per float step plus the walking time; 3 variates are drawn per float step and 1 for binding; at least one position is appended and the clock never goes back |
| Motors.Motor.Move2Destination | p1906/extensions/p1906-mol-motor.cc:106-122 | the motor arrives exactly when it starts in the destination; then nothing is drawn or appended and the clock is unchanged; otherwise the location never changes and every round appends to pts |

## Left out

- File and console output: the Mathematica and MATLAB writers, the display functions and every `printf`.
- The demo constructor and `perstenceVersusEntropy`, which drive file output. Only the constructor's setter sequence is modelled, as `DefaultCharacteristics`.
- `sEntropy`, `genPersistenceLength`, the SVD solve, square root, sine and cosine are caller-supplied functions. The angle columns and tube start points are caller-supplied sequences.
- `isPointOverlap`: it reads the end point from the start slots, so its direction vector is zero. It is not part of this model.
- The stubs `activeNetworkProgrammability` and `getPersistenceLength`.
- ns-3 wiring (type registration, headers, examples, communication interfaces).
- `ExtendedField` (p1906-mol-extended-field) is not part of this model. Its `findNearestTube` and point `distance` are taken to be the microtubule field's scan and Euclidean distance, with the int result read as a size_t.
- How many raw generator words a Gaussian or uniform variate consumes. Each draw is one step of a variate stream.
- The three Gaussian draws of `brownianMotion` are taken in x, y, z order. C++ leaves the evaluation order of the arguments unspecified.
- Extended.ExtendedMotion.MotorWalk: the binding probability is a parameter. The code fixes it at 1.0, and `BindingProbability` holds that value.
- Extended.ExtendedMotion.MotorWalk: requires at most INT_MAX rows, so that the int scan result converts to size_t as on the platform.
- Extended.ExtendedMotion.MotorWalk: requires segPerTube > 0 and a row count that is a multiple of segPerTube. The code divides by segPerTube, and a partial last tube makes it read rows past the matrix (a gsl range error).
- Extended.ExtendedMotion.WalkRows: requires segPerTube > 0 and a row count that is a multiple of segPerTube, for the same reason.
- Extended.ExtendedMotion.Float2Tube: requires at most INT_MAX rows, so that the int scan result converts to size_t as on the platform.
- FieldMotion.MotorWalk: requires the start to be in contact with a tube and the table to be large enough. The code assumes both and does not check.
- FieldMotion.MotorWalk: requires segPerTube > 0 and a row count that is a multiple of segPerTube. The code divides by segPerTube, and a partial last tube makes it read rows past the matrix (a gsl range error).
- FieldMotion.WalkRows: requires segPerTube > 0, a row count that is a multiple of segPerTube, and a table large enough for the walk, for the same reasons.
- FieldMotion.Float2Tube: requires an output table large enough for what is written. The code writes past a smaller gsl matrix (a gsl range error).
- FieldMotion.FreeFloat: requires an output table large enough for what is written. The code writes past a smaller gsl matrix (a gsl range error).
- Scans.GetOverlap3D: requires an output table large enough for what is written. The code writes past a smaller gsl matrix (a gsl range error).
- Scans.GetAllOverlaps3D: requires an output table large enough for what is written. The code writes past a smaller gsl matrix (a gsl range error).
- Tubes.TubeCharacteristics.SetTubeDensity: requires a non-negative density times volume. A negative double has no size_t value.
- Tubes.TubeCharacteristics.SetTubeSegments: requires segPerTube > 0. The code divides the segment count by it.
- Tubes.GenTube: requires segPerTube <= numSegments and a segment matrix of at least segPerTube rows. The code otherwise reads angles or writes rows past its gsl objects (a gsl range error).
- Tubes.GenTubes: requires a tube matrix of exactly numTubes * segPerTube rows, as every caller allocates it, and segPerTube <= numSegments, as in `Tubes.GenTube`.
- Motors.Motor.Float2Destination: requires a step count after which the path passes the destination test. The code loops forever otherwise.
- Motors.Motor.FloatAndWalk: requires segPerTube > 0, a row count that is a multiple of segPerTube and at most INT_MAX rows, as the extended motorWalk and float2Tube do.
- Motors.Motor.Move2Destination: requires segPerTube > 0, a row count that is a multiple of segPerTube and at most INT_MAX rows, as `Motors.Motor.FloatAndWalk` does.
- Motors.Motor.Move2Destination: runs at most `rounds` rounds and reports whether it arrived. The code loops forever when the motor does not start in the destination.
- VectorField.FindClosestPoint: an empty field gives None. The code returns (+inf, +inf, +inf) with an unset vector.
- Floating-point rounding: coordinates and times are exact reals. Only NaN and +infinity are modelled, where the code depends on them.

## Behaviour kept as written

- The code disagrees with its own comments and tests in the places below. The model follows the code and proves what the code does.
- `freeFloat`, in both files, copies the position buffer onto itself instead of copying `startPt` (p1906/extensions/p1906-mol-field-microtubule.cc:685, p1906/extensions/p1906-mol-extended-motion.cc:346-349). The walk starts from whatever the fresh buffer holds (`initialPos`). `startPt` is never read.
- `inDestination` bounds y and z only from above, by both corners (p1906/extensions/p1906-mol-motor.cc:94-99). It is not box containment: see `Motors.InVolumeIsNotInBox`.
- `move2Destination` never updates the current location (p1906/extensions/p1906-mol-motor.cc:114-117). It cannot make progress: see `Motors.Motor.Move2Destination`.
- `unitTestfindClosestPoint` expects the vector (0,0,0). `findClosestPoint` returns (1,1,1), so the test fails: see `VectorField.UnitTestFindClosestPoint`.
- The two transport revisions differ, and each is modelled as written:

  | | microtubule field | extended motion |
  |---|---|---|
  | "no tube" sentinel | -1 | ULONG_MAX |
  | Brownian deviation | timePeriod | sqrt(2 D timePeriod) |
  | float2Tube budget | 200 positions | 100 steps |
  | when contact is checked | before each step, and the touching position is recorded | after each step, and the touching position is not appended |

- The extended `float2Tube` leaves its contact variable uninitialised when it never loops. The loop always runs at least once, so the model's initial -1 is never returned.
- The extended `motorWalk` fixes the binding probability at 1.0 and draws a uniform variate anyway. The motor always binds, but the generator still advances by one.
- `setTubeVolume` does not recompute the segment count. Setting the volume after the density leaves the count stale: see `Tubes.VolumeAfterDensity`.
- `genTubes` spreads tube start points with `pow(volume, 1/3)`. That is an integer division, so the deviation is 1. The start points are caller-supplied here.
