/**
 * The microtubule network of p1906-mol-field-microtubule.cc: the
 * characteristics structure and its setters, genTube (one tube as a chain of
 * segments) and genTubes (all tubes, one block of rows per tube).
 *
 * The Gaussian draws are supplied by the caller: the start point of every
 * tube and the two angle columns genPersistenceLength fills for each tube.
 */
module Tubes {
  import opened Geometry

  /** A snapshot of every field of tubeCharacteristcs_t. */
  datatype TubeFields = TubeFields(
    volume: real,
    meanTubeLength: real,
    meanIntraTubeAngle: real,
    meanInterTubeAngle: real,
    meanTubeDensity: real,
    segLength: real,
    numSegments: nat,
    persistenceLength: real,
    segPerTube: nat,
    numTubes: nat,
    se: real)

  /** The conversion of a non-negative double to size_t: truncation toward zero. */
  function TruncateToSize(r: real): nat
    requires r >= 0.0
  {
    r.Floor
  }

  /** tubeCharacteristcs_t: the systemic properties of the network, updated in place by the setters. */
  class TubeCharacteristics {
    var volume: real
    var meanTubeLength: real
    var meanIntraTubeAngle: real
    var meanInterTubeAngle: real
    var meanTubeDensity: real
    var segLength: real
    var numSegments: nat
    var persistenceLength: real
    var segPerTube: nat
    var numTubes: nat
    var se: real

    function Fields(): TubeFields
      reads this
    {
      TubeFields(volume, meanTubeLength, meanIntraTubeAngle, meanInterTubeAngle, meanTubeDensity,
                 segLength, numSegments, persistenceLength, segPerTube, numTubes, se)
    }

    /**
     * The derived fields agree with the fields they are computed from: the
     * segment length is a fifth of the tube length, the segment count is the
     * truncated product of density and volume, and the tube count is the
     * whole number of tubes those segments make.
     */
    ghost predicate Derived()
      reads this
    {
      && segLength == meanTubeLength / 5.0
      && meanTubeDensity * volume >= 0.0
      && numSegments == TruncateToSize(meanTubeDensity * volume)
      && segPerTube > 0
      && numTubes == numSegments / segPerTube
    }

    /** A structure declared on the stack: its fields hold whatever was there. */
    constructor ()
    {
    }

    /** setTubeVolume. */
    method SetTubeVolume(volume: real)
      modifies this
      ensures Fields() == old(Fields()).(volume := volume)
    {
      this.volume := volume;
    }

    /** setTubeLength: a tube is five segments long. */
    method SetTubeLength(meanTubeLength: real)
      modifies this
      ensures Fields() == old(Fields()).(meanTubeLength := meanTubeLength, segLength := meanTubeLength / 5.0)
    {
      this.meanTubeLength := meanTubeLength;
      segLength := this.meanTubeLength / 5.0;
    }

    /** setTubeIntraAngle. */
    method SetTubeIntraAngle(meanIntraTubeAngle: real)
      modifies this
      ensures Fields() == old(Fields()).(meanIntraTubeAngle := meanIntraTubeAngle)
    {
      this.meanIntraTubeAngle := meanIntraTubeAngle;
    }

    /** setTubeInterAngle. */
    method SetTubeInterAngle(meanInterTubeAngle: real)
      modifies this
      ensures Fields() == old(Fields()).(meanInterTubeAngle := meanInterTubeAngle)
    {
      this.meanInterTubeAngle := meanInterTubeAngle;
    }

    /**
     * setTubeDensity: the segment count becomes density times the current
     * volume, truncated to size_t (a negative product has no size_t value).
     */
    method SetTubeDensity(meanTubeDensity: real)
      requires meanTubeDensity * volume >= 0.0
      modifies this
      ensures Fields() == old(Fields()).(meanTubeDensity := meanTubeDensity,
                                         numSegments := TruncateToSize(meanTubeDensity * old(volume)))
    {
      this.meanTubeDensity := meanTubeDensity;
      numSegments := TruncateToSize(this.meanTubeDensity * volume);
    }

    /** setTubePersistenceLength. */
    method SetTubePersistenceLength(persistenceLength: real)
      modifies this
      ensures Fields() == old(Fields()).(persistenceLength := persistenceLength)
    {
      this.persistenceLength := persistenceLength;
    }

    /** setTubeSegments: the tube count is the integer quotient of the current segment count. */
    method SetTubeSegments(segPerTube: nat)
      requires segPerTube > 0
      modifies this
      ensures Fields() == old(Fields()).(segPerTube := segPerTube, numTubes := old(numSegments) / segPerTube)
    {
      this.segPerTube := segPerTube;
      numTubes := numSegments / this.segPerTube;
    }
  }

  /** The setter sequence of the microtubule field's constructor (volume 25, length 100, density 10, 10 segments per tube). */
  method DefaultCharacteristics() returns (ts: TubeCharacteristics)
    ensures ts.Derived()
    ensures ts.segLength == 20.0 && ts.numSegments == 250 && ts.segPerTube == 10 && ts.numTubes == 25
    ensures ts.volume == 25.0 && ts.persistenceLength == 50.0
  {
    ts := new TubeCharacteristics();
    ts.SetTubeVolume(25.0);
    ts.SetTubeLength(100.0);
    ts.SetTubeIntraAngle(30.0);
    ts.SetTubeInterAngle(10.0);
    ts.SetTubeDensity(10.0);
    ts.SetTubePersistenceLength(50.0);
    ts.SetTubeSegments(10);
  }

  /**
   * setTubeVolume does not recompute the segment count: changing the volume
   * after setTubeDensity leaves numSegments at its old value.
   */
  method VolumeAfterDensity() returns (ts: TubeCharacteristics)
    ensures ts.volume == 50.0 && ts.meanTubeDensity == 10.0
    ensures ts.numSegments == 250
    ensures !ts.Derived()
  {
    ts := new TubeCharacteristics();
    ts.SetTubeVolume(25.0);
    ts.SetTubeLength(100.0);
    ts.SetTubeDensity(10.0);
    ts.SetTubeSegments(10);
    ts.SetTubeVolume(50.0);
  }

  /** The displacement of one segment of length segLength at angles theta and psi: spherical to Cartesian. */
  function SegmentDisplacement(m: Numerics, segLength: real, theta: real, psi: real): Point
  {
    Point(segLength * m.sin(theta) * m.cos(psi),
          segLength * m.sin(theta) * m.sin(psi),
          segLength * m.cos(theta))
  }

  /** The displacements of the first n segments, from the first n angles of each column. */
  function Displacements(m: Numerics, segLength: real, theta: seq<real>, psi: seq<real>, n: nat): (ds: seq<Point>)
    requires n <= |theta| && n <= |psi|
    ensures |ds| == n
  {
    if n == 0 then []
    else Displacements(m, segLength, theta, psi, n - 1) + [SegmentDisplacement(m, segLength, theta[n - 1], psi[n - 1])]
  }

  lemma {:induction false} DisplacementAt(m: Numerics, segLength: real, theta: seq<real>, psi: seq<real>, n: nat, i: nat)
    requires n <= |theta| && n <= |psi| && i < n
    ensures Displacements(m, segLength, theta, psi, n)[i] == SegmentDisplacement(m, segLength, theta[i], psi[i])
  {
    if i < n - 1 {
      DisplacementAt(m, segLength, theta, psi, n - 1, i);
    }
  }

  /** Where the first n displacements of ds lead from start. */
  function ChainEnd(start: Point, ds: seq<Point>, n: nat): Point
    requires n <= |ds|
  {
    if n == 0 then start else Add(ChainEnd(start, ds, n - 1), ds[n - 1])
  }

  /** The segments of a tube starting at start whose segments span the first n displacements of ds. */
  function Chain(start: Point, ds: seq<Point>, n: nat): (c: seq<Segment>)
    requires n <= |ds|
    ensures |c| == n
  {
    if n == 0 then []
    else Chain(start, ds, n - 1) + [Segment(ChainEnd(start, ds, n - 1), ChainEnd(start, ds, n))]
  }

  /** The segMatrix genTube builds for n segments. */
  function TubeChain(m: Numerics, segLength: real, start: Point, theta: seq<real>, psi: seq<real>, n: nat): (c: seq<Segment>)
    requires n <= |theta| && n <= |psi|
    ensures |c| == n
  {
    Chain(start, Displacements(m, segLength, theta, psi, n), n)
  }

  /** The sum of the first n displacements. */
  function Total(ds: seq<Point>, n: nat): Point
    requires n <= |ds|
  {
    if n == 0 then Point(0.0, 0.0, 0.0) else Add(Total(ds, n - 1), ds[n - 1])
  }

  /** Segment i of a chain runs from where the first i displacements lead to where the first i + 1 lead. */
  lemma {:induction false} ChainAt(start: Point, ds: seq<Point>, n: nat, i: nat)
    requires n <= |ds| && i < n
    ensures Chain(start, ds, n)[i] == Segment(ChainEnd(start, ds, i), ChainEnd(start, ds, i + 1))
  {
    if i < n - 1 {
      ChainAt(start, ds, n - 1, i);
    }
  }

  /** A chain ends at the start point plus the sum of its displacements. */
  lemma {:induction false} ChainEndTotal(start: Point, ds: seq<Point>, n: nat)
    requires n <= |ds|
    ensures ChainEnd(start, ds, n) == Add(start, Total(ds, n))
  {
    if n > 0 {
      ChainEndTotal(start, ds, n - 1);
    }
  }

  /**
   * A tube is connected: its first segment starts at the start point, every
   * other segment starts where the previous one ends, each segment spans its
   * displacement, and the tube ends at the start point plus all displacements.
   */
  lemma ChainLinked(start: Point, ds: seq<Point>, n: nat)
    requires n <= |ds|
    ensures n > 0 ==> Chain(start, ds, n)[0].start == start
    ensures forall i, k :: 0 <= i && k == i + 1 && k < n ==> Chain(start, ds, n)[k].start == Chain(start, ds, n)[i].end
    ensures forall i :: 0 <= i < n ==> Chain(start, ds, n)[i].end == Add(Chain(start, ds, n)[i].start, ds[i])
    ensures n > 0 ==> Chain(start, ds, n)[n - 1].end == Add(start, Total(ds, n))
  {
    forall i | 0 <= i < n
      ensures Chain(start, ds, n)[i] == Segment(ChainEnd(start, ds, i), ChainEnd(start, ds, i + 1))
    {
      ChainAt(start, ds, n, i);
    }
    ChainEndTotal(start, ds, n);
  }

  /** The structural entropy of one tube: sEntropy of its theta column plus sEntropy of its psi column. */
  function TubeEntropy(m: Numerics, theta: seq<real>, psi: seq<real>): real
  {
    m.entropy(theta) + m.entropy(psi)
  }

  /**
   * genTube: segment i of segMatrix starts at startPt (i == 0) or at the end
   * of segment i - 1, and ends segLength away in the direction of the i-th
   * angles; the structural entropy is that of both angle columns.
   */
  method GenTube(ts: TubeCharacteristics, m: Numerics, segMatrix: array<Segment>, startPt: Point,
                 theta: seq<real>, psi: seq<real>)
    requires |theta| == ts.numSegments && |psi| == ts.numSegments
    requires ts.segPerTube <= ts.numSegments && ts.segPerTube <= segMatrix.Length
    modifies ts, segMatrix
    ensures ts.Fields() == old(ts.Fields()).(se := TubeEntropy(m, theta, psi))
    ensures segMatrix[..old(ts.segPerTube)] == TubeChain(m, old(ts.segLength), startPt, theta, psi, old(ts.segPerTube))
    ensures segMatrix[old(ts.segPerTube)..] == old(segMatrix[ts.segPerTube..])
  {
    ts.se := TubeEntropy(m, theta, psi);
    var n := ts.segPerTube;
    var segLength := ts.segLength;
    ghost var ds := Displacements(m, segLength, theta, psi, n);
    for i := 0 to n
      modifies segMatrix
      invariant segMatrix[..i] == Chain(startPt, ds, i)
      invariant segMatrix[n..] == old(segMatrix[n..])
    {
      var start: Point;
      if i == 0 {
        start := startPt;
      } else {
        start := segMatrix[i - 1].end;
        assert segMatrix[..i][i - 1] == segMatrix[i - 1];
      }
      var d := SegmentDisplacement(m, segLength, theta[i], psi[i]);
      DisplacementAt(m, segLength, theta, psi, n, i);
      ghost var done := segMatrix[..i];
      segMatrix[i] := Segment(start, Add(start, d));
      assert segMatrix[..i + 1] == done + [segMatrix[i]];
    }
    assert segMatrix[..n] == Chain(startPt, ds, n);
  }

  /** The first row of block n when every block takes d rows: n * d, summed block by block. */
  function Offset(n: nat, d: nat): nat
  {
    if n == 0 then 0 else Offset(n - 1, d) + d
  }

  lemma {:induction false} OffsetIsProduct(n: nat, d: nat)
    ensures Offset(n, d) == n * d
  {
    if n > 0 {
      OffsetIsProduct(n - 1, d);
      assert (n - 1) * d + d == n * d;
    }
  }

  lemma {:induction false} OffsetMonotone(i: nat, n: nat, d: nat)
    requires i <= n
    ensures Offset(i, d) <= Offset(n, d)
    decreases n - i
  {
    if i < n {
      OffsetMonotone(i + 1, n, d);
    }
  }

  /** The rows of tube i in the network: its chain, or none when a column holds fewer than segPerTube angles. */
  function TubeRows(m: Numerics, segLength: real, segPerTube: nat, start: Point, theta: seq<real>, psi: seq<real>): seq<Segment>
  {
    if segPerTube <= |theta| && segPerTube <= |psi| then TubeChain(m, segLength, start, theta, psi, segPerTube) else []
  }

  /** The rows of every tube, in tube order. */
  function TubeChains(m: Numerics, segLength: real, segPerTube: nat, starts: seq<Point>,
                      thetas: seq<seq<real>>, psis: seq<seq<real>>): (chains: seq<seq<Segment>>)
    requires |starts| <= |thetas| && |starts| <= |psis|
    ensures |chains| == |starts|
  {
    seq(|starts|, k requires 0 <= k < |starts| => TubeRows(m, segLength, segPerTube, starts[k], thetas[k], psis[k]))
  }

  /** The first n blocks laid out one after another. */
  function Stack(blocks: seq<seq<Segment>>, n: nat): seq<Segment>
    requires n <= |blocks|
  {
    if n == 0 then [] else Stack(blocks, n - 1) + blocks[n - 1]
  }

  /** The rows genTubes writes: the chain of every tube, tube after tube. */
  function Network(m: Numerics, segLength: real, segPerTube: nat, starts: seq<Point>,
                   thetas: seq<seq<real>>, psis: seq<seq<real>>): seq<Segment>
    requires |starts| <= |thetas| && |starts| <= |psis|
  {
    Stack(TubeChains(m, segLength, segPerTube, starts, thetas, psis), |starts|)
  }

  /** The structural entropy genTubes accumulates over the first n tubes. */
  function TotalEntropy(m: Numerics, thetas: seq<seq<real>>, psis: seq<seq<real>>, n: nat): real
    requires n <= |thetas| && n <= |psis|
  {
    if n == 0 then 0.0
    else TotalEntropy(m, thetas, psis, n - 1) + TubeEntropy(m, thetas[n - 1], psis[n - 1])
  }

  lemma {:induction false} StackLength(blocks: seq<seq<Segment>>, d: nat, n: nat)
    requires n <= |blocks|
    requires forall k :: 0 <= k < n ==> |blocks[k]| == d
    ensures |Stack(blocks, n)| == Offset(n, d)
  {
    if n > 0 {
      StackLength(blocks, d, n - 1);
    }
  }

  /** When every block holds d rows, row Offset(i, d) + j of the stack is row j of block i. */
  lemma {:induction false} StackAt(blocks: seq<seq<Segment>>, d: nat, n: nat, i: nat, j: nat)
    requires n <= |blocks|
    requires forall k :: 0 <= k < n ==> |blocks[k]| == d
    requires i < n && j < d
    ensures Offset(i, d) + j < |Stack(blocks, n)|
    ensures Stack(blocks, n)[Offset(i, d) + j] == blocks[i][j]
  {
    StackLength(blocks, d, n - 1);
    if i < n - 1 {
      StackAt(blocks, d, n - 1, i, j);
      OffsetMonotone(i + 1, n - 1, d);
    }
  }

  /**
   * Writing block i over rows Offset(i) .. Offset(i + 1) - 1 of a matrix that
   * holds the first i blocks makes it hold the first i + 1.
   */
  lemma StackStep(blocks: seq<seq<Segment>>, d: nat, i: nat, before: seq<Segment>, after: seq<Segment>)
    requires i < |blocks| && |blocks[i]| == d
    requires Offset(i + 1, d) <= |before| && |after| == |before|
    requires before[..Offset(i, d)] == Stack(blocks, i)
    requires after[..Offset(i, d)] == before[..Offset(i, d)]
    requires after[Offset(i, d)..Offset(i + 1, d)] == blocks[i]
    ensures after[..Offset(i + 1, d)] == Stack(blocks, i + 1)
  {
    var base, next := Offset(i, d), Offset(i + 1, d);
    assert after[..next] == after[..base] + after[base..next];
  }

  /** A block of rows is connected: it starts at start and each row starts where the one before ends. */
  ghost predicate Linked(block: seq<Segment>, start: Point)
  {
    (|block| > 0 ==> block[0].start == start)
    && forall j, k :: 0 <= j && k == j + 1 && k < |block| ==> block[k].start == block[j].end
  }

  /** The rows genTube builds for one tube are connected and start at the tube's start point. */
  lemma TubeChainLinked(m: Numerics, segLength: real, start: Point, theta: seq<real>, psi: seq<real>, n: nat)
    requires n <= |theta| && n <= |psi|
    ensures Linked(TubeChain(m, segLength, start, theta, psi, n), start)
  {
    ChainLinked(start, Displacements(m, segLength, theta, psi, n), n);
  }

  /**
   * In a stack of blocks of d rows each, row Offset(i, d) + j is row j of
   * block i, and follows the linkage when block i is connected.
   */
  lemma StackLinked(blocks: seq<seq<Segment>>, d: nat, n: nat, starts: seq<Point>, i: nat, j: nat)
    requires n <= |blocks| && n <= |starts|
    requires forall k :: 0 <= k < n ==> |blocks[k]| == d
    requires i < n && j < d
    requires Linked(blocks[i], starts[i])
    ensures |Stack(blocks, n)| == Offset(n, d)
    ensures Offset(i, d) + j < Offset(n, d)
    ensures Stack(blocks, n)[Offset(i, d) + j] == blocks[i][j]
    ensures j == 0 ==> Stack(blocks, n)[Offset(i, d)].start == starts[i]
    ensures j > 0 ==> Stack(blocks, n)[Offset(i, d) + j].start == Stack(blocks, n)[Offset(i, d) + j - 1].end
  {
    var rows, block, k := Stack(blocks, n), blocks[i], Offset(i, d) + j;
    StackLength(blocks, d, n);
    StackAt(blocks, d, n, i, j);
    if j > 0 {
      StackAt(blocks, d, n, i, j - 1);
      assert rows[k - 1] == block[j - 1];
      assert block[j].start == block[j - 1].end;
    }
  }

  /**
   * The network read row by row: it holds segPerTube rows per tube; row
   * Offset(i, segPerTube) + j, which is i * segPerTube + j, is segment j of
   * tube i; the first row of every tube starts at that tube's start point,
   * and every other row starts where the row before it ends.
   */
  lemma NetworkLinked(m: Numerics, segLength: real, segPerTube: nat, starts: seq<Point>,
                      thetas: seq<seq<real>>, psis: seq<seq<real>>, i: nat, j: nat)
    requires |starts| <= |thetas| && |starts| <= |psis|
    requires forall k :: 0 <= k < |starts| ==> segPerTube <= |thetas[k]| && segPerTube <= |psis[k]|
    requires i < |starts| && j < segPerTube
    ensures Offset(i, segPerTube) == i * segPerTube && Offset(|starts|, segPerTube) == |starts| * segPerTube
    ensures |Network(m, segLength, segPerTube, starts, thetas, psis)| == Offset(|starts|, segPerTube)
    ensures Offset(i, segPerTube) + j < Offset(|starts|, segPerTube)
    ensures Network(m, segLength, segPerTube, starts, thetas, psis)[Offset(i, segPerTube) + j]
         == TubeChain(m, segLength, starts[i], thetas[i], psis[i], segPerTube)[j]
    ensures j == 0 ==> Network(m, segLength, segPerTube, starts, thetas, psis)[Offset(i, segPerTube)].start == starts[i]
    ensures j > 0 ==>
      Network(m, segLength, segPerTube, starts, thetas, psis)[Offset(i, segPerTube) + j].start
        == Network(m, segLength, segPerTube, starts, thetas, psis)[Offset(i, segPerTube) + j - 1].end
  {
    var chains := TubeChains(m, segLength, segPerTube, starts, thetas, psis);
    forall k | 0 <= k < |starts|
      ensures |chains[k]| == segPerTube
    {
    }
    TubeChainLinked(m, segLength, starts[i], thetas[i], psis[i], segPerTube);
    StackLinked(chains, segPerTube, |starts|, starts, i, j);
    OffsetIsProduct(i, segPerTube);
    OffsetIsProduct(|starts|, segPerTube);
  }

  /** The copy of one tube's rows into the network matrix at row base. */
  method CopyTube(segMatrix: array<Segment>, tubeMatrix: array<Segment>, base: nat)
    requires segMatrix != tubeMatrix
    requires base + segMatrix.Length <= tubeMatrix.Length
    modifies tubeMatrix
    ensures tubeMatrix[..base] == old(tubeMatrix[..base])
    ensures tubeMatrix[base..base + segMatrix.Length] == segMatrix[..]
    ensures tubeMatrix[base + segMatrix.Length..] == old(tubeMatrix[base + segMatrix.Length..])
  {
    for j := 0 to segMatrix.Length
      invariant tubeMatrix[..base] == old(tubeMatrix[..base])
      invariant tubeMatrix[base..base + j] == segMatrix[..j]
      invariant tubeMatrix[base + j..] == old(tubeMatrix[base + j..])
    {
      tubeMatrix[base + j] := segMatrix[j];
    }
  }

  /**
   * One round of the genTubes loop: genTube fills segMatrix with tube i,
   * whose rows are then copied to tubeMatrix from row i * segPerTube on;
   * the tube's structural entropy is returned for the running total.
   */
  method PlaceTube(ts: TubeCharacteristics, m: Numerics, segMatrix: array<Segment>, tubeMatrix: array<Segment>,
                   starts: seq<Point>, thetas: seq<seq<real>>, psis: seq<seq<real>>, i: nat,
                   ghost chains: seq<seq<Segment>>) returns (e: real)
    requires segMatrix != tubeMatrix && segMatrix.Length == ts.segPerTube
    requires i < |starts| && |starts| <= |thetas| && |starts| <= |psis|
    requires |thetas[i]| == ts.numSegments && |psis[i]| == ts.numSegments && ts.segPerTube <= ts.numSegments
    requires chains == TubeChains(m, ts.segLength, ts.segPerTube, starts, thetas, psis)
    requires Offset(i + 1, ts.segPerTube) <= tubeMatrix.Length
    requires tubeMatrix[..Offset(i, ts.segPerTube)] == Stack(chains, i)
    modifies ts, segMatrix, tubeMatrix
    ensures e == TubeEntropy(m, thetas[i], psis[i])
    ensures ts.Fields() == old(ts.Fields()).(se := e)
    ensures tubeMatrix[..Offset(i + 1, old(ts.segPerTube))] == Stack(chains, i + 1)
  {
    var spt := ts.segPerTube;
    GenTube(ts, m, segMatrix, starts[i], thetas[i], psis[i]);
    assert segMatrix[..] == chains[i];
    ghost var before := tubeMatrix[..];
    CopyTube(segMatrix, tubeMatrix, Offset(i, spt));
    StackStep(chains, spt, i, before, tubeMatrix[..]);
    e := ts.se;
  }

  /**
   * genTubes: for each tube, draw its start point, generate it with genTube
   * and copy its segPerTube rows into tubeMatrix at i * segPerTube; the
   * structural entropy becomes the sum over all tubes.  The matrix has
   * numTubes * segPerTube rows, as every caller allocates it.
   */
  method GenTubes(ts: TubeCharacteristics, m: Numerics, tubeMatrix: array<Segment>, starts: seq<Point>,
                  thetas: seq<seq<real>>, psis: seq<seq<real>>)
    requires |starts| == ts.numTubes && |thetas| == ts.numTubes && |psis| == ts.numTubes
    requires forall i :: 0 <= i < ts.numTubes ==> |thetas[i]| == ts.numSegments && |psis[i]| == ts.numSegments
    requires ts.numTubes > 0 ==> ts.segPerTube <= ts.numSegments
    requires tubeMatrix.Length == ts.numTubes * ts.segPerTube
    modifies ts, tubeMatrix
    ensures ts.Fields() == old(ts.Fields()).(se := TotalEntropy(m, thetas, psis, |starts|))
    ensures tubeMatrix[..] == Network(m, old(ts.segLength), old(ts.segPerTube), starts, thetas, psis)
  {
    var spt := ts.segPerTube;
    var numTubes := ts.numTubes;
    ghost var chains := TubeChains(m, ts.segLength, spt, starts, thetas, psis);
    OffsetIsProduct(numTubes, spt);
    var segMatrix := new Segment[spt];
    var total := 0.0;
    for i := 0 to numTubes
      invariant ts.Fields() == old(ts.Fields()).(se := ts.se)
      invariant Offset(i, spt) <= tubeMatrix.Length
      invariant tubeMatrix[..Offset(i, spt)] == Stack(chains, i)
      invariant total == TotalEntropy(m, thetas, psis, i)
    {
      OffsetMonotone(i + 1, numTubes, spt);
      var e := PlaceTube(ts, m, segMatrix, tubeMatrix, starts, thetas, psis, i, chains);
      total := total + e;
    }
    assert tubeMatrix[..] == tubeMatrix[..Offset(numTubes, spt)];
    ts.se := total;
  }
}
