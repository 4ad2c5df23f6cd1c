/**
 * The scans over a tube matrix in p1906-mol-field-microtubule.cc:
 * findNearestTube (the nearest segment within a radius, or -1), getOverlap3D
 * (the crossings of one segment with every row) and getAllOverlaps3D (the
 * crossings of every row with every row).
 *
 * The tube matrix is read, never written, by these scans, so it is passed as
 * a sequence of rows; the output matrices the scans fill are arrays.
 */
module Scans {
  import opened Geometry

  /** `d <= radius` for the line distance d from pt to segment s: false when d is NaN. */
  predicate WithinRadius(pt: Point, s: Segment, radius: real)
  {
    AtMost(LineDistance(pt, s), Finite(radius))
  }

  /**
   * The row findNearestTube settles on after scanning the first n rows: a
   * row replaces the running best when its line distance is within radius
   * and strictly below the best distance so far (+inf before any row is
   * taken); -1 when no row has been taken.
   */
  function NearestTube(pt: Point, rows: seq<Segment>, radius: real, n: nat): (r: int)
    requires n <= |rows|
    ensures -1 <= r < n
  {
    if n == 0 then -1
    else
      var best := NearestTube(pt, rows, radius, n - 1);
      var bestDistance := if best == -1 then PosInf else LineDistance(pt, rows[best]);
      if Less(LineDistance(pt, rows[n - 1]), bestDistance) && WithinRadius(pt, rows[n - 1], radius) then n - 1
      else best
  }

  /**
   * The nearest tube is -1 exactly when no row is within radius; otherwise it
   * is a row within radius whose distance is at most that of every row within
   * radius and strictly below that of every earlier row within radius, so the
   * first of several equally near rows wins.
   */
  lemma {:induction false} NearestTubeIsFirstMinimum(pt: Point, rows: seq<Segment>, radius: real, n: nat)
    requires n <= |rows|
    ensures NearestTube(pt, rows, radius, n) == -1 <==> forall i :: 0 <= i < n ==> !WithinRadius(pt, rows[i], radius)
    ensures NearestTube(pt, rows, radius, n) != -1 ==>
      0 <= NearestTube(pt, rows, radius, n) < n && WithinRadius(pt, rows[NearestTube(pt, rows, radius, n)], radius)
    ensures NearestTube(pt, rows, radius, n) != -1 ==>
      forall i :: 0 <= i < n && WithinRadius(pt, rows[i], radius) ==>
        AtMost(LineDistance(pt, rows[NearestTube(pt, rows, radius, n)]), LineDistance(pt, rows[i]))
    ensures NearestTube(pt, rows, radius, n) != -1 ==>
      forall i :: 0 <= i < NearestTube(pt, rows, radius, n) && WithinRadius(pt, rows[i], radius) ==>
        Less(LineDistance(pt, rows[NearestTube(pt, rows, radius, n)]), LineDistance(pt, rows[i]))
  {
    if n > 0 {
      NearestTubeIsFirstMinimum(pt, rows, radius, n - 1);
    }
  }

  /**
   * findNearestTube: scan the rows keeping the nearest one within radius, as
   * the index closestSegment, and its distance, as shortestDistance.
   */
  method FindNearestTube(pt: Point, tubeMatrix: seq<Segment>, radius: real) returns (closest: int)
    ensures closest == NearestTube(pt, tubeMatrix, radius, |tubeMatrix|)
  {
    var shortestDistance := PosInf;
    closest := -1;
    for i := 0 to |tubeMatrix|
      invariant closest == NearestTube(pt, tubeMatrix, radius, i)
      invariant shortestDistance == if closest == -1 then PosInf else LineDistance(pt, tubeMatrix[closest])
    {
      var d := LineDistance(pt, tubeMatrix[i]);
      if Less(d, shortestDistance) && AtMost(d, Finite(radius)) {
        shortestDistance := d;
        closest := i;
      }
    }
  }

  /** One recorded crossing: the row of the tube matrix and the crossing point. */
  datatype Hit = Hit(row: nat, at: Point)

  /**
   * The crossing getOverlap3D records for one row: the point
   * segment.start + t (segment.end - segment.start) for the solved (t, s),
   * kept only when neither parameter is NaN and the point lies in the
   * inclusive bounding boxes of both segments.
   */
  function Crossing(m: Numerics, segment: Segment, row: Segment): Option<Point>
  {
    match m.solve(segment, row)
    case NotANumber => None
    case Solved(t, _) =>
      var p := Add(segment.start, Scale(t, Sub(segment.end, segment.start)));
      if InSegmentBox(p, segment) && InSegmentBox(p, row) then Some(p) else None
  }

  /** The crossings of segment with the first n rows, in row order. */
  function Overlaps(m: Numerics, segment: Segment, rows: seq<Segment>, n: nat): seq<Hit>
    requires n <= |rows|
  {
    if n == 0 then []
    else
      match Crossing(m, segment, rows[n - 1])
      case None => Overlaps(m, segment, rows, n - 1)
      case Some(p) => Overlaps(m, segment, rows, n - 1) + [Hit(n - 1, p)]
  }

  function HitPoints(hits: seq<Hit>): (ps: seq<Point>)
    ensures |ps| == |hits|
  {
    seq(|hits|, k requires 0 <= k < |hits| => hits[k].at)
  }

  function HitRows(hits: seq<Hit>): (rs: seq<nat>)
    ensures |rs| == |hits|
  {
    seq(|hits|, k requires 0 <= k < |hits| => hits[k].row)
  }

  /**
   * What getOverlap3D records: at most one point per row; a row whose solve
   * is NaN or whose crossing falls outside either bounding box is skipped;
   * every recorded point lies in both boxes; and the recorded rows strictly
   * increase.
   */
  lemma {:induction false} OverlapsRecorded(m: Numerics, segment: Segment, rows: seq<Segment>, n: nat)
    requires n <= |rows|
    ensures |Overlaps(m, segment, rows, n)| <= n
    ensures forall k :: 0 <= k < |Overlaps(m, segment, rows, n)| ==>
      var h := Overlaps(m, segment, rows, n)[k];
      h.row < n && Crossing(m, segment, rows[h.row]) == Some(h.at)
      && m.solve(segment, rows[h.row]).Solved?
      && InSegmentBox(h.at, segment) && InSegmentBox(h.at, rows[h.row])
    ensures forall j, k :: 0 <= j < k < |Overlaps(m, segment, rows, n)| ==>
      Overlaps(m, segment, rows, n)[j].row < Overlaps(m, segment, rows, n)[k].row
  {
    if n > 0 {
      OverlapsRecorded(m, segment, rows, n - 1);
    }
  }

  /** Every row with a crossing is recorded. */
  lemma {:induction false} OverlapsComplete(m: Numerics, segment: Segment, rows: seq<Segment>, n: nat)
    requires n <= |rows|
    ensures forall i :: 0 <= i < n && Crossing(m, segment, rows[i]).Some? ==>
      Hit(i, Crossing(m, segment, rows[i]).value) in Overlaps(m, segment, rows, n)
  {
    if n > 0 {
      OverlapsComplete(m, segment, rows, n - 1);
      var prev := Overlaps(m, segment, rows, n - 1);
      var hits := Overlaps(m, segment, rows, n);
      assert hits[..|prev|] == prev;
      forall i | 0 <= i < n && Crossing(m, segment, rows[i]).Some?
        ensures Hit(i, Crossing(m, segment, rows[i]).value) in hits
      {
        if i < n - 1 {
          var k :| 0 <= k < |prev| && prev[k] == Hit(i, Crossing(m, segment, rows[i]).value);
          assert hits[k] == prev[k];
        } else {
          assert hits[|prev|] == Hit(i, Crossing(m, segment, rows[i]).value);
        }
      }
    }
  }

  /**
   * The overlap check of the field's demonstration: (0,0,0)-(5,5,0) against
   * the single row (5,0,0)-(0,5,0) records (2.5, 2.5, 0) when the solver
   * returns the exact solution t = s = 1/2.
   */
  lemma OverlapDemo(m: Numerics, segment: Segment, row: Segment)
    requires segment == Segment(Point(0.0, 0.0, 0.0), Point(5.0, 5.0, 0.0))
    requires row == Segment(Point(5.0, 0.0, 0.0), Point(0.0, 5.0, 0.0))
    requires m.solve(segment, row) == Solved(0.5, 0.5)
    ensures Overlaps(m, segment, [row], 1) == [Hit(0, Point(2.5, 2.5, 0.0))]
    ensures Add(segment.start, Scale(0.5, Sub(segment.end, segment.start)))
         == Add(row.start, Scale(0.5, Sub(row.end, row.start)))
  {
    assert Crossing(m, segment, row) == Some(Point(2.5, 2.5, 0.0));
  }

  /**
   * getOverlap3D: for every row in order, record the crossing point in
   * pts[numPts] and the row index in tubeSegments[numPts], and return how
   * many were recorded.  The two output tables need room for every crossing.
   */
  method GetOverlap3D(m: Numerics, segment: Segment, tubeMatrix: seq<Segment>,
                      pts: array<Point>, tubeSegments: array<nat>) returns (numPts: nat)
    requires |Overlaps(m, segment, tubeMatrix, |tubeMatrix|)| <= pts.Length
    requires |Overlaps(m, segment, tubeMatrix, |tubeMatrix|)| <= tubeSegments.Length
    modifies pts, tubeSegments
    ensures numPts == |Overlaps(m, segment, tubeMatrix, |tubeMatrix|)|
    ensures pts[..numPts] == HitPoints(Overlaps(m, segment, tubeMatrix, |tubeMatrix|))
    ensures tubeSegments[..numPts] == HitRows(Overlaps(m, segment, tubeMatrix, |tubeMatrix|))
    ensures pts[numPts..] == old(pts[numPts..])
    ensures tubeSegments[numPts..] == old(tubeSegments[numPts..])
  {
    ghost var all := |Overlaps(m, segment, tubeMatrix, |tubeMatrix|)|;
    ghost var hits: seq<Hit> := [];
    numPts := 0;
    for i := 0 to |tubeMatrix|
      invariant hits == Overlaps(m, segment, tubeMatrix, i)
      invariant numPts == |hits| <= all
      invariant pts[..numPts] == HitPoints(hits)
      invariant tubeSegments[..numPts] == HitRows(hits)
      invariant pts[all..] == old(pts[all..])
      invariant tubeSegments[all..] == old(tubeSegments[all..])
    {
      OverlapsGrow(m, segment, tubeMatrix, i + 1, |tubeMatrix|);
      var solution := m.solve(segment, tubeMatrix[i]);
      if solution.Solved? {
        var p := Add(segment.start, Scale(solution.t, Sub(segment.end, segment.start)));
        if InSegmentBox(p, segment) && InSegmentBox(p, tubeMatrix[i]) {
          pts[numPts] := p;
          tubeSegments[numPts] := i;
          HitsSnoc(hits, Hit(i, p));
          hits := hits + [Hit(i, p)];
          numPts := numPts + 1;
        }
      }
    }
    OverlapsUnchangedTail(pts[..], old(pts[..]), numPts, all);
    OverlapsUnchangedTail(tubeSegments[..], old(tubeSegments[..]), numPts, all);
  }

  /** Scanning more rows never records fewer crossings. */
  lemma {:induction false} OverlapsGrow(m: Numerics, segment: Segment, rows: seq<Segment>, i: nat, n: nat)
    requires i <= n <= |rows|
    ensures |Overlaps(m, segment, rows, i)| <= |Overlaps(m, segment, rows, n)|
    decreases n - i
  {
    if i < n {
      OverlapsGrow(m, segment, rows, i + 1, n);
    }
  }

  lemma HitsSnoc(hits: seq<Hit>, h: Hit)
    ensures HitPoints(hits + [h]) == HitPoints(hits) + [h.at]
    ensures HitRows(hits + [h]) == HitRows(hits) + [h.row]
  {
  }

  /** All rows from n on are untouched when all rows from bound on are and the rows in between were never written. */
  lemma OverlapsUnchangedTail<T>(now: seq<T>, before: seq<T>, n: nat, bound: nat)
    requires n == bound <= |now| == |before|
    requires now[bound..] == before[bound..]
    ensures now[n..] == before[n..]
  {
  }

  /** The crossing points of the first n probes: entry i holds those of row i against the whole matrix. */
  function Probes(m: Numerics, rows: seq<Segment>, n: nat): (probes: seq<seq<Point>>)
    requires n <= |rows|
    ensures |probes| == n
  {
    if n == 0 then [] else Probes(m, rows, n - 1) + [HitPoints(Overlaps(m, rows[n - 1], rows, |rows|))]
  }

  function ProbePoints(m: Numerics, rows: seq<Segment>): (probes: seq<seq<Point>>)
    ensures |probes| == |rows|
  {
    Probes(m, rows, |rows|)
  }

  lemma {:induction false} ProbesAt(m: Numerics, rows: seq<Segment>, n: nat, i: nat)
    requires i < n <= |rows|
    ensures Probes(m, rows, n)[i] == HitPoints(Overlaps(m, rows[i], rows, |rows|))
  {
    if i < n - 1 {
      ProbesAt(m, rows, n - 1, i);
    }
  }

  /** The first n blocks laid end to end. */
  function Flatten<T>(blocks: seq<seq<T>>, n: nat): seq<T>
    requires n <= |blocks|
  {
    if n == 0 then [] else Flatten(blocks, n - 1) + blocks[n - 1]
  }

  /** The sum of the sizes of the first n blocks. */
  function SizeSum<T>(blocks: seq<seq<T>>, n: nat): nat
    requires n <= |blocks|
  {
    if n == 0 then 0 else SizeSum(blocks, n - 1) + |blocks[n - 1]|
  }

  /** The points getAllOverlaps3D collects: every probe's crossings, probe after probe. */
  function AllOverlaps(m: Numerics, rows: seq<Segment>): seq<Point>
  {
    Flatten(ProbePoints(m, rows), |rows|)
  }

  /** The sum of the per-probe crossing counts. */
  function OverlapCount(m: Numerics, rows: seq<Segment>): nat
  {
    SizeSum(ProbePoints(m, rows), |rows|)
  }

  /** Laying blocks end to end yields as many elements as their sizes add up to. */
  lemma {:induction false} FlattenSize<T>(blocks: seq<seq<T>>, n: nat)
    requires n <= |blocks|
    ensures |Flatten(blocks, n)| == SizeSum(blocks, n)
  {
    if n > 0 {
      FlattenSize(blocks, n - 1);
    }
  }

  lemma {:induction false} FlattenGrow<T>(blocks: seq<seq<T>>, i: nat, n: nat)
    requires i <= n <= |blocks|
    ensures |Flatten(blocks, i)| <= |Flatten(blocks, n)|
    decreases n - i
  {
    if i < n {
      FlattenGrow(blocks, i + 1, n);
    }
  }

  /** getAllOverlaps3D returns the sum of the per-probe counts, and collects exactly that many points. */
  lemma AllOverlapsCount(m: Numerics, rows: seq<Segment>)
    ensures |AllOverlaps(m, rows)| == OverlapCount(m, rows)
    ensures forall i :: 0 <= i < |rows| ==>
      |ProbePoints(m, rows)[i]| == |Overlaps(m, rows[i], rows, |rows|)| <= |rows|
  {
    FlattenSize(ProbePoints(m, rows), |rows|);
    forall i | 0 <= i < |rows|
      ensures |ProbePoints(m, rows)[i]| == |Overlaps(m, rows[i], rows, |rows|)| <= |rows|
    {
      ProbesAt(m, rows, |rows|, i);
      OverlapsRecorded(m, rows[i], rows, |rows|);
    }
  }

  /** Copies src[..count] to dst from row base on. */
  method CopyPoints(src: array<Point>, count: nat, dst: array<Point>, base: nat)
    requires src != dst && count <= src.Length && base + count <= dst.Length
    modifies dst
    ensures dst[..base] == old(dst[..base])
    ensures dst[base..base + count] == src[..count]
    ensures dst[base + count..] == old(dst[base + count..])
  {
    for k := 0 to count
      invariant dst[..base] == old(dst[..base])
      invariant dst[base..base + k] == src[..k]
      invariant dst[base + k..] == old(dst[base + k..])
    {
      dst[base + k] := src[k];
    }
  }

  /** Appending a block after a prefix keeps the prefix and everything past bound. */
  lemma AppendStep(before: seq<Point>, after: seq<Point>, base: nat, block: seq<Point>, bound: nat)
    requires base + |block| <= bound <= |before| && |after| == |before|
    requires after[..base] == before[..base]
    requires after[base..base + |block|] == block
    requires after[base + |block|..] == before[base + |block|..]
    ensures after[..base + |block|] == before[..base] + block
    ensures after[bound..] == before[bound..]
  {
    assert after[..base + |block|] == after[..base] + after[base..base + |block|];
    assert after[bound..] == after[base + |block|..][bound - (base + |block|)..];
    assert before[bound..] == before[base + |block|..][bound - (base + |block|)..];
  }

  /**
   * One pass of getAllOverlaps3D's loop: probe the matrix with row i into the
   * scratch tables, then copy the probe's points to pts from row pp on.
   */
  method AppendProbe(m: Numerics, tubeMatrix: seq<Segment>, i: nat, tmpPts: array<Point>, tubeSegments: array<nat>,
                     pts: array<Point>, pp: nat, ghost probes: seq<seq<Point>>, ghost bound: nat) returns (numPts: nat)
    requires tmpPts != pts && i < |tubeMatrix|
    requires |tubeMatrix| <= tmpPts.Length && |tubeMatrix| <= tubeSegments.Length
    requires probes == ProbePoints(m, tubeMatrix)
    requires pp + |probes[i]| <= bound <= pts.Length
    modifies tmpPts, tubeSegments, pts
    ensures numPts == |probes[i]|
    ensures pts[..pp + numPts] == old(pts[..pp]) + probes[i]
    ensures pts[bound..] == old(pts[bound..])
  {
    ProbesAt(m, tubeMatrix, |tubeMatrix|, i);
    OverlapsRecorded(m, tubeMatrix[i], tubeMatrix, |tubeMatrix|);
    numPts := GetOverlap3D(m, tubeMatrix[i], tubeMatrix, tmpPts, tubeSegments);
    assert tmpPts[..numPts] == probes[i];
    ghost var before := pts[..];
    CopyPoints(tmpPts, numPts, pts, pp);
    AppendStep(before, pts[..], pp, probes[i], bound);
  }

  /**
   * getAllOverlaps3D: probe the matrix with each of its rows in turn, using
   * scratch tables of numSegments * numSegments rows, append each probe's
   * crossing points to pts, and return the total count.
   */
  method GetAllOverlaps3D(m: Numerics, tubeMatrix: seq<Segment>, pts: array<Point>) returns (totPts: nat)
    requires |AllOverlaps(m, tubeMatrix)| <= pts.Length
    modifies pts
    ensures totPts == OverlapCount(m, tubeMatrix) == |AllOverlaps(m, tubeMatrix)|
    ensures pts[..totPts] == AllOverlaps(m, tubeMatrix)
    ensures pts[totPts..] == old(pts[totPts..])
  {
    var numSegments := |tubeMatrix|;
    ghost var probes := ProbePoints(m, tubeMatrix);
    ghost var bound := |Flatten(probes, numSegments)|;
    var tmpPts := new Point[numSegments * numSegments];
    var tubeSegments := new nat[numSegments * numSegments];
    assert numSegments <= numSegments * numSegments by {
      if numSegments > 0 {
        assert numSegments * 1 <= numSegments * numSegments;
      }
    }
    var pp := 0;
    totPts := 0;
    for i := 0 to numSegments
      invariant pp == |Flatten(probes, i)| <= bound
      invariant totPts == SizeSum(probes, i)
      invariant pts[..pp] == Flatten(probes, i)
      invariant pts[bound..] == old(pts[bound..])
    {
      FlattenGrow(probes, i + 1, numSegments);
      var numPts := AppendProbe(m, tubeMatrix, i, tmpPts, tubeSegments, pts, pp, probes, bound);
      pp := pp + numPts;
      totPts := totPts + numPts;
    }
    FlattenSize(probes, numSegments);
  }
}
