/**
 * The vector field of p1906-mol-field-microtubule.cc: tubes2VectorField turns
 * every segment of the tube matrix into an anchor point and a direction
 * vector, and findClosestPoint looks up the field row whose anchor is nearest
 * to a query point.
 */
module VectorField {
  import opened Geometry

  /** One row (x, y, z, u, v, w) of a vector field: an anchor point and the vector attached to it. */
  datatype FieldVector = FieldVector(anchor: Point, vector: Point)

  /** The field row of one segment: anchored at its start, pointing along it. */
  function ToFieldVector(s: Segment): (f: FieldVector)
    ensures f.anchor == s.start
    ensures Add(f.anchor, f.vector) == s.end
  {
    FieldVector(s.start, Sub(s.end, s.start))
  }

  /** The segment a field row stands for: from the anchor to the anchor plus the vector. */
  function ToSegment(f: FieldVector): (s: Segment)
    ensures Sub(s.end, s.start) == f.vector
  {
    Segment(f.anchor, Add(f.anchor, f.vector))
  }

  /** The field of a whole tube matrix, row by row. */
  function Field(tubeMatrix: seq<Segment>): (vf: seq<FieldVector>)
    ensures |vf| == |tubeMatrix|
  {
    seq(|tubeMatrix|, i requires 0 <= i < |tubeMatrix| => ToFieldVector(tubeMatrix[i]))
  }

  /** A segment and its field row are interchangeable: each recovers the other. */
  lemma FieldRoundTrip(s: Segment, f: FieldVector)
    ensures ToSegment(ToFieldVector(s)) == s
    ensures ToFieldVector(ToSegment(f)) == f
  {
    assert Add(s.start, Sub(s.end, s.start)) == s.end;
    assert Sub(Add(f.anchor, f.vector), f.anchor) == f.vector;
  }

  /** The tube matrix is recovered from its field. */
  lemma {:induction false} FieldRecoversTubes(tubeMatrix: seq<Segment>)
    ensures forall i :: 0 <= i < |tubeMatrix| ==> ToSegment(Field(tubeMatrix)[i]) == tubeMatrix[i]
  {
    forall i | 0 <= i < |tubeMatrix|
      ensures ToSegment(Field(tubeMatrix)[i]) == tubeMatrix[i]
    {
      FieldRoundTrip(tubeMatrix[i], Field(tubeMatrix)[i]);
    }
  }

  /**
   * tubes2VectorField: copy the start points into pt and the end points into
   * v, subtract pt from v row by row (gsl_matrix_sub), then write pt and v
   * side by side into vf.  Rows of vf past the tube matrix are not touched.
   */
  method Tubes2VectorField(tubeMatrix: seq<Segment>, vf: array<FieldVector>)
    requires |tubeMatrix| <= vf.Length
    modifies vf
    ensures vf[..|tubeMatrix|] == Field(tubeMatrix)
    ensures vf[|tubeMatrix|..] == old(vf[|tubeMatrix|..])
  {
    var n := |tubeMatrix|;
    var pt := new Point[n];
    var v := new Point[n];
    for i := 0 to n
      modifies pt, v
      invariant forall k :: 0 <= k < i ==> pt[k] == tubeMatrix[k].start && v[k] == tubeMatrix[k].end
    {
      pt[i] := tubeMatrix[i].start;
      v[i] := tubeMatrix[i].end;
    }
    for i := 0 to n
      modifies v
      invariant forall k :: 0 <= k < n ==> pt[k] == tubeMatrix[k].start
      invariant forall k :: 0 <= k < i ==> v[k] == Sub(tubeMatrix[k].end, tubeMatrix[k].start)
      invariant forall k :: i <= k < n ==> v[k] == tubeMatrix[k].end
    {
      v[i] := Sub(v[i], pt[i]);
    }
    for i := 0 to n
      modifies vf
      invariant forall k :: 0 <= k < i ==> vf[k] == ToFieldVector(tubeMatrix[k])
      invariant vf[n..] == old(vf[n..])
    {
      vf[i] := FieldVector(pt[i], v[i]);
    }
    assert vf[..n] == Field(tubeMatrix);
  }

  /**
   * findClosestPoint: the anchor and vector of the field row whose anchor is
   * nearest to pt (gsl_blas_dnrm2 of the difference), the first such row on a
   * tie; None for an empty field.
   *
   * The running best cpt starts at (+inf, +inf, +inf), whose dnrm2 distance
   * is NaN (GSL scales by the largest magnitude, and inf / inf is NaN), so
   * the "or the current distance is NaN" half of the update test takes the
   * first row whatever its distance.  The running distance is kept as an
   * ExtReal for that reason.
   */
  method FindClosestPoint(m: Numerics, pt: Point, vf: seq<FieldVector>) returns (result: Option<FieldVector>)
    ensures result.None? <==> |vf| == 0
    ensures result.Some? ==>
      exists i :: 0 <= i < |vf| && result.value == vf[i]
        && (forall k :: 0 <= k < |vf| ==> Euclid(m, vf[i].anchor, pt) <= Euclid(m, vf[k].anchor, pt))
        && (forall k :: 0 <= k < i ==> Euclid(m, vf[i].anchor, pt) < Euclid(m, vf[k].anchor, pt))
  {
    var cptDistance := NaN;
    var cpt := Point(0.0, 0.0, 0.0);
    var cv := Point(0.0, 0.0, 0.0);
    ghost var best := 0;
    for i := 0 to |vf|
      invariant cptDistance == NaN <==> i == 0
      invariant i > 0 ==> 0 <= best < i && cpt == vf[best].anchor && cv == vf[best].vector
      invariant i > 0 ==> cptDistance == Finite(Euclid(m, cpt, pt))
      invariant i > 0 ==> forall k :: 0 <= k < i ==> Euclid(m, cpt, pt) <= Euclid(m, vf[k].anchor, pt)
      invariant i > 0 ==> forall k :: 0 <= k < best ==> Euclid(m, cpt, pt) < Euclid(m, vf[k].anchor, pt)
    {
      var tpt := vf[i].anchor;
      var d := Finite(Euclid(m, tpt, pt));
      if Less(d, cptDistance) || cptDistance == NaN {
        cpt := tpt;
        cv := vf[i].vector;
        cptDistance := d;
        best := i;
      }
    }
    if |vf| == 0 {
      result := None;
    } else {
      result := Some(FieldVector(cpt, cv));
    }
  }

  /**
   * unitTestfindClosestPoint: the field rows anchored at (0,0,0), (1,1,1) and
   * (5,5,5), each with a vector equal to its anchor, queried at (1,1,1).  The
   * test passes only when the returned vector is (0,0,0); the closest anchor
   * is (1,1,1) itself, whose vector is (1,1,1), so with any square root that
   * maps 0 to 0 and is increasing the test reports failure.
   */
  method UnitTestFindClosestPoint(m: Numerics) returns (pass: bool)
    requires SqrtLike(m.sqrt)
    ensures !pass
  {
    var vf := [FieldVector(Point(0.0, 0.0, 0.0), Point(0.0, 0.0, 0.0)),
               FieldVector(Point(1.0, 1.0, 1.0), Point(1.0, 1.0, 1.0)),
               FieldVector(Point(5.0, 5.0, 5.0), Point(5.0, 5.0, 5.0))];
    var pt := Point(1.0, 1.0, 1.0);
    var result := FindClosestPoint(m, pt, vf);
    ClosestIsQuery(m, pt, vf, result);
    pass := result.Some? && result.value.vector == Point(0.0, 0.0, 0.0);
  }

  /** In the unit test's field, only the row anchored at the query point itself can be the closest. */
  lemma ClosestIsQuery(m: Numerics, pt: Point, vf: seq<FieldVector>, result: Option<FieldVector>)
    requires SqrtLike(m.sqrt)
    requires pt == Point(1.0, 1.0, 1.0)
    requires vf == [FieldVector(Point(0.0, 0.0, 0.0), Point(0.0, 0.0, 0.0)),
                    FieldVector(Point(1.0, 1.0, 1.0), Point(1.0, 1.0, 1.0)),
                    FieldVector(Point(5.0, 5.0, 5.0), Point(5.0, 5.0, 5.0))]
    requires result.Some? ==>
      exists i :: 0 <= i < |vf| && result.value == vf[i]
        && (forall k :: 0 <= k < |vf| ==> Euclid(m, vf[i].anchor, pt) <= Euclid(m, vf[k].anchor, pt))
    ensures result.Some? ==> result.value == vf[1]
  {
    assert Euclid(m, vf[1].anchor, pt) == 0.0 by {
      assert SumSquares(Sub(vf[1].anchor, pt)) == 0.0;
    }
    assert 0.0 < Euclid(m, vf[0].anchor, pt) by {
      assert SumSquares(Sub(vf[0].anchor, pt)) == 3.0;
    }
    assert 0.0 < Euclid(m, vf[2].anchor, pt) by {
      assert SumSquares(Sub(vf[2].anchor, pt)) == 48.0;
    }
  }
}
