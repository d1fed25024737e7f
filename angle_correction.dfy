// The AngleCorrection class of the core library (core/AngleCorrection.h,
// core/angle_correction_impl.cpp): the parameters with their two change flags, the two-step
// calculate, the stages run on every spline build returns, the arrow arrays of the output and
// the centerline comparison that decides whether step 1 must run again.
module Pipeline {
  import opened Helpers
  import opened Fitter
  import opened Frames
  import opened Intersections
  import opened Splines
  import opened Branching
  import opened Stages

  /**
   * A vtkPolyData as setInput receives it: its points, its line cells (each joining two points,
   * as build reads them) and the number of vertex, polygon and strip cells.
   */
  datatype PolyData = PolyData(points: seq<Vec3>, verts: nat, lines: seq<(int, int)>, polys: nat, strips: nat)

  /** GetNumberOfCells: the cells of every kind. */
  function Cells(p: PolyData): (r: nat)
    ensures r >= |p.lines|
    ensures r == 0 <==> p.verts == 0 && p.lines == [] && p.polys == 0 && p.strips == 0
  {
    p.verts + |p.lines| + p.polys + p.strips
  }

  /** The centerline build reads from the poly data. */
  function CenterlineOf(p: PolyData): Centerline
  {
    Centerline(p.points, p.lines)
  }

  // ---------------------------------------------------------------- EqualVtkPolyData

  /** x*x + y*y + z*z of the difference of two points. */
  function SquaredDistance(p: Vec3, q: Vec3): real
  {
    InnerProduct(Sub(p, q), Sub(p, q))
  }

  /**
   * When EqualVtkPolyData answers true: the same numbers of cells, vertices, lines, polygons,
   * strips and points, and every pair of same-index points within squared distance 0.001.
   */
  predicate SamePolyData(lhs: PolyData, rhs: PolyData)
    ensures SamePolyData(lhs, rhs) ==>
              |lhs.points| == |rhs.points|
              && forall i :: 0 <= i < |lhs.points| ==> SquaredDistance(lhs.points[i], rhs.points[i]) <= 0.001
  {
    DistancesSymmetric(lhs.points, rhs.points);
    Cells(lhs) == Cells(rhs) && lhs.verts == rhs.verts && |lhs.lines| == |rhs.lines|
    && lhs.polys == rhs.polys && lhs.strips == rhs.strips && |lhs.points| == |rhs.points|
    && forall i :: 0 <= i < |rhs.points| ==> SquaredDistance(rhs.points[i], lhs.points[i]) <= 0.001
  }

  /** EqualVtkPolyData: the count checks in order, then the point loop that stops at the first distant pair. */
  method EqualPolyData(lhs: PolyData, rhs: PolyData) returns (eq: bool)
    ensures eq == SamePolyData(lhs, rhs)
  {
    if Cells(lhs) != Cells(rhs) { return false; }
    if lhs.verts != rhs.verts { return false; }
    if |lhs.lines| != |rhs.lines| { return false; }
    if lhs.polys != rhs.polys { return false; }
    if lhs.strips != rhs.strips { return false; }
    var numberOfPointsRight := |rhs.points|;
    var numberOfPointsLeft := |lhs.points|;
    if numberOfPointsLeft != numberOfPointsRight { return false; }
    var i := 0;
    while i < numberOfPointsRight
      invariant 0 <= i <= numberOfPointsRight
      invariant forall k :: 0 <= k < i ==> SquaredDistance(rhs.points[k], lhs.points[k]) <= 0.001
    {
      var distance := SquaredDistance(rhs.points[i], lhs.points[i]);
      if distance > 0.001 {
        return false;
      }
      i := i + 1;
    }
    return true;
  }

  lemma DifferenceSquares(a: real, b: real)
    ensures (a - b) * (a - b) == (b - a) * (b - a)
  {
    var d := a - b;
    assert b - a == -d;
    assert (-d) * (-d) == d * d;
  }

  /** The distance EqualVtkPolyData compares does not depend on which side a point comes from. */
  lemma SquaredDistanceSymmetric(p: Vec3, q: Vec3)
    ensures SquaredDistance(p, q) == SquaredDistance(q, p)
  {
    DifferenceSquares(p[0], q[0]);
    DifferenceSquares(p[1], q[1]);
    DifferenceSquares(p[2], q[2]);
  }

  /** Same-index distances between two point lists do not depend on which list comes first. */
  lemma DistancesSymmetric(a: seq<Vec3>, b: seq<Vec3>)
    ensures forall i :: 0 <= i < |a| && i < |b| ==> SquaredDistance(a[i], b[i]) == SquaredDistance(b[i], a[i])
  {
    forall i | 0 <= i < |a| && i < |b|
      ensures SquaredDistance(a[i], b[i]) == SquaredDistance(b[i], a[i])
    {
      SquaredDistanceSymmetric(a[i], b[i]);
    }
  }

  /** A centerline compared with itself or with a copy is equal, so setInput does not raise update1 for it. */
  lemma SamePolyDataReflexive(p: PolyData)
    ensures SamePolyData(p, p)
  {
    forall i | 0 <= i < |p.points|
      ensures SquaredDistance(p.points[i], p.points[i]) <= 0.001
    {
      var d := Sub(p.points[i], p.points[i]);
      assert d[0] == 0.0 && d[1] == 0.0 && d[2] == 0.0;
    }
  }

  /** The comparison is symmetric: swapping the stored and the new centerline gives the same answer. */
  lemma SamePolyDataSymmetric(lhs: PolyData, rhs: PolyData)
    ensures SamePolyData(lhs, rhs) == SamePolyData(rhs, lhs)
  {
    forall i | 0 <= i < |rhs.points| && i < |lhs.points|
      ensures SquaredDistance(rhs.points[i], lhs.points[i]) == SquaredDistance(lhs.points[i], rhs.points[i])
    {
      SquaredDistanceSymmetric(rhs.points[i], lhs.points[i]);
    }
  }

  // ---------------------------------------------------------------- computeVtkPolyData

  /** The four arrays of the output: points, flow directions, |direction| and |velocity|. */
  datatype Arrows = Arrows(points: seq<Vec3>, directions: seq<Vec3>, uncertainty: seq<real>, velocity: seq<real>)

  /** The four arrays have one entry per point. */
  predicate Lockstep(a: Arrows)
  {
    |a.directions| == |a.points| && |a.uncertainty| == |a.points| && |a.velocity| == |a.points|
  }

  /** One arrow of the sampling loop: a point on the spline and the unit flow vector there. */
  type Arrow = (Vec3, Vec3)

  const NoArrows := Arrows([], [], [], [])

  /** The four InsertNext calls for one arrow of a branch with |direction| d and |velocity| v. */
  function Insert(out: Arrows, arrow: Arrow, d: real, v: real): Arrows
  {
    Arrows(out.points + [arrow.0], out.directions + [arrow.1], out.uncertainty + [d], out.velocity + [v])
  }

  /** The arrays after a kept branch's arrows, in order. */
  function InsertAll(out: Arrows, arrows: seq<Arrow>, d: real, v: real): Arrows
    decreases |arrows|
  {
    if arrows == [] then out
    else Insert(InsertAll(out, arrows[..|arrows| - 1], d, v), arrows[|arrows| - 1], d, v)
  }

  /**
   * computeVtkPolyData over the (direction, velocity) estimates of the splines and the arrows
   * the sampling loop produces for each: a spline whose |direction| is below the limit is
   * skipped and counted, any other contributes all of its arrows with its |direction| and
   * |velocity|. The absolute values are taken as v * sgn(v), as the source does.
   */
  function Emission(est: seq<(real, real)>, arrows: seq<seq<Arrow>>, limit: real): (r: (Arrows, nat))
    requires |arrows| == |est|
    ensures r.1 <= |est|
    decreases |est|
  {
    if est == [] then (NoArrows, 0)
    else
      var n := |est| - 1;
      var prev := Emission(est[..n], arrows[..n], limit);
      var d := est[n].0 * (Sgn(est[n].0) as real);
      var v := est[n].1 * (Sgn(est[n].1) as real);
      if d < limit then (prev.0, prev.1 + 1) else (InsertAll(prev.0, arrows[n], d, v), prev.1)
  }

  /** Inserting a branch's arrows keeps the arrays in lockstep and tags every new entry with d and v. */
  lemma {:induction false} InsertAllFacts(out: Arrows, arrows: seq<Arrow>, d: real, v: real)
    requires Lockstep(out)
    ensures Lockstep(InsertAll(out, arrows, d, v))
    ensures |InsertAll(out, arrows, d, v).points| == |out.points| + |arrows|
    ensures InsertAll(out, arrows, d, v).uncertainty[..|out.points|] == out.uncertainty
    ensures InsertAll(out, arrows, d, v).velocity[..|out.points|] == out.velocity
    ensures forall i :: |out.points| <= i < |out.points| + |arrows| ==>
              InsertAll(out, arrows, d, v).uncertainty[i] == d && InsertAll(out, arrows, d, v).velocity[i] == v
    ensures forall i :: 0 <= i < |arrows| ==>
              InsertAll(out, arrows, d, v).points[|out.points| + i] == arrows[i].0
              && InsertAll(out, arrows, d, v).directions[|out.points| + i] == arrows[i].1
    decreases |arrows|
  {
    if arrows != [] {
      var init := arrows[..|arrows| - 1];
      InsertAllFacts(out, init, d, v);
      var prev := InsertAll(out, init, d, v);
      assert InsertAll(out, arrows, d, v) == Insert(prev, arrows[|arrows| - 1], d, v);
      forall i | 0 <= i < |arrows|
        ensures InsertAll(out, arrows, d, v).points[|out.points| + i] == arrows[i].0
        ensures InsertAll(out, arrows, d, v).directions[|out.points| + i] == arrows[i].1
      {
        if i < |init| {
          assert init[i] == arrows[i];
        }
      }
    }
  }

  /**
   * What the arrays of computeVtkPolyData's output guarantee: the four arrays are in lockstep,
   * every |direction| entry is at least the limit and at least 0, every |velocity| entry is at
   * least 0.
   */
  lemma {:induction false} EmissionArrays(est: seq<(real, real)>, arrows: seq<seq<Arrow>>, limit: real)
    requires |arrows| == |est|
    ensures Lockstep(Emission(est, arrows, limit).0)
    ensures forall i :: 0 <= i < |Emission(est, arrows, limit).0.uncertainty| ==>
              Emission(est, arrows, limit).0.uncertainty[i] >= limit
              && Emission(est, arrows, limit).0.uncertainty[i] >= 0.0
    ensures forall i :: 0 <= i < |Emission(est, arrows, limit).0.velocity| ==>
              Emission(est, arrows, limit).0.velocity[i] >= 0.0
    decreases |est|
  {
    if est != [] {
      var n := |est| - 1;
      EmissionArrays(est[..n], arrows[..n], limit);
      var prev := Emission(est[..n], arrows[..n], limit);
      var d := est[n].0 * (Sgn(est[n].0) as real);
      var v := est[n].1 * (Sgn(est[n].1) as real);
      SgnTimesSelfIsAbs(est[n].0);
      SgnTimesSelfIsAbs(est[n].1);
      if d < limit {
        assert Emission(est, arrows, limit).0 == prev.0;
      } else {
        InsertAllFacts(prev.0, arrows[n], d, v);
        var out := InsertAll(prev.0, arrows[n], d, v);
        assert Emission(est, arrows, limit).0 == out;
        forall i | 0 <= i < |out.uncertainty|
          ensures out.uncertainty[i] >= limit && out.uncertainty[i] >= 0.0 && out.velocity[i] >= 0.0
        {
          if i < |prev.0.points| {
            assert out.uncertainty[i] == prev.0.uncertainty[i];
            assert out.velocity[i] == prev.0.velocity[i];
          }
        }
      }
    }
  }

  /**
   * The skipped count of computeVtkPolyData is at most the number of splines; with nothing
   * below the limit nothing is skipped, and with everything below it nothing is emitted.
   */
  lemma {:induction false} EmissionCounts(est: seq<(real, real)>, arrows: seq<seq<Arrow>>, limit: real)
    requires |arrows| == |est|
    ensures Emission(est, arrows, limit).1 <= |est|
    ensures (forall k :: 0 <= k < |est| ==> Abs(est[k].0) >= limit) ==> Emission(est, arrows, limit).1 == 0
    ensures (forall k :: 0 <= k < |est| ==> Abs(est[k].0) < limit) ==>
              Emission(est, arrows, limit).1 == |est| && Emission(est, arrows, limit).0.points == []
    decreases |est|
  {
    if est != [] {
      var n := |est| - 1;
      EmissionCounts(est[..n], arrows[..n], limit);
      SgnTimesSelfIsAbs(est[n].0);
      if forall k :: 0 <= k < |est| ==> Abs(est[k].0) >= limit {
        assert forall k :: 0 <= k < n ==> est[..n][k] == est[k];
      }
      if forall k :: 0 <= k < |est| ==> Abs(est[k].0) < limit {
        assert forall k :: 0 <= k < n ==> est[..n][k] == est[k];
      }
    }
  }

  /**
   * The spline loop of computeVtkPolyData after the estimates are read: the skip rule and the
   * four arrays appended arrow by arrow.
   */
  method Emit(est: seq<(real, real)>, arrows: seq<seq<Arrow>>, limit: real) returns (out: Arrows, skipped: nat)
    requires |arrows| == |est|
    ensures (out, skipped) == Emission(est, arrows, limit)
  {
    out, skipped := NoArrows, 0;
    var i := 0;
    while i < |est|
      invariant 0 <= i <= |est|
      invariant (out, skipped) == Emission(est[..i], arrows[..i], limit)
    {
      assert est[..i + 1][..i] == est[..i] && arrows[..i + 1][..i] == arrows[..i];
      var flowDirection := est[i].0;
      var absDir := flowDirection * (Sgn(flowDirection) as real);
      var absVesselVel := est[i].1 * (Sgn(est[i].1) as real);
      if absDir < limit {
        skipped := skipped + 1;
      } else {
        var j := 0;
        while j < |arrows[i]|
          invariant 0 <= j <= |arrows[i]|
          invariant out == InsertAll(Emission(est[..i], arrows[..i], limit).0, arrows[i][..j], absDir, absVesselVel)
        {
          assert arrows[i][..j + 1][..j] == arrows[i][..j];
          out := Arrows(out.points + [arrows[i][j].0], out.directions + [arrows[i][j].1],
                        out.uncertainty + [absDir], out.velocity + [absVesselVel]);
          j := j + 1;
        }
        assert arrows[i][..j] == arrows[i];
      }
      i := i + 1;
    }
    assert est[..i] == est && arrows[..i] == arrows;
  }

  /** Every spline's intersection set is its own. */
  ghost predicate Distinct(splines: seq<Spline3D>)
  {
    forall k, l :: 0 <= k < l < |splines| ==>
      splines[k] != splines[l] && splines[k].intersections != splines[l].intersections
  }

  /** The cached estimates of a set: whether each is there and its value. */
  ghost function Cache(xs: IntersectionSet<Spline3D>): (bool, real, bool, real)
    reads xs
  {
    (xs.haveDirection, xs.direction, xs.haveVelocity, xs.velocityLS)
  }

  /** Both estimates are cached: the getters then return them and change nothing. */
  ghost predicate Cached(xs: IntersectionSet<Spline3D>)
    reads xs
  {
    xs.haveDirection && xs.haveVelocity
  }

  /** Splines that are all Done have both estimates cached in every set. */
  lemma DoneCached(ss: seq<Spline3D>, ps: seq<Axes>, images: seq<MetaImage>, vnyq: real, cutoff: real,
                   n: int, solve: (seq<Triplet>, seq<real>) -> seq<real>, sqrt: real -> real,
                   found: seq<seq<Intersection<Spline3D>>>, grown: seq<seq<Intersection<Spline3D>>>,
                   orders: seq<seq<seq<int>>>)
    requires |found| == |ss| && |ps| == |ss| && |grown| == |found| && |orders| == |found|
    requires Done(ss, ps, images, vnyq, cutoff, n, solve, sqrt, found, grown, orders)
    ensures forall k :: 0 <= k < |ss| ==> Cached(ss[k].intersections)
  {
    forall k | 0 <= k < |ss|
      ensures Cached(ss[k].intersections)
    {
      assert Finished(ss[k], ps[k], images, vnyq, cutoff, n, solve, sqrt, found[k], grown[k], orders[k]);
    }
  }

  /** The caches of the sets of a sequence of splines. */
  ghost function Caches(splines: seq<Spline3D>): (r: seq<(bool, real, bool, real)>)
    reads splines, set k | 0 <= k < |splines| :: splines[k].intersections
    ensures |r| == |splines| && forall k :: 0 <= k < |splines| ==> r[k] == Cache(splines[k].intersections)
  {
    seq(|splines|, k requires 0 <= k < |splines| reads set j | 0 <= j < |splines| :: splines[j].intersections =>
      Cache(splines[k].intersections))
  }

  /** e is what the getters returned on a set whose cache was before: both estimates cached, old ones kept. */
  ghost predicate Served(xs: IntersectionSet<Spline3D>, e: (real, real), before: (bool, real, bool, real))
    reads xs
  {
    xs.haveDirection && xs.haveVelocity && e == (xs.direction, xs.velocityLS)
    && (before.0 ==> e.0 == before.1) && (before.2 ==> e.1 == before.3)
  }

  /**
   * The getEstimatedDirection and getEstimatedVelocity calls of computeVtkPolyData, spline by
   * spline: a cached estimate is returned as it is, a missing one is computed and cached.
   */
  method Estimates(splines: seq<Spline3D>) returns (est: seq<(real, real)>)
    requires Distinct(splines)
    modifies set k | 0 <= k < |splines| :: splines[k].intersections
    ensures |est| == |splines|
    ensures forall k :: 0 <= k < |splines| ==>
              est[k] == (splines[k].intersections.direction, splines[k].intersections.velocityLS)
              && splines[k].intersections.haveDirection && splines[k].intersections.haveVelocity
    ensures forall k :: 0 <= k < |splines| && old(splines[k].intersections.haveDirection) ==>
              est[k].0 == old(splines[k].intersections.direction)
    ensures forall k :: 0 <= k < |splines| && old(splines[k].intersections.haveVelocity) ==>
              est[k].1 == old(splines[k].intersections.velocityLS)
    ensures forall k :: 0 <= k < |splines| && old(Cached(splines[k].intersections)) ==>
              unchanged(splines[k].intersections)
  {
    ghost var before := Caches(splines);
    est := [];
    var i := 0;
    while i < |splines|
      invariant 0 <= i <= |splines| && |est| == i
      invariant forall k :: 0 <= k < i ==> Served(splines[k].intersections, est[k], before[k])
      invariant forall k :: i <= k < |splines| ==> Cache(splines[k].intersections) == before[k]
      invariant forall k :: 0 <= k < |splines| && old(Cached(splines[k].intersections)) ==>
                  unchanged(splines[k].intersections)
    {
      var e := EstimateOne(splines, i, before[i]);
      est := est + [e];
      i := i + 1;
    }
  }

  /** The two getters on the i-th spline's set. */
  method EstimateOne(splines: seq<Spline3D>, i: nat, ghost before: (bool, real, bool, real)) returns (e: (real, real))
    requires i < |splines| && Cache(splines[i].intersections) == before
    modifies splines[i].intersections
    ensures Served(splines[i].intersections, e, before)
    ensures before.0 && before.2 ==> unchanged(splines[i].intersections)
  {
    var xs := splines[i].intersections;
    if xs.haveDirection && xs.haveVelocity {
      // Both getters return their cache and change nothing; written out so that the set is
      // seen to stay as it was.
      e := (xs.direction, xs.velocityLS);
    } else {
      var d := xs.GetEstimatedDirection();
      var v := xs.GetEstimatedVelocity();
      e := (d, v);
    }
  }

  /**
   * computeVtkPolyData: the estimates of every spline, then the skip rule and the arrays. The
   * arrows of spline k are arrowsOf(k): the sampling loop that produces them is not modelled.
   */
  method ComputeVtkPolyData(splines: seq<Spline3D>, limit: real, arrowsOf: int -> seq<Arrow>)
    returns (out: Arrows, ghost est: seq<(real, real)>)
    requires Distinct(splines)
    modifies set k | 0 <= k < |splines| :: splines[k].intersections
    ensures |est| == |splines|
    ensures forall k :: 0 <= k < |splines| ==>
              est[k] == (splines[k].intersections.direction, splines[k].intersections.velocityLS)
              && splines[k].intersections.haveDirection && splines[k].intersections.haveVelocity
    ensures forall k :: 0 <= k < |splines| && old(splines[k].intersections.haveDirection) ==>
              est[k].0 == old(splines[k].intersections.direction)
    ensures forall k :: 0 <= k < |splines| && old(splines[k].intersections.haveVelocity) ==>
              est[k].1 == old(splines[k].intersections.velocityLS)
    ensures forall k :: 0 <= k < |splines| && old(Cached(splines[k].intersections)) ==>
              unchanged(splines[k].intersections)
    ensures out == Emission(est, seq(|splines|, arrowsOf), limit).0
    ensures Lockstep(out)
  {
    var e := Estimates(splines);
    est := e;
    var skipped;
    out, skipped := Emit(e, seq(|splines|, arrowsOf), limit);
    EmissionArrays(e, seq(|splines|, arrowsOf), limit);
  }

  /**
   * computeVtkPolyData on splines that are all Done: every set already holds both estimates,
   * so the getters change no set and the splines stay Done; the output is built from the
   * estimates the stages cached.
   */
  method ComputeDone(splines: seq<Spline3D>, limit: real, arrowsOf: int -> seq<Arrow>, ghost ps: seq<Axes>,
                     ghost images: seq<MetaImage>, ghost vnyq: real, ghost cutoff: real, ghost n: int,
                     solve: (seq<Triplet>, seq<real>) -> seq<real>, sqrt: real -> real,
                     ghost found: seq<seq<Intersection<Spline3D>>>, ghost grown: seq<seq<Intersection<Spline3D>>>,
                     ghost orders: seq<seq<seq<int>>>)
    returns (out: Arrows, ghost est: seq<(real, real)>)
    requires Distinct(splines) && |found| == |splines| && |ps| == |splines| && |grown| == |found| && |orders| == |found|
    requires Done(splines, ps, images, vnyq, cutoff, n, solve, sqrt, found, grown, orders)
    modifies set k | 0 <= k < |splines| :: splines[k].intersections
    ensures Done(splines, ps, images, vnyq, cutoff, n, solve, sqrt, found, grown, orders)
    ensures |est| == |splines| && out == Emission(est, seq(|splines|, arrowsOf), limit).0 && Lockstep(out)
    ensures forall k :: 0 <= k < |splines| ==>
              est[k] == (splines[k].intersections.direction, splines[k].intersections.velocityLS)
  {
    DoneCached(splines, ps, images, vnyq, cutoff, n, solve, sqrt, found, grown, orders);
    out, est := ComputeVtkPolyData(splines, limit, arrowsOf);
  }

  // ---------------------------------------------------------------- angle_correction_impl

  /** A spline as build returns it, ready for the stages. */
  ghost predicate Startable(s: Spline3D)
    reads s, s.intersections
  {
    Smoothable(s.points) && SameLength(s.points) && s.transform && s.axis == 1 && s.intersections.items == []
  }

  /** The total size of the intersection sets: what mIntersections accumulates. */
  function TotalSize(found: seq<seq<Intersection<Spline3D>>>): nat
  {
    if found == [] then 0 else |found[0]| + TotalSize(found[1..])
  }

  /**
   * The loop of angle_correction_impl over the built splines ss, whose points were ps: the
   * stages on each in turn. On success every spline is Done; a failure of findAllIntersections
   * on spline processed - 1 stops the loop there, with the splines before it Done. processed
   * counts the iterations begun (mBloodVessels++) and count the sizes added (mIntersections).
   * The loop is written as recursion on the splines not yet processed.
   */
  method RunStages(ss: seq<Spline3D>, ghost ps: seq<Axes>, images: seq<MetaImage>, vnyq: real, cutoff: real,
                   n: int, solve: (seq<Triplet>, seq<real>) -> seq<real>, sqrt: real -> real)
    returns (err: Option<string>, count: nat, processed: nat,
             ghost found: seq<seq<Intersection<Spline3D>>>, ghost grown: seq<seq<Intersection<Spline3D>>>,
             ghost orders: seq<seq<seq<int>>>)
    requires Distinct(ss) && |ps| == |ss|
    requires forall k :: 0 <= k < |ss| ==> Startable(ss[k]) && ss[k].points == ps[k]
    requires IsFitterSolver(solve) && IsSqrt(sqrt)
    requires forall i :: 0 <= i < |images| ==> images[i].Valid()
    modifies set k | 0 <= k < |ss| :: ss[k]
    modifies set k | 0 <= k < |ss| :: ss[k].intersections
    ensures err.None? ==> processed == |ss| && |found| == processed
    ensures err.Some? ==> 1 <= processed <= |ss| && |found| == processed - 1
    ensures |grown| == |found| && |orders| == |found|
    ensures Done(ss, ps, images, vnyq, cutoff, n, solve, sqrt, found, grown, orders)
    ensures err.Some? ==> FailedOn(ss[processed - 1], images, sqrt, err)
    ensures count == TotalSize(found)
    decreases |ss|, 2
  {
    if ss == [] {
      return None, 0, 0, [], [], [];
    }
    var e, c, f, g, o := Stage(ss, ps, images, vnyq, cutoff, n, solve, sqrt);
    if e.Some? {
      return e, 0, 1, [], [], [];
    }
    err, count, processed, found, grown, orders := Rest(ss, ps, images, vnyq, cutoff, n, solve, sqrt, c, f, g, o);
  }

  /** The loop after a successful first iteration: the stages on the splines after the first. */
  method Rest(ss: seq<Spline3D>, ghost ps: seq<Axes>, images: seq<MetaImage>, vnyq: real, cutoff: real,
              n: int, solve: (seq<Triplet>, seq<real>) -> seq<real>, sqrt: real -> real, c: nat,
              ghost f: seq<Intersection<Spline3D>>, ghost g: seq<Intersection<Spline3D>>, ghost o: seq<seq<int>>)
    returns (err: Option<string>, count: nat, processed: nat,
             ghost found: seq<seq<Intersection<Spline3D>>>, ghost grown: seq<seq<Intersection<Spline3D>>>,
             ghost orders: seq<seq<seq<int>>>)
    requires Distinct(ss) && 0 < |ss| == |ps|
    requires forall k :: 0 < k < |ss| ==> Startable(ss[k]) && ss[k].points == ps[k]
    requires c == |f| && Finished(ss[0], ps[0], images, vnyq, cutoff, n, solve, sqrt, f, g, o)
    requires IsFitterSolver(solve) && IsSqrt(sqrt)
    requires forall i :: 0 <= i < |images| ==> images[i].Valid()
    modifies set k | 1 <= k < |ss| :: ss[k]
    modifies set k | 1 <= k < |ss| :: ss[k].intersections
    ensures err.None? ==> processed == |ss| && |found| == processed
    ensures err.Some? ==> 1 <= processed <= |ss| && |found| == processed - 1
    ensures |grown| == |found| && |orders| == |found|
    ensures Done(ss, ps, images, vnyq, cutoff, n, solve, sqrt, found, grown, orders)
    ensures err.Some? ==> FailedOn(ss[processed - 1], images, sqrt, err)
    ensures count == TotalSize(found)
    decreases |ss|, 1
  {
    var e', c', p';
    ghost var f', g', o';
    e', c', p', f', g', o' := Tail(ss, ps, images, vnyq, cutoff, n, solve, sqrt, f, g, o);
    DoneOne(ss, ps, images, vnyq, cutoff, n, solve, sqrt, f, g, o);
    DoneCons(ss, ps, images, vnyq, cutoff, n, solve, sqrt, f, g, o, f', g', o');
    err, count, processed := e', c + c', p' + 1;
    found, grown, orders := [f] + f', [g] + g', [o] + o';
    if err.Some? {
      assert ss[1..][p' - 1] == ss[processed - 1];
    }
  }

  /** The stages on the splines after the first, which stays Finished. */
  method Tail(ss: seq<Spline3D>, ghost ps: seq<Axes>, images: seq<MetaImage>, vnyq: real, cutoff: real,
              n: int, solve: (seq<Triplet>, seq<real>) -> seq<real>, sqrt: real -> real,
              ghost f: seq<Intersection<Spline3D>>, ghost g: seq<Intersection<Spline3D>>, ghost o: seq<seq<int>>)
    returns (err: Option<string>, count: nat, processed: nat,
             ghost found: seq<seq<Intersection<Spline3D>>>, ghost grown: seq<seq<Intersection<Spline3D>>>,
             ghost orders: seq<seq<seq<int>>>)
    requires Distinct(ss) && 0 < |ss| == |ps|
    requires forall k :: 0 < k < |ss| ==> Startable(ss[k]) && ss[k].points == ps[k]
    requires Finished(ss[0], ps[0], images, vnyq, cutoff, n, solve, sqrt, f, g, o)
    requires IsFitterSolver(solve) && IsSqrt(sqrt)
    requires forall i :: 0 <= i < |images| ==> images[i].Valid()
    modifies set k | 1 <= k < |ss| :: ss[k]
    modifies set k | 1 <= k < |ss| :: ss[k].intersections
    ensures Finished(ss[0], ps[0], images, vnyq, cutoff, n, solve, sqrt, f, g, o)
    ensures err.None? ==> processed == |ss| - 1 && |found| == processed
    ensures err.Some? ==> 1 <= processed <= |ss| - 1 && |found| == processed - 1
    ensures |grown| == |found| && |orders| == |found|
    ensures Done(ss[1..], ps[1..], images, vnyq, cutoff, n, solve, sqrt, found, grown, orders)
    ensures err.Some? ==> FailedOn(ss[1..][processed - 1], images, sqrt, err)
    ensures count == TotalSize(found)
    decreases |ss|, 0
  {
    forall k | 0 <= k < |ss[1..]|
      ensures ss[1..][k] != ss[0] && ss[1..][k].intersections != ss[0].intersections
    {
      assert ss[1..][k] == ss[k + 1];
    }
    ghost var first := Finished(ss[0], ps[0], images, vnyq, cutoff, n, solve, sqrt, f, g, o);
    err, count, processed, found, grown, orders := RunStages(ss[1..], ps[1..], images, vnyq, cutoff, n, solve, sqrt);
    assert unchanged(ss[0], ss[0].intersections);
    assert forall i :: 0 <= i < |images| ==> unchanged(images[i]);
    assert Finished(ss[0], ps[0], images, vnyq, cutoff, n, solve, sqrt, f, g, o) == first;
  }

  /** The stages on the first spline, which leave the splines after it as they were. */
  method Stage(ss: seq<Spline3D>, ghost ps: seq<Axes>, images: seq<MetaImage>, vnyq: real,
               cutoff: real, n: int, solve: (seq<Triplet>, seq<real>) -> seq<real>, sqrt: real -> real)
    returns (err: Option<string>, count: nat, ghost f: seq<Intersection<Spline3D>>,
             ghost g: seq<Intersection<Spline3D>>, ghost o: seq<seq<int>>)
    requires Distinct(ss) && 0 < |ss| == |ps|
    requires forall k :: 0 <= k < |ss| ==> Startable(ss[k]) && ss[k].points == ps[k]
    requires IsFitterSolver(solve) && IsSqrt(sqrt)
    requires forall j :: 0 <= j < |images| ==> images[j].Valid()
    modifies ss[0], ss[0].intersections
    ensures forall k :: 0 < k < |ss| ==> Startable(ss[k]) && ss[k].points == ps[k]
    ensures err.None? ==> count == |f| && Finished(ss[0], ps[0], images, vnyq, cutoff, n, solve, sqrt, f, g, o)
    ensures err.Some? ==> FailedOn(ss[0], images, sqrt, err)
  {
    var s := ss[0];
    err, count, f, g, o := Process(s, images, vnyq, cutoff, n, solve, sqrt);
    forall k | 0 < k < |ss|
      ensures Startable(ss[k]) && ss[k].points == ps[k]
    {
      assert ss[k] != s && ss[k].intersections != s.intersections;
    }
  }

  /** A blank spline over a branch of at least two points is ready for the stages. */
  lemma BlankStartable(s: Spline3D, b: seq<Vec3>)
    requires Blank(s, b) && |b| > 1
    ensures Startable(s)
  {
    var axes := AxesOf(b);
    assert |axes[0]| == |b| && SameLength(axes);
  }

  /** build on the centerline: every spline it returns is ready for the stages. */
  method BuildSplines(c: Centerline) returns (splines: seq<Spline3D>, ghost branches: seq<seq<Vec3>>)
    requires WellFormed(c)
    ensures branches == Searched(c).branches
    ensures forall b, k :: 0 <= b < |branches| && 0 <= k < |branches[b]| ==> branches[b][k] in c.points
    ensures |splines| == |LongBranches(branches)|
    ensures forall k :: 0 <= k < |splines| ==> fresh(splines[k]) && fresh(splines[k].intersections)
    ensures forall k :: 0 <= k < |splines| ==>
              Startable(splines[k]) && splines[k].points == AxesOf(LongBranches(branches)[k])
    ensures Distinct(splines)
  {
    splines, branches := Build(c);
    LongBranchesExact(branches);
    forall k | 0 <= k < |splines|
      ensures Startable(splines[k])
    {
      var b := LongBranches(branches)[k];
      assert Blank(splines[k], b);
      assert |b| > 1;
      BlankStartable(splines[k], b);
    }
  }

  /**
   * build, then the stages on every spline built: the body of angle_correction_impl on new
   * splines. On success every spline is Done from the points of its branch.
   */
  method BuildAndRun(c: Centerline, images: seq<MetaImage>, vnyq: real, cutoff: real, n: int,
                     solve: (seq<Triplet>, seq<real>) -> seq<real>, sqrt: real -> real)
    returns (err: Option<string>, count: nat, processed: nat, splines: seq<Spline3D>,
             ghost branches: seq<seq<Vec3>>, ghost found: seq<seq<Intersection<Spline3D>>>,
             ghost grown: seq<seq<Intersection<Spline3D>>>, ghost orders: seq<seq<seq<int>>>, ghost pts0: seq<Axes>)
    requires WellFormed(c) && IsFitterSolver(solve) && IsSqrt(sqrt)
    requires forall i :: 0 <= i < |images| ==> images[i].Valid()
    ensures branches == Searched(c).branches
    ensures forall b, k :: 0 <= b < |branches| && 0 <= k < |branches[b]| ==> branches[b][k] in c.points
    ensures |splines| == |LongBranches(branches)| && Distinct(splines)
    ensures forall k :: 0 <= k < |splines| ==> fresh(splines[k]) && fresh(splines[k].intersections)
    ensures err.None? ==> processed == |splines| && |found| == processed
    ensures err.Some? ==> 1 <= processed <= |splines| && |found| == processed - 1
    ensures |grown| == |found| && |orders| == |found|
    ensures |pts0| == |splines| && forall k :: 0 <= k < |splines| ==> pts0[k] == AxesOf(LongBranches(branches)[k])
    ensures Done(splines, pts0, images, vnyq, cutoff, n, solve, sqrt, found, grown, orders)
    ensures count == TotalSize(found)
  {
    splines, branches := BuildSplines(c);
    pts0 := seq(|splines|, k requires 0 <= k < |splines| => AxesOf(LongBranches(branches)[k]));
    err, count, processed, found, grown, orders := RunStages(splines, pts0, images, vnyq, cutoff, n, solve, sqrt);
  }

  // ---------------------------------------------------------------- AngleCorrection

  /** A vector<MetaImage> that setInput receives by pointer: identity matters, and clear() empties it. */
  class ImageList {
    var images: seq<MetaImage>

    constructor (images: seq<MetaImage>)
      ensures this.images == images
    {
      this.images := images;
    }
  }

  /** The reportError calls of setInput, each with the message it throws. */
  datatype InputFault =
    | NegativeUncertaintyLimit   // "uncertainty_limit must be positive"
    | NegativeMinArrowDist       // "minArrowDist must be positive"
    | NegativeNyquist            // "vNyquist must be positive"
    | NegativeConvolutions       // "nConvolutions must be positive"
    | NoPoints                   // "No points found in the center line"
    | NoLines                    // "No lines found in the center line, the center line must be a linked list"
    | MissingVelocityData        // "Could not read velocity data" (the prefix overload)

  /** The first check setInput fails, in the source's order; None when all pass. */
  function InputError(centerline: PolyData, vnyq: real, n: int, limit: real, minDist: real): (r: Option<InputFault>)
    ensures r.None? <==> limit >= 0.0 && minDist >= 0.0 && vnyq >= 0.0 && n >= 0
                         && |centerline.points| > 0 && |centerline.lines| > 0
  {
    if limit < 0.0 then Some(NegativeUncertaintyLimit)
    else if minDist < 0.0 then Some(NegativeMinArrowDist)
    else if vnyq < 0.0 then Some(NegativeNyquist)
    else if n < 0 then Some(NegativeConvolutions)
    else if |centerline.points| == 0 then Some(NoPoints)
    else if |centerline.lines| == 0 then Some(NoLines)
    else None
  }

  class AngleCorrection {
    var clData: PolyData
    var velData: ImageList
    var velImagePrefix: string
    var vnyq: real
    var cutoff: real
    var nConvolutions: int
    var uncertaintyLimit: real
    var minArrowDist: real
    /** mOutput; None is the NULL pointer. */
    var output: Option<Arrows>
    var splines: seq<Spline3D>
    var update1: bool
    var update2: bool
    var validInput: bool
    var intersections: int
    var bloodVessels: int
    var numOfStepsRan: int

    /** The stored centerline is build's input and every loaded frame is a well-formed image. */
    ghost predicate Valid()
      reads this, velData, velData.images, splines
    {
      WellFormed(CenterlineOf(clData))
      && (forall i :: 0 <= i < |velData.images| ==> velData.images[i].Valid())
      && Distinct(splines)
    }

    /** The parameters setInput stores, and the frames. */
    ghost function Parameters(): (PolyData, ImageList, string, real, real, int, real, real)
      reads this
    {
      (clData, velData, velImagePrefix, vnyq, cutoff, nConvolutions, uncertaintyLimit, minArrowDist)
    }

    /**
     * The constructor. mUpdate1, mUpdate2, mVnyq, mCutoff, mnConvolutions, mUncertainty_limit
     * and mMinArrowDist are left uninitialized by the source; their first values are the
     * parameters here.
     */
    constructor (u1: bool, u2: bool, vnyq0: real, cutoff0: real, n0: int, limit0: real, minDist0: real)
      ensures Valid()
      ensures output == None && !validInput && splines == [] && velData.images == [] && fresh(velData)
      ensures clData == PolyData([], 0, [], 0, 0) && velImagePrefix == ""
      ensures intersections == 0 && bloodVessels == 0 && numOfStepsRan == 0
      ensures update1 == u1 && update2 == u2
      ensures (vnyq, cutoff, nConvolutions, uncertaintyLimit, minArrowDist) == (vnyq0, cutoff0, n0, limit0, minDist0)
    {
      output := None;
      validInput := false;
      splines := [];
      velData := new ImageList([]);
      clData := PolyData([], 0, [], 0, 0);
      velImagePrefix := "";
      intersections := 0;
      bloodVessels := 0;
      numOfStepsRan := 0;
      update1, update2 := u1, u2;
      vnyq, cutoff, nConvolutions, uncertaintyLimit, minArrowDist := vnyq0, cutoff0, n0, limit0, minDist0;
    }

    /**
     * setInput with a centerline and a frame list. mValidInput is cleared first; a failed check
     * (reportError throws) leaves everything else as it was. The frame list is taken when it is
     * a different, non-empty list or when no prefix is stored, and the list held until then is
     * cleared (which empties vd itself when it is that list). update1 is raised when the list is
     * taken or Vnyq, cutoff, nConvolutions or the centerline differ, update2 when the
     * uncertainty limit or minArrowDist differ; neither flag is ever lowered here.
     */
    method SetInput(centerline: PolyData, vd: ImageList, vnyq': real, cutoff': real, n': int,
                    limit': real, minDist': real) returns (err: Option<InputFault>)
      requires Valid() && WellFormed(CenterlineOf(centerline))
      requires forall i :: 0 <= i < |vd.images| ==> vd.images[i].Valid()
      modifies this, velData
      ensures Valid()
      ensures err == InputError(centerline, vnyq', n', limit', minDist')
      ensures splines == old(splines) && output == old(output) && numOfStepsRan == old(numOfStepsRan)
      ensures intersections == old(intersections) && bloodVessels == old(bloodVessels)
      ensures velImagePrefix == old(velImagePrefix)
      ensures err.Some? ==> !validInput && Parameters() == old(Parameters()) && velData.images == old(velData.images)
      ensures err.Some? ==> update1 == old(update1) && update2 == old(update2)
      ensures err.None? ==> validInput
      ensures err.None? && ((|vd.images| > 0 && old(velData) != vd) || |old(velImagePrefix)| == 0) ==>
                velData == vd && old(velData).images == [] && update1
      ensures err.None? && !((|vd.images| > 0 && old(velData) != vd) || |old(velImagePrefix)| == 0) ==>
                velData == old(velData) && velData.images == old(velData.images)
      ensures err.None? ==>
                var changed := old(vnyq) != vnyq' || old(cutoff) != cutoff' || old(nConvolutions) != n'
                               || !SamePolyData(old(clData), centerline);
                (changed ==> clData == centerline && vnyq == vnyq' && cutoff == cutoff' && nConvolutions == n' && update1)
                && (!changed ==> clData == old(clData) && vnyq == old(vnyq) && cutoff == old(cutoff)
                                 && nConvolutions == old(nConvolutions))
      ensures err.None? ==>
                update1 == (old(update1) || (|vd.images| > 0 && old(velData) != vd) || |old(velImagePrefix)| == 0
                            || old(vnyq) != vnyq' || old(cutoff) != cutoff' || old(nConvolutions) != n'
                            || !SamePolyData(old(clData), centerline))
      ensures err.None? ==>
                var changed := old(uncertaintyLimit) != limit' || old(minArrowDist) != minDist';
                update2 == (old(update2) || changed)
                && (changed ==> uncertaintyLimit == limit' && minArrowDist == minDist')
                && (!changed ==> uncertaintyLimit == old(uncertaintyLimit) && minArrowDist == old(minArrowDist))
    {
      validInput := false;
      if limit' < 0.0 { return Some(NegativeUncertaintyLimit); }
      if minDist' < 0.0 { return Some(NegativeMinArrowDist); }
      if vnyq' < 0.0 { return Some(NegativeNyquist); }
      if n' < 0 { return Some(NegativeConvolutions); }
      if |centerline.points| <= 0 { return Some(NoPoints); }
      if |centerline.lines| <= 0 { return Some(NoLines); }
      err := None;
      TakeFrames(vd);
      UpdateStep1(centerline, vnyq', cutoff', n');
      UpdateStep2(limit', minDist');
      validInput := true;
    }

    /** The parameters of step 1: the centerline, Vnyq, cutoff and nConvolutions. */
    ghost function Step1Inputs(): (PolyData, real, real, int)
      reads this
    {
      (clData, vnyq, cutoff, nConvolutions)
    }

    /** The parameters of step 2: the uncertainty limit and minArrowDist. */
    ghost function Step2Inputs(): (real, real)
      reads this
    {
      (uncertaintyLimit, minArrowDist)
    }

    /** What calculate produces and counts. */
    ghost function Outcome(): (Option<Arrows>, seq<Spline3D>, int, int, int, string)
      reads this
    {
      (output, splines, numOfStepsRan, intersections, bloodVessels, velImagePrefix)
    }

    /** Taking the frame list vd, as setInput does once its checks pass. */
    method TakeFrames(vd: ImageList)
      modifies this, velData
      ensures (|vd.images| > 0 && old(velData) != vd) || |old(velImagePrefix)| == 0 ==>
                velData == vd && old(velData).images == [] && update1
      ensures !((|vd.images| > 0 && old(velData) != vd) || |old(velImagePrefix)| == 0) ==>
                velData == old(velData) && velData.images == old(velData.images) && update1 == old(update1)
      ensures Step1Inputs() == old(Step1Inputs()) && Step2Inputs() == old(Step2Inputs())
      ensures Outcome() == old(Outcome()) && update2 == old(update2) && validInput == old(validInput)
    {
      if (|vd.images| > 0 && velData != vd) || |velImagePrefix| == 0 {
        velData.images := [];
        velData := vd;
        update1 := true;
      }
    }

    /** Storing Vnyq, cutoff, nConvolutions and the centerline when any differs, raising update1. */
    method UpdateStep1(centerline: PolyData, vnyq': real, cutoff': real, n': int)
      modifies this
      ensures var changed := old(vnyq) != vnyq' || old(cutoff) != cutoff' || old(nConvolutions) != n'
                             || !SamePolyData(old(clData), centerline);
              (changed ==> Step1Inputs() == (centerline, vnyq', cutoff', n') && update1)
              && (!changed ==> Step1Inputs() == old(Step1Inputs()) && update1 == old(update1))
      ensures velData == old(velData) && Step2Inputs() == old(Step2Inputs())
      ensures Outcome() == old(Outcome()) && update2 == old(update2) && validInput == old(validInput)
    {
      var same := EqualPolyData(clData, centerline);
      if vnyq != vnyq' || cutoff != cutoff' || nConvolutions != n' || !same {
        clData := centerline;
        vnyq := vnyq';
        cutoff := cutoff';
        nConvolutions := n';
        update1 := true;
      }
    }

    /** Storing the uncertainty limit and minArrowDist when either differs, raising update2. */
    method UpdateStep2(limit': real, minDist': real)
      modifies this
      ensures var changed := old(uncertaintyLimit) != limit' || old(minArrowDist) != minDist';
              (changed ==> Step2Inputs() == (limit', minDist') && update2)
              && (!changed ==> Step2Inputs() == old(Step2Inputs()) && update2 == old(update2))
      ensures velData == old(velData) && Step1Inputs() == old(Step1Inputs())
      ensures Outcome() == old(Outcome()) && update1 == old(update1) && validInput == old(validInput)
    {
      if uncertaintyLimit != limit' || minArrowDist != minDist' {
        uncertaintyLimit := limit';
        minArrowDist := minDist';
        update2 := true;
      }
    }

    /**
     * setInput with an image prefix. A new prefix is stored, the held frame list is cleared and
     * update1 raised before anything else; when prefix + "0.mhd" does not exist (fileExists
     * false) the call fails there. Otherwise it is setInput with a new, empty frame list, which
     * is only taken when the prefix is empty.
     */
    method SetInputPrefix(centerline: PolyData, prefix: string, fileExists: bool, vnyq': real, cutoff': real,
                          n': int, limit': real, minDist': real) returns (err: Option<InputFault>)
      requires Valid() && WellFormed(CenterlineOf(centerline))
      modifies this, velData
      ensures Valid()
      ensures velImagePrefix == prefix
      ensures prefix != old(velImagePrefix) ==> update1 && old(velData).images == []
      ensures !fileExists ==> err == Some(MissingVelocityData) && validInput == old(validInput)
      ensures !fileExists ==> velData == old(velData) && clData == old(clData) && update2 == old(update2)
      ensures fileExists ==> err == InputError(centerline, vnyq', n', limit', minDist')
      ensures fileExists && err.None? && |prefix| > 0 ==> velData == old(velData)
      ensures fileExists && err.None? && |prefix| == 0 ==> velData.images == [] && fresh(velData)
      ensures splines == old(splines) && output == old(output) && numOfStepsRan == old(numOfStepsRan)
      ensures intersections == old(intersections) && bloodVessels == old(bloodVessels)
    {
      if velImagePrefix != prefix {
        velImagePrefix := prefix;
        velData.images := [];
        update1 := true;
      }
      if !fileExists {
        return Some(MissingVelocityData);
      }
      var empty := new ImageList([]);
      err := SetInput(centerline, empty, vnyq', cutoff', n', limit', minDist');
    }

    /**
     * The state angle_correction_impl leaves, from counters vessels0 and inters0: the splines are one per
     * branch of more than one point of build's search on the stored centerline (pts0 holding
     * each one's points), every branch made of centerline points; the splines the loop got
     * through are Finished on the held frames with the stored Vnyq, cutoff and nConvolutions;
     * mBloodVessels counts the splines begun (all of them, or up to the one that failed) and
     * mIntersections grows by the sizes of the sets found.
     */
    ghost predicate Built(vessels0: int, inters0: int, failed: bool, branches: seq<seq<Vec3>>,
                          found: seq<seq<Intersection<Spline3D>>>, grown: seq<seq<Intersection<Spline3D>>>,
                          orders: seq<seq<seq<int>>>, pts0: seq<Axes>,
                          solve: (seq<Triplet>, seq<real>) -> seq<real>, sqrt: real -> real)
      reads this, velData, velData.images, splines, set k | 0 <= k < |splines| :: splines[k].intersections
    {
      |splines| == |LongBranches(branches)|
      && (forall b, k :: 0 <= b < |branches| && 0 <= k < |branches[b]| ==> branches[b][k] in clData.points)
      && |found| <= |splines| && |grown| == |found| && |orders| == |found|
      && (!failed ==> bloodVessels == vessels0 + |splines| && |found| == |splines|)
      && (failed ==> bloodVessels == vessels0 + |found| + 1)
      && intersections == inters0 + TotalSize(found)
      && |pts0| == |splines| && (forall k :: 0 <= k < |splines| ==> pts0[k] == AxesOf(LongBranches(branches)[k]))
      && Done(splines, pts0, velData.images, vnyq, cutoff, nConvolutions, solve, sqrt, found, grown, orders)
    }

    /**
     * angle_correction_impl on the stored parameters: build, then the stages on every spline;
     * mBloodVessels grows by the splines begun and mIntersections by the sizes of the
     * intersection sets found, without reset. The splines are the branches of more than one
     * point; on success every one is Finished from its branch's points.
     */
    method Impl(solve: (seq<Triplet>, seq<real>) -> seq<real>, sqrt: real -> real)
      returns (err: Option<string>, ghost branches: seq<seq<Vec3>>, ghost found: seq<seq<Intersection<Spline3D>>>,
               ghost grown: seq<seq<Intersection<Spline3D>>>, ghost orders: seq<seq<seq<int>>>, ghost pts0: seq<Axes>)
      requires Valid() && IsFitterSolver(solve) && IsSqrt(sqrt)
      modifies this
      ensures Valid()
      ensures Parameters() == old(Parameters()) && velData.images == old(velData.images)
      ensures output == old(output) && validInput == old(validInput) && numOfStepsRan == old(numOfStepsRan)
      ensures update1 == old(update1) && update2 == old(update2)
      ensures forall k :: 0 <= k < |splines| ==> fresh(splines[k]) && fresh(splines[k].intersections)
      ensures Built(old(bloodVessels), old(intersections), err.Some?, branches, found, grown, orders, pts0, solve, sqrt)
      ensures branches == Searched(CenterlineOf(clData)).branches
    {
      var bs, count, processed;
      err, count, processed, bs, branches, found, grown, orders, pts0 :=
        BuildAndRun(CenterlineOf(clData), velData.images, vnyq, cutoff, nConvolutions, solve, sqrt);
      Store(err, count, processed, bs, branches, found, grown, orders, pts0, solve, sqrt);
    }

    /** The stores that end angle_correction_impl: the new splines and the two counters. */
    method Store(err: Option<string>, count: nat, processed: nat, bs: seq<Spline3D>,
                 ghost branches: seq<seq<Vec3>>, ghost found: seq<seq<Intersection<Spline3D>>>,
                 ghost grown: seq<seq<Intersection<Spline3D>>>, ghost orders: seq<seq<seq<int>>>, ghost pts0: seq<Axes>,
                 solve: (seq<Triplet>, seq<real>) -> seq<real>, sqrt: real -> real)
      requires Valid()
      requires forall b, k :: 0 <= b < |branches| && 0 <= k < |branches[b]| ==> branches[b][k] in clData.points
      requires |bs| == |LongBranches(branches)| && Distinct(bs)
      requires err.None? ==> processed == |bs| && |found| == processed
      requires err.Some? ==> 1 <= processed <= |bs| && |found| == processed - 1
      requires |grown| == |found| && |orders| == |found|
      requires |pts0| == |bs| && forall k :: 0 <= k < |bs| ==> pts0[k] == AxesOf(LongBranches(branches)[k])
      requires Done(bs, pts0, velData.images, vnyq, cutoff, nConvolutions, solve, sqrt, found, grown, orders)
      requires count == TotalSize(found)
      modifies this
      ensures Valid()
      ensures Parameters() == old(Parameters()) && velData.images == old(velData.images)
      ensures output == old(output) && validInput == old(validInput) && numOfStepsRan == old(numOfStepsRan)
      ensures update1 == old(update1) && update2 == old(update2) && splines == bs
      ensures Built(old(bloodVessels), old(intersections), err.Some?, branches, found, grown, orders, pts0, solve, sqrt)
    {
      splines, bloodVessels, intersections := bs, bloodVessels + processed, intersections + count;
    }

    /** Step 1 of calculate: counted, then angle_correction_impl on the stored parameters. */
    method RunStep1(solve: (seq<Triplet>, seq<real>) -> seq<real>, sqrt: real -> real)
      returns (err: Option<string>, ghost branches: seq<seq<Vec3>>, ghost found: seq<seq<Intersection<Spline3D>>>,
               ghost grown: seq<seq<Intersection<Spline3D>>>, ghost orders: seq<seq<seq<int>>>, ghost pts0: seq<Axes>)
      requires Valid() && IsFitterSolver(solve) && IsSqrt(sqrt)
      modifies this
      ensures Valid()
      ensures Step1Inputs() == old(Step1Inputs()) && Step2Inputs() == old(Step2Inputs())
      ensures velData == old(velData) && velData.images == old(velData.images) && velImagePrefix == old(velImagePrefix)
      ensures output == old(output) && validInput == old(validInput) && numOfStepsRan == old(numOfStepsRan) + 1
      ensures update1 == old(update1) && update2 == old(update2)
      ensures forall k :: 0 <= k < |splines| ==> fresh(splines[k]) && fresh(splines[k].intersections)
      ensures Built(old(bloodVessels), old(intersections), err.Some?, branches, found, grown, orders, pts0, solve, sqrt)
      ensures branches == Searched(CenterlineOf(clData)).branches
    {
      numOfStepsRan := numOfStepsRan + 1;
      err, branches, found, grown, orders, pts0 := Impl(solve, sqrt);
    }

    /**
     * Step 2 of calculate: counted, then computeVtkPolyData on the splines with the stored
     * uncertainty limit; est are the estimates it read, now cached in every set.
     */
    method RunStep2(arrowsOf: int -> seq<Arrow>) returns (ghost est: seq<(real, real)>)
      requires Valid()
      modifies this, set k | 0 <= k < |splines| :: splines[k].intersections
      ensures Valid()
      ensures Step1Inputs() == old(Step1Inputs()) && Step2Inputs() == old(Step2Inputs())
      ensures velData == old(velData) && velData.images == old(velData.images) && velImagePrefix == old(velImagePrefix)
      ensures validInput == old(validInput) && numOfStepsRan == old(numOfStepsRan) + 1
      ensures update1 == old(update1) && update2 == old(update2)
      ensures splines == old(splines) && intersections == old(intersections) && bloodVessels == old(bloodVessels)
      ensures |est| == |splines| && output == Some(Emission(est, seq(|splines|, arrowsOf), uncertaintyLimit).0)
      ensures Lockstep(output.value)
      ensures forall k :: 0 <= k < |splines| ==>
                est[k] == (splines[k].intersections.direction, splines[k].intersections.velocityLS)
      ensures forall k :: 0 <= k < |splines| && old(Cached(splines[k].intersections)) ==>
                unchanged(splines[k].intersections)
    {
      numOfStepsRan := numOfStepsRan + 1;
      var out;
      out, est := ComputeVtkPolyData(splines, uncertaintyLimit, arrowsOf);
      output := Some(out);
    }

    /**
     * calculate(): refused (mOutput NULL, false) unless a setInput succeeded since the last
     * call. Otherwise mValidInput is cleared, the frames are loaded when the held list is empty
     * (readImages on the prefix; `loaded` is what it yields), step 1 (angle_correction_impl)
     * runs when update1 is raised and step 2 (computeVtkPolyData) when either flag is, and both
     * flags are lowered. A failure in step 1 is the exception the source lets escape: the flags
     * stay raised and the output stays as it was.
     */
    method Calculate(loaded: seq<MetaImage>, arrowsOf: int -> seq<Arrow>,
                     solve: (seq<Triplet>, seq<real>) -> seq<real>, sqrt: real -> real)
      returns (r: Result<bool>, ghost est: seq<(real, real)>, ghost branches: seq<seq<Vec3>>,
               ghost found: seq<seq<Intersection<Spline3D>>>, ghost grown: seq<seq<Intersection<Spline3D>>>,
               ghost orders: seq<seq<seq<int>>>, ghost pts0: seq<Axes>)
      requires Valid() && IsFitterSolver(solve) && IsSqrt(sqrt)
      requires forall i :: 0 <= i < |loaded| ==> loaded[i].Valid()
      modifies this, velData, set k | 0 <= k < |splines| :: splines[k].intersections
      ensures Valid()
      ensures Step1Inputs() == old(Step1Inputs()) && Step2Inputs() == old(Step2Inputs())
      ensures velImagePrefix == old(velImagePrefix) && !validInput
      ensures !old(validInput) ==>
                r == Ok(false) && output == None && splines == old(splines) && velData == old(velData)
                && numOfStepsRan == old(numOfStepsRan) && update1 == old(update1) && update2 == old(update2)
      ensures old(validInput) ==> r != Ok(false)
      ensures old(validInput) && old(velData.images) == [] ==> fresh(velData) && velData.images == loaded
      ensures old(validInput) && old(velData.images) != [] ==>
                velData == old(velData) && velData.images == old(velData.images)
      ensures r.Error? ==> old(update1) && update1 && update2 == old(update2) && numOfStepsRan == 1 && output == old(output)
      ensures r.Error? ==>
                Built(old(bloodVessels), old(intersections), true, branches, found, grown, orders, pts0, solve, sqrt)
      ensures r == Ok(true) && old(update1) ==>
                Built(old(bloodVessels), old(intersections), false, branches, found, grown, orders, pts0, solve, sqrt)
      ensures old(validInput) && old(update1) ==> branches == Searched(CenterlineOf(clData)).branches
      ensures r == Ok(true) ==> !update1 && !update2
      ensures r == Ok(true) ==> numOfStepsRan == (if old(update1) then 2 else if old(update2) then 1 else 0)
      ensures r == Ok(true) && (old(update1) || old(update2)) ==>
                |est| == |splines| && output == Some(Emission(est, seq(|splines|, arrowsOf), uncertaintyLimit).0)
                && Lockstep(output.value)
                && forall k :: 0 <= k < |splines| ==>
                     est[k] == (splines[k].intersections.direction, splines[k].intersections.velocityLS)
      ensures r == Ok(true) && !old(update1) && !old(update2) ==> output == old(output)
      ensures r.Ok? && !old(update1) ==>
                splines == old(splines) && intersections == old(intersections) && bloodVessels == old(bloodVessels)
    {
      est, branches, found, grown, orders, pts0 := [], [], [], [], [], [];
      if !validInput {
        output := None;
        r := Ok(false);
        return;
      }
      validInput := false;
      LoadFrames(loaded);
      r, est, branches, found, grown, orders, pts0 := RunSteps(arrowsOf, solve, sqrt);
    }

    /** The loading of calculate: an empty frame list is cleared and replaced by the frames read. */
    method LoadFrames(loaded: seq<MetaImage>)
      requires Valid() && forall i :: 0 <= i < |loaded| ==> loaded[i].Valid()
      modifies this, velData
      ensures Valid()
      ensures Step1Inputs() == old(Step1Inputs()) && Step2Inputs() == old(Step2Inputs())
      ensures Outcome() == old(Outcome()) && validInput == old(validInput)
      ensures update1 == old(update1) && update2 == old(update2)
      ensures old(velData.images) == [] ==> fresh(velData) && velData.images == loaded
      ensures old(velData.images) != [] ==> velData == old(velData) && velData.images == old(velData.images)
    {
      if |velData.images| == 0 {
        velData.images := [];
        velData := new ImageList(loaded);
      }
    }

    /**
     * The two steps of calculate, counted from zero, and the flags lowered after them. When
     * update1 was raised, the splines are the ones step 1 built and ran the stages on (Built);
     * the estimates step 2 then reads are the ones the stages cached.
     */
    method RunSteps(arrowsOf: int -> seq<Arrow>, solve: (seq<Triplet>, seq<real>) -> seq<real>, sqrt: real -> real)
      returns (r: Result<bool>, ghost est: seq<(real, real)>, ghost branches: seq<seq<Vec3>>,
               ghost found: seq<seq<Intersection<Spline3D>>>, ghost grown: seq<seq<Intersection<Spline3D>>>,
               ghost orders: seq<seq<seq<int>>>, ghost pts0: seq<Axes>)
      requires Valid() && IsFitterSolver(solve) && IsSqrt(sqrt)
      modifies this, set k | 0 <= k < |splines| :: splines[k].intersections
      ensures Valid()
      ensures Step1Inputs() == old(Step1Inputs()) && Step2Inputs() == old(Step2Inputs())
      ensures velData == old(velData) && velData.images == old(velData.images) && velImagePrefix == old(velImagePrefix)
      ensures validInput == old(validInput) && r != Ok(false)
      ensures r.Error? ==> old(update1) && update1 && update2 == old(update2) && numOfStepsRan == 1 && output == old(output)
      ensures r.Error? ==>
                Built(old(bloodVessels), old(intersections), true, branches, found, grown, orders, pts0, solve, sqrt)
      ensures r.Ok? && old(update1) ==>
                Built(old(bloodVessels), old(intersections), false, branches, found, grown, orders, pts0, solve, sqrt)
      ensures old(update1) ==> branches == Searched(CenterlineOf(clData)).branches
      ensures r == Ok(true) ==> !update1 && !update2
      ensures r == Ok(true) ==> numOfStepsRan == (if old(update1) then 2 else if old(update2) then 1 else 0)
      ensures r == Ok(true) && (old(update1) || old(update2)) ==>
                |est| == |splines| && output == Some(Emission(est, seq(|splines|, arrowsOf), uncertaintyLimit).0)
                && Lockstep(output.value)
                && forall k :: 0 <= k < |splines| ==>
                     est[k] == (splines[k].intersections.direction, splines[k].intersections.velocityLS)
      ensures r == Ok(true) && !old(update1) && !old(update2) ==> output == old(output)
      ensures r.Ok? && !old(update1) ==>
                splines == old(splines) && intersections == old(intersections) && bloodVessels == old(bloodVessels)
    {
      numOfStepsRan := 0;
      if update1 {
        r, est, branches, found, grown, orders, pts0 := BothSteps(arrowsOf, solve, sqrt);
        return;
      }
      est, branches, found, grown, orders, pts0 := [], [], [], [], [], [];
      if update2 {
        est := RunStep2(arrowsOf);
      }
      update2 := false;
      r := Ok(true);
    }

    /** calculate with update1 raised: step 1, then, when it succeeds, step 2 and the flags lowered. */
    method BothSteps(arrowsOf: int -> seq<Arrow>, solve: (seq<Triplet>, seq<real>) -> seq<real>, sqrt: real -> real)
      returns (r: Result<bool>, ghost est: seq<(real, real)>, ghost branches: seq<seq<Vec3>>,
               ghost found: seq<seq<Intersection<Spline3D>>>, ghost grown: seq<seq<Intersection<Spline3D>>>,
               ghost orders: seq<seq<seq<int>>>, ghost pts0: seq<Axes>)
      requires Valid() && IsFitterSolver(solve) && IsSqrt(sqrt) && update1
      modifies this
      ensures Valid()
      ensures Step1Inputs() == old(Step1Inputs()) && Step2Inputs() == old(Step2Inputs())
      ensures velData == old(velData) && velData.images == old(velData.images) && velImagePrefix == old(velImagePrefix)
      ensures validInput == old(validInput) && r != Ok(false)
      ensures r.Error? ==> update1 && update2 == old(update2) && numOfStepsRan == old(numOfStepsRan) + 1
      ensures r.Error? ==> output == old(output)
      ensures r.Error? ==>
                Built(old(bloodVessels), old(intersections), true, branches, found, grown, orders, pts0, solve, sqrt)
      ensures r.Ok? ==> r == Ok(true) && !update1 && !update2 && numOfStepsRan == old(numOfStepsRan) + 2
      ensures r.Ok? ==>
                Built(old(bloodVessels), old(intersections), false, branches, found, grown, orders, pts0, solve, sqrt)
      ensures r.Ok? ==>
                |est| == |splines| && output == Some(Emission(est, seq(|splines|, arrowsOf), uncertaintyLimit).0)
                && Lockstep(output.value)
                && forall k :: 0 <= k < |splines| ==>
                     est[k] == (splines[k].intersections.direction, splines[k].intersections.velocityLS)
      ensures branches == Searched(CenterlineOf(clData)).branches
    {
      est := [];
      var err;
      err, branches, found, grown, orders, pts0 := RunStep1(solve, sqrt);
      if err.Some? {
        r := Error(err.value);
        return;
      }
      est := Step2Kept(arrowsOf, old(bloodVessels), old(intersections), branches, found, grown, orders, pts0, solve, sqrt);
      r := Ok(true);
    }

    /** The end of step 2 and of calculate: counted, the output stored and the flags lowered. */
    method Finish(out: Arrows, ghost vessels0: int, ghost inters0: int,
                  ghost branches: seq<seq<Vec3>>, ghost found: seq<seq<Intersection<Spline3D>>>,
                  ghost grown: seq<seq<Intersection<Spline3D>>>, ghost orders: seq<seq<seq<int>>>,
                  ghost pts0: seq<Axes>, solve: (seq<Triplet>, seq<real>) -> seq<real>, sqrt: real -> real)
      requires Built(vessels0, inters0, false, branches, found, grown, orders, pts0, solve, sqrt)
      modifies this
      ensures Built(vessels0, inters0, false, branches, found, grown, orders, pts0, solve, sqrt)
      ensures output == Some(out) && !update1 && !update2 && numOfStepsRan == old(numOfStepsRan) + 1
      ensures Parameters() == old(Parameters()) && velData.images == old(velData.images)
      ensures splines == old(splines) && validInput == old(validInput)
    {
      numOfStepsRan, update1, update2, output := numOfStepsRan + 1, false, false, Some(out);
    }

    /**
     * Step 2 after a successful step 1 (counted, computeVtkPolyData through ComputeDone), and
     * the flags lowered: the splines stay Built.
     */
    method Step2Kept(arrowsOf: int -> seq<Arrow>, ghost vessels0: int, ghost inters0: int,
                     ghost branches: seq<seq<Vec3>>, ghost found: seq<seq<Intersection<Spline3D>>>,
                     ghost grown: seq<seq<Intersection<Spline3D>>>, ghost orders: seq<seq<seq<int>>>,
                     ghost pts0: seq<Axes>, solve: (seq<Triplet>, seq<real>) -> seq<real>, sqrt: real -> real)
      returns (ghost est: seq<(real, real)>)
      requires Valid() && Built(vessels0, inters0, false, branches, found, grown, orders, pts0, solve, sqrt)
      modifies this, set k | 0 <= k < |splines| :: splines[k].intersections
      ensures Valid()
      ensures Built(vessels0, inters0, false, branches, found, grown, orders, pts0, solve, sqrt)
      ensures Step1Inputs() == old(Step1Inputs()) && Step2Inputs() == old(Step2Inputs())
      ensures velData == old(velData) && velData.images == old(velData.images) && velImagePrefix == old(velImagePrefix)
      ensures validInput == old(validInput) && numOfStepsRan == old(numOfStepsRan) + 1
      ensures !update1 && !update2
      ensures |est| == |splines| && output == Some(Emission(est, seq(|splines|, arrowsOf), uncertaintyLimit).0)
      ensures Lockstep(output.value)
      ensures forall k :: 0 <= k < |splines| ==>
                est[k] == (splines[k].intersections.direction, splines[k].intersections.velocityLS)
    {
      var out;
      out, est := ComputeDone(splines, uncertaintyLimit, arrowsOf, pts0, velData.images, vnyq, cutoff, nConvolutions,
                              solve, sqrt, found, grown, orders);
      Finish(out, vessels0, inters0, branches, found, grown, orders, pts0, solve, sqrt);
    }
  }
}
