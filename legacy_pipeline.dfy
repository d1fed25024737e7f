// The free functions of the first version of the pipeline (angle_correction_impl.cpp at the
// top of the repository): angle_correction_impl on a centerline and frames already read,
// flowDirection with and without the arrow spacing, and their composition
// EstimateAngleCorrectedFlowDirection. The splines are the core Spline3D; the stages on each
// are the ones of module Stages.
module Legacy {
  import opened Helpers
  import opened Fitter
  import opened Frames
  import opened Intersections
  import opened Splines
  import opened Branching
  import opened Stages
  import opened Pipeline

  /** The reportError messages of angle_correction_impl and flowDirection, as the source spells them. */
  const NyquistMessage := "ERROR: vNyquist must be positive "
  const ConvolutionsMessage := "ERROR: nConvolutions must be positive "
  const LimitMessage := "ERROR: uncertainty_limit must be positive "
  const ArrowDistMessage := "ERROR: minArrowDist must be positive "

  /** The loop `spline.setTransform(true); spline.setAxis(1);` over the splines build returned. */
  method AlignAll(splines: seq<Spline3D>)
    modifies set k | 0 <= k < |splines| :: splines[k]
    ensures forall k :: 0 <= k < |splines| ==> splines[k].transform && splines[k].axis == 1
    ensures forall k :: 0 <= k < |splines| ==>
              splines[k].points == old(splines[k].points) && splines[k].cpoints == old(splines[k].cpoints)
              && splines[k].initialized == old(splines[k].initialized)
  {
    var i := 0;
    while i < |splines|
      invariant 0 <= i <= |splines|
      invariant forall k :: 0 <= k < i ==> splines[k].transform && splines[k].axis == 1
      invariant forall k :: 0 <= k < |splines| ==>
                  splines[k].points == old(splines[k].points) && splines[k].cpoints == old(splines[k].cpoints)
                  && splines[k].initialized == old(splines[k].initialized)
    {
      splines[i].SetTransform(true);
      splines[i].SetAxis(1);
      i := i + 1;
    }
  }

  /**
   * angle_correction_impl on a centerline and frames: the Nyquist velocity and the number of
   * convolutions are checked first, then build, the transform and axis set on every spline and
   * the stages on each. A failure of findAllIntersections throws, and the splines built are
   * lost with it; on success they are returned, every one Done from its branch's points.
   */
  method Impl(c: Centerline, images: seq<MetaImage>, vnyq: real, cutoff: real, n: int,
              solve: (seq<Triplet>, seq<real>) -> seq<real>, sqrt: real -> real)
    returns (r: Result<seq<Spline3D>>, ghost built: seq<Spline3D>, ghost branches: seq<seq<Vec3>>,
             ghost found: seq<seq<Intersection<Spline3D>>>, ghost grown: seq<seq<Intersection<Spline3D>>>,
             ghost orders: seq<seq<seq<int>>>, ghost pts0: seq<Axes>)
    requires WellFormed(c) && IsFitterSolver(solve) && IsSqrt(sqrt)
    requires forall i :: 0 <= i < |images| ==> images[i].Valid()
    ensures vnyq < 0.0 ==> r == Error(NyquistMessage)
    ensures 0.0 <= vnyq && n < 0 ==> r == Error(ConvolutionsMessage)
    ensures r.Ok? ==> r.value == built
    ensures 0.0 <= vnyq && 0 <= n ==>
              branches == Searched(c).branches
              && |built| == |LongBranches(branches)| && Distinct(built)
              && (forall k :: 0 <= k < |built| ==> fresh(built[k]) && fresh(built[k].intersections))
              && (forall b, k :: 0 <= b < |branches| && 0 <= k < |branches[b]| ==> branches[b][k] in c.points)
              && |pts0| == |built| && (forall k :: 0 <= k < |built| ==> pts0[k] == AxesOf(LongBranches(branches)[k]))
              && |found| <= |built| && |grown| == |found| && |orders| == |found|
              && Done(built, pts0, images, vnyq, cutoff, n, solve, sqrt, found, grown, orders)
    ensures 0.0 <= vnyq && 0 <= n && r.Ok? ==> |found| == |built|
    ensures 0.0 <= vnyq && 0 <= n && r.Error? ==>
              |found| < |built| && FailedOn(built[|found|], images, sqrt, Some(r.msg))
  {
    built, branches, found, grown, orders, pts0 := [], [], [], [], [], [];
    if vnyq < 0.0 {
      return Error(NyquistMessage), built, branches, found, grown, orders, pts0;
    }
    if n < 0 {
      return Error(ConvolutionsMessage), built, branches, found, grown, orders, pts0;
    }
    var splines;
    splines, branches := BuildSplines(c);
    built := splines;
    AlignAll(splines);
    pts0 := seq(|splines|, k requires 0 <= k < |splines| => AxesOf(LongBranches(branches)[k]));
    var err, count, processed;
    err, count, processed, found, grown, orders := RunStages(splines, pts0, images, vnyq, cutoff, n, solve, sqrt);
    if err.Some? {
      return Error(err.value), built, branches, found, grown, orders, pts0;
    }
    r := Ok(splines);
  }

  /** The arrows of every spline sampled with the given minimum spacing. */
  function Sampled(count: nat, arrowsOf: (int, real) -> seq<Arrow>, minArrowDist: real): (r: seq<seq<Arrow>>)
    ensures |r| == count && forall k :: 0 <= k < count ==> r[k] == arrowsOf(k, minArrowDist)
  {
    seq(count, k => arrowsOf(k, minArrowDist))
  }

  /**
   * flowDirection: a negative uncertainty limit or arrow spacing throws before anything is
   * read; otherwise the estimates of every spline (cached ones kept, missing ones computed and
   * cached) and the arrays of computeVtkPolyData's skip rule. The arrows of spline k at spacing
   * d are arrowsOf(k, d): the sampling loop that produces them is not modelled.
   */
  method FlowDirection(splines: seq<Spline3D>, limit: real, minArrowDist: real, arrowsOf: (int, real) -> seq<Arrow>)
    returns (r: Result<Arrows>, ghost est: seq<(real, real)>)
    requires Distinct(splines)
    modifies set k | 0 <= k < |splines| :: splines[k].intersections
    ensures limit < 0.0 ==> r == Error(LimitMessage)
    ensures 0.0 <= limit && minArrowDist < 0.0 ==> r == Error(ArrowDistMessage)
    ensures r.Ok? <==> 0.0 <= limit && 0.0 <= minArrowDist
    ensures r.Error? ==> forall k :: 0 <= k < |splines| ==> unchanged(splines[k].intersections)
    ensures r.Ok? ==>
              |est| == |splines| && r.value == Emission(est, Sampled(|splines|, arrowsOf, minArrowDist), limit).0
              && Lockstep(r.value)
    ensures r.Ok? ==> forall k :: 0 <= k < |splines| ==>
              est[k] == (splines[k].intersections.direction, splines[k].intersections.velocityLS)
              && splines[k].intersections.haveDirection && splines[k].intersections.haveVelocity
    ensures r.Ok? ==> forall k :: 0 <= k < |splines| && old(splines[k].intersections.haveDirection) ==>
              est[k].0 == old(splines[k].intersections.direction)
    ensures r.Ok? ==> forall k :: 0 <= k < |splines| && old(splines[k].intersections.haveVelocity) ==>
              est[k].1 == old(splines[k].intersections.velocityLS)
  {
    est := [];
    if limit < 0.0 {
      return Error(LimitMessage), est;
    }
    if minArrowDist < 0.0 {
      return Error(ArrowDistMessage), est;
    }
    var out;
    out, est := ComputeVtkPolyData(splines, limit, k => arrowsOf(k, minArrowDist));
    assert seq(|splines|, k => arrowsOf(k, minArrowDist)) == Sampled(|splines|, arrowsOf, minArrowDist);
    r := Ok(out);
  }

  /** flowDirection without a spacing: the arrows at least 1.0 apart. */
  method FlowDirectionDefault(splines: seq<Spline3D>, limit: real, arrowsOf: (int, real) -> seq<Arrow>)
    returns (r: Result<Arrows>, ghost est: seq<(real, real)>)
    requires Distinct(splines)
    modifies set k | 0 <= k < |splines| :: splines[k].intersections
    ensures r.Ok? <==> 0.0 <= limit
    ensures r.Error? ==> r == Error(LimitMessage)
                         && forall k :: 0 <= k < |splines| ==> unchanged(splines[k].intersections)
    ensures r.Ok? ==>
              |est| == |splines| && r.value == Emission(est, Sampled(|splines|, arrowsOf, 1.0), limit).0
              && Lockstep(r.value)
    ensures r.Ok? ==> forall k :: 0 <= k < |splines| ==>
              est[k] == (splines[k].intersections.direction, splines[k].intersections.velocityLS)
  {
    r, est := FlowDirection(splines, limit, 1.0, arrowsOf);
  }

  /**
   * EstimateAngleCorrectedFlowDirection on a centerline and frames: angle_correction_impl,
   * then flowDirection on the splines it returns. The checks of the first come before those
   * of the second, and a failure of either is the result.
   */
  method EstimateFlow(c: Centerline, images: seq<MetaImage>, vnyq: real, cutoff: real, n: int,
                      limit: real, minArrowDist: real, arrowsOf: (int, real) -> seq<Arrow>,
                      solve: (seq<Triplet>, seq<real>) -> seq<real>, sqrt: real -> real)
    returns (r: Result<Arrows>, ghost splines: seq<Spline3D>, ghost est: seq<(real, real)>)
    requires WellFormed(c) && IsFitterSolver(solve) && IsSqrt(sqrt)
    requires forall i :: 0 <= i < |images| ==> images[i].Valid()
    ensures vnyq < 0.0 ==> r == Error(NyquistMessage)
    ensures 0.0 <= vnyq && n < 0 ==> r == Error(ConvolutionsMessage)
    ensures r.Ok? ==> 0.0 <= vnyq && 0 <= n && 0.0 <= limit && 0.0 <= minArrowDist
    ensures r.Ok? ==>
              |est| == |splines| && r.value == Emission(est, Sampled(|splines|, arrowsOf, minArrowDist), limit).0
              && Lockstep(r.value)
    ensures r.Ok? ==> forall k :: 0 <= k < |splines| ==>
              est[k] == (splines[k].intersections.direction, splines[k].intersections.velocityLS)
  {
    est := [];
    var built;
    ghost var branches, found, grown, orders, pts0;
    built, splines, branches, found, grown, orders, pts0 := Impl(c, images, vnyq, cutoff, n, solve, sqrt);
    if built.Error? {
      return Error(built.msg), splines, est;
    }
    r, est := FlowDirection(built.value, limit, minArrowDist, arrowsOf);
  }
}
