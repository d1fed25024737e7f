// The per-spline stages both pipelines run after build (core/angle_correction_impl.cpp:228-268
// and angle_correction_impl.cpp:177-235): nConvolutions passes of the {0.25, 0.5, 0.25} mask,
// compute, findAllIntersections with the LS cutoff, region growing, the direction estimate,
// aliasing correction when Vnyq > 0 and the LS velocity. The state a spline is left in is the
// predicate Finished; both pipelines are proved to leave every spline in it.
module Stages {
  import opened Helpers
  import opened Curves
  import opened Fitter
  import opened Frames
  import opened Intersections
  import opened Splines

  /** The smoothing mask of both pipelines. */
  const Mask: seq<real> := [0.25, 0.5, 0.25]

  /** Points long enough for applyConvolution on every axis. */
  predicate Smoothable(points: Axes)
  {
    forall j :: 0 <= j < 3 ==> |points[j]| >= 2
  }

  /** The points after n passes of applyConvolution(Mask); no pass when n <= 0. */
  function Smoothed(points: Axes, n: int): (r: Axes)
    requires Smoothable(points)
    ensures Smoothable(r) && forall j :: 0 <= j < 3 ==> |r[j]| == |points[j]|
    decreases n
  {
    if n <= 0 then points
    else
      var p := Smoothed(points, n - 1);
      [Convolved(p[0], Mask), Convolved(p[1], Mask), Convolved(p[2], Mask)]
  }

  /** A constant axis stays constant under the mask, whose taps sum to one (ends: 2 * 0.25 + 0.5). */
  lemma {:induction false} SmoothingKeepsConstant(points: Axes, n: int, c: real, j: int)
    requires Smoothable(points) && 0 <= j < 3
    requires forall i :: 0 <= i < |points[j]| ==> points[j][i] == c
    ensures forall i :: 0 <= i < |points[j]| ==> Smoothed(points, n)[j][i] == c
    decreases n
  {
    if n > 0 {
      SmoothingKeepsConstant(points, n - 1, c, j);
    }
  }

  /**
   * The loop `for j < nConvolutions: applyConvolution({0.25, 0.5, 0.25})` on one spline: the
   * points smoothed n times, the fit stale after any pass, everything else kept.
   */
  method Smooth(s: Spline3D, n: int)
    requires Smoothable(s.points)
    modifies s
    ensures s.points == Smoothed(old(s.points), n)
    ensures n > 0 ==> !s.initialized
    ensures n <= 0 ==> s.initialized == old(s.initialized)
    ensures s.cpoints == old(s.cpoints)
    ensures s.transform == old(s.transform) && s.axis == old(s.axis)
  {
    var j := 0;
    while j < n
      invariant 0 <= j <= (if n > 0 then n else 0)
      invariant s.points == Smoothed(old(s.points), j)
      invariant j > 0 ==> !s.initialized
      invariant j == 0 ==> s.initialized == old(s.initialized)
      invariant s.cpoints == old(s.cpoints)
      invariant s.transform == old(s.transform) && s.axis == old(s.axis)
    {
      s.ApplyConvolution(Mask);
      j := j + 1;
    }
  }

  /**
   * The intersection set after region growing: estimateDirection (every member's average
   * fetched), correctAliasing against that direction only when Vnyq > 0, then
   * estimateVelocityLS. The result is the members, the direction and the LS velocity.
   */
  function Analysed<S>(grown: seq<Intersection<S>>, bigA: real, a: real, b: real, vnyq: real,
                       velA: real, velB: real): (seq<Intersection<S>>, real, real)
  {
    var averaged := Averaged(grown);
    var direction := DirectionOf(grown, bigA, a, b);
    var corrected := if vnyq > 0.0 then AllAliasCorrected(averaged, direction, vnyq) else averaged;
    (LsAveraged(corrected, velA, velB), direction, LsVelocity(corrected, velA, velB))
  }

  /**
   * What the stages promise: the direction is in [-1, 1] (A >= 0), the members keep their
   * number, and without aliasing correction (Vnyq <= 0) the LS velocity is the one of the
   * averaged members.
   */
  lemma AnalysedProperties<S>(grown: seq<Intersection<S>>, bigA: real, a: real, b: real, vnyq: real,
                              velA: real, velB: real)
    requires bigA >= 0.0
    ensures var r := Analysed(grown, bigA, a, b, vnyq, velA, velB);
            -1.0 <= r.1 <= 1.0 && |r.0| == |grown|
            && (vnyq <= 0.0 ==> r.2 == LsVelocity(Averaged(grown), velA, velB))
  {
    DirectionBounded(grown, bigA, a, b);
  }

  /** After smoothing and compute: the points smoothed n times from pts0, fitted by the solver. */
  ghost predicate Prepared(s: Spline3D, pts0: Axes, n: int, solve: (seq<Triplet>, seq<real>) -> seq<real>)
    reads s
  {
    Smoothable(pts0) && s.points == Smoothed(pts0, n)
    && (forall j :: 0 <= j < 3 ==> s.cpoints[j] == solve(SystemTriplets(|s.points[j]|), SystemRhs(s.points[j])))
    && s.Ready() && s.transform && s.axis == 1
  }

  /** found is what findAllIntersections keeps with the frames, and no frame failed. */
  ghost predicate FoundAll(s: Spline3D, images: seq<MetaImage>, sqrt: real -> real, found: seq<Intersection<Spline3D>>)
    reads s, images
  {
    s.Ready() && 0 <= s.axis < 4 && IsSqrt(sqrt)
    && Keep(s.Results(images, sqrt)) == (found, None)
    && forall k :: 0 <= k < |found| ==>
         found[k].image in images && found[k].spline == Some(s) && Growable(found[k])
  }

  /** grown is found after regionGrow, member by member, with the regions in orders. */
  ghost predicate GrewAll(s: Spline3D, images: seq<MetaImage>, found: seq<Intersection<Spline3D>>,
                          grown: seq<Intersection<Spline3D>>, orders: seq<seq<int>>)
    reads s, images
  {
    |grown| == |found| && |orders| == |found|
    && forall k :: 0 <= k < |found| ==>
         found[k].image in images && found[k].spline == Some(s) && Growable(found[k])
         && Grew(found[k], grown[k], orders[k])
  }

  /** The set after the estimation stages on the grown members, with LS cutoff (cutoff, 1.0). */
  ghost predicate Estimated(xs: IntersectionSet<Spline3D>, grown: seq<Intersection<Spline3D>>, vnyq: real, cutoff: real)
    reads xs
  {
    (xs.items, xs.direction, xs.velocityLS) == Analysed(grown, xs.dirBigA, xs.dirA, xs.dirB, vnyq, cutoff, 1.0)
    && xs.haveDirection && xs.haveVelocity && xs.velA == cutoff && xs.velB == 1.0
  }

  /**
   * The state the stages leave a spline in, from the points pts0 it had after build:
   * smoothed n times, fitted by the solver and initialized; the found intersections are
   * findAllIntersections' result with the frames, each grown (grown, with the regions in
   * orders) and then analysed; the LS cutoff is (cutoff, 1.0).
   */
  ghost predicate Finished(s: Spline3D, pts0: Axes, images: seq<MetaImage>, vnyq: real, cutoff: real,
                           n: int, solve: (seq<Triplet>, seq<real>) -> seq<real>, sqrt: real -> real,
                           found: seq<Intersection<Spline3D>>, grown: seq<Intersection<Spline3D>>,
                           orders: seq<seq<int>>)
    reads s, s.intersections, images
  {
    Prepared(s, pts0, n, solve) && FoundAll(s, images, sqrt, found) && GrewAll(s, images, found, grown, orders)
    && Estimated(s.intersections, grown, vnyq, cutoff)
  }

  /**
   * The splines ss are Finished as far as the stage results go: spline k from the points ps[k]
   * with the results found[k], grown[k] and orders[k], for every k < |found|. Recursive on the
   * front, so that each spline is added in front of the ones after it.
   */
  ghost predicate Done(ss: seq<Spline3D>, ps: seq<Axes>, images: seq<MetaImage>, vnyq: real, cutoff: real,
                       n: int, solve: (seq<Triplet>, seq<real>) -> seq<real>, sqrt: real -> real,
                       found: seq<seq<Intersection<Spline3D>>>, grown: seq<seq<Intersection<Spline3D>>>,
                       orders: seq<seq<seq<int>>>)
    requires |found| <= |ss| && |found| <= |ps| && |grown| == |found| && |orders| == |found|
    reads set k | 0 <= k < |found| :: ss[k]
    reads set k | 0 <= k < |found| :: ss[k].intersections
    reads images
  {
    forall k {:trigger Finished(ss[k], ps[k], images, vnyq, cutoff, n, solve, sqrt, found[k], grown[k], orders[k])}
      :: 0 <= k < |found| ==>
           Finished(ss[k], ps[k], images, vnyq, cutoff, n, solve, sqrt, found[k], grown[k], orders[k])
  }

  /** One Finished spline: the splines ss are Done with its results alone. */
  lemma DoneOne(ss: seq<Spline3D>, ps: seq<Axes>, images: seq<MetaImage>, vnyq: real, cutoff: real,
                n: int, solve: (seq<Triplet>, seq<real>) -> seq<real>, sqrt: real -> real,
                f: seq<Intersection<Spline3D>>, g: seq<Intersection<Spline3D>>, o: seq<seq<int>>)
    requires 0 < |ss| && |ps| == |ss|
    requires Finished(ss[0], ps[0], images, vnyq, cutoff, n, solve, sqrt, f, g, o)
    ensures Done(ss, ps, images, vnyq, cutoff, n, solve, sqrt, [f], [g], [o])
  {
    assert Finished(ss[0], ps[0], images, vnyq, cutoff, n, solve, sqrt, f, g, o)
        == Finished(ss[0], ps[0], images, vnyq, cutoff, n, solve, sqrt, [f][0], [g][0], [o][0]);
  }

  /** A Done first spline in front of Done ones. */
  lemma DoneCons(ss: seq<Spline3D>, ps: seq<Axes>, images: seq<MetaImage>, vnyq: real, cutoff: real,
                 n: int, solve: (seq<Triplet>, seq<real>) -> seq<real>, sqrt: real -> real,
                 f: seq<Intersection<Spline3D>>, g: seq<Intersection<Spline3D>>, o: seq<seq<int>>,
                 found: seq<seq<Intersection<Spline3D>>>, grown: seq<seq<Intersection<Spline3D>>>,
                 orders: seq<seq<seq<int>>>)
    requires 0 < |ss| && |ps| == |ss| && |found| < |ss| && |grown| == |found| && |orders| == |found|
    requires Done(ss, ps, images, vnyq, cutoff, n, solve, sqrt, [f], [g], [o])
    requires Done(ss[1..], ps[1..], images, vnyq, cutoff, n, solve, sqrt, found, grown, orders)
    ensures Done(ss, ps, images, vnyq, cutoff, n, solve, sqrt, [f] + found, [g] + grown, [o] + orders)
  {
    assert Finished(ss[0], ps[0], images, vnyq, cutoff, n, solve, sqrt, ([f] + found)[0], ([g] + grown)[0], ([o] + orders)[0])
        == Finished(ss[0], ps[0], images, vnyq, cutoff, n, solve, sqrt, [f][0], [g][0], [o][0]);
    ShiftedFinished(ss, ps, images, vnyq, cutoff, n, solve, sqrt, f, g, o, found, grown, orders);
  }

  /** Spline k of ss with the results consed on is spline k - 1 of ss[1..] with the results. */
  lemma ShiftedFinished(ss: seq<Spline3D>, ps: seq<Axes>, images: seq<MetaImage>, vnyq: real, cutoff: real,
                        n: int, solve: (seq<Triplet>, seq<real>) -> seq<real>, sqrt: real -> real,
                        f: seq<Intersection<Spline3D>>, g: seq<Intersection<Spline3D>>, o: seq<seq<int>>,
                        found: seq<seq<Intersection<Spline3D>>>, grown: seq<seq<Intersection<Spline3D>>>,
                        orders: seq<seq<seq<int>>>)
    requires |found| < |ss| && |ps| == |ss| && |grown| == |found| && |orders| == |found|
    ensures forall k :: 0 < k <= |found| ==>
              Finished(ss[k], ps[k], images, vnyq, cutoff, n, solve, sqrt,
                       ([f] + found)[k], ([g] + grown)[k], ([o] + orders)[k])
              == Finished(ss[1..][k - 1], ps[1..][k - 1], images, vnyq, cutoff, n, solve, sqrt,
                          found[k - 1], grown[k - 1], orders[k - 1])
  {
    forall k | 0 < k <= |found|
      ensures Finished(ss[k], ps[k], images, vnyq, cutoff, n, solve, sqrt,
                       ([f] + found)[k], ([g] + grown)[k], ([o] + orders)[k])
           == Finished(ss[1..][k - 1], ps[1..][k - 1], images, vnyq, cutoff, n, solve, sqrt,
                       found[k - 1], grown[k - 1], orders[k - 1])
    {
      assert ss[1..][k - 1] == ss[k] && ps[1..][k - 1] == ps[k];
      assert ([f] + found)[k] == found[k - 1] && ([g] + grown)[k] == grown[k - 1] && ([o] + orders)[k] == orders[k - 1];
    }
  }

  /** findAllIntersections failed on s: s was ready, and err is the failure of its frame results. */
  ghost predicate FailedOn(s: Spline3D, images: seq<MetaImage>, sqrt: real -> real, err: Option<string>)
    reads s, images
  {
    s.Ready() && 0 <= s.axis < 4 && IsSqrt(sqrt) && err == Keep(s.Results(images, sqrt)).1
  }

  /** Smoothing and compute on one spline. */
  method Prepare(s: Spline3D, n: int, solve: (seq<Triplet>, seq<real>) -> seq<real>)
    requires Smoothable(s.points) && SameLength(s.points) && s.transform && s.axis == 1
    requires IsFitterSolver(solve)
    modifies s
    ensures Prepared(s, old(s.points), n, solve)
  {
    Smooth(s, n);
    s.Compute(solve);
  }

  /** findAllIntersections and setVelocityEstimationCutoff(cutoff, 1.0) on a prepared spline. */
  method Find(s: Spline3D, images: seq<MetaImage>, cutoff: real, sqrt: real -> real)
    returns (err: Option<string>, ghost found: seq<Intersection<Spline3D>>)
    requires s.Ready() && s.axis == 1 && IsSqrt(sqrt) && s.intersections.items == []
    requires forall i :: 0 <= i < |images| ==> images[i].Valid()
    modifies s.intersections
    ensures s.intersections.dirBigA == old(s.intersections.dirBigA)
    ensures s.intersections.dirA == old(s.intersections.dirA) && s.intersections.dirB == old(s.intersections.dirB)
    ensures err == Keep(s.Results(images, sqrt)).1
    ensures err.None? ==> FoundAll(s, images, sqrt, found) && s.intersections.items == found
    ensures err.None? ==> s.intersections.velA == cutoff && s.intersections.velB == 1.0
    ensures err.None? ==> forall k :: 0 <= k < |found| ==> !Throws(found[k])
  {
    found := [];
    err := s.FindAllIntersections(images, sqrt);
    if err.Some? {
      return;
    }
    found := s.intersections.items;
    assert found == Keep(s.Results(images, sqrt)).0;
    FoundAllHolds(s, images, sqrt);
    s.intersections.SetVelocityEstimationCutoff(cutoff, 1.0);
  }

  /** What findAllIntersections keeps, when no frame fails, is ready to grow and never throws. */
  lemma FoundAllHolds(s: Spline3D, images: seq<MetaImage>, sqrt: real -> real)
    requires s.Ready() && s.axis == 1 && IsSqrt(sqrt)
    requires forall i :: 0 <= i < |images| ==> images[i].Valid()
    requires Keep(s.Results(images, sqrt)).1.None?
    ensures FoundAll(s, images, sqrt, Keep(s.Results(images, sqrt)).0)
    ensures forall x :: x in Keep(s.Results(images, sqrt)).0 ==> !Throws(x)
  {
    var found := Keep(s.Results(images, sqrt)).0;
    s.FoundSound(images, sqrt);
    forall k | 0 <= k < |found|
      ensures found[k].image in images && found[k].spline == Some(s) && Growable(found[k])
    {
      assert found[k] in found;
    }
  }

  /** estimateDirection, correctAliasing(Vnyq) only when Vnyq > 0, estimateVelocityLS. */
  method Estimate(xs: IntersectionSet<Spline3D>, vnyq: real)
    modifies xs
    ensures (xs.items, xs.direction, xs.velocityLS)
              == Analysed(old(xs.items), xs.dirBigA, xs.dirA, xs.dirB, vnyq, xs.velA, xs.velB)
    ensures xs.haveDirection && xs.haveVelocity
    ensures xs.dirBigA == old(xs.dirBigA) && xs.dirA == old(xs.dirA) && xs.dirB == old(xs.dirB)
    ensures xs.velA == old(xs.velA) && xs.velB == old(xs.velB)
  {
    xs.EstimateDirection();
    if vnyq > 0.0 {
      xs.CorrectAliasing(vnyq);
    }
    xs.EstimateVelocityLS();
  }

  /**
   * The stages on one spline, in the core pipeline's order. The count is the size of the
   * intersection set after findAllIntersections (what calculate adds to mIntersections). A
   * failure of findAllIntersections (reportError throws) stops the stages there.
   */
  method Process(s: Spline3D, images: seq<MetaImage>, vnyq: real, cutoff: real, n: int,
                 solve: (seq<Triplet>, seq<real>) -> seq<real>, sqrt: real -> real)
    returns (err: Option<string>, count: nat, ghost found: seq<Intersection<Spline3D>>,
             ghost grown: seq<Intersection<Spline3D>>, ghost orders: seq<seq<int>>)
    requires Smoothable(s.points) && SameLength(s.points) && s.transform && s.axis == 1
    requires s.intersections.items == []
    requires IsFitterSolver(solve) && IsSqrt(sqrt)
    requires forall i :: 0 <= i < |images| ==> images[i].Valid()
    modifies s, s.intersections
    ensures err.None? ==> count == |found|
    ensures err.None? ==> Finished(s, old(s.points), images, vnyq, cutoff, n, solve, sqrt, found, grown, orders)
    ensures err.Some? ==> FailedOn(s, images, sqrt, err)
  {
    var xs := s.intersections;
    ghost var pts0 := s.points;
    Prepare(s, n, solve);
    grown, orders, count := [], [], 0;
    err, found := Find(s, images, cutoff, sqrt);
    assert Prepared(s, pts0, n, solve);
    if err.None? {
      count := |xs.items|;
      grown, orders := GrowAndEstimate(s, images, vnyq, cutoff, sqrt, found);
    }
  }

  /** regionGrow and the estimation stages on the intersections findAllIntersections kept. */
  method GrowAndEstimate(s: Spline3D, images: seq<MetaImage>, vnyq: real, cutoff: real, sqrt: real -> real,
                         ghost found: seq<Intersection<Spline3D>>)
    returns (ghost grown: seq<Intersection<Spline3D>>, ghost orders: seq<seq<int>>)
    requires FoundAll(s, images, sqrt, found) && s.intersections.items == found
    requires forall k :: 0 <= k < |found| ==> !Throws(found[k])
    requires s.intersections.velA == cutoff && s.intersections.velB == 1.0
    modifies s.intersections
    ensures GrewAll(s, images, found, grown, orders) && Estimated(s.intersections, grown, vnyq, cutoff)
  {
    grown, orders := GrowFound(s, images, sqrt, found);
    Estimate(s.intersections, vnyq);
  }

  /** regionGrow on the intersections findAllIntersections kept, none of which throws. */
  method GrowFound(s: Spline3D, images: seq<MetaImage>, sqrt: real -> real, ghost found: seq<Intersection<Spline3D>>)
    returns (ghost grown: seq<Intersection<Spline3D>>, ghost orders: seq<seq<int>>)
    requires FoundAll(s, images, sqrt, found) && s.intersections.items == found
    requires forall k :: 0 <= k < |found| ==> !Throws(found[k])
    modifies s.intersections
    ensures GrewAll(s, images, found, grown, orders) && s.intersections.items == grown
    ensures s.intersections.Settings() == old(s.intersections.Settings())
  {
    var e;
    e, orders := GrowIntersections(s);
    assert e.None?;
    grown := s.intersections.items;
  }
}
