// The quadratic 3-D B-spline of core/lib/spline3d.hpp: the interpolation points and control
// points of the three axes, the initialized lifecycle, smoothing, fitting, evaluation, the
// plane intersection and the crossings with a set of frames, and the branch builder that cuts
// a centerline graph into splines. A Spline3D is updated in place, so it is a class; its
// closed-form parts (evaluation, root finding, the cosine) are functions on its fields and on
// the pure pieces of the Curves module.
module Splines {
  import opened Helpers
  import opened Matrices
  import opened Planes
  import opened Curves
  import opened Fitter
  import opened Frames
  import opened Graph
  import opened Intersections

  /** Three coordinate vectors: m_points[3] and m_cpoints[3]. */
  type Axes = s: seq<seq<real>> | |s| == 3 witness [[], [], []]

  function Zeros(n: nat): (r: seq<real>)
    ensures |r| == n && forall i :: 0 <= i < n ==> r[i] == 0.0
  {
    seq(n, _ => 0.0)
  }

  /** All three axes hold the same number of values. */
  predicate SameLength(points: Axes)
  {
    |points[1]| == |points[0]| && |points[2]| == |points[0]|
  }

  /** Interpolation point i: coordinate i of each axis (the pt[3] that intersect fills). */
  function PointOf(points: Axes, i: int): (p: Vec3)
    requires SameLength(points) && 0 <= i < |points[0]|
    ensures forall j :: 0 <= j < 3 ==> p[j] == points[j][i]
  {
    [points[0][i], points[1][i], points[2][i]]
  }

  // ---- evaluation ----

  /**
   * evaluateSingle on three axes of control points, before its initialization check: the
   * basis on the window that t falls in, or None when that window would read outside the
   * control points.
   */
  function EvaluateAt(cps: Axes, t: real): (r: Option<Vec3>)
    ensures r.Some? <==> AxesHaveWindow(cps, Locate(t).pos)
    ensures r.Some? <==> forall j :: 0 <= j < 3 ==> Evaluate(cps[j], t).Some?
    ensures r.Some? ==> forall j :: 0 <= j < 3 ==> Evaluate(cps[j], t) == Some(r.value[j])
  {
    var l := Locate(t);
    if AxesHaveWindow(cps, l.pos) then Some(PointAt(cps, l.pos, l.s)) else None
  }

  /** derivativeSingle on three axes: the slope of the same window. */
  function DerivativeAt(cps: Axes, t: real): (r: Option<Vec3>)
    ensures r.Some? <==> AxesHaveWindow(cps, Locate(t).pos)
    ensures r.Some? ==> forall j :: 0 <= j < 3 ==> EvaluateDerivative(cps[j], t) == Some(r.value[j])
  {
    var l := Locate(t);
    if AxesHaveWindow(cps, l.pos)
    then Some([Derivative(cps[0], l.pos, l.s), Derivative(cps[1], l.pos, l.s), Derivative(cps[2], l.pos, l.s)])
    else None
  }

  /** Control points that solve the fitter system of their axis, on every axis. */
  predicate FitsPoints(points: Axes, cps: Axes)
  {
    forall j :: 0 <= j < 3 ==> IsSolution(SystemTriplets(|points[j]|), SystemRhs(points[j]), cps[j])
  }

  /**
   * A spline fitted to its points passes through every one of them: at integer parameter k
   * the curve is interpolation point k.
   */
  lemma SplineInterpolates(points: Axes, cps: Axes, k: int)
    requires SameLength(points) && FitsPoints(points, cps) && 0 <= k < |points[0]|
    ensures EvaluateAt(cps, k as real) == Some(PointOf(points, k))
  {
    SolutionInterpolates(points[0], cps[0], k);
    SolutionInterpolates(points[1], cps[1], k);
    SolutionInterpolates(points[2], cps[2], k);
  }

  /**
   * With n interpolation points and n + 2 control points per axis, both evaluations are
   * defined on -0.5 <= t < n - 0.5, which holds the whole parameter range 0 <= t <= n - 1.
   */
  lemma EvaluationDefined(cps: Axes, n: nat, t: real)
    requires forall j :: 0 <= j < 3 ==> |cps[j]| == n + 2
    requires -0.5 <= t < n as real - 0.5
    ensures EvaluateAt(cps, t).Some? && DerivativeAt(cps, t).Some?
  {
    EvaluateInRange(cps[0], n, t);
  }

  // ---- the plane intersection ----

  /** The side of the plane interpolation point i lies on: sgn of its distance. */
  function Side(points: Axes, plane: Plane3D, i: int): int
    requires SameLength(points) && 0 <= i < |points[0]|
  {
    Sgn(GetDistance(plane, PointOf(points, i)))
  }

  /** The scan of intersect from index i on: the first i - 1 whose side differs from i's, or -1. */
  function SignChange(points: Axes, plane: Plane3D, i: int): int
    requires SameLength(points) && 1 <= i
    decreases |points[0]| - i
  {
    if i >= |points[0]| then -1
    else if Side(points, plane, i - 1) != Side(points, plane, i) then i - 1
    else SignChange(points, plane, i + 1)
  }

  /**
   * The scan reports -1 exactly when every point from i - 1 on is on the side of point i - 1;
   * otherwise it reports the first pair that changes side.
   */
  lemma {:induction false} SignChangeSpec(points: Axes, plane: Plane3D, i: int)
    requires SameLength(points) && 1 <= i <= |points[0]|
    ensures SignChange(points, plane, i) == -1
        <==> forall k :: i <= k < |points[0]| ==> Side(points, plane, k) == Side(points, plane, i - 1)
    ensures SignChange(points, plane, i) != -1 ==>
              var r := SignChange(points, plane, i);
              i - 1 <= r && r + 1 < |points[0]|
              && Side(points, plane, r) != Side(points, plane, r + 1)
              && forall k :: i - 1 <= k <= r ==> Side(points, plane, k) == Side(points, plane, i - 1)
    decreases |points[0]| - i
  {
    if i < |points[0]| && Side(points, plane, i - 1) == Side(points, plane, i) {
      SignChangeSpec(points, plane, i + 1);
    }
  }

  /** The bracket intersect finds: a pair of neighbouring points on different sides, or -1. */
  function Bracket(points: Axes, plane: Plane3D): int
    requires SameLength(points) && |points[0]| >= 1
  {
    SignChange(points, plane, 1)
  }

  /** A curve/plane crossing: the parameter t and the curve point there. */
  datatype Crossing = NoCrossing | Crossing(t: real, point: Vec3)

  /** What findRoots(p) reports: the roots in [0, 1] of the plane distance on window p + 1. */
  function RootsOnWindow(cps: Axes, plane: Plane3D, p: int, sqrt: real -> real): (r: seq<real>)
    requires IsSqrt(sqrt) && AxesHaveWindow(cps, p + 1)
    ensures |r| <= 2 && forall k :: 0 <= k < |r| ==> InUnit(r[k])
    ensures Discriminant(PlaneQuadratic(cps, plane, p)) < -0.01 ==> r == []
    ensures Discriminant(PlaneQuadratic(cps, plane, p)) >= 0.0 ==>
              forall k :: 0 <= k < |r| ==> GetDistance(plane, PointAt(cps, p + 1, r[k])) == 0.0
  {
    RootsOnPlane(cps, plane, p, sqrt);
    Roots(PlaneQuadratic(cps, plane, p), sqrt)
  }

  lemma RootsOnPlane(cps: Axes, plane: Plane3D, p: int, sqrt: real -> real)
    requires IsSqrt(sqrt) && AxesHaveWindow(cps, p + 1)
    ensures Discriminant(PlaneQuadratic(cps, plane, p)) >= 0.0 ==>
              forall k :: 0 <= k < |Roots(PlaneQuadratic(cps, plane, p), sqrt)| ==>
                GetDistance(plane, PointAt(cps, p + 1, Roots(PlaneQuadratic(cps, plane, p), sqrt)[k])) == 0.0
  {
    var q := PlaneQuadratic(cps, plane, p);
    if Discriminant(q) >= 0.0 {
      RootsAreRoots(q, sqrt);
      forall k | 0 <= k < |Roots(q, sqrt)|
        ensures GetDistance(plane, PointAt(cps, p + 1, Roots(q, sqrt)[k])) == 0.0
      {
        PlaneQuadraticIsDistance(cps, plane, p, Roots(q, sqrt)[k]);
      }
    }
  }

  /**
   * Every crossing of window p + 1 with the plane inside [0, 1] is reported, provided the
   * quadratic is a true quadratic (a != 0; the source divides by 2a).
   */
  lemma RootsOnWindowComplete(cps: Axes, plane: Plane3D, p: int, sqrt: real -> real, s: real)
    requires IsSqrt(sqrt) && AxesHaveWindow(cps, p + 1)
    requires PlaneQuadratic(cps, plane, p).a != 0.0 && InUnit(s)
    requires GetDistance(plane, PointAt(cps, p + 1, s)) == 0.0
    ensures s in RootsOnWindow(cps, plane, p, sqrt)
  {
    PlaneQuadraticIsDistance(cps, plane, p, s);
    RootsComplete(PlaneQuadratic(cps, plane, p), sqrt, s);
  }

  /** The state intersect needs: fitted, equal axes, at least one point, n + 2 control points. */
  predicate Fitted(points: Axes, cps: Axes)
  {
    SameLength(points) && |points[0]| >= 1
    && forall j :: 0 <= j < 3 ==> |cps[j]| == |points[0]| + 2
  }

  /**
   * intersect on the values it reads: the sign scan, findRoots on the bracket and, when that
   * finds nothing, on the next window; t = first root + window start - 0.5 and the point is
   * the curve there. Evaluating reads outside the control points only when the retried window
   * is the last one and its root is exactly 1; the source's behaviour is undefined there, here
   * it is an Error.
   */
  function IntersectAt(points: Axes, cps: Axes, plane: Plane3D, sqrt: real -> real): Result<Crossing>
    requires Fitted(points, cps) && IsSqrt(sqrt)
  {
    var pos := Bracket(points, plane);
    if pos == -1 then Ok(NoCrossing)
    else
      SignChangeSpec(points, plane, 1);
      var (p, roots) := RetriedRoots(cps, plane, pos, sqrt);
      if roots == [] then Ok(NoCrossing)
      else CrossingAtParam(cps, roots[0] + p as real - 0.5)
  }

  /** findRoots on window pos + 1 and, when that finds nothing, on window pos + 2. */
  function RetriedRoots(cps: Axes, plane: Plane3D, pos: int, sqrt: real -> real): (int, seq<real>)
    requires IsSqrt(sqrt) && AxesHaveWindow(cps, pos + 1) && AxesHaveWindow(cps, pos + 2)
  {
    var first := RootsOnWindow(cps, plane, pos, sqrt);
    if first == [] then (pos + 1, RootsOnWindow(cps, plane, pos + 1, sqrt)) else (pos, first)
  }

  /** The crossing reported at parameter t: the curve point there, or the index error. */
  function CrossingAtParam(cps: Axes, t: real): Result<Crossing>
  {
    match EvaluateAt(cps, t)
    case None => Error("control point index out of range")
    case Some(pt) => Ok(Crossing(t, pt))
  }

  /** When every point is on the side of the first one, intersect finds nothing. */
  lemma OneSidedNoCrossing(points: Axes, cps: Axes, plane: Plane3D, sqrt: real -> real)
    requires Fitted(points, cps) && IsSqrt(sqrt)
    requires forall k :: 0 <= k < |points[0]| ==> Side(points, plane, k) == Side(points, plane, 0)
    ensures IntersectAt(points, cps, plane, sqrt) == Ok(NoCrossing)
  {
    SignChangeSpec(points, plane, 1);
  }

  /** Against the zero plane every distance is 0, so no sign change and no crossing. */
  lemma ZeroPlaneNoCrossing(points: Axes, cps: Axes, sqrt: real -> real)
    requires Fitted(points, cps) && IsSqrt(sqrt)
    ensures IntersectAt(points, cps, ZeroPlane(), sqrt) == Ok(NoCrossing)
  {
    OneSidedNoCrossing(points, cps, ZeroPlane(), sqrt);
  }

  /**
   * A reported crossing lies on the curve, within the bracket's two windows (bracket - 0.5 <=
   * t <= bracket + 1.5), and on the plane whenever the discriminants are not negative (the
   * -0.01 clamp can otherwise move a double root off the plane).
   */
  lemma CrossingOnPlane(points: Axes, cps: Axes, plane: Plane3D, sqrt: real -> real, t: real, pt: Vec3)
    requires Fitted(points, cps) && IsSqrt(sqrt)
    requires IntersectAt(points, cps, plane, sqrt) == Ok(Crossing(t, pt))
    requires forall p :: 0 <= p < |points[0]| ==> Discriminant(PlaneQuadratic(cps, plane, p)) >= 0.0
    ensures EvaluateAt(cps, t) == Some(pt)
    ensures Bracket(points, plane) != -1
    ensures Bracket(points, plane) as real - 0.5 <= t <= Bracket(points, plane) as real + 1.5
    ensures GetDistance(plane, pt) == 0.0
  {
    var p, r := CrossingRoot(points, cps, plane, sqrt, t, pt);
    LocatedRoot(cps, p, r, t);
  }

  /** The root behind a reported crossing: root r of window p + 1, with p the bracket or the next. */
  lemma CrossingRoot(points: Axes, cps: Axes, plane: Plane3D, sqrt: real -> real, t: real, pt: Vec3)
    returns (p: int, r: real)
    requires Fitted(points, cps) && IsSqrt(sqrt)
    requires IntersectAt(points, cps, plane, sqrt) == Ok(Crossing(t, pt))
    ensures Bracket(points, plane) != -1
    ensures p == Bracket(points, plane) || p == Bracket(points, plane) + 1
    ensures 0 <= p < |points[0]| && AxesHaveWindow(cps, p + 1) && InUnit(r) && t == r + p as real - 0.5
    ensures Discriminant(PlaneQuadratic(cps, plane, p)) >= 0.0 ==> GetDistance(plane, PointAt(cps, p + 1, r)) == 0.0
    ensures EvaluateAt(cps, t) == Some(pt) && AxesHaveWindow(cps, Locate(t).pos)
    ensures pt == PointAt(cps, Locate(t).pos, Locate(t).s)
  {
    var pos := Bracket(points, plane);
    SignChangeSpec(points, plane, 1);
    var roots;
    p, roots := RetriedRoots(cps, plane, pos, sqrt).0, RetriedRoots(cps, plane, pos, sqrt).1;
    assert roots == RootsOnWindow(cps, plane, p, sqrt);
    r := roots[0];
  }

  /** The located window of t = r + p - 0.5 holds the same point as window p + 1 at r. */
  lemma LocatedRoot(cps: Axes, p: int, r: real, t: real)
    requires AxesHaveWindow(cps, p + 1) && InUnit(r) && t == r + p as real - 0.5
    requires AxesHaveWindow(cps, Locate(t).pos)
    ensures PointAt(cps, Locate(t).pos, Locate(t).s) == PointAt(cps, p + 1, r)
  {
    var l := Locate(t);
    assert l.pos as real + l.s == r + (p + 1) as real;
    if r < 1.0 {
      assert Trunc(t + 1.5) == p + 1;
      assert l == Location(p + 1, r);
    } else {
      assert r == 1.0;
      assert Trunc(t + 1.5) == p + 2;
      assert l == Location(p + 2, 0.0);
      WindowsMeet(cps[0], p + 1);
      WindowsMeet(cps[1], p + 1);
      WindowsMeet(cps[2], p + 1);
    }
  }

  // ---- cos(theta) ----

  /** The beam axis of findIntersection: minus column `axis` of the pose, or minus row `axis`. */
  function BeamAxis(m: Matrix4, transform: bool, axis: int): (v: Vec3)
    requires 0 <= axis < 4
    ensures transform ==> forall i :: 0 <= i < 3 ==> v[i] == -m[i][axis]
    ensures !transform ==> forall i :: 0 <= i < 3 ==> v[i] == -m[axis][i]
  {
    if transform then [-m[0][axis], -m[1][axis], -m[2][axis]]
    else [-m[axis][0], -m[axis][1], -m[axis][2]]
  }

  /**
   * cos(theta) = innerProduct(deriv, axis) / (length3d(axis) * length3d(deriv)). The source
   * divides by zero when either vector is zero; here that cosine is 0. It is a cosine: it lies
   * in [-1, 1].
   */
  function Cosine(deriv: Vec3, axis: Vec3, sqrt: real -> real): (r: real)
    requires IsSqrt(sqrt)
    ensures -1.0 <= r <= 1.0
    ensures IsZero(deriv) || IsZero(axis) ==> r == 0.0
    ensures !IsZero(deriv) && !IsZero(axis) ==>
              r * (Length3d(axis, sqrt) * Length3d(deriv, sqrt)) == InnerProduct(deriv, axis)
  {
    var ly := Length3d(axis, sqrt);
    var ld := Length3d(deriv, sqrt);
    var ip := InnerProduct(deriv, axis);
    if ly * ld == 0.0 then
      ZeroLengthProduct(ly, ld);
      0.0
    else
      CosineBounded(deriv, axis, ly, ld);
      var r := ip / (ly * ld);
      assert r * (ly * ld) == ip;
      r
  }

  lemma ZeroLengthProduct(x: real, y: real)
    requires x >= 0.0 && y >= 0.0 && x * y == 0.0
    ensures x == 0.0 || y == 0.0
  {
    if x > 0.0 && y > 0.0 {
      MulPositive(x, y);
    }
  }

  /** Cauchy-Schwarz in the form the cosine needs: |<d, y>| <= |y| |d|. */
  lemma CosineBounded(d: Vec3, y: Vec3, ly: real, ld: real)
    requires ly >= 0.0 && ld >= 0.0 && ly * ly == InnerProduct(y, y) && ld * ld == InnerProduct(d, d)
    requires ly * ld != 0.0
    ensures -1.0 <= InnerProduct(d, y) / (ly * ld) <= 1.0
  {
    var l := ly * ld;
    var ip := InnerProduct(d, y);
    CauchySchwarz(d, y);
    assert (ly * ld) * (ly * ld) == (ld * ld) * (ly * ly);
    assert ip * ip <= l * l;
    if ly > 0.0 && ld > 0.0 {
      MulPositive(ly, ld);
    }
    BoundFromSquares(ip, l);
    DivideBounds(ip, l, -1.0, 1.0);
  }

  lemma BoundFromSquares(x: real, l: real)
    requires l > 0.0 && x * x <= l * l
    ensures -l <= x <= l
  {
    assert x * x - l * l == (x - l) * (x + l);
    if x > l {
      MulPositive(x - l, x + l);
    } else if x < -l {
      assert (l - x) * (-x - l) == (x - l) * (x + l);
      MulPositive(l - x, -x - l);
    }
  }

  /** The crossings of a spline whose state is (points, cpoints) with the frames, in order. */
  class Spline3D {
    /** m_points: the interpolation points, one vector per axis. */
    var points: Axes
    /** m_cpoints: the control points compute() fits, one vector per axis. */
    var cpoints: Axes
    /** m_intersections: the crossings findAllIntersections collects. */
    const intersections: IntersectionSet<Spline3D>
    /** m_initialized: cpoints fits the current points. */
    var initialized: bool
    /** m_transform and m_axis: which pose vector is the beam axis. */
    var transform: bool
    var axis: int

    /** Spline3D(npoints): npoints zero points on every axis, not initialized, axis 1, transform. */
    constructor (npoints: nat)
      ensures points == [Zeros(npoints), Zeros(npoints), Zeros(npoints)]
      ensures cpoints == [[], [], []]
      ensures fresh(intersections) && intersections.items == []
      ensures !initialized && axis == 1 && transform
    {
      points := [Zeros(npoints), Zeros(npoints), Zeros(npoints)];
      cpoints := [[], [], []];
      intersections := new IntersectionSet<Spline3D>();
      initialized := false;
      axis := 1;
      transform := true;
    }

    /** setPoint(idx, pt): point idx on every axis; the fit is stale. */
    method SetPoint(idx: int, pt: Vec3)
      requires 0 <= idx && idx < |points[0]| && idx < |points[1]| && idx < |points[2]|
      modifies this
      ensures points == [old(points[0])[idx := pt[0]], old(points[1])[idx := pt[1]], old(points[2])[idx := pt[2]]]
      ensures !initialized
      ensures cpoints == old(cpoints)
      ensures transform == old(transform) && axis == old(axis)
    {
      var i := 0;
      while i < 3
        invariant 0 <= i <= 3
        invariant idx < |old(points[0])| && idx < |old(points[1])| && idx < |old(points[2])|
        invariant forall j :: 0 <= j < i ==> points[j] == old(points[j])[idx := pt[j]]
        invariant forall j :: i <= j < 3 ==> points[j] == old(points[j])
        invariant cpoints == old(cpoints)
        invariant transform == old(transform) && axis == old(axis) && initialized == old(initialized)
      {
        points := points[i := points[i][idx := pt[i]]];
        i := i + 1;
      }
      initialized := false;
    }

    method SetTransform(b: bool)
      modifies this
      ensures transform == b
      ensures points == old(points) && cpoints == old(cpoints)
      ensures initialized == old(initialized) && axis == old(axis)
    {
      transform := b;
    }

    method SetAxis(a: int)
      modifies this
      ensures axis == a
      ensures points == old(points) && cpoints == old(cpoints)
      ensures initialized == old(initialized) && transform == old(transform)
    {
      axis := a;
    }

    /** getLength() and length(): the number of x coordinates. */
    function Length(): (r: int)
      reads this
      ensures Ready() ==> r >= 1 && forall j :: 0 <= j < 3 ==> |points[j]| == r && |cpoints[j]| == r + 2
    {
      |points[0]|
    }

    /** setPoints(x, y, z): replaces the points but, unlike setPoint, leaves the flag as it was. */
    method SetPoints(x: seq<real>, y: seq<real>, z: seq<real>)
      modifies this
      ensures points == [x, y, z]
      ensures initialized == old(initialized)
      ensures cpoints == old(cpoints)
      ensures transform == old(transform) && axis == old(axis)
    {
      points := [x, y, z];
    }

    /**
     * applyConvolution(mask): every axis smoothed with the 3-tap mask, ends reflected; the fit
     * is stale. The source reads points[1] and points[end - 1], so it needs two points per axis.
     */
    method ApplyConvolution(mask: seq<real>)
      requires |mask| == 3 && forall j :: 0 <= j < 3 ==> |points[j]| >= 2
      modifies this
      ensures forall j :: 0 <= j < 3 ==> points[j] == Convolved(old(points[j]), mask)
      ensures !initialized
      ensures cpoints == old(cpoints)
      ensures transform == old(transform) && axis == old(axis)
    {
      var j := 0;
      while j < 3
        invariant 0 <= j <= 3
        invariant forall k :: 0 <= k < j ==> points[k] == Convolved(old(points[k]), mask)
        invariant forall k :: j <= k < 3 ==> points[k] == old(points[k])
        invariant cpoints == old(cpoints)
        invariant transform == old(transform) && axis == old(axis) && initialized == old(initialized)
      {
        var newpoints := ConvolveAxis(points[j], mask);
        points := points[j := newpoints];
        j := j + 1;
      }
      initialized := false;
    }

    /**
     * compute(): each axis gets the control points the fitter returns for it, and the spline
     * is initialized; it then passes through every one of its points.
     */
    method Compute(solve: (seq<Triplet>, seq<real>) -> seq<real>)
      requires IsFitterSolver(solve)
      modifies this
      ensures forall j :: 0 <= j < 3 ==> cpoints[j] == solve(SystemTriplets(|points[j]|), SystemRhs(points[j]))
      ensures FitsPoints(points, cpoints) && initialized
      ensures forall j :: 0 <= j < 3 ==> |cpoints[j]| == |points[j]| + 2
      ensures SameLength(points) ==>
                forall k :: 0 <= k < |points[0]| ==> EvaluateSingle(k as real) == Ok(PointOf(points, k))
      ensures points == old(points)
      ensures transform == old(transform) && axis == old(axis)
    {
      cpoints := FitAxes(points, solve);
      initialized := true;
      if SameLength(points) {
        forall k | 0 <= k < |points[0]|
          ensures EvaluateSingle(k as real) == Ok(PointOf(points, k))
        {
          SplineInterpolates(points, cpoints, k);
        }
      }
    }

    /**
     * evaluateSingle(t): an error (reportError throws) unless compute ran after the last
     * setPoint or applyConvolution; otherwise the curve point at t, or an error where the
     * source would read outside the control points.
     */
    function EvaluateSingle(t: real): (r: Result<Vec3>)
      reads this
      ensures !initialized ==> r.Error?
      ensures initialized ==> (r.Ok? <==> EvaluateAt(cpoints, t).Some?)
      ensures r.Ok? ==> forall j :: 0 <= j < 3 ==> Evaluate(cpoints[j], t) == Some(r.value[j])
    {
      if !initialized then Error("ERROR: Spline3d not initialized")
      else match EvaluateAt(cpoints, t)
        case None => Error("control point index out of range")
        case Some(p) => Ok(p)
    }

    /** derivativeSingle(t): no initialization check; None where the window is missing. */
    function DerivativeSingle(t: real): (r: Option<Vec3>)
      reads this
      ensures r.Some? <==> AxesHaveWindow(cpoints, Locate(t).pos)
      ensures r.Some? ==> forall j :: 0 <= j < 3 ==> EvaluateDerivative(cpoints[j], t) == Some(r.value[j])
    {
      DerivativeAt(cpoints, t)
    }

    /** findRoots(p, plane): the roots in [0, 1] of the plane distance on window p + 1. */
    function FindRoots(p: int, plane: Plane3D, sqrt: real -> real): (r: seq<real>)
      reads this
      requires IsSqrt(sqrt) && AxesHaveWindow(cpoints, p + 1)
      ensures |r| <= 2 && forall k :: 0 <= k < |r| ==> InUnit(r[k])
      ensures Discriminant(PlaneQuadratic(cpoints, plane, p)) >= 0.0 ==>
                forall k :: 0 <= k < |r| ==> GetDistance(plane, PointAt(cpoints, p + 1, r[k])) == 0.0
    {
      RootsOnWindow(cpoints, plane, p, sqrt)
    }

    /** The state intersect and findIntersection rely on. */
    predicate Ready()
      reads this
    {
      initialized && Fitted(points, cpoints)
    }

    /**
     * intersect(t, plane, pointOnPlane): the sign scan over the interpolation points, then
     * findRoots on the bracket and, if that finds nothing, on the next window.
     */
    method Intersect(plane: Plane3D, sqrt: real -> real) returns (r: Result<Crossing>)
      requires Ready() && IsSqrt(sqrt)
      ensures r == IntersectAt(points, cpoints, plane, sqrt)
      ensures r.Ok? && r.value.Crossing? ==> EvaluateSingle(r.value.t) == Ok(r.value.point)
    {
      var pos := FindBracket(plane);
      if pos == -1 {
        return Ok(NoCrossing);
      }
      SignChangeSpec(points, plane, 1);
      var p, roots := FindRootsRetry(pos, plane, sqrt);
      if |roots| == 0 {
        return Ok(NoCrossing);
      }
      var t := roots[0] + p as real - 0.5;
      assert IntersectAt(points, cpoints, plane, sqrt) == CrossingAtParam(cpoints, t);
      var pt := EvaluateSingle(t);
      if pt.Error? {
        return Error(pt.msg);
      }
      r := Ok(Crossing(t, pt.value));
    }

    /** The two findRoots calls of intersect: window pos + 1, then window pos + 2 if empty. */
    method FindRootsRetry(pos: int, plane: Plane3D, sqrt: real -> real) returns (p: int, roots: seq<real>)
      requires IsSqrt(sqrt) && AxesHaveWindow(cpoints, pos + 1) && AxesHaveWindow(cpoints, pos + 2)
      ensures (p, roots) == RetriedRoots(cpoints, plane, pos, sqrt)
      ensures p == pos || p == pos + 1
    {
      p := pos;
      roots := FindRoots(pos, plane, sqrt);
      if |roots| == 0 {
        p := pos + 1;
        roots := FindRoots(p, plane, sqrt);
      }
    }

    /** The sign scan of intersect: the first pair of neighbours on different sides, or -1. */
    method FindBracket(plane: Plane3D) returns (pos: int)
      requires SameLength(points) && |points[0]| >= 1
      ensures pos == Bracket(points, plane)
    {
      var prevsign := Sgn(GetDistance(plane, PointOf(points, 0)));
      pos := -1;
      var i := 1;
      while i < |points[0]|
        invariant 1 <= i <= |points[0]|
        invariant prevsign == Side(points, plane, i - 1)
        invariant SignChange(points, plane, 1) == SignChange(points, plane, i)
      {
        var sign := Sgn(GetDistance(plane, PointOf(points, i)));
        if prevsign != sign {
          pos := i - 1;
          return;
        }
        prevsign := sign;
        i := i + 1;
      }
    }

    /**
     * The Intersection findIntersection(img) returns, on the values it reads: invalid when the
     * plane of the frame's pose is not crossed; otherwise valid, at the crossing's t, with this
     * spline and the frame, and cos(theta) between the tangent there and the beam axis.
     */
    function IntersectionWith(img: MetaImage, sqrt: real -> real): (r: Result<Intersection<Spline3D>>)
      reads this, img
      requires Ready() && 0 <= axis < 4 && IsSqrt(sqrt)
      ensures r.Ok? && r.value.valid ==> r.value.spline == Some(this) && r.value.image == img
      ensures r.Ok? && !r.value.valid ==> r.value == NewIntersection()
    {
      match IntersectAt(points, cpoints, FromMatrix(img.transform), sqrt)
      case Error(e) => Error(e)
      case Ok(NoCrossing) => Ok(NewIntersection())
      case Ok(Crossing(t, _)) =>
        var d := DerivativeAt(cpoints, t).value;
        Ok(NewIntersection<Spline3D>().(spline := Some(this), pos := t, valid := true, image := img,
             cosTheta := Cosine(d, BeamAxis(img.transform, transform, axis), sqrt)))
    }

    /** findIntersection(img). */
    method FindIntersection(img: MetaImage, sqrt: real -> real) returns (r: Result<Intersection<Spline3D>>)
      requires Ready() && 0 <= axis < 4 && IsSqrt(sqrt)
      ensures r == IntersectionWith(img, sqrt)
      ensures r.Ok? && r.value.valid ==>
                r.value.spline == Some(this) && r.value.image == img && -1.0 <= r.value.cosTheta <= 1.0
                && EvaluateSingle(r.value.pos).Ok?
    {
      var plane := FromMatrix(img.transform);
      var c := Intersect(plane, sqrt);
      match c
      case Error(e) => r := Error(e);
      case Ok(NoCrossing) => r := Ok(NewIntersection());
      case Ok(Crossing(t, _)) =>
        var d := DerivativeSingle(t);
        var y := BeamAxis(img.transform, transform, axis);
        var x := NewIntersection<Spline3D>().(spline := Some(this), pos := t, valid := true, image := img);
        r := Ok(x.(cosTheta := Cosine(d.value, y, sqrt)));
    }

    /** findIntersection with every frame, in frame order, on the values it reads. */
    function Results(imgs: seq<MetaImage>, sqrt: real -> real): (r: seq<Result<Intersection<Spline3D>>>)
      reads this, imgs
      requires Ready() && 0 <= axis < 4 && IsSqrt(sqrt)
      ensures |r| == |imgs|
    {
      seq(|imgs|, i requires 0 <= i < |imgs| && Ready() && 0 <= axis < 4 && IsSqrt(sqrt) reads this, imgs =>
        IntersectionWith(imgs[i], sqrt))
    }

    /**
     * What findAllIntersections keeps is a valid crossing of this spline with one of the
     * frames, on the curve and with a cosine in [-1, 1].
     */
    lemma FoundSound(imgs: seq<MetaImage>, sqrt: real -> real)
      requires Ready() && 0 <= axis < 4 && IsSqrt(sqrt)
      ensures forall x :: x in Keep(Results(imgs, sqrt)).0 ==>
                x.valid && x.spline == Some(this) && x.image in imgs && -1.0 <= x.cosTheta <= 1.0
                && EvaluateSingle(x.pos).Ok?
    {
      var rs := Results(imgs, sqrt);
      KeepSound(rs);
      forall x | x in Keep(rs).0
        ensures x.valid && x.spline == Some(this) && x.image in imgs && -1.0 <= x.cosTheta <= 1.0
                && EvaluateSingle(x.pos).Ok?
      {
        var i :| 0 <= i < |rs| && rs[i] == Ok(x);
        CrossingIntersection(imgs[i], sqrt);
      }
    }

    /** A valid result of findIntersection lies on this spline, with a cosine in [-1, 1]. */
    lemma CrossingIntersection(img: MetaImage, sqrt: real -> real)
      requires Ready() && 0 <= axis < 4 && IsSqrt(sqrt)
      requires IntersectionWith(img, sqrt).Ok? && IntersectionWith(img, sqrt).value.valid
      ensures var x := IntersectionWith(img, sqrt).value;
              x.spline == Some(this) && x.image == img && -1.0 <= x.cosTheta <= 1.0
              && EvaluateSingle(x.pos).Ok?
    {
    }

    /**
     * findAllIntersections(imgs): the valid intersections pushed onto the set in frame order,
     * up to the first frame whose findIntersection fails; that failure is returned (the source
     * throws there, and what it pushed stays).
     */
    method FindAllIntersections(imgs: seq<MetaImage>, sqrt: real -> real) returns (err: Option<string>)
      requires Ready() && 0 <= axis < 4 && IsSqrt(sqrt)
      modifies intersections
      ensures intersections.items == old(intersections.items) + Keep(Results(imgs, sqrt)).0
      ensures err == Keep(Results(imgs, sqrt)).1
      ensures intersections.Settings() == old(intersections.Settings())
    {
      ghost var start := intersections.items;
      ghost var rs := Results(imgs, sqrt);
      ghost var kept := [];
      err := None;
      assert rs[..0] == [];
      var i := 0;
      while i < |imgs|
        invariant 0 <= i <= |imgs|
        invariant intersections.items == start + kept
        invariant intersections.Settings() == old(intersections.Settings())
        invariant Keep(rs[..i]) == (kept, None)
      {
        var r := Visit(imgs[i], sqrt);
        assert rs[i] == r;
        KeepStep(rs, i);
        if r.Error? {
          err := Some(r.msg);
          KeepStops(rs, i + 1);
          return;
        }
        if r.value.valid {
          kept := kept + [r.value];
        }
        i := i + 1;
      }
      assert rs[..i] == rs;
    }

    /** One pass of findAllIntersections' loop: findIntersection, and a valid result pushed. */
    method Visit(img: MetaImage, sqrt: real -> real) returns (r: Result<Intersection<Spline3D>>)
      requires Ready() && 0 <= axis < 4 && IsSqrt(sqrt)
      modifies intersections
      ensures r == IntersectionWith(img, sqrt)
      ensures intersections.items == old(intersections.items) + (if r.Ok? && r.value.valid then [r.value] else [])
      ensures intersections.Settings() == old(intersections.Settings())
    {
      r := FindIntersection(img, sqrt);
      if r.Ok? && r.value.valid {
        intersections.Push(r.value);
      }
    }
  }

  /**
   * The loop of findAllIntersections on the results of findIntersection: the valid
   * intersections in order, up to the first failure, and that failure.
   */
  function Keep<S>(rs: seq<Result<Intersection<S>>>): (r: (seq<Intersection<S>>, Option<string>))
    ensures |r.0| <= |rs|
  {
    if rs == [] then ([], None)
    else
      var (kept, err) := Keep(rs[..|rs| - 1]);
      if err.Some? then (kept, err)
      else match rs[|rs| - 1]
        case Error(e) => (kept, Some(e))
        case Ok(x) => (if x.valid then kept + [x] else kept, None)
  }

  /** Every kept intersection is valid and is the result of one of the calls. */
  lemma {:induction false} KeepSound<S>(rs: seq<Result<Intersection<S>>>)
    ensures |Keep(rs).0| <= |rs|
    ensures forall x :: x in Keep(rs).0 ==> x.valid && exists i :: 0 <= i < |rs| && rs[i] == Ok(x)
  {
    if rs != [] {
      var init := rs[..|rs| - 1];
      KeepSound(init);
      forall x | x in Keep(init).0
        ensures exists i :: 0 <= i < |rs| && rs[i] == Ok(x)
      {
        var i :| 0 <= i < |init| && init[i] == Ok(x);
        assert rs[i] == Ok(x);
      }
    }
  }

  /** Without a failure every call succeeded and every valid intersection is kept, in call order. */
  lemma {:induction false} KeepComplete<S>(rs: seq<Result<Intersection<S>>>)
    requires Keep(rs).1.None?
    ensures forall i :: 0 <= i < |rs| ==> rs[i].Ok?
    ensures Keep(rs).0 == Valids(rs)
  {
    if rs != [] {
      var init := rs[..|rs| - 1];
      KeepComplete(init);
      assert forall i :: 0 <= i < |init| ==> init[i] == rs[i];
      ValidsLast(rs);
    }
  }

  /** A failure names the first call that failed: every call before it succeeded. */
  lemma {:induction false} KeepFailure<S>(rs: seq<Result<Intersection<S>>>)
    requires Keep(rs).1.Some?
    ensures exists i :: 0 <= i < |rs| && rs[i] == Error(Keep(rs).1.value) && Keep(rs[..i]).1.None?
  {
    var init := rs[..|rs| - 1];
    if Keep(init).1.Some? {
      KeepFailure(init);
      var i :| 0 <= i < |init| && init[i] == Error(Keep(init).1.value) && Keep(init[..i]).1.None?;
      assert init[..i] == rs[..i];
    } else {
      assert rs[..|rs| - 1] == init;
    }
  }

  /** One more call: its failure, or its intersection appended when valid. */
  lemma KeepStep<S>(rs: seq<Result<Intersection<S>>>, i: nat)
    requires i < |rs| && Keep(rs[..i]).1.None?
    ensures rs[i].Error? ==> Keep(rs[..i + 1]) == (Keep(rs[..i]).0, Some(rs[i].msg))
    ensures rs[i].Ok? && rs[i].value.valid ==> Keep(rs[..i + 1]) == (Keep(rs[..i]).0 + [rs[i].value], None)
    ensures rs[i].Ok? && !rs[i].value.valid ==> Keep(rs[..i + 1]) == (Keep(rs[..i]).0, None)
  {
    var t := rs[..i + 1];
    assert t[..|t| - 1] == rs[..i] && t[|t| - 1] == rs[i];
  }

  /** Once a failure occurs the rest of the calls change nothing. */
  lemma {:induction false} KeepStops<S>(rs: seq<Result<Intersection<S>>>, i: nat)
    requires i <= |rs| && Keep(rs[..i]).1.Some?
    ensures Keep(rs) == Keep(rs[..i])
    decreases |rs| - i
  {
    if i < |rs| {
      var init := rs[..|rs| - 1];
      assert init[..i] == rs[..i];
      KeepStops(init, i);
    } else {
      assert rs[..i] == rs;
    }
  }

  /** The valid results among successful calls, in order (the reference for Keep). */
  function Valids<S>(rs: seq<Result<Intersection<S>>>): seq<Intersection<S>>
  {
    if rs == [] then []
    else (if rs[0].Ok? && rs[0].value.valid then [rs[0].value] else []) + Valids(rs[1..])
  }

  lemma {:induction false} ValidsLast<S>(rs: seq<Result<Intersection<S>>>)
    requires rs != []
    ensures Valids(rs) == Valids(rs[..|rs| - 1]) +
              (if rs[|rs| - 1].Ok? && rs[|rs| - 1].value.valid then [rs[|rs| - 1].value] else [])
    decreases |rs|
  {
    if |rs| > 1 {
      var tail := rs[1..];
      ValidsLast(tail);
      assert tail[..|tail| - 1] == rs[..|rs| - 1][1..];
    }
  }

  // ---- regionGrow ----

  /** What Intersection::regionGrow needs of a valid intersection: its spline and a read frame. */
  ghost predicate Growable(x: Intersection<Spline3D>)
    reads x.image
  {
    x.valid ==> x.spline.Some? && x.image != null && x.image.Valid()
  }

  /**
   * The pixel Intersection::regionGrow grows from: the frame coordinates of the curve point at
   * the intersection, truncated, when they fall in the frame; None for an invalid intersection
   * and where the source grows nothing.
   */
  function GrowSeed(x: Intersection<Spline3D>): (r: Option<(int, int)>)
    reads x.image, if x.spline.Some? then {x.spline.value} else {}
    requires Growable(x)
    ensures r.Some? ==> x.valid && 0 <= r.value.0 < x.image.xsize && 0 <= r.value.1 < x.image.ysize
  {
    if !x.valid then None
    else match x.spline.value.EvaluateSingle(x.pos)
      case Error(_) => None
      case Ok(p) =>
        match x.image.ToImgCoords(p)
        case None => None
        case Some((u, v)) =>
          if x.image.InImage(u, v) then
            x.image.InImagePixel(u, v);
            Some((Trunc(u), Trunc(v)))
          else None
  }

  /**
   * y is x after regionGrow: only the samples change, by appending; nothing is appended when
   * there is no seed; otherwise the appended values are the seed pixel and then the nonzero
   * pixels of a closed region (order) of the frame grown outward from the seed, the seed first
   * when it is nonzero (GrewComponent: that region is the seed's connected component).
   */
  ghost predicate Grew(x: Intersection<Spline3D>, y: Intersection<Spline3D>, order: seq<int>)
    reads x.image, if x.spline.Some? then {x.spline.value} else {}
    requires Growable(x)
  {
    y == x.(points := y.points) && x.points <= y.points
    && (GrowSeed(x).None? ==> y == x)
    && (GrowSeed(x).Some? ==>
          var img := x.image;
          var h := img.Hash(GrowSeed(x).value.0, GrowSeed(x).value.1);
          var added := y.points[|x.points|..];
          0 <= h < |img.pixels| && |added| == |order| + 1 && added[0] == img.pixels[h]
          && ClosedRegion(img.pixels, img.xsize, order) && Rooted(img.xsize, order)
          && (forall k :: 0 <= k < |order| ==> added[k + 1] == img.pixels[order[k]])
          && (img.pixels[h] != 0.0 ==> order != [] && order[0] == h)
          && (img.pixels[h] == 0.0 ==> order == []))
  }

  /**
   * The pixels regionGrow reports from a nonzero seed are exactly the seed's 4-connected
   * component of nonzero pixels.
   */
  lemma GrewComponent(x: Intersection<Spline3D>, y: Intersection<Spline3D>, order: seq<int>)
    requires Growable(x) && Grew(x, y, order) && GrowSeed(x).Some?
    requires var h := x.image.Hash(GrowSeed(x).value.0, GrowSeed(x).value.1);
             0 <= h < |x.image.pixels| && x.image.pixels[h] != 0.0
    ensures var h := x.image.Hash(GrowSeed(x).value.0, GrowSeed(x).value.1);
            forall i :: i in order <==> Connected(x.image.pixels, x.image.xsize, h, i)
  {
    RegionIsComponent(x.image.pixels, x.image.xsize, order);
  }

  /** regionGrow throws: the intersection is valid and its spline cannot be evaluated there. */
  predicate Throws(x: Intersection<Spline3D>)
    reads if x.spline.Some? then {x.spline.value} else {}
  {
    x.valid && x.spline.Some? && x.spline.value.EvaluateSingle(x.pos).Error?
  }

  /**
   * Intersection::regionGrow: an error exactly when the intersection is valid and its spline
   * cannot be evaluated there (evaluateSingle throws); otherwise the grown intersection.
   */
  method Grow(x: Intersection<Spline3D>) returns (r: Result<Intersection<Spline3D>>, ghost order: seq<int>)
    requires Growable(x)
    ensures r.Error? <==> Throws(x)
    ensures r.Ok? ==> Grew(x, r.value, order)
  {
    order := [];
    if !x.valid {
      return Ok(x), order;
    }
    var p := x.spline.value.EvaluateSingle(x.pos);
    if p.Error? {
      return Error(p.msg), order;
    }
    var c := x.image.ToImgCoords(p.value);
    if c.None? {
      return Ok(x), order;
    }
    var (u, v) := c.value;
    if !x.image.InImage(u, v) {
      return Ok(x), order;
    }
    x.image.InImagePixel(u, v);
    var found;
    found, order := x.image.RegionGrow(Trunc(u), Trunc(v));
    var y := x.(points := x.points + found);
    assert y.points[|x.points|..] == found;
    r := Ok(y);
  }

  /**
   * The regionGrow pass of calculate over one spline's intersections, on values: each grown in
   * order, up to the first that throws; the rest are left as they were.
   */
  method GrowAll(items: seq<Intersection<Spline3D>>)
    returns (r: seq<Intersection<Spline3D>>, err: Option<string>, ghost orders: seq<seq<int>>)
    requires forall k :: 0 <= k < |items| ==> Growable(items[k])
    ensures |r| == |items| == |orders|
    ensures forall k :: 0 <= k < |items| ==> Grew(items[k], r[k], orders[k]) || r[k] == items[k]
    ensures err.None? <==> forall k :: 0 <= k < |items| ==>
              !(Throws(items[k]))
    ensures err.None? ==> forall k :: 0 <= k < |items| ==> Grew(items[k], r[k], orders[k])
  {
    r := items;
    orders := seq(|items|, _ => []);
    err := None;
    var k := 0;
    while k < |items|
      invariant |r| == |items| == |orders| && 0 <= k <= |items|
      invariant forall j :: 0 <= j < k ==> Grew(items[j], r[j], orders[j])
      invariant forall j :: 0 <= j < k ==> !(Throws(items[j]))
      invariant forall j :: k <= j < |items| ==> r[j] == items[j]
    {
      var g, o := Grow(items[k]);
      if g.Error? {
        err := Some(g.msg);
        return;
      }
      GrewExtended(items, r, orders, k, g.value, o);
      r := r[k := g.value];
      orders := orders[k := o];
      k := k + 1;
    }
  }

  /** Recording one more grown member keeps the ones grown before it. */
  lemma GrewExtended(items: seq<Intersection<Spline3D>>, r: seq<Intersection<Spline3D>>, orders: seq<seq<int>>,
                     k: nat, y: Intersection<Spline3D>, o: seq<int>)
    requires |r| == |items| == |orders| && k < |items|
    requires forall j :: 0 <= j < |items| ==> Growable(items[j])
    requires forall j :: 0 <= j < k ==> Grew(items[j], r[j], orders[j])
    requires Grew(items[k], y, o)
    ensures forall j :: 0 <= j < k + 1 ==> Grew(items[j], r[k := y][j], orders[k := o][j])
  {
    forall j | 0 <= j < k + 1
      ensures Grew(items[j], r[k := y][j], orders[k := o][j])
    {
      if j < k {
        assert r[k := y][j] == r[j] && orders[k := o][j] == orders[j];
      }
    }
  }

  /** The same pass in place, on the intersection set of a spline (for_each ... regionGrow). */
  method GrowIntersections(s: Spline3D) returns (err: Option<string>, ghost orders: seq<seq<int>>)
    requires forall k :: 0 <= k < |s.intersections.items| ==> Growable(s.intersections.items[k])
    modifies s.intersections
    ensures |s.intersections.items| == |old(s.intersections.items)| == |orders|
    ensures forall k :: 0 <= k < |orders| ==>
              Grew(old(s.intersections.items)[k], s.intersections.items[k], orders[k])
              || s.intersections.items[k] == old(s.intersections.items)[k]
    ensures err.None? ==> forall k :: 0 <= k < |orders| ==>
              Grew(old(s.intersections.items)[k], s.intersections.items[k], orders[k])
    ensures err.None? <==> forall k :: 0 <= k < |orders| ==> !Throws(old(s.intersections.items)[k])
    ensures s.intersections.Settings() == old(s.intersections.Settings())
  {
    var grown;
    grown, err, orders := GrowAll(s.intersections.items);
    s.intersections.items := grown;
  }

  /** The loop of compute(): a fitter per axis, each axis's control points from its solve. */
  method FitAxes(points: Axes, solve: (seq<Triplet>, seq<real>) -> seq<real>) returns (cps: Axes)
    requires IsFitterSolver(solve)
    ensures forall j :: 0 <= j < 3 ==> cps[j] == solve(SystemTriplets(|points[j]|), SystemRhs(points[j]))
    ensures forall j :: 0 <= j < 3 ==> |cps[j]| == |points[j]| + 2
    ensures FitsPoints(points, cps)
  {
    cps := [[], [], []];
    var i := 0;
    while i < 3
      invariant 0 <= i <= 3
      invariant forall j :: 0 <= j < i ==> cps[j] == solve(SystemTriplets(|points[j]|), SystemRhs(points[j]))
      invariant forall j :: 0 <= j < i ==> |cps[j]| == |points[j]| + 2
      invariant forall j :: 0 <= j < i ==> IsSolution(SystemTriplets(|points[j]|), SystemRhs(points[j]), cps[j])
    {
      var c := FitAxis(points[i], solve);
      cps := cps[i := c];
      i := i + 1;
    }
  }

  /** One pass of that loop: a fitter over the axis's points and its control points. */
  method FitAxis(pts: seq<real>, solve: (seq<Triplet>, seq<real>) -> seq<real>) returns (c: seq<real>)
    requires IsFitterSolver(solve)
    ensures c == solve(SystemTriplets(|pts|), SystemRhs(pts))
    ensures |c| == |pts| + 2 && IsSolution(SystemTriplets(|pts|), SystemRhs(pts), c)
  {
    var fitter := new QuadraticSplineFitter(pts);
    c := fitter.ComputeControlPoints(solve);
  }

  /** applyConvolution on one axis: the reflected ends, then the interior. */
  method ConvolveAxis(pts: seq<real>, mask: seq<real>) returns (r: seq<real>)
    requires |pts| >= 2 && |mask| == 3
    ensures r == Convolved(pts, mask)
  {
    var newpoints := new real[|pts|];
    var end := |pts| - 1;
    newpoints[0] := 2.0 * mask[0] * pts[1] + mask[1] * pts[0];
    newpoints[end] := 2.0 * mask[0] * pts[end - 1] + mask[1] * pts[end];
    var i := 1;
    while i < |pts| - 1
      invariant 1 <= i <= |pts| - 1
      invariant newpoints[0] == ConvolvedAt(pts, mask, 0)
      invariant newpoints[end] == ConvolvedAt(pts, mask, end)
      invariant forall k :: 1 <= k < i ==> newpoints[k] == ConvolvedAt(pts, mask, k)
    {
      newpoints[i] := mask[0] * pts[i - 1] + mask[1] * pts[i] + mask[2] * pts[i + 1];
      i := i + 1;
    }
    r := newpoints[..];
  }
}
