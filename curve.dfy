// The closed-form pieces of the quadratic B-spline in core/lib/spline3d.hpp, one axis at a
// time: the basis that evaluateSingle applies to three control points, the derivative that
// derivativeSingle applies to the same window, the 3-tap smoothing of applyConvolution and the
// quadratic that findRoots builds against a plane.
module Curves {
  import opened Helpers
  import opened Planes

  /** A window of three control points cp[p-1], cp[p], cp[p+1] exists. */
  predicate HasWindow(cp: seq<real>, p: int)
  {
    1 <= p && p + 1 < |cp|
  }

  /** The basis of evaluateSingle at local parameter s on the window centred at p. */
  function Basis(cp: seq<real>, p: int, s: real): real
    requires HasWindow(cp, p)
  {
    (s * s * 0.5) * cp[p + 1] + (-(s * s) + s + 0.5) * cp[p] + ((1.0 - s) * (1.0 - s) * 0.5) * cp[p - 1]
  }

  /** The formula of derivativeSingle on the same window. */
  function Derivative(cp: seq<real>, p: int, s: real): real
    requires HasWindow(cp, p)
  {
    s * (cp[p + 1] - cp[p]) + (1.0 - s) * (cp[p] - cp[p - 1])
  }

  /** Coefficients of the window as a polynomial in s: the a_tmp, b_tmp, c_tmp of findRoots. */
  function QuadA(cp: seq<real>, p: int): real
    requires HasWindow(cp, p)
  {
    cp[p - 1] * 0.5 - cp[p] + cp[p + 1] * 0.5
  }

  function QuadB(cp: seq<real>, p: int): real
    requires HasWindow(cp, p)
  {
    -cp[p - 1] + cp[p]
  }

  function QuadC(cp: seq<real>, p: int): real
    requires HasWindow(cp, p)
  {
    cp[p - 1] * 0.5 + cp[p] * 0.5
  }

  /** The basis is the polynomial QuadA s^2 + QuadB s + QuadC. */
  lemma BasisIsQuadratic(cp: seq<real>, p: int, s: real)
    requires HasWindow(cp, p)
    ensures Basis(cp, p, s) == QuadA(cp, p) * (s * s) + QuadB(cp, p) * s + QuadC(cp, p)
  {
    var l, m, h := cp[p - 1], cp[p], cp[p + 1];
    var sq := s * s;
    assert (1.0 - s) * (1.0 - s) == 1.0 - 2.0 * s + sq;
    calc {
      Basis(cp, p, s);
      (sq * 0.5) * h + (-sq + s + 0.5) * m + ((1.0 - 2.0 * s + sq) * 0.5) * l;
      (l * 0.5 - m + h * 0.5) * sq + (-l + m) * s + (l * 0.5 + m * 0.5);
    }
  }

  /** derivativeSingle's formula is the s-derivative of that polynomial: 2 QuadA s + QuadB. */
  lemma DerivativeIsSlope(cp: seq<real>, p: int, s: real)
    requires HasWindow(cp, p)
    ensures Derivative(cp, p, s) == 2.0 * QuadA(cp, p) * s + QuadB(cp, p)
  {
  }

  /**
   * The derivative is exact: moving s by h changes the basis by h times the derivative plus
   * the second-order term QuadA h^2, and by nothing else.
   */
  lemma DerivativeExact(cp: seq<real>, p: int, s: real, h: real)
    requires HasWindow(cp, p)
    ensures Basis(cp, p, s + h) - Basis(cp, p, s) == h * Derivative(cp, p, s) + QuadA(cp, p) * (h * h)
  {
    BasisIsQuadratic(cp, p, s);
    BasisIsQuadratic(cp, p, s + h);
    DerivativeIsSlope(cp, p, s);
    var a, b := QuadA(cp, p), QuadB(cp, p);
    assert (s + h) * (s + h) == s * s + 2.0 * s * h + h * h;
    assert a * ((s + h) * (s + h)) - a * (s * s) == (2.0 * a * s) * h + a * (h * h);
  }

  /** Consecutive windows meet: the end of window p is the start of window p + 1. */
  lemma WindowsMeet(cp: seq<real>, p: int)
    requires HasWindow(cp, p) && HasWindow(cp, p + 1)
    ensures Basis(cp, p, 1.0) == Basis(cp, p + 1, 0.0)
    ensures Derivative(cp, p, 1.0) == Derivative(cp, p + 1, 0.0)
  {
  }

  /** At the middle of a window the weights are 1/8, 3/4, 1/8. */
  lemma BasisAtHalf(cp: seq<real>, p: int)
    requires HasWindow(cp, p)
    ensures Basis(cp, p, 0.5) == 0.125 * cp[p - 1] + 0.75 * cp[p] + 0.125 * cp[p + 1]
  {
  }

  /** Where a parameter t lands: the control window `pos = (int)(t + 1.5)` and its local s. */
  datatype Location = Location(pos: int, s: real)

  function Locate(t: real): (l: Location)
    ensures t >= -1.5 ==> 0.0 <= l.s < 1.0
    ensures l.pos as real + l.s == t + 1.5
  {
    var u := t + 1.5;
    var pos := Trunc(u);
    Location(pos, u - pos as real)
  }

  /**
   * One axis of evaluateSingle: the basis on the located window, or None when the window would
   * read a control point outside the vector.
   */
  function Evaluate(cp: seq<real>, t: real): (r: Option<real>)
    ensures r.Some? <==> HasWindow(cp, Locate(t).pos)
  {
    var l := Locate(t);
    if HasWindow(cp, l.pos) then Some(Basis(cp, l.pos, l.s)) else None
  }

  /** One axis of derivativeSingle. */
  function EvaluateDerivative(cp: seq<real>, t: real): (r: Option<real>)
    ensures r.Some? <==> HasWindow(cp, Locate(t).pos)
  {
    var l := Locate(t);
    if HasWindow(cp, l.pos) then Some(Derivative(cp, l.pos, l.s)) else None
  }

  /**
   * With n + 2 control points every window read for -0.5 <= t < n - 0.5 exists, which covers
   * the documented range 0 <= t < n - 1.
   */
  lemma EvaluateInRange(cp: seq<real>, n: nat, t: real)
    requires |cp| == n + 2 && -0.5 <= t < n as real - 0.5
    ensures 1 <= Locate(t).pos <= n
    ensures Evaluate(cp, t).Some? && EvaluateDerivative(cp, t).Some?
  {
  }

  /** At an integer parameter k the window is k + 1 and the local parameter is 1/2. */
  lemma LocateInteger(k: int)
    requires k >= 0
    ensures Locate(k as real) == Location(k + 1, 0.5)
  {
    assert Trunc(k as real + 1.5) == k + 1;
  }

  /** The smoothed value of point i under applyConvolution's 3-tap mask, with reflected ends. */
  function ConvolvedAt(pts: seq<real>, mask: seq<real>, i: int): real
    requires |pts| >= 2 && |mask| == 3 && 0 <= i < |pts|
  {
    if i == 0 then 2.0 * mask[0] * pts[1] + mask[1] * pts[0]
    else if i == |pts| - 1 then 2.0 * mask[0] * pts[|pts| - 2] + mask[1] * pts[|pts| - 1]
    else mask[0] * pts[i - 1] + mask[1] * pts[i] + mask[2] * pts[i + 1]
  }

  /** applyConvolution on one axis. */
  function Convolved(pts: seq<real>, mask: seq<real>): (r: seq<real>)
    requires |pts| >= 2 && |mask| == 3
    ensures |r| == |pts|
    ensures forall i :: 0 <= i < |pts| ==> r[i] == ConvolvedAt(pts, mask, i)
  {
    seq(|pts|, i requires 0 <= i < |pts| => ConvolvedAt(pts, mask, i))
  }

  /** The ends never use mask[2]: two masks that differ only there smooth alike. */
  lemma ConvolutionEndsIgnoreLastTap(pts: seq<real>, m: seq<real>, m': seq<real>)
    requires |pts| >= 2 && |m| == 3 && |m'| == 3 && m[0] == m'[0] && m[1] == m'[1]
    ensures Convolved(pts, m)[0] == Convolved(pts, m')[0]
    ensures Convolved(pts, m)[|pts| - 1] == Convolved(pts, m')[|pts| - 1]
  {
  }

  /**
   * A symmetric mask whose taps sum to one, such as {0.25, 0.5, 0.25}, leaves a constant
   * centerline where it is, ends included.
   */
  lemma ConvolutionKeepsConstants(pts: seq<real>, mask: seq<real>, v: real)
    requires |pts| >= 2 && |mask| == 3 && mask[0] == mask[2] && mask[0] + mask[1] + mask[2] == 1.0
    requires forall i :: 0 <= i < |pts| ==> pts[i] == v
    ensures Convolved(pts, mask) == pts
  {
    forall i | 0 <= i < |pts|
      ensures Convolved(pts, mask)[i] == pts[i]
    {
      var m0, m1 := mask[0], mask[1];
      if i == 0 || i == |pts| - 1 {
        assert 2.0 * m0 * v + m1 * v == (2.0 * m0 + m1) * v;
      } else {
        assert m0 * v + m1 * v + mask[2] * v == (m0 + m1 + mask[2]) * v;
      }
    }
  }

  /** The quadratic a s^2 + b s + c that findRoots assembles. */
  datatype Quadratic = Quadratic(a: real, b: real, c: real)

  function ValueAt(q: Quadratic, s: real): real
  {
    q.a * (s * s) + q.b * s + q.c
  }

  /** Three axes of control points that all hold window p. */
  predicate AxesHaveWindow(cps: seq<seq<real>>, p: int)
  {
    |cps| == 3 && HasWindow(cps[0], p) && HasWindow(cps[1], p) && HasWindow(cps[2], p)
  }

  /** The curve point on window p at local s. */
  function PointAt(cps: seq<seq<real>>, p: int, s: real): Vec3
    requires AxesHaveWindow(cps, p)
  {
    [Basis(cps[0], p, s), Basis(cps[1], p, s), Basis(cps[2], p, s)]
  }

  /**
   * findRoots(p, plane) before the solve: p is incremented, and each axis adds its window
   * coefficients times the plane coefficient of that axis; c starts from the plane's d.
   */
  function PlaneQuadratic(cps: seq<seq<real>>, plane: Plane3D, p: int): Quadratic
    requires AxesHaveWindow(cps, p + 1)
  {
    var w := p + 1;
    var n := plane.coeffs;
    Quadratic(0.0 + QuadA(cps[0], w) * n[0] + QuadA(cps[1], w) * n[1] + QuadA(cps[2], w) * n[2],
              0.0 + QuadB(cps[0], w) * n[0] + QuadB(cps[1], w) * n[1] + QuadB(cps[2], w) * n[2],
              n[3] + QuadC(cps[0], w) * n[0] + QuadC(cps[1], w) * n[1] + QuadC(cps[2], w) * n[2])
  }

  /** A weighted sum of three quadratics is the quadratic of the weighted coefficients. */
  lemma WeightedQuadratics(a0: real, b0: real, c0: real, a1: real, b1: real, c1: real,
                           a2: real, b2: real, c2: real, n0: real, n1: real, n2: real, d: real,
                           sq: real, s: real)
    ensures (0.0 + a0 * n0 + a1 * n1 + a2 * n2) * sq + (0.0 + b0 * n0 + b1 * n1 + b2 * n2) * s
              + (d + c0 * n0 + c1 * n1 + c2 * n2)
         == 0.0 + (a0 * sq + b0 * s + c0) * n0 + (a1 * sq + b1 * s + c1) * n1
              + (a2 * sq + b2 * s + c2) * n2 + d
  {
  }

  /**
   * The quadratic of findRoots is the signed plane distance of the curve point: its roots in
   * [0, 1] are exactly where window p + 1 crosses the plane.
   */
  lemma PlaneQuadraticIsDistance(cps: seq<seq<real>>, plane: Plane3D, p: int, s: real)
    requires AxesHaveWindow(cps, p + 1)
    ensures ValueAt(PlaneQuadratic(cps, plane, p), s) == GetDistance(plane, PointAt(cps, p + 1, s))
  {
    var w := p + 1;
    var n := plane.coeffs;
    BasisIsQuadratic(cps[0], w, s);
    BasisIsQuadratic(cps[1], w, s);
    BasisIsQuadratic(cps[2], w, s);
    WeightedQuadratics(QuadA(cps[0], w), QuadB(cps[0], w), QuadC(cps[0], w),
                       QuadA(cps[1], w), QuadB(cps[1], w), QuadC(cps[1], w),
                       QuadA(cps[2], w), QuadB(cps[2], w), QuadC(cps[2], w),
                       n[0], n[1], n[2], n[3], s * s, s);
  }

  predicate InUnit(r: real) { 0.0 <= r <= 1.0 }

  function Discriminant(q: Quadratic): real { q.b * q.b - 4.0 * q.a * q.c }

  /**
   * The solve of findRoots: the discriminant, nudged to zero when it lies in [-0.01, 0), picks
   * no root, the double root or the two roots, and only those in [0, 1] are kept, in that
   * order. When a is zero the source divides by zero, and the resulting infinity or NaN fails
   * the [0, 1] test, so no root is kept.
   */
  function Roots(q: Quadratic, sqrt: real -> real): (r: seq<real>)
    requires IsSqrt(sqrt)
    ensures |r| <= 2
    ensures forall k :: 0 <= k < |r| ==> InUnit(r[k])
    ensures Discriminant(q) < -0.01 || q.a == 0.0 ==> r == []
  {
    var d0 := Discriminant(q);
    var d := if -0.01 <= d0 < 0.0 then 0.0 else d0;
    if d < 0.0 || q.a == 0.0 then []
    else if d == 0.0 then
      var r0 := -q.b / (2.0 * q.a);
      if InUnit(r0) then [r0] else []
    else
      var r1 := (-q.b + sqrt(d)) / (2.0 * q.a);
      var r2 := (-q.b - sqrt(d)) / (2.0 * q.a);
      (if InUnit(r1) then [r1] else []) + (if InUnit(r2) then [r2] else [])
  }

  /** 4a times the quadratic at r is (2ar + b)^2 minus the discriminant. */
  lemma CompletedSquare(q: Quadratic, r: real)
    ensures 4.0 * q.a * ValueAt(q, r) == (2.0 * q.a * r + q.b) * (2.0 * q.a * r + q.b) - Discriminant(q)
  {
  }

  lemma ZeroProduct(x: real, y: real)
    requires x * y == 0.0 && x != 0.0
    ensures y == 0.0
  {
    if y > 0.0 {
      if x > 0.0 { MulPositive(x, y); } else { MulPositive(-x, y); }
    } else if y < 0.0 {
      if x > 0.0 { MulPositive(x, -y); } else { MulPositive(-x, -y); }
    }
  }

  /** A value r with 2ar + b equal to a square root of the discriminant is a root. */
  lemma RootFromSquare(q: Quadratic, r: real, e: real)
    requires q.a != 0.0 && 2.0 * q.a * r + q.b == e && e * e == Discriminant(q)
    ensures ValueAt(q, r) == 0.0
  {
    CompletedSquare(q, r);
    assert 4.0 * q.a * ValueAt(q, r) == 0.0;
    ZeroProduct(4.0 * q.a, ValueAt(q, r));
  }

  /** r = (-b + e) / 2a solves 2ar + b == e. */
  lemma Quotient(q: Quadratic, e: real)
    requires q.a != 0.0
    ensures 2.0 * q.a * ((-q.b + e) / (2.0 * q.a)) + q.b == e
  {
  }

  /**
   * Soundness of the solve: unless the discriminant was nudged up from [-0.01, 0), every value
   * findRoots reports is a root of the quadratic.
   */
  lemma RootsAreRoots(q: Quadratic, sqrt: real -> real)
    requires IsSqrt(sqrt) && Discriminant(q) >= 0.0
    ensures forall k :: 0 <= k < |Roots(q, sqrt)| ==> ValueAt(q, Roots(q, sqrt)[k]) == 0.0
  {
    var d := Discriminant(q);
    if q.a != 0.0 {
      if d == 0.0 {
        Quotient(q, 0.0);
        RootFromSquare(q, -q.b / (2.0 * q.a), 0.0);
      } else {
        var e := sqrt(d);
        assert IsSqrtOf(e, d);
        Quotient(q, e);
        Quotient(q, -e);
        assert (-q.b - e) / (2.0 * q.a) == (-q.b + -e) / (2.0 * q.a);
        RootFromSquare(q, (-q.b + e) / (2.0 * q.a), e);
        RootFromSquare(q, (-q.b - e) / (2.0 * q.a), -e);
      }
    }
  }

  /** 2ar + b == e determines r when a is not zero. */
  lemma SolveLinear(q: Quadratic, r: real, e: real)
    requires q.a != 0.0 && 2.0 * q.a * r + q.b == e
    ensures r == (-q.b + e) / (2.0 * q.a)
  {
  }

  lemma SquareZero(x: real, y: real)
    requires x == y && x * y == 0.0
    ensures x == 0.0
  {
    ProductWithSelf(x, y);
  }

  /** Two numbers with the same square are equal up to sign. */
  lemma EqualSquares(x: real, y: real)
    requires x * x == y * y
    ensures x == y || x == -y
  {
    assert (x - y) * (x + y) == 0.0;
    if x - y != 0.0 {
      ZeroProduct(x - y, x + y);
    }
  }

  /**
   * Completeness of the solve: when a is not zero every root of the quadratic in [0, 1] is
   * among the values findRoots reports.
   */
  lemma RootsComplete(q: Quadratic, sqrt: real -> real, s: real)
    requires IsSqrt(sqrt) && q.a != 0.0 && ValueAt(q, s) == 0.0 && InUnit(s)
    ensures s in Roots(q, sqrt)
  {
    var e := 2.0 * q.a * s + q.b;
    CompletedSquare(q, s);
    var d := Discriminant(q);
    assert d == e * e;
    ProductWithSelf(e, e);
    SolveLinear(q, s, e);
    if d == 0.0 {
      SquareZero(e, e);
    } else {
      var root := sqrt(d);
      assert IsSqrtOf(root, d);
      EqualSquares(e, root);
      assert (-q.b - root) / (2.0 * q.a) == (-q.b + -root) / (2.0 * q.a);
    }
  }
}
