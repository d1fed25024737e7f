// Small numeric helpers shared by the whole model (lib/helpers.hpp).
// Floating point is modelled by `real`; sqrt is not computable on `real`, so every operation
// that needs one receives it as a function argument constrained by IsSqrt.
module Helpers {

  /** A 3-vector: the `T pt[3]` arrays of the source. */
  type Vec3 = v: seq<real> | |v| == 3 witness [0.0, 0.0, 0.0]

  datatype Option<+T> = None | Some(value: T)

  /** Failure of a call that the source reports with reportError (which throws). */
  datatype Result<+T> = Ok(value: T) | Error(msg: string)

  /** sgn(v): (0 < v) - (v < 0). */
  function Sgn(v: real): (s: int)
    ensures s == -1 <==> v < 0.0
    ensures s == 0 <==> v == 0.0
    ensures s == 1 <==> v > 0.0
  {
    (if 0.0 < v then 1 else 0) - (if v < 0.0 then 1 else 0)
  }

  /** The C++ conversion of a double u to int: truncation toward zero. */
  function Trunc(u: real): (r: int)
    ensures u >= 0.0 ==> r as real <= u < r as real + 1.0
    ensures u < 0.0 ==> r as real - 1.0 < u <= r as real
  {
    if u >= 0.0 then u.Floor else -((-u).Floor)
  }

  function Abs(v: real): real { if v < 0.0 then -v else v }

  /** `v * sgn(v)` is the absolute value of v: the idiom the pipeline uses for |direction| and |velocity|. */
  lemma SgnTimesSelfIsAbs(v: real)
    ensures v * (Sgn(v) as real) == Abs(v)
  {
  }

  /** innerProduct: the three-term sum of products. */
  function InnerProduct(a: Vec3, b: Vec3): real
  {
    a[0] * b[0] + a[1] * b[1] + a[2] * b[2]
  }

  function Scale(k: real, v: Vec3): (r: Vec3)
    ensures forall i :: 0 <= i < 3 ==> r[i] == k * v[i]
  {
    [k * v[0], k * v[1], k * v[2]]
  }

  function Add(a: Vec3, b: Vec3): (r: Vec3)
    ensures forall i :: 0 <= i < 3 ==> r[i] == a[i] + b[i]
  {
    [a[0] + b[0], a[1] + b[1], a[2] + b[2]]
  }

  function Sub(a: Vec3, b: Vec3): (r: Vec3)
    ensures forall i :: 0 <= i < 3 ==> r[i] == a[i] - b[i]
  {
    [a[0] - b[0], a[1] - b[1], a[2] - b[2]]
  }

  predicate IsZero(v: Vec3) { v[0] == 0.0 && v[1] == 0.0 && v[2] == 0.0 }

  lemma InnerProductSymmetric(a: Vec3, b: Vec3)
    ensures InnerProduct(a, b) == InnerProduct(b, a)
  {
  }

  lemma MulPositive(x: real, y: real)
    requires x > 0.0 && y > 0.0
    ensures x * y > 0.0
  {
  }

  /**
   * The product of a number with itself, stated over two names for it: the solver reasons
   * about the sign of `x * y` far more reliably than about a literal square.
   */
  lemma ProductWithSelf(x: real, y: real)
    requires x == y
    ensures x * y >= 0.0
    ensures x != 0.0 ==> x * y > 0.0
  {
    if x > 0.0 {
      MulPositive(x, y);
    } else if x < 0.0 {
      MulPositive(-x, -y);
    }
  }

  lemma SquareNonNegative(x: real)
    ensures x * x >= 0.0
  {
    ProductWithSelf(x, x);
  }

  /** innerProduct(a, a) is never negative and is positive for every vector but the zero vector. */
  lemma InnerProductWithSelf(a: Vec3, b: Vec3)
    requires a == b
    ensures InnerProduct(a, b) >= 0.0
    ensures !IsZero(a) ==> InnerProduct(a, b) > 0.0
  {
    ProductWithSelf(a[0], b[0]);
    ProductWithSelf(a[1], b[1]);
    ProductWithSelf(a[2], b[2]);
    var p0, p1, p2 := a[0] * b[0], a[1] * b[1], a[2] * b[2];
    assert InnerProduct(a, b) == p0 + p1 + p2;
    if a[0] != 0.0 {
      assert p0 > 0.0;
    } else if a[1] != 0.0 {
      assert p1 > 0.0;
    } else if a[2] != 0.0 {
      assert p2 > 0.0;
    }
  }

  /** innerProduct(a, a) is never negative and is zero exactly for the zero vector. */
  lemma InnerProductSelf(a: Vec3)
    ensures InnerProduct(a, a) >= 0.0
    ensures InnerProduct(a, a) == 0.0 <==> IsZero(a)
  {
    InnerProductWithSelf(a, a);
  }

  /** Cauchy-Schwarz in three dimensions, through Lagrange's identity. */
  lemma CauchySchwarz(a: Vec3, b: Vec3)
    ensures InnerProduct(a, b) * InnerProduct(a, b) <= InnerProduct(a, a) * InnerProduct(b, b)
  {
    var c0 := a[1] * b[2] - a[2] * b[1];
    var c1 := a[2] * b[0] - a[0] * b[2];
    var c2 := a[0] * b[1] - a[1] * b[0];
    assert InnerProduct(a, a) * InnerProduct(b, b) - InnerProduct(a, b) * InnerProduct(a, b)
        == c0 * c0 + c1 * c1 + c2 * c2;
    SquareNonNegative(c0);
    SquareNonNegative(c1);
    SquareNonNegative(c2);
  }

  /** r is the (non-negative) square root of x. */
  predicate IsSqrtOf(r: real, x: real) { r >= 0.0 && r * r == x }

  /**
   * sqrt is a square root function on the non-negative reals (the `sqrt` of <cmath>): its
   * result is the non-negative root, and it is zero exactly at zero.
   */
  ghost predicate IsSqrt(sqrt: real -> real)
  {
    forall x :: x >= 0.0 ==> IsSqrtOf(sqrt(x), x) && (sqrt(x) == 0.0 <==> x == 0.0)
  }

  /** length3d: the square root of innerProduct(a, a). */
  function Length3d(a: Vec3, sqrt: real -> real): (r: real)
    requires IsSqrt(sqrt)
    ensures r >= 0.0 && r * r == InnerProduct(a, a)
    ensures r == 0.0 <==> IsZero(a)
  {
    InnerProductSelf(a);
    var r := sqrt(InnerProduct(a, a));
    assert IsSqrtOf(r, InnerProduct(a, a)) && (r == 0.0 <==> InnerProduct(a, a) == 0.0);
    r
  }

  /**
   * normalize3d: each component divided by length3d (over the reals, a scaling by its
   * reciprocal). The source divides by zero for the zero vector and its callers skip the NaN
   * result; here that case is None.
   */
  function Normalize3d(a: Vec3, sqrt: real -> real): (r: Option<Vec3>)
    requires IsSqrt(sqrt)
    ensures r.None? <==> IsZero(a)
    ensures r.Some? ==> InnerProduct(r.value, r.value) == 1.0
    ensures r.Some? ==> exists k :: k > 0.0 && r.value == Scale(k, a)
  {
    var len := Length3d(a, sqrt);
    if len == 0.0 then None
    else
      ReciprocalPositive(len);
      UnitAfterScaling(a, len, 1.0 / len);
      Some(Scale(1.0 / len, a))
  }

  lemma InnerProductScaled(k: real, a: Vec3)
    ensures InnerProduct(Scale(k, a), Scale(k, a)) == (k * k) * InnerProduct(a, a)
  {
  }

  lemma UnitAfterScaling(a: Vec3, len: real, k: real)
    requires len > 0.0 && len * len == InnerProduct(a, a) && k * len == 1.0
    ensures InnerProduct(Scale(k, a), Scale(k, a)) == 1.0
  {
    InnerProductScaled(k, a);
    calc {
      (k * k) * InnerProduct(a, a);
      (k * k) * (len * len);
      (k * len) * (k * len);
      1.0;
    }
  }

  lemma NonPositiveTimesPositive(x: real, y: real)
    requires x <= 0.0 && y > 0.0
    ensures x * y <= 0.0
  {
  }

  lemma ReciprocalPositive(y: real)
    requires y > 0.0
    ensures 1.0 / y > 0.0 && (1.0 / y) * y == 1.0
  {
    var k := 1.0 / y;
    assert k * y == 1.0;
    if k <= 0.0 {
      NonPositiveTimesPositive(k, y);
    }
  }
}
