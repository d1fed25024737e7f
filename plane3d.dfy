// The plane equation a*x + b*y + c*z + d of core/plane3d.hpp. The class only fills its four
// coefficients and evaluates an expression, so it is a value here; setCoefficient returns the
// updated plane.
module Planes {
  import opened Helpers
  import opened Matrices

  type Coefficients = s: seq<real> | |s| == 4 witness [0.0, 0.0, 0.0, 0.0]

  datatype Plane3D = Plane3D(coeffs: Coefficients)

  /** The normal (a, b, c). */
  function Normal(p: Plane3D): Vec3
  {
    [p.coeffs[0], p.coeffs[1], p.coeffs[2]]
  }

  /** Plane3D(const double coeffs[4]): copies all four values. */
  function FromCoefficients(c: seq<real>): (p: Plane3D)
    requires |c| == 4
    ensures forall i :: 0 <= i < 4 ==> GetCoefficient(p, i) == c[i]
  {
    Plane3D(c)
  }

  /** The zero constructor: every coefficient 0. */
  function ZeroPlane(): (p: Plane3D)
    ensures forall pt: Vec3 :: GetDistance(p, pt) == 0.0
  {
    Plane3D([0.0, 0.0, 0.0, 0.0])
  }

  /**
   * The matrix constructors (Matrix4f and Matrix4d alike): the normal is column 2 of the pose
   * (the image z axis) and d = -(normal . translation), so the pose origin lies on the plane.
   */
  function FromMatrix(m: Matrix4): (p: Plane3D)
    ensures Normal(p) == Column(m, 2)
    ensures GetDistance(p, Column(m, 3)) == 0.0
  {
    var d := 0.0 - m[0][2] * m[0][3] - m[1][2] * m[1][3] - m[2][2] * m[2][3];
    Plane3D([m[0][2], m[1][2], m[2][2], d])
  }

  /** setCoefficient(i, c): slot i becomes c, the other three are kept. */
  function SetCoefficient(p: Plane3D, i: int, c: real): (r: Plane3D)
    requires 0 <= i < 4
    ensures GetCoefficient(r, i) == c
    ensures forall j :: 0 <= j < 4 && j != i ==> GetCoefficient(r, j) == GetCoefficient(p, j)
  {
    Plane3D(p.coeffs[i := c])
  }

  /** getCoefficient(i). */
  function GetCoefficient(p: Plane3D, i: int): (r: real)
    requires 0 <= i < 4
    ensures i < 3 ==> r == Normal(p)[i]
    ensures i == 3 ==> r == GetDistance(p, [0.0, 0.0, 0.0])
  {
    p.coeffs[i]
  }

  /** getDistance(pt): the loop sum pt[i]*c[i] over i = 0..2, then + d. */
  function GetDistance(p: Plane3D, pt: Vec3): (r: real)
    ensures r == InnerProduct(Normal(p), pt) + p.coeffs[3]
  {
    0.0 + pt[0] * p.coeffs[0] + pt[1] * p.coeffs[1] + pt[2] * p.coeffs[2] + p.coeffs[3]
  }

  /** The distance is affine: its difference at two points is the normal times their difference. */
  lemma DistanceDifference(p: Plane3D, a: Vec3, b: Vec3)
    ensures GetDistance(p, a) - GetDistance(p, b) == InnerProduct(Normal(p), Sub(a, b))
  {
  }
}
