// The quadratic B-spline fitter (core/lib/quadratic_spline_fitter.hpp): for N points it
// assembles an (N+2)x(N+2) sparse system row by row as triplets plus a right-hand side, hands
// it to a sparse solver, and copies the solution out as the control points. The solver is a
// function argument; all that is assumed of it is that it returns a solution of the systems
// this fitter builds.
module Fitter {
  import opened Helpers
  import opened Curves

  /** Eigen::Triplet: one (row, column, value) entry; duplicates are summed. */
  datatype Triplet = Triplet(row: int, col: int, val: real)

  /** Row i of the interpolation conditions: weights 1/8, 3/4, 1/8 around column i. */
  function InteriorRow(i: int): seq<Triplet>
  {
    [Triplet(i, i - 1, 0.125), Triplet(i, i, 0.75), Triplet(i, i + 1, 0.125)]
  }

  /** __insertStartpointCoeffs(i): -x[i] + x[i+1]. */
  function StartRow(i: int): seq<Triplet>
  {
    [Triplet(i, i, -1.0), Triplet(i, i + 1, 1.0)]
  }

  /** __insertEndpointCoeffs(i): -x[i-1] + x[i]. */
  function EndRow(i: int): seq<Triplet>
  {
    [Triplet(i, i - 1, -1.0), Triplet(i, i, 1.0)]
  }

  /** The interior rows 1 .. m-1, in the order the loop pushes them. */
  function InteriorRows(m: nat): seq<Triplet>
  {
    if m <= 1 then [] else InteriorRows(m - 1) + InteriorRow(m - 1)
  }

  /** The triplet list for `count` points (n = count + 2 unknowns). */
  function SystemTriplets(count: nat): seq<Triplet>
  {
    InteriorRows(count + 1) + StartRow(0) + EndRow(count + 1)
  }

  /** The right-hand side: zero, the points, zero. */
  function SystemRhs(points: seq<real>): seq<real>
  {
    [0.0] + points + [0.0]
  }

  /** Every triplet addresses a column of an x of the given size. */
  predicate ColumnsIn(ts: seq<Triplet>, size: int)
  {
    forall k :: 0 <= k < |ts| ==> 0 <= ts[k].col < size
  }

  /** Row i of the matrix setFromTriplets builds, applied to x: the sum over that row's triplets. */
  function RowDot(ts: seq<Triplet>, i: int, x: seq<real>): real
    requires ColumnsIn(ts, |x|)
  {
    if ts == [] then 0.0
    else (if ts[0].row == i then ts[0].val * x[ts[0].col] else 0.0) + RowDot(ts[1..], i, x)
  }

  /** x solves A x = b for the matrix the triplets describe. */
  predicate IsSolution(ts: seq<Triplet>, b: seq<real>, x: seq<real>)
  {
    |x| == |b| && ColumnsIn(ts, |x|) && forall i :: 0 <= i < |b| ==> RowDot(ts, i, x) == b[i]
  }

  /** What the sparse solver is trusted to do: solve every system this fitter assembles. */
  ghost predicate IsFitterSolver(solve: (seq<Triplet>, seq<real>) -> seq<real>)
  {
    forall points: seq<real> {:trigger SystemRhs(points)} ::
      IsSolution(SystemTriplets(|points|), SystemRhs(points), solve(SystemTriplets(|points|), SystemRhs(points)))
  }

  lemma SolverSolves(solve: (seq<Triplet>, seq<real>) -> seq<real>, points: seq<real>)
    requires IsFitterSolver(solve)
    ensures IsSolution(SystemTriplets(|points|), SystemRhs(points), solve(SystemTriplets(|points|), SystemRhs(points)))
    ensures |solve(SystemTriplets(|points|), SystemRhs(points))| == |points| + 2
  {
  }

  lemma {:induction false} RowDotAppend(a: seq<Triplet>, b: seq<Triplet>, i: int, x: seq<real>)
    requires ColumnsIn(a, |x|) && ColumnsIn(b, |x|)
    ensures ColumnsIn(a + b, |x|)
    ensures RowDot(a + b, i, x) == RowDot(a, i, x) + RowDot(b, i, x)
  {
    if a == [] {
      assert a + b == b;
    } else {
      assert (a + b)[0] == a[0] && (a + b)[1..] == a[1..] + b;
      RowDotAppend(a[1..], b, i, x);
    }
  }

  /** One row's triplets contribute to that row only. */
  lemma InteriorRowDot(j: int, i: int, x: seq<real>)
    requires 1 <= j && j + 1 < |x|
    ensures ColumnsIn(InteriorRow(j), |x|)
    ensures RowDot(InteriorRow(j), i, x)
         == if i == j then 0.125 * x[j - 1] + 0.75 * x[j] + 0.125 * x[j + 1] else 0.0
  {
    var ts := InteriorRow(j);
    var t1, t2 := ts[1..], ts[1..][1..];
    assert t2[1..] == [];
    assert RowDot(t2, i, x) == (if i == j then 0.125 * x[j + 1] else 0.0);
    assert RowDot(t1, i, x) == (if i == j then 0.75 * x[j] else 0.0) + RowDot(t2, i, x);
  }

  lemma StartRowDot(j: int, i: int, x: seq<real>)
    requires 0 <= j && j + 1 < |x|
    ensures ColumnsIn(StartRow(j), |x|)
    ensures RowDot(StartRow(j), i, x) == if i == j then -x[j] + x[j + 1] else 0.0
  {
    var ts := StartRow(j);
    var t1 := ts[1..];
    assert t1[1..] == [];
    assert RowDot(t1, i, x) == (if i == j then 1.0 * x[j + 1] else 0.0);
  }

  lemma EndRowDot(j: int, i: int, x: seq<real>)
    requires 1 <= j < |x|
    ensures ColumnsIn(EndRow(j), |x|)
    ensures RowDot(EndRow(j), i, x) == if i == j then -x[j - 1] + x[j] else 0.0
  {
    var ts := EndRow(j);
    var t1 := ts[1..];
    assert t1[1..] == [];
    assert RowDot(t1, i, x) == (if i == j then 1.0 * x[j] else 0.0);
  }

  /** The interior rows reach exactly columns 0 .. m, and row i < m reads the three around it. */
  lemma {:induction false} InteriorRowsDot(m: nat, i: int, x: seq<real>)
    requires m + 1 <= |x|
    ensures ColumnsIn(InteriorRows(m), |x|)
    ensures 1 <= i < m ==> RowDot(InteriorRows(m), i, x) == 0.125 * x[i - 1] + 0.75 * x[i] + 0.125 * x[i + 1]
    ensures !(1 <= i < m) ==> RowDot(InteriorRows(m), i, x) == 0.0
  {
    if m > 1 {
      InteriorRowsDot(m - 1, i, x);
      InteriorRowDot(m - 1, i, x);
      RowDotAppend(InteriorRows(m - 1), InteriorRow(m - 1), i, x);
    }
  }

  /**
   * The equations of the assembled system for count points, row by row: row 0 says
   * x[0] == x[1], rows 1..count are the interpolation conditions, the last says
   * x[count] == x[count+1].
   */
  lemma SystemRows(count: nat, x: seq<real>, i: int)
    requires |x| == count + 2
    ensures ColumnsIn(SystemTriplets(count), |x|)
    ensures i == 0 ==> RowDot(SystemTriplets(count), i, x) == -x[0] + x[1]
    ensures 1 <= i <= count ==>
              RowDot(SystemTriplets(count), i, x) == 0.125 * x[i - 1] + 0.75 * x[i] + 0.125 * x[i + 1]
    ensures i == count + 1 ==> RowDot(SystemTriplets(count), i, x) == -x[count] + x[count + 1]
  {
    var interior := InteriorRows(count + 1);
    InteriorRowsDot(count + 1, i, x);
    StartRowDot(0, i, x);
    EndRowDot(count + 1, i, x);
    RowDotAppend(interior, StartRow(0), i, x);
    RowDotAppend(interior + StartRow(0), EndRow(count + 1), i, x);
  }

  /**
   * The fitter's equations written out: equal end pairs, and the 1/8, 3/4, 1/8 weights of
   * consecutive control points give each point.
   */
  predicate FitEquations(points: seq<real>, x: seq<real>)
    requires |x| == |points| + 2
  {
    x[0] == x[1] && x[|points|] == x[|points| + 1]
    && forall k :: 0 <= k < |points| ==> 0.125 * x[k] + 0.75 * x[k + 1] + 0.125 * x[k + 2] == points[k]
  }

  lemma SolutionGivesEquations(points: seq<real>, x: seq<real>)
    requires |x| == |points| + 2
    requires IsSolution(SystemTriplets(|points|), SystemRhs(points), x)
    ensures FitEquations(points, x)
  {
    var n := |points|;
    var ts, b := SystemTriplets(n), SystemRhs(points);
    SystemRows(n, x, 0);
    SystemRows(n, x, n + 1);
    assert RowDot(ts, 0, x) == b[0] == 0.0;
    assert RowDot(ts, n + 1, x) == b[n + 1] == 0.0;
    forall k | 0 <= k < n
      ensures 0.125 * x[k] + 0.75 * x[k + 1] + 0.125 * x[k + 2] == points[k]
    {
      SystemRows(n, x, k + 1);
      assert RowDot(ts, k + 1, x) == b[k + 1] == points[k];
    }
  }

  lemma EquationsGiveSolution(points: seq<real>, x: seq<real>)
    requires |x| == |points| + 2
    requires FitEquations(points, x)
    ensures IsSolution(SystemTriplets(|points|), SystemRhs(points), x)
  {
    var n := |points|;
    var ts, b := SystemTriplets(n), SystemRhs(points);
    SystemRows(n, x, 0);
    forall i | 0 <= i < |b|
      ensures RowDot(ts, i, x) == b[i]
    {
      SystemRows(n, x, i);
      if 1 <= i <= n {
        var k := i - 1;
        assert 0.125 * x[k] + 0.75 * x[k + 1] + 0.125 * x[k + 2] == points[k] == b[i];
      }
    }
  }

  /** A solution of the fitter system is exactly a vector satisfying those equations. */
  lemma SolutionIff(points: seq<real>, x: seq<real>)
    requires |x| == |points| + 2
    ensures IsSolution(SystemTriplets(|points|), SystemRhs(points), x) <==> FitEquations(points, x)
  {
    if IsSolution(SystemTriplets(|points|), SystemRhs(points), x) {
      SolutionGivesEquations(points, x);
    }
    if FitEquations(points, x) {
      EquationsGiveSolution(points, x);
    }
  }

  /**
   * Any solution interpolates: evaluated with the spline basis at integer parameter k, the
   * control points reproduce points[k].
   */
  lemma SolutionInterpolates(points: seq<real>, x: seq<real>, k: int)
    requires IsSolution(SystemTriplets(|points|), SystemRhs(points), x)
    requires 0 <= k < |points|
    ensures Evaluate(x, k as real) == Some(points[k])
  {
    SolutionIff(points, x);
    LocateInteger(k);
    BasisAtHalf(x, k + 1);
  }

  /** A single point p forces the control points [p, p, p], and they do solve it. */
  lemma SinglePointFit(p: real, x: seq<real>)
    requires |x| == 3
    ensures IsSolution(SystemTriplets(1), SystemRhs([p]), x) <==> x == [p, p, p]
  {
    SolutionIff([p], x);
  }

  /**
   * With no points both rows are -x[0] + x[1] = 0: the system is singular, and every constant
   * pair solves it.
   */
  lemma EmptyFitSingular(x: seq<real>, c: real)
    requires |x| == 2
    ensures RowDot(SystemTriplets(0), 0, x) == RowDot(SystemTriplets(0), 1, x)
    ensures IsSolution(SystemTriplets(0), SystemRhs([]), [c, c])
  {
    SystemRows(0, x, 0);
    SystemRows(0, x, 1);
    SolutionIff([], [c, c]);
  }

  class QuadraticSplineFitter {
    /** m_points: the values to interpolate. */
    var points: seq<real>

    constructor (points: seq<real>)
      ensures this.points == points
    {
      this.points := points;
    }

    method SetPoints(points: seq<real>)
      modifies this
      ensures this.points == points
    {
      this.points := points;
    }

    /** __insertStartpointCoeffs(triplets, b, i). */
    static method InsertStartpointCoeffs(triplets: seq<Triplet>, b: array<real>, i: int)
      returns (r: seq<Triplet>)
      requires 0 <= i < b.Length
      modifies b
      ensures r == triplets + StartRow(i)
      ensures b[..] == old(b[..])[i := 0.0]
    {
      r := triplets + [Triplet(i, i, -1.0)];
      r := r + [Triplet(i, i + 1, 1.0)];
      b[i] := 0.0;
    }

    /** __insertEndpointCoeffs(triplets, b, i). */
    static method InsertEndpointCoeffs(triplets: seq<Triplet>, b: array<real>, i: int)
      returns (r: seq<Triplet>)
      requires 0 <= i < b.Length
      modifies b
      ensures r == triplets + EndRow(i)
      ensures b[..] == old(b[..])[i := 0.0]
    {
      r := triplets + [Triplet(i, i - 1, -1.0)];
      r := r + [Triplet(i, i, 1.0)];
      b[i] := 0.0;
    }

    /** The assembly part of compute_control_points: the triplets and b handed to the solver. */
    method AssembleSystem() returns (triplets: seq<Triplet>, rhs: seq<real>)
      ensures triplets == SystemTriplets(|points|)
      ensures rhs == SystemRhs(points)
    {
      var n := |points| + 2;
      var b := new real[n];
      triplets := [];
      var i := 1;
      while i < n - 1
        invariant 1 <= i <= n - 1
        invariant triplets == InteriorRows(i)
        invariant forall k :: 1 <= k < i ==> b[k] == points[k - 1]
      {
        triplets := triplets + [Triplet(i, i - 1, 0.125)];
        triplets := triplets + [Triplet(i, i, 0.75)];
        triplets := triplets + [Triplet(i, i + 1, 0.125)];
        b[i] := points[i - 1];
        i := i + 1;
      }
      triplets := InsertStartpointCoeffs(triplets, b, 0);
      triplets := InsertEndpointCoeffs(triplets, b, n - 1);
      rhs := b[..];
      assert rhs == SystemRhs(points);
    }

    /** The copy of the solver's vector into the returned std::vector, entry by entry. */
    static method CopyOut(x: seq<real>) returns (ret: seq<real>)
      ensures ret == x
    {
      ret := [];
      var i := 0;
      while i < |x|
        invariant 0 <= i <= |x|
        invariant ret == x[..i]
      {
        ret := ret + [x[i]];
        i := i + 1;
      }
    }

    /**
     * compute_control_points: |points| + 2 control points solving the fitter system, so
     * (SolutionInterpolates) the spline through them passes through every point.
     */
    method ComputeControlPoints(solve: (seq<Triplet>, seq<real>) -> seq<real>) returns (ret: seq<real>)
      requires IsFitterSolver(solve)
      ensures ret == solve(SystemTriplets(|points|), SystemRhs(points))
      ensures |ret| == |points| + 2
      ensures IsSolution(SystemTriplets(|points|), SystemRhs(points), ret)
      ensures forall k :: 0 <= k < |points| ==> Evaluate(ret, k as real) == Some(points[k])
    {
      var triplets, b := AssembleSystem();
      var x := solve(triplets, b);
      SolverSolves(solve, points);
      ret := CopyOut(x);
      forall k | 0 <= k < |points|
        ensures Evaluate(ret, k as real) == Some(points[k])
      {
        SolutionInterpolates(points, ret, k);
      }
    }
  }
}
