// 4x4 matrices (the Eigen Matrix4d of the source), stored row by row. Only what the model
// needs: cell access and update, and the columns and rows that the pose matrices provide.
module Matrices {
  import opened Helpers

  ghost predicate IsMatrix4(m: seq<seq<real>>)
  {
    |m| == 4 && forall i :: 0 <= i < 4 ==> |m[i]| == 4
  }

  type Matrix4 = m: seq<seq<real>> | IsMatrix4(m)
    witness [[0.0, 0.0, 0.0, 0.0], [0.0, 0.0, 0.0, 0.0], [0.0, 0.0, 0.0, 0.0], [0.0, 0.0, 0.0, 0.0]]

  /** Matrix4::Zero(). */
  function Zero(): (m: Matrix4)
    ensures forall i, j :: 0 <= i < 4 && 0 <= j < 4 ==> m[i][j] == 0.0
  {
    seq(4, _ => seq(4, _ => 0.0))
  }

  /** m(i, j) = v: one cell changes, every other cell keeps its value. */
  function Set(m: Matrix4, i: int, j: int, v: real): (r: Matrix4)
    requires 0 <= i < 4 && 0 <= j < 4
    ensures r[i][j] == v
    ensures forall k, l :: 0 <= k < 4 && 0 <= l < 4 && (k != i || l != j) ==> r[k][l] == m[k][l]
  {
    m[i := m[i][j := v]]
  }

  /** Rows 0..2 of column j: the image axis j of a pose matrix, or its translation for j = 3. */
  function Column(m: Matrix4, j: int): (c: Vec3)
    requires 0 <= j < 4
    ensures forall i :: 0 <= i < 3 ==> c[i] == m[i][j]
  {
    [m[0][j], m[1][j], m[2][j]]
  }

  /** Columns 0..2 of row i. */
  function Row(m: Matrix4, i: int): (r: Vec3)
    requires 0 <= i < 4
    ensures forall j :: 0 <= j < 3 ==> r[j] == m[i][j]
  {
    [m[i][0], m[i][1], m[i][2]]
  }
}
