/**
  The planar body-to-world rotation matrix that both the dynamics and the
  policy build from the heading.
 */
module Rotation {
  import opened LinAlg
  import opened Params

  /** The rotation with cosine `c` and sine `s`:
      [[c, -s, 0], [s, c, 0], [0, 0, 1]]. */
  function Rot(c: real, s: real): (R: Mat)
    ensures IsMat(R, 3, 3)
  {
    [[c, -s, 0.0], [s, c, 0.0], [0.0, 0.0, 1.0]]
  }

  /** The rotation for a heading, with the trigonometry supplied by `t`. */
  function RotationOf(t: Trig, heading: real): (R: Mat)
    ensures IsMat(R, 3, 3)
  {
    Rot(t.cos(heading), t.sin(heading))
  }

  /** Rotating a body-frame rate: the first two entries turn by the heading,
      the third (the yaw rate) passes through unchanged, whatever `c` and `s`. */
  lemma RotApply(c: real, s: real, v: Vec)
    requires |v| == 3
    ensures MatVec(Rot(c, s), v) == [c * v[0] - s * v[1], s * v[0] + c * v[1], v[2]]
  {
    var R := Rot(c, s);
    var r := MatVec(R, v);
    Dot3(R[0], v);
    Dot3(R[1], v);
    Dot3(R[2], v);
    assert r[0] == c * v[0] - s * v[1];
    assert r[1] == s * v[0] + c * v[1];
    assert r[2] == v[2];
  }

  /** With c^2 + s^2 == 1 (the identity cos^2 + sin^2 == 1, which holds for the
      real trigonometric functions but is not something the model knows about
      `Trig`), the rotation is orthonormal with determinant one. */
  lemma RotationOrthonormal(c: real, s: real)
    requires c * c + s * s == 1.0
    ensures MatMul(Rot(c, s), Transpose(Rot(c, s), 3), 3) == Identity(3)
    ensures Det3(Rot(c, s)) == 1.0
  {
    RotationDeterminant(c, s);
    var P := MatMul(Rot(c, s), Transpose(Rot(c, s), 3), 3);
    var I := Identity(3);
    forall i | 0 <= i < 3
      ensures P[i] == I[i]
    {
      forall j | 0 <= j < 3
        ensures P[i][j] == I[i][j]
      {
        ProductEntry(c, s, i, j);
      }
    }
  }

  /** One entry of R . R^T: the dot product of rows `i` and `j` of `R`. */
  lemma ProductEntry(c: real, s: real, i: nat, j: nat)
    requires c * c + s * s == 1.0
    requires i < 3 && j < 3
    ensures MatMul(Rot(c, s), Transpose(Rot(c, s), 3), 3)[i][j] == (if i == j then 1.0 else 0.0)
  {
    var R := Rot(c, s);
    var col := Column(Transpose(R, 3), j);
    assert col[0] == R[j][0] && col[1] == R[j][1] && col[2] == R[j][2];
    Dot3(R[i], col);
    RowProducts(c, s, R, i, j);
  }

  lemma RotationDeterminant(c: real, s: real)
    ensures Det3(Rot(c, s)) == c * c + s * s
  {
    var R := Rot(c, s);
    assert R[0][0] * (R[1][1] * R[2][2] - R[1][2] * R[2][1]) == c * c;
    assert R[0][1] * (R[1][0] * R[2][2] - R[1][2] * R[2][0]) == -(s * s);
    assert R[0][2] * (R[1][0] * R[2][1] - R[1][1] * R[2][0]) == 0.0;
  }

  /** The rows of `Rot(c, s)` are pairwise orthogonal and of unit length. */
  lemma RowProducts(c: real, s: real, R: Mat, i: nat, j: nat)
    requires c * c + s * s == 1.0
    requires R == Rot(c, s) && i < 3 && j < 3
    ensures R[i][0] * R[j][0] + R[i][1] * R[j][1] + R[i][2] * R[j][2] == (if i == j then 1.0 else 0.0)
  {
    assert (-s) * (-s) == s * s;
    assert c * (-s) == -(c * s);
  }

  /** Determinant of a 3 x 3 matrix by cofactor expansion along the first row. */
  function Det3(A: Mat): real
    requires IsMat(A, 3, 3)
  {
    A[0][0] * (A[1][1] * A[2][2] - A[1][2] * A[2][1])
    - A[0][1] * (A[1][0] * A[2][2] - A[1][2] * A[2][0])
    + A[0][2] * (A[1][0] * A[2][1] - A[1][1] * A[2][0])
  }
}
