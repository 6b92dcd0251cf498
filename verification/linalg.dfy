/**
  Fixed-shape real linear algebra: the handful of numpy operations the
  escape behaviour uses (componentwise arithmetic, dot products,
  matrix-vector and matrix-matrix products, transpose, horizontal stacking,
  diagonal matrices), written over `seq<real>` so that every shape is a
  plain length fact.
 */
module LinAlg {

  type Vec = seq<real>
  type Mat = seq<seq<real>>

  /** `A` has `rows` rows, each of length `cols`. */
  predicate IsMat(A: Mat, rows: nat, cols: nat) {
    |A| == rows && forall i :: 0 <= i < rows ==> |A[i]| == cols
  }

  /** Magnitude of a real (`abs`). */
  function Abs(v: real): (a: real)
    ensures a >= 0.0 && (a == v || a == -v)
  {
    if v < 0.0 then -v else v
  }

  predicate IsZero(v: Vec) {
    forall i :: 0 <= i < |v| ==> v[i] == 0.0
  }

  function Add(a: Vec, b: Vec): (r: Vec)
    requires |a| == |b|
    ensures |r| == |a|
    ensures forall i {:trigger r[i]} :: 0 <= i < |a| ==> r[i] == a[i] + b[i]
  {
    seq(|a|, i requires 0 <= i < |a| => a[i] + b[i])
  }

  function Sub(a: Vec, b: Vec): (r: Vec)
    requires |a| == |b|
    ensures |r| == |a|
    ensures forall i {:trigger r[i]} :: 0 <= i < |a| ==> r[i] == a[i] - b[i]
  {
    seq(|a|, i requires 0 <= i < |a| => a[i] - b[i])
  }

  /** numpy's `*` on two arrays of the same shape: the componentwise product. */
  function Mul(a: Vec, b: Vec): (r: Vec)
    requires |a| == |b|
    ensures |r| == |a|
    ensures forall i {:trigger r[i]} :: 0 <= i < |a| ==> r[i] == a[i] * b[i]
  {
    seq(|a|, i requires 0 <= i < |a| => a[i] * b[i])
  }

  /** numpy's `v*k` for a scalar `k`. */
  function Scale(v: Vec, k: real): (r: Vec)
    ensures |r| == |v|
    ensures forall i {:trigger r[i]} :: 0 <= i < |v| ==> r[i] == v[i] * k
  {
    seq(|v|, i requires 0 <= i < |v| => v[i] * k)
  }

  function Dot(a: Vec, b: Vec): real
    requires |a| == |b|
    decreases |a|
  {
    if |a| == 0 then 0.0 else a[0] * b[0] + Dot(a[1..], b[1..])
  }

  /** `A.dot(v)`: entry `i` is the dot product of row `i` with `v`. */
  function MatVec(A: Mat, v: Vec): (r: Vec)
    requires forall i :: 0 <= i < |A| ==> |A[i]| == |v|
    ensures |r| == |A|
    ensures forall i {:trigger r[i]} :: 0 <= i < |A| ==> r[i] == Dot(A[i], v)
  {
    seq(|A|, i requires 0 <= i < |A| => Dot(A[i], v))
  }

  function Column(A: Mat, j: nat): (c: Vec)
    requires forall i :: 0 <= i < |A| ==> j < |A[i]|
    ensures |c| == |A|
    ensures forall i {:trigger c[i]} :: 0 <= i < |A| ==> c[i] == A[i][j]
  {
    seq(|A|, i requires 0 <= i < |A| => A[i][j])
  }

  /** The row vector `a` times the matrix `C` (which has `cols` columns). */
  function VecMat(a: Vec, C: Mat, cols: nat): (r: Vec)
    requires IsMat(C, |a|, cols)
    ensures |r| == cols
    ensures forall j {:trigger r[j]} :: 0 <= j < cols ==> r[j] == Dot(a, Column(C, j))
  {
    seq(cols, j requires 0 <= j < cols => Dot(a, Column(C, j)))
  }

  /** `A.dot(C)` where `C` has `cols` columns (passed because `C` may have no rows). */
  function MatMul(A: Mat, C: Mat, cols: nat): (P: Mat)
    requires IsMat(A, |A|, |C|)
    requires IsMat(C, |C|, cols)
    ensures IsMat(P, |A|, cols)
    ensures forall i {:trigger P[i]} :: 0 <= i < |A| ==> P[i] == VecMat(A[i], C, cols)
  {
    seq(|A|, i requires 0 <= i < |A| => VecMat(A[i], C, cols))
  }

  /** `A.T` for a matrix whose rows have length `cols`. */
  function Transpose(A: Mat, cols: nat): (T: Mat)
    requires IsMat(A, |A|, cols)
    ensures IsMat(T, cols, |A|)
    ensures forall i, j :: 0 <= i < cols && 0 <= j < |A| ==> T[i][j] == A[j][i]
  {
    seq(cols, j requires 0 <= j < cols => Column(A, j))
  }

  /** `np.hstack((A, C))` for two matrices with the same number of rows. */
  function HStack(A: Mat, C: Mat): (H: Mat)
    requires |A| == |C|
    ensures |H| == |A|
    ensures forall i {:trigger H[i]} :: 0 <= i < |A| ==> H[i] == A[i] + C[i]
  {
    seq(|A|, i requires 0 <= i < |A| => A[i] + C[i])
  }

  /** `np.diag(d)`: the square matrix with `d` on its diagonal and zeros elsewhere. */
  function Diag(d: Vec): (D: Mat)
    ensures IsMat(D, |d|, |d|)
    ensures forall i, j :: 0 <= i < |d| && 0 <= j < |d| ==> D[i][j] == (if i == j then d[i] else 0.0)
  {
    seq(|d|, i requires 0 <= i < |d| => seq(|d|, j requires 0 <= j < |d| => if i == j then d[i] else 0.0))
  }

  function Identity(n: nat): (I: Mat)
    ensures IsMat(I, n, n)
    ensures forall i, j :: 0 <= i < n && 0 <= j < n ==> I[i][j] == (if i == j then 1.0 else 0.0)
  {
    Diag(seq(n, _ => 1.0))
  }

  /** A dot product of three-vectors, written out. */
  lemma Dot3(a: Vec, b: Vec)
    requires |a| == 3 && |b| == 3
    ensures Dot(a, b) == a[0] * b[0] + a[1] * b[1] + a[2] * b[2]
  {
    var a1, b1 := a[1..], b[1..];
    var a2, b2 := a1[1..], b1[1..];
    assert Dot(a2, b2) == a2[0] * b2[0] + Dot(a2[1..], b2[1..]);
    assert Dot(a1, b1) == a1[0] * b1[0] + Dot(a2, b2);
  }

  /** Any vector dotted with zeros gives zero. */
  lemma {:induction false} DotZeroRight(a: Vec, z: Vec)
    requires |a| == |z| && IsZero(z)
    ensures Dot(a, z) == 0.0
  {
    if |a| > 0 {
      DotZeroRight(a[1..], z[1..]);
    }
  }

  lemma {:induction false} DotZeroLeft(z: Vec, a: Vec)
    requires |a| == |z| && IsZero(z)
    ensures Dot(z, a) == 0.0
  {
    if |a| > 0 {
      DotZeroLeft(z[1..], a[1..]);
    }
  }

  /** A matrix applied to the zero vector gives the zero vector. */
  lemma MatVecZero(A: Mat, z: Vec)
    requires forall i :: 0 <= i < |A| ==> |A[i]| == |z|
    requires IsZero(z)
    ensures IsZero(MatVec(A, z))
  {
    forall i | 0 <= i < |A|
      ensures MatVec(A, z)[i] == 0.0
    {
      DotZeroRight(A[i], z);
    }
  }

  /** The dot product with a unit vector picks one entry. */
  lemma {:induction false} DotUnit(e: Vec, w: Vec, k: nat)
    requires |e| == |w| && k < |e|
    requires forall j :: 0 <= j < |e| ==> e[j] == (if j == k then 1.0 else 0.0)
    ensures Dot(e, w) == w[k]
  {
    if k == 0 {
      DotZeroLeft(e[1..], w[1..]);
    } else {
      DotUnit(e[1..], w[1..], k - 1);
    }
  }

  /** The identity matrix leaves every vector unchanged. */
  lemma IdentityMatVec(w: Vec)
    ensures MatVec(Identity(|w|), w) == w
  {
    var I := Identity(|w|);
    forall k | 0 <= k < |w|
      ensures MatVec(I, w)[k] == w[k]
    {
      DotUnit(I[k], w, k);
    }
  }

  lemma {:induction false} DotAdd(a: Vec, b: Vec, w: Vec)
    requires |a| == |b| == |w|
    ensures Dot(Add(a, b), w) == Dot(a, w) + Dot(b, w)
  {
    if |a| > 0 {
      assert Add(a, b)[1..] == Add(a[1..], b[1..]);
      DotAdd(a[1..], b[1..], w[1..]);
    }
  }

  lemma {:induction false} DotScale(a: Vec, k: real, w: Vec)
    requires |a| == |w|
    ensures Dot(Scale(a, k), w) == k * Dot(a, w)
  {
    if |a| > 0 {
      forall i | 0 <= i < |a| - 1
        ensures Scale(a, k)[1..][i] == Scale(a[1..], k)[i]
      {
      }
      assert Scale(a, k)[1..] == Scale(a[1..], k);
      DotScale(a[1..], k, w[1..]);
    }
  }

  /** Peeling the first row off `C`: a C == a[0] C[0] + a[1..] C[1..]. */
  lemma VecMatCons(a: Vec, C: Mat, n: nat)
    requires |a| > 0 && IsMat(C, |a|, n)
    ensures VecMat(a, C, n) == Add(Scale(C[0], a[0]), VecMat(a[1..], C[1..], n))
  {
    var tail := VecMat(a[1..], C[1..], n);
    forall j | 0 <= j < n
      ensures VecMat(a, C, n)[j] == Add(Scale(C[0], a[0]), tail)[j]
    {
      assert Column(C, j)[1..] == Column(C[1..], j);
    }
  }

  /** Associativity of a row vector, a matrix and a column vector:
      a . (C w) == (a C) . w */
  lemma {:induction false} DotMatVec(a: Vec, C: Mat, w: Vec)
    requires IsMat(C, |a|, |w|)
    ensures Dot(a, MatVec(C, w)) == Dot(VecMat(a, C, |w|), w)
  {
    var n := |w|;
    if |a| == 0 {
      DotZeroLeft(VecMat(a, C, n), w);
    } else {
      var tail := VecMat(a[1..], C[1..], n);
      calc {
        Dot(a, MatVec(C, w));
        a[0] * Dot(C[0], w) + Dot(a[1..], MatVec(C, w)[1..]);
        { assert MatVec(C, w)[1..] == MatVec(C[1..], w); }
        a[0] * Dot(C[0], w) + Dot(a[1..], MatVec(C[1..], w));
        { DotMatVec(a[1..], C[1..], w); }
        a[0] * Dot(C[0], w) + Dot(tail, w);
        { DotScale(C[0], a[0], w); }
        Dot(Scale(C[0], a[0]), w) + Dot(tail, w);
        { DotAdd(Scale(C[0], a[0]), tail, w); }
        Dot(Add(Scale(C[0], a[0]), tail), w);
        { VecMatCons(a, C, n); }
        Dot(VecMat(a, C, n), w);
      }
    }
  }

  /** Applying `C` and then `A` is applying the product `A C`. */
  lemma MatVecAssoc(A: Mat, C: Mat, w: Vec)
    requires IsMat(A, |A|, |C|)
    requires IsMat(C, |C|, |w|)
    ensures MatVec(A, MatVec(C, w)) == MatVec(MatMul(A, C, |w|), w)
  {
    forall i | 0 <= i < |A|
      ensures MatVec(A, MatVec(C, w))[i] == MatVec(MatMul(A, C, |w|), w)[i]
    {
      DotMatVec(A[i], C, w);
    }
  }

  /** An Euler update x + (a ++ b) * dt, split into the part driven by `a`
      and the part driven by `b`. */
  lemma EulerSplit(x: Vec, a: Vec, b: Vec, dt: real, k: nat)
    requires |x| == |a| + |b| && k < |a| && k < |b|
    ensures Add(x, Scale(a + b, dt))[k] == x[k] + a[k] * dt
    ensures Add(x, Scale(a + b, dt))[|a| + k] == x[|a| + k] + b[k] * dt
  {
  }

  /** A dot product over two concatenations splits into the two halves. */
  lemma {:induction false} DotAppend(a: Vec, b: Vec, c: Vec, d: Vec)
    requires |a| == |c| && |b| == |d|
    ensures Dot(a + b, c + d) == Dot(a, c) + Dot(b, d)
  {
    if |a| == 0 {
      assert a + b == b && c + d == d;
    } else {
      assert (a + b)[1..] == a[1..] + b;
      assert (c + d)[1..] == c[1..] + d;
      DotAppend(a[1..], b, c[1..], d);
    }
  }
}
