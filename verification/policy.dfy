/**
  The local stabilisation policy handed to the planner: a constant
  cost-to-go weighting and a 3 x 6 feedback gain whose pose block is the
  proportional gain rotated into the current body frame.
 */
module Policy {
  import opened LinAlg
  import opened Params
  import opened Rotation

  /** Proportional gain on x, y and heading. */
  const Kp: Mat := Diag([150.0, 150.0, 1000.0])
  /** Damping gain on surge, sway and yaw rate. */
  const Kd: Mat := Diag([150.0, 150.0, 1.0])
  /** Cost-to-go weighting: the 6 x 6 identity. */
  const S: Mat := Diag([1.0, 1.0, 1.0, 1.0, 1.0, 1.0])

  /** The pose block kp . R^T of the gain for heading cosine `c` and sine `s`. */
  function PoseGain(c: real, s: real): (P: Mat)
    ensures IsMat(P, 3, 3)
  {
    MatMul(Kp, Transpose(Rot(c, s), 3), 3)
  }

  /** kp . R^T written out: the x and y rows turn with the heading, the
      heading row is untouched by it. */
  lemma PoseGainEntries(c: real, s: real)
    ensures PoseGain(c, s) == [[150.0 * c, 150.0 * s, 0.0], [-150.0 * s, 150.0 * c, 0.0], [0.0, 0.0, 1000.0]]
  {
    var P := PoseGain(c, s);
    forall i, j | 0 <= i < 3 && 0 <= j < 3
      ensures P[i][j] == Kp[i][i] * Rot(c, s)[j][i]
    {
      PoseGainEntry(c, s, i, j);
    }
    assert P[0][0] == 150.0 * c && P[0][1] == 150.0 * s && P[0][2] == 0.0;
    assert P[1][0] == -150.0 * s && P[1][1] == 150.0 * c && P[1][2] == 0.0;
    assert P[2][0] == 0.0 && P[2][1] == 0.0 && P[2][2] == 1000.0;
    assert P[0] == [150.0 * c, 150.0 * s, 0.0];
    assert P[1] == [-150.0 * s, 150.0 * c, 0.0];
    assert P[2] == [0.0, 0.0, 1000.0];
  }

  lemma PoseGainEntry(c: real, s: real, i: nat, j: nat)
    requires i < 3 && j < 3
    ensures PoseGain(c, s)[i][j] == Kp[i][i] * Rot(c, s)[j][i]
  {
    var R := Rot(c, s);
    var col := Column(Transpose(R, 3), j);
    assert col[0] == R[j][0] && col[1] == R[j][1] && col[2] == R[j][2];
    Dot3(Kp[i], col);
  }

  /** The policy: returns (S, K) with K = [kp . R^T | kd]. The effort `u` is
      accepted but unused. */
  function Lqr(t: Trig, x: Vec, u: Vec): (r: (Mat, Mat))
    requires |x| >= 3
    ensures r.0 == S
    ensures IsMat(r.1, 3, 6)
    ensures forall i, j :: 0 <= i < 3 && 0 <= j < 3 ==> r.1[i][3 + j] == Kd[i][j]
    ensures r.1[2] == [0.0, 0.0, 1000.0, 0.0, 0.0, 1.0]
  {
    PoseGainEntries(t.cos(x[2]), t.sin(x[2]));
    (S, HStack(PoseGain(t.cos(x[2]), t.sin(x[2])), Kd))
  }

  /** The gain's x and y rows, written out in terms of the heading's cosine
      and sine. */
  lemma LqrGainRows(t: Trig, x: Vec, u: Vec)
    requires |x| >= 3
    ensures Lqr(t, x, u).1[0] == [150.0 * t.cos(x[2]), 150.0 * t.sin(x[2]), 0.0, 150.0, 0.0, 0.0]
    ensures Lqr(t, x, u).1[1] == [-150.0 * t.sin(x[2]), 150.0 * t.cos(x[2]), 0.0, 0.0, 150.0, 0.0]
  {
    PoseGainEntries(t.cos(x[2]), t.sin(x[2]));
  }

  /** The result depends on the state only through its heading, and not on
      the effort at all. */
  lemma LqrDependsOnlyOnHeading(t: Trig, x: Vec, y: Vec, u: Vec, w: Vec)
    requires |x| >= 3 && |y| >= 3 && x[2] == y[2]
    ensures Lqr(t, x, u) == Lqr(t, y, w)
  {
  }

  /** Applying the gain to a state error e = [pose error | velocity error]
      gives kp . R^T . (pose error) + kd . (velocity error): the world-frame
      pose error is turned into the body frame before being weighted. */
  lemma LqrFeedback(t: Trig, x: Vec, u: Vec, e: Vec)
    requires |x| >= 3 && |e| == 6
    ensures MatVec(Lqr(t, x, u).1, e)
         == Add(MatVec(Kp, MatVec(Transpose(RotationOf(t, x[2]), 3), e[..3])), MatVec(Kd, e[3..]))
  {
    var R := RotationOf(t, x[2]);
    var T := Transpose(R, 3);
    var P := PoseGain(t.cos(x[2]), t.sin(x[2]));
    var K := Lqr(t, x, u).1;
    assert e == e[..3] + e[3..];
    MatVecAssoc(Kp, T, e[..3]);
    forall i | 0 <= i < 3
      ensures MatVec(K, e)[i] == Dot(P[i], e[..3]) + Dot(Kd[i], e[3..])
    {
      DotAppend(P[i], Kd[i], e[..3], e[3..]);
    }
  }

  /** With cos^2 + sin^2 == 1 at the heading, the pose block composed with the
      rotation is kp itself: a pose error expressed in the body frame is
      weighted by the diagonal kp. */
  lemma LqrPoseGainInBodyFrame(t: Trig, x: Vec)
    requires |x| >= 3
    requires t.cos(x[2]) * t.cos(x[2]) + t.sin(x[2]) * t.sin(x[2]) == 1.0
    ensures MatMul(PoseGain(t.cos(x[2]), t.sin(x[2])), RotationOf(t, x[2]), 3) == Kp
  {
    var c, s := t.cos(x[2]), t.sin(x[2]);
    var Q := MatMul(PoseGain(c, s), Rot(c, s), 3);
    forall i | 0 <= i < 3
      ensures Q[i] == Kp[i]
    {
      forall j | 0 <= j < 3
        ensures Q[i][j] == Kp[i][j]
      {
        BodyFrameProduct(c, s, i, j);
      }
    }
  }

  lemma BodyFrameProduct(c: real, s: real, i: nat, j: nat)
    requires c * c + s * s == 1.0 && i < 3 && j < 3
    ensures MatMul(PoseGain(c, s), Rot(c, s), 3)[i][j] == Kp[i][j]
  {
    var P := PoseGain(c, s);
    var R := Rot(c, s);
    PoseGainEntries(c, s);
    Dot3(P[i], Column(R, j));
    BodyFrameEntry(c, s, P, R, i, j);
  }

  /** One entry of (kp . R^T) . R. */
  lemma BodyFrameEntry(c: real, s: real, P: Mat, R: Mat, i: nat, j: nat)
    requires c * c + s * s == 1.0 && i < 3 && j < 3
    requires P == [[150.0 * c, 150.0 * s, 0.0], [-150.0 * s, 150.0 * c, 0.0], [0.0, 0.0, 1000.0]]
    requires R == Rot(c, s)
    ensures P[i][0] * R[0][j] + P[i][1] * R[1][j] + P[i][2] * R[2][j] == Kp[i][j]
  {
    assert 150.0 * c * c + 150.0 * s * s == 150.0 * (c * c + s * s);
  }
}
