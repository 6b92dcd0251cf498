/**
  The physical constants the escape behaviour imports from the vehicle's
  parameter file, bundled as one immutable record and passed explicitly,
  together with the two trigonometric functions the rotation matrix needs.
 */
module Params {
  import opened LinAlg

  /** The imported constants. `m` actuators: `b` is 3 x m (wrench per
      actuator command), `invB` is m x 3, `thrustMax` holds one limit per
      actuator. Drag and inverse inertia are per velocity axis. */
  datatype Vehicle = Vehicle(
    dPos: Vec,            // drag coefficients used when the axis velocity is >= 0
    dNeg: Vec,            // drag coefficients used when the axis velocity is < 0
    invM: Vec,            // inverse inertia per body axis
    b: Mat,
    invB: Mat,
    thrustMax: Vec,
    ssBuff: real,         // buffer distance that sizes the sampling box
    velmaxPosPlan: Vec,   // forward velocity limits per body axis
    velmaxNegPlan: Vec,   // reverse velocity limits per body axis
    freeRadius: real)     // goal acceptance radius
  {
    /** Every vector and matrix has the shape the code indexes it with. */
    predicate WellShaped() {
      && |dPos| == 3 && |dNeg| == 3 && |invM| == 3
      && IsMat(b, 3, |thrustMax|)
      && IsMat(invB, |thrustMax|, 3)
      && |velmaxPosPlan| == 3 && |velmaxNegPlan| == 3
    }

    predicate ThrustLimitsNonNegative() {
      forall j :: 0 <= j < |thrustMax| ==> thrustMax[j] >= 0.0
    }

    /** `invB` undoes `b` on wrenches: b . invB is the 3 x 3 identity, as for
        the pseudo-inverse of a full-rank actuator map. */
    predicate InvBIsRightInverse()
      requires WellShaped()
    {
      MatMul(b, invB, 3) == Identity(3)
    }
  }

  /** `np.cos` and `np.sin`, left uninterpreted: any pair of total functions. */
  datatype Trig = Trig(cos: real -> real, sin: real -> real)
}
