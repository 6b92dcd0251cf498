/**
  The vehicle model handed to the planner: one explicit-Euler step of the
  six-state planar vehicle [x, y, heading, surge, sway, yaw rate] under a
  body-frame wrench [force x, force y, torque z], with sign-dependent drag
  and actuator saturation.
 */
module Dynamics {
  import opened LinAlg
  import opened Params
  import opened Rotation

  /** The drag rule: on each velocity axis the positive-side coefficient
      applies when that axis's current velocity is >= 0, the negative-side one
      otherwise. */
  function DragRule(p: Vehicle, vel: Vec): (d: Vec)
    requires p.WellShaped() && |vel| == 3
    ensures |d| == 3
  {
    seq(3, i requires 0 <= i < 3 => if vel[i] >= 0.0 then p.dPos[i] else p.dNeg[i])
  }

  /** The drag selection as the code performs it: copy the negative-side
      coefficients, then overwrite each axis whose velocity is >= 0. */
  method SelectDrag(p: Vehicle, vel: Vec) returns (d: Vec)
    requires p.WellShaped() && |vel| == 3
    ensures |d| == 3
    ensures forall i :: 0 <= i < 3 ==> (vel[i] >= 0.0 ==> d[i] == p.dPos[i]) && (vel[i] < 0.0 ==> d[i] == p.dNeg[i])
    ensures d == DragRule(p, vel)
  {
    d := p.dNeg;
    var i := 0;
    while i < 3
      invariant 0 <= i <= 3 && |d| == 3
      invariant forall k :: 0 <= k < i ==> d[k] == (if vel[k] >= 0.0 then p.dPos[k] else p.dNeg[k])
      invariant forall k :: i <= k < 3 ==> d[k] == p.dNeg[k]
    {
      if vel[i] >= 0.0 {
        d := d[i := p.dPos[i]];
      }
      i := i + 1;
    }
  }

  /** `np.clip(a, -tm, tm)` entry by entry, as current numpy computes it:
      min(max(a, -tm), tm), so a negative limit yields the limit itself.
      That case only arises for a nonsensical negative thrust limit. */
  function Clip(a: Vec, tm: Vec): (c: Vec)
    requires |a| == |tm|
    ensures |c| == |a|
    ensures forall j {:trigger c[j]} :: 0 <= j < |a| && tm[j] >= 0.0 ==> -tm[j] <= c[j] <= tm[j]
    ensures forall j {:trigger c[j]} :: 0 <= j < |a| && -tm[j] <= a[j] <= tm[j] ==> c[j] == a[j]
    ensures forall j {:trigger c[j]} :: 0 <= j < |a| && tm[j] >= 0.0 && a[j] > tm[j] ==> c[j] == tm[j]
    ensures forall j {:trigger c[j]} :: 0 <= j < |a| && tm[j] >= 0.0 && a[j] < -tm[j] ==> c[j] == -tm[j]
    ensures forall j {:trigger c[j]} :: 0 <= j < |a| && tm[j] < 0.0 ==> c[j] == tm[j]
  {
    seq(|a|, j requires 0 <= j < |a| =>
      var lower := if a[j] < -tm[j] then -tm[j] else a[j];
      if lower > tm[j] then tm[j] else lower)
  }

  /** Each actuator command of `a` lies within its limit. */
  predicate WithinLimits(a: Vec, tm: Vec)
    requires |a| == |tm|
  {
    forall j :: 0 <= j < |a| ==> -tm[j] <= a[j] <= tm[j]
  }

  /** The actuator commands a wrench asks for: invB . u. */
  function Commands(p: Vehicle, u: Vec): (a: Vec)
    requires p.WellShaped() && |u| == 3
    ensures |a| == |p.thrustMax|
  {
    MatVec(p.invB, u)
  }

  /** The wrench the actuators actually deliver: B . clip(invB . u). */
  function Saturate(p: Vehicle, u: Vec): (w: Vec)
    requires p.WellShaped() && |u| == 3
    ensures |w| == 3
  {
    MatVec(p.b, Clip(Commands(p, u), p.thrustMax))
  }

  /** Saturation is inactive when no actuator command exceeds its limit: the
      wrench is then B . invB . u, which is `u` itself when invB is a right
      inverse of B. */
  lemma SaturationInactive(p: Vehicle, u: Vec)
    requires p.WellShaped() && |u| == 3
    requires WithinLimits(Commands(p, u), p.thrustMax)
    ensures Saturate(p, u) == MatVec(p.b, MatVec(p.invB, u))
    ensures p.InvBIsRightInverse() ==> Saturate(p, u) == u
  {
    var a := Commands(p, u);
    assert Clip(a, p.thrustMax) == a;
    if p.InvBIsRightInverse() {
      MatVecAssoc(p.b, p.invB, u);
      IdentityMatVec(u);
    }
  }

  /** With non-negative limits, a zero wrench request delivers a zero wrench. */
  lemma SaturateZero(p: Vehicle, u: Vec)
    requires p.WellShaped() && |u| == 3 && IsZero(u)
    requires p.ThrustLimitsNonNegative()
    ensures IsZero(Saturate(p, u))
  {
    var a := Commands(p, u);
    MatVecZero(p.invB, u);
    var c := Clip(a, p.thrustMax);
    assert IsZero(c);
    MatVecZero(p.b, c);
  }

  /** The pose rate R . v: the body velocity turned into the world frame. */
  function PoseRate(t: Trig, x: Vec): (r: Vec)
    requires |x| == 6
    ensures |r| == 3
  {
    MatVec(RotationOf(t, x[2]), x[3..])
  }

  /** The velocity rate invM * (saturated wrench - drag * v), componentwise. */
  function VelocityRate(p: Vehicle, x: Vec, u: Vec): (r: Vec)
    requires p.WellShaped() && |x| == 6 && |u| == 3
    ensures |r| == 3
  {
    var v := x[3..];
    Mul(p.invM, Sub(Saturate(p, u), Mul(DragRule(p, v), v)))
  }

  /** The state derivative: pose rate followed by velocity rate. */
  function StateRate(p: Vehicle, t: Trig, x: Vec, u: Vec): (xdot: Vec)
    requires p.WellShaped() && |x| == 6 && |u| == 3
    ensures |xdot| == 6
  {
    PoseRate(t, x) + VelocityRate(p, x, u)
  }

  /** One explicit-Euler step of length `dt`. A zero step leaves the state as it is. */
  function Step(p: Vehicle, t: Trig, x: Vec, u: Vec, dt: real): (xn: Vec)
    requires p.WellShaped() && |x| == 6 && |u| == 3
    ensures |xn| == 6
    ensures dt == 0.0 ==> xn == x
  {
    Add(x, Scale(StateRate(p, t, x, u), dt))
  }

  /** The pose half of a step, entry by entry. */
  lemma StepPose(p: Vehicle, t: Trig, x: Vec, u: Vec, dt: real, k: nat)
    requires p.WellShaped() && |x| == 6 && |u| == 3 && k < 3
    ensures Step(p, t, x, u, dt)[k] == x[k] + PoseRate(t, x)[k] * dt
  {
    EulerSplit(x, PoseRate(t, x), VelocityRate(p, x, u), dt, k);
  }

  /** The velocity half of a step, entry by entry. */
  lemma StepVelocity(p: Vehicle, t: Trig, x: Vec, u: Vec, dt: real, k: nat)
    requires p.WellShaped() && |x| == 6 && |u| == 3 && k < 3
    ensures Step(p, t, x, u, dt)[3 + k] == x[3 + k] + VelocityRate(p, x, u)[k] * dt
  {
    EulerSplit(x, PoseRate(t, x), VelocityRate(p, x, u), dt, k);
  }

  lemma PoseRateEntries(t: Trig, x: Vec)
    requires |x| == 6
    ensures PoseRate(t, x)[0] == t.cos(x[2]) * x[3] - t.sin(x[2]) * x[4]
    ensures PoseRate(t, x)[1] == t.sin(x[2]) * x[3] + t.cos(x[2]) * x[4]
    ensures PoseRate(t, x)[2] == x[5]
  {
    var c, s := t.cos(x[2]), t.sin(x[2]);
    var v := x[3..];
    assert v[0] == x[3] && v[1] == x[4] && v[2] == x[5];
    RotApply(c, s, v);
  }

  /** An Euler update of the pose, with the rate written out. The updated
      entry is passed in as `next` so that the step's full definition stays
      out of this proof. */
  lemma PoseEuler(t: Trig, x: Vec, dt: real, k: nat, next: real)
    requires |x| == 6 && k < 3
    requires next == x[k] + PoseRate(t, x)[k] * dt
    ensures k == 0 ==> next == x[0] + (t.cos(x[2]) * x[3] - t.sin(x[2]) * x[4]) * dt
    ensures k == 1 ==> next == x[1] + (t.sin(x[2]) * x[3] + t.cos(x[2]) * x[4]) * dt
    ensures k == 2 ==> next == x[2] + x[5] * dt
  {
    PoseRateEntries(t, x);
  }

  lemma VelocityRateEntry(p: Vehicle, x: Vec, u: Vec, i: nat)
    requires p.WellShaped() && |x| == 6 && |u| == 3 && i < 3
    ensures VelocityRate(p, x, u)[i]
         == p.invM[i] * (Saturate(p, u)[i] - (if x[3 + i] >= 0.0 then p.dPos[i] else p.dNeg[i]) * x[3 + i])
  {
    assert x[3..][i] == x[3 + i];
  }

  /** An Euler update of one velocity, with the rate written out. The updated
      entry is passed in as `next` so that the step's full definition stays
      out of this proof. */
  lemma VelocityEuler(p: Vehicle, x: Vec, u: Vec, dt: real, i: nat, next: real)
    requires p.WellShaped() && |x| == 6 && |u| == 3 && i < 3
    requires next == x[3 + i] + VelocityRate(p, x, u)[i] * dt
    ensures next == x[3 + i] + p.invM[i] * (Saturate(p, u)[i] - (if x[3 + i] >= 0.0 then p.dPos[i] else p.dNeg[i]) * x[3 + i]) * dt
  {
    VelocityRateEntry(p, x, u, i);
  }

  /** The position advances by the body velocity turned into the world frame
      by the current heading. */
  lemma PositionUpdate(p: Vehicle, t: Trig, x: Vec, u: Vec, dt: real)
    requires p.WellShaped() && |x| == 6 && |u| == 3
    ensures Step(p, t, x, u, dt)[0] == x[0] + (t.cos(x[2]) * x[3] - t.sin(x[2]) * x[4]) * dt
    ensures Step(p, t, x, u, dt)[1] == x[1] + (t.sin(x[2]) * x[3] + t.cos(x[2]) * x[4]) * dt
  {
    StepPose(p, t, x, u, dt, 0);
    PoseEuler(t, x, dt, 0, Step(p, t, x, u, dt)[0]);
    StepPose(p, t, x, u, dt, 1);
    PoseEuler(t, x, dt, 1, Step(p, t, x, u, dt)[1]);
  }

  /** The heading advances by yaw rate times `dt`, whatever cos and sin are. */
  lemma HeadingIntegratesYawRate(p: Vehicle, t: Trig, x: Vec, u: Vec, dt: real)
    requires p.WellShaped() && |x| == 6 && |u| == 3
    ensures Step(p, t, x, u, dt)[2] == x[2] + x[5] * dt
  {
    StepPose(p, t, x, u, dt, 2);
    PoseEuler(t, x, dt, 2, Step(p, t, x, u, dt)[2]);
  }

  /** Each body velocity is driven by its own saturated wrench entry against
      drag on that axis, with the coefficient picked by the sign of the
      axis's current velocity. */
  lemma VelocityUpdate(p: Vehicle, t: Trig, x: Vec, u: Vec, dt: real, i: nat)
    requires p.WellShaped() && |x| == 6 && |u| == 3 && i < 3
    ensures Step(p, t, x, u, dt)[3 + i]
         == x[3 + i] + p.invM[i] * (Saturate(p, u)[i] - (if x[3 + i] >= 0.0 then p.dPos[i] else p.dNeg[i]) * x[3 + i]) * dt
  {
    StepVelocity(p, t, x, u, dt, i);
    VelocityEuler(p, x, u, dt, i, Step(p, t, x, u, dt)[3 + i]);
  }

  /** Heading and velocities of the next state do not depend on the
      trigonometric functions at all. */
  lemma NoTrigBeyondPosition(p: Vehicle, t1: Trig, t2: Trig, x: Vec, u: Vec, dt: real)
    requires p.WellShaped() && |x| == 6 && |u| == 3
    ensures forall k :: 2 <= k < 6 ==> Step(p, t1, x, u, dt)[k] == Step(p, t2, x, u, dt)[k]
  {
    HeadingIntegratesYawRate(p, t1, x, u, dt);
    HeadingIntegratesYawRate(p, t2, x, u, dt);
    VelocityNoTrig(p, t1, t2, x, u, dt, 0);
    VelocityNoTrig(p, t1, t2, x, u, dt, 1);
    VelocityNoTrig(p, t1, t2, x, u, dt, 2);
  }

  lemma VelocityNoTrig(p: Vehicle, t1: Trig, t2: Trig, x: Vec, u: Vec, dt: real, k: nat)
    requires p.WellShaped() && |x| == 6 && |u| == 3 && k < 3
    ensures Step(p, t1, x, u, dt)[3 + k] == Step(p, t2, x, u, dt)[3 + k]
  {
    StepVelocity(p, t1, x, u, dt, k);
    StepVelocity(p, t2, x, u, dt, k);
  }

  /** A vehicle at rest with zero effort stays exactly where it is, for any
      step length and any trigonometry (given non-negative thrust limits). */
  lemma AtRestStaysAtRest(p: Vehicle, t: Trig, x: Vec, u: Vec, dt: real)
    requires p.WellShaped() && |x| == 6 && |u| == 3
    requires x[3] == 0.0 && x[4] == 0.0 && x[5] == 0.0
    requires IsZero(u) && p.ThrustLimitsNonNegative()
    ensures Step(p, t, x, u, dt) == x
  {
    var xn := Step(p, t, x, u, dt);
    RestingPose(p, t, x, u, dt, 0);
    RestingPose(p, t, x, u, dt, 1);
    RestingPose(p, t, x, u, dt, 2);
    RestingVelocity(p, t, x, u, dt, 0);
    RestingVelocity(p, t, x, u, dt, 1);
    RestingVelocity(p, t, x, u, dt, 2);
  }

  lemma RestingPose(p: Vehicle, t: Trig, x: Vec, u: Vec, dt: real, k: nat)
    requires p.WellShaped() && |x| == 6 && |u| == 3 && k < 3
    requires x[3] == 0.0 && x[4] == 0.0 && x[5] == 0.0
    ensures Step(p, t, x, u, dt)[k] == x[k]
  {
    StepPose(p, t, x, u, dt, k);
    PoseRateEntries(t, x);
    assert PoseRate(t, x)[k] == 0.0;
  }

  lemma RestingVelocity(p: Vehicle, t: Trig, x: Vec, u: Vec, dt: real, i: nat)
    requires p.WellShaped() && |x| == 6 && |u| == 3 && i < 3
    requires x[3 + i] == 0.0
    requires IsZero(u) && p.ThrustLimitsNonNegative()
    ensures Step(p, t, x, u, dt)[3 + i] == x[3 + i]
  {
    StepVelocity(p, t, x, u, dt, i);
    ZeroEffortRate(p, x, u, i);
    ZeroEffortEuler(x[3 + i], VelocityRate(p, x, u)[i], Step(p, t, x, u, dt)[3 + i], p.invM[i], p.dPos[i], dt);
  }

  /** Under zero effort the velocity rate on an axis is pure drag. */
  lemma ZeroEffortRate(p: Vehicle, x: Vec, u: Vec, i: nat)
    requires p.WellShaped() && |x| == 6 && |u| == 3 && i < 3
    requires IsZero(u) && p.ThrustLimitsNonNegative()
    ensures VelocityRate(p, x, u)[i] == p.invM[i] * (0.0 - (if x[3 + i] >= 0.0 then p.dPos[i] else p.dNeg[i]) * x[3 + i])
  {
    SaturateZero(p, u);
    VelocityRateEntry(p, x, u, i);
    assert Saturate(p, u)[i] == 0.0;
  }

  /** The arithmetic of one zero-effort Euler step v' = v + m * (0 - d * v) * dt. */
  lemma ZeroEffortEuler(v: real, rate: real, next: real, m: real, d: real, dt: real)
    requires rate == m * (0.0 - d * v) && next == v + rate * dt
    ensures next == v - (m * d * dt) * v
  {
  }

  /** With zero effort, drag shrinks the speed on an axis without reversing
      it, provided the explicit-Euler factor DragFactor lies in (0, 1].
      (Whether it does depends on the constants and on `dt`.) */
  lemma DragDecelerates(p: Vehicle, t: Trig, x: Vec, u: Vec, dt: real, i: nat)
    requires p.WellShaped() && |x| == 6 && |u| == 3 && i < 3
    requires IsZero(u) && p.ThrustLimitsNonNegative()
    requires x[3 + i] != 0.0
    requires 0.0 < DragFactor(p, x, dt, i) <= 1.0
    ensures x[3 + i] > 0.0 ==> 0.0 <= Step(p, t, x, u, dt)[3 + i] < x[3 + i]
    ensures x[3 + i] < 0.0 ==> x[3 + i] < Step(p, t, x, u, dt)[3 + i] <= 0.0
  {
    StepVelocity(p, t, x, u, dt, i);
    DecelerateAxis(p, x, u, dt, i, Step(p, t, x, u, dt)[3 + i]);
  }

  /** The explicit-Euler drag factor on axis `i`: invM[i] * drag * dt, with
      the drag coefficient picked by the sign of that axis's velocity. */
  function DragFactor(p: Vehicle, x: Vec, dt: real, i: nat): real
    requires p.WellShaped() && |x| == 6 && i < 3
  {
    p.invM[i] * (if x[3 + i] >= 0.0 then p.dPos[i] else p.dNeg[i]) * dt
  }

  /** With zero effort, one step multiplies an axis velocity by 1 - k, where
      k = DragFactor; the speed on that axis drops exactly when 0 < k < 2.
      For k in (1, 2) it drops but the velocity reverses. */
  lemma DragSlowsIff(p: Vehicle, t: Trig, x: Vec, u: Vec, dt: real, i: nat)
    requires p.WellShaped() && |x| == 6 && |u| == 3 && i < 3
    requires IsZero(u) && p.ThrustLimitsNonNegative()
    requires x[3 + i] != 0.0
    ensures Abs(Step(p, t, x, u, dt)[3 + i]) < Abs(x[3 + i]) <==> 0.0 < DragFactor(p, x, dt, i) < 2.0
  {
    StepVelocity(p, t, x, u, dt, i);
    SlowAxisIff(p, x, u, dt, i, Step(p, t, x, u, dt)[3 + i]);
  }

  // The next velocity is passed in as `next` so that the step's full
  // definition stays out of this arithmetic proof.
  lemma SlowAxisIff(p: Vehicle, x: Vec, u: Vec, dt: real, i: nat, next: real)
    requires p.WellShaped() && |x| == 6 && |u| == 3 && i < 3
    requires IsZero(u) && p.ThrustLimitsNonNegative()
    requires x[3 + i] != 0.0
    requires next == x[3 + i] + VelocityRate(p, x, u)[i] * dt
    ensures Abs(next) < Abs(x[3 + i]) <==> 0.0 < DragFactor(p, x, dt, i) < 2.0
  {
    ZeroEffortRate(p, x, u, i);
    ZeroEffortEuler(x[3 + i], VelocityRate(p, x, u)[i], next, p.invM[i],
      if x[3 + i] >= 0.0 then p.dPos[i] else p.dNeg[i], dt);
    var k := DragFactor(p, x, dt, i);
    assert next == x[3 + i] - k * x[3 + i];
    ShrinksIff(x[3 + i], k);
  }

  // The next velocity is passed in as `next` so that the step's full
  // definition stays out of this arithmetic proof.
  lemma DecelerateAxis(p: Vehicle, x: Vec, u: Vec, dt: real, i: nat, next: real)
    requires p.WellShaped() && |x| == 6 && |u| == 3 && i < 3
    requires IsZero(u) && p.ThrustLimitsNonNegative()
    requires x[3 + i] != 0.0
    requires 0.0 < DragFactor(p, x, dt, i) <= 1.0
    requires next == x[3 + i] + VelocityRate(p, x, u)[i] * dt
    ensures x[3 + i] > 0.0 ==> 0.0 <= next < x[3 + i]
    ensures x[3 + i] < 0.0 ==> x[3 + i] < next <= 0.0
  {
    ZeroEffortRate(p, x, u, i);
    DragStepShrinks(x[3 + i], VelocityRate(p, x, u)[i], next, p.invM[i],
      if x[3 + i] >= 0.0 then p.dPos[i] else p.dNeg[i], dt);
  }

  /** One zero-effort Euler step of a non-zero velocity with m * d * dt in
      (0, 1] moves it toward zero without crossing it. */
  lemma DragStepShrinks(v: real, rate: real, next: real, m: real, d: real, dt: real)
    requires v != 0.0 && rate == m * (0.0 - d * v) && next == v + rate * dt
    requires 0.0 < m * d * dt <= 1.0
    ensures v > 0.0 ==> 0.0 <= next < v
    ensures v < 0.0 ==> v < next <= 0.0
  {
    ZeroEffortEuler(v, rate, next, m, d, dt);
    Shrinks(v, m * d * dt);
  }

  /** Scaling by 1 - k with k in (0, 1] moves a non-zero value toward zero
      without crossing it. */
  lemma Shrinks(v: real, k: real)
    requires v != 0.0 && 0.0 < k <= 1.0
    ensures v > 0.0 ==> 0.0 <= v - k * v < v
    ensures v < 0.0 ==> v < v - k * v <= 0.0
  {
    if v > 0.0 {
      assert k * v <= v;
      assert k * v > 0.0;
    } else {
      assert k * v >= v;
      assert k * v < 0.0;
    }
  }

  /** Scaling a non-zero value by 1 - k reduces its magnitude exactly when
      0 < k < 2. */
  lemma ShrinksIff(v: real, k: real)
    requires v != 0.0
    ensures Abs(v - k * v) < Abs(v) <==> 0.0 < k < 2.0
  {
    if v > 0.0 {
      if k <= 0.0 {
        assert k * v <= 0.0;
      } else if k >= 2.0 {
        assert k * v >= 2.0 * v;
      } else {
        assert 0.0 < k * v < 2.0 * v;
      }
    } else {
      if k <= 0.0 {
        assert k * v >= 0.0;
      } else if k >= 2.0 {
        assert k * v <= 2.0 * v;
      } else {
        assert 2.0 * v < k * v < 0.0;
      }
    }
  }
}
