# Escape behaviour: vehicle model, policy and sampling heuristic

This project models the "escape" behaviour of the lqRRT kinodynamic planner
demo (`demos/lqrrt_ros_demo/behaviors/escape.py`). The module hands an
external sampling-based planner four pieces:

- `dynamics(x, u, dt)`: one explicit-Euler step of a six-state planar vehicle
  `[x, y, heading, surge, sway, yaw rate]` under a body-frame wrench
  `[fx, fy, tz]`. The step uses sign-dependent drag and actuator saturation.
- `lqr(x, u)`: the constant cost-to-go weighting `S` and the feedback gain
  `K = [kp . R^T | kd]`.
- `gen_ss(seed, goal)`: the six-interval sampling box around the seed.
- `goal_buffer` / `error_tol`: tolerances that constrain position only.

Floats are modelled as Dafny `real`. Vectors and matrices are `seq<real>` and
`seq<seq<real>>` of fixed, known shapes (module `LinAlg`). The constants the
module imports from its parameter file (`D_pos`, `D_neg`, `invM`, `B`, `invB`,
`thrust_max`, `ss_buff`, `velmax_pos_plan`, `velmax_neg_plan`, `free_radius`)
are one explicit record, `Params.Vehicle`, and no concrete values are assumed.
`np.cos` and `np.sin` are an arbitrary pair of total functions
(`Params.Trig`), so every property below that does not mention them holds for
any trigonometry.

Modules:

- `LinAlg`: numpy's componentwise and matrix operations. It also proves the
  lemmas the rest needs: a matrix applied to zero gives zero, the identity
  leaves vectors unchanged, `A.(C.w) == (A.C).w`, and dot products split
  over concatenation.
- `Params`: the constants record and the trigonometry record.
- `Rotation`: the body-to-world rotation `[[c,-s,0],[s,c,0],[0,0,1]]`.
- `Dynamics`: drag selection, clipping, saturation, the state derivative and
  the Euler step.
- `Policy`: `kp`, `kd`, `S` and the gain.
- `Heuristics`: the sampling box, `sf`, `np.pi`, and the tolerance vectors.

Three choices deserve a note:

- The comment at escape.py:35 writes the velocity law as `M*vdot + D*v = u`,
  as if `D` and `M` were matrices. The code picks `D[i] = D_pos[i]` per axis
  and multiplies componentwise (`invM*(u - D*x[3:])`). So drag coefficients
  and inverse inertia are per-axis 3-vectors here.
- The rotation is built from whatever `cos` and `sin` return. Orthonormality
  is therefore proved only under the hypothesis `c*c + s*s == 1`.
- Drag does not always slow the vehicle under explicit Euler. With zero
  effort one step multiplies an axis velocity by `1 - k`, where
  `k = invM[i]*drag*dt`. `DragSlowsIff` proves that the speed drops exactly
  when `0 < k < 2`. `DragDecelerates` proves that `k` in (0, 1] is enough
  for the speed to drop without the velocity reversing.

## Model

| member | source | states |
|---|---|---|
| `Dynamics.SelectDrag` | demos/lqrrt_ros_demo/behaviors/escape.py:26-30 | Copying `D_neg` and overwriting axes with non-negative velocity picks `D_pos[i]` exactly when `v[i] >= 0` (zero included) and `D_neg[i]` otherwise, for every axis; the result agrees with the drag rule used by the step |
| `Dynamics.DragRule` | demos/lqrrt_ros_demo/behaviors/escape.py:26-30 | Shape only: a 3-vector of coefficients. It is the per-axis rule that `SelectDrag` is proved equal to, and `VelocityUpdate` states how the step uses it |
| `Dynamics.Clip` | demos/lqrrt_ros_demo/behaviors/escape.py:33 | Every clipped command lies in `[-thrust_max[j], thrust_max[j]]` when that limit is non-negative; a command already inside is unchanged; one above or below is set to the nearer bound; a negative limit yields the limit itself, the min(max(.)) order of current numpy (this only matters for a nonsensical negative limit) |
| `Dynamics.Commands` | demos/lqrrt_ros_demo/behaviors/escape.py:33 | Shape only: the actuator commands `invB.u` form one entry per actuator (length of `thrust_max`). `SaturationInactive` states what happens when they are within their limits |
| `Dynamics.Saturate` | demos/lqrrt_ros_demo/behaviors/escape.py:33 | Shape only: the delivered wrench `B.clip(invB.u)` is a 3-vector. What it delivers is stated by `SaturationInactive` and `SaturateZero` |
| `Dynamics.SaturationInactive` | demos/lqrrt_ros_demo/behaviors/escape.py:33 | When no actuator command `invB.u` exceeds its limit, the delivered wrench is `B.invB.u`, and it is `u` itself when `B.invB` is the identity |
| `Dynamics.SaturateZero` | demos/lqrrt_ros_demo/behaviors/escape.py:33 | With non-negative limits, a zero wrench request delivers a zero wrench |
| `Dynamics.PoseRate` | demos/lqrrt_ros_demo/behaviors/escape.py:36 | Shape only: the pose rate `R.v` is a 3-vector. Its entries are stated by `PoseRateEntries` |
| `Dynamics.PoseRateEntries` | demos/lqrrt_ros_demo/behaviors/escape.py:20-36 | The pose rate is `[c*v0 - s*v1, s*v0 + c*v1, yaw rate]` with `c`, `s` the cosine and sine of the heading |
| `Dynamics.VelocityRate` | demos/lqrrt_ros_demo/behaviors/escape.py:36 | Shape only: `invM*(u - D*v)` is a 3-vector. Its entries are stated by `VelocityUpdate` through the step |
| `Dynamics.StateRate` | demos/lqrrt_ros_demo/behaviors/escape.py:36 | Shape only: the concatenated derivative is a 6-vector. `Step` and the update lemmas state its halves |
| `Dynamics.Step` | demos/lqrrt_ros_demo/behaviors/escape.py:36-41 | The step returns a 6-vector; a zero time step returns the state unchanged |
| `Dynamics.PositionUpdate` | demos/lqrrt_ros_demo/behaviors/escape.py:19-39 | Next x and y are the current ones plus the body velocity rotated by the heading, times `dt` |
| `Dynamics.HeadingIntegratesYawRate` | demos/lqrrt_ros_demo/behaviors/escape.py:19-39 | Next heading is `x[2] + x[5]*dt` whatever cos and sin return |
| `Dynamics.VelocityUpdate` | demos/lqrrt_ros_demo/behaviors/escape.py:26-39 | Each next body velocity is the current one plus `invM[i]*(saturated wrench[i] - drag*v[i])*dt`, with drag chosen by the sign of that axis's current velocity |
| `Dynamics.NoTrigBeyondPosition` | demos/lqrrt_ros_demo/behaviors/escape.py:19-39 | Heading and all three velocities of the next state are the same for any two choices of cos and sin |
| `Dynamics.AtRestStaysAtRest` | demos/lqrrt_ros_demo/behaviors/escape.py:26-39 | Zero body velocity and zero effort give back the state unchanged for every `dt` (given non-negative thrust limits) |
| `Dynamics.DragDecelerates` | demos/lqrrt_ros_demo/behaviors/escape.py:35-39 | With zero effort and an Euler factor `invM[i]*drag*dt` in (0, 1], a non-zero axis velocity shrinks in magnitude without changing sign |
| `Dynamics.DragSlowsIff` | demos/lqrrt_ros_demo/behaviors/escape.py:35-39 | With zero effort and a non-zero axis velocity, one step reduces the speed on that axis if and only if `0 < invM[i]*drag*dt < 2` |
| `Rotation.Rot` | demos/lqrrt_ros_demo/behaviors/escape.py:20-24 | Shape only: a 3 x 3 matrix. Its action on a vector is stated by `RotApply` and its orthonormality by `RotationOrthonormal` |
| `Rotation.RotationOf` | demos/lqrrt_ros_demo/behaviors/escape.py:54-58 | Shape only: the heading's rotation is a 3 x 3 matrix, built the same way in the step and in the policy |
| `Rotation.RotApply` | demos/lqrrt_ros_demo/behaviors/escape.py:20-24 | The rotation turns the first two body rates by the heading and passes the yaw rate through unchanged |
| `Rotation.RotationOrthonormal` | demos/lqrrt_ros_demo/behaviors/escape.py:20-24 | If `c*c + s*s == 1` then `R.R^T` is the identity and `det R == 1` |
| `Policy.PoseGain` | demos/lqrrt_ros_demo/behaviors/escape.py:59 | Shape only: `kp.R^T` is 3 x 3. Its entries are stated by `PoseGainEntries` |
| `Policy.PoseGainEntries` | demos/lqrrt_ros_demo/behaviors/escape.py:45-59 | `kp.R^T` is `[[150c,150s,0],[-150s,150c,0],[0,0,1000]]` |
| `Policy.Lqr` | demos/lqrrt_ros_demo/behaviors/escape.py:45-60 | Returns `S` unchanged and a 3 x 6 gain whose last three columns are `kd` and whose third row is `[0,0,1000,0,0,1]` |
| `Policy.LqrGainRows` | demos/lqrrt_ros_demo/behaviors/escape.py:54-59 | The gain's first two rows are `[150c,150s,0,150,0,0]` and `[-150s,150c,0,0,150,0]` |
| `Policy.LqrDependsOnlyOnHeading` | demos/lqrrt_ros_demo/behaviors/escape.py:49-60 | Two states with the same heading give the same result, whatever the two efforts |
| `Policy.LqrFeedback` | demos/lqrrt_ros_demo/behaviors/escape.py:59 | The gain applied to an error `[pose | velocity]` is `kp.R^T.pose + kd.velocity`, the meaning of the horizontal stack |
| `Policy.LqrPoseGainInBodyFrame` | demos/lqrrt_ros_demo/behaviors/escape.py:54-59 | If `cos^2 + sin^2 == 1` at the heading, then `(kp.R^T).R == kp` |
| `Heuristics.GenSs` | demos/lqrrt_ros_demo/behaviors/escape.py:67-79 | Six intervals: x and y centred on the seed with width `2*sf*ss_buff`, heading `(-pi, pi)`, and velocity `i` from `-abs(velmax_neg_plan[i]) <= 0` up to `velmax_pos_plan[i]` |
| `Heuristics.GenSsIgnoresGoal` | demos/lqrrt_ros_demo/behaviors/escape.py:69-79 | The box is the same for every goal |
| `Heuristics.PositionIntervalsNonEmptyIff` | demos/lqrrt_ros_demo/behaviors/escape.py:74-75 | The x and y intervals are non-empty, and contain the seed, exactly when `ss_buff >= 0` |
| `Heuristics.VelocityIntervals` | demos/lqrrt_ros_demo/behaviors/escape.py:77-79 | A velocity interval is non-empty exactly when `-abs(neg) <= pos`, so it is non-empty whenever `pos >= 0`; it contains zero exactly when `pos >= 0` |
| `Heuristics.ReverseLimitSignIrrelevant` | demos/lqrrt_ros_demo/behaviors/escape.py:77-79 | Flipping the sign of every reverse limit leaves the box unchanged |
| `Heuristics.GenSsOriginExample` | demos/lqrrt_ros_demo/behaviors/escape.py:67-76 | Seed at the origin and `ss_buff == 1` give x and y intervals `(-3, 3)` and heading `(-pi, pi)` |
| `Heuristics.GoalBuffer` | demos/lqrrt_ros_demo/behaviors/escape.py:64 | The goal buffer bounds x and y by the free radius and leaves the other four dimensions unconstrained |
| `Heuristics.ErrorTol` | demos/lqrrt_ros_demo/behaviors/escape.py:65 | The error tolerance is a copy of the goal buffer, with the same per-dimension constraints |

The constants have no contract of their own. Each one is pinned down by the members that use it:

- `Policy.Kp` is diag(150, 150, 1000), from escape.py:45. Its entries are stated by `PoseGainEntries`, and `LqrPoseGainInBodyFrame` recovers it.
- `Policy.Kd` is diag(150, 150, 1), from escape.py:46. `Lqr` states that it is the gain's last three columns.
- `Policy.S` is the 6 x 6 identity, from escape.py:47. `Lqr` states that it is returned unchanged.
- `Heuristics.Sf` is 3, from escape.py:67. It appears in `GenSs`'s width clause, and `GenSsOriginExample` shows its effect.
- `Heuristics.Pi` is `np.pi`, used at escape.py:76, written as the 16-digit decimal numpy prints. `GenSs` states the heading interval `(-Pi, Pi)`.

## Left out

- Planner construction (`lqrrt.Constraints`, `lqrrt.Planner`, escape.py:83-90): these are calls into the planner library, which is not part of this model. The `unset` placeholders for the feasibility predicate, error function and clock belong to those calls, so they are left out as well.
- The parameter-file import (escape.py:9): the constants are a parameter record, and properties carry explicit hypotheses on them (for example non-negative thrust limits). `nstates`, `ncontrols`, `horizon`, `dt`, `FPR` and `max_nodes` are used only by the planner construction.
- IEEE floating point (rounding, NaN, infinities): arithmetic is over `real`. For example, a NaN velocity would fail `v >= 0` and select `D_neg`, and the model cannot express that. `np.inf` in the tolerances is the `Unconstrained` case.
- Concrete values of `cos` and `sin`: they are arbitrary functions. Facts that need `cos^2 + sin^2 == 1` take it as an explicit hypothesis.
- Wrong-length inputs: the model requires `|x| == 6` and `|u| == 3` for the step and `|x| >= 3` for the policy. With other lengths numpy raises a shape or index error, and the model does not represent that error.
- `thrust_max` given as a scalar: this is modelled as an m-vector. A scalar limit is the same as a vector that repeats it.
- Dynamics.SelectDrag / Dynamics.DragRule: both drag arrays are taken to be float-typed. `np.copy(D_neg)` at escape.py:27 keeps `D_neg`'s dtype, so an integer `D_neg` would truncate the `D_pos[i]` written into it at escape.py:30 (70.5 would be stored as 70). The model keeps the real value.
- Dynamics.DragDecelerates: the model does not claim that drag always slows the vehicle, because under explicit Euler that depends on `invM`, the drag coefficients and `dt`. This lemma covers only the sufficient case `invM[i]*drag*dt` in (0, 1], where there is also no reversal. `DragSlowsIff` gives the exact condition for slowing.
