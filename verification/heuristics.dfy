/**
  The sampling-space heuristic and the goal/error tolerances handed to the
  planner.
 */
module Heuristics {
  import opened LinAlg
  import opened Params

  /** Scale factor on the buffer distance for the position intervals. */
  const Sf: real := 3.0
  /** `np.pi` as the 16-digit decimal numpy prints for it (the shortest
      decimal that rounds to that double, not its exact value). */
  const Pi: real := 3.141592653589793

  /** One sampling interval (min, max). */
  datatype Interval = Interval(lo: real, hi: real) {
    predicate NonEmpty() { lo <= hi }
    predicate Contains(v: real) { lo <= v <= hi }
  }

  /** The sampling box for a planning request from `seed` toward `goal`:
      x and y intervals of half-width Sf * ssBuff around the seed, the full
      heading circle, and per-axis velocity intervals from minus the reverse
      limit's magnitude up to the forward limit. */
  function GenSs(p: Vehicle, seed: Vec, goal: Vec): (box: seq<Interval>)
    requires |seed| >= 2
    requires |p.velmaxPosPlan| == 3 && |p.velmaxNegPlan| == 3
    ensures |box| == 6
    ensures forall k :: 0 <= k < 2 ==> box[k].lo + box[k].hi == 2.0 * seed[k]
    ensures forall k :: 0 <= k < 2 ==> box[k].hi - box[k].lo == 2.0 * Sf * p.ssBuff
    ensures box[2] == Interval(-Pi, Pi)
    ensures forall i :: 0 <= i < 3 ==> box[3 + i].hi == p.velmaxPosPlan[i]
    ensures forall i :: 0 <= i < 3 ==> box[3 + i].lo <= 0.0 && Abs(box[3 + i].lo) == Abs(p.velmaxNegPlan[i])
  {
    [Interval(seed[0] - Sf * p.ssBuff, seed[0] + Sf * p.ssBuff),
     Interval(seed[1] - Sf * p.ssBuff, seed[1] + Sf * p.ssBuff),
     Interval(-Pi, Pi),
     Interval(-Abs(p.velmaxNegPlan[0]), p.velmaxPosPlan[0]),
     Interval(-Abs(p.velmaxNegPlan[1]), p.velmaxPosPlan[1]),
     Interval(-Abs(p.velmaxNegPlan[2]), p.velmaxPosPlan[2])]
  }

  /** The box is centred on the seed alone: the goal plays no part. */
  lemma GenSsIgnoresGoal(p: Vehicle, seed: Vec, goal1: Vec, goal2: Vec)
    requires |seed| >= 2
    requires |p.velmaxPosPlan| == 3 && |p.velmaxNegPlan| == 3
    ensures GenSs(p, seed, goal1) == GenSs(p, seed, goal2)
  {
  }

  /** The x and y intervals are non-empty, and hold the seed, exactly when
      the buffer distance is non-negative. */
  lemma PositionIntervalsNonEmptyIff(p: Vehicle, seed: Vec, goal: Vec, k: nat)
    requires |seed| >= 2 && k < 2
    requires |p.velmaxPosPlan| == 3 && |p.velmaxNegPlan| == 3
    ensures GenSs(p, seed, goal)[k].NonEmpty() <==> p.ssBuff >= 0.0
    ensures GenSs(p, seed, goal)[k].Contains(seed[k]) <==> p.ssBuff >= 0.0
  {
  }

  /** A velocity interval holds zero (rest) exactly when its forward limit is
      non-negative, and is then non-empty; it is non-empty exactly when the
      forward limit reaches down to minus the reverse limit's magnitude. */
  lemma VelocityIntervals(p: Vehicle, seed: Vec, goal: Vec, i: nat)
    requires |seed| >= 2 && i < 3
    requires |p.velmaxPosPlan| == 3 && |p.velmaxNegPlan| == 3
    ensures GenSs(p, seed, goal)[3 + i].NonEmpty() <==> -Abs(p.velmaxNegPlan[i]) <= p.velmaxPosPlan[i]
    ensures p.velmaxPosPlan[i] >= 0.0 ==> GenSs(p, seed, goal)[3 + i].NonEmpty()
    ensures GenSs(p, seed, goal)[3 + i].Contains(0.0) <==> p.velmaxPosPlan[i] >= 0.0
  {
  }

  /** The sign of the configured reverse limit does not matter. */
  lemma ReverseLimitSignIrrelevant(p: Vehicle, q: Vehicle, seed: Vec, goal: Vec)
    requires |seed| >= 2
    requires |p.velmaxPosPlan| == 3 && |p.velmaxNegPlan| == 3
    requires q == p.(velmaxNegPlan := seq(3, i requires 0 <= i < 3 => -p.velmaxNegPlan[i]))
    ensures GenSs(p, seed, goal) == GenSs(q, seed, goal)
  {
  }

  /** A seed at the origin with unit buffer gives x and y intervals (-3, 3). */
  lemma GenSsOriginExample(p: Vehicle, goal: Vec)
    requires |p.velmaxPosPlan| == 3 && |p.velmaxNegPlan| == 3 && p.ssBuff == 1.0
    ensures GenSs(p, [0.0, 0.0, 0.0, 0.0, 0.0, 0.0], goal)[..3]
         == [Interval(-3.0, 3.0), Interval(-3.0, 3.0), Interval(-Pi, Pi)]
  {
  }

  /** A per-dimension tolerance: a finite bound, or no constraint (`np.inf`). */
  datatype Tolerance = Bounded(radius: real) | Unconstrained

  /** The goal buffer: within the free radius in x and y; heading and the
      three velocities unconstrained. */
  function GoalBuffer(p: Vehicle): (g: seq<Tolerance>)
    ensures |g| == 6
    ensures forall k :: 0 <= k < 6 ==> (g[k].Unconstrained? <==> k >= 2)
    ensures g[0] == g[1] == Bounded(p.freeRadius)
  {
    [Bounded(p.freeRadius), Bounded(p.freeRadius),
     Unconstrained, Unconstrained, Unconstrained, Unconstrained]
  }

  /** The error tolerance: a copy of the goal buffer, so it also constrains
      position only. */
  function ErrorTol(p: Vehicle): (e: seq<Tolerance>)
    ensures |e| == 6
    ensures forall k :: 0 <= k < 6 ==> (e[k].Unconstrained? <==> k >= 2)
    ensures e[0] == e[1] == Bounded(p.freeRadius)
  {
    GoalBuffer(p)
  }
}
