/**
 * The per-frame approach decision taken by `AppGame.animate`: given the
 * optional target distance and the current camera-to-planet distance `d`,
 * either ask the orbit controls for a plain update (`None`) or for an update
 * damped by a multiplicative radius factor (`Some(f)`).
 */
module Approach {
  import opened Wrappers

  /** Below this gap between `d` and the target the camera is "close enough". */
  const Tolerance: real := 0.1
  /** The smallest factor ever emitted: one frame closes at most 1% of the radius. */
  const MinFactor: real := 0.99
  /** The largest factor ever emitted: one frame opens at most 1% of the radius. */
  const MaxFactor: real := 1.01

  function Abs(x: real): real { if x < 0.0 then -x else x }
  function Max(a: real, b: real): real { if a < b then b else a }
  function Min(a: real, b: real): real { if a < b then a else b }

  /** A target is set and the camera is outside the tolerance band around it. */
  predicate Converging(target: Option<real>, d: real)
  {
    target.Some? && Abs(d - target.value) >= Tolerance
  }

  /**
   * The decision of one frame. The source divides by `d` without a guard, so
   * the model asks for `d > 0` on the one branch that divides.
   */
  function Step(target: Option<real>, d: real): (r: Option<real>)
    requires Converging(target, d) ==> d > 0.0
    // a factor is emitted exactly when converging; otherwise (free: no target,
    // or settled: within tolerance) a plain update
    ensures r.Some? <==> Converging(target, d)
    // every emitted factor lies in [0.99, 1.01]
    ensures r.Some? ==> MinFactor <= r.value <= MaxFactor
    // too far: zoom inward, never by more than 1%
    ensures r.Some? && target.Some? && d > target.value ==> MinFactor <= r.value < 1.0
    // too near: zoom outward, never by more than 1%
    ensures r.Some? && target.Some? && d < target.value ==> 1.0 < r.value <= MaxFactor
  {
    match target
    case None => None
    case Some(t) =>
      var dx := d - t;
      if Abs(dx) < Tolerance then None
      else if dx > 0.0 then
        assert dx / d > 0.0;
        Some(Max(MinFactor, 1.0 - dx / d))
      else
        assert dx / d < 0.0;
        Some(Min(MaxFactor, 1.0 - dx / d))
  }

  /** Settling keeps the target: stepping again from any distance still uses it. */
  lemma SettledReenters(t: real, d: real, d': real)
    requires Abs(d - t) < Tolerance
    requires Abs(d' - t) >= Tolerance && d' > 0.0
    ensures Step(Some(t), d) == None
    ensures Step(Some(t), d').Some?
  {
  }

  // Scenarios

  /** Exactly on the tolerance boundary the camera still converges: `1 - 0.1/40.1 = 400/401`. */
  lemma BoundaryIsConverging()
    ensures Step(Some(40.0), 40.1) == Some(400.0 / 401.0)
    ensures Step(Some(40.0), 39.9).Some?
  {
  }

  /** 60 away from a 40 target: `1 - 20/60` is below the clamp, so 0.99. */
  lemma FarScenario()
    ensures Step(Some(40.0), 60.0) == Some(0.99)
  {
  }

  /** 40.5 away from a 40 target: `1 - 0.5/40.5 = 80/81` is below 0.99, so the clamp applies. */
  lemma NearScenario()
    ensures Step(Some(40.0), 40.5) == Some(0.99)
  {
  }

  /** 0.05 inside the target: settled, plain update. */
  lemma SettledScenario()
    ensures Step(Some(40.0), 39.95) == None
    ensures Step(Some(40.0), 40.0) == None
  {
  }
}
