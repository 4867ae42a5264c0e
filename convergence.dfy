/**
 * What the approach decision does to the camera distance over many frames,
 * under the orbit controls' contract that an update with a factor multiplies
 * the orbit radius by it and a plain update leaves the radius as it is (no
 * user input in between).
 */
module Convergence {
  import opened Wrappers
  import opened Approach

  /** The camera distance after one frame that steps toward target `t` from `d`. */
  function Frame(t: real, d: real): (r: real)
    requires d > 0.0
    ensures r > 0.0
  {
    match Step(Some(t), d)
    case None => d
    case Some(f) => d * f
  }

  /** The camera distance after `n` frames. */
  function Frames(t: real, d: real, n: nat): real
    requires d > 0.0
    decreases n
  {
    if n == 0 then d else Frames(t, Frame(t, d), n - 1)
  }

  /** A lower bound on how much one converging frame closes the gap to `t`. */
  function MinProgress(t: real, d: real): real
  {
    Min(0.01 * Min(d, t), Tolerance)
  }

  /** Multiplying by a clamped `1 - dx/d` clamps the new distance: it never passes the target. */
  lemma FrameValue(t: real, d: real)
    requires d > 0.0 && Abs(d - t) >= Tolerance
    ensures d > t ==> Frame(t, d) == Max(MinFactor * d, t)
    ensures d < t ==> Frame(t, d) == Min(MaxFactor * d, t)
  {
  }

  /** A settled camera stays where it is and keeps its target. */
  lemma {:induction false} SettledIsFixed(t: real, d: real, n: nat)
    requires d > 0.0 && Abs(d - t) < Tolerance
    ensures Frames(t, d, n) == d
  {
    if n > 0 {
      SettledIsFixed(t, d, n - 1);
    }
  }

  /**
   * Each converging frame strictly shrinks the gap by at least MinProgress,
   * stays on the same side of the target (no overshoot) and does not lower MinProgress.
   */
  lemma FrameApproaches(t: real, d: real)
    requires t > 0.0 && d > 0.0 && Abs(d - t) >= Tolerance
    ensures d > t ==> t <= Frame(t, d) < d
    ensures d < t ==> d < Frame(t, d) <= t
    ensures Abs(Frame(t, d) - t) <= Abs(d - t) - MinProgress(t, d)
    ensures MinProgress(t, Frame(t, d)) >= MinProgress(t, d)
  {
    FrameValue(t, d);
  }

  /**
   * Convergence: if the gap is at most `k` times a positive lower bound on
   * the progress per frame, the camera is settled after `k` frames.
   */
  lemma {:induction false} Converges(t: real, d: real, g: real, k: nat)
    requires t > 0.0 && d > 0.0
    requires 0.0 < g <= MinProgress(t, d)
    requires Abs(d - t) <= k as real * g
    ensures Abs(Frames(t, d, k) - t) < Tolerance
    decreases k
  {
    if Abs(d - t) < Tolerance {
      SettledIsFixed(t, d, k);
    } else {
      assert k != 0;
      FrameApproaches(t, d);
      var d' := Frame(t, d);
      assert Abs(d' - t) <= (k - 1) as real * g;
      Converges(t, d', g, k - 1);
    }
  }

  /** From 100 toward 40 the camera is settled from frame 600 on. */
  lemma HundredToForty(n: nat)
    requires n >= 600
    ensures Abs(Frames(40.0, 100.0, n) - 40.0) < Tolerance
  {
    Converges(40.0, 100.0, 0.1, n);
  }

  /** From the initial camera distance 130 toward the initial target 60, settled from frame 700 on. */
  lemma InitialApproachSettles(n: nat)
    requires n >= 700
    ensures Abs(Frames(60.0, 130.0, n) - 60.0) < Tolerance
  {
    Converges(60.0, 130.0, 0.1, n);
  }

  /** From inside, 20 out toward 40, the camera is settled from frame 200 on. */
  lemma TwentyToForty(n: nat)
    requires n >= 200
    ensures Abs(Frames(40.0, 20.0, n) - 40.0) < Tolerance
  {
    Converges(40.0, 20.0, 0.1, n);
  }
}
