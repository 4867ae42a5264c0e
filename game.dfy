/**
 * The `AppGame` object: the fields that its input handlers and its frame
 * step read and write, one method per handler, each proved against the
 * corresponding transition of `Gesture`, and the frame step proved against
 * `Approach.Step`.
 */
module Game {
  import opened Wrappers
  import Approach
  import Gesture

  class AppGame {
    var targetDistance: Option<real>
    var drag: bool
    var startingPosX: real
    var startingPosY: real
    /** The last picked pointer position in normalised device coordinates. */
    var pointerX: real
    var pointerY: real

    /** The handler-visible fields as one value. */
    function State(): Gesture.GameState
      reads this
    {
      Gesture.GameState(targetDistance, drag, startingPosX, startingPosY, pointerX, pointerY)
    }

    /** Fresh application state: target 60, no drag. */
    constructor ()
      ensures State() == Gesture.Initial()
      ensures targetDistance == Some(Gesture.InitialDistance) && !drag
    {
      targetDistance := Some(Gesture.InitialDistance);
      drag := false;
      startingPosX, startingPosY := 0.0, 0.0;
      pointerX, pointerY := 0.0, 0.0;
    }

    /** `mousedown`: reset the drag flag and record the press position. */
    method OnPointerDown(pageX: real, pageY: real)
      modifies this
      ensures State() == Gesture.PointerDown(old(State()), pageX, pageY)
      ensures !drag && startingPosX == pageX && startingPosY == pageY
    {
      drag := false;
      startingPosX := pageX;
      startingPosY := pageY;
    }

    /** `mousemove`: a position other than the press position marks a drag. */
    method OnPointerMove(pageX: real, pageY: real)
      modifies this
      ensures State() == Gesture.PointerMove(old(State()), pageX, pageY)
      ensures drag <==> old(drag) || !(pageX == startingPosX && pageY == startingPosY)
    {
      if !(pageX == startingPosX && pageY == startingPosY) {
        drag := true;
      }
    }

    /**
     * `mouseup`: unless the gesture was a drag, convert the release position
     * to NDC and, when the raycast from there `hit` the planet, set target 40.
     */
    method OnPointerUp(pageX: real, pageY: real, innerWidth: real, innerHeight: real, hit: bool)
      requires innerWidth > 0.0 && innerHeight > 0.0
      modifies this
      ensures State() == Gesture.PointerUp(old(State()), pageX, pageY, innerWidth, innerHeight, hit)
      ensures targetDistance == if !old(drag) && hit then Some(Gesture.PickedDistance) else old(targetDistance)
    {
      if drag {
        return;
      }
      pointerX := (pageX / innerWidth) * 2.0 - 1.0;
      pointerY := -(pageY / innerHeight) * 2.0 + 1.0;
      if hit {
        targetDistance := Some(Gesture.PickedDistance);
      }
    }

    /** The orbit controls' `start` listener: drop the target. */
    method OnControlsStart()
      modifies this
      ensures State() == Gesture.ControlsStart(old(State()))
      ensures targetDistance == None
    {
      targetDistance := None;
    }

    /**
     * The decision part of `animate` for camera distance `d`: `None` stands
     * for `controls.update()`, `Some(f)` for `controls.update(f)`. It reads
     * the target and changes nothing, so a settled target is kept.
     * It is not a second model of the step: it is the method form of the
     * branch chain, proved equal to `Approach.Step`, which states the
     * step's properties; its missing `modifies` clause is what shows that
     * the target survives the frame.
     */
    method Animate(d: real) returns (update: Option<real>)
      requires Approach.Converging(targetDistance, d) ==> d > 0.0
      ensures update == Approach.Step(targetDistance, d)
    {
      if targetDistance != None {
        var dx := d - targetDistance.value;
        if Approach.Abs(dx) < Approach.Tolerance {
          update := None;
        } else if dx > 0.0 {
          update := Some(Approach.Max(Approach.MinFactor, 1.0 - dx / d));
        } else {
          // dx < 0: the source's last `else if (dx < 0)` always applies here
          update := Some(Approach.Min(Approach.MaxFactor, 1.0 - dx / d));
        }
      } else {
        update := None;
      }
    }
  }

  /** A press, a still release on the planet, then a grab of the controls: pick, then cancel. */
  method PickThenGrab(width: real, height: real)
    requires width > 0.0 && height > 0.0
  {
    var game := new AppGame();
    game.OnPointerDown(10.0, 20.0);
    game.OnPointerMove(10.0, 20.0);
    game.OnPointerUp(10.0, 20.0, width, height, true);
    assert game.targetDistance == Some(40.0);
    var update := game.Animate(130.0);
    assert update == Some(0.99);
    game.OnControlsStart();
    assert game.targetDistance == None;
    update := game.Animate(130.0);
    assert update == None;
  }
}
