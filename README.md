# pauls-marble: approach controller and pick gesture

A model of the two pieces of decision logic in `AppGame`, the class that
drives an interactive 3D planet:

- **The approach step** taken every frame by `animate`. With no target
  distance the orbit controls get a plain update (*free*). With a target
  within 0.1 of the current camera-to-planet distance `d` they also get a plain
  update, and the target is kept (*settled*). Otherwise they get an update
  damped by a radius factor (*converging*): `max(0.99, 1 - dx/d)` when the
  camera is too far and `min(1.01, 1 - dx/d)` when it is too near, where
  `dx = d - target`. This is `Approach.Step`. `Convergence` then follows the
  camera over many frames. It assumes the orbit controls multiply the radius
  by the factor and leave it alone on a plain update. Under that assumption
  it proves that every converging frame strictly closes the gap, never
  overshoots the target, and reaches the settled band within a stated number
  of frames.
- **The pointer/pick gesture.** A press clears `drag` and records the press
  position. A move to any other position sets `drag`. A release without a
  drag converts the page position to normalised device coordinates (x to the
  right, y flipped so up is +1). If the raycast from that point hits the
  planet, the release sets the target distance to 40. The orbit controls'
  `start` event clears the target. `Gesture` states these rules over values
  and proves what a press-moves-release trace does. `Game.AppGame` is the
  object itself: one method per handler, each proved to change its fields
  exactly as the matching `Gesture` transition says.

Modules: `Wrappers` (Option), `Approach`, `Convergence`, `Gesture`, `Game`.
The raycast result (`hit`), the window size (`innerWidth`, `innerHeight`) and
the camera distance `d` are parameters.

Two edge cases of the step, as the code computes them:

- At `d == target` the step does a plain update. It does not emit a factor
  of 1.0 (`Approach.SettledScenario`).
- At `d = 40.5`, target 40, `1 - 0.5/40.5 = 80/81 < 0.99`, so the clamp gives
  0.99 (`Approach.NearScenario`).

## Model

The value-level transitions `Gesture.Initial`, `Gesture.PointerDown`,
`Gesture.PointerMove`, `Gesture.PointerUp` and `Gesture.ControlsStart`
(src/AppGame.ts lines 32-37, 165-169, 171-175, 177-193 and 158-160) have no rows of their
own: the `Game.AppGame` rows cover them, because each method's contract is
`State() == Gesture.X(old(State()), …)`. `Convergence.Frames` iterates
`Convergence.Frame`, standing in for the frame loop that `requestAnimationFrame`
drives (line 227); the `Convergence` lemmas state what it does. `Game.PickThenGrab` is a worked
example: it composes the handler methods with `Animate` in one session (a
still click on the planet, one frame, a grab of the controls, one frame).

| member | source | states |
|---|---|---|
| Approach.Step | src/AppGame.ts:209-221 | No target gives a plain update. A factor is emitted exactly when a target is set and the gap is at least 0.1, so a gap of exactly 0.1 still converges. Every factor lies in [0.99, 1.01]: in [0.99, 1) when the camera is too far and in (1, 1.01] when it is too near. Dividing by `d` needs `d > 0` on the converging branch only. |
| Approach.SettledReenters | src/AppGame.ts:209-213 | Settling emits no factor and keeps the target. A later distance outside the band converges again toward the same target. |
| Approach.BoundaryIsConverging | src/AppGame.ts:212 | A gap of exactly 0.1, on either side of target 40, converges. At distance 40.1 the factor is 400/401. |
| Approach.FarScenario | src/AppGame.ts:214-215 | Distance 60 with target 40 gives the clamped factor 0.99. |
| Approach.NearScenario | src/AppGame.ts:214-215 | Distance 40.5 with target 40 gives 0.99, because 80/81 is below the clamp. |
| Approach.SettledScenario | src/AppGame.ts:212-213 | Distances 39.95 and 40 with target 40 give a plain update. |
| Convergence.Frame | src/AppGame.ts:209-221 | The camera distance after one frame, radius times factor, stays positive. |
| Convergence.FrameValue | src/AppGame.ts:214-217 | A converging frame moves the distance to `max(0.99 d, target)` from above and to `min(1.01 d, target)` from below. |
| Convergence.SettledIsFixed | src/AppGame.ts:212-213 | A settled camera stays at its distance for any number of frames. |
| Convergence.FrameApproaches | src/AppGame.ts:212-217 | For a positive target, each converging frame stays on its side of the target (no overshoot). It shrinks the gap by at least `min(0.01 min(d, target), 0.1)`, and that bound does not drop. |
| Convergence.Converges | src/AppGame.ts:209-221 | If the gap is at most `k` times a positive lower bound on the per-frame progress, the camera is settled after `k` frames. |
| Convergence.HundredToForty | src/AppGame.ts:214-215 | From distance 100 toward target 40, the camera is settled at every frame from 600 on. |
| Convergence.InitialApproachSettles | src/AppGame.ts:209-221 | From the initial camera distance 130 (line 72) toward the initial target 60 (line 32), the camera is settled at every frame from 700 on. |
| Convergence.TwentyToForty | src/AppGame.ts:216-217 | From distance 20 out toward target 40, the camera is settled at every frame from 200 on. |
| Gesture.NdcX | src/AppGame.ts:181 | A page x inside the window maps into [-1, 1]. |
| Gesture.NdcY | src/AppGame.ts:182 | A page y inside the window maps into [-1, 1]. |
| Gesture.NdcRoundTrip | src/AppGame.ts:181-182 | The NDC mapping and its inverse undo each other in both directions. |
| Gesture.NdcOrientation | src/AppGame.ts:181-182 | The left and right edges map to -1 and +1. The top and bottom edges map to +1 and -1 (y is flipped). x is increasing and y is decreasing in the page coordinate. |
| Gesture.BetweenPressAndRelease | src/AppGame.ts:158-175 | Moves and `start` events keep the press position and the pointer. They set `drag` exactly when some move leaves the press position, and clear the target exactly when a `start` occurs. |
| Gesture.Click | src/AppGame.ts:165-192 | For press, then moves and `start` events, then release: `drag` ends true exactly when a move left the press position. The release sets the target to 40 exactly when the raycast hit and no move left the press position. Otherwise the target is cleared if a `start` occurred, else it is left as it was. |
| Gesture.StillClickPicks | src/AppGame.ts:165-192 | A press, a move to the same position, and a release that hits always set target 40. |
| Gesture.DragPersists | src/AppGame.ts:171-178 | Once `drag` is true, any events without a press leave it true. |
| Game.AppGame.constructor | src/AppGame.ts:32-49 | Initial state: target 60, no drag, starting position and pointer at 0. |
| Game.AppGame.OnPointerDown | src/AppGame.ts:165-169 | Clears `drag`, records the press position, and changes nothing else. |
| Game.AppGame.OnPointerMove | src/AppGame.ts:171-175 | `drag` becomes its old value or'ed with "position differs from the press position". Nothing else changes. |
| Game.AppGame.OnPointerUp | src/AppGame.ts:177-193 | During a drag, changes nothing. Otherwise stores the NDC pointer, and sets target 40 exactly when the raycast hit. |
| Game.AppGame.OnControlsStart | src/AppGame.ts:158-160 | Clears the target and changes nothing else. |
| Game.AppGame.Animate | src/AppGame.ts:207-221 | The branch chain of `animate` returns exactly `Approach.Step` of the current target and distance. It changes no field, so a settled target is retained. |

## Left out

- Approach.Step: requires `d > 0` on the converging branch. JavaScript would divide by zero there, get an infinite quotient, and clamp to 1.01 (or 0.99).
- Floating-point behaviour (rounding, `NaN`, infinities): all arithmetic is on exact reals. Because of this the source's last `else if (dx < 0)` always applies in the model. Under `NaN` it could fail and skip the update.
- Game.AppGame.OnPointerUp: requires a positive window width and height, because the source divides by both.
- Raycasting (`setFromCamera`, `intersectObject`): a library call. Its verdict enters the model as the `hit` parameter.
- The orbit controls' internals, including `update(factor)`: the model returns the argument `update` would get. `Convergence` assumes the controls apply the factor multiplicatively to the radius, and that no user input arrives between frames.
- Measuring the camera-to-planet distance: a vector library call. It enters as the parameter `d`. Rendering each frame and `requestAnimationFrame` self-scheduling are host plumbing.
- Scene, camera, renderer, lights, tone mapping, the atmosphere material and DOM attachment in the constructor: one-shot three.js setup with no decisions in it. The camera's initial distance of 130 appears only as a constant in `Convergence.InitialApproachSettles`.
- Environment texture loading and PMREM: asynchronous asset loading and GPU work.
- `generateTextures`: GPU render targets, rendering and pixel readback through foreign calls. The model's only content would be "six entries, each of `res*res*4` bytes".
- `onWindowResize`, the `aspect` getter, and the touch-to-mouse event copying: host plumbing. The unused `isClose` field is left out too.
