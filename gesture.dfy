/**
 * The pointer/pick gesture of `AppGame` as values: the fields the handlers
 * read and write, one transition function per handler, event traces, and
 * what a press-move-release sequence does to the target distance.
 */
module Gesture {
  import opened Wrappers

  /** The target distance a successful pick sets. */
  const PickedDistance: real := 40.0
  /** The target distance when the application starts. */
  const InitialDistance: real := 60.0

  /** The handler-visible fields of `AppGame`; the pointer is kept in normalised device coordinates. */
  datatype GameState = GameState(
    targetDistance: Option<real>,
    drag: bool,
    startingPosX: real,
    startingPosY: real,
    pointerX: real,
    pointerY: real)

  /** The field initialisers: target 60, no drag, starting position and pointer at the origin. */
  function Initial(): GameState
  {
    GameState(Some(InitialDistance), false, 0.0, 0.0, 0.0, 0.0)
  }

  // Page coordinates to normalised device coordinates

  /** Horizontal page coordinate to NDC: the left edge maps to -1, the right edge to +1. */
  function NdcX(pageX: real, width: real): (x: real)
    requires width > 0.0
    ensures 0.0 <= pageX <= width ==> -1.0 <= x <= 1.0
  {
    (pageX / width) * 2.0 - 1.0
  }

  /** Vertical page coordinate to NDC, flipped: the top edge maps to +1, the bottom edge to -1. */
  function NdcY(pageY: real, height: real): (y: real)
    requires height > 0.0
    ensures 0.0 <= pageY <= height ==> -1.0 <= y <= 1.0
  {
    -(pageY / height) * 2.0 + 1.0
  }

  /** The inverse of NdcX. */
  function PageX(x: real, width: real): real
  {
    (x + 1.0) / 2.0 * width
  }

  /** The inverse of NdcY. */
  function PageY(y: real, height: real): real
  {
    (1.0 - y) / 2.0 * height
  }

  lemma NdcRoundTrip(pageX: real, pageY: real, width: real, height: real)
    requires width > 0.0 && height > 0.0
    ensures PageX(NdcX(pageX, width), width) == pageX
    ensures PageY(NdcY(pageY, height), height) == pageY
    ensures NdcX(PageX(pageX, width), width) == pageX
    ensures NdcY(PageY(pageY, height), height) == pageY
  {
  }

  /** The corners of the window, and the flip: lower on the page is lower in NDC. */
  lemma NdcOrientation(pageX: real, pageX': real, pageY: real, pageY': real, width: real, height: real)
    requires width > 0.0 && height > 0.0
    ensures NdcX(0.0, width) == -1.0 && NdcX(width, width) == 1.0
    ensures NdcY(0.0, height) == 1.0 && NdcY(height, height) == -1.0
    ensures pageX < pageX' ==> NdcX(pageX, width) < NdcX(pageX', width)
    ensures pageY < pageY' ==> NdcY(pageY', height) < NdcY(pageY, height)
  {
    assert width / width == 1.0 && height / height == 1.0;
    if pageX < pageX' {
      assert pageX / width < pageX' / width by { assert (pageX' - pageX) / width > 0.0; }
    }
    if pageY < pageY' {
      assert pageY / height < pageY' / height by { assert (pageY' - pageY) / height > 0.0; }
    }
  }

  // One transition per handler

  /** Press: forget any previous drag and remember where the press happened. */
  function PointerDown(g: GameState, pageX: real, pageY: real): GameState
  {
    g.(drag := false, startingPosX := pageX, startingPosY := pageY)
  }

  /** Move: any position other than the press position makes the gesture a drag. */
  function PointerMove(g: GameState, pageX: real, pageY: real): GameState
  {
    if !(pageX == g.startingPosX && pageY == g.startingPosY) then g.(drag := true) else g
  }

  /** Release: after a drag nothing happens; otherwise record the pointer and, on a hit, pick. */
  function PointerUp(g: GameState, pageX: real, pageY: real, width: real, height: real, hit: bool): GameState
    requires width > 0.0 && height > 0.0
  {
    if g.drag then g
    else
      var aimed := g.(pointerX := NdcX(pageX, width), pointerY := NdcY(pageY, height));
      if hit then aimed.(targetDistance := Some(PickedDistance)) else aimed
  }

  /** The orbit controls' `start` event: the user took over, so drop the target. */
  function ControlsStart(g: GameState): GameState
  {
    g.(targetDistance := None)
  }

  // Traces of events

  /** One input event; `hit` on a release is the raycast's verdict for that release. */
  datatype Event =
    | Down(x: real, y: real)
    | Move(x: real, y: real)
    | Up(x: real, y: real, width: real, height: real, hit: bool)
    | Start

  predicate WellFormed(e: Event)
  {
    e.Up? ==> e.width > 0.0 && e.height > 0.0
  }

  predicate AllWellFormed(evs: seq<Event>)
  {
    forall i :: 0 <= i < |evs| ==> WellFormed(evs[i])
  }

  function Apply(g: GameState, e: Event): GameState
    requires WellFormed(e)
  {
    match e
    case Down(x, y) => PointerDown(g, x, y)
    case Move(x, y) => PointerMove(g, x, y)
    case Up(x, y, w, h, hit) => PointerUp(g, x, y, w, h, hit)
    case Start => ControlsStart(g)
  }

  /** The state after handling `evs` in order. */
  function Run(g: GameState, evs: seq<Event>): GameState
    requires AllWellFormed(evs)
    decreases |evs|
  {
    if evs == [] then g else Run(Apply(g, evs[0]), evs[1..])
  }

  /** Some move in `evs` is at a position other than (x, y). */
  predicate MovedAway(evs: seq<Event>, x: real, y: real)
  {
    exists i :: 0 <= i < |evs| && evs[i].Move? && !(evs[i].x == x && evs[i].y == y)
  }

  predicate HasStart(evs: seq<Event>)
  {
    exists i :: 0 <= i < |evs| && evs[i].Start?
  }

  predicate NoPress(evs: seq<Event>)
  {
    forall i :: 0 <= i < |evs| ==> !evs[i].Down?
  }

  predicate OnlyMovesAndStarts(evs: seq<Event>)
  {
    forall i :: 0 <= i < |evs| ==> evs[i].Move? || evs[i].Start?
  }

  lemma {:induction false} RunAppend(g: GameState, a: seq<Event>, b: seq<Event>)
    requires AllWellFormed(a) && AllWellFormed(b)
    ensures AllWellFormed(a + b)
    ensures Run(g, a + b) == Run(Run(g, a), b)
    decreases |a|
  {
    assert AllWellFormed(a + b) by {
      forall i | 0 <= i < |a + b| ensures WellFormed((a + b)[i]) {
        if i < |a| { assert WellFormed(a[i]); } else { assert WellFormed(b[i - |a|]); }
      }
    }
    if a == [] {
      assert a + b == b;
    } else {
      assert (a + b)[0] == a[0] && (a + b)[1..] == a[1..] + b;
      RunAppend(Apply(g, a[0]), a[1..], b);
    }
  }

  /**
   * Between a press and a release, moves and `start` events leave the press
   * position and the pointer alone, make the gesture a drag exactly when some
   * move left the press position, and clear the target exactly when a `start`
   * came.
   */
  lemma {:induction false} BetweenPressAndRelease(g: GameState, evs: seq<Event>)
    requires OnlyMovesAndStarts(evs)
    ensures AllWellFormed(evs)
    ensures Run(g, evs) == g.(
      drag := g.drag || MovedAway(evs, g.startingPosX, g.startingPosY),
      targetDistance := if HasStart(evs) then None else g.targetDistance)
    decreases |evs|
  {
    if evs != [] {
      var rest := evs[1..];
      assert OnlyMovesAndStarts(rest) by {
        forall i | 0 <= i < |rest| ensures rest[i].Move? || rest[i].Start? { assert rest[i] == evs[i + 1]; }
      }
      var g' := Apply(g, evs[0]);
      BetweenPressAndRelease(g', rest);
      assert g'.startingPosX == g.startingPosX && g'.startingPosY == g.startingPosY;
      var x, y := g.startingPosX, g.startingPosY;
      assert MovedAway(evs, x, y) <==> (evs[0].Move? && !(evs[0].x == x && evs[0].y == y)) || MovedAway(rest, x, y) by {
        if MovedAway(rest, x, y) {
          var i :| 0 <= i < |rest| && rest[i].Move? && !(rest[i].x == x && rest[i].y == y);
          assert evs[i + 1] == rest[i];
        }
        if MovedAway(evs, x, y) {
          var i :| 0 <= i < |evs| && evs[i].Move? && !(evs[i].x == x && evs[i].y == y);
          if i > 0 { assert rest[i - 1] == evs[i]; }
        }
      }
      assert HasStart(evs) <==> evs[0].Start? || HasStart(rest) by {
        if HasStart(rest) {
          var i :| 0 <= i < |rest| && rest[i].Start?;
          assert evs[i + 1] == rest[i];
        }
        if HasStart(evs) {
          var i :| 0 <= i < |evs| && evs[i].Start?;
          if i > 0 { assert rest[i - 1] == evs[i]; }
        }
      }
    }
  }

  /**
   * A click: press at (x, y), then moves and `start` events, then a release.
   * The release picks (target 40) exactly when the raycast hit and no move
   * left (x, y); otherwise the target is what the intervening events left.
   */
  lemma Click(g: GameState, x: real, y: real, mid: seq<Event>,
              upX: real, upY: real, width: real, height: real, hit: bool)
    requires OnlyMovesAndStarts(mid)
    requires width > 0.0 && height > 0.0
    ensures AllWellFormed([Down(x, y)] + mid + [Up(upX, upY, width, height, hit)])
    ensures var after := Run(g, [Down(x, y)] + mid + [Up(upX, upY, width, height, hit)]);
      after.drag == MovedAway(mid, x, y) &&
      after.targetDistance ==
        if hit && !MovedAway(mid, x, y) then Some(PickedDistance)
        else if HasStart(mid) then None
        else g.targetDistance
  {
    var down, up := [Down(x, y)], [Up(upX, upY, width, height, hit)];
    var pressed := Run(g, down);
    assert down != [] && down[0] == Down(x, y) && down[1..] == [];
    assert Apply(g, down[0]) == PointerDown(g, x, y);
    assert pressed == Run(PointerDown(g, x, y), []);
    BetweenPressAndRelease(pressed, mid);
    RunAppend(g, down, mid);
    RunAppend(g, down + mid, up);
  }

  /** A click that the raycast confirms, with no movement, always picks. */
  lemma StillClickPicks(g: GameState, x: real, y: real, width: real, height: real)
    requires width > 0.0 && height > 0.0
    ensures AllWellFormed([Down(x, y), Move(x, y), Up(x, y, width, height, true)])
    ensures Run(g, [Down(x, y), Move(x, y), Up(x, y, width, height, true)]).targetDistance == Some(PickedDistance)
  {
    var mid := [Move(x, y)];
    assert !MovedAway(mid, x, y);
    Click(g, x, y, mid, x, y, width, height, true);
    assert [Down(x, y)] + mid + [Up(x, y, width, height, true)] == [Down(x, y), Move(x, y), Up(x, y, width, height, true)];
  }

  /** Once the gesture is a drag it stays one until the next press. */
  lemma {:induction false} DragPersists(g: GameState, evs: seq<Event>)
    requires g.drag && AllWellFormed(evs) && NoPress(evs)
    ensures Run(g, evs).drag
    decreases |evs|
  {
    if evs != [] {
      var rest := evs[1..];
      assert AllWellFormed(rest) && NoPress(rest) by {
        forall i | 0 <= i < |rest| ensures WellFormed(rest[i]) && !rest[i].Down? { assert rest[i] == evs[i + 1]; }
      }
      assert !evs[0].Down?;
      DragPersists(Apply(g, evs[0]), rest);
    }
  }
}
