/** The fog scene (Homework3): the up and down arrows thicken and thin the
    exponential fog, the left and right mouse buttons switch the red and
    the blue light, and a reshape records the window size. The globals
    the handlers assign are the fields of the class FogScene. */
module Fog {
  import opened Wrappers

  /** GLUT's codes for the arrow keys, mouse buttons and button states. */
  const KeyUp: int := 101
  const KeyDown: int := 103
  const LeftButton: int := 0
  const RightButton: int := 2
  const Down: int := 0

  /** The up arrow: 0.02 more fog, capped at 1. */
  function Thicker(f: real): (r: real)
    ensures r <= 1.0
    ensures f + 0.02 <= 1.0 ==> r == f + 0.02
    ensures f + 0.02 > 1.0 ==> r == 1.0
    ensures f <= 1.0 ==> f <= r
  {
    if f + 0.02 > 1.0 then 1.0 else f + 0.02
  }

  /** The down arrow: 0.02 less fog, floored at 0. */
  function Thinner(f: real): (r: real)
    ensures 0.0 <= r
    ensures f - 0.02 >= 0.0 ==> r == f - 0.02
    ensures f - 0.02 < 0.0 ==> r == 0.0
    ensures 0.0 <= f ==> r <= f
  {
    if f - 0.02 < 0.0 then 0.0 else f - 0.02
  }

  /** A step down undoes a step up that was not capped. */
  lemma ThinnerUndoesThicker(f: real)
    requires 0.0 <= f <= 0.98
    ensures Thinner(Thicker(f)) == f
  {
  }

  /** handleKeyboard on the fog density: the up arrow thickens, the down
      arrow thins, every other key leaves it; a density in [0, 1] stays
      there. */
  function FogKeyed(f: real, key: int): (r: real)
    ensures key == KeyUp ==> r == Thicker(f)
    ensures key == KeyDown ==> r == Thinner(f)
    ensures key != KeyUp && key != KeyDown ==> r == f
    ensures 0.0 <= f <= 1.0 ==> 0.0 <= r <= 1.0
  {
    if key == KeyUp then Thicker(f) else if key == KeyDown then Thinner(f) else f
  }

  /** The density after a run of special keys. */
  function FogAfter(f: real, keys: seq<int>): real
    decreases |keys|
  {
    if keys == [] then f else FogAfter(FogKeyed(f, keys[0]), keys[1..])
  }

  /** From the initial 0.05, or any density in [0, 1], no run of keys
      leaves [0, 1]. */
  lemma {:induction false} FogStaysInUnit(f: real, keys: seq<int>)
    requires 0.0 <= f <= 1.0
    ensures 0.0 <= FogAfter(f, keys) <= 1.0
    decreases |keys|
  {
    if keys != [] {
      FogStaysInUnit(FogKeyed(f, keys[0]), keys[1..]);
    }
  }

  /** handleMouse on the pair (redLightOn, blueLightOn): a left press
      switches only the red light, a right press only the blue one, and
      releases and other buttons change nothing. */
  function Toggled(lights: (bool, bool), button: int, state: int): (r: (bool, bool))
    ensures state == Down && button == LeftButton ==> r.0 != lights.0 && r.1 == lights.1
    ensures state == Down && button == RightButton ==> r.0 == lights.0 && r.1 != lights.1
    ensures state != Down || (button != LeftButton && button != RightButton) ==> r == lights
  {
    if state != Down then lights
    else if button == LeftButton then (!lights.0, lights.1)
    else if button == RightButton then (lights.0, !lights.1)
    else lights
  }

  /** Pressing the same button twice restores both lights. */
  lemma ToggledTwice(lights: (bool, bool), button: int, state: int)
    ensures Toggled(Toggled(lights, button, state), button, state) == lights
  {
  }

  /** The `height ? height : 1` guard: the stored height is never 0 and
      is the window's height whenever that is not 0. */
  function StoredHeight(height: int): (r: int)
    ensures r != 0
    ensures height != 0 ==> r == height
    ensures height == 0 ==> r == 1
  {
    if height != 0 then height else 1
  }

  /** The aspect ratio width / divisor handed to gluPerspective; a zero
      divisor has no finite ratio (the float division gives an infinity or
      NaN). */
  function ProjectionAspect(width: int, divisor: int): (r: Option<real>)
    ensures r.Some? <==> divisor != 0
    ensures r.Some? ==> r.value * divisor as real == width as real
  {
    if divisor == 0 then None else Some(width as real / divisor as real)
  }

  /** adjustViewport as written divides by the height it was given, not by
      the guarded screenHeight: a zero-height reshape stores 1 and still
      asks for an aspect ratio with divisor 0. */
  lemma UnguardedDivision(width: int)
    ensures StoredHeight(0) == 1
    ensures ProjectionAspect(width, 0) == None
    ensures ProjectionAspect(width, StoredHeight(0)) == Some(width as real)
  {
  }

  /** The program's globals: the two light switches, the fog density and
      the window size. */
  class FogScene {
    var redLightOn: bool
    var blueLightOn: bool
    var fogIntensity: real
    var screenWidth: int
    var screenHeight: int

    ghost predicate Valid()
      reads this
    {
      0.0 <= fogIntensity <= 1.0 && screenHeight != 0
    }

    /** Both lights on, density 0.05, an 800 x 600 window. */
    constructor()
      ensures Valid()
      ensures redLightOn && blueLightOn && fogIntensity == 0.05
      ensures screenWidth == 800 && screenHeight == 600
    {
      redLightOn := true;
      blueLightOn := true;
      fogIntensity := 0.05;
      screenWidth := 800;
      screenHeight := 600;
    }

    /** adjustViewport: records the size with the zero-height guard and
        returns the aspect ratio, here taken over the guarded height so
        that it always exists. */
    method AdjustViewport(width: int, height: int) returns (aspect: real)
      requires Valid()
      modifies this`screenWidth, this`screenHeight
      ensures Valid()
      ensures screenWidth == width && screenHeight == StoredHeight(height)
      ensures ProjectionAspect(width, screenHeight) == Some(aspect)
    {
      screenWidth := width;
      screenHeight := if height != 0 then height else 1;
      aspect := width as real / screenHeight as real;
    }

    /** handleKeyboard, registered for the special keys. */
    method Keyboard(key: int)
      requires Valid()
      modifies this`fogIntensity
      ensures Valid()
      ensures fogIntensity == FogKeyed(old(fogIntensity), key)
    {
      if key == KeyUp {
        fogIntensity := if fogIntensity + 0.02 > 1.0 then 1.0 else fogIntensity + 0.02;
      } else if key == KeyDown {
        fogIntensity := if fogIntensity - 0.02 < 0.0 then 0.0 else fogIntensity - 0.02;
      }
    }

    /** handleMouse. */
    method Mouse(button: int, state: int, x: int, y: int)
      requires Valid()
      modifies this`redLightOn, this`blueLightOn
      ensures Valid()
      ensures (redLightOn, blueLightOn) == Toggled((old(redLightOn), old(blueLightOn)), button, state)
    {
      if state == Down {
        if button == LeftButton {
          redLightOn := !redLightOn;
        } else if button == RightButton {
          blueLightOn := !blueLightOn;
        }
      }
    }
  }
}
