/** The lighting demo (lab2): the keyboard moves the point light and
    changes its diffuse colour, the mouse turns the camera around the
    spheres and the wheel moves it closer or further away. The `light`
    and `camera` structs are the classes Light and Camera; their handlers
    update them in place. */
module Lighting {
  import opened RealMath

  /** GLUT's codes for the arrow keys. */
  const KeyLeft: int := 100
  const KeyUp: int := 101
  const KeyRight: int := 102
  const KeyDown: int := 103

  /** The keys that raise and lower each diffuse channel: 'e'/'r' red,
      't'/'y' green, 'u'/'i' blue. */
  const RaiseKeys: seq<char> := "etu"
  const LowerKeys: seq<char> := "ryi"

  /** fminf(1, c + step): a channel raised by one step, capped at 1. */
  function Brighter(c: real, step: real): (r: real)
    ensures r <= 1.0
    ensures c + step <= 1.0 ==> r == c + step
    ensures c + step > 1.0 ==> r == 1.0
    ensures c <= 1.0 && 0.0 <= step ==> c <= r
  {
    Min(1.0, c + step)
  }

  /** fmaxf(0, c - step): a channel lowered by one step, floored at 0. */
  function Dimmer(c: real, step: real): (r: real)
    ensures 0.0 <= r
    ensures c - step >= 0.0 ==> r == c - step
    ensures c - step < 0.0 ==> r == 0.0
    ensures 0.0 <= c && 0.0 <= step ==> r <= c
  {
    Max(0.0, c - step)
  }

  /** A step down undoes a step up that was not capped. */
  lemma DimmerUndoesBrighter(c: real, step: real)
    requires 0.0 <= c && 0.0 <= step && c + step <= 1.0
    ensures Dimmer(Brighter(c, step), step) == c
  {
  }

  /** Every channel lies in [0, 1]. */
  predicate InUnit(d: seq<real>) {
    forall k :: 0 <= k < |d| ==> 0.0 <= d[k] <= 1.0
  }

  /** The diffuse colour after a key of handleKeyboard: channel k is raised
      by its raise key, lowered by its lower key and kept otherwise; with a
      non-negative step a colour in the unit cube stays there. */
  function KeyedColour(d: seq<real>, key: char, step: real): (r: seq<real>)
    requires |d| == 3
    ensures |r| == 3
    ensures forall k :: 0 <= k < 3 ==>
      r[k] == (if key == RaiseKeys[k] then Brighter(d[k], step)
               else if key == LowerKeys[k] then Dimmer(d[k], step)
               else d[k])
    ensures InUnit(d) && 0.0 <= step ==> InUnit(r)
  {
    match key
    case 'e' => d[0 := Brighter(d[0], step)]
    case 'r' => d[0 := Dimmer(d[0], step)]
    case 't' => d[1 := Brighter(d[1], step)]
    case 'y' => d[1 := Dimmer(d[1], step)]
    case 'u' => d[2 := Brighter(d[2], step)]
    case 'i' => d[2 := Dimmer(d[2], step)]
    case _ => d
  }

  /** The light position after a key of handleKeyboard: 'q' and 'w' move
      it along z by -step and +step; only position[2] ever changes. */
  function KeyedPosition(p: seq<real>, key: char, step: real): (r: seq<real>)
    requires |p| == 4
    ensures |r| == 4
    ensures forall k :: 0 <= k < 4 && k != 2 ==> r[k] == p[k]
    ensures key == 'q' ==> r[2] == p[2] - step
    ensures key == 'w' ==> r[2] == p[2] + step
    ensures key != 'q' && key != 'w' ==> r == p
  {
    if key == 'q' then p[2 := p[2] - step]
    else if key == 'w' then p[2 := p[2] + step]
    else p
  }

  /** The colour after a run of key presses. */
  function ColourAfter(d: seq<real>, keys: seq<char>, step: real): seq<real>
    requires |d| == 3
    decreases |keys|
  {
    if keys == [] then d else ColourAfter(KeyedColour(d, keys[0], step), keys[1..], step)
  }

  /** However many keys are pressed, every channel of the light's colour
      stays in [0, 1]. */
  lemma {:induction false} ColourStaysInUnit(d: seq<real>, keys: seq<char>, step: real)
    requires |d| == 3 && InUnit(d) && 0.0 <= step
    ensures |ColourAfter(d, keys, step)| == 3 && InUnit(ColourAfter(d, keys, step))
    decreases |keys|
  {
    if keys != [] {
      ColourStaysInUnit(KeyedColour(d, keys[0], step), keys[1..], step);
    }
  }

  /** The struct `light`: position (x, y, z, w) and diffuse colour (r, g, b)
      change; the step sizes are fixed at 0.5 and 0.1. The ambient and
      specular colours are only handed to OpenGL and are not kept here. */
  class Light {
    const position: array<real>
    const diffuse: array<real>
    const moveSpeed: real
    const colorStep: real

    ghost predicate Valid()
      reads this, diffuse
    {
      position.Length == 4 && diffuse.Length == 3 && position != diffuse
      && moveSpeed == 0.5 && colorStep == 0.1
      && InUnit(diffuse[..])
    }

    /** The initial light: a point light at (0, 3, 2), white. */
    constructor()
      ensures Valid()
      ensures position[..] == [0.0, 3.0, 2.0, 1.0] && diffuse[..] == [1.0, 1.0, 1.0]
      ensures fresh(position) && fresh(diffuse)
    {
      position := new real[4] [0.0, 3.0, 2.0, 1.0];
      diffuse := new real[3] [1.0, 1.0, 1.0];
      moveSpeed := 0.5;
      colorStep := 0.1;
    }

    /** handleKeyboard. */
    method Keyboard(key: char)
      requires Valid()
      modifies position, diffuse
      ensures Valid()
      ensures position[..] == KeyedPosition(old(position[..]), key, moveSpeed)
      ensures diffuse[..] == KeyedColour(old(diffuse[..]), key, colorStep)
    {
      match key {
        case 'q' => position[2] := position[2] - moveSpeed;
        case 'w' => position[2] := position[2] + moveSpeed;
        case 'e' => diffuse[0] := Min(1.0, diffuse[0] + colorStep);
        case 'r' => diffuse[0] := Max(0.0, diffuse[0] - colorStep);
        case 't' => diffuse[1] := Min(1.0, diffuse[1] + colorStep);
        case 'y' => diffuse[1] := Max(0.0, diffuse[1] - colorStep);
        case 'u' => diffuse[2] := Min(1.0, diffuse[2] + colorStep);
        case 'i' => diffuse[2] := Max(0.0, diffuse[2] - colorStep);
        case _ =>
      }
    }

    /** handleSpecialKeys: each arrow moves the light by moveSpeed along
        one axis, up/down on y and left/right on x; nothing else changes. */
    method SpecialKey(key: int)
      requires Valid()
      modifies position
      ensures Valid()
      ensures key == KeyUp ==> position[..] == old(position[..])[1 := old(position[1]) + moveSpeed]
      ensures key == KeyDown ==> position[..] == old(position[..])[1 := old(position[1]) - moveSpeed]
      ensures key == KeyLeft ==> position[..] == old(position[..])[0 := old(position[0]) - moveSpeed]
      ensures key == KeyRight ==> position[..] == old(position[..])[0 := old(position[0]) + moveSpeed]
      ensures key !in {KeyUp, KeyDown, KeyLeft, KeyRight} ==> position[..] == old(position[..])
    {
      if key == KeyUp {
        position[1] := position[1] + moveSpeed;
      } else if key == KeyDown {
        position[1] := position[1] - moveSpeed;
      } else if key == KeyLeft {
        position[0] := position[0] - moveSpeed;
      } else if key == KeyRight {
        position[0] := position[0] + moveSpeed;
      }
    }
  }

  /** The two tests of handleMouseMotion: the pitch is kept in
      [-PI/2, PI/2], where PI is the source's 21-digit decimal. */
  function LimitPitch(a: real): (r: real)
    ensures -Pi / 2.0 <= r <= Pi / 2.0
    ensures -Pi / 2.0 <= a <= Pi / 2.0 ==> r == a
    ensures a > Pi / 2.0 ==> r == Pi / 2.0
    ensures a < -Pi / 2.0 ==> r == -Pi / 2.0
  {
    if a > Pi / 2.0 then Pi / 2.0 else if a < -Pi / 2.0 then -Pi / 2.0 else a
  }

  /** Limiting twice is limiting once. */
  lemma LimitPitchIdempotent(a: real)
    ensures LimitPitch(LimitPitch(a)) == LimitPitch(a)
  {
  }

  /** handleMouseWheel on the distance: scrolling up (dir > 0) comes 0.5
      closer but not nearer than 1, any other direction goes 0.5 further. */
  function Zoomed(d: real, dir: int): (r: real)
    ensures d >= 1.0 ==> r >= 1.0
    ensures dir > 0 && d >= 1.5 ==> r == d - 0.5
    ensures dir > 0 && d <= 1.5 ==> r == 1.0
    ensures dir <= 0 ==> r == d + 0.5
  {
    if dir > 0 then Max(1.0, d - 0.5) else d + 0.5
  }

  /** Scrolling down and then up returns to the same distance. */
  lemma ZoomOutThenIn(d: real, down: int, up: int)
    requires d >= 1.0 && down <= 0 < up
    ensures Zoomed(Zoomed(d, down), up) == d
  {
  }

  /** The distance after a run of wheel events. */
  function ZoomedAll(d: real, dirs: seq<int>): real
    decreases |dirs|
  {
    if dirs == [] then d else ZoomedAll(Zoomed(d, dirs[0]), dirs[1..])
  }

  /** From any distance of at least 1, the initial 2.0 among them, no run
      of wheel events brings the camera nearer than 1. */
  lemma {:induction false} ZoomStaysAtLeastOne(d: real, dirs: seq<int>)
    requires d >= 1.0
    ensures ZoomedAll(d, dirs) >= 1.0
    decreases |dirs|
  {
    if dirs != [] {
      ZoomStaysAtLeastOne(Zoomed(d, dirs[0]), dirs[1..]);
    }
  }

  /** The struct `camera`: distance from the origin, pitch angleX, yaw
      angleY and the last mouse position. */
  class Camera {
    var distance: real
    var angleX: real
    var angleY: real
    var lastMouseX: int
    var lastMouseY: int

    ghost predicate Valid()
      reads this
    {
      distance >= 1.0 && -Pi / 2.0 <= angleX <= Pi / 2.0
    }

    constructor()
      ensures Valid()
      ensures distance == 2.0 && angleX == 0.0 && angleY == 0.0
      ensures lastMouseX == 0 && lastMouseY == 0
    {
      distance := 2.0;
      angleX := 0.0;
      angleY := 0.0;
      lastMouseX := 0;
      lastMouseY := 0;
    }

    /** handleMouseMotion: the yaw follows the horizontal movement, the
        pitch the vertical one (0.01 per pixel, pitch limited), and the
        position is recorded. */
    method MouseMotion(x: int, y: int)
      requires Valid()
      modifies this
      ensures Valid()
      ensures angleY == old(angleY) + (x - old(lastMouseX)) as real * 0.01
      ensures angleX == LimitPitch(old(angleX) - (y - old(lastMouseY)) as real * 0.01)
      ensures lastMouseX == x && lastMouseY == y
      ensures distance == old(distance)
    {
      var deltaX := x - lastMouseX;
      var deltaY := y - lastMouseY;
      angleY := angleY + deltaX as real * 0.01;
      angleX := angleX - deltaY as real * 0.01;
      if angleX > Pi / 2.0 {
        angleX := Pi / 2.0;
      }
      if angleX < -Pi / 2.0 {
        angleX := -Pi / 2.0;
      }
      lastMouseX := x;
      lastMouseY := y;
    }

    /** handleMouseWheel: only the distance changes, and it stays at
        least 1. */
    method MouseWheel(button: int, dir: int, x: int, y: int)
      requires Valid()
      modifies this`distance
      ensures Valid()
      ensures distance == Zoomed(old(distance), dir)
    {
      if dir > 0 {
        distance := Max(1.0, distance - 0.5);
      } else {
        distance := distance + 0.5;
      }
    }
  }
}
