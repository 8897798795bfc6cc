/** The event handlers of the colour picker. ControlPanel is the control
    window of lab1_1 and lab1_2: six parameter records in two arrays, the
    active identifier and the last mouse row. CubeView is the rotating RGB
    cube that only lab1_2 has: three angles in an array, the axis the mouse
    turns and the auto-rotate flag. */
module ColorPicker {
  import opened ColorSpace
  import opened ColorPanel
  import ColorLaws

  /** GLUT's codes for the mouse buttons, their states and two function
      keys. */
  const LeftButton := 0
  const MiddleButton := 1
  const RightButton := 2
  const Down := 0
  const Up := 1
  const KeyF1 := 1
  const KeyF2 := 2

  /** The strip of the lab1_2 control window that switches auto-rotation
      (edges included). */
  predicate InAutoRotateArea(mx: int, my: int) {
    400 <= mx <= 500 && 60 <= my <= 100
  }

  /** The two triples after a drag by `delta` rows with `active` selected:
      adjust_param on all six records, then the other triple rewritten from
      the edited one. `scratch` is what the C local the conversion writes
      into held before the call. */
  function Dragged(hs: seq<Param>, rs: seq<Param>, active: int, delta: int, scratch: Rgb): (r: (seq<Param>, seq<Param>))
    requires Laid(hs, 1, 80) && Laid(rs, 4, 180) && InUnit(rs)
    ensures Laid(r.0, 1, 80) && Laid(r.1, 4, 180)
  {
    var h := AdjustAll(hs, active, delta);
    var g := AdjustAll(rs, active, delta);
    AdjustedLaid(hs, 1, 80, active, delta);
    AdjustedLaid(rs, 4, 180, active, delta);
    if 1 <= active <= 3 then (h, ShowRgb(g, HsvToRgb(HsvOf(h), scratch)))
    else if 4 <= active <= 6 then
      AdjustedUnit(rs, 4, 180, active, delta);
      (ShowHsv(h, RgbToHsv(RgbOf(g))), g)
    else (h, g)
  }

  /** Adjusting keeps the layout. */
  lemma AdjustedLaid(ps: seq<Param>, first: int, row: int, active: int, delta: int)
    requires Laid(ps, first, row)
    ensures Laid(AdjustAll(ps, active, delta), first, row)
  {
    var r := AdjustAll(ps, active, delta);
    forall k | 0 <= k < 3
      ensures r[k].(current := ps[k].current) == ps[k]
    {
    }
  }

  /** Adjusting keeps every value inside the records' bounds [0, 1]. */
  lemma AdjustedUnit(ps: seq<Param>, first: int, row: int, active: int, delta: int)
    requires Laid(ps, first, row) && InUnit(ps)
    ensures InUnit(AdjustAll(ps, active, delta))
  {
    var r := AdjustAll(ps, active, delta);
    forall k | 0 <= k < 3
      ensures 0.0 <= r[k].current <= 1.0
    {
    }
  }

  /** A drag keeps all six shown values in [0, 1]: the edited record is
      clamped, and each conversion maps its unit cube into the other. */
  lemma DraggedUnit(hs: seq<Param>, rs: seq<Param>, active: int, delta: int, scratch: Rgb)
    requires Laid(hs, 1, 80) && Laid(rs, 4, 180) && InUnit(hs) && InUnit(rs)
    ensures var r := Dragged(hs, rs, active, delta, scratch);
      Laid(r.0, 1, 80) && Laid(r.1, 4, 180) && InUnit(r.0) && InUnit(r.1)
  {
    var h := AdjustAll(hs, active, delta);
    var g := AdjustAll(rs, active, delta);
    AdjustedUnit(hs, 1, 80, active, delta);
    AdjustedUnit(rs, 4, 180, active, delta);
    AdjustedLaid(hs, 1, 80, active, delta);
    if 1 <= active <= 3 {
      ColorLaws.HsvToRgbUnit(HsvOf(h), scratch);
    } else if 4 <= active <= 6 {
      ColorLaws.RgbToHsvUnit(RgbOf(g));
    }
  }

  /** After a drag that edits either triple, the RGB triple is what the
      HSV triple converts to: the two halves of the panel show one colour,
      whatever the conversion's scratch held. */
  lemma DraggedAgree(hs: seq<Param>, rs: seq<Param>, active: int, delta: int, scratch: Rgb, prev: Rgb)
    requires Laid(hs, 1, 80) && Laid(rs, 4, 180) && InUnit(hs) && InUnit(rs)
    requires 1 <= active <= 6
    ensures var r := Dragged(hs, rs, active, delta, scratch);
      RgbOf(r.1) == HsvToRgb(HsvOf(r.0), prev)
  {
    var h := AdjustAll(hs, active, delta);
    var g := AdjustAll(rs, active, delta);
    AdjustedUnit(hs, 1, 80, active, delta);
    AdjustedUnit(rs, 4, 180, active, delta);
    if active <= 3 {
      ColorLaws.HsvIgnoresPrev(HsvOf(h), scratch, prev);
    } else {
      ColorLaws.RgbHsvRoundTrip(RgbOf(g), prev);
    }
  }

  /** adjust_param on ps[i], with `active` the selected identifier. */
  method AdjustParam(ps: array<Param>, i: int, active: int, delta: int)
    requires 0 <= i < ps.Length
    modifies ps
    ensures ps[i] == Adjusted(old(ps[i]), active, delta)
    ensures forall j :: 0 <= j < ps.Length && j != i ==> ps[j] == old(ps[j])
  {
    var p := ps[i];
    if active != p.id {
      return;
    }
    p := p.(current := p.current + delta as real * p.increment);
    if p.current < p.lower {
      p := p.(current := p.lower);
    } else if p.current > p.upper {
      p := p.(current := p.upper);
    }
    ps[i] := p;
  }

  /** The branch of ctrl_motion_handler: the six adjust_param calls, then
      the other triple rewritten from the edited one. */
  method Drag(hs: array<Param>, rs: array<Param>, active: int, delta: int, scratch: Rgb)
    requires hs.Length == 3 && rs.Length == 3 && hs != rs
    requires Laid(hs[..], 1, 80) && Laid(rs[..], 4, 180) && InUnit(hs[..]) && InUnit(rs[..])
    modifies hs, rs
    ensures (hs[..], rs[..]) == Dragged(old(hs[..]), old(rs[..]), active, delta, scratch)
    ensures Laid(hs[..], 1, 80) && Laid(rs[..], 4, 180) && InUnit(hs[..]) && InUnit(rs[..])
  {
    ghost var h0, r0 := hs[..], rs[..];
    DraggedUnit(h0, r0, active, delta, scratch);
    AdjustParams(hs, rs, active, delta);
    AdjustedUnit(r0, 4, 180, active, delta);
    if 1 <= active <= 3 {
      ShowHsvAsRgb(hs, rs, scratch);
    } else if 4 <= active <= 6 {
      ShowRgbAsHsv(hs, rs);
    }
  }

  /** The six adjust_param calls of ctrl_motion_handler. */
  method AdjustParams(hs: array<Param>, rs: array<Param>, active: int, delta: int)
    requires hs.Length == 3 && rs.Length == 3 && hs != rs
    modifies hs, rs
    ensures hs[..] == AdjustAll(old(hs[..]), active, delta)
    ensures rs[..] == AdjustAll(old(rs[..]), active, delta)
  {
    AdjustParam(hs, 0, active, delta);
    AdjustParam(hs, 1, active, delta);
    AdjustParam(hs, 2, active, delta);
    AdjustParam(rs, 0, active, delta);
    AdjustParam(rs, 1, active, delta);
    AdjustParam(rs, 2, active, delta);
  }

  /** The RGB records rewritten from the HSV ones. */
  method ShowHsvAsRgb(hs: array<Param>, rs: array<Param>, scratch: Rgb)
    requires hs.Length == 3 && rs.Length == 3 && hs != rs
    modifies rs
    ensures rs[..] == ShowRgb(old(rs[..]), HsvToRgb(HsvOf(hs[..]), scratch))
  {
    var c := HsvToRgb(Hsv(hs[0].current, hs[1].current, hs[2].current), scratch);
    rs[0] := rs[0].(current := c.red);
    rs[1] := rs[1].(current := c.green);
    rs[2] := rs[2].(current := c.blue);
  }

  /** The HSV records rewritten from the RGB ones. */
  method ShowRgbAsHsv(hs: array<Param>, rs: array<Param>)
    requires hs.Length == 3 && rs.Length == 3 && hs != rs
    requires 0.0 <= rs[0].current && 0.0 <= rs[1].current && 0.0 <= rs[2].current
    modifies hs
    ensures hs[..] == ShowHsv(old(hs[..]), RgbToHsv(RgbOf(rs[..])))
  {
    var c := RgbToHsv(Rgb(rs[0].current, rs[1].current, rs[2].current));
    hs[0] := hs[0].(current := c.hue);
    hs[1] := hs[1].(current := c.sat);
    hs[2] := hs[2].(current := c.val);
  }

  class ControlPanel {
    var hsv: array<Param>
    var rgb: array<Param>
    var activeParam: int
    var prevMouseY: int
    /** lab1_2's cube window, whose auto-rotation a click in the control
        window can switch; null for lab1_1, which has no cube. */
    const cube: CubeView?

    predicate Valid()
      reads this, hsv, rgb
    {
      hsv.Length == 3 && rgb.Length == 3 && hsv != rgb
      && Laid(hsv[..], 1, 80) && Laid(rgb[..], 4, 180)
      && InUnit(hsv[..]) && InUnit(rgb[..])
      && 0 <= activeParam <= 6
    }

    /** The six records in the order ctrl_mouse_handler tests them. */
    function Params(): seq<Param>
      reads this, hsv, rgb
    {
      hsv[..] + rgb[..]
    }

    /** The two triples at start-up; prev_mouse_y is a zero-initialised
        global. */
    constructor(cube: CubeView?)
      ensures Valid() && fresh(hsv) && fresh(rgb)
      ensures hsv[..] == HsvTable && rgb[..] == RgbTable
      ensures activeParam == 0 && prevMouseY == 0 && this.cube == cube
    {
      hsv := new Param[3](i requires 0 <= i < 3 => HsvTable[i]);
      rgb := new Param[3](i requires 0 <= i < 3 => RgbTable[i]);
      activeParam := 0;
      prevMouseY := 0;
      this.cube := cube;
      new;
      assert hsv[..] == HsvTable;
      assert rgb[..] == RgbTable;
      TablesLaid();
    }

    /** ctrl_mouse_handler. The button is not looked at. On a press in the
        auto-rotate strip (lab1_2 only) auto-rotation flips and the handler
        returns before recording the row; otherwise a press selects the box
        under the point and any other event deselects. */
    method CtrlMouse(button: int, state: int, mx: int, my: int)
      requires Valid()
      modifies this, cube
      ensures Valid()
      ensures hsv == old(hsv) && rgb == old(rgb)
      ensures cube != null && state == Down && InAutoRotateArea(mx, my) ==>
        activeParam == 0 && prevMouseY == old(prevMouseY) && cube.autoRotate == !old(cube.autoRotate)
      ensures !(cube != null && state == Down && InAutoRotateArea(mx, my)) ==>
        activeParam == (if state == Down then HitSum(Params(), mx, my) else 0) && prevMouseY == my
        && (cube != null ==> cube.autoRotate == old(cube.autoRotate))
      ensures cube != null ==> unchanged(cube`rotation, cube`rotAxis, cube`mouseX, cube`mouseY, cube`mouseButton)
    {
      activeParam := 0;
      if state == Down {
        if cube != null && 400 <= mx <= 500 && 60 <= my <= 100 {
          cube.ToggleAutoRotate();
          return;
        }
        SelectAt(mx, my);
      }
      prevMouseY := my;
    }

    /** The six detect_param_hit sums of ctrl_mouse_handler, starting from
        no selection: the record under the point is selected, or none. */
    method SelectAt(mx: int, my: int)
      requires Valid() && activeParam == 0
      modifies this`activeParam
      ensures Valid() && activeParam == HitSum(Params(), mx, my)
      ensures forall k :: 0 <= k < 6 ==> (activeParam == k + 1 <==> InBox(Params()[k], mx, my))
      ensures activeParam == 0 <==> forall k :: 0 <= k < 6 ==> !InBox(Params()[k], mx, my)
    {
      activeParam := activeParam + DetectParamHit(hsv[0], mx, my);
      activeParam := activeParam + DetectParamHit(hsv[1], mx, my);
      activeParam := activeParam + DetectParamHit(hsv[2], mx, my);
      activeParam := activeParam + DetectParamHit(rgb[0], mx, my);
      activeParam := activeParam + DetectParamHit(rgb[1], mx, my);
      activeParam := activeParam + DetectParamHit(rgb[2], mx, my);
      assert Params()[..3] == hsv[..] && Params()[3..] == rgb[..];
      HitSumSix(Params(), mx, my);
      HitIdentifies(Params(), mx, my);
    }

    /** ctrl_motion_handler: with a record selected, a drag by the rows the
        mouse moved up adjusts it and rewrites the other triple from the
        edited one. */
    method CtrlMotion(mx: int, my: int, scratch: Rgb)
      requires Valid()
      modifies this, hsv, rgb
      ensures Valid()
      ensures hsv == old(hsv) && rgb == old(rgb) && activeParam == old(activeParam)
      ensures old(activeParam) <= 0 ==>
        hsv[..] == old(hsv[..]) && rgb[..] == old(rgb[..]) && prevMouseY == old(prevMouseY)
      ensures old(activeParam) > 0 ==>
        (hsv[..], rgb[..]) == Dragged(old(hsv[..]), old(rgb[..]), old(activeParam), old(prevMouseY) - my, scratch)
        && prevMouseY == my
    {
      if activeParam > 0 {
        var delta := prevMouseY - my;
        ghost var dragged := Dragged(hsv[..], rgb[..], activeParam, delta, scratch);
        assert dragged == Dragged(old(hsv[..]), old(rgb[..]), old(activeParam), old(prevMouseY) - my, scratch);
        Drag(hsv, rgb, activeParam, delta, scratch);
        assert hsv[..] == dragged.0 && rgb[..] == dragged.1;
        prevMouseY := my;
        assert hsv[..] == dragged.0 && rgb[..] == dragged.1;
      }
    }
  }

  /** One angle after the wrap of rgb_window_motion: above 360 it drops by
      one turn, then below 0 it rises by one. */
  function WrapBoth(a: real): real {
    var b := if a > 360.0 then a - 360.0 else a;
    if b < 0.0 then b + 360.0 else b
  }

  /** One angle after the wrap of animate_cube, which only looks above. */
  function WrapAbove(a: real): real {
    if a > 360.0 then a - 360.0 else a
  }

  function WrapEach(u: seq<real>): seq<real> {
    seq(|u|, i requires 0 <= i < |u| => WrapBoth(u[i]))
  }

  function WrapEachAbove(u: seq<real>): seq<real> {
    seq(|u|, i requires 0 <= i < |u| => WrapAbove(u[i]))
  }

  /** An angle in [0, 360] stays there after a step of less than a turn
      and the wrap. */
  lemma WrapBothInRange(a: real, step: real)
    requires 0.0 <= a <= 360.0 && -360.0 < step < 360.0
    ensures 0.0 <= WrapBoth(a + step) <= 360.0
  {
  }

  /** An angle in [0, 360] stays there after a forward step of at most a
      turn and the upper wrap. */
  lemma WrapAboveInRange(a: real, step: real)
    requires 0.0 <= a <= 360.0 && 0.0 <= step <= 360.0
    ensures 0.0 <= WrapAbove(a + step) <= 360.0
  {
  }

  /** The wrap changes no angle that already lies in [0, 360]. */
  lemma WrapFixesRange(a: real)
    requires 0.0 <= a <= 360.0
    ensures WrapBoth(a) == a && WrapAbove(a) == a
  {
  }

  /** All three angles lie in [0, 360]. */
  predicate AnglesInRange(s: seq<real>) {
    forall i :: 0 <= i < |s| ==> 0.0 <= s[i] <= 360.0
  }

  /** The three angles after a drag: the mouse axis turns by sx, the next
      axis by sy, and then every angle is wrapped. */
  function Turned(s: seq<real>, axis: int, sx: real, sy: real): (r: seq<real>)
    requires |s| == 3 && 0 <= axis < 3
    ensures |r| == 3
  {
    WrapEach(Stepped(s, axis, sx, sy))
  }

  /** The angles before the wrap: the mouse axis turned by sx, the next
      one by sy. */
  function Stepped(s: seq<real>, axis: int, sx: real, sy: real): seq<real>
    requires |s| == 3 && 0 <= axis < 3
  {
    var t := s[axis := s[axis] + sx];
    t[(axis + 1) % 3 := t[(axis + 1) % 3] + sy]
  }

  /** A drag keeps the angles in [0, 360] when each step is under a turn. */
  lemma TurnedInRange(s: seq<real>, axis: int, sx: real, sy: real)
    requires |s| == 3 && 0 <= axis < 3 && AnglesInRange(s)
    requires -360.0 < sx < 360.0 && -360.0 < sy < 360.0
    ensures AnglesInRange(Turned(s, axis, sx, sy))
  {
    var r := Turned(s, axis, sx, sy);
    var j := (axis + 1) % 3;
    forall i | 0 <= i < 3
      ensures 0.0 <= r[i] <= 360.0
    {
      if i == axis {
        WrapBothInRange(s[i], sx);
      } else if i == j {
        WrapBothInRange(s[i], sy);
      } else {
        WrapBothInRange(s[i], 0.0);
      }
    }
  }

  /** The angles after one idle step: 0.5, 0.35 and 0.15 degrees, then the
      upper wrap. */
  function Spun(s: seq<real>): (r: seq<real>)
    requires |s| == 3
    ensures |r| == 3
  {
    WrapEachAbove([s[0] + 0.5, s[1] + 0.35, s[2] + 0.15])
  }

  /** Idle spinning keeps the angles in [0, 360]. */
  lemma SpunInRange(s: seq<real>)
    requires |s| == 3 && AnglesInRange(s)
    ensures AnglesInRange(Spun(s))
  {
    WrapAboveInRange(s[0], 0.5);
    WrapAboveInRange(s[1], 0.35);
    WrapAboveInRange(s[2], 0.15);
  }

  class CubeView {
    var rotation: array<real>
    var rotAxis: int
    var mouseX: int
    var mouseY: int
    var mouseButton: int
    var autoRotate: bool

    predicate Valid()
      reads this
    {
      rotation.Length == 3 && 0 <= rotAxis < 3 && -1 <= mouseButton <= 2
    }

    /** The statics at start-up: angles 15, 15, 0; the z axis; no button;
        auto-rotation on; the mouse position zero-initialised. */
    constructor()
      ensures Valid() && fresh(rotation)
      ensures rotation[..] == [15.0, 15.0, 0.0] && AnglesInRange(rotation[..])
      ensures rotAxis == 2 && mouseButton == -1 && autoRotate && mouseX == 0 && mouseY == 0
    {
      rotation := new real[3](i requires 0 <= i < 3 => [15.0, 15.0, 0.0][i]);
      rotAxis := 2;
      mouseX := 0;
      mouseY := 0;
      mouseButton := -1;
      autoRotate := true;
      new;
      assert rotation[..] == [15.0, 15.0, 0.0];
    }

    /** rgb_window_mouse: a press picks the axis of its button (left x,
        middle y, right z), a release drops the button, and the position is
        recorded either way. */
    method Mouse(button: int, state: int, mx: int, my: int)
      requires Valid()
      modifies this
      ensures Valid() && rotation == old(rotation) && autoRotate == old(autoRotate)
      ensures state == Down && 0 <= button <= 2 ==> rotAxis == button && mouseButton == button
      ensures !(state == Down && 0 <= button <= 2) ==> rotAxis == old(rotAxis)
      ensures !(state == Down && 0 <= button <= 2) && state == Up ==> mouseButton == -1
      ensures !(state == Down && 0 <= button <= 2) && state != Up ==> mouseButton == old(mouseButton)
      ensures mouseX == mx && mouseY == my
    {
      if button == LeftButton && state == Down {
        rotAxis := 0;
        mouseButton := 0;
      } else if button == MiddleButton && state == Down {
        rotAxis := 1;
        mouseButton := 1;
      } else if button == RightButton && state == Down {
        rotAxis := 2;
        mouseButton := 2;
      } else if state == Up {
        mouseButton := -1;
      }
      mouseX := mx;
      mouseY := my;
    }

    /** rgb_window_motion: while a button is held, dragging stops
        auto-rotation, turns the button's axis by half the columns moved and
        the next axis by half the rows, and wraps the three angles. */
    method Motion(mx: int, my: int)
      requires Valid()
      modifies this, rotation
      ensures Valid() && rotation == old(rotation) && rotAxis == old(rotAxis) && mouseButton == old(mouseButton)
      ensures old(mouseButton) < 0 ==>
        rotation[..] == old(rotation[..]) && autoRotate == old(autoRotate)
        && mouseX == old(mouseX) && mouseY == old(mouseY)
      ensures old(mouseButton) >= 0 ==>
        !autoRotate && mouseX == mx && mouseY == my
        && rotation[..] == Turned(old(rotation[..]), rotAxis,
                                  (mx - old(mouseX)) as real * 0.5, (my - old(mouseY)) as real * 0.5)
    {
      if mouseButton >= 0 {
        autoRotate := false;
        Turn(mx - mouseX, my - mouseY);
        mouseX := mx;
        mouseY := my;
      }
    }

    /** The turn of rgb_window_motion: the held button's axis moves by half
        of dx and the next axis by half of dy, then the angles are wrapped. */
    method Turn(dx: int, dy: int)
      requires Valid()
      modifies rotation
      ensures rotation[..] == Turned(old(rotation[..]), rotAxis, dx as real * 0.5, dy as real * 0.5)
    {
      ghost var s := rotation[..];
      var sensitivity := 0.5;
      rotation[rotAxis] := rotation[rotAxis] + dx as real * sensitivity;
      rotation[(rotAxis + 1) % 3] := rotation[(rotAxis + 1) % 3] + dy as real * sensitivity;
      assert rotation[..] == Stepped(s, rotAxis, dx as real * 0.5, dy as real * 0.5);
      WrapAngles();
    }

    /** animate_cube, the idle callback: with auto-rotation on, one step of
        Spun. */
    method Animate()
      requires Valid()
      modifies rotation
      ensures autoRotate ==> rotation[..] == Spun(old(rotation[..]))
      ensures !autoRotate ==> rotation[..] == old(rotation[..])
    {
      if autoRotate {
        ghost var s := rotation[..];
        rotation[0] := rotation[0] + 0.5;
        rotation[1] := rotation[1] + 0.35;
        rotation[2] := rotation[2] + 0.15;
        WrapAnglesAbove();
        assert rotation[..] == Spun(s);
      }
    }

    /** keyboard: 'a' or 'A' flips auto-rotation, 'r' or 'R' sets the three
        angles to 0, and any other key (Escape aside) does nothing. */
    method Keyboard(key: char)
      requires Valid()
      modifies this, rotation
      ensures Valid() && rotation == old(rotation) && rotAxis == old(rotAxis) && mouseButton == old(mouseButton)
      ensures key == 'a' || key == 'A' ==> autoRotate == !old(autoRotate) && rotation[..] == old(rotation[..])
      ensures key == 'r' || key == 'R' ==> autoRotate == old(autoRotate) && rotation[..] == [0.0, 0.0, 0.0]
      ensures !(key in "aArR") ==> autoRotate == old(autoRotate) && rotation[..] == old(rotation[..])
    {
      if key == 'a' || key == 'A' {
        autoRotate := !autoRotate;
      } else if key == 'r' || key == 'R' {
        Reset();
      }
    }

    /** special_keys: F1 flips auto-rotation and F2 sets the angles to 0. */
    method SpecialKey(key: int)
      requires Valid()
      modifies this, rotation
      ensures Valid() && rotation == old(rotation) && rotAxis == old(rotAxis) && mouseButton == old(mouseButton)
      ensures key == KeyF1 ==> autoRotate == !old(autoRotate) && rotation[..] == old(rotation[..])
      ensures key == KeyF2 ==> autoRotate == old(autoRotate) && rotation[..] == [0.0, 0.0, 0.0]
      ensures key != KeyF1 && key != KeyF2 ==> autoRotate == old(autoRotate) && rotation[..] == old(rotation[..])
    {
      if key == KeyF1 {
        autoRotate := !autoRotate;
      } else if key == KeyF2 {
        Reset();
      }
    }

    /** The click on the auto-rotate strip: the flag flips. */
    method ToggleAutoRotate()
      modifies this`autoRotate
      ensures autoRotate == !old(autoRotate)
    {
      autoRotate := !autoRotate;
    }

    /** The wrap loop of rgb_window_motion. */
    method WrapAngles()
      requires Valid()
      modifies rotation
      ensures rotation[..] == WrapEach(old(rotation[..]))
    {
      for i := 0 to 3
        invariant forall j :: 0 <= j < i ==> rotation[j] == WrapBoth(old(rotation[j]))
        invariant forall j :: i <= j < 3 ==> rotation[j] == old(rotation[j])
      {
        if rotation[i] > 360.0 {
          rotation[i] := rotation[i] - 360.0;
        }
        if rotation[i] < 0.0 {
          rotation[i] := rotation[i] + 360.0;
        }
      }
    }

    /** The wrap loop of animate_cube. */
    method WrapAnglesAbove()
      requires Valid()
      modifies rotation
      ensures rotation[..] == WrapEachAbove(old(rotation[..]))
    {
      for i := 0 to 3
        invariant forall j :: 0 <= j < i ==> rotation[j] == WrapAbove(old(rotation[j]))
        invariant forall j :: i <= j < 3 ==> rotation[j] == old(rotation[j])
      {
        if rotation[i] > 360.0 {
          rotation[i] := rotation[i] - 360.0;
        }
      }
    }

    /** rotation[0] = rotation[1] = rotation[2] = 0. */
    method Reset()
      requires Valid()
      modifies rotation
      ensures rotation[..] == [0.0, 0.0, 0.0]
    {
      rotation[2] := 0.0;
      rotation[1] := 0.0;
      rotation[0] := 0.0;
    }
  }
}
