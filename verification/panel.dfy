/** The six parameter boxes of the colour picker's control window (lab1_1
    and lab1_2 share this code): where each box lies, how a click finds it,
    and how a vertical drag adjusts the value it shows. */
module ColorPanel {
  import opened ColorSpace

  /** One `param` record; the description and the display format are text
      for the screen only. */
  datatype Param = Param(
    id: int,
    posX: int,
    posY: int,
    lower: real,
    upper: real,
    current: real,
    increment: real)

  /** hsv_params: hue, saturation and value, identifiers 1 to 3. */
  const HsvTable: seq<Param> := [
    Param(1, 180, 80, 0.0, 1.0, 0.1, 0.01),
    Param(2, 240, 80, 0.0, 1.0, 0.1, 0.01),
    Param(3, 300, 80, 0.0, 1.0, 0.1, 0.01)]

  /** rgb_params: red, green and blue, identifiers 4 to 6. */
  const RgbTable: seq<Param> := [
    Param(4, 180, 180, 0.0, 1.0, 0.1, 0.01),
    Param(5, 240, 180, 0.0, 1.0, 0.1, 0.01),
    Param(6, 300, 180, 0.0, 1.0, 0.1, 0.01)]

  /** The box of a parameter is the open rectangle
      (posX, posX + 60) x (posY - 30, posY + 10). */
  predicate InBox(p: Param, mx: int, my: int) {
    p.posX < mx < p.posX + 60 && p.posY - 30 < my < p.posY + 10
  }

  /** detect_param_hit: the identifier when the point is in the box, else 0. */
  function DetectParamHit(p: Param, mx: int, my: int): (r: int)
    ensures InBox(p, mx, my) ==> r == p.id
    ensures !InBox(p, mx, my) ==> r == 0
  {
    if mx > p.posX && mx < p.posX + 60 && my > p.posY - 30 && my < p.posY + 10 then p.id
    else 0
  }

  /** What ctrl_mouse_handler adds up: the hits of every box in turn. */
  function HitSum(ps: seq<Param>, mx: int, my: int): int {
    if ps == [] then 0 else DetectParamHit(ps[0], mx, my) + HitSum(ps[1..], mx, my)
  }

  /** The hits of ps[i..], indexed from the start of ps. */
  function HitFrom(ps: seq<Param>, mx: int, my: int, i: nat): int
    decreases |ps| - i
  {
    if i >= |ps| then 0 else DetectParamHit(ps[i], mx, my) + HitFrom(ps, mx, my, i + 1)
  }

  /** A triple keeps the layout of the tables: identifiers from `first`
      on, boxes 60 apart from x = 180 on row `row`, bounds [0, 1] and a
      step of 0.01; only `current` is free. */
  predicate Laid(ps: seq<Param>, first: int, row: int) {
    |ps| == 3
    && forall k :: 0 <= k < 3 ==>
      ps[k].id == first + k && ps[k].posX == 180 + 60 * k && ps[k].posY == row
      && ps[k].lower == 0.0 && ps[k].upper == 1.0 && ps[k].increment == 0.01
  }

  /** The two tables have that layout: HSV on row 80 from identifier 1,
      RGB on row 180 from identifier 4. */
  lemma TablesLaid()
    ensures Laid(HsvTable, 1, 80) && Laid(RgbTable, 4, 180)
  {
  }

  /** The six records in the order ctrl_mouse_handler tests them. */
  predicate Panel(ps: seq<Param>) {
    |ps| == 6 && Laid(ps[..3], 1, 80) && Laid(ps[3..], 4, 180)
  }

  /** Every shown value lies in [0, 1], the bounds of all six records. */
  predicate InUnit(ps: seq<Param>) {
    forall k :: 0 <= k < |ps| ==> 0.0 <= ps[k].current <= 1.0
  }

  /** No point lies in two of the six boxes. */
  lemma BoxesDisjoint(ps: seq<Param>, mx: int, my: int)
    requires Panel(ps)
    ensures forall j, k :: 0 <= j < k < 6 ==> !(InBox(ps[j], mx, my) && InBox(ps[k], mx, my))
  {
    forall k | 0 <= k < 6
      ensures ps[k].posX == 180 + 60 * (k % 3) && ps[k].posY == (if k < 3 then 80 else 180)
    {
      if k < 3 {
        assert ps[k] == ps[..3][k];
      } else {
        assert ps[k] == ps[3..][k - 3];
      }
    }
  }

  /** The six boxes are disjoint, so the sum ctrl_mouse_handler builds is
      the identifier of the box under the point, or 0 when there is none:
      active_param always ends in 0..6. */
  lemma HitIdentifies(ps: seq<Param>, mx: int, my: int)
    requires Panel(ps)
    ensures 0 <= HitSum(ps, mx, my) <= 6
    ensures forall k :: 0 <= k < 6 ==> (HitSum(ps, mx, my) == k + 1 <==> InBox(ps[k], mx, my))
    ensures HitSum(ps, mx, my) == 0 <==> forall k :: 0 <= k < 6 ==> !InBox(ps[k], mx, my)
  {
    forall k | 0 <= k < 6
      ensures ps[k].id == k + 1
    {
      if k < 3 {
        assert ps[k] == ps[..3][k];
      } else {
        assert ps[k] == ps[3..][k - 3];
      }
    }
    BoxesDisjoint(ps, mx, my);
    HitSumSix(ps, mx, my);
  }

  /** The sum over six records, one term per record. */
  lemma HitSumSix(ps: seq<Param>, mx: int, my: int)
    requires |ps| == 6
    ensures HitSum(ps, mx, my) ==
      DetectParamHit(ps[0], mx, my) + DetectParamHit(ps[1], mx, my) + DetectParamHit(ps[2], mx, my)
      + DetectParamHit(ps[3], mx, my) + DetectParamHit(ps[4], mx, my) + DetectParamHit(ps[5], mx, my)
  {
    HitSumSplit(ps, mx, my, 6);
    assert ps[0..] == ps;
    var d := seq(6, k requires 0 <= k < 6 => DetectParamHit(ps[k], mx, my));
    assert HitFrom(ps, mx, my, 5) == d[5];
    assert HitFrom(ps, mx, my, 4) == d[4] + d[5];
    assert HitFrom(ps, mx, my, 3) == d[3] + d[4] + d[5];
    assert HitFrom(ps, mx, my, 2) == d[2] + d[3] + d[4] + d[5];
    assert HitFrom(ps, mx, my, 1) == d[1] + d[2] + d[3] + d[4] + d[5];
  }

  /** The sum over the last n records, written out one record at a time. */
  lemma {:induction false} HitSumSplit(ps: seq<Param>, mx: int, my: int, n: nat)
    requires n <= |ps|
    ensures HitSum(ps[|ps| - n..], mx, my) == HitFrom(ps, mx, my, |ps| - n)
  {
    if n > 0 {
      var i := |ps| - n;
      assert ps[i..][1..] == ps[i + 1..];
      HitSumSplit(ps, mx, my, n - 1);
    }
  }

  /** adjust_param on a value: the active record moves by delta steps and
      is clamped into [lower, upper]; every other record is left alone. */
  function Adjusted(p: Param, active: int, delta: int): (r: Param)
    ensures r.(current := p.current) == p
    ensures active != p.id ==> r == p
    ensures active == p.id && p.lower <= p.upper ==> p.lower <= r.current <= p.upper
    ensures active == p.id && p.lower <= p.current + delta as real * p.increment <= p.upper ==>
      r.current == p.current + delta as real * p.increment
    ensures active == p.id && p.current + delta as real * p.increment < p.lower ==>
      r.current == p.lower
    ensures active == p.id && p.upper < p.current + delta as real * p.increment
              && p.lower <= p.current + delta as real * p.increment ==>
      r.current == p.upper
  {
    if active != p.id then p
    else
      var moved := p.current + delta as real * p.increment;
      if moved < p.lower then p.(current := p.lower)
      else if moved > p.upper then p.(current := p.upper)
      else p.(current := moved)
  }

  /** adjust_param applied to every record of a table. */
  function AdjustAll(ps: seq<Param>, active: int, delta: int): (r: seq<Param>)
    ensures |r| == |ps|
    ensures forall k :: 0 <= k < |ps| ==> r[k] == Adjusted(ps[k], active, delta)
  {
    if ps == [] then [] else [Adjusted(ps[0], active, delta)] + AdjustAll(ps[1..], active, delta)
  }

  /** The colour three records show. */
  function HsvOf(ps: seq<Param>): Hsv
    requires |ps| == 3
  {
    Hsv(ps[0].current, ps[1].current, ps[2].current)
  }

  function RgbOf(ps: seq<Param>): Rgb
    requires |ps| == 3
  {
    Rgb(ps[0].current, ps[1].current, ps[2].current)
  }

  /** The three records showing colour c, otherwise unchanged. */
  function ShowHsv(ps: seq<Param>, c: Hsv): (r: seq<Param>)
    requires |ps| == 3
    ensures |r| == 3 && HsvOf(r) == c
    ensures forall k :: 0 <= k < 3 ==> r[k].(current := ps[k].current) == ps[k]
  {
    [ps[0].(current := c.hue), ps[1].(current := c.sat), ps[2].(current := c.val)]
  }

  function ShowRgb(ps: seq<Param>, c: Rgb): (r: seq<Param>)
    requires |ps| == 3
    ensures |r| == 3 && RgbOf(r) == c
    ensures forall k :: 0 <= k < 3 ==> r[k].(current := ps[k].current) == ps[k]
  {
    [ps[0].(current := c.red), ps[1].(current := c.green), ps[2].(current := c.blue)]
  }
}
