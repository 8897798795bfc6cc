/** The HSV and RGB conversions of the colour picker (lab1_1 and lab1_2,
    which carry the same two routines). Every channel is a real number; the
    results the C code writes through its three out-pointers are returned
    as one triple. */
module ColorSpace {
  import opened RealMath

  datatype Rgb = Rgb(red: real, green: real, blue: real)
  datatype Hsv = Hsv(hue: real, sat: real, val: real)

  function MaxChannel(c: Rgb): real { Max(Max(c.red, c.green), c.blue) }
  function MinChannel(c: Rgb): real { Min(Min(c.red, c.green), c.blue) }

  /** Every channel lies in [0, 1]. */
  predicate UnitRgb(c: Rgb) {
    0.0 <= c.red <= 1.0 && 0.0 <= c.green <= 1.0 && 0.0 <= c.blue <= 1.0
  }

  predicate UnitHsv(c: Hsv) {
    0.0 <= c.hue <= 1.0 && 0.0 <= c.sat <= 1.0 && 0.0 <= c.val <= 1.0
  }

  /** The hue in sixths of a turn: a hue of exactly 1 is read as 0. */
  function ScaledHue(h: real): real { if h == 1.0 then 0.0 else h * 6.0 }

  /** `sector = floor(h)`: which sixth of the circle the hue falls in. */
  function Sector(h: real): int { ScaledHue(h).Floor }

  /** `frac = h - sector`: how far into its sixth the hue is. */
  function Offset(h: real): real { ScaledHue(h) - Sector(h) as real }

  /** The three intermediate values of convert_hsv_rgb. */
  datatype Shade = Shade(p: real, q: real, t: real)

  /** `p_val`, `q_val` and `t_val` for value v, saturation s and offset
      frac. */
  function Shades(v: real, s: real, frac: real): Shade {
    Shade(v * (1.0 - s), v * (1.0 - s * frac), v * (1.0 - s * (1.0 - frac)))
  }

  /** convert_hsv_rgb. The switch on `sector % 6` (C remainder) has no
      default: when the remainder is negative no case runs and the three
      outputs keep what the caller's variables held before, `prev`. */
  function HsvToRgb(c: Hsv, prev: Rgb): (r: Rgb)
    ensures c.sat == 0.0 ==> r == Rgb(c.val, c.val, c.val)
  {
    if c.sat == 0.0 then Rgb(c.val, c.val, c.val)
    else Sextant(CRem(Sector(c.hue), 6), c.val, Shades(c.val, c.sat, Offset(c.hue)), prev)
  }

  /** The switch of convert_hsv_rgb: which of v, p, q and t goes to which
      channel in each sixth of the hue circle. */
  function Sextant(k: int, v: real, sh: Shade, prev: Rgb): Rgb {
    match k
    case 0 => Rgb(v, sh.t, sh.p)
    case 1 => Rgb(sh.q, v, sh.p)
    case 2 => Rgb(sh.p, v, sh.t)
    case 3 => Rgb(sh.p, sh.q, v)
    case 4 => Rgb(sh.t, sh.p, v)
    case 5 => Rgb(v, sh.p, sh.q)
    case _ => prev
  }

  /** convert_rgb_hsv. The C code divides by the largest channel; channels
      are never negative in the picker, so that division is by a positive
      number whenever the channels differ. */
  function RgbToHsv(c: Rgb): (r: Hsv)
    requires 0.0 <= c.red && 0.0 <= c.green && 0.0 <= c.blue
    ensures r.val == MaxChannel(c)
    ensures MaxChannel(c) == MinChannel(c) ==> r.hue == 0.0 && r.sat == 0.0
    ensures MaxChannel(c) != MinChannel(c) ==>
      0.0 < r.sat <= 1.0 && r.sat * MaxChannel(c) == MaxChannel(c) - MinChannel(c)
  {
    var mx := MaxChannel(c);
    var delta := mx - MinChannel(c);
    if delta == 0.0 then Hsv(0.0, 0.0, mx)
    else
      SatInUnit(delta, mx);
      Hsv(Hue(c), delta / mx, mx)
  }

  /** The hue branch of convert_rgb_hsv, taken when the channels differ:
      the largest channel picks the sixth of the circle, and the other two
      say where in it the colour lies. The result is a fraction of a turn. */
  function Hue(c: Rgb): (h: real)
    requires 0.0 <= c.red && 0.0 <= c.green && 0.0 <= c.blue
    requires MaxChannel(c) != MinChannel(c)
    ensures 0.0 <= h < 1.0
  {
    var mx := MaxChannel(c);
    var delta := mx - MinChannel(c);
    if mx == c.red then
      Ratio(c.green - c.blue, delta);
      FMod((c.green - c.blue) / delta + 6.0, 6.0) / 6.0
    else if mx == c.green then
      Ratio(c.blue - c.red, delta);
      ((c.blue - c.red) / delta + 2.0) / 6.0
    else
      Ratio(c.red - c.green, delta);
      ((c.red - c.green) / delta + 4.0) / 6.0
  }

  /** delta / mx is a saturation in (0, 1] that gives delta back. */
  lemma SatInUnit(delta: real, mx: real)
    requires 0.0 < delta <= mx
    ensures 0.0 < delta / mx <= 1.0 && (delta / mx) * mx == delta
  {
    var s := delta / mx;
    assert s * mx == delta;
    if s <= 0.0 {
      MulNonNegative(-s, mx);
    } else if 1.0 < s {
      assert (s - 1.0) * mx == delta - mx;
      MulNonNegative(s - 1.0, mx);
      ZeroProduct(s - 1.0, mx);
    }
  }

  /** a / d lies in [-1, 1] when a does in [-d, d], and d * (a / d) undoes
      the division. */
  lemma Ratio(a: real, d: real)
    requires 0.0 < d && -d <= a <= d
    ensures -1.0 <= a / d <= 1.0 && d * (a / d) == a
  {
    var k := a / d;
    assert d * k == a;
    if k < -1.0 {
      MulNonNegative(-1.0 - k, d);
    } else if 1.0 < k {
      MulNonNegative(k - 1.0, d);
    }
  }

  /** q and t lie between p and v. */
  predicate Ordered(sh: Shade, v: real) {
    sh.p <= sh.q <= v && sh.p <= sh.t <= v
  }

  /** The largest channel is hi and the smallest lo. */
  predicate Band(r: Rgb, lo: real, hi: real) {
    MaxChannel(r) == hi && MinChannel(r) == lo
  }
}
