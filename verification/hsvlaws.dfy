/** Properties of the two conversions of the colour picker: ranges, the
    round trip from RGB to HSV and back, and the edge cases of the switch. */
module ColorLaws {
  import opened RealMath
  import opened ColorSpace
  import opened ColorCases

  /** convert_hsv_rgb treats a hue of 1 exactly like a hue of 0. */
  lemma HueOneIsHueZero(s: real, v: real, prev: Rgb)
    ensures HsvToRgb(Hsv(1.0, s, v), prev) == HsvToRgb(Hsv(0.0, s, v), prev)
  {
    assert ScaledHue(1.0) == ScaledHue(0.0);
  }

  /** For a hue that is not negative one of the six cases always runs, so
      the previous contents of the outputs never show through. */
  lemma HsvIgnoresPrev(c: Hsv, prev1: Rgb, prev2: Rgb)
    requires 0.0 <= c.hue
    ensures HsvToRgb(c, prev1) == HsvToRgb(c, prev2)
  {
    if c.sat != 0.0 {
      assert 0 <= Sector(c.hue);
      assert 0 <= CRem(Sector(c.hue), 6) < 6;
    }
  }

  /** A hue in [-5/6, 0) gives a sector from -5 to -1, whose C remainder
      by 6 is the sector itself: no case of the switch runs and the outputs
      are left as they were. */
  lemma NegativeHueKeepsPrev(c: Hsv, prev: Rgb)
    requires -5.0 / 6.0 <= c.hue < 0.0 && c.sat != 0.0
    ensures HsvToRgb(c, prev) == prev
  {
    assert -5 <= Sector(c.hue) <= -1;
    assert CRem(Sector(c.hue), 6) == Sector(c.hue);
  }

  /** The fall-through stops a whole turn back: hue -1 gives sector -6,
      whose remainder is 0, and case 0 writes pure red for s = v = 1. */
  lemma WholeTurnBackIsRed(prev: Rgb)
    ensures HsvToRgb(Hsv(-1.0, 1.0, 1.0), prev) == Rgb(1.0, 0.0, 0.0)
  {
    assert Sector(-1.0) == -6;
    assert CRem(Sector(-1.0), 6) == 0;
  }

  /** For h, s, v in [0, 1] every channel lies between v * (1 - s) and v,
      the largest channel is v and the smallest is v * (1 - s). */
  lemma HsvChannels(c: Hsv, prev: Rgb)
    requires UnitHsv(c)
    ensures Band(HsvToRgb(c, prev), c.val * (1.0 - c.sat), c.val)
  {
    if c.sat != 0.0 {
      ShadeBand(c, prev);
    } else {
      GreyBand(c.val, c.sat);
    }
  }

  lemma ShadeBand(c: Hsv, prev: Rgb)
    requires UnitHsv(c) && c.sat != 0.0
    ensures Band(HsvToRgb(c, prev), c.val * (1.0 - c.sat), c.val)
  {
    SectorRange(c.hue);
    ShadesOrdered(c.val, c.sat, Offset(c.hue));
    SextantBounds(CRem(Sector(c.hue), 6), c.val, Shades(c.val, c.sat, Offset(c.hue)), prev);
  }

  lemma GreyBand(v: real, s: real)
    requires s == 0.0
    ensures Band(Rgb(v, v, v), v * (1.0 - s), v)
  {
    assert v * (1.0 - s) == v;
  }

  /** convert_rgb_hsv maps the picker's RGB triples into the HSV unit cube. */
  lemma RgbToHsvUnit(c: Rgb)
    requires UnitRgb(c)
    ensures UnitHsv(RgbToHsv(c))
  {
  }

  /** convert_hsv_rgb maps the HSV unit cube into the RGB unit cube. */
  lemma HsvToRgbUnit(c: Hsv, prev: Rgb)
    requires UnitHsv(c)
    ensures UnitRgb(HsvToRgb(c, prev))
  {
    if c.sat != 0.0 {
      SectorRange(c.hue);
      ShadesOrdered(c.val, c.sat, Offset(c.hue));
      MulNonNegative(c.val, 1.0 - c.sat);
      SextantUnit(CRem(Sector(c.hue), 6), c.val, Shades(c.val, c.sat, Offset(c.hue)), prev);
    }
  }

  /** Over the reals convert_hsv_rgb undoes convert_rgb_hsv on every triple
      of non-negative channels. */
  lemma RgbHsvRoundTrip(c: Rgb, prev: Rgb)
    requires 0.0 <= c.red && 0.0 <= c.green && 0.0 <= c.blue
    ensures HsvToRgb(RgbToHsv(c), prev) == c
  {
    var mx := MaxChannel(c);
    var mn := MinChannel(c);
    if mx != mn {
      if mx == c.red {
        RoundTripRed(c, prev);
      } else if mx == c.green {
        RoundTripGreen(c, prev);
      } else {
        RoundTripBlue(c, prev);
      }
    }
  }

  lemma RoundTripRed(c: Rgb, prev: Rgb)
    requires 0.0 <= c.red && 0.0 <= c.green && 0.0 <= c.blue
    requires MaxChannel(c) != MinChannel(c) && MaxChannel(c) == c.red
    ensures HsvToRgb(RgbToHsv(c), prev) == c
  {
    RedHue(c);
    if c.blue <= c.green {
      RoundTripRedRising(c, prev);
    } else {
      RoundTripRedFalling(c, prev);
    }
  }

  /** Red largest and green at least blue: the first sixth of the circle
      (or the start of the second when blue is the smallest and green ties
      with red). */
  lemma RoundTripRedRising(c: Rgb, prev: Rgb)
    requires 0.0 <= c.red && 0.0 <= c.green && 0.0 <= c.blue
    requires MaxChannel(c) != MinChannel(c) && MaxChannel(c) == c.red && c.blue <= c.green
    ensures HsvToRgb(RgbToHsv(c), prev) == c
  {
    var d := c.red - c.blue;
    var hsv := RgbToHsv(c);
    var k := (c.green - c.blue) / d;
    RedHue(c);
    assert MinChannel(c) == c.blue;
    assert ScaledHue(hsv.hue) == k;
    if k == 1.0 {
      HsvAt(hsv, prev, 1, 0.0, d);
    } else {
      HsvAt(hsv, prev, 0, k, d);
    }
  }

  /** Red largest and blue above green: the last sixth of the circle. */
  lemma RoundTripRedFalling(c: Rgb, prev: Rgb)
    requires 0.0 <= c.red && 0.0 <= c.green && 0.0 <= c.blue
    requires MaxChannel(c) != MinChannel(c) && MaxChannel(c) == c.red && c.green < c.blue
    ensures HsvToRgb(RgbToHsv(c), prev) == c
  {
    var d := c.red - c.green;
    var hsv := RgbToHsv(c);
    var k := (c.green - c.blue) / d;
    RedHue(c);
    assert MinChannel(c) == c.green;
    assert ScaledHue(hsv.hue) == k + 6.0;
    HsvAt(hsv, prev, 5, k + 1.0, d);
  }

  /** The hue branch for a red maximum, with k = (g - b) / delta: the
      `fmodf(k + 6, 6)` wraps k into [0, 6), giving k / 6 when green is at
      least blue and (k + 6) / 6 otherwise. */
  lemma RedHue(c: Rgb)
    requires 0.0 <= c.red && 0.0 <= c.green && 0.0 <= c.blue
    requires MaxChannel(c) != MinChannel(c) && MaxChannel(c) == c.red
    ensures var d := c.red - MinChannel(c);
      var hsv := RgbToHsv(c);
      var k := (c.green - c.blue) / d;
      hsv.val == c.red && hsv.val * hsv.sat == d && 0.0 <= hsv.hue <= 1.0 && hsv.sat != 0.0
      && -1.0 <= k <= 1.0 && d * k == c.green - c.blue
      && (c.blue <= c.green ==> 0.0 <= k && hsv.hue == k / 6.0)
      && (c.green < c.blue ==> k < 0.0 && hsv.hue == (k + 6.0) / 6.0)
  {
    var d := c.red - MinChannel(c);
    Ratio(c.green - c.blue, d);
    var k := (c.green - c.blue) / d;
    assert RgbToHsv(c).hue == FMod(k + 6.0, 6.0) / 6.0;
    if c.blue <= c.green {
      assert 0.0 <= k;
      assert FMod(k + 6.0, 6.0) == k;
    } else {
      assert k < 0.0;
      assert FMod(k + 6.0, 6.0) == k + 6.0;
    }
  }

  lemma RoundTripGreen(c: Rgb, prev: Rgb)
    requires 0.0 <= c.red && 0.0 <= c.green && 0.0 <= c.blue
    requires MaxChannel(c) != MinChannel(c) && MaxChannel(c) != c.red && MaxChannel(c) == c.green
    ensures HsvToRgb(RgbToHsv(c), prev) == c
  {
    if c.blue < c.red {
      RoundTripGreenLow(c, prev);
    } else if c.blue < c.green {
      RoundTripGreenMid(c, prev);
    } else {
      RoundTripGreenHigh(c, prev);
    }
  }

  /** The hue branch for a green maximum, with k = (b - r) / delta: the
      scaled hue is k + 2. */
  lemma GreenHue(c: Rgb)
    requires 0.0 <= c.red && 0.0 <= c.green && 0.0 <= c.blue
    requires MaxChannel(c) != MinChannel(c) && MaxChannel(c) != c.red && MaxChannel(c) == c.green
    ensures var d := c.green - MinChannel(c);
      var hsv := RgbToHsv(c);
      var k := (c.blue - c.red) / d;
      hsv.val == c.green && hsv.val * hsv.sat == d && 0.0 <= hsv.hue <= 1.0 && hsv.sat != 0.0
      && -1.0 <= k <= 1.0 && d * k == c.blue - c.red && ScaledHue(hsv.hue) == k + 2.0
  {
    Ratio(c.blue - c.red, c.green - MinChannel(c));
  }

  /** Green largest, blue smallest: the second sixth of the circle. */
  lemma RoundTripGreenLow(c: Rgb, prev: Rgb)
    requires 0.0 <= c.red && 0.0 <= c.green && 0.0 <= c.blue
    requires MaxChannel(c) != MinChannel(c) && MaxChannel(c) != c.red && MaxChannel(c) == c.green
    requires c.blue < c.red
    ensures HsvToRgb(RgbToHsv(c), prev) == c
  {
    GreenHue(c);
    var d := c.green - c.blue;
    var k := (c.blue - c.red) / d;
    assert MinChannel(c) == c.blue && k < 0.0;
    HsvAt(RgbToHsv(c), prev, 1, k + 1.0, d);
  }

  /** Green largest, red smallest, blue below green: the third sixth. */
  lemma RoundTripGreenMid(c: Rgb, prev: Rgb)
    requires 0.0 <= c.red && 0.0 <= c.green && 0.0 <= c.blue
    requires MaxChannel(c) != MinChannel(c) && MaxChannel(c) != c.red && MaxChannel(c) == c.green
    requires c.red <= c.blue < c.green
    ensures HsvToRgb(RgbToHsv(c), prev) == c
  {
    GreenHue(c);
    var d := c.green - c.red;
    var k := (c.blue - c.red) / d;
    assert MinChannel(c) == c.red && 0.0 <= k;
    assert k < 1.0 by {
      if 1.0 <= k {
        MulNonNegative(k - 1.0, d);
      }
    }
    HsvAt(RgbToHsv(c), prev, 2, k, d);
  }

  /** Green and blue tie for the largest: hue 1/2, the start of the fourth
      sixth. */
  lemma RoundTripGreenHigh(c: Rgb, prev: Rgb)
    requires 0.0 <= c.red && 0.0 <= c.green && 0.0 <= c.blue
    requires MaxChannel(c) != MinChannel(c) && MaxChannel(c) != c.red && MaxChannel(c) == c.green
    requires c.green <= c.blue
    ensures HsvToRgb(RgbToHsv(c), prev) == c
  {
    GreenHue(c);
    var d := c.green - c.red;
    assert MinChannel(c) == c.red && c.blue == c.green;
    assert (c.blue - c.red) / d == 1.0;
    HsvAt(RgbToHsv(c), prev, 3, 0.0, d);
  }

  lemma RoundTripBlue(c: Rgb, prev: Rgb)
    requires 0.0 <= c.red && 0.0 <= c.green && 0.0 <= c.blue
    requires MaxChannel(c) != MinChannel(c) && MaxChannel(c) != c.red && MaxChannel(c) != c.green
    ensures HsvToRgb(RgbToHsv(c), prev) == c
  {
    if c.red < c.green {
      RoundTripBlueLow(c, prev);
    } else {
      RoundTripBlueHigh(c, prev);
    }
  }

  /** The hue branch for a blue maximum, with k = (r - g) / delta: the
      scaled hue is k + 4, and k < 1 because red is below blue. */
  lemma BlueHue(c: Rgb)
    requires 0.0 <= c.red && 0.0 <= c.green && 0.0 <= c.blue
    requires MaxChannel(c) != MinChannel(c) && MaxChannel(c) != c.red && MaxChannel(c) != c.green
    ensures var d := c.blue - MinChannel(c);
      var hsv := RgbToHsv(c);
      var k := (c.red - c.green) / d;
      hsv.val == c.blue && hsv.val * hsv.sat == d && 0.0 <= hsv.hue <= 1.0 && hsv.sat != 0.0
      && -1.0 <= k < 1.0 && d * k == c.red - c.green && ScaledHue(hsv.hue) == k + 4.0
  {
    var d := c.blue - MinChannel(c);
    Ratio(c.red - c.green, d);
    var k := (c.red - c.green) / d;
    assert k < 1.0 by {
      if 1.0 <= k {
        MulNonNegative(k - 1.0, d);
      }
    }
  }

  /** Blue largest, red smallest: the fourth sixth of the circle. */
  lemma RoundTripBlueLow(c: Rgb, prev: Rgb)
    requires 0.0 <= c.red && 0.0 <= c.green && 0.0 <= c.blue
    requires MaxChannel(c) != MinChannel(c) && MaxChannel(c) != c.red && MaxChannel(c) != c.green
    requires c.red < c.green
    ensures HsvToRgb(RgbToHsv(c), prev) == c
  {
    BlueHue(c);
    var d := c.blue - c.red;
    var k := (c.red - c.green) / d;
    assert MinChannel(c) == c.red && k < 0.0;
    HsvAt(RgbToHsv(c), prev, 3, k + 1.0, d);
  }

  /** Blue largest, green smallest: the fifth sixth of the circle. */
  lemma RoundTripBlueHigh(c: Rgb, prev: Rgb)
    requires 0.0 <= c.red && 0.0 <= c.green && 0.0 <= c.blue
    requires MaxChannel(c) != MinChannel(c) && MaxChannel(c) != c.red && MaxChannel(c) != c.green
    requires c.green <= c.red
    ensures HsvToRgb(RgbToHsv(c), prev) == c
  {
    BlueHue(c);
    var d := c.blue - c.green;
    var k := (c.red - c.green) / d;
    assert MinChannel(c) == c.green && 0.0 <= k;
    HsvAt(RgbToHsv(c), prev, 4, k, d);
  }
}
