/** Arithmetic about the six cases of convert_hsv_rgb: which case a hue
    falls in, how far into it, and the order of the values p, q and t. */
module ColorCases {
  import opened RealMath
  import opened ColorSpace

  /** For a hue in [0, 1] the sector is one of the six cases and the
      offset lies in [0, 1). */
  lemma SectorRange(h: real)
    requires 0.0 <= h <= 1.0
    ensures 0 <= Sector(h) < 6 && CRem(Sector(h), 6) == Sector(h)
    ensures 0.0 <= Offset(h) < 1.0
  {
  }

  /** In every sixth one channel is v, one is p, and the third lies between
      them, so the channels span exactly [p, v]. */
  lemma SextantBounds(k: int, v: real, sh: Shade, prev: Rgb)
    requires 0 <= k < 6 && Ordered(sh, v)
    ensures Band(Sextant(k, v, sh, prev), sh.p, v)
  {
  }

  /** q and t lie between p = v * (1 - s) and v. */
  lemma ShadesOrdered(v: real, s: real, frac: real)
    requires 0.0 <= v && 0.0 <= s <= 1.0 && 0.0 <= frac <= 1.0
    ensures Ordered(Shades(v, s, frac), v)
  {
    MulUnit(frac, s);
    MulUnit(1.0 - frac, s);
    Between(v, s, frac * s);
    Between(v, s, (1.0 - frac) * s);
    assert s * frac == frac * s;
    assert s * (1.0 - frac) == (1.0 - frac) * s;
  }

  /** v * (1 - a) lies between v * (1 - s) and v for a in [0, s]. */
  lemma Between(v: real, s: real, a: real)
    requires 0.0 <= v && 0.0 <= a <= s
    ensures v * (1.0 - s) <= v * (1.0 - a) <= v
  {
    MulNonNegative(v, s - a);
    MulNonNegative(v, a);
    assert v * (1.0 - a) - v * (1.0 - s) == v * (s - a);
    assert v - v * (1.0 - a) == v * a;
  }

  /** Every sextant lies in the unit cube when p and v do. */
  lemma SextantUnit(k: int, v: real, sh: Shade, prev: Rgb)
    requires 0 <= k < 6 && Ordered(sh, v) && 0.0 <= sh.p && v <= 1.0
    ensures UnitRgb(Sextant(k, v, sh, prev))
  {
  }

  /** p, q and t once v * s is known to be d. */
  lemma ShadesAt(v: real, s: real, d: real, f: real)
    requires v * s == d
    ensures Shades(v, s, f) == Shade(v - d, v - d * f, v - d + d * f)
  {
    assert v * (s * f) == (v * s) * f;
    assert v * (s * (1.0 - f)) == (v * s) * (1.0 - f);
  }

  /** convert_hsv_rgb away from grey, once the sector k, the offset f and
      d = v * s are known. */
  lemma HsvAt(c: Hsv, prev: Rgb, k: int, f: real, d: real)
    requires c.sat != 0.0 && 0.0 <= c.hue <= 1.0
    requires Sector(c.hue) == k && Offset(c.hue) == f && c.val * c.sat == d
    ensures HsvToRgb(c, prev) == Sextant(k, c.val, Shade(c.val - d, c.val - d * f, c.val - d + d * f), prev)
  {
    SectorRange(c.hue);
    ShadesAt(c.val, c.sat, d, f);
  }
}
