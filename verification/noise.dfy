/** The Perlin-style noise of the ray tracer (lab4) and the procedural wood
    colour built on it. */
module Noise {
  import opened RealMath
  import opened Vectors

  /** Linear interpolation between a and b. */
  function Interpolate(a: real, b: real, t: real): real { (1.0 - t) * a + t * b }

  /** The colour version, channel by channel. */
  function InterpolateColor(a: Vector3, b: Vector3, t: real): Vector3 {
    a.Scale(1.0 - t).Add(b.Scale(t))
  }

  /** For t in [0,1] the interpolation stays between its end points. */
  lemma InterpolateBetween(a: real, b: real, t: real)
    requires 0.0 <= t <= 1.0
    ensures Min(a, b) <= Interpolate(a, b, t) <= Max(a, b)
    ensures t == 0.0 ==> Interpolate(a, b, t) == a
    ensures t == 1.0 ==> Interpolate(a, b, t) == b
  {
    var r := Interpolate(a, b, t);
    assert r == a + t * (b - a);
    if a <= b {
      MulUnit(t, b - a);
    } else {
      MulUnit(t, a - b);
      assert t * (b - a) == -(t * (a - b));
    }
  }

  /** The quintic ease curve 6t^5 - 15t^4 + 10t^3. */
  function Fade(t: real): real { t * t * t * (t * (t * 6.0 - 15.0) + 10.0) }

  /** Fade maps [0,1] into [0,1] and fixes both ends. */
  lemma FadeUnit(t: real)
    requires 0.0 <= t <= 1.0
    ensures 0.0 <= Fade(t) <= 1.0
    ensures Fade(0.0) == 0.0 && Fade(1.0) == 1.0
  {
    var c := t * t * t;
    MulNonNegative(t, t);
    MulNonNegative(t * t, t);
    // 6t^2 - 15t + 10 has negative discriminant, so it is positive
    var q := t * (t * 6.0 - 15.0) + 10.0;
    assert q == 6.0 * (t - 1.25) * (t - 1.25) + 0.625;
    SquareNonNegative(t - 1.25);
    MulNonNegative(c, q);
    // 1 - Fade(t) = (1 - t)^3 (6t^2 + 3t + 1)
    var u := 1.0 - t;
    var w := 6.0 * t * t + 3.0 * t + 1.0;
    assert 1.0 - Fade(t) == u * u * u * w;
    MulNonNegative(u, u);
    MulNonNegative(u * u, u);
    MulNonNegative(t, t);
    assert 0.0 <= w;
    MulNonNegative(u * u * u, w);
  }

  /** The gradient for a hash: only hash & 0xF matters; 8..15 give 0. */
  function Grad(hash: int, x: real, y: real): (r: real)
    ensures hash % 16 >= 8 ==> r == 0.0
    ensures Abs(r) <= Abs(x) + Abs(y)
  {
    match hash % 16
    case 0 => x + y
    case 1 => -x + y
    case 2 => x - y
    case 3 => -x - y
    case 4 => x
    case 5 => -x
    case 6 => y
    case 7 => -y
    case _ => 0.0
  }

  /** The gradient depends on hash only through its low four bits. */
  lemma GradLowBits(h1: int, h2: int, x: real, y: real)
    requires h1 % 16 == h2 % 16
    ensures Grad(h1, x, y) == Grad(h2, x, y)
  {
  }

  const TableSize: int := 256

  /** sigma is a rearrangement of 0..n-1. */
  predicate IsPermutation(sigma: seq<int>, n: int) {
    |sigma| == n
    && (forall i :: 0 <= i < n ==> 0 <= sigma[i] < n)
    && (forall i, j :: 0 <= i < j < n ==> sigma[i] != sigma[j])
  }

  /** The table initPerlinNoise builds: the first 256 entries are a
      permutation of 0..255 and the second 256 repeat them. */
  predicate PermTable(p: seq<int>) {
    |p| == 2 * TableSize
    && IsPermutation(p[..TableSize], TableSize)
    && (forall i :: 0 <= i < TableSize ==> p[i + TableSize] == p[i])
  }

  /** What perlinNoise needs of the table: 512 entries, each a byte value. */
  predicate TableInRange(p: seq<int>) {
    |p| == 2 * TableSize && forall i :: 0 <= i < |p| ==> 0 <= p[i] < TableSize
  }

  lemma PermTableInRange(p: seq<int>)
    requires PermTable(p)
    ensures TableInRange(p)
  {
    forall i | 0 <= i < |p| ensures 0 <= p[i] < TableSize {
      if i >= TableSize {
        assert p[i] == p[i - TableSize];
        assert p[..TableSize][i - TableSize] == p[i - TableSize];
      } else {
        assert p[..TableSize][i] == p[i];
      }
    }
  }

  /** initPerlinNoise: the identity, shuffled, then copied into the upper
      half. The random shuffle is the permutation sigma: entry i of the
      shuffled half is the entry sigma[i] before it. */
  method InitPerlinNoise(p: array<int>, sigma: seq<int>)
    requires p.Length == 2 * TableSize
    requires IsPermutation(sigma, TableSize)
    modifies p
    ensures PermTable(p[..])
    ensures p[..TableSize] == sigma
  {
    for i := 0 to TableSize
      invariant forall k :: 0 <= k < i ==> p[k] == k
    {
      p[i] := i;
    }
    Shuffle(p, sigma);
    for i := 0 to TableSize
      invariant p[..TableSize] == sigma
      invariant forall k :: 0 <= k < i ==> p[k + TableSize] == p[k]
    {
      p[i + TableSize] := p[i];
    }
    assert p[..][..TableSize] == p[..TableSize];
  }

  /** std::shuffle over p[0..256): rearranges those entries by sigma. */
  method Shuffle(p: array<int>, sigma: seq<int>)
    requires p.Length == 2 * TableSize
    requires IsPermutation(sigma, TableSize)
    modifies p
    ensures forall i :: 0 <= i < TableSize ==> p[i] == old(p[sigma[i]])
    ensures p[TableSize..] == old(p[TableSize..])
  {
    var before := p[..];
    for i := 0 to TableSize
      invariant forall k :: 0 <= k < i ==> p[k] == before[sigma[k]]
      invariant p[TableSize..] == before[TableSize..]
    {
      p[i] := before[sigma[i]];
    }
  }

  /** The lattice cell of a coordinate: floor(x) & 255, which is the
      floor reduced modulo 256 (two's complement). */
  function Cell(x: real): int { x.Floor % TableSize }

  /** Fractional part x - floor(x), in [0,1). */
  function Frac(x: real): real { x - x.Floor as real }

  /** perlinNoise: gradients at the four corners of the unit cell, blended
      with the fade curve. Every table read is in bounds. */
  function PerlinNoise(p: seq<int>, x: real, y: real): (r: real)
    requires TableInRange(p)
    ensures Abs(r) <= 2.0
  {
    CellNoise(p, Cell(x), Cell(y), Frac(x), Frac(y))
  }

  /** The body of perlinNoise once the cell (X, Y) and the offsets (fx, fy)
      inside it are known. */
  function CellNoise(p: seq<int>, X: int, Y: int, fx: real, fy: real): (r: real)
    requires TableInRange(p)
    requires 0 <= X < TableSize && 0 <= Y < TableSize
    requires 0.0 <= fx < 1.0 && 0.0 <= fy < 1.0
    ensures Abs(r) <= 2.0
  {
    var u := Fade(fx);
    var v := Fade(fy);
    var A := p[X] + Y;
    var B := p[X + 1] + Y;
    var g00 := Grad(p[A], fx, fy);
    var g10 := Grad(p[B], fx - 1.0, fy);
    var g01 := Grad(p[A + 1], fx, fy - 1.0);
    var g11 := Grad(p[B + 1], fx - 1.0, fy - 1.0);
    FadeUnit(fx);
    FadeUnit(fy);
    var lower := Interpolate(g00, g10, u);
    var upper := Interpolate(g01, g11, u);
    InterpolateBetween(g00, g10, u);
    InterpolateBetween(g01, g11, u);
    InterpolateBetween(lower, upper, v);
    Interpolate(lower, upper, v)
  }

  /** At lattice points the noise is zero. */
  lemma NoiseZeroAtLattice(p: seq<int>, i: int, j: int)
    requires TableInRange(p)
    ensures PerlinNoise(p, i as real, j as real) == 0.0
  {
    assert (i as real).Floor == i;
    assert (j as real).Floor == j;
    assert Frac(i as real) == 0.0 && Frac(j as real) == 0.0;
    assert Fade(0.0) == 0.0;
  }

  /** The noise repeats every 256 units along each axis. */
  lemma NoisePeriodic(p: seq<int>, x: real, y: real)
    requires TableInRange(p)
    ensures PerlinNoise(p, x + 256.0, y) == PerlinNoise(p, x, y)
    ensures PerlinNoise(p, x, y + 256.0) == PerlinNoise(p, x, y)
  {
    FloorShift(x);
    FloorShift(y);
  }

  lemma FloorShift(x: real)
    ensures Cell(x + 256.0) == Cell(x) && Frac(x + 256.0) == Frac(x)
  {
    assert (x + 256.0).Floor == x.Floor + 256;
  }

  const LightWood := Vector3(0.65, 0.45, 0.25)
  const DarkWood := Vector3(0.45, 0.25, 0.1)

  /** Scene::getWoodTextureColor: stripes along one axis of the face the
      normal selects, perturbed by noise, blended between the two woods. */
  function WoodTextureColor(m: Libm, p: seq<int>, hitPoint: Vector3, normal: Vector3): (r: Vector3)
    requires Lawful(m) && TableInRange(p)
    ensures DarkWood.x <= r.x <= LightWood.x
    ensures DarkWood.y <= r.y <= LightWood.y
    ensures DarkWood.z <= r.z <= LightWood.z
  {
    var scale := 10.0;
    var stripeDensity := 0.3;
    var noiseStrength := 0.3;
    var (stripeCoord, noiseVal) :=
      if Abs(normal.y) > 0.9 then
        (hitPoint.z * scale, PerlinNoise(p, hitPoint.x * scale * 0.5, hitPoint.z * scale * 0.5))
      else if Abs(normal.x) > 0.9 then
        (hitPoint.y * scale, PerlinNoise(p, hitPoint.y * scale * 0.5, hitPoint.z * scale * 0.5))
      else
        (hitPoint.y * scale, PerlinNoise(p, hitPoint.x * scale * 0.5, hitPoint.y * scale * 0.5));
    var wave := m.sin(stripeCoord * 2.0 * Pi / stripeDensity + noiseVal * noiseStrength * 10.0);
    var unit := (wave + 1.0) * 0.5;
    var edge := Abs(unit - 0.5) * 2.0;
    var pattern := m.pow(edge, 2.0);
    InterpolateBetween(LightWood.x, DarkWood.x, pattern);
    InterpolateBetween(LightWood.y, DarkWood.y, pattern);
    InterpolateBetween(LightWood.z, DarkWood.z, pattern);
    InterpolateColor(LightWood, DarkWood, pattern)
  }
}
