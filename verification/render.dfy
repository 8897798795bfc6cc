/** Scene::render of the ray tracer (lab4): one primary ray per pixel,
    traced, gamma corrected and written as three bytes into the framebuffer
    in row-major order. */
module Render {
  import opened RealMath
  import opened Vectors
  import opened Scenes
  import opened Tracer

  const Width: nat := 800
  const Height: nat := 600

  /** The exponent of the gamma correction (about 1/2.2). */
  const GammaExponent: real := 0.454

  /** An unsigned char of the framebuffer. */
  type Byte = b: int | 0 <= b < 256

  /** What the gamma correction needs of pow at the two ends of [0, 1]. */
  ghost predicate GammaEnds(m: Libm) {
    m.pow(0.0, GammaExponent) == 0.0 && m.pow(1.0, GammaExponent) == 1.0
  }

  /** One colour channel: clamped to [0, 1], gamma corrected, scaled to
      255 and truncated by the cast to unsigned char. */
  function GammaByte(m: Libm, c: real): (b: Byte)
    requires Lawful(m)
    ensures GammaEnds(m) && c <= 0.0 ==> b == 0
    ensures GammaEnds(m) && 1.0 <= c ==> b == 255
  {
    var g := m.pow(Clamp01(c), GammaExponent);
    MulUnit(g, 255.0);
    Trunc(Min(255.0, g * 255.0))
  }

  /** The camera frame: forward towards the look-at point, right and up. */
  datatype Basis = Basis(forward: Vector3, right: Vector3, up: Vector3)

  function CameraBasis(m: Libm, scene: Scene): Basis {
    var forward := scene.lookAt.Sub(scene.cameraPos).Normalize(m);
    var right := forward.Cross(Vector3(0.0, 1.0, 0.0)).Normalize(m);
    var up := right.Cross(forward).Normalize(m);
    Basis(forward, right, up)
  }

  /** The screen offsets of pixel (x, y): u grows to the right with the
      aspect-ratio correction, v grows upwards (rows run top to bottom). */
  function ScreenU(m: Libm, scene: Scene, x: int): real {
    (2.0 * x as real / Width as real - 1.0) * m.tan(scene.fov / 2.0) * (Width as real / Height as real)
  }

  function ScreenV(m: Libm, scene: Scene, y: int): real {
    (1.0 - 2.0 * y as real / Height as real) * m.tan(scene.fov / 2.0)
  }

  /** The primary ray of pixel (x, y), from the camera position. */
  function PrimaryRay(m: Libm, scene: Scene, b: Basis, x: int, y: int): Ray
    requires Lawful(m)
  {
    var dir := b.forward.Add(b.right.Scale(ScreenU(m, scene, x))).Add(b.up.Scale(ScreenV(m, scene, y))).Normalize(m);
    MakeRay(m, scene.cameraPos, dir)
  }

  /** The camera frame is orthogonal: right is perpendicular to forward
      and to the world up axis, up is perpendicular to both. */
  lemma CameraBasisOrthogonal(m: Libm, scene: Scene)
    ensures var b := CameraBasis(m, scene);
      b.forward.Dot(b.right) == 0.0 && b.forward.Dot(b.up) == 0.0 && b.right.Dot(b.up) == 0.0
  {
    var f := scene.lookAt.Sub(scene.cameraPos).Normalize(m);
    var side := f.Cross(Vector3(0.0, 1.0, 0.0));
    CrossPerpendicular(f, Vector3(0.0, 1.0, 0.0));
    NormalizeKeepsPerpendicular(m, side, f);
    var r := side.Normalize(m);
    var above := r.Cross(f);
    CrossPerpendicular(r, f);
    NormalizeKeepsPerpendicular(m, above, f);
    NormalizeKeepsPerpendicular(m, above, r);
  }

  /** The pixel at the middle of the screen looks straight along forward. */
  lemma CentreRay(m: Libm, scene: Scene, b: Basis)
    requires Lawful(m)
    ensures PrimaryRay(m, scene, b, Width / 2, Height / 2).direction == b.forward.Normalize(m)
    ensures b.forward.SquaredLength() == 1.0 ==>
      PrimaryRay(m, scene, b, Width / 2, Height / 2) == Ray(scene.cameraPos, b.forward)
  {
    assert Width / 2 == 400 && Height / 2 == 300;
    assert ScreenU(m, scene, Width / 2) == 0.0;
    assert ScreenV(m, scene, Height / 2) == 0.0;
    var f := b.forward;
    assert f.Add(b.right.Scale(0.0)).Add(b.up.Scale(0.0)) == f;
    NormalizeIdempotent(m, f);
    if f.SquaredLength() == 1.0 {
      NormalizeKnownLength(m, f, 1.0);
      assert f.Scale(1.0 / 1.0) == f;
    }
  }

  /** The camera of the Cornell box at (0, 1.5, 2.5) looking at (0, 1.5, 0)
      has the axis-aligned frame: forward -z, right +x, up +y. */
  lemma CornellCamera(m: Libm, scene: Scene)
    requires Lawful(m)
    requires scene.cameraPos == Vector3(0.0, 1.5, 2.5) && scene.lookAt == Vector3(0.0, 1.5, 0.0)
    ensures CameraBasis(m, scene) ==
      Basis(Vector3(0.0, 0.0, -1.0), Vector3(1.0, 0.0, 0.0), Vector3(0.0, 1.0, 0.0))
  {
    SqrtOfSquare(m, 2.5);
    SqrtOfSquare(m, 1.0);
    assert 2.5 * 2.5 == 6.25 && 1.0 * 1.0 == 1.0;
    AxisFrame(m, scene);
  }

  /** The same frame from the two square roots it takes. */
  lemma AxisFrame(m: Libm, scene: Scene)
    requires m.sqrt(6.25) == 2.5 && m.sqrt(1.0) == 1.0
    requires scene.cameraPos == Vector3(0.0, 1.5, 2.5) && scene.lookAt == Vector3(0.0, 1.5, 0.0)
    ensures CameraBasis(m, scene) ==
      Basis(Vector3(0.0, 0.0, -1.0), Vector3(1.0, 0.0, 0.0), Vector3(0.0, 1.0, 0.0))
  {
    ForwardAxis(m);
    RightAxis(m);
    UpAxis(m);
  }

  /** Forward: the unit vector from (0, 1.5, 2.5) to (0, 1.5, 0). */
  lemma ForwardAxis(m: Libm)
    requires m.sqrt(6.25) == 2.5
    ensures Vector3(0.0, 1.5, 0.0).Sub(Vector3(0.0, 1.5, 2.5)).Normalize(m) == Vector3(0.0, 0.0, -1.0)
  {
    NormalizeBy(m, Vector3(0.0, 0.0, -2.5), 2.5);
  }

  /** Right: forward crossed with the world up axis, normalized. */
  lemma RightAxis(m: Libm)
    requires m.sqrt(1.0) == 1.0
    ensures Vector3(0.0, 0.0, -1.0).Cross(Vector3(0.0, 1.0, 0.0)).Normalize(m) == Vector3(1.0, 0.0, 0.0)
  {
    UnitNormal(m, Vector3(1.0, 0.0, 0.0));
  }

  /** Up: right crossed with forward, normalized. */
  lemma UpAxis(m: Libm)
    requires m.sqrt(1.0) == 1.0
    ensures Vector3(1.0, 0.0, 0.0).Cross(Vector3(0.0, 0.0, -1.0)).Normalize(m) == Vector3(0.0, 1.0, 0.0)
  {
    UnitNormal(m, Vector3(0.0, 1.0, 0.0));
  }

  /** A vector of length len > 0, when the square root gives len back,
      normalizes to itself divided by len. */
  lemma NormalizeBy(m: Libm, v: Vector3, len: real)
    requires 0.0 < len && m.sqrt(v.SquaredLength()) == len
    ensures v.Normalize(m) == v.Scale(1.0 / len)
  {
  }

  /** A unit vector normalizes to itself when the square root of 1 is 1. */
  lemma UnitNormal(m: Libm, v: Vector3)
    requires m.sqrt(1.0) == 1.0 && v.SquaredLength() == 1.0
    ensures v.Normalize(m) == v
  {
    assert v.Scale(1.0 / 1.0) == v;
  }

  /** The three bytes a traced colour becomes. */
  function PixelBytes(m: Libm, col: Vector3): (r: seq<Byte>)
    requires Lawful(m)
    ensures |r| == 3
  {
    [GammaByte(m, col.x), GammaByte(m, col.y), GammaByte(m, col.z)]
  }

  /** What Scene::render asks of Scene::trace for a primary ray: its colour
      and the position in the random stream after it. */
  type Shader = (Ray, nat) --> (Vector3, nat)

  /** The shader is defined on every ray and stream position. */
  ghost predicate Total(shade: Shader) {
    forall r: Ray, c: nat :: shade.requires(r, c)
  }

  /** The shader never moves the stream position backwards. */
  ghost predicate Advancing(shade: Shader)
    requires Total(shade)
  {
    forall r: Ray, c: nat :: c <= shade(r, c).1
  }

  /** trace(ray) as Scene::render calls it: depth 0. */
  function PrimaryShader(w: World, scene: Scene): (f: Shader)
    ensures w.Valid() && scene.Valid() ==> Total(f) && Advancing(f)
  {
    (r: Ray, c: nat) requires w.Valid() && scene.Valid() => TraceSpec(w, scene, r, 0, c)
  }

  /** The bytes of the pixels before (x, y) in row-major order (rows
      0 .. y - 1, then columns 0 .. x - 1 of row y), and the position in the
      random stream after shading them. */
  function Frame(m: Libm, scene: Scene, b: Basis, shade: Shader, y: nat, x: nat, cursor: nat): (r: (seq<Byte>, nat))
    requires Lawful(m) && Total(shade) && x <= Width
    ensures |r.0| == 3 * (y * Width + x)
    ensures Advancing(shade) ==> cursor <= r.1
    decreases y, x, cursor
  {
    if x == 0 then
      if y == 0 then ([], cursor) else Frame(m, scene, b, shade, y - 1, Width, cursor)
    else
      var (bytes, c) := Frame(m, scene, b, shade, y, x - 1, cursor);
      var (col, next) := shade(PrimaryRay(m, scene, b, x - 1, y), c);
      (bytes + PixelBytes(m, col), next)
  }

  /** The framebuffer holds, at its front, the bytes of the pixels before
      (x, y), and cur is the stream position after them. */
  ghost predicate Drawn(m: Libm, scene: Scene, b: Basis, shade: Shader, bytes: seq<Byte>, y: nat, x: nat, start: nat, cur: nat) {
    var inFrame := Lawful(m) && Total(shade) && x <= Width && 3 * (y * Width + x) <= |bytes|;
    inFrame && (bytes[..3 * (y * Width + x)], cur) == Frame(m, scene, b, shade, y, x, start)
  }

  /** Scene::render: the double loop over rows and columns writing every
      pixel of the framebuffer. */
  method RenderFrame(m: Libm, scene: Scene, shade: Shader, fb: array<Byte>, cursor: nat) returns (next: nat)
    requires Lawful(m) && Total(shade)
    requires fb.Length == Width * Height * 3
    modifies fb
    ensures (fb[..], next) == Frame(m, scene, CameraBasis(m, scene), shade, Height, 0, cursor)
  {
    var forward := scene.lookAt.Sub(scene.cameraPos).Normalize(m);
    var right := forward.Cross(Vector3(0.0, 1.0, 0.0)).Normalize(m);
    var up := right.Cross(forward).Normalize(m);
    var basis := Basis(forward, right, up);
    next := cursor;
    for y := 0 to Height
      invariant Drawn(m, scene, basis, shade, fb[..], y, 0, cursor, next)
    {
      next := RenderRow(m, scene, basis, shade, fb, y, next, cursor);
    }
    assert fb[..] == fb[..3 * (Height * Width)];
  }

  /** The inner loop of Scene::render: the pixels of row y, left to right,
      each shaded from the stream position the previous one left. */
  method RenderRow(m: Libm, scene: Scene, basis: Basis, shade: Shader, fb: array<Byte>, y: nat, cur: nat, ghost start: nat)
    returns (next: nat)
    requires y < Height && fb.Length == Width * Height * 3
    requires Drawn(m, scene, basis, shade, fb[..], y, 0, start, cur)
    modifies fb
    ensures Drawn(m, scene, basis, shade, fb[..], y + 1, 0, start, next)
  {
    next := cur;
    for x := 0 to Width
      invariant Drawn(m, scene, basis, shade, fb[..], y, x, start, next)
    {
      next := RenderPixel(m, scene, basis, shade, fb, x, y, next, start);
    }
    NextRow(m, scene, basis, shade, fb[..], y, start, next);
  }

  /** The end of row y is the start of row y + 1. */
  lemma NextRow(m: Libm, scene: Scene, b: Basis, shade: Shader, bytes: seq<Byte>, y: nat, start: nat, cur: nat)
    requires Drawn(m, scene, b, shade, bytes, y, Width, start, cur)
    ensures Drawn(m, scene, b, shade, bytes, y + 1, 0, start, cur)
  {
    assert Frame(m, scene, b, shade, y + 1, 0, start) == Frame(m, scene, b, shade, y, Width, start);
  }

  /** The body of the inner loop: pixel (x, y) shaded from stream position
      cur and written after the bytes of the pixels before it. */
  method RenderPixel(m: Libm, scene: Scene, basis: Basis, shade: Shader, fb: array<Byte>, x: nat, y: nat, cur: nat, ghost start: nat)
    returns (next: nat)
    requires x < Width && y < Height && fb.Length == Width * Height * 3
    requires Drawn(m, scene, basis, shade, fb[..], y, x, start, cur)
    modifies fb
    ensures Drawn(m, scene, basis, shade, fb[..], y, x + 1, start, next)
  {
    var u := ScreenU(m, scene, x);
    var v := ScreenV(m, scene, y);
    var dir := basis.forward.Add(basis.right.Scale(u)).Add(basis.up.Scale(v)).Normalize(m);
    var ray := MakeRay(m, scene.cameraPos, dir);
    assert ray == PrimaryRay(m, scene, basis, x, y);
    var shaded := shade(ray, cur);
    var idx := (y * Width + x) * 3;
    PixelInFrame(x, y);
    PutPixel(m, fb, idx, shaded.0);
    assert 3 * (y * Width + x + 1) == idx + 3;
    next := shaded.1;
  }

  /** The gamma correction and the three byte writes of one pixel at
      byte offset idx; the bytes before it are kept. */
  method PutPixel(m: Libm, fb: array<Byte>, idx: nat, col: Vector3)
    requires Lawful(m) && idx + 3 <= fb.Length
    modifies fb
    ensures fb[..idx + 3] == old(fb[..idx]) + PixelBytes(m, col)
  {
    fb[idx] := GammaByte(m, col.x);
    fb[idx + 1] := GammaByte(m, col.y);
    fb[idx + 2] := GammaByte(m, col.z);
    assert fb[..idx + 3] == old(fb[..idx]) + [fb[idx], fb[idx + 1], fb[idx + 2]];
  }

  /** The bytes of pixel (x, y) lie inside the framebuffer. */
  lemma PixelInFrame(x: nat, y: nat)
    requires x < Width && y < Height
    ensures (y * Width + x) * 3 + 2 < Width * Height * 3
  {
    assert y * Width + x < Width * Height by {
      assert y * Width <= (Height - 1) * Width;
    }
  }

  /** Different pixels write disjoint byte triples. */
  lemma PixelsDisjoint(x1: nat, y1: nat, x2: nat, y2: nat, i: nat, j: nat)
    requires x1 < Width && x2 < Width && i < 3 && j < 3
    requires (x1, y1) != (x2, y2)
    ensures (y1 * Width + x1) * 3 + i != (y2 * Width + x2) * 3 + j
  {
    if y1 < y2 {
      assert (y1 + 1) * Width <= y2 * Width;
    } else if y2 < y1 {
      assert (y2 + 1) * Width <= y1 * Width;
    }
  }
}
