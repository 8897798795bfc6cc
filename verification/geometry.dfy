/** The three intersection tests of the ray tracer (lab4): spheres, axis-aligned
    boxes and infinite planes. */
module Geometry {
  import opened RealMath
  import opened Wrappers
  import opened Vectors
  import opened Materials

  datatype Sphere = Sphere(center: Vector3, radius: real, mat: Material)

  datatype Box = Box(min: Vector3, max: Vector3, mat: Material) {
    function Center(): Vector3 { min.Add(max).Scale(0.5) }
  }

  /** Distance below which a hit is treated as self-intersection. */
  const HitEpsilon: real := 0.001

  /** Squared distance of the point at parameter t from the sphere's centre,
      minus the squared radius: zero exactly on the sphere. */
  function SphereGap(s: Sphere, ray: Ray, t: real): real {
    ray.At(t).Sub(s.center).SquaredLength() - s.radius * s.radius
  }

  // ---------------------------------------------------------------- sphere

  /** Sphere::intersect. The quadratic a t^2 + b t + c has a = |d|^2, which is 0
      only for a zero direction; then both roots are 0/0 and neither passes the
      `> 0.001` test, so that case is a miss. */
  function SphereIntersect(m: Libm, s: Sphere, ray: Ray): (r: Option<real>)
    ensures r.Some? ==> r.value > HitEpsilon
  {
    NearerRoot(m, CoefA(ray), CoefB(s, ray), CoefC(s, ray))
  }

  /** The coefficients of |origin + t d - centre|^2 - radius^2 as a polynomial in t. */
  function CoefA(ray: Ray): real { ray.direction.Dot(ray.direction) }

  function CoefB(s: Sphere, ray: Ray): real { 2.0 * ray.origin.Sub(s.center).Dot(ray.direction) }

  function CoefC(s: Sphere, ray: Ray): real {
    var oc := ray.origin.Sub(s.center);
    oc.Dot(oc) - s.radius * s.radius
  }

  function Quadratic(a: real, b: real, c: real, t: real): real { a * t * t + b * t + c }

  /** The root selection of Sphere::intersect: the nearer root if it is beyond
      the self-intersection distance, otherwise the farther one. */
  function NearerRoot(m: Libm, a: real, b: real, c: real): (r: Option<real>)
    ensures r.Some? ==> r.value > HitEpsilon
  {
    var disc := b * b - 4.0 * a * c;
    if disc < 0.0 || a == 0.0 then None
    else
      var t1 := (-b - m.sqrt(disc)) / (2.0 * a);
      if t1 > HitEpsilon then Some(t1)
      else
        var t2 := (-b + m.sqrt(disc)) / (2.0 * a);
        if t2 > HitEpsilon then Some(t2) else None
  }

  /** Expansion of (a + t b)^2 for one coordinate. */
  lemma SquareOfOffset(a: real, b: real, t: real)
    ensures (a + b * t) * (a + b * t) == a * a + 2.0 * t * (a * b) + t * t * (b * b)
  {
  }

  /** Expansion of |oc + t d|^2 as a polynomial in t. */
  lemma OffsetSquared(oc: Vector3, d: Vector3, t: real)
    ensures oc.Add(d.Scale(t)).SquaredLength()
         == oc.Dot(oc) + 2.0 * t * oc.Dot(d) + t * t * d.Dot(d)
  {
    SquareOfOffset(oc.x, d.x, t);
    SquareOfOffset(oc.y, d.y, t);
    SquareOfOffset(oc.z, d.z, t);
    var xx, yy, zz := oc.x * d.x, oc.y * d.y, oc.z * d.z;
    assert 2.0 * t * oc.Dot(d) == 2.0 * t * xx + 2.0 * t * yy + 2.0 * t * zz;
    var dx, dy, dz := d.x * d.x, d.y * d.y, d.z * d.z;
    assert t * t * d.Dot(d) == t * t * dx + t * t * dy + t * t * dz;
  }

  /** The sphere gap along a ray is the quadratic the test solves. */
  lemma GapIsQuadratic(s: Sphere, ray: Ray, t: real)
    ensures SphereGap(s, ray, t) == Quadratic(CoefA(ray), CoefB(s, ray), CoefC(s, ray), t)
  {
    var oc := ray.origin.Sub(s.center);
    assert ray.At(t).Sub(s.center) == oc.Add(ray.direction.Scale(t));
    OffsetSquared(oc, ray.direction, t);
  }

  /** The leading coefficient is a squared length. */
  lemma CoefANonNegative(ray: Ray)
    ensures CoefA(ray) >= 0.0
  {
    var d := ray.direction;
    SquareNonNegative(d.x);
    SquareNonNegative(d.y);
    SquareNonNegative(d.z);
  }

  /** With roots t1 = (-b - q)/2a and t2 = (-b + q)/2a where q*q = b^2 - 4ac,
      the quadratic factors as a (t - t1)(t - t2). */
  lemma Factor(a: real, b: real, c: real, q: real, t: real)
    requires a != 0.0 && q * q == b * b - 4.0 * a * c
    ensures Quadratic(a, b, c, t)
         == a * (t - (-b - q) / (2.0 * a)) * (t - (-b + q) / (2.0 * a))
  {
    var t1 := (-b - q) / (2.0 * a);
    var t2 := (-b + q) / (2.0 * a);
    assert t1 * (2.0 * a) == -b - q;
    assert t2 * (2.0 * a) == -b + q;
    assert a * (t1 + t2) == -b by {
      assert (t1 + t2) * (2.0 * a) == -2.0 * b;
    }
    assert a * (t1 * t2) == c by {
      assert (t1 * (2.0 * a)) * (t2 * (2.0 * a)) == b * b - q * q;
      assert (t1 * t2) * (4.0 * a * a) == 4.0 * a * c;
    }
    calc {
      a * (t - t1) * (t - t2);
      a * t * t - a * (t1 + t2) * t + a * (t1 * t2);
      a * t * t + b * t + c;
    }
  }

  /** A nonzero multiple of (t - t1)(t - t2) vanishes exactly at t1 and t2. */
  lemma FactorZero(a: real, t1: real, t2: real, t: real)
    requires a != 0.0
    ensures a * (t - t1) * (t - t2) == 0.0 <==> t == t1 || t == t2
  {
    var y, z := t - t1, t - t2;
    if y != 0.0 && z != 0.0 {
      NonZeroFactors(a, y, z);
    }
  }

  lemma NonZeroFactors(x: real, y: real, z: real)
    requires x != 0.0 && y != 0.0 && z != 0.0
    ensures x * y * z != 0.0
  {
    if x * y * z == 0.0 {
      ZeroProduct(x * y, z);
      ZeroProduct(x, y);
    }
  }

  /** When the root selection reports a value, the quadratic (with a >= 0) has
      two roots t1 <= t2, vanishes nowhere else, and the value is t1, or t2
      when t1 is too close. */
  lemma Roots(m: Libm, a: real, b: real, c: real) returns (t1: real, t2: real)
    requires Lawful(m) && a >= 0.0
    requires NearerRoot(m, a, b, c).Some?
    ensures t1 <= t2
    ensures NearerRoot(m, a, b, c).value == t1
         || (t1 <= HitEpsilon && NearerRoot(m, a, b, c).value == t2)
    ensures forall t :: Quadratic(a, b, c, t) == 0.0 <==> t == t1 || t == t2
  {
    var disc := b * b - 4.0 * a * c;
    var q := m.sqrt(disc);
    t1 := (-b - q) / (2.0 * a);
    t2 := (-b + q) / (2.0 * a);
    assert 0.0 <= q && q * q == disc;
    assert t2 - t1 == q / a;
    forall t ensures Quadratic(a, b, c, t) == 0.0 <==> t == t1 || t == t2 {
      Factor(a, b, c, q, t);
      FactorZero(a, t1, t2, t);
    }
  }

  /** A reported hit lies on the sphere, and it is the nearest point of the
      sphere along the ray beyond the self-intersection distance. */
  lemma SphereHitNearest(m: Libm, s: Sphere, ray: Ray, t': real)
    requires Lawful(m)
    requires SphereIntersect(m, s, ray).Some?
    ensures SphereGap(s, ray, SphereIntersect(m, s, ray).value) == 0.0
    ensures HitEpsilon < t' < SphereIntersect(m, s, ray).value ==> SphereGap(s, ray, t') != 0.0
  {
    var t := SphereIntersect(m, s, ray).value;
    CoefANonNegative(ray);
    var t1, t2 := Roots(m, CoefA(ray), CoefB(s, ray), CoefC(s, ray));
    GapIsQuadratic(s, ray, t);
    GapIsQuadratic(s, ray, t');
  }

  /** A negative discriminant means the ray's line never touches the sphere. */
  lemma NegativeDiscriminantMisses(s: Sphere, ray: Ray, t: real)
    requires CoefB(s, ray) * CoefB(s, ray) - 4.0 * CoefA(ray) * CoefC(s, ray) < 0.0
    ensures SphereGap(s, ray, t) > 0.0
  {
    GapIsQuadratic(s, ray, t);
    CoefANonNegative(ray);
    QuadraticPositive(CoefA(ray), CoefB(s, ray), CoefC(s, ray), t);
  }

  /** A quadratic with a non-negative leading coefficient and a negative
      discriminant is positive everywhere. */
  lemma QuadraticPositive(a: real, b: real, c: real, t: real)
    requires 0.0 <= a && b * b - 4.0 * a * c < 0.0
    ensures Quadratic(a, b, c, t) > 0.0
  {
    assert a != 0.0;
    var w := 2.0 * a * t + b;
    SquareNonNegative(w);
    // 4a(a t^2 + b t + c) = (2 a t + b)^2 + (4ac - b^2)
    assert 4.0 * a * Quadratic(a, b, c, t) == w * w + (4.0 * a * c - b * b);
    if Quadratic(a, b, c, t) <= 0.0 {
      MulNonNegative(4.0 * a, -Quadratic(a, b, c, t));
    }
  }

  // ------------------------------------------------------------------- box

  /** A float as IEEE arithmetic leaves it after a division by zero. */
  datatype Ext = Fin(v: real) | PosInf | NegInf | NaN

  /** IEEE `a > b`: false whenever either side is NaN. */
  predicate Above(a: Ext, b: Ext) {
    match a
    case NaN => false
    case NegInf => false
    case PosInf => b.Fin? || b.NegInf?
    case Fin(p) => b.NegInf? || (b.Fin? && p > b.v)
  }

  /** 1 / d, with a zero component read as +0, whose reciprocal is +infinity. */
  function Reciprocal(d: real): Ext { if d == 0.0 then PosInf else Fin(1.0 / d) }

  /** The finite a times e, where 0 times an infinity is NaN. */
  function Times(a: real, e: Ext): Ext {
    match e
    case Fin(v) => Fin(a * v)
    case NaN => NaN
    case PosInf => if a > 0.0 then PosInf else if a < 0.0 then NegInf else NaN
    case NegInf => if a > 0.0 then NegInf else if a < 0.0 then PosInf else NaN
  }

  /** Outcome of Box::intersect. A NaN entry distance passes the range test
      (every comparison with NaN is false) and is reported as a hit; the
      callers' `t < tMin` and shadow tests then ignore it. */
  datatype BoxHit = BoxMiss | BoxHitAt(t: real, normal: Vector3) | BoxHitNaN

  /** Entering and leaving parameters of one slab, in increasing order. */
  function Slab(lo: real, hi: real, o: real, inv: Ext): (Ext, Ext) {
    var near := Times(lo - o, inv);
    var far := Times(hi - o, inv);
    if Above(near, far) then (far, near) else (near, far)
  }

  /** The six faces of a box, and the outward normal of each. */
  datatype Face = XMin | XMax | YMin | YMax | ZMin | ZMax

  function Outward(f: Face): Vector3 {
    match f
    case XMin => Vector3(-1.0, 0.0, 0.0)
    case XMax => Vector3(1.0, 0.0, 0.0)
    case YMin => Vector3(0.0, -1.0, 0.0)
    case YMax => Vector3(0.0, 1.0, 0.0)
    case ZMin => Vector3(0.0, 0.0, -1.0)
    case ZMax => Vector3(0.0, 0.0, 1.0)
  }

  /** Distance of the point p from the plane of face f. */
  function FaceGap(b: Box, p: Vector3, f: Face): real {
    match f
    case XMin => Abs(p.x - b.min.x)
    case XMax => Abs(p.x - b.max.x)
    case YMin => Abs(p.y - b.min.y)
    case YMax => Abs(p.y - b.max.y)
    case ZMin => Abs(p.z - b.min.z)
    case ZMax => Abs(p.z - b.max.z)
  }

  /** The face tests of Box::intersect, in source order: a face is chosen
      only when p is within 0.001 of its plane and the direction d has a
      positive component along its outward normal. */
  function FaceNormal(b: Box, p: Vector3, d: Vector3): Option<Vector3> {
    if Abs(p.x - b.min.x) < HitEpsilon && d.x < 0.0 then Some(Outward(XMin))
    else if Abs(p.x - b.max.x) < HitEpsilon && d.x > 0.0 then Some(Outward(XMax))
    else if Abs(p.y - b.min.y) < HitEpsilon && d.y < 0.0 then Some(Outward(YMin))
    else if Abs(p.y - b.max.y) < HitEpsilon && d.y > 0.0 then Some(Outward(YMax))
    else if Abs(p.z - b.min.z) < HitEpsilon && d.z < 0.0 then Some(Outward(ZMin))
    else if Abs(p.z - b.max.z) < HitEpsilon && d.z > 0.0 then Some(Outward(ZMax))
    else None
  }

  /** The normal Box::intersect reports at parameter t: the face normal when
      a face test fires, otherwise the direction from the centre to the hit. */
  function BoxNormal(m: Libm, b: Box, ray: Ray, t: real): Vector3 {
    var p := ray.At(t);
    match FaceNormal(b, p, ray.direction)
    case Some(n) => n
    case None => p.Sub(b.Center()).Normalize(m)
  }

  /** The slab narrowing of Box::intersect, in source order, with IEEE
      infinities and NaN where a direction component is zero: None when two
      slab intervals are found disjoint, otherwise the entry distance. */
  function SlabEntry(b: Box, ray: Ray): Option<Ext> {
    var (xNear, xFar) := Slab(b.min.x, b.max.x, ray.origin.x, Reciprocal(ray.direction.x));
    var (yNear, yFar) := Slab(b.min.y, b.max.y, ray.origin.y, Reciprocal(ray.direction.y));
    if Above(xNear, yFar) || Above(yNear, xFar) then None
    else
      var near := if Above(yNear, xNear) then yNear else xNear;
      var far := if Above(xFar, yFar) then yFar else xFar;
      var (zNear, zFar) := Slab(b.min.z, b.max.z, ray.origin.z, Reciprocal(ray.direction.z));
      if Above(near, zFar) || Above(zNear, far) then None
      else Some(if Above(zNear, near) then zNear else near)
  }

  /** Box::intersect as a value: the entry distance must be a number in
      [0.001, 1000]; NaN passes the range test. */
  function BoxTest(m: Libm, b: Box, ray: Ray): (r: BoxHit)
    ensures r.BoxHitAt? ==> HitEpsilon <= r.t <= 1000.0
    ensures SlabEntry(b, ray).None? ==> r.BoxMiss?
  {
    match SlabEntry(b, ray)
    case None => BoxMiss
    case Some(NaN) => BoxHitNaN
    case Some(PosInf) => BoxMiss
    case Some(NegInf) => BoxMiss
    case Some(Fin(t)) =>
      if t < HitEpsilon || t > 1000.0 then BoxMiss
      else BoxHitAt(t, BoxNormal(m, b, ray, t))
  }

  /** Box::intersect. */
  method BoxIntersect(m: Libm, b: Box, ray: Ray) returns (r: BoxHit)
    requires Lawful(m)
    ensures r == BoxTest(m, b, ray)
  {
    var entry := NarrowSlabs(b, ray);
    if entry.None? {
      return BoxMiss;
    }
    var tMin := entry.value;
    if tMin.NaN? {
      return BoxHitNaN;
    }
    if !tMin.Fin? || tMin.v < HitEpsilon || tMin.v > 1000.0 {
      return BoxMiss;
    }
    var t := tMin.v;
    var normal := HitNormal(m, b, ray, t);
    r := BoxHitAt(t, normal);
  }

  /** The narrowing of tMin and tMax over the three slabs. */
  method NarrowSlabs(b: Box, ray: Ray) returns (entry: Option<Ext>)
    ensures entry == SlabEntry(b, ray)
  {
    var invX := Reciprocal(ray.direction.x);
    var invY := Reciprocal(ray.direction.y);
    var invZ := Reciprocal(ray.direction.z);
    var tMin := Times(b.min.x - ray.origin.x, invX);
    var tMax := Times(b.max.x - ray.origin.x, invX);
    if Above(tMin, tMax) {
      tMin, tMax := tMax, tMin;
    }
    var tyMin := Times(b.min.y - ray.origin.y, invY);
    var tyMax := Times(b.max.y - ray.origin.y, invY);
    if Above(tyMin, tyMax) {
      tyMin, tyMax := tyMax, tyMin;
    }
    if Above(tMin, tyMax) || Above(tyMin, tMax) {
      return None;
    }
    if Above(tyMin, tMin) {
      tMin := tyMin;
    }
    if Above(tMax, tyMax) {
      tMax := tyMax;
    }
    var tzMin := Times(b.min.z - ray.origin.z, invZ);
    var tzMax := Times(b.max.z - ray.origin.z, invZ);
    if Above(tzMin, tzMax) {
      tzMin, tzMax := tzMax, tzMin;
    }
    if Above(tMin, tzMax) || Above(tzMin, tMax) {
      return None;
    }
    if Above(tzMin, tMin) {
      tMin := tzMin;
    }
    return Some(tMin);
  }

  /** The face tests and the fallback normal at the hit point. */
  method HitNormal(m: Libm, b: Box, ray: Ray, t: real) returns (normal: Vector3)
    requires Lawful(m)
    ensures normal == BoxNormal(m, b, ray, t)
  {
    var hitPoint := ray.At(t);
    var d := ray.direction;
    ghost var face := FaceNormal(b, hitPoint, d);
    FaceNormalNonzero(m, b, hitPoint, d);
    LengthZero(m, Zero);
    normal := Zero;
    if Abs(hitPoint.x - b.min.x) < HitEpsilon && d.x < 0.0 {
      normal := Vector3(-1.0, 0.0, 0.0);
      assert face == Some(normal);
    } else if Abs(hitPoint.x - b.max.x) < HitEpsilon && d.x > 0.0 {
      normal := Vector3(1.0, 0.0, 0.0);
      assert face == Some(normal);
    } else if Abs(hitPoint.y - b.min.y) < HitEpsilon && d.y < 0.0 {
      normal := Vector3(0.0, -1.0, 0.0);
      assert face == Some(normal);
    } else if Abs(hitPoint.y - b.max.y) < HitEpsilon && d.y > 0.0 {
      normal := Vector3(0.0, 1.0, 0.0);
      assert face == Some(normal);
    } else if Abs(hitPoint.z - b.min.z) < HitEpsilon && d.z < 0.0 {
      normal := Vector3(0.0, 0.0, -1.0);
      assert face == Some(normal);
    } else if Abs(hitPoint.z - b.max.z) < HitEpsilon && d.z > 0.0 {
      normal := Vector3(0.0, 0.0, 1.0);
      assert face == Some(normal);
    }
    assert face.Some? ==> normal == face.value;
    assert face.None? ==> normal == Zero;
    if normal.Length(m) == 0.0 {
      normal := hitPoint.Sub(b.Center()).Normalize(m);
    }
  }

  /** Every face normal is a unit axis vector, so its length is never zero
      and the fallback after the face tests runs only when no test fired. */
  lemma FaceNormalNonzero(m: Libm, b: Box, p: Vector3, d: Vector3)
    requires Lawful(m)
    ensures FaceNormal(b, p, d).Some? ==> FaceNormal(b, p, d).value.Length(m) != 0.0
  {
    if FaceNormal(b, p, d).Some? {
      var n := FaceNormal(b, p, d).value;
      assert n.SquaredLength() == 1.0;
      LengthZero(m, n);
    }
  }

  /** Entering and leaving parameters of a slab crossed by a nonzero
      direction component. */
  function Enter(lo: real, hi: real, o: real, d: real): real
    requires d != 0.0
  {
    Min((lo - o) / d, (hi - o) / d)
  }

  function Leave(lo: real, hi: real, o: real, d: real): real
    requires d != 0.0
  {
    Max((lo - o) / d, (hi - o) / d)
  }

  lemma SlabFinite(lo: real, hi: real, o: real, d: real)
    requires d != 0.0
    ensures Slab(lo, hi, o, Reciprocal(d)) == (Fin(Enter(lo, hi, o, d)), Fin(Leave(lo, hi, o, d)))
  {
    var near, far := (lo - o) / d, (hi - o) / d;
    assert Times(lo - o, Reciprocal(d)) == Fin(near);
    assert Times(hi - o, Reciprocal(d)) == Fin(far);
    if near > far {
      assert Slab(lo, hi, o, Reciprocal(d)) == (Fin(far), Fin(near));
    } else {
      assert Slab(lo, hi, o, Reciprocal(d)) == (Fin(near), Fin(far));
    }
  }

  /** The textbook slab method: when no direction component is zero, the box
      is hit exactly when the latest slab entry comes no later than the
      earliest slab exit and lies in [0.001, 1000], and the hit is at that
      entry. In particular disjoint slab intervals give a miss. */
  lemma BoxTestIsSlabIntersection(m: Libm, b: Box, ray: Ray)
    requires ray.direction.x != 0.0 && ray.direction.y != 0.0 && ray.direction.z != 0.0
    ensures
      var o, d := ray.origin, ray.direction;
      var enter := Max(Max(Enter(b.min.x, b.max.x, o.x, d.x), Enter(b.min.y, b.max.y, o.y, d.y)),
                       Enter(b.min.z, b.max.z, o.z, d.z));
      var leave := Min(Min(Leave(b.min.x, b.max.x, o.x, d.x), Leave(b.min.y, b.max.y, o.y, d.y)),
                       Leave(b.min.z, b.max.z, o.z, d.z));
      BoxTest(m, b, ray)
        == if enter <= leave && HitEpsilon <= enter <= 1000.0
           then BoxHitAt(enter, BoxNormal(m, b, ray, enter))
           else BoxMiss
  {
    var o, d := ray.origin, ray.direction;
    SlabFinite(b.min.x, b.max.x, o.x, d.x);
    SlabFinite(b.min.y, b.max.y, o.y, d.y);
    SlabFinite(b.min.z, b.max.z, o.z, d.z);
  }

  /** A face test fires only for a face the ray is leaving: the chosen
      normal is a unit axis vector with a positive component along d. */
  lemma FaceNormalOutward(b: Box, p: Vector3, d: Vector3)
    requires FaceNormal(b, p, d).Some?
    ensures FaceNormal(b, p, d).value.Dot(d) > 0.0
    ensures FaceNormal(b, p, d).value.SquaredLength() == 1.0
    ensures exists f :: FaceNormal(b, p, d).value == Outward(f) && FaceGap(b, p, f) < HitEpsilon
  {
    if Abs(p.x - b.min.x) < HitEpsilon && d.x < 0.0 {
      assert FaceGap(b, p, XMin) < HitEpsilon;
    } else if Abs(p.x - b.max.x) < HitEpsilon && d.x > 0.0 {
      assert FaceGap(b, p, XMax) < HitEpsilon;
    } else if Abs(p.y - b.min.y) < HitEpsilon && d.y < 0.0 {
      assert FaceGap(b, p, YMin) < HitEpsilon;
    } else if Abs(p.y - b.max.y) < HitEpsilon && d.y > 0.0 {
      assert FaceGap(b, p, YMax) < HitEpsilon;
    } else if Abs(p.z - b.min.z) < HitEpsilon && d.z < 0.0 {
      assert FaceGap(b, p, ZMin) < HitEpsilon;
    } else {
      assert FaceGap(b, p, ZMax) < HitEpsilon;
    }
  }

  /** The box-normal quirk: a hit that lies within 0.001 of one face only,
      where the ray is moving into the box (or along the face), gets the
      centre-to-hit fallback normal rather than that face's normal. */
  lemma EntryHitGetsFallbackNormal(m: Libm, b: Box, ray: Ray, f: Face)
    requires BoxTest(m, b, ray).BoxHitAt?
    requires var p := ray.At(BoxTest(m, b, ray).t);
             FaceGap(b, p, f) < HitEpsilon && ray.direction.Dot(Outward(f)) <= 0.0
             && forall g :: g != f ==> FaceGap(b, p, g) >= HitEpsilon
    ensures var p := ray.At(BoxTest(m, b, ray).t);
            BoxTest(m, b, ray).normal == p.Sub(b.Center()).Normalize(m)
  {
    var p := ray.At(BoxTest(m, b, ray).t);
    assert FaceGap(b, p, XMin) == Abs(p.x - b.min.x);
    assert FaceGap(b, p, XMax) == Abs(p.x - b.max.x);
    assert FaceGap(b, p, YMin) == Abs(p.y - b.min.y);
    assert FaceGap(b, p, YMax) == Abs(p.y - b.max.y);
    assert FaceGap(b, p, ZMin) == Abs(p.z - b.min.z);
    assert FaceGap(b, p, ZMax) == Abs(p.z - b.max.z);
    assert FaceNormal(b, p, ray.direction).None?;
  }

  // ----------------------------------------------------------------- plane

  /** Scene::planeIntersect: the infinite plane through point with the given
      normal; rays within 0.001 of parallel miss. */
  function PlaneIntersect(ray: Ray, point: Vector3, normal: Vector3): (r: Option<real>)
    ensures Abs(normal.Dot(ray.direction)) <= HitEpsilon ==> r.None?
    ensures r.Some? ==> r.value > HitEpsilon
  {
    var denom := normal.Dot(ray.direction);
    if Abs(denom) > HitEpsilon then
      var t := point.Sub(ray.origin).Dot(normal) / denom;
      if t > HitEpsilon then Some(t) else None
    else None
  }

  /** Signed offset from the plane (scaled by |normal|) of the ray point at s. */
  function PlaneOffset(ray: Ray, point: Vector3, normal: Vector3, s: real): real {
    ray.At(s).Sub(point).Dot(normal)
  }

  lemma PlaneOffsetLinear(ray: Ray, point: Vector3, normal: Vector3, s: real)
    ensures PlaneOffset(ray, point, normal, s)
         == s * normal.Dot(ray.direction) - point.Sub(ray.origin).Dot(normal)
  {
    var o, d, n := ray.origin, ray.direction, normal;
    assert ray.At(s).Sub(point)
        == Vector3(o.x - point.x + d.x * s, o.y - point.y + d.y * s, o.z - point.z + d.z * s);
  }

  /** A reported plane hit lies on the plane, and any point of the ray on
      the plane beyond 0.001 is that hit (it is the only one). */
  lemma PlaneHitOnPlane(ray: Ray, point: Vector3, normal: Vector3, t': real)
    requires Abs(normal.Dot(ray.direction)) > HitEpsilon
    ensures PlaneIntersect(ray, point, normal).Some? ==>
              PlaneOffset(ray, point, normal, PlaneIntersect(ray, point, normal).value) == 0.0
    ensures t' > HitEpsilon && PlaneOffset(ray, point, normal, t') == 0.0 ==>
              PlaneIntersect(ray, point, normal) == Some(t')
  {
    var denom := normal.Dot(ray.direction);
    var k := point.Sub(ray.origin).Dot(normal);
    assert PlaneIntersect(ray, point, normal)
        == if k / denom > HitEpsilon then Some(k / denom) else None;
    PlaneOffsetLinear(ray, point, normal, k / denom);
    PlaneOffsetLinear(ray, point, normal, t');
    UniqueRoot(denom, k, t');
  }

  /** The root of s * a - k for a nonzero a: k / a is one, and it is the
      only one. */
  lemma UniqueRoot(a: real, k: real, s: real)
    requires a != 0.0
    ensures (k / a) * a - k == 0.0
    ensures s * a - k == 0.0 ==> s == k / a
  {
    if s * a - k == 0.0 {
      assert (s - k / a) * a == 0.0;
      ZeroProduct(s - k / a, a);
    }
  }
}
