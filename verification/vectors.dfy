/** Vector3 and Ray of the ray tracer (lab4): value types whose operators
    all return new values. */
module Vectors {
  import opened RealMath

  datatype Vector3 = Vector3(x: real, y: real, z: real) {

    function Add(v: Vector3): Vector3 { Vector3(x + v.x, y + v.y, z + v.z) }

    function Sub(v: Vector3): Vector3 { Vector3(x - v.x, y - v.y, z - v.z) }

    /** Vector times scalar (both operand orders of the source). */
    function Scale(s: real): Vector3 { Vector3(x * s, y * s, z * s) }

    /** Component-wise product, used to tint colours. */
    function Mul(v: Vector3): Vector3 { Vector3(x * v.x, y * v.y, z * v.z) }

    function Dot(v: Vector3): real { x * v.x + y * v.y + z * v.z }

    function Cross(v: Vector3): Vector3 {
      Vector3(y * v.z - z * v.y, z * v.x - x * v.z, x * v.y - y * v.x)
    }

    function SquaredLength(): real { x * x + y * y + z * z }

    function Length(m: Libm): real { m.sqrt(SquaredLength()) }

    /** Unit vector along this one; the zero vector is returned unchanged
        so that nothing is divided by zero. */
    function Normalize(m: Libm): Vector3 {
      var len := Length(m);
      if len > 0.0 then Scale(1.0 / len) else this
    }
  }

  const Zero := Vector3(0.0, 0.0, 0.0)

  /** A half-line: the direction is normalized when the ray is built. */
  datatype Ray = Ray(origin: Vector3, direction: Vector3) {
    /** The point origin + direction * t. */
    function At(t: real): Vector3 { origin.Add(direction.Scale(t)) }
  }

  /** The Ray constructor: stores the normalized direction. */
  function MakeRay(m: Libm, o: Vector3, d: Vector3): (r: Ray)
    requires Lawful(m)
    ensures r.origin == o
    ensures d.SquaredLength() == 0.0 ==> r.direction == d
    ensures d.SquaredLength() > 0.0 ==>
      r.direction.SquaredLength() == 1.0 && r.direction.Dot(d) == d.Length(m)
  {
    NormalizeZero(m, d);
    NormalizeUnit(m, d);
    Ray(o, d.Normalize(m))
  }

  /** Length is zero exactly for the zero vector's squared length. */
  lemma LengthZero(m: Libm, v: Vector3)
    requires Lawful(m)
    ensures v.Length(m) == 0.0 <==> v.SquaredLength() == 0.0
  {
    var s := v.SquaredLength();
    SquareNonNegative(v.x);
    SquareNonNegative(v.y);
    SquareNonNegative(v.z);
    if s == 0.0 {
      SqrtZero(m);
    } else {
      SqrtPositive(m, s);
    }
  }

  /** Normalizing a zero-length vector gives it back unchanged. */
  lemma NormalizeZero(m: Libm, v: Vector3)
    requires Lawful(m)
    ensures v.SquaredLength() == 0.0 ==> v.Normalize(m) == v
  {
    if v.SquaredLength() == 0.0 {
      SqrtZero(m);
    }
  }

  /** A vector of positive length normalizes to a unit vector pointing the
      same way: its dot product with the input is the input's length. */
  lemma NormalizeUnit(m: Libm, v: Vector3)
    requires Lawful(m)
    ensures v.SquaredLength() > 0.0 ==>
      v.Normalize(m).SquaredLength() == 1.0 && v.Normalize(m).Dot(v) == v.Length(m)
  {
    var s := v.SquaredLength();
    if s > 0.0 {
      var len := v.Length(m);
      SqrtPositive(m, s);
      assert len * len == s;
      var k := 1.0 / len;
      assert k * len == 1.0;
      var r := v.Normalize(m);
      assert r == Vector3(v.x * k, v.y * k, v.z * k);
      calc {
        r.SquaredLength();
        (v.x * k) * (v.x * k) + (v.y * k) * (v.y * k) + (v.z * k) * (v.z * k);
        (k * k) * s;
        (k * k) * (len * len);
        (k * len) * (k * len);
        1.0;
      }
      calc {
        r.Dot(v);
        (v.x * k) * v.x + (v.y * k) * v.y + (v.z * k) * v.z;
        k * s;
        k * (len * len);
        (k * len) * len;
        len;
      }
    }
  }

  /** The cross product is perpendicular to both of its operands. */
  lemma CrossPerpendicular(a: Vector3, b: Vector3)
    ensures a.Cross(b).Dot(a) == 0.0 && a.Cross(b).Dot(b) == 0.0
  {
  }

  /** Normalizing either side keeps a dot product at zero: normalization
      only rescales. */
  lemma NormalizeKeepsPerpendicular(m: Libm, a: Vector3, b: Vector3)
    requires a.Dot(b) == 0.0
    ensures a.Normalize(m).Dot(b) == 0.0 && b.Dot(a.Normalize(m)) == 0.0
  {
    var len := a.Length(m);
    if len > 0.0 {
      var k := 1.0 / len;
      assert a.Normalize(m).Dot(b) == k * a.Dot(b);
    }
  }

  /** A vector of length k > 0 normalizes to itself divided by k. */
  lemma NormalizeKnownLength(m: Libm, v: Vector3, k: real)
    requires Lawful(m) && 0.0 < k && v.SquaredLength() == k * k
    ensures v.Normalize(m) == v.Scale(1.0 / k)
  {
    SqrtOfSquare(m, k);
  }

  /** Normalizing twice is normalizing once: the Ray constructor may
      normalize a direction that is already a unit vector. */
  lemma NormalizeIdempotent(m: Libm, v: Vector3)
    requires Lawful(m)
    ensures v.Normalize(m).Normalize(m) == v.Normalize(m)
  {
    var n := v.Normalize(m);
    if v.SquaredLength() == 0.0 {
      NormalizeZero(m, v);
      NormalizeZero(m, n);
    } else {
      NormalizeUnit(m, v);
      NormalizeKnownLength(m, n, 1.0);
      assert n.Scale(1.0 / 1.0) == n;
    }
  }
}
