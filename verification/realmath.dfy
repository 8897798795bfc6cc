/** The C math library as the ray tracer uses it.
    sqrt, pow, sin and tan are not computed by the model: they are function
    values passed in, and `Lawful` states the only facts about them that the
    proofs use. floor is Dafny's exact `Floor` on `real`. */
module RealMath {

  datatype Libm = Libm(
    sqrt: real -> real,
    pow: (real, real) -> real,
    sin: real -> real,
    tan: real -> real)

  /** What the proofs assume of the math library. */
  ghost predicate Lawful(m: Libm) {
    (forall x :: 0.0 <= x ==> 0.0 <= m.sqrt(x) && m.sqrt(x) * m.sqrt(x) == x)
    && (forall x :: -1.0 <= m.sin(x) <= 1.0)
    && (forall x, k :: 0.0 <= x <= 1.0 && 0.0 <= k ==> 0.0 <= m.pow(x, k) <= 1.0)
  }

  /** M_PI as the sources spell it out. */
  const Pi: real := 3.14159265358979323846

  function Min(a: real, b: real): real { if a < b then a else b }
  function Max(a: real, b: real): real { if a < b then b else a }
  function Abs(a: real): real { if a < 0.0 then -a else a }

  /** std::max(0.0f, std::min(c, 1.0f)) */
  function Clamp01(c: real): (r: real)
    ensures 0.0 <= r <= 1.0
    ensures 0.0 <= c <= 1.0 ==> r == c
    ensures c <= 0.0 ==> r == 0.0
    ensures 1.0 <= c ==> r == 1.0
  {
    Max(0.0, Min(c, 1.0))
  }

  /** C's conversion of a float to an integer type: truncation toward zero. */
  function Trunc(x: real): (n: int)
    ensures 0.0 <= x ==> n as real <= x < n as real + 1.0
    ensures x < 0.0 ==> n as real - 1.0 < x <= n as real
  {
    if 0.0 <= x then x.Floor else -((-x).Floor)
  }

  /** C's `%` on int: the remainder takes the sign of the dividend. */
  function CRem(a: int, b: int): (r: int)
    requires b > 0
    ensures a >= 0 ==> r == a % b
    ensures a < 0 ==> -b < r <= 0
  {
    if a >= 0 then a % b else -((-a) % b)
  }

  /** C's fmod for a positive divisor: x minus the whole multiples of y
      that fit in it, truncating toward zero, so the result keeps the sign
      of x and is smaller than y in magnitude. */
  function FMod(x: real, y: real): (r: real)
    requires 0.0 < y
    ensures 0.0 <= x ==> 0.0 <= r < y
    ensures x < 0.0 ==> -y < r <= 0.0
    ensures 0.0 <= x < y ==> r == x
    ensures y <= x < 2.0 * y ==> r == x - y
  {
    FModBounds(x, y);
    x - y * Trunc(x / y) as real
  }

  lemma FModBounds(x: real, y: real)
    requires 0.0 < y
    ensures var r := x - y * Trunc(x / y) as real;
      (0.0 <= x ==> 0.0 <= r < y) && (x < 0.0 ==> -y < r <= 0.0) && (0.0 <= x < y ==> r == x)
      && (y <= x < 2.0 * y ==> r == x - y)
  {
    var q := x / y;
    var n := Trunc(q) as real;
    assert q * y == x;
    if 0.0 <= x {
      assert 0.0 <= q by {
        if q < 0.0 {
          MulNonNegative(-q, y);
        }
      }
      RemainderBounds(x, y, q, n);
      if x < y {
        assert q < 1.0 by {
          if 1.0 <= q {
            MulNonNegative(q - 1.0, y);
          }
        }
      } else if x < 2.0 * y {
        assert 1.0 <= q < 2.0 by {
          if q < 1.0 {
            MulNonNegative(1.0 - q, y);
          } else if 2.0 <= q {
            MulNonNegative(q - 2.0, y);
          }
        }
      }
    } else {
      assert q < 0.0 by {
        if 0.0 <= q {
          MulNonNegative(q, y);
        }
      }
      RemainderBounds(-x, y, -q, -n);
    }
  }

  /** x = q * y with n the whole part of q: the rest lies in [0, y). */
  lemma RemainderBounds(x: real, y: real, q: real, n: real)
    requires 0.0 < y && q * y == x && n <= q < n + 1.0
    ensures 0.0 <= x - y * n < y
  {
    var f := q - n;
    PartBelow(f, y);
    var r := x - y * n;
    assert r == f * y by {
      assert f * y == q * y - n * y;
    }
  }

  lemma PartBelow(f: real, y: real)
    requires 0.0 <= f < 1.0 && 0.0 < y
    ensures 0.0 <= f * y < y
  {
    MulNonNegative(f, y);
    assert y - f * y == (1.0 - f) * y;
  }

  lemma SquareNonNegative(x: real)
    ensures x * x >= 0.0
  {
    if x < 0.0 {
      assert x * x == (-x) * (-x);
    }
  }

  lemma MulNonNegative(x: real, y: real)
    requires 0.0 <= x && 0.0 <= y
    ensures 0.0 <= x * y
  {
  }

  /** Scaling a nonnegative y by a factor in [0,1] does not increase it. */
  lemma DivBelowOne(a: real, b: real)
    requires 0.0 <= a < b
    ensures 0.0 <= a / b < 1.0
  {
    var q := a / b;
    assert q * b == a;
    MulNonNegative(1.0 / b, a);
    assert (1.0 - q) * b == b - a;
  }

  lemma MulUnit(t: real, y: real)
    requires 0.0 <= t <= 1.0 && 0.0 <= y
    ensures 0.0 <= t * y <= y
  {
    assert y - t * y == (1.0 - t) * y;
    MulNonNegative(1.0 - t, y);
    MulNonNegative(t, y);
  }

  lemma ZeroProduct(x: real, y: real)
    requires x * y == 0.0
    ensures x == 0.0 || y == 0.0
  {
  }

  lemma SqrtZero(m: Libm)
    requires Lawful(m)
    ensures m.sqrt(0.0) == 0.0
  {
    var s := m.sqrt(0.0);
    assert s * s == 0.0;
    ZeroProduct(s, s);
  }

  lemma SqrtPositive(m: Libm, x: real)
    requires Lawful(m) && 0.0 < x
    ensures 0.0 < m.sqrt(x)
  {
    var s := m.sqrt(x);
    assert 0.0 <= s && s * s == x;
    if s == 0.0 {
      assert false;
    }
  }

  /** sqrt undoes squaring on the non-negative reals. */
  lemma SqrtOfSquare(m: Libm, a: real)
    requires Lawful(m) && 0.0 <= a
    ensures m.sqrt(a * a) == a
  {
    SquareNonNegative(a);
    var s := m.sqrt(a * a);
    assert 0.0 <= s && s * s == a * a;
    assert (s - a) * (s + a) == 0.0;
    ZeroProduct(s - a, s + a);
  }
}
