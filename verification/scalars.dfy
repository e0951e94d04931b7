/** Scalar functions the camera code borrows from <cmath> and glm.

    `sqrt`, `sin`, `cos`, `tan` and `glm::radians` are kept abstract: a
    `MathFns` value carries one choice of them, and `Lawful` lists the only
    facts the proofs rely on. `glm::mod` and `glm::clamp` are written out. */
module Scalars {

  /** One interpretation of the transcendental functions used by the programs. */
  datatype MathFns = MathFns(
    sqrt: real -> real,
    sin: real -> real,
    cos: real -> real,
    tan: real -> real,
    radians: real -> real)

  /** The axioms assumed of `m`: the square root is the non-negative root,
      sine and cosine satisfy the Pythagorean identity and take their usual
      values at 0, and zero degrees is zero radians. */
  ghost predicate Lawful(m: MathFns) {
    && (forall x :: 0.0 <= x ==> 0.0 <= m.sqrt(x) && m.sqrt(x) * m.sqrt(x) == x)
    && (forall a :: m.sin(a) * m.sin(a) + m.cos(a) * m.cos(a) == 1.0)
    && m.sin(0.0) == 0.0
    && m.cos(0.0) == 1.0
    && m.radians(0.0) == 0.0
  }

  /** The square root of a square is the non-negative base. */
  lemma SqrtOfSquare(m: MathFns, a: real)
    requires Lawful(m)
    requires 0.0 <= a
    ensures m.sqrt(a * a) == a
  {
    var s := m.sqrt(a * a);
    assert 0.0 <= s && s * s == a * a;
    if s > a {
      SquareLess(a, s);
    } else if s < a {
      SquareLess(s, a);
    }
  }

  /** Squaring is strictly increasing on the non-negative reals. */
  lemma SquareLess(p: real, q: real)
    requires 0.0 <= p < q
    ensures p * p < q * q
  {
    MulPositive(q - p, q + p);
    assert (q - p) * (q + p) == q * q - p * p;
  }

  /** In particular the square root of 1 is 1. */
  lemma SqrtOne(m: MathFns)
    requires Lawful(m)
    ensures m.sqrt(1.0) == 1.0
  {
    SqrtOfSquare(m, 1.0);
  }

  /** The square root of a positive number is positive. */
  lemma SqrtPositive(m: MathFns, x: real)
    requires Lawful(m)
    requires 0.0 < x
    ensures 0.0 < m.sqrt(x)
  {
  }

  /** `d` is an integral multiple of `y`. */
  predicate IsMultipleOf(d: real, y: real)
    requires y != 0.0
  {
    (d / y).Floor as real == d / y
  }

  /** `glm::mod(x, y)`, defined by glm as `x - y * floor(x / y)`. */
  function GlmMod(x: real, y: real): (r: real)
    requires y != 0.0
    ensures 0.0 < y ==> 0.0 <= r < y
    ensures IsMultipleOf(x - r, y)
    ensures 0.0 < y && 0.0 <= x < y ==> r == x
  {
    var q := (x / y).Floor;
    var r := x - y * q as real;
    assert (x - r) / y == q as real;
    if 0.0 < y then FloorTimes(x, y); FloorInUnit(x, y); r else r
  }

  /** For `0 <= x < y`, `floor(x / y)` is 0. */
  lemma FloorInUnit(x: real, y: real)
    requires 0.0 < y
    ensures 0.0 <= x < y ==> (x / y).Floor == 0
  {
    if 0.0 <= x < y {
      var t := x / y;
      assert t * y == x;
      if t < 0.0 {
        MulPositive(-t, y);
        assert false;
      }
      if 1.0 < t {
        MulPositive(t - 1.0, y);
        assert false;
      }
      assert 0.0 <= t < 1.0;
    }
  }

  /** `y * floor(x / y)` is the greatest multiple of a positive `y` not above `x`. */
  lemma FloorTimes(x: real, y: real)
    requires 0.0 < y
    ensures y * (x / y).Floor as real <= x < y * (x / y).Floor as real + y
  {
    var q := (x / y).Floor as real;
    var t := x / y;
    assert t * y == x;
    assert q <= t < q + 1.0;
    MulPositive(q + 1.0 - t, y);
    assert (q + 1.0 - t) * y == y * q + y - x;
    assert x < y * q + y;
    if t == q {
      assert y * q == x;
    } else {
      MulPositive(t - q, y);
      assert (t - q) * y == x - y * q;
    }
  }

  /** The product of two positive numbers is positive. */
  lemma MulPositive(u: real, v: real)
    requires 0.0 < u && 0.0 < v
    ensures 0.0 < u * v
  {
  }

  /** `x * x` is never negative. */
  lemma SquareNonNegative(x: real)
    ensures 0.0 <= x * x
  {
    if x < 0.0 {
      MulPositive(-x, -x);
      assert (-x) * (-x) == x * x;
    }
  }

  /** `glm::clamp(x, lo, hi)`, defined by glm as `min(max(x, lo), hi)`. */
  function Clamp(x: real, lo: real, hi: real): (r: real)
    ensures lo <= hi ==> lo <= r <= hi
    ensures lo <= x <= hi ==> r == x
    ensures x < lo <= hi ==> r == lo
    ensures lo <= hi < x ==> r == hi
  {
    var low := if x < lo then lo else x;
    if hi < low then hi else low
  }
}
