/** `Vector4f` of fvector.hpp: a four-component vector with the same
    operators as `Vector3f`, plus the two members whose behaviour differs:
    `cross` looks only at the first three components and returns `w = 1`,
    and `normalize` works on its argument, not on the receiver. The rows of
    a matrix (module `Matrices`) are values of this type. */
module Vector4 {
  import opened Scalars
  import Vector3

  datatype Vec4 = Vec4(x: real, y: real, z: real, w: real)

  /** `Vector4f()`: every component zero. */
  const Zero := Vec4(0.0, 0.0, 0.0, 0.0)

  /** The first three components, as a `Vector3f`. */
  function Xyz(v: Vec4): Vector3.Vec3 {
    Vector3.Vec3(v.x, v.y, v.z)
  }

  /** `v[i]`, reading `content[i]`. */
  function Get(v: Vec4, i: int): real
    requires 0 <= i < 4
  {
    if i == 0 then v.x else if i == 1 then v.y else if i == 2 then v.z else v.w
  }

  /** `v[i] = c`, writing through the reference `operator []` returns. */
  function Set(v: Vec4, i: int, c: real): (r: Vec4)
    requires 0 <= i < 4
    ensures Get(r, i) == c
    ensures forall j :: 0 <= j < 4 && j != i ==> Get(r, j) == Get(v, j)
  {
    if i == 0 then v.(x := c)
    else if i == 1 then v.(y := c)
    else if i == 2 then v.(z := c)
    else v.(w := c)
  }

  /** Unary `-v`. */
  function Neg(v: Vec4): (r: Vec4)
    ensures Add(v, r) == Zero
  {
    Vec4(-v.x, -v.y, -v.z, -v.w)
  }

  /** Binary `v1 + v2`. */
  function Add(v1: Vec4, v2: Vec4): Vec4
  {
    Vec4(v1.x + v2.x, v1.y + v2.y, v1.z + v2.z, v1.w + v2.w)
  }

  /** Binary `v1 - v2`: adding `v2` back gives `v1`. */
  function Sub(v1: Vec4, v2: Vec4): (r: Vec4)
    ensures Add(r, v2) == v1
  {
    Vec4(v1.x - v2.x, v1.y - v2.y, v1.z - v2.z, v1.w - v2.w)
  }

  /** Componentwise `v1 * v2`: its components sum to `v1.dot(v2)`. */
  function MulComponentwise(v1: Vec4, v2: Vec4): (r: Vec4)
    ensures r.x + r.y + r.z + r.w == Dot(v1, v2)
  {
    Vec4(v1.x * v2.x, v1.y * v2.y, v1.z * v2.z, v1.w * v2.w)
  }

  /** `s * v`: its dot product with any `u` is `s` times that of `v`. */
  function Scale(s: real, v: Vec4): (r: Vec4)
    ensures forall u :: Dot(u, r) == s * Dot(u, v)
  {
    Vec4(s * v.x, s * v.y, s * v.z, s * v.w)
  }

  /** `v * s`, which the source forwards to `s * v`. */
  function ScaleRight(v: Vec4, s: real): (r: Vec4)
    ensures s != 0.0 ==> Div(r, s) == v
  {
    Scale(s, v)
  }

  /** `v / s`, computed as `(1 / s) * v`: scaling the result by `s` gives `v` back. */
  function Div(v: Vec4, s: real): (r: Vec4)
    requires s != 0.0
    ensures Scale(s, r) == v
  {
    Scale(1.0 / s, v)
  }

  /** `self += v`, one component at a time. */
  function AddAssign(self: Vec4, v: Vec4): (r: Vec4)
    ensures r == Add(self, v)
  {
    var s0 := Set(self, 0, Get(self, 0) + Get(v, 0));
    var s1 := Set(s0, 1, Get(s0, 1) + Get(v, 1));
    var s2 := Set(s1, 2, Get(s1, 2) + Get(v, 2));
    Set(s2, 3, Get(s2, 3) + Get(v, 3))
  }

  /** `self -= v`, one component at a time. */
  function SubAssign(self: Vec4, v: Vec4): (r: Vec4)
    ensures r == Sub(self, v)
  {
    var s0 := Set(self, 0, Get(self, 0) - Get(v, 0));
    var s1 := Set(s0, 1, Get(s0, 1) - Get(v, 1));
    var s2 := Set(s1, 2, Get(s1, 2) - Get(v, 2));
    Set(s2, 3, Get(s2, 3) - Get(v, 3))
  }

  /** `self *= s`, one component at a time. */
  function ScaleAssign(self: Vec4, s: real): (r: Vec4)
    ensures r == Scale(s, self)
  {
    var s0 := Set(self, 0, Get(self, 0) * s);
    var s1 := Set(s0, 1, Get(s0, 1) * s);
    var s2 := Set(s1, 2, Get(s1, 2) * s);
    Set(s2, 3, Get(s2, 3) * s)
  }

  /** `self /= s`, forwarded to `self *= 1 / s`. */
  function DivAssign(self: Vec4, s: real): (r: Vec4)
    requires s != 0.0
    ensures r == Div(self, s)
  {
    ScaleAssign(self, 1.0 / s)
  }

  /** `v1.dot(v2)`. */
  function Dot(v1: Vec4, v2: Vec4): real
  {
    v1.x * v2.x + v1.y * v2.y + v1.z * v2.z + v1.w * v2.w
  }

  /** `v1.cross(v2)`: the three-dimensional cross product of the first
      three components, whatever the `w` components are, with `w = 1`. */
  function Cross(v1: Vec4, v2: Vec4): (r: Vec4)
    ensures Xyz(r) == Vector3.Cross(Xyz(v1), Xyz(v2))
    ensures r.w == 1.0
  {
    Vec4(v1.y * v2.z - v1.z * v2.y,
         v1.z * v2.x - v1.x * v2.z,
         v1.x * v2.y - v1.y * v2.x,
         1.0)
  }

  /** `v.length()`: under the square-root axioms, the non-negative number
      whose square is `v.dot(v)`. */
  function Length(m: MathFns, v: Vec4): (r: real)
    ensures Lawful(m) ==> 0.0 <= r && r * r == Dot(v, v)
  {
    m.sqrt(v.x * v.x + v.y * v.y + v.z * v.z + v.w * v.w)
  }

  /** `self.normalize(v)`, that is `v / v.length()`; the receiver `self` is
      not read. The result is a unit vector which, scaled by the length of
      `v`, gives `v` back. A non-zero length is the caller's obligation. */
  function Normalize(m: MathFns, self: Vec4, v: Vec4): (r: Vec4)
    requires Length(m, v) != 0.0
    ensures Scale(Length(m, v), r) == v
    ensures Lawful(m) ==> Length(m, r) == 1.0 && 0.0 < Dot(v, r)
  {
    NormalizeIsUnit(m, v);
    Div(v, Length(m, v))
  }

  /** The proof obligations of `Normalize` under the axioms. */
  lemma NormalizeIsUnit(m: MathFns, v: Vec4)
    requires Length(m, v) != 0.0
    ensures Lawful(m) ==> Length(m, Div(v, Length(m, v))) == 1.0
    ensures Lawful(m) ==> 0.0 < Dot(v, Div(v, Length(m, v)))
  {
    if !Lawful(m) {
      return;
    }
    var len := Length(m, v);
    var d := Dot(v, v);
    var k := 1.0 / len;
    var r := Div(v, len);
    assert 0.0 < len && len * len == d;
    assert k * len == 1.0;
    assert r == Vec4(k * v.x, k * v.y, k * v.z, k * v.w);
    assert Dot(r, r) == (k * k) * d;
    assert (k * k) * d == (k * len) * (k * len);
    assert Dot(r, r) == 1.0;
    assert Length(m, r) == m.sqrt(Dot(r, r));
    SqrtOne(m);
    assert Dot(v, r) == k * d;
    MulPositive(k, d);
  }

  /** `Vector4f::normalize` depends only on its argument: two receivers give
      the same result. */
  lemma NormalizeIgnoresReceiver(m: MathFns, a: Vec4, b: Vec4, v: Vec4)
    requires Length(m, v) != 0.0
    ensures Normalize(m, a, v) == Normalize(m, b, v)
  {
  }

  /** `Vector4f::cross` ignores both `w` components. */
  lemma CrossIgnoresW(v1: Vec4, v2: Vec4, w1: real, w2: real)
    ensures Cross(v1, v2) == Cross(v1.(w := w1), v2.(w := w2))
  {
  }

  /** `a.dot(b) == b.dot(a)`. */
  lemma DotCommutes(a: Vec4, b: Vec4)
    ensures Dot(a, b) == Dot(b, a)
  {
  }

  /** `(v + w) - w == v` and `-(-v) == v`. */
  lemma AddSubNegInverses(v: Vec4, w: Vec4)
    ensures Sub(Add(v, w), w) == v
    ensures Neg(Neg(v)) == v
  {
  }

  /** `v / s` is `(1 / s) * v`, and `v * s` is `s * v`. */
  lemma DivIsReciprocalScale(v: Vec4, s: real)
    requires s != 0.0
    ensures Div(v, s) == Scale(1.0 / s, v)
    ensures ScaleRight(v, s) == Scale(s, v)
  {
  }

  /** Componentwise multiplication commutes, and multiplying by
      `(s, s, s, s)` is scaling by `s`. */
  lemma MulProperties(v: Vec4, w: Vec4, s: real)
    ensures MulComponentwise(v, w) == MulComponentwise(w, v)
    ensures MulComponentwise(v, Vec4(s, s, s, s)) == Scale(s, v)
  {
  }

  /** Addition commutes, and the dot product with any `u` distributes over it. */
  lemma AddLaws(u: Vec4, v1: Vec4, v2: Vec4)
    ensures Add(v1, v2) == Add(v2, v1)
    ensures Dot(u, Add(v1, v2)) == Dot(u, v1) + Dot(u, v2)
  {
  }

  /** A vector's dot product with itself is never negative. */
  lemma DotSelfNonNegative(v: Vec4)
    ensures 0.0 <= Dot(v, v)
  {
    SquareNonNegative(v.x);
    SquareNonNegative(v.y);
    SquareNonNegative(v.z);
    SquareNonNegative(v.w);
  }
}
