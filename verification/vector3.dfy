/** `Vector3f` of fvector.hpp: a three-component vector with the usual
    operators, over the reals. The camera programs use `glm::vec3`, whose
    `+`, `-`, scalar `*`, `dot`, `cross` and `normalize` agree with these
    definitions over the reals, so the same type serves both. */
module Vector3 {
  import opened Scalars

  datatype Vec3 = Vec3(x: real, y: real, z: real)

  /** `Vector3f()`: every component zero. */
  const Zero := Vec3(0.0, 0.0, 0.0)

  /** `v[i]`, reading `content[i]`. */
  function Get(v: Vec3, i: int): real
    requires 0 <= i < 3
  {
    if i == 0 then v.x else if i == 1 then v.y else v.z
  }

  /** `v[i] = c`, writing through the reference `operator []` returns. */
  function Set(v: Vec3, i: int, c: real): (r: Vec3)
    requires 0 <= i < 3
    ensures Get(r, i) == c
    ensures forall j :: 0 <= j < 3 && j != i ==> Get(r, j) == Get(v, j)
  {
    if i == 0 then v.(x := c) else if i == 1 then v.(y := c) else v.(z := c)
  }

  /** Unary `-v`. */
  function Neg(v: Vec3): (r: Vec3)
    ensures Add(v, r) == Zero
  {
    Vec3(-v.x, -v.y, -v.z)
  }

  /** Binary `v1 + v2`. */
  function Add(v1: Vec3, v2: Vec3): Vec3
  {
    Vec3(v1.x + v2.x, v1.y + v2.y, v1.z + v2.z)
  }

  /** Binary `v1 - v2`: adding `v2` back gives `v1`. */
  function Sub(v1: Vec3, v2: Vec3): (r: Vec3)
    ensures Add(r, v2) == v1
  {
    Vec3(v1.x - v2.x, v1.y - v2.y, v1.z - v2.z)
  }

  /** Componentwise `v1 * v2`: its components sum to `v1.dot(v2)`. */
  function MulComponentwise(v1: Vec3, v2: Vec3): (r: Vec3)
    ensures r.x + r.y + r.z == Dot(v1, v2)
  {
    Vec3(v1.x * v2.x, v1.y * v2.y, v1.z * v2.z)
  }

  /** `s * v`: its dot product with `v` is `s` times the squared length of `v`. */
  function Scale(s: real, v: Vec3): (r: Vec3)
    ensures Dot(v, r) == s * Dot(v, v)
  {
    Vec3(s * v.x, s * v.y, s * v.z)
  }

  /** `v` is `s` times `u`, component by component. */
  predicate IsMultiple(v: Vec3, s: real, u: Vec3) {
    v.x == s * u.x && v.y == s * u.y && v.z == s * u.z
  }

  /** `s * v` is parallel to `v`: their cross product vanishes. */
  lemma ScaleIsParallel(s: real, v: Vec3)
    ensures Cross(v, Scale(s, v)) == Zero
  {
  }

  /** `v * s`, which the source forwards to `s * v`. */
  function ScaleRight(v: Vec3, s: real): (r: Vec3)
    ensures s != 0.0 ==> Div(r, s) == v
  {
    Scale(s, v)
  }

  /** `v / s`, computed as `(1 / s) * v`: scaling the result by `s` gives `v` back. */
  function Div(v: Vec3, s: real): (r: Vec3)
    requires s != 0.0
    ensures Scale(s, r) == v
  {
    Scale(1.0 / s, v)
  }

  /** `self += v`, one component at a time. */
  function AddAssign(self: Vec3, v: Vec3): (r: Vec3)
    ensures r == Add(self, v)
  {
    var s0 := Set(self, 0, Get(self, 0) + Get(v, 0));
    var s1 := Set(s0, 1, Get(s0, 1) + Get(v, 1));
    Set(s1, 2, Get(s1, 2) + Get(v, 2))
  }

  /** `self -= v`, one component at a time. */
  function SubAssign(self: Vec3, v: Vec3): (r: Vec3)
    ensures r == Sub(self, v)
  {
    var s0 := Set(self, 0, Get(self, 0) - Get(v, 0));
    var s1 := Set(s0, 1, Get(s0, 1) - Get(v, 1));
    Set(s1, 2, Get(s1, 2) - Get(v, 2))
  }

  /** `self *= s`, one component at a time. */
  function ScaleAssign(self: Vec3, s: real): (r: Vec3)
    ensures r == Scale(s, self)
  {
    var s0 := Set(self, 0, Get(self, 0) * s);
    var s1 := Set(s0, 1, Get(s0, 1) * s);
    Set(s1, 2, Get(s1, 2) * s)
  }

  /** `self /= s`, forwarded to `self *= 1 / s`. */
  function DivAssign(self: Vec3, s: real): (r: Vec3)
    requires s != 0.0
    ensures r == Div(self, s)
  {
    ScaleAssign(self, 1.0 / s)
  }

  /** `v1.dot(v2)`. */
  function Dot(v1: Vec3, v2: Vec3): real
  {
    v1.x * v2.x + v1.y * v2.y + v1.z * v2.z
  }

  /** `v1.cross(v2)`. */
  function Cross(v1: Vec3, v2: Vec3): Vec3
  {
    Vec3(v1.y * v2.z - v1.z * v2.y,
         v1.z * v2.x - v1.x * v2.z,
         v1.x * v2.y - v1.y * v2.x)
  }

  /** The cross product is orthogonal to both of its arguments. */
  lemma CrossIsOrthogonal(a: Vec3, b: Vec3)
    ensures Dot(a, Cross(a, b)) == 0.0 && Dot(b, Cross(a, b)) == 0.0
  {
  }

  /** `v.length()`: `sqrt(pow(x, 2) + pow(y, 2) + pow(z, 2))`; under the
      square-root axioms it is the non-negative number whose square is `v.dot(v)`. */
  function Length(m: MathFns, v: Vec3): (r: real)
    ensures Lawful(m) ==> 0.0 <= r && r * r == Dot(v, v)
  {
    m.sqrt(Dot(v, v))
  }

  /** `v.normalize()`, that is `v / v.length()`: a unit vector which, scaled
      by the length of `v`, gives `v` back. The source divides by zero for
      the zero vector; here a non-zero length is the caller's obligation. */
  function Normalize(m: MathFns, v: Vec3): (r: Vec3)
    requires Length(m, v) != 0.0
    ensures Scale(Length(m, v), r) == v
    ensures Lawful(m) ==> Length(m, r) == 1.0 && 0.0 < Dot(v, r)
  {
    NormalizeIsUnit(m, v);
    Div(v, Length(m, v))
  }

  /** The proof obligations of `Normalize` under the axioms. */
  lemma NormalizeIsUnit(m: MathFns, v: Vec3)
    requires Length(m, v) != 0.0
    ensures Lawful(m) ==> Length(m, Div(v, Length(m, v))) == 1.0
    ensures Lawful(m) ==> 0.0 < Dot(v, Div(v, Length(m, v)))
  {
    if !Lawful(m) {
      return;
    }
    var len := Length(m, v);
    var d := Dot(v, v);
    var k := 1.0 / len;
    var r := Div(v, len);
    assert 0.0 < len && len * len == d;
    assert k * len == 1.0;
    assert r == Vec3(k * v.x, k * v.y, k * v.z);
    assert Dot(r, r) == (k * k) * d;
    assert (k * k) * d == (k * len) * (k * len);
    assert Dot(r, r) == 1.0;
    assert Length(m, r) == m.sqrt(Dot(r, r));
    SqrtOne(m);
    assert Dot(v, r) == k * d;
    MulPositive(k, d);
  }

  /** A positive multiple of a unit vector has that multiple as its length
      and normalizes back to the unit vector. */
  lemma NormalizeScaledUnit(m: MathFns, s: real, u: Vec3)
    requires Lawful(m)
    requires 0.0 < s && Dot(u, u) == 1.0
    ensures Length(m, Scale(s, u)) == s
    ensures Normalize(m, Scale(s, u)) == u
  {
    var v := Scale(s, u);
    assert (s * u.x) * (s * u.x) == (s * s) * (u.x * u.x);
    assert (s * u.y) * (s * u.y) == (s * s) * (u.y * u.y);
    assert (s * u.z) * (s * u.z) == (s * s) * (u.z * u.z);
    assert Dot(v, v) == s * s;
    assert Length(m, v) == m.sqrt(Dot(v, v));
    SqrtOfSquare(m, s);
    assert Div(v, s) == Scale(1.0 / s, v);
    assert (1.0 / s) * s == 1.0;
  }

  /** A vector that is `s > 0` times `u` and whose `sqrt(v . v)` is `s`
      has length `s` and normalizes to `u`; no axiom is needed. */
  lemma NormalizeKnownMultiple(m: MathFns, v: Vec3, s: real, u: Vec3)
    requires 0.0 < s && m.sqrt(Dot(v, v)) == s && v == Scale(s, u)
    ensures Length(m, v) == s
    ensures Normalize(m, v) == u
  {
    assert Div(v, s) == Scale(1.0 / s, v);
    assert (1.0 / s) * s == 1.0;
  }

  /** `a.cross(b) == -(b.cross(a))`. */
  lemma CrossAnticommutes(a: Vec3, b: Vec3)
    ensures Cross(a, b) == Neg(Cross(b, a))
  {
  }

  /** `a.dot(b) == b.dot(a)`. */
  lemma DotCommutes(a: Vec3, b: Vec3)
    ensures Dot(a, b) == Dot(b, a)
  {
  }

  /** `v.dot(v)` is the square of `v.length()`. */
  lemma DotSelfIsLengthSquared(m: MathFns, v: Vec3)
    requires Lawful(m)
    ensures Dot(v, v) == Length(m, v) * Length(m, v)
  {
  }

  /** `(v + w) - w == v`. */
  lemma AddThenSub(v: Vec3, w: Vec3)
    ensures Sub(Add(v, w), w) == v
  {
  }

  /** `-(-v) == v`. */
  lemma NegNeg(v: Vec3)
    ensures Neg(Neg(v)) == v
  {
  }

  /** `v / s` is `(1 / s) * v`, and `v * s` is `s * v`. */
  lemma DivIsReciprocalScale(v: Vec3, s: real)
    requires s != 0.0
    ensures Div(v, s) == Scale(1.0 / s, v)
    ensures ScaleRight(v, s) == Scale(s, v)
  {
  }

  /** Componentwise multiplication commutes, and multiplying by `(s, s, s)`
      is scaling by `s`. */
  lemma MulProperties(v: Vec3, w: Vec3, s: real)
    ensures MulComponentwise(v, w) == MulComponentwise(w, v)
    ensures MulComponentwise(v, Vec3(s, s, s)) == Scale(s, v)
  {
  }

  /** The dot product is linear in its second argument's scale. */
  lemma DotScale(u: Vec3, s: real, v: Vec3)
    ensures Dot(u, Scale(s, v)) == s * Dot(u, v)
  {
  }

  /** Lagrange's identity: the squared length of `a x b` is
      `|a|^2 |b|^2 - (a . b)^2`. */
  lemma Lagrange(a: Vec3, b: Vec3)
    ensures Dot(Cross(a, b), Cross(a, b)) == Dot(a, a) * Dot(b, b) - Dot(a, b) * Dot(a, b)
  {
  }

  /** The cross product of two orthogonal unit vectors is a unit vector. */
  lemma CrossOfOrthonormal(m: MathFns, a: Vec3, b: Vec3)
    requires Lawful(m)
    requires Length(m, a) == 1.0 && Length(m, b) == 1.0 && Dot(a, b) == 0.0
    ensures Length(m, Cross(a, b)) == 1.0
  {
    Lagrange(a, b);
    assert Dot(a, a) == 1.0 && Dot(b, b) == 1.0;
    SqrtOne(m);
  }

  /** Addition commutes, and the dot product with any `u` distributes over it. */
  lemma AddLaws(u: Vec3, v1: Vec3, v2: Vec3)
    ensures Add(v1, v2) == Add(v2, v1)
    ensures Dot(u, Add(v1, v2)) == Dot(u, v1) + Dot(u, v2)
  {
  }

  /** A vector's dot product with itself is never negative. */
  lemma DotSelfNonNegative(v: Vec3)
    ensures 0.0 <= Dot(v, v)
  {
    SquareNonNegative(v.x);
    SquareNonNegative(v.y);
    SquareNonNegative(v.z);
  }
}
