/** 4x4 matrices, and the way the programs hand them to the shader.

    A `Mat4` is a mathematical matrix held as its four rows; `Apply(a, v)`
    is `a * v` with `v` a column vector, as in the shaders' `g_projection *
    g_view * g_model * vec4(Position, 1.0)`.

    The programs write matrices as `glm::mat4(x0, ..., x15)` with the sixteen
    literals laid out as four written rows. glm fills COLUMNS from those
    scalars, so the glm value is the transpose of the written matrix
    (`GlmMat4`). They are then uploaded with `glUniformMatrix4fv(loc, 1,
    GL_TRUE, glm::value_ptr(m))`: `value_ptr` yields the columns and
    `GL_TRUE` makes GL read them as rows, so the shader sees the transpose of
    the glm value (`UploadTransposed`). The net effect, proved in
    `UploadOfGlmProduct2` and `UploadOfGlmProduct3`, is that the shader sees
    the written rows exactly, and a glm product `a * b * c` of written
    matrices arrives as the reversed product `c * b * a`. */
module Matrices {
  import opened Vector4

  datatype Mat4 = Mat4(r0: Vec4, r1: Vec4, r2: Vec4, r3: Vec4)

  /** Column `j` of `a`. */
  function Column(a: Mat4, j: int): Vec4
    requires 0 <= j < 4
  {
    Vec4(Get(a.r0, j), Get(a.r1, j), Get(a.r2, j), Get(a.r3, j))
  }

  /** Entry `(i, j)` of `a`. */
  function Entry(a: Mat4, i: int, j: int): real
    requires 0 <= i < 4 && 0 <= j < 4
  {
    Get(Row(a, i), j)
  }

  /** Row `i` of `a`. */
  function Row(a: Mat4, i: int): Vec4
    requires 0 <= i < 4
  {
    if i == 0 then a.r0 else if i == 1 then a.r1 else if i == 2 then a.r2 else a.r3
  }

  /** The transpose: rows become columns. */
  function Transpose(a: Mat4): (t: Mat4)
    ensures forall i, j :: 0 <= i < 4 && 0 <= j < 4 ==> Entry(t, i, j) == Entry(a, j, i)
  {
    Mat4(Vec4(a.r0.x, a.r1.x, a.r2.x, a.r3.x),
         Vec4(a.r0.y, a.r1.y, a.r2.y, a.r3.y),
         Vec4(a.r0.z, a.r1.z, a.r2.z, a.r3.z),
         Vec4(a.r0.w, a.r1.w, a.r2.w, a.r3.w))
  }

  /** `a * v` for a column vector `v`: component `i` is row `i` dotted with `v`. */
  function Apply(a: Mat4, v: Vec4): Vec4
  {
    Vec4(Dot(a.r0, v), Dot(a.r1, v), Dot(a.r2, v), Dot(a.r3, v))
  }

  /** `a * b`, the product glm's `operator *` computes on matrices: row `i`
      of the product is row `i` of `a` times `b`. */
  function Mul(a: Mat4, b: Mat4): Mat4
  {
    Mat4(RowTimes(a.r0, b), RowTimes(a.r1, b), RowTimes(a.r2, b), RowTimes(a.r3, b))
  }

  /** Applying a product is applying its factors one after the other, the
      right-hand one first. */
  lemma MulApply(a: Mat4, b: Mat4, v: Vec4)
    ensures Apply(Mul(a, b), v) == Apply(a, Apply(b, v))
  {
    RowTimesApply(a.r0, b, v);
    RowTimesApply(a.r1, b, v);
    RowTimesApply(a.r2, b, v);
    RowTimesApply(a.r3, b, v);
  }

  /** The row vector `u` times the matrix `b`: the combination of `b`'s rows
      with `u`'s components as weights. */
  function RowTimes(u: Vec4, b: Mat4): Vec4
  {
    Vec4(u.x * b.r0.x + u.y * b.r1.x + u.z * b.r2.x + u.w * b.r3.x,
         u.x * b.r0.y + u.y * b.r1.y + u.z * b.r2.y + u.w * b.r3.y,
         u.x * b.r0.z + u.y * b.r1.z + u.z * b.r2.z + u.w * b.r3.z,
         u.x * b.r0.w + u.y * b.r1.w + u.z * b.r2.w + u.w * b.r3.w)
  }

  /** `(u * b) . v == u . (b * v)`: both are the sum of the sixteen
      products `u_i b_ij v_j`. */
  lemma RowTimesApply(u: Vec4, b: Mat4, v: Vec4)
    ensures Dot(RowTimes(u, b), v) == Dot(u, Apply(b, v))
  {
    RowTimesExpanded(u, b, v);
    ApplyExpanded(u, b, v);
  }

  /** `(u * b) . v`, summed column by column. */
  lemma RowTimesExpanded(u: Vec4, b: Mat4, v: Vec4)
    ensures Dot(RowTimes(u, b), v) == u.x * (b.r0.x * v.x) + u.y * (b.r1.x * v.x) + u.z * (b.r2.x * v.x) + u.w * (b.r3.x * v.x) + u.x * (b.r0.y * v.y) + u.y * (b.r1.y * v.y) + u.z * (b.r2.y * v.y) + u.w * (b.r3.y * v.y) + u.x * (b.r0.z * v.z) + u.y * (b.r1.z * v.z) + u.z * (b.r2.z * v.z) + u.w * (b.r3.z * v.z) + u.x * (b.r0.w * v.w) + u.y * (b.r1.w * v.w) + u.z * (b.r2.w * v.w) + u.w * (b.r3.w * v.w)
  {
    SumTimes(u.x, u.y, u.z, u.w, b.r0.x, b.r1.x, b.r2.x, b.r3.x, v.x);
    SumTimes(u.x, u.y, u.z, u.w, b.r0.y, b.r1.y, b.r2.y, b.r3.y, v.y);
    SumTimes(u.x, u.y, u.z, u.w, b.r0.z, b.r1.z, b.r2.z, b.r3.z, v.z);
    SumTimes(u.x, u.y, u.z, u.w, b.r0.w, b.r1.w, b.r2.w, b.r3.w, v.w);
  }

  /** `u . (b * v)`, summed row by row. */
  lemma ApplyExpanded(u: Vec4, b: Mat4, v: Vec4)
    ensures Dot(u, Apply(b, v)) == u.x * (b.r0.x * v.x) + u.x * (b.r0.y * v.y) + u.x * (b.r0.z * v.z) + u.x * (b.r0.w * v.w) + u.y * (b.r1.x * v.x) + u.y * (b.r1.y * v.y) + u.y * (b.r1.z * v.z) + u.y * (b.r1.w * v.w) + u.z * (b.r2.x * v.x) + u.z * (b.r2.y * v.y) + u.z * (b.r2.z * v.z) + u.z * (b.r2.w * v.w) + u.w * (b.r3.x * v.x) + u.w * (b.r3.y * v.y) + u.w * (b.r3.z * v.z) + u.w * (b.r3.w * v.w)
  {
    TimesSum(u.x, b.r0.x, b.r0.y, b.r0.z, b.r0.w, v.x, v.y, v.z, v.w);
    TimesSum(u.y, b.r1.x, b.r1.y, b.r1.z, b.r1.w, v.x, v.y, v.z, v.w);
    TimesSum(u.z, b.r2.x, b.r2.y, b.r2.z, b.r2.w, v.x, v.y, v.z, v.w);
    TimesSum(u.w, b.r3.x, b.r3.y, b.r3.z, b.r3.w, v.x, v.y, v.z, v.w);
  }

  /** `(a0 b0 + a1 b1 + a2 b2 + a3 b3) x`, distributed. */
  lemma SumTimes(a0: real, a1: real, a2: real, a3: real, b0: real, b1: real, b2: real, b3: real, x: real)
    ensures (a0 * b0 + a1 * b1 + a2 * b2 + a3 * b3) * x
         == a0 * (b0 * x) + a1 * (b1 * x) + a2 * (b2 * x) + a3 * (b3 * x)
  {
  }

  /** `a (b0 x0 + b1 x1 + b2 x2 + b3 x3)`, distributed. */
  lemma TimesSum(a: real, b0: real, b1: real, b2: real, b3: real, x0: real, x1: real, x2: real, x3: real)
    ensures a * (b0 * x0 + b1 * x1 + b2 * x2 + b3 * x3)
         == a * (b0 * x0) + a * (b1 * x1) + a * (b2 * x2) + a * (b3 * x3)
  {
  }

  /** The identity matrix. */
  const Identity := Mat4(
    Vec4(1.0, 0.0, 0.0, 0.0),
    Vec4(0.0, 1.0, 0.0, 0.0),
    Vec4(0.0, 0.0, 1.0, 0.0),
    Vec4(0.0, 0.0, 0.0, 1.0))

  /** `glm::mat4(x0, ..., x15)` where the scalars are laid out as the rows of
      `written`: glm fills columns, so column `j` of the result is row `j`
      of `written`. */
  function GlmMat4(written: Mat4): (g: Mat4)
    ensures forall j :: 0 <= j < 4 ==> Column(g, j) == Row(written, j)
  {
    Transpose(written)
  }

  /** What the shader receives from `glUniformMatrix4fv(loc, 1, GL_TRUE,
      glm::value_ptr(g))`: the column-major storage of `g`, read as rows. */
  function UploadTransposed(g: Mat4): (s: Mat4)
    ensures forall i :: 0 <= i < 4 ==> Row(s, i) == Column(g, i)
  {
    Transpose(g)
  }

  /** Transposing twice gives the matrix back. */
  lemma TransposeTwice(a: Mat4)
    ensures Transpose(Transpose(a)) == a
  {
  }

  /** The transpose of a product is the reversed product of the transposes. */
  lemma TransposeOfMul(a: Mat4, b: Mat4)
    ensures Transpose(Mul(a, b)) == Mul(Transpose(b), Transpose(a))
  {
    var (ta, tb) := (Transpose(a), Transpose(b));
    assert Mul(a, b) == Mat4(RowTimes(a.r0, b), RowTimes(a.r1, b), RowTimes(a.r2, b), RowTimes(a.r3, b));
    assert Mul(tb, ta) == Mat4(RowTimes(tb.r0, ta), RowTimes(tb.r1, ta), RowTimes(tb.r2, ta), RowTimes(tb.r3, ta));
    TransposedRows(a, b);
  }

  /** The row-by-row form of `TransposeOfMul`. */
  lemma TransposedRows(a: Mat4, b: Mat4)
    ensures var (ta, tb) := (Transpose(a), Transpose(b));
      Transpose(Mat4(RowTimes(a.r0, b), RowTimes(a.r1, b), RowTimes(a.r2, b), RowTimes(a.r3, b)))
        == Mat4(RowTimes(tb.r0, ta), RowTimes(tb.r1, ta), RowTimes(tb.r2, ta), RowTimes(tb.r3, ta))
  {
    var (ta, tb) := (Transpose(a), Transpose(b));
    TransposeTwice(a);
    RowTimesByColumns(a.r0, b);
    RowTimesByColumns(a.r1, b);
    RowTimesByColumns(a.r2, b);
    RowTimesByColumns(a.r3, b);
    RowTimesByColumns(tb.r0, ta);
    RowTimesByColumns(tb.r1, ta);
    RowTimesByColumns(tb.r2, ta);
    RowTimesByColumns(tb.r3, ta);
    forall u: Vec4, w: Vec4 ensures Dot(u, w) == Dot(w, u) {
      DotCommutes(u, w);
    }
  }

  /** Entry `j` of `u * b` is `u` dotted with column `j` of `b`, the
      transpose's row `j`. */
  lemma RowTimesByColumns(u: Vec4, b: Mat4)
    ensures var tb := Transpose(b);
      RowTimes(u, b) == Vec4(Dot(u, tb.r0), Dot(u, tb.r1), Dot(u, tb.r2), Dot(u, tb.r3))
  {
    var tb := Transpose(b);
    assert tb.r0 == Vec4(b.r0.x, b.r1.x, b.r2.x, b.r3.x);
    assert tb.r1 == Vec4(b.r0.y, b.r1.y, b.r2.y, b.r3.y);
    assert tb.r2 == Vec4(b.r0.z, b.r1.z, b.r2.z, b.r3.z);
    assert tb.r3 == Vec4(b.r0.w, b.r1.w, b.r2.w, b.r3.w);
  }

  /** A single written matrix reaches the shader with its rows as written. */
  lemma UploadOfGlmMat4(a: Mat4)
    ensures UploadTransposed(GlmMat4(a)) == a
  {
    TransposeTwice(a);
  }

  /** `glm::mat4(a) * glm::mat4(b)`, uploaded transposed, is `b * a`. */
  lemma UploadOfGlmProduct2(a: Mat4, b: Mat4)
    ensures UploadTransposed(Mul(GlmMat4(a), GlmMat4(b))) == Mul(b, a)
  {
    TransposeOfMul(Transpose(a), Transpose(b));
    TransposeTwice(a);
    TransposeTwice(b);
  }

  /** `glm::mat4(a) * glm::mat4(b) * glm::mat4(c)` (glm evaluates left to
      right), uploaded transposed, is `c * (b * a)`. */
  lemma UploadOfGlmProduct3(a: Mat4, b: Mat4, c: Mat4)
    ensures UploadTransposed(Mul(Mul(GlmMat4(a), GlmMat4(b)), GlmMat4(c))) == Mul(c, Mul(b, a))
  {
    var ab := Mul(GlmMat4(a), GlmMat4(b));
    TransposeOfMul(ab, Transpose(c));
    TransposeTwice(c);
    UploadOfGlmProduct2(a, b);
  }

  /** The identity leaves every vector unchanged. */
  lemma ApplyIdentity(v: Vec4)
    ensures Apply(Identity, v) == v
  {
  }
}
