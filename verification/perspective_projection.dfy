/** The matrices of 11_perspectiveprojection.cpp.

    Its `get_projection_matrix` differs from the later copy (`Projection`)
    in three entries: the translation moves z by `-(n + f) / 2` instead of
    `+(n + f) / 2`, and the perspective matrix has `-n * f` and a bottom row
    `(0, 0, 1, 0)`. The result is a projection for a camera looking down
    `+z`: clip `w = +z`, the plane `z = n` lands at depth +1 and `z = f` at
    depth -1, the reverse of the later copy. The program also builds a
    fixed model matrix (a rotation about y by a growing angle) and a fixed
    view matrix (a step of 5 down the z axis), both uploaded transposed. */
module PerspectiveProjection {
  import opened Scalars
  import opened Vector4
  import opened Matrices
  import Projection

  /** `translate` of this copy, as written: `-(n + f) / 2` in the z column. */
  function TranslateMatrix(fr: Projection.Frustum, n: real, f: real): Mat4
  {
    Mat4(
      Vec4(1.0, 0.0, 0.0, -(fr.right + fr.left) / 2.0),
      Vec4(0.0, 1.0, 0.0, -(fr.top + fr.bottom) / 2.0),
      Vec4(0.0, 0.0, 1.0, -(n + f) / 2.0),
      Vec4(0.0, 0.0, 0.0, 1.0))
  }

  /** `perspective` of this copy, as written: `-n * f`, and bottom row `(0, 0, 1, 0)`. */
  function PerspectiveMatrix(n: real, f: real): Mat4
  {
    Mat4(
      Vec4(n, 0.0, 0.0, 0.0),
      Vec4(0.0, n, 0.0, 0.0),
      Vec4(0.0, 0.0, n + f, -n * f),
      Vec4(0.0, 0.0, 1.0, 0.0))
  }

  /** The glm value `perspective * translate * scale` of this copy, built
      from a frustum; the shader would apply `Scale * (Translate *
      Perspective)` of the written rows. The `scale` matrix is the same as
      in the later copy. */
  function ProjectionOfFrustum(fr: Projection.Frustum, n: real, f: real): (g: Mat4)
    requires Projection.Proper(fr, n, f)
    ensures UploadTransposed(g)
         == Mul(Projection.ScaleMatrix(fr, n, f), Mul(TranslateMatrix(fr, n, f), PerspectiveMatrix(n, f)))
  {
    var scale := Projection.ScaleMatrix(fr, n, f);
    var translate := TranslateMatrix(fr, n, f);
    var perspective := PerspectiveMatrix(n, f);
    UploadOfGlmProduct3(perspective, translate, scale);
    Mul(Mul(GlmMat4(perspective), GlmMat4(translate)), GlmMat4(scale))
  }

  /** This copy's `get_projection_matrix(fov, aspect_ratio, n, f)`,
      returning the glm value; uploaded transposed it would be `Scale *
      (Translate * Perspective)` of this copy's written rows. */
  function GetProjectionMatrix(m: MathFns, fov: real, aspect: real, n: real, f: real): (g: Mat4)
    requires Projection.Proper(Projection.FrustumOf(m, fov, aspect, n), n, f)
    ensures var fr := Projection.FrustumOf(m, fov, aspect, n);
      UploadTransposed(g)
        == Mul(Projection.ScaleMatrix(fr, n, f), Mul(TranslateMatrix(fr, n, f), PerspectiveMatrix(n, f)))
  {
    ProjectionOfFrustum(Projection.FrustumOf(m, fov, aspect, n), n, f)
  }

  /** Where this copy's projection sends the point `(x, y, z, 1)`: clip `w`
      is `+z`, and the depth is `((n + f) z - 2 f n) / (n - f)`. */
  lemma ClipCoordinates(m: MathFns, fov: real, aspect: real, n: real, f: real, x: real, y: real, z: real)
    requires Projection.Proper(Projection.FrustumOf(m, fov, aspect, n), n, f)
    ensures var fr := Projection.FrustumOf(m, fov, aspect, n);
      Apply(UploadTransposed(GetProjectionMatrix(m, fov, aspect, n, f)), Vec4(x, y, z, 1.0))
        == Vec4(n * x / fr.right, n * y / fr.top, ((n + f) * z - 2.0 * f * n) / (n - f), z)
  {
    SymmetricClip(Projection.FrustumOf(m, fov, aspect, n), n, f, x, y, z);
  }

  /** The same for any symmetric frustum. */
  lemma SymmetricClip(fr: Projection.Frustum, n: real, f: real, x: real, y: real, z: real)
    requires Projection.Proper(fr, n, f)
    requires fr.bottom == -fr.top && fr.left == -fr.right
    ensures Apply(UploadTransposed(ProjectionOfFrustum(fr, n, f)), Vec4(x, y, z, 1.0))
        == Vec4(n * x / fr.right, n * y / fr.top, ((n + f) * z - 2.0 * f * n) / (n - f), z)
  {
    var v := Vec4(x, y, z, 1.0);
    var (sc, tr, pe) := (Projection.ScaleMatrix(fr, n, f), TranslateMatrix(fr, n, f), PerspectiveMatrix(n, f));
    MulApply(sc, Mul(tr, pe), v);
    MulApply(tr, pe, v);
    ApplyFactors(fr, n, f, x, y, z);
  }

  /** The three written factors applied one after another to `(x, y, z, 1)`
      for a symmetric volume. */
  lemma ApplyFactors(fr: Projection.Frustum, n: real, f: real, x: real, y: real, z: real)
    requires Projection.Proper(fr, n, f)
    requires fr.bottom == -fr.top && fr.left == -fr.right
    ensures Apply(Projection.ScaleMatrix(fr, n, f), Apply(TranslateMatrix(fr, n, f),
              Apply(PerspectiveMatrix(n, f), Vec4(x, y, z, 1.0))))
         == Vec4(n * x / fr.right, n * y / fr.top, ((n + f) * z - 2.0 * f * n) / (n - f), z)
  {
    var (r, t) := (fr.right, fr.top);
    PerspectiveApplied(n, f, x, y, z);
    var p := Vec4(n * x, n * y, (n + f) * z - n * f, z);
    TranslateApplied(fr, n, f, p);
    var q := Vec4(n * x, n * y, (n + f) * z - n * f + -(n + f) / 2.0 * z, z);
    ScaleApplied(fr, n, f, q);
    HalfScale(r, n * x);
    HalfScale(t, n * y);
    ShiftedDepth(n, f, z);
  }

  /** The perspective factor applied to `(x, y, z, 1)`. */
  lemma PerspectiveApplied(n: real, f: real, x: real, y: real, z: real)
    ensures Apply(PerspectiveMatrix(n, f), Vec4(x, y, z, 1.0)) == Vec4(n * x, n * y, (n + f) * z - n * f, z)
  {
  }

  /** The translate factor of a symmetric volume keeps x, y and w and moves
      z by `-(n + f) / 2` times w. */
  lemma TranslateApplied(fr: Projection.Frustum, n: real, f: real, v: Vec4)
    requires fr.bottom == -fr.top && fr.left == -fr.right
    ensures Apply(TranslateMatrix(fr, n, f), v) == Vec4(v.x, v.y, v.z + -(n + f) / 2.0 * v.w, v.w)
  {
  }

  /** The scale factor of a symmetric volume multiplies each of x, y and z
      by its own factor and keeps w. */
  lemma ScaleApplied(fr: Projection.Frustum, n: real, f: real, v: Vec4)
    requires Projection.Proper(fr, n, f)
    requires fr.bottom == -fr.top && fr.left == -fr.right
    ensures Apply(Projection.ScaleMatrix(fr, n, f), v)
         == Vec4(2.0 / (fr.right - -fr.right) * v.x, 2.0 / (fr.top - -fr.top) * v.y, 2.0 / (n - f) * v.z, v.w)
  {
  }

  /** For a symmetric extent `[-r, r]`: `2 / (r - (-r)) * a == a / r`. */
  lemma HalfScale(r: real, a: real)
    requires r != -r
    ensures 2.0 / (r - -r) * a == a / r
  {
    assert r - -r == 2.0 * r;
  }

  /** The depth arithmetic of `ApplyFactors`. */
  lemma ShiftedDepth(n: real, f: real, z: real)
    requires n != f
    ensures 2.0 / (n - f) * ((n + f) * z - n * f + -(n + f) / 2.0 * z) == ((n + f) * z - 2.0 * f * n) / (n - f)
  {
    var b := (n + f) * z - 2.0 * f * n;
    assert (n + f) * z - n * f + -(n + f) / 2.0 * z == b / 2.0;
    HalveThenScale(b, n - f);
  }

  /** `2 / d * (b / 2) == b / d`. */
  lemma HalveThenScale(b: real, d: real)
    requires d != 0.0
    ensures 2.0 / d * (b / 2.0) == b / d
  {
  }

  /** With `0 < n < f`, the point `(0, 0, +n)` gets clip `w = n` and
      `z = w` (normalized depth +1) and the point `(0, 0, +f)` gets `w = f`
      and `z = -w` (depth -1): the opposite of the later copy, whose near
      plane goes to -1. */
  lemma NearAndFarDepths(m: MathFns, fov: real, aspect: real, n: real, f: real)
    requires 0.0 < n < f
    requires Projection.Proper(Projection.FrustumOf(m, fov, aspect, n), n, f)
    ensures var p := UploadTransposed(GetProjectionMatrix(m, fov, aspect, n, f));
      var near := Apply(p, Vec4(0.0, 0.0, n, 1.0));
      var far := Apply(p, Vec4(0.0, 0.0, f, 1.0));
      && near.w == n && near.z == near.w
      && far.w == f && far.z == -far.w
  {
    SymmetricDepths(Projection.FrustumOf(m, fov, aspect, n), n, f);
  }

  /** The same for any symmetric frustum. */
  lemma SymmetricDepths(fr: Projection.Frustum, n: real, f: real)
    requires 0.0 < n < f
    requires Projection.Proper(fr, n, f)
    requires fr.bottom == -fr.top && fr.left == -fr.right
    ensures var p := UploadTransposed(ProjectionOfFrustum(fr, n, f));
      var near := Apply(p, Vec4(0.0, 0.0, n, 1.0));
      var far := Apply(p, Vec4(0.0, 0.0, f, 1.0));
      && near.w == n && near.z == near.w
      && far.w == f && far.z == -far.w
  {
    SymmetricClip(fr, n, f, 0.0, 0.0, n);
    SymmetricClip(fr, n, f, 0.0, 0.0, f);
    DepthOfPlanes(n, f);
  }

  /** The depth arithmetic of `NearAndFarDepths`: clip `z` is `n` for the
      near plane and `-f` for the far plane. */
  lemma DepthOfPlanes(n: real, f: real)
    requires 0.0 < n < f
    ensures ((n + f) * n - 2.0 * f * n) / (n - f) == n
    ensures ((n + f) * f - 2.0 * f * n) / (n - f) == -f
  {
    assert (n + f) * n - 2.0 * f * n == n * (n - f);
    assert (n + f) * f - 2.0 * f * n == -f * (n - f);
  }

  /** The corner `(right, top, n)` of the near face gets clip `x = y = w`:
      normalized x = 1, y = 1. */
  lemma NearCornerToNdcCorner(m: MathFns, fov: real, aspect: real, n: real, f: real)
    requires 0.0 < n < f
    requires Projection.Proper(Projection.FrustumOf(m, fov, aspect, n), n, f)
    ensures var fr := Projection.FrustumOf(m, fov, aspect, n);
      var c := Apply(UploadTransposed(GetProjectionMatrix(m, fov, aspect, n, f)),
                     Vec4(fr.right, fr.top, n, 1.0));
      c.w == n && c.x == c.w && c.y == c.w
  {
    SymmetricNearCorner(Projection.FrustumOf(m, fov, aspect, n), n, f);
  }

  /** The same for any symmetric frustum. */
  lemma SymmetricNearCorner(fr: Projection.Frustum, n: real, f: real)
    requires 0.0 < n < f
    requires Projection.Proper(fr, n, f)
    requires fr.bottom == -fr.top && fr.left == -fr.right
    ensures var c := Apply(UploadTransposed(ProjectionOfFrustum(fr, n, f)), Vec4(fr.right, fr.top, n, 1.0));
      c.w == n && c.x == c.w && c.y == c.w
  {
    SymmetricClip(fr, n, f, fr.right, fr.top, n);
    CornerOfClip(Apply(UploadTransposed(ProjectionOfFrustum(fr, n, f)), Vec4(fr.right, fr.top, n, 1.0)),
                 n, fr.right, fr.top, ((n + f) * n - 2.0 * f * n) / (n - f));
  }

  /** A clip point `(n r / r, n t / t, z, n)` has `x = y = w`. */
  lemma CornerOfClip(c: Vec4, n: real, r: real, t: real, z: real)
    requires r != 0.0 && t != 0.0
    requires c == Vec4(n * r / r, n * t / t, z, n)
    ensures c.w == n && c.x == c.w && c.y == c.w
  {
  }

  /** The x and y translations vanish because the volume is symmetric;
      only z is shifted, by `-(n + f) / 2`. */
  lemma TranslateCentersOnlyDepth(m: MathFns, fov: real, aspect: real, n: real, f: real)
    ensures var t := TranslateMatrix(Projection.FrustumOf(m, fov, aspect, n), n, f);
      t.r0.w == 0.0 && t.r1.w == 0.0 && t.r2.w == -(n + f) / 2.0
  {
  }

  /** The per-frame angle `scale_value`: a static that starts at 0 and grows
      by 0.01 before each frame is drawn. */
  function NextAngle(scaleValue: real): real
  {
    scaleValue + 0.01
  }

  /** The angle used in frame `k` (counting from 0), after `k + 1` increments. */
  function AngleAtFrame(k: nat): (r: real)
    ensures r == 0.01 * (k + 1) as real
  {
    if k == 0 then NextAngle(0.0) else NextAngle(AngleAtFrame(k - 1))
  }

  /** The model matrix, as written: rows `(cos a, 0, -sin a, 0)`,
      `(0, 1, 0, 0)`, `(sin a, 0, cos a, 0)`, `(0, 0, 0, 1)`. */
  function ModelMatrix(m: MathFns, angle: real): Mat4
  {
    Mat4(
      Vec4(m.cos(angle), 0.0, -m.sin(angle), 0.0),
      Vec4(0.0, 1.0, 0.0, 0.0),
      Vec4(m.sin(angle), 0.0, m.cos(angle), 0.0),
      Vec4(0.0, 0.0, 0.0, 1.0))
  }

  /** The view matrix, as written: the identity with `-5` in the z column. */
  const ViewMatrix := Mat4(
    Vec4(1.0, 0.0, 0.0, 0.0),
    Vec4(0.0, 1.0, 0.0, 0.0),
    Vec4(0.0, 0.0, 1.0, -5.0),
    Vec4(0.0, 0.0, 0.0, 1.0))

  /** The model matrix, uploaded transposed, is a rotation about the y axis:
      `y` and `w` are kept and `x^2 + z^2` is preserved. At angle 0 it is the
      identity. */
  lemma ModelIsRotationAboutY(m: MathFns, angle: real, v: Vec4)
    requires Lawful(m)
    ensures var u := Apply(UploadTransposed(GlmMat4(ModelMatrix(m, angle))), v);
      && u.y == v.y && u.w == v.w
      && u.x * u.x + u.z * u.z == v.x * v.x + v.z * v.z
    ensures Apply(UploadTransposed(GlmMat4(ModelMatrix(m, 0.0))), v) == v
  {
    UploadOfGlmMat4(ModelMatrix(m, angle));
    UploadOfGlmMat4(ModelMatrix(m, 0.0));
    var (c, s) := (m.cos(angle), m.sin(angle));
    var u := Apply(ModelMatrix(m, angle), v);
    assert u.x == c * v.x - s * v.z;
    assert u.z == s * v.x + c * v.z;
    assert u.x * u.x + u.z * u.z == (c * c + s * s) * (v.x * v.x + v.z * v.z);
    assert c * c + s * s == 1.0;
  }

  /** The view matrix, uploaded transposed, maps `(x, y, z, 1)` to `(x, y, z - 5, 1)`. */
  lemma ViewMovesBackFive(x: real, y: real, z: real)
    ensures Apply(UploadTransposed(GlmMat4(ViewMatrix)), Vec4(x, y, z, 1.0)) == Vec4(x, y, z - 5.0, 1.0)
  {
    UploadOfGlmMat4(ViewMatrix);
  }
}
