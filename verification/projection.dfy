/** `get_projection_matrix(fov, aspect_ratio, n, f)`, the copy shared
    verbatim by 13_keyboardevent.cpp, 17_specularlight.cpp and
    19_assimpmodel.cpp (11_perspectiveprojection.cpp holds a variant with
    other signs, modelled in `PerspectiveProjection`).

    The function returns `perspective * translate * scale` of three glm
    matrices written row by row; after the transposed upload the shader
    applies `Scale * (Translate * Perspective)` of the written rows
    (`GetProjectionMatrix`). That matrix is exactly the classic OpenGL
    `glFrustum` matrix (`ShaderMatrixIsGlFrustum`), which maps the near
    plane `z = -n` to depth -1 and the far plane `z = -f` to depth +1 with
    clip `w = -z`. */
module Projection {
  import opened Scalars
  import opened Vector4
  import opened Matrices

  /** The view volume's extent on the near plane. */
  datatype Frustum = Frustum(top: real, bottom: real, right: real, left: real)

  /** `top = n * tan(radians(fov / 2))`, `bottom = -top`,
      `right = top * aspect_ratio`, `left = -right`: a volume symmetric about
      the viewing axis whose width is `aspect_ratio` times its height. */
  function FrustumOf(m: MathFns, fov: real, aspect: real, n: real): (fr: Frustum)
    ensures fr.bottom == -fr.top && fr.left == -fr.right
    ensures fr.right - fr.left == aspect * (fr.top - fr.bottom)
  {
    var top := n * m.tan(m.radians(fov / 2.0));
    var right := top * aspect;
    Frustum(top, -top, right, -right)
  }

  /** The divisions in the three matrices are defined: the source yields
      infinities otherwise. */
  predicate Proper(fr: Frustum, n: real, f: real) {
    fr.right != fr.left && fr.top != fr.bottom && n != f
  }

  /** `scale`, as written: maps the box's extents onto `[-1, 1]`. */
  function ScaleMatrix(fr: Frustum, n: real, f: real): Mat4
    requires Proper(fr, n, f)
  {
    Mat4(
      Vec4(2.0 / (fr.right - fr.left), 0.0, 0.0, 0.0),
      Vec4(0.0, 2.0 / (fr.top - fr.bottom), 0.0, 0.0),
      Vec4(0.0, 0.0, 2.0 / (n - f), 0.0),
      Vec4(0.0, 0.0, 0.0, 1.0))
  }

  /** `translate`, as written: moves the box's centre to the origin, with
      `+(n + f) / 2` in the z column. */
  function TranslateMatrix(fr: Frustum, n: real, f: real): Mat4
  {
    Mat4(
      Vec4(1.0, 0.0, 0.0, -(fr.right + fr.left) / 2.0),
      Vec4(0.0, 1.0, 0.0, -(fr.top + fr.bottom) / 2.0),
      Vec4(0.0, 0.0, 1.0, (n + f) / 2.0),
      Vec4(0.0, 0.0, 0.0, 1.0))
  }

  /** `perspective`, as written: the squash onto the near plane, with
      bottom row `(0, 0, -1, 0)`. */
  function PerspectiveMatrix(n: real, f: real): Mat4
  {
    Mat4(
      Vec4(n, 0.0, 0.0, 0.0),
      Vec4(0.0, n, 0.0, 0.0),
      Vec4(0.0, 0.0, n + f, n * f),
      Vec4(0.0, 0.0, -1.0, 0.0))
  }

  /** The classic OpenGL `glFrustum(left, right, bottom, top, n, f)` matrix,
      as given in the OpenGL 2.1 reference pages: the reference the
      hand-built matrix is compared with. */
  function GlFrustum(fr: Frustum, n: real, f: real): Mat4
    requires Proper(fr, n, f)
  {
    var (l, r, b, t) := (fr.left, fr.right, fr.bottom, fr.top);
    Mat4(
      Vec4(2.0 * n / (r - l), 0.0, (r + l) / (r - l), 0.0),
      Vec4(0.0, 2.0 * n / (t - b), (t + b) / (t - b), 0.0),
      Vec4(0.0, 0.0, -(f + n) / (f - n), -2.0 * f * n / (f - n)),
      Vec4(0.0, 0.0, -1.0, 0.0))
  }

  /** The glm value `perspective * translate * scale` built from a frustum. */
  function ProjectionOfFrustum(fr: Frustum, n: real, f: real): (g: Mat4)
    requires Proper(fr, n, f)
    ensures UploadTransposed(g)
         == Mul(ScaleMatrix(fr, n, f), Mul(TranslateMatrix(fr, n, f), PerspectiveMatrix(n, f)))
  {
    var scale := ScaleMatrix(fr, n, f);
    var translate := TranslateMatrix(fr, n, f);
    var perspective := PerspectiveMatrix(n, f);
    UploadOfGlmProduct3(perspective, translate, scale);
    Mul(Mul(GlmMat4(perspective), GlmMat4(translate)), GlmMat4(scale))
  }

  /** `get_projection_matrix(fov, aspect_ratio, n, f)`, returning the glm
      value; the shader receives `Scale * (Translate * Perspective)` of the
      written rows. */
  function GetProjectionMatrix(m: MathFns, fov: real, aspect: real, n: real, f: real): (g: Mat4)
    requires Proper(FrustumOf(m, fov, aspect, n), n, f)
    ensures var fr := FrustumOf(m, fov, aspect, n);
      UploadTransposed(g)
        == Mul(ScaleMatrix(fr, n, f), Mul(TranslateMatrix(fr, n, f), PerspectiveMatrix(n, f)))
  {
    ProjectionOfFrustum(FrustumOf(m, fov, aspect, n), n, f)
  }

  /** The matrix the shader applies, for any frustum: it is `glFrustum`'s. */
  lemma ShaderMatrixIsGlFrustum(fr: Frustum, n: real, f: real)
    requires Proper(fr, n, f)
    ensures UploadTransposed(ProjectionOfFrustum(fr, n, f)) == GlFrustum(fr, n, f)
  {
    var tp := Mul(TranslateMatrix(fr, n, f), PerspectiveMatrix(n, f));
    TranslateTimesPerspective(fr, n, f);
    ScaleTimesTranslated(fr, n, f, tp);
  }

  /** `Translate * Perspective`, multiplied out. */
  lemma TranslateTimesPerspective(fr: Frustum, n: real, f: real)
    ensures Mul(TranslateMatrix(fr, n, f), PerspectiveMatrix(n, f)) == Mat4(
      Vec4(n, 0.0, (fr.right + fr.left) / 2.0, 0.0),
      Vec4(0.0, n, (fr.top + fr.bottom) / 2.0, 0.0),
      Vec4(0.0, 0.0, (n + f) / 2.0, n * f),
      Vec4(0.0, 0.0, -1.0, 0.0))
  {
  }

  /** `Scale` applied to the product above gives the `glFrustum` entries. */
  lemma ScaleTimesTranslated(fr: Frustum, n: real, f: real, tp: Mat4)
    requires Proper(fr, n, f)
    requires tp == Mat4(
      Vec4(n, 0.0, (fr.right + fr.left) / 2.0, 0.0),
      Vec4(0.0, n, (fr.top + fr.bottom) / 2.0, 0.0),
      Vec4(0.0, 0.0, (n + f) / 2.0, n * f),
      Vec4(0.0, 0.0, -1.0, 0.0))
    ensures Mul(ScaleMatrix(fr, n, f), tp) == GlFrustum(fr, n, f)
  {
    ScaledRowX(fr, n, f, tp);
    ScaledRowY(fr, n, f, tp);
    ScaledDepthRow(fr, n, f, tp);
  }

  /** Row 0 of `Scale * tp`: `x` scaled by `2 / (r - l)`. */
  lemma ScaledRowX(fr: Frustum, n: real, f: real, tp: Mat4)
    requires Proper(fr, n, f)
    requires tp == Mat4(
      Vec4(n, 0.0, (fr.right + fr.left) / 2.0, 0.0),
      Vec4(0.0, n, (fr.top + fr.bottom) / 2.0, 0.0),
      Vec4(0.0, 0.0, (n + f) / 2.0, n * f),
      Vec4(0.0, 0.0, -1.0, 0.0))
    ensures RowTimes(ScaleMatrix(fr, n, f).r0, tp) == GlFrustum(fr, n, f).r0
  {
    var (l, r) := (fr.left, fr.right);
    var sx := 2.0 / (r - l);
    assert sx * n == 2.0 * n / (r - l);
    assert sx * ((r + l) / 2.0) == (r + l) / (r - l);
  }

  /** Row 1 of `Scale * tp`: `y` scaled by `2 / (t - b)`. */
  lemma ScaledRowY(fr: Frustum, n: real, f: real, tp: Mat4)
    requires Proper(fr, n, f)
    requires tp == Mat4(
      Vec4(n, 0.0, (fr.right + fr.left) / 2.0, 0.0),
      Vec4(0.0, n, (fr.top + fr.bottom) / 2.0, 0.0),
      Vec4(0.0, 0.0, (n + f) / 2.0, n * f),
      Vec4(0.0, 0.0, -1.0, 0.0))
    ensures RowTimes(ScaleMatrix(fr, n, f).r1, tp) == GlFrustum(fr, n, f).r1
  {
    var (b, t) := (fr.bottom, fr.top);
    var sy := 2.0 / (t - b);
    assert sy * n == 2.0 * n / (t - b);
    assert sy * ((t + b) / 2.0) == (t + b) / (t - b);
  }

  /** Row 2 of `Scale * tp`: the depth row scaled by `2 / (n - f)`. */
  lemma ScaledDepthRow(fr: Frustum, n: real, f: real, tp: Mat4)
    requires Proper(fr, n, f)
    requires tp == Mat4(
      Vec4(n, 0.0, (fr.right + fr.left) / 2.0, 0.0),
      Vec4(0.0, n, (fr.top + fr.bottom) / 2.0, 0.0),
      Vec4(0.0, 0.0, (n + f) / 2.0, n * f),
      Vec4(0.0, 0.0, -1.0, 0.0))
    ensures RowTimes(ScaleMatrix(fr, n, f).r2, tp) == GlFrustum(fr, n, f).r2
  {
    var sz := 2.0 / (n - f);
    assert sz * ((n + f) / 2.0) == -(f + n) / (f - n);
    assert sz * (n * f) == -2.0 * f * n / (f - n);
  }

  /** Where the shader's projection sends the camera-space point
      `(x, y, z, 1)`: clip `w` is `-z`. */
  lemma ClipCoordinates(m: MathFns, fov: real, aspect: real, n: real, f: real, x: real, y: real, z: real)
    requires Proper(FrustumOf(m, fov, aspect, n), n, f)
    ensures var fr := FrustumOf(m, fov, aspect, n);
      Apply(UploadTransposed(GetProjectionMatrix(m, fov, aspect, n, f)), Vec4(x, y, z, 1.0))
        == Vec4(n * x / fr.right, n * y / fr.top, ((n + f) * z + 2.0 * f * n) / (n - f), -z)
  {
    SymmetricClip(FrustumOf(m, fov, aspect, n), n, f, x, y, z);
  }

  /** The same for any symmetric frustum. */
  lemma SymmetricClip(fr: Frustum, n: real, f: real, x: real, y: real, z: real)
    requires Proper(fr, n, f)
    requires fr.bottom == -fr.top && fr.left == -fr.right
    ensures Apply(UploadTransposed(ProjectionOfFrustum(fr, n, f)), Vec4(x, y, z, 1.0))
        == Vec4(n * x / fr.right, n * y / fr.top, ((n + f) * z + 2.0 * f * n) / (n - f), -z)
  {
    ShaderMatrixIsGlFrustum(fr, n, f);
    ApplySymmetricGlFrustum(fr, n, f, x, y, z);
  }

  /** `glFrustum` of a symmetric volume applied to `(x, y, z, 1)`. */
  lemma ApplySymmetricGlFrustum(fr: Frustum, n: real, f: real, x: real, y: real, z: real)
    requires Proper(fr, n, f)
    requires fr.bottom == -fr.top && fr.left == -fr.right
    ensures Apply(GlFrustum(fr, n, f), Vec4(x, y, z, 1.0))
         == Vec4(n * x / fr.right, n * y / fr.top, ((n + f) * z + 2.0 * f * n) / (n - f), -z)
  {
    SymmetricRowsXY(fr, n, f, x, y, z);
    SymmetricRowZ(fr, n, f, x, y, z);
  }

  /** The first two rows of `glFrustum` of a symmetric volume. */
  lemma SymmetricRowsXY(fr: Frustum, n: real, f: real, x: real, y: real, z: real)
    requires Proper(fr, n, f)
    requires fr.bottom == -fr.top && fr.left == -fr.right
    ensures var g := GlFrustum(fr, n, f);
      Dot(g.r0, Vec4(x, y, z, 1.0)) == n * x / fr.right && Dot(g.r1, Vec4(x, y, z, 1.0)) == n * y / fr.top
  {
    HalfWidthRatio(n, fr.right, x);
    HalfWidthRatio(n, fr.top, y);
  }

  /** The depth row of `glFrustum`. */
  lemma SymmetricRowZ(fr: Frustum, n: real, f: real, x: real, y: real, z: real)
    requires Proper(fr, n, f)
    ensures Dot(GlFrustum(fr, n, f).r2, Vec4(x, y, z, 1.0)) == ((n + f) * z + 2.0 * f * n) / (n - f)
  {
    DepthRatio(n, f, z);
  }

  /** For a symmetric extent `[-r, r]`: `2n / (r - (-r)) * x == n * x / r`. */
  lemma HalfWidthRatio(n: real, r: real, x: real)
    requires r != -r
    ensures 2.0 * n / (r - -r) * x == n * x / r
  {
    assert r - -r == 2.0 * r;
  }

  /** The third row of `glFrustum` applied to depth `z` and `w = 1`. */
  lemma DepthRatio(n: real, f: real, z: real)
    requires n != f
    ensures -(f + n) / (f - n) * z + -2.0 * f * n / (f - n) == ((n + f) * z + 2.0 * f * n) / (n - f)
  {
    assert -(f + n) / (f - n) == (n + f) / (n - f);
    assert -2.0 * f * n / (f - n) == 2.0 * f * n / (n - f);
  }

  /** With `0 < n < f`, the point on the near plane, `(0, 0, -n)`, gets
      clip `w = n` and `z = -w` (normalized depth -1), and the point on the
      far plane, `(0, 0, -f)`, gets `w = f` and `z = w` (depth +1). */
  lemma NearAndFarDepths(m: MathFns, fov: real, aspect: real, n: real, f: real)
    requires 0.0 < n < f
    requires Proper(FrustumOf(m, fov, aspect, n), n, f)
    ensures var p := UploadTransposed(GetProjectionMatrix(m, fov, aspect, n, f));
      var near := Apply(p, Vec4(0.0, 0.0, -n, 1.0));
      var far := Apply(p, Vec4(0.0, 0.0, -f, 1.0));
      && near.w == n && near.z == -near.w
      && far.w == f && far.z == far.w
  {
    SymmetricDepths(FrustumOf(m, fov, aspect, n), n, f);
  }

  /** The same for any symmetric frustum. */
  lemma SymmetricDepths(fr: Frustum, n: real, f: real)
    requires 0.0 < n < f
    requires Proper(fr, n, f)
    requires fr.bottom == -fr.top && fr.left == -fr.right
    ensures var p := UploadTransposed(ProjectionOfFrustum(fr, n, f));
      var near := Apply(p, Vec4(0.0, 0.0, -n, 1.0));
      var far := Apply(p, Vec4(0.0, 0.0, -f, 1.0));
      && near.w == n && near.z == -near.w
      && far.w == f && far.z == far.w
  {
    SymmetricClip(fr, n, f, 0.0, 0.0, -n);
    SymmetricClip(fr, n, f, 0.0, 0.0, -f);
    DepthOfPlanes(n, f);
  }

  /** The depth arithmetic of `NearAndFarDepths`: clip `z` is `-n` for
      the near plane and `f` for the far plane. */
  lemma DepthOfPlanes(n: real, f: real)
    requires 0.0 < n < f
    ensures ((n + f) * -n + 2.0 * f * n) / (n - f) == -n && -(-n) == n
    ensures ((n + f) * -f + 2.0 * f * n) / (n - f) == f && -(-f) == f
  {
    assert (n + f) * -n + 2.0 * f * n == -n * (n - f);
    assert (n + f) * -f + 2.0 * f * n == f * (n - f);
  }

  /** The top-right corner of the near face, `(right, top, -n)`, gets clip
      coordinates `(w, w, -w, w)` with `w = n`: after the divide by `w`, the
      corner `(1, 1, -1)` of normalized device coordinates. */
  lemma NearCornerToNdcCorner(m: MathFns, fov: real, aspect: real, n: real, f: real)
    requires 0.0 < n < f
    requires Proper(FrustumOf(m, fov, aspect, n), n, f)
    ensures var fr := FrustumOf(m, fov, aspect, n);
      var c := Apply(UploadTransposed(GetProjectionMatrix(m, fov, aspect, n, f)),
                     Vec4(fr.right, fr.top, -n, 1.0));
      c.w == n && c.x == c.w && c.y == c.w && c.z == -c.w
  {
    SymmetricNearCorner(FrustumOf(m, fov, aspect, n), n, f);
  }

  /** The same for any symmetric frustum. */
  lemma SymmetricNearCorner(fr: Frustum, n: real, f: real)
    requires 0.0 < n < f
    requires Proper(fr, n, f)
    requires fr.bottom == -fr.top && fr.left == -fr.right
    ensures var c := Apply(UploadTransposed(ProjectionOfFrustum(fr, n, f)), Vec4(fr.right, fr.top, -n, 1.0));
      c.w == n && c.x == c.w && c.y == c.w && c.z == -c.w
  {
    SymmetricClip(fr, n, f, fr.right, fr.top, -n);
    DepthOfPlanes(n, f);
    CornerOfClip(Apply(UploadTransposed(ProjectionOfFrustum(fr, n, f)), Vec4(fr.right, fr.top, -n, 1.0)),
                 n, fr.right, fr.top, ((n + f) * -n + 2.0 * f * n) / (n - f));
  }

  /** A clip point `(n r / r, n t / t, -n, n)` has `x = y = w` and `z = -w`. */
  lemma CornerOfClip(c: Vec4, n: real, r: real, t: real, z: real)
    requires r != 0.0 && t != 0.0 && z == -n
    requires c == Vec4(n * r / r, n * t / t, z, - -n)
    ensures c.w == n && c.x == c.w && c.y == c.w && c.z == -c.w
  {
  }

  /** Because the volume is symmetric, the x and y translations vanish: only
      z is shifted. */
  lemma TranslateCentersOnlyDepth(m: MathFns, fov: real, aspect: real, n: real, f: real)
    ensures var t := TranslateMatrix(FrustumOf(m, fov, aspect, n), n, f);
      t.r0.w == 0.0 && t.r1.w == 0.0 && t.r2.w == (n + f) / 2.0
  {
  }
}
