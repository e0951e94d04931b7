/** `get_look_at_matrix(camera_pos, target_pos, up_pos)`, the copy shared
    verbatim by 13_keyboardevent.cpp, 17_specularlight.cpp and
    19_assimpmodel.cpp.

    The function builds the camera basis `front = normalize(target - eye)`,
    `right = normalize(cross(front, up))`, `up' = cross(right, front)`, a
    rotation whose written rows are `right`, `up'`, `-front`, and a
    translation by `-eye`, and returns the glm value `mat_right * mat_left`.
    After the transposed upload the shader applies `Rotation * Translation`
    of the written rows (`GetLookAtMatrix`): it moves the eye to the origin
    and turns the line of sight onto the negative z axis. */
module LookAt {
  import opened Scalars
  import opened Vector3
  import V4 = Vector4
  import opened Matrices

  /** The camera's orthonormal frame: `front_vector`, `right_vector`, `up_vector`. */
  datatype Basis = Basis(front: Vec3, right: Vec3, up: Vec3)

  /** The two normalizations are defined: the eye is not the target, and the
      line of sight is not parallel to `up_pos`. The source divides by zero
      otherwise. */
  predicate Defined(m: MathFns, eye: Vec3, target: Vec3, up: Vec3) {
    && Length(m, Sub(target, eye)) != 0.0
    && Length(m, Cross(Normalize(m, Sub(target, eye)), up)) != 0.0
  }

  /** Three unit vectors, pairwise orthogonal. */
  ghost predicate Orthonormal(m: MathFns, b: Basis) {
    && Length(m, b.front) == 1.0 && Length(m, b.right) == 1.0 && Length(m, b.up) == 1.0
    && Dot(b.front, b.right) == 0.0 && Dot(b.front, b.up) == 0.0 && Dot(b.right, b.up) == 0.0
  }

  /** The basis computed at the start of `get_look_at_matrix`: `front` points
      from the eye at the target (the distance times `front` is the
      offset), `right` points the way of `cross(front, up_pos)` (its length
      times `right` is that cross product, and their dot product is
      positive), true-up is `cross(right, front)`, `right` is orthogonal to
      `up_pos`, and under the axioms the three vectors are orthonormal. */
  function BasisOf(m: MathFns, eye: Vec3, target: Vec3, up: Vec3): (b: Basis)
    requires Defined(m, eye, target, up)
    ensures Scale(Length(m, Sub(target, eye)), b.front) == Sub(target, eye)
    ensures Scale(Length(m, Cross(b.front, up)), b.right) == Cross(b.front, up)
    ensures Lawful(m) ==> 0.0 < Dot(Cross(b.front, up), b.right)
    ensures b.up == Cross(b.right, b.front)
    ensures Dot(b.right, up) == 0.0
    ensures Lawful(m) ==> Orthonormal(m, b)
  {
    var front := Normalize(m, Sub(target, eye));
    var right := Normalize(m, Cross(front, up));
    var b := Basis(front, right, Cross(right, front));
    BasisIsOrthonormal(m, front, up, b);
    b
  }

  /** The proof obligations of `BasisOf`. */
  lemma BasisIsOrthonormal(m: MathFns, front: Vec3, up: Vec3, b: Basis)
    requires Length(m, Cross(front, up)) != 0.0
    requires Lawful(m) ==> Length(m, front) == 1.0
    requires b == Basis(front, Normalize(m, Cross(front, up)), Cross(Normalize(m, Cross(front, up)), front))
    ensures Dot(b.right, up) == 0.0
    ensures Lawful(m) ==> Orthonormal(m, b)
  {
    var c := Cross(front, up);
    var len := Length(m, c);
    CrossIsOrthogonal(front, up);
    assert b.right == Scale(1.0 / len, c);
    DotScale(up, 1.0 / len, c);
    DotCommutes(up, b.right);
    DotScale(front, 1.0 / len, c);
    if Lawful(m) {
      assert Dot(front, b.right) == 0.0;
      DotCommutes(front, b.right);
      CrossIsOrthogonal(b.right, front);
      CrossOfOrthonormal(m, b.right, front);
    }
  }

  /** The basis in terms of its two normalized vectors, for computing it
      in concrete poses. */
  lemma BasisFromParts(m: MathFns, eye: Vec3, target: Vec3, up: Vec3, front: Vec3, right: Vec3)
    requires Length(m, Sub(target, eye)) != 0.0 && Normalize(m, Sub(target, eye)) == front
    requires Length(m, Cross(front, up)) != 0.0 && Normalize(m, Cross(front, up)) == right
    ensures Defined(m, eye, target, up)
    ensures BasisOf(m, eye, target, up) == Basis(front, right, Cross(right, front))
  {
  }

  /** The basis when the line of sight is `s > 0` times a unit vector
      `front` and `cross(front, up)` is `t > 0` times a unit vector `right`,
      given the square roots of their squared lengths: the basis is
      `front`, `right` and `cross(right, front)`. */
  lemma BasisOfScaledUnits(m: MathFns, eye: Vec3, target: Vec3, up: Vec3,
                           s: real, front: Vec3, t: real, right: Vec3)
    requires 0.0 < s && m.sqrt(Dot(Sub(target, eye), Sub(target, eye))) == s
    requires IsMultiple(Sub(target, eye), s, front)
    requires 0.0 < t && m.sqrt(Dot(Cross(front, up), Cross(front, up))) == t
    requires IsMultiple(Cross(front, up), t, right)
    ensures Defined(m, eye, target, up)
    ensures BasisOf(m, eye, target, up) == Basis(front, right, Cross(right, front))
  {
    var d := Sub(target, eye);
    assert d == Scale(s, front);
    NormalizeKnownMultiple(m, d, s, front);
    var c := Cross(front, up);
    assert c == Scale(t, right);
    NormalizeKnownMultiple(m, c, t, right);
  }

  /** `mat_left`, as written: rows `right`, `up`, `-front`, `(0, 0, 0, 1)`. */
  function RotationMatrix(b: Basis): Mat4 {
    Mat4(
      V4.Vec4(b.right.x, b.right.y, b.right.z, 0.0),
      V4.Vec4(b.up.x, b.up.y, b.up.z, 0.0),
      V4.Vec4(-b.front.x, -b.front.y, -b.front.z, 0.0),
      V4.Vec4(0.0, 0.0, 0.0, 1.0))
  }

  /** `mat_right`, as written: the identity with `-eye` in the last column. */
  function TranslationMatrix(eye: Vec3): Mat4 {
    Mat4(
      V4.Vec4(1.0, 0.0, 0.0, -eye.x),
      V4.Vec4(0.0, 1.0, 0.0, -eye.y),
      V4.Vec4(0.0, 0.0, 1.0, -eye.z),
      V4.Vec4(0.0, 0.0, 0.0, 1.0))
  }

  /** The point `p` in homogeneous coordinates, `vec4(p, 1.0)`. */
  function Point(p: Vec3): V4.Vec4 {
    V4.Vec4(p.x, p.y, p.z, 1.0)
  }

  /** `get_look_at_matrix(eye, target, up)`, returning the glm value
      `mat_right * mat_left`; the shader receives `Rotation * Translation`
      of the written rows. */
  function GetLookAtMatrix(m: MathFns, eye: Vec3, target: Vec3, up: Vec3): (g: Mat4)
    requires Defined(m, eye, target, up)
    ensures UploadTransposed(g)
         == Mul(RotationMatrix(BasisOf(m, eye, target, up)), TranslationMatrix(eye))
  {
    var b := BasisOf(m, eye, target, up);
    UploadOfGlmProduct2(TranslationMatrix(eye), RotationMatrix(b));
    Mul(GlmMat4(TranslationMatrix(eye)), GlmMat4(RotationMatrix(b)))
  }

  /** The view the shader applies expresses a point relative to the eye in
      the camera's frame: its coordinates are the offset's components along
      `right`, `up` and `-front`. */
  lemma ViewCoordinates(m: MathFns, eye: Vec3, target: Vec3, up: Vec3, p: Vec3)
    requires Defined(m, eye, target, up)
    ensures var b := BasisOf(m, eye, target, up);
      var d := Sub(p, eye);
      Apply(UploadTransposed(GetLookAtMatrix(m, eye, target, up)), Point(p))
        == V4.Vec4(Dot(b.right, d), Dot(b.up, d), -Dot(b.front, d), 1.0)
  {
    var b := BasisOf(m, eye, target, up);
    var (r, t) := (RotationMatrix(b), TranslationMatrix(eye));
    MulApply(r, t, Point(p));
    assert Apply(UploadTransposed(GetLookAtMatrix(m, eye, target, up)), Point(p))
        == Apply(r, Apply(t, Point(p)));
    RotationAfterTranslation(b, eye, p);
  }

  /** The translation, then the rotation, for any frame, applied to a point. */
  lemma RotationAfterTranslation(b: Basis, eye: Vec3, p: Vec3)
    ensures var d := Sub(p, eye);
      Apply(RotationMatrix(b), Apply(TranslationMatrix(eye), Point(p)))
        == V4.Vec4(Dot(b.right, d), Dot(b.up, d), -Dot(b.front, d), 1.0)
  {
    assert Apply(TranslationMatrix(eye), Point(p)) == Point(Sub(p, eye));
  }

  /** The eye lands at the origin. */
  lemma EyeToOrigin(m: MathFns, eye: Vec3, target: Vec3, up: Vec3)
    requires Defined(m, eye, target, up)
    ensures Apply(UploadTransposed(GetLookAtMatrix(m, eye, target, up)), Point(eye))
         == V4.Vec4(0.0, 0.0, 0.0, 1.0)
  {
    var b := BasisOf(m, eye, target, up);
    var (r, t) := (RotationMatrix(b), TranslationMatrix(eye));
    MulApply(r, t, Point(eye));
    assert Apply(UploadTransposed(GetLookAtMatrix(m, eye, target, up)), Point(eye))
        == Apply(r, Apply(t, Point(eye)));
    TranslationSendsEyeToOrigin(eye);
    RotationFixesOrigin(b);
  }

  /** The translation by `-eye` sends `eye` to the origin. */
  lemma TranslationSendsEyeToOrigin(eye: Vec3)
    ensures Apply(TranslationMatrix(eye), Point(eye)) == V4.Vec4(0.0, 0.0, 0.0, 1.0)
  {
  }

  /** A rotation block fixes the origin. */
  lemma RotationFixesOrigin(b: Basis)
    ensures Apply(RotationMatrix(b), V4.Vec4(0.0, 0.0, 0.0, 1.0)) == V4.Vec4(0.0, 0.0, 0.0, 1.0)
  {
  }

  /** The target lands on the negative z axis at its distance from the eye. */
  lemma TargetOnNegativeZ(m: MathFns, eye: Vec3, target: Vec3, up: Vec3)
    requires Lawful(m)
    requires Defined(m, eye, target, up)
    ensures Apply(UploadTransposed(GetLookAtMatrix(m, eye, target, up)), Point(target))
         == V4.Vec4(0.0, 0.0, -Length(m, Sub(target, eye)), 1.0)
  {
    var b := BasisOf(m, eye, target, up);
    var d := Sub(target, eye);
    ViewCoordinates(m, eye, target, up, target);
    FrameCoordinatesOfFront(m, b, Length(m, d), d);
  }

  /** In an orthonormal frame, `len * front` has coordinates `(0, 0, -len)`. */
  lemma FrameCoordinatesOfFront(m: MathFns, b: Basis, len: real, d: Vec3)
    requires Lawful(m) && Orthonormal(m, b)
    requires d == Scale(len, b.front)
    ensures V4.Vec4(Dot(b.right, d), Dot(b.up, d), -Dot(b.front, d), 1.0) == V4.Vec4(0.0, 0.0, -len, 1.0)
  {
    DotScale(b.right, len, b.front);
    DotScale(b.up, len, b.front);
    DotScale(b.front, len, b.front);
    DotCommutes(b.front, b.right);
    DotCommutes(b.front, b.up);
    DotSelfIsLengthSquared(m, b.front);
  }

  /** The rotation block's rows are unit vectors, pairwise orthogonal, so the
      view preserves lengths and angles. */
  lemma RotationRowsOrthonormal(m: MathFns, eye: Vec3, target: Vec3, up: Vec3)
    requires Lawful(m)
    requires Defined(m, eye, target, up)
    ensures var r := RotationMatrix(BasisOf(m, eye, target, up));
      && V4.Dot(r.r0, r.r1) == 0.0 && V4.Dot(r.r0, r.r2) == 0.0 && V4.Dot(r.r1, r.r2) == 0.0
      && V4.Dot(r.r0, r.r0) == 1.0 && V4.Dot(r.r1, r.r1) == 1.0 && V4.Dot(r.r2, r.r2) == 1.0
  {
    RowsOfOrthonormal(m, BasisOf(m, eye, target, up));
  }

  /** The rotation block of any orthonormal frame has orthonormal rows. */
  lemma RowsOfOrthonormal(m: MathFns, b: Basis)
    requires Lawful(m) && Orthonormal(m, b)
    ensures var r := RotationMatrix(b);
      && V4.Dot(r.r0, r.r1) == 0.0 && V4.Dot(r.r0, r.r2) == 0.0 && V4.Dot(r.r1, r.r2) == 0.0
      && V4.Dot(r.r0, r.r0) == 1.0 && V4.Dot(r.r1, r.r1) == 1.0 && V4.Dot(r.r2, r.r2) == 1.0
  {
    DotSelfIsLengthSquared(m, b.front);
    DotSelfIsLengthSquared(m, b.right);
    DotSelfIsLengthSquared(m, b.up);
  }
}
