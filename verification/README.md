# Camera and linear-algebra core of a learnopengl tutorial series, in Dafny

This project models the hand-written mathematics of a series of C++/OpenGL
tutorial programs and proves what that mathematics does:

- `Vector3f` and `Vector4f` (fvector.hpp): addition, subtraction, negation,
  componentwise and scalar multiplication, division by reciprocal, the
  compound assignments, `dot`, `cross`, `length` and `normalize`
  (modules `Vector3`, `Vector4`).
- The way matrices reach the shader (module `Matrices`). Each matrix is
  written as `glm::mat4(x0, ..., x15)`, sixteen literals laid out as four rows.
  glm fills columns from them, so the glm value is the transpose. Every
  upload of a hand-written matrix passes `GL_TRUE`, which transposes again. The shader therefore sees
  the written rows exactly, and a glm product `a * b * c` arrives reversed,
  as `c * b * a`.
- `get_projection_matrix` (module `Projection`). 13_keyboardevent.cpp,
  17_specularlight.cpp and 19_assimpmodel.cpp share one verbatim copy. The
  shader sees `Scale * Translate * Perspective`, which equals the classic
  OpenGL `glFrustum` matrix. Its clip `w` is `-z`. The near plane maps to
  depth -1 and the far plane to +1.
- The variant in 11_perspectiveprojection.cpp (module `PerspectiveProjection`)
  flips three signs: the z translation is `-(n + f) / 2` instead of
  `+(n + f) / 2`, the perspective entry is `-n * f` instead of `n * f`, and
  the bottom row is `(0, 0, 1, 0)` instead of `(0, 0, -1, 0)`. Its clip `w`
  is `+z`, and its depth order is reversed. That program draws with
  `glm::perspective`, uploaded with `GL_FALSE`, and never uploads the
  variant; the variant is modelled as if uploaded like the other matrices. This module also holds the fixed
  model and view matrices of that program.
- `get_look_at_matrix` (module `LookAt`). It builds the orthonormal basis
  front / right / true-up from the eye, the target and `up`. The view is
  `Rotation * Translation(-eye)`: it sends the eye to the origin and the
  target to `(0, 0, -distance)`.
- The key-flag state machine of `keyboard_press_callback` and
  `keyboard_release_callback` (module `Keys`).
- The target-point camera of 13_keyboardevent.cpp (module `KeyboardEvent`).
  Position and target slide together along the world axes.
- The mouse-look camera of 17_specularlight.cpp and 19_assimpmodel.cpp
  (module `MouseLook`):
  - yaw is wrapped with `glm::mod` and pitch is clamped;
  - the position walks along the old line of sight or sideways;
  - the line of sight becomes the unit vector the two angles describe.
- The initial poses of those two programs (modules `SpecularLight` and
  `AssimpModel`).
- `scene::get_scene_dir` and `scene::init_indices` of 19_assimpmodel.cpp
  (modules `SceneDir` and `Indices`).

Arithmetic is over `real`. `sqrt`, `sin`, `cos`, `tan` and `glm::radians`
are kept abstract. They are the fields of a `Scalars.MathFns` value passed to
every member that uses them. The proofs rely only on the facts
`Scalars.Lawful` lists:
- `sqrt(x) >= 0` and `sqrt(x)^2 = x` for `x >= 0`;
- `sin^2 + cos^2 = 1`;
- `sin 0 = 0` and `cos 0 = 1`;
- `radians(0) = 0`.

`glm::mod(x, y)` is written out as `x - y * floor(x / y)`, and `glm::clamp`
as `min(max(x, lo), hi)`.

The wrapped yaw range is the half-open `[-180, 180)` that
`glm::mod(yaw + 180, 360) - 180` gives, not `(-180, 180]` as it is sometimes
described. The model follows the code.

## Model

| member | source | states |
|---|---|---|
| Vector3.Neg | fvector.hpp:28-30 | `-v` added to `v` gives the zero vector |
| Vector3.NegNeg | fvector.hpp:28-30 | negating twice gives the vector back |
| Vector3.Set | fvector.hpp:32 | writing component `i` through `operator []` sets that component and leaves the other two |
| Vector3.Add | fvector.hpp:81-87 | the componentwise sum; `Vector3.AddLaws` proves it commutes and that the dot product distributes over it, and `Vector3.Sub` is its inverse |
| Vector3.AddLaws | fvector.hpp:81-87 | `v1 + v2 == v2 + v1`, and `u . (v1 + v2) == u . v1 + u . v2` |
| Vector3.Sub | fvector.hpp:89-95 | adding `v2` back to `v1 - v2` gives `v1` |
| Vector3.AddThenSub | fvector.hpp:81-95 | `(v + w) - w == v` |
| Vector3.MulComponentwise | fvector.hpp:97-103 | the components of `v1 * v2` sum to `v1.dot(v2)` |
| Vector3.Scale | fvector.hpp:105-111 | the dot product of `s * v` with `v` is `s` times the squared length of `v` |
| Vector3.ScaleIsParallel | fvector.hpp:105-111 | `s * v` is parallel to `v`: their cross product is zero |
| Vector3.ScaleRight | fvector.hpp:113-115 | `v * s` divided by a nonzero `s` gives `v` back |
| Vector3.Div | fvector.hpp:117-119 | `s` times `v / s` is `v` |
| Vector3.DivIsReciprocalScale | fvector.hpp:113-119 | `v / s == (1 / s) * v` and `v * s == s * v` |
| Vector3.MulProperties | fvector.hpp:97-103 | componentwise multiplication commutes; multiplying by `(s, s, s)` is scaling by `s` |
| Vector3.AddAssign | fvector.hpp:34-39 | `+=`, one component at a time, leaves the same vector as binary `+` |
| Vector3.SubAssign | fvector.hpp:41-46 | `-=` leaves the same vector as binary `-` |
| Vector3.ScaleAssign | fvector.hpp:48-53 | `*=` leaves the same vector as scalar `*` |
| Vector3.DivAssign | fvector.hpp:55-57 | `/=` leaves the same vector as `/` |
| Vector3.Dot | fvector.hpp:63-68 | the sum of the three component products; its laws are `Vector3.DotCommutes`, `Vector3.DotSelfNonNegative` and `Vector3.AddLaws` |
| Vector3.DotSelfNonNegative | fvector.hpp:63-68 | `v.dot(v)` is never negative |
| Vector3.DotCommutes | fvector.hpp:63-68 | `a.dot(b) == b.dot(a)` |
| Vector3.Cross | fvector.hpp:70-75 | the three 2x2 determinants as written; `Vector3.CrossIsOrthogonal`, `Vector3.CrossAnticommutes`, `Vector3.Lagrange` and `Vector3.ScaleIsParallel` state what it means |
| Vector3.CrossIsOrthogonal | fvector.hpp:63-75 | `a.cross(b)` is orthogonal to both `a` and `b` |
| Vector3.CrossAnticommutes | fvector.hpp:70-75 | `a.cross(b) == -(b.cross(a))` |
| Vector3.Lagrange | fvector.hpp:70-75 | `(a x b) . (a x b) == (a . a)(b . b) - (a . b)^2` |
| Vector3.CrossOfOrthonormal | fvector.hpp:70-75 | the cross product of orthogonal unit vectors is a unit vector |
| Vector3.Length | fvector.hpp:24-26 | under the axioms, `length()` is non-negative and its square is `v.dot(v)` |
| Vector3.DotSelfIsLengthSquared | fvector.hpp:24-26 | `v.dot(v) == length()^2` |
| Vector3.Normalize | fvector.hpp:59-61 | scaling `normalize()` by `length()` gives `v` back; under the axioms the result has length 1 and a positive dot product with `v`, so it is a positive multiple of `v` |
| Vector3.NormalizeScaledUnit | fvector.hpp:59-61 | a positive multiple `s u` of a unit vector `u` has length `s` and normalizes to `u` |
| Vector3.NormalizeKnownMultiple | fvector.hpp:59-61 | a vector equal to `s u` with `s > 0` and `sqrt(v . v) == s` normalizes to `u`, with no axiom needed |
| Vector4.Neg | fvector.hpp:149-151 | `-v` added to `v` gives the zero vector |
| Vector4.Set | fvector.hpp:153 | writing component `i` sets it and leaves the other three |
| Vector4.Add | fvector.hpp:206-213 | the componentwise sum; `Vector4.AddLaws` proves it commutes and that the dot product distributes over it, and `Vector4.Sub` is its inverse |
| Vector4.AddLaws | fvector.hpp:206-213 | `v1 + v2 == v2 + v1`, and `u . (v1 + v2) == u . v1 + u . v2` |
| Vector4.Sub | fvector.hpp:215-222 | adding `v2` back to `v1 - v2` gives `v1` |
| Vector4.AddSubNegInverses | fvector.hpp:206-222 | `(v + w) - w == v` and `-(-v) == v` |
| Vector4.MulComponentwise | fvector.hpp:224-231 | the components of `v1 * v2` sum to `v1.dot(v2)` |
| Vector4.Scale | fvector.hpp:233-240 | the dot product of any `u` with `s * v` is `s` times that with `v` |
| Vector4.ScaleRight | fvector.hpp:242-244 | `v * s` divided by a nonzero `s` gives `v` back |
| Vector4.Div | fvector.hpp:246-248 | `s` times `v / s` is `v` |
| Vector4.DivIsReciprocalScale | fvector.hpp:242-248 | `v / s == (1 / s) * v` and `v * s == s * v` |
| Vector4.MulProperties | fvector.hpp:224-231 | componentwise multiplication commutes; multiplying by `(s, s, s, s)` is scaling by `s` |
| Vector4.AddAssign | fvector.hpp:155-161 | `+=` leaves the same vector as binary `+` |
| Vector4.SubAssign | fvector.hpp:163-169 | `-=` leaves the same vector as binary `-` |
| Vector4.ScaleAssign | fvector.hpp:171-177 | `*=` leaves the same vector as scalar `*` |
| Vector4.DivAssign | fvector.hpp:179-181 | `/=` leaves the same vector as `/` |
| Vector4.Dot | fvector.hpp:187-193 | the sum of the four component products; its laws are `Vector4.DotCommutes`, `Vector4.DotSelfNonNegative` and `Vector4.AddLaws` |
| Vector4.DotSelfNonNegative | fvector.hpp:187-193 | `v.dot(v)` is never negative |
| Vector4.DotCommutes | fvector.hpp:187-193 | `a.dot(b) == b.dot(a)` |
| Vector4.Cross | fvector.hpp:195-200 | the xyz part of the result is the 3-D cross product of the xyz parts, and `w` is 1 |
| Vector4.CrossIgnoresW | fvector.hpp:195-200 | changing either argument's `w` does not change `cross` |
| Vector4.Length | fvector.hpp:145-147 | under the axioms, `length()` is non-negative and its square is `v.dot(v)` |
| Vector4.Normalize | fvector.hpp:183-185 | scaling `normalize(v)` by `v.length()` gives `v` back; under the axioms the result has length 1 and a positive dot product with `v` |
| Vector4.NormalizeIsUnit | fvector.hpp:183-185 | under the axioms, `v / v.length()` has length 1 and a positive dot product with `v` |
| Vector4.NormalizeIgnoresReceiver | fvector.hpp:183-185 | two different receivers give the same `normalize(v)` |
| Scalars.GlmMod | 19_assimpmodel.cpp:495 | for `y > 0` the result lies in `[0, y)` and differs from `x` by a whole multiple of `y`; an `x` already in `[0, y)` is kept |
| Scalars.Clamp | 19_assimpmodel.cpp:498 | the result lies in `[lo, hi]`; it is `x` inside the interval, `lo` below it and `hi` above it |
| Matrices.GlmMat4 | 19_assimpmodel.cpp:576-581 | column `j` of the glm value is written row `j` of the 16-scalar constructor |
| Matrices.UploadTransposed | 19_assimpmodel.cpp:616-618 | the matrix uploaded with `GL_TRUE` has row `i` equal to column `i` of the glm value |
| Matrices.UploadOfGlmMat4 | 19_assimpmodel.cpp:616 | a single constructed matrix reaches the shader with its rows as written |
| Matrices.UploadOfGlmProduct2 | 19_assimpmodel.cpp:590 | the upload of `glm(a) * glm(b)` is `b * a` of the written matrices |
| Matrices.UploadOfGlmProduct3 | 19_assimpmodel.cpp:564 | the upload of `glm(a) * glm(b) * glm(c)` is `c * (b * a)` of the written matrices |
| Matrices.TransposeOfMul | 19_assimpmodel.cpp:564 | the transpose of a product is the reversed product of the transposes |
| Matrices.MulApply | 19_assimpmodel.cpp:564 | applying a product is applying its factors right to left |
| Projection.FrustumOf | 19_assimpmodel.cpp:530-533 | the near-plane box is symmetric (`bottom = -top`, `left = -right`), and its width is `aspect_ratio` times its height |
| Projection.ScaleMatrix | 19_assimpmodel.cpp:536-541 | `scale` as written; `Projection.ShaderMatrixIsGlFrustum` and `Projection.ClipCoordinates` state what the product it is part of does |
| Projection.TranslateMatrix | 19_assimpmodel.cpp:543-548 | `translate` as written, with `+(n + f) / 2`; `Projection.TranslateCentersOnlyDepth` states its effect |
| Projection.PerspectiveMatrix | 19_assimpmodel.cpp:550-555 | `perspective` as written, with `n * f` and bottom row `(0, 0, -1, 0)`; `Projection.TranslateTimesPerspective` multiplies it out |
| Projection.ProjectionOfFrustum | 19_assimpmodel.cpp:534-566 | the upload of `perspective * translate * scale` is `Scale * (Translate * Perspective)` of the written rows |
| Projection.GetProjectionMatrix | 19_assimpmodel.cpp:528-566 | the same for the box built from `fov`, `aspect_ratio` and `n` |
| Projection.ShaderMatrixIsGlFrustum | 19_assimpmodel.cpp:534-566 | for any box, the matrix the shader receives is the OpenGL `glFrustum(left, right, bottom, top, n, f)` matrix |
| Projection.TranslateTimesPerspective | 19_assimpmodel.cpp:543-555 | `Translate * Perspective`, multiplied out |
| Projection.ClipCoordinates | 19_assimpmodel.cpp:528-566 | the point `(x, y, z, 1)` goes to `(n x / right, n y / top, ((n + f) z + 2 f n) / (n - f), -z)`: clip `w = -z` |
| Projection.SymmetricClip | 19_assimpmodel.cpp:534-566 | the same clip coordinates for any symmetric box |
| Projection.NearAndFarDepths | 19_assimpmodel.cpp:528-566 | with `0 < n < f`, `(0, 0, -n, 1)` gets `w = n` and `z = -w` (depth -1); `(0, 0, -f, 1)` gets `w = f` and `z = w` (depth +1) |
| Projection.SymmetricDepths | 19_assimpmodel.cpp:534-566 | the near and far depths for any symmetric box |
| Projection.NearCornerToNdcCorner | 19_assimpmodel.cpp:528-566 | with `0 < n < f`, the corner `(right, top, -n)` gets clip coordinates `(w, w, -w, w)` with `w = n`: normalized corner `(1, 1, -1)` |
| Projection.SymmetricNearCorner | 19_assimpmodel.cpp:534-566 | the same corner result for any symmetric box |
| Projection.TranslateCentersOnlyDepth | 19_assimpmodel.cpp:543-548 | for the box `get_projection_matrix` builds, the x and y translations are 0 and z moves by `+(n + f) / 2` |
| PerspectiveProjection.TranslateMatrix | 11_perspectiveprojection.cpp:59-64 | `translate` as written, with `-(n + f) / 2`; `PerspectiveProjection.TranslateCentersOnlyDepth` states its effect |
| PerspectiveProjection.PerspectiveMatrix | 11_perspectiveprojection.cpp:66-71 | `perspective` as written, with `-n * f` and bottom row `(0, 0, 1, 0)`; `PerspectiveProjection.ApplyFactors` applies it |
| PerspectiveProjection.GetProjectionMatrix | 11_perspectiveprojection.cpp:40-83 | the upload of this variant's result for the box built from `fov`, `aspect_ratio` and `n` would be `Scale * (Translate * Perspective)` of its written rows |
| PerspectiveProjection.ProjectionOfFrustum | 11_perspectiveprojection.cpp:42-83 | the upload of this variant's `perspective * translate * scale` is `Scale * (Translate * Perspective)` of its written rows |
| PerspectiveProjection.ClipCoordinates | 11_perspectiveprojection.cpp:42-83 | `(x, y, z, 1)` goes to `(n x / right, n y / top, ((n + f) z - 2 f n) / (n - f), z)`: clip `w = +z` |
| PerspectiveProjection.SymmetricClip | 11_perspectiveprojection.cpp:52-80 | the same clip coordinates for any symmetric box |
| PerspectiveProjection.ApplyFactors | 11_perspectiveprojection.cpp:52-71 | applying the three written factors one after the other gives those clip coordinates |
| PerspectiveProjection.NearAndFarDepths | 11_perspectiveprojection.cpp:59-80 | with `0 < n < f`, `(0, 0, +n, 1)` gets `z = w = n` (depth +1) and `(0, 0, +f, 1)` gets `w = f`, `z = -w` (depth -1), the reverse of the later copy |
| PerspectiveProjection.SymmetricDepths | 11_perspectiveprojection.cpp:59-80 | the same depths for any symmetric box |
| PerspectiveProjection.NearCornerToNdcCorner | 11_perspectiveprojection.cpp:42-83 | the corner `(right, top, n)` gets clip `x = y = w = n`: normalized `x = y = 1` |
| PerspectiveProjection.TranslateCentersOnlyDepth | 11_perspectiveprojection.cpp:45-62 | for the symmetric box the x and y translations are 0 and z moves by `-(n + f) / 2` |
| PerspectiveProjection.AngleAtFrame | 11_perspectiveprojection.cpp:90-91 | frame `k`, counting from 0, draws with angle `0.01 (k + 1)` |
| PerspectiveProjection.ModelMatrix | 11_perspectiveprojection.cpp:93-98 | the model matrix as written; `PerspectiveProjection.ModelIsRotationAboutY` states that it is a rotation about `y` |
| PerspectiveProjection.ModelIsRotationAboutY | 11_perspectiveprojection.cpp:93-98 | the uploaded model matrix keeps `y` and `w` and preserves `x^2 + z^2`, and it is the identity at angle 0 |
| PerspectiveProjection.ViewMovesBackFive | 11_perspectiveprojection.cpp:100-105 | the uploaded view matrix maps `(x, y, z, 1)` to `(x, y, z - 5, 1)` |
| LookAt.BasisOf | 19_assimpmodel.cpp:572-574 | distance times `front` is `target - eye`; the length of `cross(front, up_pos)` times `right` is that cross product, and under the axioms their dot product is positive, so `right` points its way; true-up is `cross(right, front)`; `right` is orthogonal to `up_pos`; under the axioms front, right and true-up are orthonormal |
| LookAt.BasisIsOrthonormal | 19_assimpmodel.cpp:572-574 | the vectors formed from a unit `front` are orthonormal, and `right` is orthogonal to `up_pos` |
| LookAt.BasisFromParts | 19_assimpmodel.cpp:572-574 | the basis in terms of the two normalized vectors |
| LookAt.BasisOfScaledUnits | 19_assimpmodel.cpp:572-574 | when the sight line is `s > 0` times a unit `front` and `cross(front, up)` is `t > 0` times a unit `right`, the basis is `front`, `right`, `cross(right, front)` |
| LookAt.RotationMatrix | 19_assimpmodel.cpp:576-581 | `mat_left` as written; `LookAt.RowsOfOrthonormal` proves its rows orthonormal for an orthonormal frame |
| LookAt.TranslationMatrix | 19_assimpmodel.cpp:583-588 | `mat_right` as written; `LookAt.EyeToOrigin` and `MouseLook.TranslationMoves` state that it moves points by `-eye` |
| LookAt.GetLookAtMatrix | 19_assimpmodel.cpp:570-593 | the upload of `mat_right * mat_left` is `Rotation * Translation` of the written rows |
| LookAt.ViewCoordinates | 19_assimpmodel.cpp:570-593 | a point `p` goes to the components of `p - eye` along right, true-up and `-front` |
| LookAt.RotationAfterTranslation | 19_assimpmodel.cpp:576-588 | the translation followed by the rotation, for any frame |
| LookAt.EyeToOrigin | 19_assimpmodel.cpp:570-593 | the eye goes to the origin |
| LookAt.TargetOnNegativeZ | 19_assimpmodel.cpp:570-593 | under the axioms the target goes to `(0, 0, -d)`, with `d` the length of `target - eye` |
| LookAt.FrameCoordinatesOfFront | 19_assimpmodel.cpp:576-581 | in an orthonormal frame, `len * front` has coordinates `(0, 0, -len)` |
| LookAt.RotationRowsOrthonormal | 19_assimpmodel.cpp:576-581 | under the axioms the rotation block's rows are unit vectors, pairwise orthogonal |
| LookAt.RowsOfOrthonormal | 19_assimpmodel.cpp:576-581 | the rotation block of any orthonormal frame has orthonormal rows |
| Keys.FlagOf | 19_assimpmodel.cpp:449-460 | 'w' drives flag 0, 's' flag 1, 'a' flag 2 and 'd' flag 3, and only those keys drive a flag |
| Keys.KeyEvent | 19_assimpmodel.cpp:442-489 | the result is an exit exactly for Esc; otherwise the key's own flag becomes the event's value and every other flag is kept |
| Keys.Press | 19_assimpmodel.cpp:442-464 | exit exactly for Esc; otherwise the key's flag becomes true and the other flags are kept |
| Keys.Release | 19_assimpmodel.cpp:467-489 | exit exactly for Esc; otherwise the key's flag becomes false and the other flags are kept |
| Keys.OtherKeysIgnored | 19_assimpmodel.cpp:461-462 | any key other than Esc, 'w', 's', 'a' and 'd' leaves all four flags as they were, on press and on release |
| Keys.MovementKeys | 19_assimpmodel.cpp:442-489 | pressing 'w', 's', 'a' or 'd' sets exactly flag 0, 1, 2 or 3 and keeps the rest; releasing that key clears exactly that flag |
| Keys.ReleaseUndoesPress | 19_assimpmodel.cpp:442-489 | release undoes a press of a key whose flag was clear, and press undoes a release of a key whose flag was set |
| Keys.EventsIdempotent | 19_assimpmodel.cpp:442-489 | pressing twice is pressing once, and releasing twice is releasing once |
| Keys.DistinctKeysCommute | 19_assimpmodel.cpp:442-489 | events on two different non-Esc keys commute |
| Keys.NetStep | 13_keyboardevent.cpp:102-118 | the net step of a pair of opposite keys is `speed`, `-speed`, or 0 when both or neither are held |
| KeyboardEvent.Shift | 13_keyboardevent.cpp:103 | `v[i] += d` moves component `i` by `d` and keeps the others |
| KeyboardEvent.ShiftBoth | 13_keyboardevent.cpp:102-105 | moving position and target together keeps `target - pos` and `up` |
| KeyboardEvent.PollCameraMove | 13_keyboardevent.cpp:100-119 | `target - pos` and `up` are kept, `y` never changes, `z` moves by the net step of 'w'/'s' and `x` by the net step of 'a'/'d' |
| KeyboardEvent.OppositeKeysCancel | 13_keyboardevent.cpp:102-118 | with both keys of each pair held, or neither, the camera is unchanged |
| KeyboardEvent.PressedKeySteps | 13_keyboardevent.cpp:50-113 | after pressing 'w' from rest, one poll moves the position by `MOVE_SPEED` (0.05) along `+z`; after pressing 'a', by 0.05 along `+x` |
| KeyboardEvent.SingleKeySteps | 13_keyboardevent.cpp:102-113 | only 'w' moves the position by `speed` along `+z`; only 'a' moves it by `speed` along `+x` |
| KeyboardEvent.InitialBasis | 13_keyboardevent.cpp:30-34 | from the initial pose the look-at basis is front `(0, 0, 1)`, right `(-1, 0, 0)`, true-up `(0, 1, 0)` |
| KeyboardEvent.PoseBasis | 13_keyboardevent.cpp:164-168 | the same basis, for the pose given by name |
| KeyboardEvent.PoseVectors | 13_keyboardevent.cpp:164-168 | the sight line is 4 times `+z`, `cross(+z, up)` is the unit `-x`, and `cross(-x, +z)` is `up` |
| KeyboardEvent.InitialViewOfTarget | 13_keyboardevent.cpp:205 | from the initial pose the view sends the target, the origin, to `(0, 0, -4)` |
| KeyboardEvent.PoseViewOfTarget | 13_keyboardevent.cpp:164-187 | the same, for the pose given by name |
| KeyboardEvent.LawfulHasInitialRoots | 13_keyboardevent.cpp:30-34 | the axioms give the roots `sqrt(16) = 4` and `sqrt(1) = 1` that the initial pose needs |
| MouseLook.YawStep | 19_assimpmodel.cpp:494 | the yaw change is 0 exactly at the centre column and positive exactly to the right of it |
| MouseLook.PitchStep | 19_assimpmodel.cpp:497 | the pitch change is 0 exactly at the centre row and positive exactly above it |
| MouseLook.WrapYaw | 19_assimpmodel.cpp:495 | the wrapped yaw lies in `[-180, 180)` and differs from the input by a whole number of turns |
| MouseLook.WrapYawUnique | 19_assimpmodel.cpp:495 | any angle in `[-180, 180)` a whole number of turns from `yaw` is the wrapped yaw |
| MouseLook.WrapYawKeepsRange | 19_assimpmodel.cpp:495 | a yaw already in `[-180, 180)` is kept |
| MouseLook.MouseMove | 19_assimpmodel.cpp:494-498 | after the update yaw lies in `[-180, 180)` a whole number of turns from `yaw + step`, and pitch is `pitch + step` clamped to `[-89, 89]` |
| MouseLook.CentredPointerKeepsAngles | 19_assimpmodel.cpp:494-500 | an event at the centre, where the pointer is warped back, leaves angles in range unchanged |
| MouseLook.Direction | 19_assimpmodel.cpp:519-523 | under the axioms the direction's squared length is 1 |
| MouseLook.DirectionSquares | 19_assimpmodel.cpp:519-523 | the squared length of `(cos p sin y, sin p, -cos p cos y)` is 1 under the axioms |
| MouseLook.DirectionIsUnit | 17_specularlight.cpp:217-222 | under the axioms the direction has length 1 |
| MouseLook.DirectionAtRest | 17_specularlight.cpp:217-222 | with yaw and pitch 0 the direction is `(0, 0, -1)` |
| MouseLook.LawfulTrigAtZero | 17_specularlight.cpp:217-222 | the axioms give `radians(0) = 0`, `sin 0 = 0` and `cos 0 = 1` |
| MouseLook.Side | 19_assimpmodel.cpp:514-517 | `normalize(cross(target, up))` is orthogonal to both, scales back to `cross(target, up)` by its length, points the same way as it, and is a unit vector under the axioms |
| MouseLook.PollCameraMove | 19_assimpmodel.cpp:505-525 | the new `target` is the direction of the current angles (of length 1 under the axioms), and `up` is kept |
| MouseLook.PollPosition | 19_assimpmodel.cpp:505-518 | for any keys held, the position moves by the net step of 'w' and 's' along the old `target`, plus, when 'a' or 'd' is held, the net step of 'd' and 'a' along `Side` |
| MouseLook.PositionUsesOldTarget | 19_assimpmodel.cpp:505-518 | the new position does not depend on the angles, only on the old `target` |
| MouseLook.WalkAlongSight | 19_assimpmodel.cpp:507-512 | without 'a' and 'd' the position moves along the old `target` by the net step of 'w' and 's' |
| MouseLook.WalkSideways | 19_assimpmodel.cpp:513-518 | without 'w' and 's' the position moves along `Side` by the net step of 'd' and 'a' |
| MouseLook.BalancedKeysStay | 17_specularlight.cpp:203-216 | with 'w' and 's' both held or both released, and likewise 'a' and 'd', the position is unchanged |
| MouseLook.ForwardStepLength | 19_assimpmodel.cpp:507-509 | with a unit line of sight, holding only 'w' moves the camera exactly `speed` |
| MouseLook.StrafeIsSideways | 19_assimpmodel.cpp:516-518 | holding only 'd' moves the camera at right angles to the line of sight and to `up` |
| MouseLook.ViewMatrix | 19_assimpmodel.cpp:611 | the uploaded view is `Rotation * Translation` for eye `pos` and target `pos + target` |
| MouseLook.ViewLooksAlongTarget | 19_assimpmodel.cpp:611 | with a unit line of sight, the point one unit ahead goes to `(0, 0, -1)` and the camera to the origin |
| MouseLook.RestingBasis | 17_specularlight.cpp:268-272 | a camera anywhere looking down `-z` with `y` up has front `(0, 0, -1)`, right `(1, 0, 0)`, true-up `(0, 1, 0)` |
| MouseLook.RestingBasisAt | 17_specularlight.cpp:268-272 | the same, with the vectors given by name |
| MouseLook.RestingVectors | 17_specularlight.cpp:270-272 | `cross((0, 0, -1), up)` is the unit `+x`, and `cross(+x, (0, 0, -1))` is `up` |
| MouseLook.PollAtRest | 17_specularlight.cpp:203-223 | a poll with no key held and both angles 0 leaves a resting camera unchanged |
| MouseLook.RestingRotation | 17_specularlight.cpp:274-279 | a resting camera's rotation block is the identity |
| MouseLook.RestingViewTranslates | 17_specularlight.cpp:309 | a resting camera's view moves every point by `-pos` |
| MouseLook.TranslationMoves | 17_specularlight.cpp:281-286 | the translation block moves a point by `-pos` |
| SpecularLight.FirstPollKeepsPose | 17_specularlight.cpp:49-59 | the first poll, with no key held and `yaw = pitch = 0`, leaves the initial camera unchanged |
| SpecularLight.InitialBasis | 17_specularlight.cpp:55-59 | the initial pose has front `(0, 0, -1)`, right `(1, 0, 0)`, true-up `(0, 1, 0)`, and its rotation block is the identity |
| SpecularLight.InitialView | 17_specularlight.cpp:309 | the view of the initial pose moves every point by `-pos` |
| SpecularLight.InitialShift | 17_specularlight.cpp:56 | that shift is `(0, 0, -4)` |
| AssimpModel.FirstPollKeepsPose | 19_assimpmodel.cpp:68-78 | the first poll, with no key held and `yaw = pitch = 0`, leaves the initial camera unchanged |
| AssimpModel.InitialBasis | 19_assimpmodel.cpp:74-78 | the initial pose has front `(0, 0, -1)`, right `(1, 0, 0)`, true-up `(0, 1, 0)`, and its rotation block is the identity |
| AssimpModel.InitialView | 19_assimpmodel.cpp:611 | the view of the initial pose moves every point by `-pos` |
| AssimpModel.InitialShift | 19_assimpmodel.cpp:75 | that shift is `(0, -18, -60)` |
| SceneDir.FindLastOf | 19_assimpmodel.cpp:232 | the result is -1 exactly when `c` is absent; otherwise it holds `c` and no later index does |
| SceneDir.FindLastOfUnique | 19_assimpmodel.cpp:232 | an index holding the last `c` is the one `find_last_of` reports |
| SceneDir.GetSceneDir | 19_assimpmodel.cpp:230-245 | the result is never empty, and it is "." when the path has no '/' |
| SceneDir.RootDirectory | 19_assimpmodel.cpp:238-240 | when the only '/' is the leading one, the result is "/" |
| SceneDir.DirectoryAndFileName | 19_assimpmodel.cpp:241-243 | when the last '/' is at `k > 0`, the result has length `k`, and the result followed by `path[k..]` is the path |
| SceneDir.DirectoryIsPrefix | 19_assimpmodel.cpp:230-245 | for a path with a '/', the result is "/" or a proper prefix of the path that is followed by '/' |
| Indices.FlattenSnoc | 19_assimpmodel.cpp:308-313 | flattening one more face appends its indices |
| Indices.FlattenLength | 19_assimpmodel.cpp:305-316 | the flattened list is as long as the sum of the face sizes |
| Indices.FlattenPosition | 19_assimpmodel.cpp:305-316 | index `j` of face `i` sits at position `size(faces before i) + j`: face order and the order within a face are kept |
| Indices.InitIndices | 19_assimpmodel.cpp:305-316 | the two loops return the faces' index lists concatenated in face order, with length the sum of the face sizes |

## Left out

- Window, shader, buffer, texture and draw calls are I/O and foreign
  library calls and are not modelled. So are the lighting uniforms, the
  Assimp import and stb_image decoding. The only exceptions are
  `get_scene_dir` and `init_indices`, which are modelled.
- `glutWarpPointer` and `glutPostRedisplay` in `mouse_move_callback` are not
  modelled. The warp is reflected only in
  `MouseLook.CentredPointerKeepsAngles`: an event at the centre changes
  nothing.
- `exit(0)` on Esc is modelled as the `Keys.Exit` outcome.
- Single-precision rounding is not modelled; all arithmetic is over `real`.
- `sqrt`, `sin`, `cos`, `tan` and `glm::radians` are abstract. Only the facts
  in `Scalars.Lawful` are assumed. No concrete value of `tan` is known, so no
  statement uses the actual numbers `45`, `1.78`, `0.1` and `100` of the
  render callbacks.
- `glm::perspective`, which 11_perspectiveprojection.cpp actually uploads
  (with `GL_FALSE`), is a library call and is not modelled.
  `PerspectiveProjection` models that program's hand-written variant as if
  it were uploaded transposed like the other matrices.
- The `mirror` matrix is built but never used, so it is not modelled.
- The rotating model matrix of 13, 17 and 19 is the one of 11, modelled
  once as `PerspectiveProjection.ModelMatrix`.
- `render_scene_callback` is not modelled as a whole. Its pieces (the
  per-frame angle, the poll, the view and projection calls, the uploads)
  are.
- MouseLook.YawStep does not model C `int` overflow of
  `50 * (mouse_x - SIZE_WIDTH / 2)`. Pointer coordinates are unbounded
  integers.
- Scalars.GlmMod does not model the float case where rounding makes
  `glm::mod` return exactly `y`. Over the reals the result is always below
  `y`.
- Vector3.Normalize requires a nonzero length. The source divides by zero
  and yields infinities or NaN there.
- Vector4.Normalize requires a nonzero length, for the same reason.
- Vector3.Div requires a nonzero divisor. The source yields infinities or
  NaN there.
- Vector3.DivAssign requires a nonzero divisor, for the same reason.
- Vector4.Div requires a nonzero divisor, for the same reason.
- Vector4.DivAssign requires a nonzero divisor, for the same reason.
- Vector3.Dot, Vector3.Cross, Vector3.Add and Vector4.Add carry no
  contract of their own. Their laws are separate lemmas, so that every
  proof using them does not also have to carry those facts.
- LookAt.GetLookAtMatrix requires `LookAt.Defined`: the eye differs from
  the target and the line of sight is not parallel to `up`. Otherwise the
  source normalizes a zero vector.
- Projection.GetProjectionMatrix requires `Projection.Proper`: the box
  has nonzero width and height and `n != f`. Otherwise the source divides
  by zero.
- PerspectiveProjection.GetProjectionMatrix has the same requirement.
- MouseLook.PollCameraMove requires `MouseLook.CanMove`: while 'a' or 'd'
  is held, the line of sight must not be parallel to `up`. Otherwise the
  source normalizes a zero vector.
- SpecularLight.InitialBasis assumes only `sqrt(1) = 1`, not all of
  `Lawful`. That fact follows from `Lawful` (`Scalars.SqrtOne`).
- SpecularLight.InitialView assumes only `sqrt(1) = 1`, for the same reason.
- SpecularLight.FirstPollKeepsPose assumes only the values of `radians`,
  `sin` and `cos` at 0. They follow from `Lawful`
  (`MouseLook.LawfulTrigAtZero`).
- AssimpModel.InitialBasis assumes only `sqrt(1) = 1`.
- AssimpModel.InitialView assumes only `sqrt(1) = 1`.
- AssimpModel.FirstPollKeepsPose assumes only the values at 0.
- SceneDir.GetSceneDir states "." only in one direction. A path whose
  last '/' is at index 1, such as "./x", also gives ".".
- Indices.InitIndices does not model the `int` loop counters compared
  with the unsigned `mNumFaces` and `mNumIndices`. Sequence lengths are
  unbounded.
