/** The mouse-look camera shared by 17_specularlight.cpp and
    19_assimpmodel.cpp.

    `mouse_move_callback` turns the pointer's offset from the window centre
    into changes of `yaw` and `pitch` (in degrees), wraps `yaw` into
    `[-180, 180)` with `glm::mod` and clamps `pitch` to `[-89, 89]`.
    `poll_camera_move` walks the position along the current line of sight
    `cam.target` ('w'/'s') or along `normalize(cross(cam.target, cam.up))`
    ('d'/'a'), and then replaces `cam.target` by the unit direction the two
    angles describe. Unlike the target-point camera, `cam.target` is a
    direction here: the view is `get_look_at_matrix(cam.pos, cam.pos +
    cam.target, cam.up)`. */
module MouseLook {
  import opened Scalars
  import opened Vector3
  import V4 = Vector4
  import opened Matrices
  import opened Keys
  import LookAt

  /** `SIZE_WIDTH` and `SIZE_HEIGHT`. */
  const Width: int := 1920
  const Height: int := 1080

  /** The globals `yaw` and `pitch`, in degrees. */
  datatype Angles = Angles(yaw: real, pitch: real)

  /** `struct camera { pos; target; up; }`; `target` is a direction. */
  datatype Camera = Camera(pos: Vec3, target: Vec3, up: Vec3)

  /** The change of `yaw` for a pointer at column `mouseX`: the integer
      `50 * (mouse_x - SIZE_WIDTH / 2)` divided by `(GLfloat) SIZE_WIDTH`.
      Right of the centre turns right (positive), left turns left. */
  function YawStep(mouseX: int): (d: real)
    ensures d == 0.0 <==> mouseX == Width / 2
    ensures 0.0 < d <==> Width / 2 < mouseX
  {
    (50 * (mouseX - Width / 2)) as real / Width as real
  }

  /** The change of `pitch` for a pointer at row `mouseY`:
      `-50 * (mouse_y - SIZE_HEIGHT / 2) / (GLfloat) SIZE_HEIGHT`. Window rows
      grow downwards, so above the centre looks up (positive). */
  function PitchStep(mouseY: int): (d: real)
    ensures d == 0.0 <==> mouseY == Height / 2
    ensures 0.0 < d <==> mouseY < Height / 2
  {
    (-50 * (mouseY - Height / 2)) as real / Height as real
  }

  /** `glm::mod(yaw + 180, 360) - 180`: the angle in `[-180, 180)` that
      differs from `yaw` by a whole number of turns. */
  function WrapYaw(yaw: real): (r: real)
    ensures -180.0 <= r < 180.0
    ensures IsMultipleOf(yaw - r, 360.0)
  {
    GlmMod(yaw + 180.0, 360.0) - 180.0
  }

  /** `WrapYaw` is the only such angle: any `r` in `[-180, 180)` a whole
      number of turns away from `yaw` is `WrapYaw(yaw)`. In particular an
      angle already in range is kept. */
  lemma WrapYawUnique(yaw: real, r: real)
    requires -180.0 <= r < 180.0
    requires IsMultipleOf(yaw - r, 360.0)
    ensures WrapYaw(yaw) == r
  {
    var w := WrapYaw(yaw);
    var a := ((yaw - w) / 360.0).Floor;
    var b := ((yaw - r) / 360.0).Floor;
    assert (yaw - w) / 360.0 == a as real;
    assert (yaw - r) / 360.0 == b as real;
    assert (r - w) / 360.0 == (a - b) as real;
    assert -1.0 < (a - b) as real < 1.0;
    assert a == b;
  }

  /** An angle in `[-180, 180)` is left as it is. */
  lemma WrapYawKeepsRange(yaw: real)
    requires -180.0 <= yaw < 180.0
    ensures WrapYaw(yaw) == yaw
  {
    assert IsMultipleOf(yaw - yaw, 360.0);
    WrapYawUnique(yaw, yaw);
  }

  /** `mouse_move_callback(mouse_x, mouse_y)`, on the angles: `yaw` moves
      by `YawStep` and is wrapped, `pitch` moves by `PitchStep` and is
      clamped to `[-89, 89]`. The pointer warp and the redisplay request
      that follow are not state of the model. */
  function MouseMove(a: Angles, mouseX: int, mouseY: int): (r: Angles)
    ensures -180.0 <= r.yaw < 180.0
    ensures IsMultipleOf(a.yaw + YawStep(mouseX) - r.yaw, 360.0)
    ensures -89.0 <= r.pitch <= 89.0
    ensures var p := a.pitch + PitchStep(mouseY);
      && (-89.0 <= p <= 89.0 ==> r.pitch == p)
      && (p < -89.0 ==> r.pitch == -89.0)
      && (89.0 < p ==> r.pitch == 89.0)
  {
    Angles(WrapYaw(a.yaw + YawStep(mouseX)), Clamp(a.pitch + PitchStep(mouseY), -89.0, 89.0))
  }

  /** The angles every `mouse_move_callback` leaves behind. */
  predicate InRange(a: Angles) {
    -180.0 <= a.yaw < 180.0 && -89.0 <= a.pitch <= 89.0
  }

  /** A pointer event at the window centre, where `glutWarpPointer` puts
      the pointer back, changes nothing once the angles are in range. */
  lemma CentredPointerKeepsAngles(a: Angles)
    requires InRange(a)
    ensures MouseMove(a, Width / 2, Height / 2) == a
  {
    WrapYawKeepsRange(a.yaw);
  }

  /** The `direction` of `poll_camera_move`, for yaw `y` and pitch `p`:
      `(cos p sin y, sin p, -cos p cos y)` with both angles through
      `glm::radians`. */
  function Direction(m: MathFns, a: Angles): (d: Vec3)
    ensures Lawful(m) ==> Dot(d, d) == 1.0
  {
    var (y, p) := (m.radians(a.yaw), m.radians(a.pitch));
    var d := Vec3(m.cos(p) * m.sin(y), m.sin(p), -m.cos(p) * m.cos(y));
    DirectionSquares(m, y, p, d);
    d
  }

  /** The squared length of the direction is `cos^2 p (sin^2 y + cos^2 y) + sin^2 p`, which the axioms make 1. */
  lemma DirectionSquares(m: MathFns, y: real, p: real, d: Vec3)
    requires d == Vec3(m.cos(p) * m.sin(y), m.sin(p), -m.cos(p) * m.cos(y))
    ensures Lawful(m) ==> Dot(d, d) == 1.0
  {
    var (cp, sp, cy, sy) := (m.cos(p), m.sin(p), m.cos(y), m.sin(y));
    assert Dot(d, d) == cp * cp * (sy * sy + cy * cy) + sp * sp;
  }

  /** Under the axioms the direction is a unit vector. */
  lemma DirectionIsUnit(m: MathFns, a: Angles)
    ensures Lawful(m) ==> Length(m, Direction(m, a)) == 1.0
  {
    if Lawful(m) {
      SqrtOne(m);
    }
  }

  /** The values at 0 the resting pose needs; any lawful `m` has them. */
  predicate TrigAtZero(m: MathFns) {
    m.radians(0.0) == 0.0 && m.sin(0.0) == 0.0 && m.cos(0.0) == 1.0
  }

  /** Under the axioms, `radians(0) = 0`, `sin 0 = 0` and `cos 0 = 1`. */
  lemma LawfulTrigAtZero(m: MathFns)
    requires Lawful(m)
    ensures TrigAtZero(m)
  {
  }

  /** With `yaw = pitch = 0` the camera looks down `-z`. */
  lemma DirectionAtRest(m: MathFns)
    requires TrigAtZero(m)
    ensures Direction(m, Angles(0.0, 0.0)) == Vec3(0.0, 0.0, -1.0)
  {
  }

  /** `normalize(cross(cam.target, cam.up))`, the direction 'd' walks: it
      points the way of `cross(target, up)` (its length times `s` is that
      cross product, with a positive dot product under the axioms), and is
      orthogonal to `target` and `up`. */
  function Side(m: MathFns, cam: Camera): (s: Vec3)
    requires Length(m, Cross(cam.target, cam.up)) != 0.0
    ensures Scale(Length(m, Cross(cam.target, cam.up)), s) == Cross(cam.target, cam.up)
    ensures Lawful(m) ==> 0.0 < Dot(Cross(cam.target, cam.up), s)
    ensures Dot(s, cam.target) == 0.0 && Dot(s, cam.up) == 0.0
    ensures Lawful(m) ==> Length(m, s) == 1.0
  {
    var c := Cross(cam.target, cam.up);
    var s := Normalize(m, c);
    CrossIsOrthogonal(cam.target, cam.up);
    OrthogonalToMultiple(Length(m, c), s, c, cam.target);
    OrthogonalToMultiple(Length(m, c), s, c, cam.up);
    s
  }

  /** If `k u == c` with `k != 0` and `c` is orthogonal to `w`, so is `u`. */
  lemma OrthogonalToMultiple(k: real, u: Vec3, c: Vec3, w: Vec3)
    requires k != 0.0 && Scale(k, u) == c && Dot(w, c) == 0.0
    ensures Dot(u, w) == 0.0
  {
    DotScale(w, k, u);
    DotCommutes(u, w);
  }

  /** The strafe direction is needed only while 'a' or 'd' is held; the
      source normalizes a zero vector when the line of sight is parallel to
      `up`. */
  predicate CanMove(m: MathFns, keys: MoveKeys, cam: Camera) {
    keys[2] || keys[3] ==> Length(m, Cross(cam.target, cam.up)) != 0.0
  }

  /** `poll_camera_move()`, with `MOVE_SPEED` as `speed` and the angles as
      they stand: the four `if`s in order, each moving `cam.pos` along the
      line of sight it had before the call or along `Side`, then
      `cam.target = direction`. `cam.up` is never written. */
  function PollCameraMove(m: MathFns, keys: MoveKeys, cam: Camera, a: Angles, speed: real): (r: Camera)
    requires CanMove(m, keys, cam)
    ensures r.target == Direction(m, a) && r.up == cam.up
    ensures Lawful(m) ==> Length(m, r.target) == 1.0
  {
    var p0 := if keys[0] then Add(cam.pos, Scale(speed, cam.target)) else cam.pos;
    var p1 := if keys[1] then Sub(p0, Scale(speed, cam.target)) else p0;
    var p2 := if keys[2] then Sub(p1, Scale(speed, Side(m, cam))) else p1;
    var p3 := if keys[3] then Add(p2, Scale(speed, Side(m, cam))) else p2;
    DirectionIsUnit(m, a);
    Camera(p3, Direction(m, a), cam.up)
  }

  /** Where the position goes depends on the line of sight before the call,
      not on the angles the new one is made from. */
  lemma PositionUsesOldTarget(m: MathFns, keys: MoveKeys, cam: Camera, a: Angles, b: Angles, speed: real)
    requires CanMove(m, keys, cam)
    ensures PollCameraMove(m, keys, cam, a, speed).pos == PollCameraMove(m, keys, cam, b, speed).pos
  {
  }

  /** With any keys held, the four steps add up: the position moves by the
      net step of 'w' and 's' along the old line of sight, then, if 'a' or
      'd' is held, by the net step of 'd' and 'a' along `Side`. */
  lemma PollPosition(m: MathFns, keys: MoveKeys, cam: Camera, a: Angles, speed: real)
    requires CanMove(m, keys, cam)
    ensures var p := Add(cam.pos, Scale(NetStep(keys[0], keys[1], speed), cam.target));
      PollCameraMove(m, keys, cam, a, speed).pos
        == if keys[2] || keys[3] then Add(p, Scale(NetStep(keys[3], keys[2], speed), Side(m, cam))) else p
  {
    var t := cam.target;
    var p0 := if keys[0] then Add(cam.pos, Scale(speed, t)) else cam.pos;
    var p1 := if keys[1] then Sub(p0, Scale(speed, t)) else p0;
    TwoSteps(cam.pos, t, keys[0], keys[1], speed);
    assert p1 == Add(cam.pos, Scale(NetStep(keys[0], keys[1], speed), t));
    if keys[2] || keys[3] {
      var s := Side(m, cam);
      var p2 := if keys[2] then Sub(p1, Scale(speed, s)) else p1;
      var p3 := if keys[3] then Add(p2, Scale(speed, s)) else p2;
      TwoStepsBackFirst(p1, s, keys[3], keys[2], speed);
      assert p3 == Add(p1, Scale(NetStep(keys[3], keys[2], speed), s));
    }
  }

  /** A step forward along `v` if `plus`, then back if `minus`, is one step
      of their net size. */
  lemma TwoSteps(p: Vec3, v: Vec3, plus: bool, minus: bool, speed: real)
    ensures var p0 := if plus then Add(p, Scale(speed, v)) else p;
      (if minus then Sub(p0, Scale(speed, v)) else p0) == Add(p, Scale(NetStep(plus, minus, speed), v))
  {
  }

  /** The same with the step back taken first. */
  lemma TwoStepsBackFirst(p: Vec3, v: Vec3, plus: bool, minus: bool, speed: real)
    ensures var p0 := if minus then Sub(p, Scale(speed, v)) else p;
      (if plus then Add(p0, Scale(speed, v)) else p0) == Add(p, Scale(NetStep(plus, minus, speed), v))
  {
  }

  /** Without 'a' and 'd' the camera walks along its old line of sight by
      the net step of 'w' and 's'. */
  lemma WalkAlongSight(m: MathFns, keys: MoveKeys, cam: Camera, a: Angles, speed: real)
    requires !keys[2] && !keys[3]
    ensures PollCameraMove(m, keys, cam, a, speed).pos
         == Add(cam.pos, Scale(NetStep(keys[0], keys[1], speed), cam.target))
  {
    PollPosition(m, keys, cam, a, speed);
  }

  /** Without 'w' and 's' the camera walks sideways by the net step of 'd'
      and 'a'. */
  lemma WalkSideways(m: MathFns, keys: MoveKeys, cam: Camera, a: Angles, speed: real)
    requires !keys[0] && !keys[1]
    requires CanMove(m, keys, cam)
    requires Length(m, Cross(cam.target, cam.up)) != 0.0
    ensures PollCameraMove(m, keys, cam, a, speed).pos
         == Add(cam.pos, Scale(NetStep(keys[3], keys[2], speed), Side(m, cam)))
  {
    PollPosition(m, keys, cam, a, speed);
    ScaleZero(cam.target);
    if !keys[2] && !keys[3] {
      ScaleZero(Side(m, cam));
    }
  }

  /** Zero times any vector is the zero vector, and adding it changes nothing. */
  lemma ScaleZero(v: Vec3)
    ensures forall p :: Add(p, Scale(0.0, v)) == p
  {
  }

  /** With 'w' and 's' both held, or neither, and likewise 'a' and 'd', the
      position does not change. */
  lemma BalancedKeysStay(m: MathFns, keys: MoveKeys, cam: Camera, a: Angles, speed: real)
    requires CanMove(m, keys, cam)
    requires keys[0] == keys[1] && keys[2] == keys[3]
    ensures PollCameraMove(m, keys, cam, a, speed).pos == cam.pos
  {
    var p := cam.pos;
    var r := PollCameraMove(m, keys, cam, a, speed).pos;
    var p1 := if keys[0] then Sub(Add(p, Scale(speed, cam.target)), Scale(speed, cam.target)) else p;
    AddThenSub(p, Scale(speed, cam.target));
    assert p1 == p;
    if keys[2] {
      var s := Side(m, cam);
      assert r == Add(Sub(p1, Scale(speed, s)), Scale(speed, s));
    }
  }

  /** Holding only 'w' moves the camera `speed` units, when the line of
      sight is a unit vector (as every poll leaves it). */
  lemma ForwardStepLength(m: MathFns, cam: Camera, a: Angles, speed: real)
    requires Lawful(m)
    requires Length(m, cam.target) == 1.0 && 0.0 <= speed
    ensures Length(m, Sub(PollCameraMove(m, [true, false, false, false], cam, a, speed).pos, cam.pos)) == speed
  {
    var t := cam.target;
    var d := Sub(PollCameraMove(m, [true, false, false, false], cam, a, speed).pos, cam.pos);
    assert d == Scale(speed, t);
    assert Dot(t, t) == 1.0;
    DotScale(Scale(speed, t), speed, t);
    assert Dot(d, d) == speed * Dot(t, d);
    DotCommutes(t, d);
    assert Dot(d, d) == speed * speed;
    SqrtOfSquare(m, speed);
  }

  /** Holding only 'd' moves the camera at right angles to both the line of
      sight and `up`. */
  lemma StrafeIsSideways(m: MathFns, cam: Camera, a: Angles, speed: real)
    requires Length(m, Cross(cam.target, cam.up)) != 0.0
    ensures var d := Sub(PollCameraMove(m, [false, false, false, true], cam, a, speed).pos, cam.pos);
      Dot(d, cam.target) == 0.0 && Dot(d, cam.up) == 0.0
  {
    var s := Side(m, cam);
    var d := Sub(PollCameraMove(m, [false, false, false, true], cam, a, speed).pos, cam.pos);
    assert d == Scale(speed, s);
    DotScale(cam.target, speed, s);
    DotScale(cam.up, speed, s);
    DotCommutes(s, cam.target);
    DotCommutes(s, cam.up);
    DotCommutes(d, cam.target);
    DotCommutes(d, cam.up);
  }

  /** The view matrix is defined: the line of sight is not zero and not
      parallel to `up`. */
  predicate ViewDefined(m: MathFns, cam: Camera) {
    LookAt.Defined(m, cam.pos, Add(cam.pos, cam.target), cam.up)
  }

  /** `get_look_at_matrix(cam.pos, cam.pos + cam.target, cam.up)`, as the
      render callback calls it. */
  function ViewMatrix(m: MathFns, cam: Camera): (g: Mat4)
    requires ViewDefined(m, cam)
    ensures UploadTransposed(g) == Mul(
      LookAt.RotationMatrix(LookAt.BasisOf(m, cam.pos, Add(cam.pos, cam.target), cam.up)),
      LookAt.TranslationMatrix(cam.pos))
  {
    LookAt.GetLookAtMatrix(m, cam.pos, Add(cam.pos, cam.target), cam.up)
  }

  /** With a unit line of sight, the point one unit ahead of the camera
      lands at `(0, 0, -1)`, and the camera itself at the origin. */
  lemma ViewLooksAlongTarget(m: MathFns, cam: Camera)
    requires Lawful(m)
    requires ViewDefined(m, cam)
    requires Length(m, cam.target) == 1.0
    ensures Apply(UploadTransposed(ViewMatrix(m, cam)), LookAt.Point(Add(cam.pos, cam.target)))
         == V4.Vec4(0.0, 0.0, -1.0, 1.0)
    ensures Apply(UploadTransposed(ViewMatrix(m, cam)), LookAt.Point(cam.pos))
         == V4.Vec4(0.0, 0.0, 0.0, 1.0)
  {
    var ahead := Add(cam.pos, cam.target);
    AddThenSub(cam.target, cam.pos);
    assert Sub(ahead, cam.pos) == cam.target;
    LookAt.TargetOnNegativeZ(m, cam.pos, ahead, cam.up);
    LookAt.EyeToOrigin(m, cam.pos, ahead, cam.up);
  }

  /** The line of sight at rest, `(0, 0, -1)`, and the world's `up`. */
  const RestSight := Vec3(0.0, 0.0, -1.0)
  const WorldUp := Vec3(0.0, 1.0, 0.0)

  /** A camera anywhere, looking down `-z` with `y` up, has the look-at
      basis `front = (0, 0, -1)`, `right = (1, 0, 0)`, `up = (0, 1, 0)`. */
  lemma RestingBasis(m: MathFns, pos: Vec3)
    requires m.sqrt(1.0) == 1.0
    ensures ViewDefined(m, Camera(pos, RestSight, WorldUp))
    ensures LookAt.BasisOf(m, pos, Add(pos, RestSight), WorldUp)
         == LookAt.Basis(RestSight, Vec3(1.0, 0.0, 0.0), WorldUp)
  {
    RestingBasisAt(m, pos, Add(pos, RestSight), RestSight, Vec3(1.0, 0.0, 0.0), WorldUp);
  }

  /** The same, with the vectors given by name. */
  lemma RestingBasisAt(m: MathFns, pos: Vec3, ahead: Vec3, front: Vec3, right: Vec3, up: Vec3)
    requires m.sqrt(1.0) == 1.0
    requires ahead == Add(pos, front)
    requires front == Vec3(0.0, 0.0, -1.0) && right == Vec3(1.0, 0.0, 0.0) && up == Vec3(0.0, 1.0, 0.0)
    ensures LookAt.Defined(m, pos, ahead, up)
    ensures LookAt.BasisOf(m, pos, ahead, up) == LookAt.Basis(front, right, up)
  {
    AddThenSub(front, pos);
    assert Sub(ahead, pos) == front;
    RestingVectors(front, right, up);
    LookAt.BasisOfScaledUnits(m, pos, ahead, up, 1.0, front, 1.0, right);
  }

  /** `cross((0, 0, -1), up)` is the unit `+x`, and `cross(+x, (0, 0, -1))` is `up`. */
  lemma RestingVectors(front: Vec3, right: Vec3, up: Vec3)
    requires front == Vec3(0.0, 0.0, -1.0) && right == Vec3(1.0, 0.0, 0.0) && up == Vec3(0.0, 1.0, 0.0)
    ensures IsMultiple(front, 1.0, front) && Dot(front, front) == 1.0
    ensures IsMultiple(Cross(front, up), 1.0, right) && Dot(Cross(front, up), Cross(front, up)) == 1.0
    ensures Cross(right, front) == up
  {
  }

  /** A poll with no key held and both angles 0 leaves a camera at rest
      where it is, looking the same way. */
  lemma PollAtRest(m: MathFns, pos: Vec3, speed: real)
    requires TrigAtZero(m)
    ensures PollCameraMove(m, NoKeys, Camera(pos, RestSight, WorldUp), Angles(0.0, 0.0), speed)
         == Camera(pos, RestSight, WorldUp)
  {
    DirectionAtRest(m);
  }

  /** For a camera at rest the rotation block of the view is the identity. */
  lemma RestingRotation(m: MathFns, pos: Vec3)
    requires m.sqrt(1.0) == 1.0
    ensures ViewDefined(m, Camera(pos, RestSight, WorldUp))
    ensures LookAt.RotationMatrix(LookAt.BasisOf(m, pos, Add(pos, RestSight), WorldUp)) == Identity
  {
    RestingBasis(m, pos);
  }

  /** So the view of a camera at rest only moves every point by `-pos`. */
  lemma RestingViewTranslates(m: MathFns, pos: Vec3, p: Vec3)
    requires m.sqrt(1.0) == 1.0
    ensures ViewDefined(m, Camera(pos, RestSight, WorldUp))
    ensures Apply(UploadTransposed(ViewMatrix(m, Camera(pos, RestSight, WorldUp))), LookAt.Point(p))
         == LookAt.Point(Sub(p, pos))
  {
    RestingRotation(m, pos);
    var t := LookAt.TranslationMatrix(pos);
    MulApply(Identity, t, LookAt.Point(p));
    TranslationMoves(pos, p);
    ApplyIdentity(Apply(t, LookAt.Point(p)));
  }

  /** The translation block moves a point by `-pos`. */
  lemma TranslationMoves(pos: Vec3, p: Vec3)
    ensures Apply(LookAt.TranslationMatrix(pos), LookAt.Point(p)) == LookAt.Point(Sub(p, pos))
  {
  }
}
