/** The camera of 13_keyboardevent.cpp: the "target-point" scheme.

    `cam.target` is a point the camera looks at. Each frame,
    `poll_camera_move` slides the position and the target together along
    the world axes: 'w' and 's' by `+-MOVE_SPEED` along z, 'a' and 'd' by
    `+-MOVE_SPEED` along x. The view is `get_look_at_matrix(cam.pos,
    cam.target, cam.up)`. */
module KeyboardEvent {
  import opened Scalars
  import opened Vector3
  import V4 = Vector4
  import opened Matrices
  import opened Keys
  import LookAt

  /** `struct camera { pos; target; up; }`. */
  datatype Camera = Camera(pos: Vec3, target: Vec3, up: Vec3)

  /** `MOVE_SPEED`. */
  const MoveSpeed: real := 0.05

  /** The initial pose: at `(0, 0, -4)`, looking at the origin, `y` up. */
  const InitialCamera := Camera(Vec3(0.0, 0.0, -4.0), Vec3(0.0, 0.0, 0.0), Vec3(0.0, 1.0, 0.0))

  /** `v[i] += d`. */
  function Shift(v: Vec3, i: int, d: real): (r: Vec3)
    requires 0 <= i < 3
    ensures Get(r, i) == Get(v, i) + d
    ensures forall j :: 0 <= j < 3 && j != i ==> Get(r, j) == Get(v, j)
  {
    Set(v, i, Get(v, i) + d)
  }

  /** `cam.pos[i] += d; cam.target[i] += d;`. */
  function ShiftBoth(cam: Camera, i: int, d: real): (r: Camera)
    requires 0 <= i < 3
    ensures Sub(r.target, r.pos) == Sub(cam.target, cam.pos) && r.up == cam.up
  {
    cam.(pos := Shift(cam.pos, i, d), target := Shift(cam.target, i, d))
  }

  /** `poll_camera_move()`, with `MOVE_SPEED` as `speed`: the four `if`s in
      order. The camera moves rigidly (the offset from position to target
      is kept), never in y, by the net step of 'w'/'s' along z and of
      'a'/'d' along x. */
  function PollCameraMove(keys: MoveKeys, cam: Camera, speed: real): (r: Camera)
    ensures Sub(r.target, r.pos) == Sub(cam.target, cam.pos)
    ensures r.up == cam.up
    ensures r.pos.y == cam.pos.y && r.target.y == cam.target.y
    ensures r.pos.z == cam.pos.z + NetStep(keys[0], keys[1], speed)
    ensures r.pos.x == cam.pos.x + NetStep(keys[2], keys[3], speed)
  {
    var c0 := if keys[0] then ShiftBoth(cam, 2, speed) else cam;
    var c1 := if keys[1] then ShiftBoth(c0, 2, -speed) else c0;
    var c2 := if keys[2] then ShiftBoth(c1, 0, speed) else c1;
    if keys[3] then ShiftBoth(c2, 0, -speed) else c2
  }

  /** With both keys of a pair held, or neither, nothing moves along that
      pair's axis; with both pairs balanced the camera stays put. */
  lemma OppositeKeysCancel(keys: MoveKeys, cam: Camera, speed: real)
    requires keys[0] == keys[1] && keys[2] == keys[3]
    ensures PollCameraMove(keys, cam, speed) == cam
  {
    var r := PollCameraMove(keys, cam, speed);
    assert r.pos == cam.pos;
    assert r.target == Add(Sub(r.target, r.pos), r.pos);
  }

  /** Holding only 'w' moves the camera `speed` along `+z`; only 'a', along `+x`. */
  lemma SingleKeySteps(cam: Camera, speed: real)
    ensures PollCameraMove([true, false, false, false], cam, speed).pos
         == Add(cam.pos, Vec3(0.0, 0.0, speed))
    ensures PollCameraMove([false, false, true, false], cam, speed).pos
         == Add(cam.pos, Vec3(speed, 0.0, 0.0))
  {
  }

  /** From rest, pressing 'w' and polling moves the camera `MOVE_SPEED`
      along `+z`; pressing 'a' moves it `MOVE_SPEED` along `+x`. */
  lemma PressedKeySteps(cam: Camera)
    ensures var o := Press(NoKeys, 'w');
      o.Continue? && PollCameraMove(o.keys, cam, MoveSpeed).pos == Add(cam.pos, Vec3(0.0, 0.0, MoveSpeed))
    ensures var o := Press(NoKeys, 'a');
      o.Continue? && PollCameraMove(o.keys, cam, MoveSpeed).pos == Add(cam.pos, Vec3(MoveSpeed, 0.0, 0.0))
  {
    MovementKeys(NoKeys);
    SingleKeySteps(cam, MoveSpeed);
    assert NoKeys[0 := true] == [true, false, false, false];
    assert NoKeys[2 := true] == [false, false, true, false];
  }

  /** The two square roots the initial pose needs; any lawful `sqrt` has them. */
  predicate InitialRoots(m: MathFns) {
    m.sqrt(16.0) == 4.0 && m.sqrt(1.0) == 1.0
  }

  /** Under the axioms, `sqrt(16) = 4` and `sqrt(1) = 1`. */
  lemma LawfulHasInitialRoots(m: MathFns)
    requires Lawful(m)
    ensures InitialRoots(m)
  {
    SqrtOfSquare(m, 4.0);
    SqrtOfSquare(m, 1.0);
  }

  /** From the initial pose the look-at basis is `front = (0, 0, 1)`,
      `right = (-1, 0, 0)`, `up = (0, 1, 0)`. */
  lemma InitialBasis(m: MathFns)
    requires InitialRoots(m)
    ensures LookAt.Defined(m, InitialCamera.pos, InitialCamera.target, InitialCamera.up)
    ensures LookAt.BasisOf(m, InitialCamera.pos, InitialCamera.target, InitialCamera.up)
         == LookAt.Basis(Vec3(0.0, 0.0, 1.0), Vec3(-1.0, 0.0, 0.0), Vec3(0.0, 1.0, 0.0))
  {
    PoseBasis(m, InitialCamera.pos, InitialCamera.target, InitialCamera.up,
              Vec3(0.0, 0.0, 1.0), Vec3(-1.0, 0.0, 0.0));
  }

  /** The same, for the pose and the expected vectors given by name. */
  lemma PoseBasis(m: MathFns, pos: Vec3, target: Vec3, up: Vec3, front: Vec3, right: Vec3)
    requires InitialRoots(m)
    requires pos == Vec3(0.0, 0.0, -4.0) && target == Vec3(0.0, 0.0, 0.0) && up == Vec3(0.0, 1.0, 0.0)
    requires front == Vec3(0.0, 0.0, 1.0) && right == Vec3(-1.0, 0.0, 0.0)
    ensures LookAt.Defined(m, pos, target, up)
    ensures LookAt.BasisOf(m, pos, target, up) == LookAt.Basis(front, right, up)
  {
    PoseVectors(pos, target, up, front, right);
    LookAt.BasisOfScaledUnits(m, pos, target, up, 4.0, front, 1.0, right);
  }

  /** The vectors `get_look_at_matrix` forms from the initial pose: the
      line of sight is 4 times the unit `+z`, `cross(+z, up)` is the unit
      vector `-x`, and `cross(-x, +z)` is `up`. */
  lemma PoseVectors(pos: Vec3, target: Vec3, up: Vec3, front: Vec3, right: Vec3)
    requires pos == Vec3(0.0, 0.0, -4.0) && target == Vec3(0.0, 0.0, 0.0) && up == Vec3(0.0, 1.0, 0.0)
    requires front == Vec3(0.0, 0.0, 1.0) && right == Vec3(-1.0, 0.0, 0.0)
    ensures IsMultiple(Sub(target, pos), 4.0, front) && Dot(Sub(target, pos), Sub(target, pos)) == 16.0
    ensures IsMultiple(Cross(front, up), 1.0, right) && Dot(Cross(front, up), Cross(front, up)) == 1.0
    ensures Cross(right, front) == up
  {
  }

  /** From the initial pose the view sends the target, the origin, to
      `(0, 0, -4)`: four units straight ahead. */
  lemma InitialViewOfTarget(m: MathFns)
    requires Lawful(m)
    ensures LookAt.Defined(m, InitialCamera.pos, InitialCamera.target, InitialCamera.up)
    ensures Apply(UploadTransposed(LookAt.GetLookAtMatrix(m, InitialCamera.pos, InitialCamera.target, InitialCamera.up)),
                  LookAt.Point(InitialCamera.target))
         == V4.Vec4(0.0, 0.0, -4.0, 1.0)
  {
    PoseViewOfTarget(m, InitialCamera.pos, InitialCamera.target, InitialCamera.up);
  }

  /** The same, for the pose given by name. */
  lemma PoseViewOfTarget(m: MathFns, pos: Vec3, target: Vec3, up: Vec3)
    requires Lawful(m)
    requires pos == Vec3(0.0, 0.0, -4.0) && target == Vec3(0.0, 0.0, 0.0) && up == Vec3(0.0, 1.0, 0.0)
    ensures LookAt.Defined(m, pos, target, up)
    ensures Apply(UploadTransposed(LookAt.GetLookAtMatrix(m, pos, target, up)), LookAt.Point(target))
         == V4.Vec4(0.0, 0.0, -4.0, 1.0)
  {
    var (front, right) := (Vec3(0.0, 0.0, 1.0), Vec3(-1.0, 0.0, 0.0));
    LawfulHasInitialRoots(m);
    PoseBasis(m, pos, target, up, front, right);
    PoseVectors(pos, target, up, front, right);
    assert Length(m, Sub(target, pos)) == 4.0;
    LookAt.TargetOnNegativeZ(m, pos, target, up);
  }
}
