/** The constants and the starting pose of the mouse-look camera in
    17_specularlight.cpp: `MOVE_SPEED` is 0.05, the camera starts at `(0, 0, 4)` with
    `target = (0, 0, -1)` and `up = (0, 1, 0)`, and `yaw = pitch = 0`. */
module SpecularLight {
  import opened Scalars
  import opened Vector3
  import opened Matrices
  import opened Keys
  import opened MouseLook
  import LookAt

  /** `MOVE_SPEED`. */
  const MoveSpeed: real := 0.05

  /** The initial value of `cam`. */
  const InitialCamera := Camera(Vec3(0.0, 0.0, 4.0), RestSight, WorldUp)

  /** The initial `yaw` and `pitch`. */
  const InitialAngles := Angles(0.0, 0.0)

  /** The first frame, before any key or pointer event, polls the camera
      with no key held and both angles 0: the pose is unchanged, since the
      initial `target` already is the direction at rest. `TrigAtZero`
      holds for any lawful `m` (`LawfulTrigAtZero`). */
  lemma FirstPollKeepsPose(m: MathFns)
    requires TrigAtZero(m)
    ensures PollCameraMove(m, NoKeys, InitialCamera, InitialAngles, MoveSpeed) == InitialCamera
  {
    PollAtRest(m, InitialCamera.pos, MoveSpeed);
  }

  /** From the initial pose the look-at basis is `front = (0, 0, -1)`,
      `right = (1, 0, 0)`, `up = (0, 1, 0)`, so the view's rotation block
      is the identity. The one square root needed holds for any lawful `m`
      (`SqrtOne`). */
  lemma InitialBasis(m: MathFns)
    requires m.sqrt(1.0) == 1.0
    ensures ViewDefined(m, InitialCamera)
    ensures LookAt.BasisOf(m, InitialCamera.pos, Add(InitialCamera.pos, InitialCamera.target), InitialCamera.up)
         == LookAt.Basis(Vec3(0.0, 0.0, -1.0), Vec3(1.0, 0.0, 0.0), Vec3(0.0, 1.0, 0.0))
    ensures LookAt.RotationMatrix(LookAt.BasisOf(m, InitialCamera.pos, Add(InitialCamera.pos, InitialCamera.target), InitialCamera.up))
         == Identity
  {
    RestingRotation(m, InitialCamera.pos);
  }

  /** The view of the initial pose moves every point by `-pos`, that is by
      `(0, 0, -4)` (`InitialShift`). */
  lemma InitialView(m: MathFns, p: Vec3)
    requires m.sqrt(1.0) == 1.0
    ensures ViewDefined(m, InitialCamera)
    ensures Apply(UploadTransposed(ViewMatrix(m, InitialCamera)), LookAt.Point(p))
         == LookAt.Point(Sub(p, InitialCamera.pos))
  {
    RestingViewTranslates(m, InitialCamera.pos, p);
  }

  /** The shift by `-pos` of the initial pose, written out. */
  lemma InitialShift(p: Vec3)
    ensures Sub(p, InitialCamera.pos) == Vec3(p.x, p.y, p.z - 4.0)
  {
  }
}
