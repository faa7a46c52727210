/** The free-look camera: a position, the direction it faces, a fixed up
    vector, yaw and pitch in degrees and a field of view.  Directions that
    come out of trigonometry and normalisation are not computed: the facing
    direction is kept as the angles it was computed from, and the unit
    vectors the horizontal moves follow are supplied as a parameter. */
module Cameras {
  import Actors

  datatype Vec3 = Vec3(x: real, y: real, z: real)

  const Up := Vec3(0.0, 1.0, 0.0)

  /** `front`: the initial (0, 0, -1), or the unit vector `lookAround`
      computed from a yaw and a pitch. */
  datatype Direction = Initial | Angles(yaw: real, pitch: real)

  datatype Camera = Camera(position: Vec3, front: Direction, up: Vec3, yaw: real, pitch: real, fov: real)

  /** A horizontal vector (x, 0, z). */
  datatype Planar = Planar(x: real, z: real)

  /** The unit vectors of the horizontal moves for a facing direction:
      `normalize(front.x, 0, front.z)` and `normalize(cross(front, up))`.
      Both have a zero y component whatever the direction, because the first
      zeroes it and the cross product with (0, 1, 0) has none. */
  datatype Basis = Basis(forward: Direction -> Planar, right: Direction -> Planar)

  /** The up vector is (0, 1, 0); nothing reassigns it. */
  predicate Valid(c: Camera) {
    c.up == Up
  }

  /** `vec3.addScaled(p, v, s)`. */
  function AddScaled(p: Vec3, v: Vec3, s: real): (r: Vec3)
    ensures r.x == p.x + s * v.x && r.y == p.y + s * v.y && r.z == p.z + s * v.z
  {
    Vec3(p.x + s * v.x, p.y + s * v.y, p.z + s * v.z)
  }

  function Lift(v: Planar): (r: Vec3)
    ensures r.y == 0.0
  {
    Vec3(v.x, 0.0, v.z)
  }

  function TranslateForward(b: Basis, c: Camera, s: real): (r: Camera)
    ensures r.(position := c.position) == c
    ensures r.position.y == c.position.y
  {
    c.(position := AddScaled(c.position, Lift(b.forward(c.front)), s))
  }

  function TranslateBackward(b: Basis, c: Camera, s: real): (r: Camera)
    ensures r.(position := c.position) == c
    ensures r.position.y == c.position.y
  {
    c.(position := AddScaled(c.position, Lift(b.forward(c.front)), -s))
  }

  function TranslateRight(b: Basis, c: Camera, s: real): (r: Camera)
    ensures r.(position := c.position) == c
    ensures r.position.y == c.position.y
  {
    c.(position := AddScaled(c.position, Lift(b.right(c.front)), s))
  }

  function TranslateLeft(b: Basis, c: Camera, s: real): (r: Camera)
    ensures r.(position := c.position) == c
    ensures r.position.y == c.position.y
  {
    c.(position := AddScaled(c.position, Lift(b.right(c.front)), -s))
  }

  /** `translateUp(s)`: along the up vector; for a valid camera only the
      height changes, by exactly s. */
  function TranslateUp(c: Camera, s: real): (r: Camera)
    ensures Valid(c) ==> Valid(r) && r.position == c.position.(y := c.position.y + s)
    ensures r.(position := c.position) == c
  {
    c.(position := AddScaled(c.position, c.up, s))
  }

  /** `translateDown(s)`: against the up vector. */
  function TranslateDown(c: Camera, s: real): (r: Camera)
    ensures Valid(c) ==> Valid(r) && r.position == c.position.(y := c.position.y - s)
    ensures r.(position := c.position) == c
  {
    c.(position := AddScaled(c.position, c.up, -s))
  }

  const Sensitivity: real := 0.1
  const PitchLimit: real := 89.0

  /** `Math.max(-89, Math.min(p, 89))`. */
  function ClampPitch(p: real): (r: real)
    ensures -PitchLimit <= r <= PitchLimit
    ensures -PitchLimit <= p <= PitchLimit ==> r == p
    ensures p > PitchLimit ==> r == PitchLimit
    ensures p < -PitchLimit ==> r == -PitchLimit
  {
    var lower := if p < PitchLimit then p else PitchLimit;
    if -PitchLimit > lower then -PitchLimit else lower
  }

  /** `lookAround(dx, dy)`: yaw grows by exactly `0.1 dx`; pitch grows by
      `0.1 dy` and is then clamped to [-89, 89]; the facing direction is
      recomputed from the new angles.  Nothing else changes. */
  function LookAround(c: Camera, dx: real, dy: real): (r: Camera)
    ensures r.yaw == c.yaw + Sensitivity * dx
    ensures -PitchLimit <= r.pitch <= PitchLimit
    ensures -PitchLimit <= c.pitch + Sensitivity * dy <= PitchLimit ==> r.pitch == c.pitch + Sensitivity * dy
    ensures r.pitch == ClampPitch(c.pitch + Sensitivity * dy)
    ensures r.front == Angles(r.yaw, r.pitch)
    ensures r.position == c.position && r.up == c.up && r.fov == c.fov
  {
    var yaw := c.yaw + Sensitivity * dx;
    var pitch := ClampPitch(c.pitch + Sensitivity * dy);
    c.(yaw := yaw, pitch := pitch, front := Angles(yaw, pitch))
  }

  /** `apply(view)`: the view matrix `lookAt(position, position + front,
      up)`; the matrix maths is a parameter. */
  function Apply(lookAt: (Vec3, Direction, Vec3) -> Actors.Mat4, c: Camera): Actors.Mat4 {
    lookAt(c.position, c.front, c.up)
  }

  /** The constructor: at the origin facing (0, 0, -1) with yaw 90 and
      pitch 0, then the starting moves.  It ends at height 10 with yaw 130,
      pitch -10 and a 45 degree field of view. */
  function New(b: Basis): (r: Camera)
    ensures Valid(r)
    ensures r.yaw == 130.0 && r.pitch == -10.0 && r.fov == 45.0
    ensures r.position.y == 10.0
    ensures r.front == Angles(130.0, -10.0)
  {
    var c0 := Camera(Vec3(0.0, 0.0, 0.0), Initial, Up, 90.0, 0.0, 45.0);
    var c1 := LookAround(c0, 0.0, 0.0);
    var c2 := TranslateBackward(b, c1, 20.0);
    var c3 := TranslateLeft(b, c2, 20.0);
    var c4 := TranslateUp(c3, 10.0);
    LookAround(c4, 400.0, -100.0)
  }

  /** With the pitch in range, `lookAround(0, 0)` keeps both angles. */
  lemma LookAroundStill(c: Camera)
    requires -PitchLimit <= c.pitch <= PitchLimit
    ensures LookAround(c, 0.0, 0.0).yaw == c.yaw && LookAround(c, 0.0, 0.0).pitch == c.pitch
  {
  }

  /** Up then down by the same amount returns to the start, and so does
      down then up. */
  lemma UpDownInverse(c: Camera, s: real)
    ensures TranslateDown(TranslateUp(c, s), s) == c
    ensures TranslateUp(TranslateDown(c, s), s) == c
  {
  }

  /** The horizontal moves undo each other: forward then backward, and
      right then left, by the same amount return to the start, because they
      leave the facing direction alone. */
  lemma HorizontalInverse(b: Basis, c: Camera, s: real)
    ensures TranslateBackward(b, TranslateForward(b, c, s), s) == c
    ensures TranslateLeft(b, TranslateRight(b, c, s), s) == c
  {
  }

  /** A move by zero goes nowhere. */
  lemma ZeroMoves(b: Basis, c: Camera)
    ensures TranslateForward(b, c, 0.0) == c && TranslateBackward(b, c, 0.0) == c
    ensures TranslateRight(b, c, 0.0) == c && TranslateLeft(b, c, 0.0) == c
    ensures TranslateUp(c, 0.0) == c && TranslateDown(c, 0.0) == c
  {
  }
}
