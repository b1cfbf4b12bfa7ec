/**
 The passive physics components: the box and circle colliders and the rigid body. Their
 world-space shapes are computed on demand from the owner's Transform world position,
 passed in as `pos` (`None` when the component has no Transform to read).
 */
module Colliders {
  import opened Wrappers
  import opened Reals
  import opened Transform

  /** An axis-aligned box, `width` by `height`, centred at the Transform plus the offset. */
  datatype BoxCollider = BoxCollider(width: real, height: real, offsetX: real, offsetY: real)

  datatype Bounds = Bounds(left: real, right: real, top: real, bottom: real)

  datatype CircleCollider = CircleCollider(radius: real, offsetX: real, offsetY: real)

  /** Velocity in pixels per second and the restitution (1 = perfect bounce). */
  datatype RigidBody = RigidBody(vx: real, vy: real, bounce: real)

  /** The constructor: 32 by 32 with zero offsets unless given. */
  function NewBox(width: Option<real>, height: Option<real>,
                  offsetX: Option<real>, offsetY: Option<real>): (b: BoxCollider)
    ensures width == None ==> b.width == 32.0
    ensures height == None ==> b.height == 32.0
    ensures offsetX == None ==> b.offsetX == 0.0
    ensures offsetY == None ==> b.offsetY == 0.0
    ensures width.Some? ==> b.width == width.value
    ensures height.Some? ==> b.height == height.value
    ensures offsetX.Some? ==> b.offsetX == offsetX.value
    ensures offsetY.Some? ==> b.offsetY == offsetY.value
  {
    BoxCollider(width.GetOr(32.0), height.GetOr(32.0), offsetX.GetOr(0.0), offsetY.GetOr(0.0))
  }

  /** The world-space rectangle; all zero when there is no Transform. */
  function GetBounds(box: BoxCollider, pos: Option<Point>): (r: Bounds)
    ensures pos.None? ==> r == Bounds(0.0, 0.0, 0.0, 0.0)
    ensures pos.Some? ==>
      r.right - r.left == box.width && r.bottom - r.top == box.height &&
      (r.left + r.right) / 2.0 == pos.value.x + box.offsetX &&
      (r.top + r.bottom) / 2.0 == pos.value.y + box.offsetY
  {
    match pos
    case None => Bounds(0.0, 0.0, 0.0, 0.0)
    case Some(p) =>
      var wx := p.x + box.offsetX;
      var wy := p.y + box.offsetY;
      Bounds(wx - box.width / 2.0, wx + box.width / 2.0, wy - box.height / 2.0, wy + box.height / 2.0)
  }

  /** The constructor: radius 16 with zero offsets unless given. */
  function NewCircle(radius: Option<real>, offsetX: Option<real>, offsetY: Option<real>): (c: CircleCollider)
    ensures radius == None ==> c.radius == 16.0
    ensures radius.Some? ==> c.radius == radius.value
    ensures offsetX == None ==> c.offsetX == 0.0
    ensures offsetY == None ==> c.offsetY == 0.0
    ensures offsetX.Some? ==> c.offsetX == offsetX.value
    ensures offsetY.Some? ==> c.offsetY == offsetY.value
  {
    CircleCollider(radius.GetOr(16.0), offsetX.GetOr(0.0), offsetY.GetOr(0.0))
  }

  /** The world-space centre; the origin when there is no Transform. */
  function GetCenter(c: CircleCollider, pos: Option<Point>): (r: Point)
    ensures pos.None? ==> r == Point(0.0, 0.0)
    ensures pos.Some? ==> r.x - c.offsetX == pos.value.x && r.y - c.offsetY == pos.value.y
  {
    match pos
    case None => Point(0.0, 0.0)
    case Some(p) => Point(p.x + c.offsetX, p.y + c.offsetY)
  }

  /** The constructor: at rest with bounce 1 unless given. */
  function NewBody(vx: Option<real>, vy: Option<real>, bounce: Option<real>): (b: RigidBody)
    ensures vx == None ==> b.vx == 0.0
    ensures vy == None ==> b.vy == 0.0
    ensures bounce == None ==> b.bounce == 1.0
    ensures bounce.Some? ==> b.bounce == bounce.value
    ensures vx.Some? ==> b.vx == vx.value
    ensures vy.Some? ==> b.vy == vy.value
  {
    RigidBody(vx.GetOr(0.0), vy.GetOr(0.0), bounce.GetOr(1.0))
  }

  function SetVelocity(b: RigidBody, vx: real, vy: real): (r: RigidBody)
    ensures r.vx == vx && r.vy == vy && r.bounce == b.bounce
  {
    b.(vx := vx, vy := vy)
  }

  /**
   `SetVelocityFromAngle`: `cos` and `sin` are the cosine and sine of the angle, supplied
   by the caller since trigonometry is not modelled.
   */
  function SetVelocityFromAngle(b: RigidBody, cos: real, sin: real, speed: real): (r: RigidBody)
    ensures r.bounce == b.bounce
    ensures cos * cos + sin * sin == 1.0 ==> SqLen(r.vx, r.vy) == speed * speed
  {
    assert (cos * speed) * (cos * speed) + (sin * speed) * (sin * speed)
        == (cos * cos + sin * sin) * (speed * speed);
    b.(vx := cos * speed, vy := sin * speed)
  }

  /** The speed: the length of the velocity vector. */
  function Speed(sqrt: real -> real, b: RigidBody): real {
    sqrt(SqLen(b.vx, b.vy))
  }

  /** The speed is the non-negative root of vx² + vy², and it is zero only at rest. */
  lemma SpeedLaw(sqrt: real -> real, b: RigidBody)
    requires IsSqrt(sqrt)
    ensures Speed(sqrt, b) >= 0.0
    ensures Speed(sqrt, b) * Speed(sqrt, b) == b.vx * b.vx + b.vy * b.vy
    ensures Speed(sqrt, b) == 0.0 <==> b.vx == 0.0 && b.vy == 0.0
  {
    var q := SqLen(b.vx, b.vy);
    assert 0.0 <= b.vx * b.vx && 0.0 <= b.vy * b.vy;
    assert SqrtAt(sqrt, q);
    SqrtZeroIff(sqrt, q);
    if q == 0.0 {
      SquareZero(b.vx);
      SquareZero(b.vy);
    }
  }

  /** A body whose velocity has squared length `s * s` moves at speed `s`. */
  lemma SpeedOfVelocity(sqrt: real -> real, b: RigidBody, s: real)
    requires IsSqrt(sqrt) && s >= 0.0 && SqLen(b.vx, b.vy) == s * s
    ensures Speed(sqrt, b) == s
  {
    SqrtOfSquare(sqrt, s);
  }

  /** A velocity set from an angle has the requested speed (for a non-negative speed). */
  lemma SpeedFromAngle(sqrt: real -> real, b: RigidBody, cos: real, sin: real, speed: real)
    requires IsSqrt(sqrt) && cos * cos + sin * sin == 1.0 && speed >= 0.0
    ensures Speed(sqrt, SetVelocityFromAngle(b, cos, sin, speed)) == speed
  {
    SpeedOfVelocity(sqrt, SetVelocityFromAngle(b, cos, sin, speed), speed);
  }
}
