/** A bullet's payload. */
module BulletComponent {
  import opened Wrappers

  datatype Bullet = Bullet(damage: int, speed: real, lifetime: real)

  /** A bullet flies at 300 pixels per second unless given, and starts with no lifetime. */
  function NewBullet(damage: int, speed: Option<real>): (b: Bullet)
    ensures b.damage == damage && b.lifetime == 0.0
    ensures speed.None? ==> b.speed == 300.0
    ensures speed.Some? ==> b.speed == speed.value
  {
    Bullet(damage, speed.GetOr(300.0), 0.0)
  }
}
