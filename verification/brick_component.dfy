/** The brick's durability and its hit rule. */
module BrickComponent {
  import opened Wrappers

  datatype Brick = Brick(destructible: bool, hp: int, maxHp: int)

  const Green := "#00cc44"
  const Yellow := "#cccc00"
  const Red := "#cc2200"

  /** Destructible with 20 hit points unless given; `maxHp` is the initial hit points. */
  function NewBrick(destructible: Option<bool>, hp: Option<int>): (b: Brick)
    ensures destructible.None? ==> b.destructible
    ensures destructible.Some? ==> b.destructible == destructible.value
    ensures hp.None? ==> b.hp == 20
    ensures hp.Some? ==> b.hp == hp.value
    ensures b.maxHp == b.hp
  {
    Brick(destructible.GetOr(true), hp.GetOr(20), hp.GetOr(20))
  }

  /** The outcome of a hit: the new state, and whether the entity is now destroyed. */
  datatype HitResult = HitResult(brick: Brick, destroyed: bool)

  /**
   `Hit`: an indestructible brick ignores the ball; a destructible one loses one hit
   point and is destroyed once it has none left.
   */
  function Hit(b: Brick): (r: HitResult)
    ensures !b.destructible ==> r == HitResult(b, false)
    ensures b.destructible ==> r.brick.hp == b.hp - 1 && r.brick.maxHp == b.maxHp &&
                               r.brick.destructible && (r.destroyed <==> r.brick.hp <= 0)
  {
    if !b.destructible then HitResult(b, false)
    else
      var b' := b.(hp := b.hp - 1);
      HitResult(b', b'.hp <= 0)
  }

  /** The colour for the remaining fraction of hit points. */
  function Color(hp: int, maxHp: int): (c: string)
    requires maxHp != 0
    ensures c == Green <==> (hp as real) / (maxHp as real) > 0.66
    ensures c == Yellow <==> 0.33 < (hp as real) / (maxHp as real) <= 0.66
    ensures c == Red <==> (hp as real) / (maxHp as real) <= 0.33
  {
    var ratio := (hp as real) / (maxHp as real);
    if ratio > 0.66 then Green else if ratio > 0.33 then Yellow else Red
  }

  /**
   `_updateColor`'s colour for any `maxHp`: with `maxHp` zero the quotient is +Infinity
   for positive hit points (green) and NaN or -Infinity otherwise (failing both
   comparisons: red).
   */
  function HpColor(hp: int, maxHp: int): (c: string)
    ensures maxHp != 0 ==> c == Color(hp, maxHp)
    ensures maxHp == 0 ==> (c == Green <==> hp > 0) && (c == Red <==> hp <= 0)
  {
    if maxHp == 0 then (if hp > 0 then Green else Red) else Color(hp, maxHp)
  }

  /** A brick never has more hit points than at creation: hits only lower them. */
  predicate Worn(b: Brick) {
    b.hp <= b.maxHp
  }

  /**
   While a brick survives its hit points stay positive and at most `maxHp`, so the
   colour ratio is defined.
   */
  lemma HitKeepsWorn(b: Brick)
    requires Worn(b)
    ensures Worn(Hit(b).brick)
    ensures !Hit(b).destroyed && b.destructible ==> 0 < Hit(b).brick.hp < Hit(b).brick.maxHp
  {
  }

  /** `k` successive hits. */
  function Hits(b: Brick, k: nat): (r: Brick)
    ensures r.destructible == b.destructible && r.maxHp == b.maxHp
    ensures b.destructible ==> r.hp == b.hp - k
    ensures !b.destructible ==> r == b
  {
    if k == 0 then b else Hit(Hits(b, k - 1)).brick
  }

  /**
   A destructible brick with `n > 0` hit points survives its first `n - 1` hits and is
   destroyed by the `n`-th; an indestructible one is never destroyed.
   */
  lemma HitsToDestroy(b: Brick, k: nat)
    ensures b.destructible && k < b.hp ==> (Hit(Hits(b, k)).destroyed <==> k == b.hp - 1)
    ensures !b.destructible ==> !Hit(Hits(b, k)).destroyed
  {
  }
}
