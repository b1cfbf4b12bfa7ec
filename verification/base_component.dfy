/** The base's hit points. */
module BaseComponent {
  import opened Wrappers

  datatype Base = Base(hp: int, maxHp: int)

  const DefaultMaxHp := 1000

  /** 1000 hit points unless given, starting full. */
  function NewBase(maxHp: Option<int>): (b: Base)
    ensures maxHp.None? ==> b.maxHp == DefaultMaxHp
    ensures maxHp.Some? ==> b.maxHp == maxHp.value
    ensures b.hp == b.maxHp
  {
    Base(maxHp.GetOr(DefaultMaxHp), maxHp.GetOr(DefaultMaxHp))
  }

  datatype DamageResult = DamageResult(base: Base, destroyed: bool)

  /** `TakeDamage`: hit points drop by the damage, floored at zero; true when they reached zero. */
  function TakeDamage(b: Base, damage: int): (r: DamageResult)
    ensures r.base.maxHp == b.maxHp
    ensures b.hp - damage > 0 ==> r.base.hp == b.hp - damage && !r.destroyed
    ensures b.hp - damage <= 0 ==> r.base.hp == 0 && r.destroyed
  {
    var hp := b.hp - damage;
    if hp <= 0 then DamageResult(b.(hp := 0), true) else DamageResult(b.(hp := hp), false)
  }

  function HpRatio(b: Base): real
    requires b.maxHp > 0
  {
    (b.hp as real) / (b.maxHp as real)
  }

  function Reset(b: Base): (r: Base)
    ensures r.hp == r.maxHp && r.maxHp == b.maxHp
  {
    b.(hp := b.maxHp)
  }

  /** Hit points between zero and the maximum. */
  predicate Healthy(b: Base) {
    0 <= b.hp <= b.maxHp
  }

  /**
   Non-negative damage keeps hit points within `[0, maxHp]`, so the ratio stays in
   `[0, 1]`, and it is zero exactly when the base has been destroyed.
   */
  lemma DamageKeepsRatio(b: Base, damage: int)
    requires Healthy(b) && b.maxHp > 0 && damage >= 0
    ensures var r := TakeDamage(b, damage);
      Healthy(r.base) && 0.0 <= HpRatio(r.base) <= 1.0 && (HpRatio(r.base) == 0.0 <==> r.destroyed)
  {
    var r := TakeDamage(b, damage).base;
    assert (r.hp as real) <= (r.maxHp as real);
    RatioBounds(r.hp as real, r.maxHp as real);
  }

  lemma RatioBounds(x: real, m: real)
    requires 0.0 <= x <= m && m > 0.0
    ensures 0.0 <= x / m <= 1.0 && (x / m == 0.0 <==> x == 0.0)
  {
    assert x / m * m == x;
  }
}
