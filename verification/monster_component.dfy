/** A monster's run along its lane and the damage rule. */
module MonsterComponent {
  datatype MonsterState = Moving | Attacking | Dead

  datatype Monster = Monster(
    typeId: string, hp: int, maxHp: int, speed: real, attack: int,
    pathProgress: real, pathOffset: nat, state: MonsterState, attackTimer: real)

  /** A new monster: full hit points, at the start of its lane, moving, no attack pending. */
  function NewMonster(typeId: string, hp: int, speed: real, attack: int, pathOffset: nat): (m: Monster)
    ensures m.typeId == typeId && m.hp == hp && m.maxHp == hp && m.speed == speed && m.attack == attack
    ensures m.pathProgress == 0.0 && m.pathOffset == pathOffset && m.state == Moving && m.attackTimer == 0.0
  {
    Monster(typeId, hp, hp, speed, attack, 0.0, pathOffset, Moving, 0.0)
  }

  /** The outcome of `TakeDamage`: the new state and whether this call killed the monster. */
  datatype DamageResult = DamageResult(monster: Monster, killed: bool)

  /**
   `TakeDamage`: a dead monster ignores damage; otherwise hit points drop by the damage
   and, at zero or below, are set to zero and the monster dies. The kill counter and the
   destroy request belong to the `killed` transition.
   */
  function TakeDamage(m: Monster, damage: int): (r: DamageResult)
    ensures m.state == Dead ==> r == DamageResult(m, false)
    ensures m.state != Dead && m.hp - damage <= 0 ==>
      r.killed && r.monster == m.(hp := 0, state := Dead)
    ensures m.state != Dead && m.hp - damage > 0 ==>
      !r.killed && r.monster == m.(hp := m.hp - damage)
  {
    if m.state == Dead then DamageResult(m, false)
    else
      var hp := m.hp - damage;
      if hp <= 0 then DamageResult(m.(hp := 0, state := Dead), true)
      else DamageResult(m.(hp := hp), false)
  }

  /** Applies damages in order and counts the kills among them. */
  function DamageAll(m: Monster, damages: seq<int>): (r: (Monster, nat))
    decreases |damages|
  {
    if |damages| == 0 then (m, 0)
    else
      var d := TakeDamage(m, damages[0]);
      var rest := DamageAll(d.monster, damages[1..]);
      (rest.0, rest.1 + (if d.killed then 1 else 0))
  }

  /** However many hits arrive, a monster is counted as killed at most once. */
  lemma {:induction false} KilledAtMostOnce(m: Monster, damages: seq<int>)
    ensures DamageAll(m, damages).1 <= 1
    ensures m.state == Dead ==> DamageAll(m, damages).1 == 0
    decreases |damages|
  {
    if |damages| > 0 {
      var d := TakeDamage(m, damages[0]);
      KilledAtMostOnce(d.monster, damages[1..]);
    }
  }
}
