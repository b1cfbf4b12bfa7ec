/** The monster types and the spawn schedule. */
module MonsterDefs {
  import opened Wrappers

  datatype MonsterType = MonsterType(hp: int, speed: real, attack: int, color: string, radius: real)

  datatype SpawnStrategy = SpawnStrategy(delay: real, interval: real, pathOffset: nat, monsterId: string)

  /** The keys of the type table, in definition order. */
  const MonsterTypeIds: seq<string> := ["slime", "goblin", "skeleton"]

  /** `getMonsterType`: the table entry, or nothing for an unknown id. */
  function GetMonsterType(id: string): Option<MonsterType> {
    if id == "slime" then Some(MonsterType(50, 40.0, 10, "#44ff44", 8.0))
    else if id == "goblin" then Some(MonsterType(100, 30.0, 20, "#ff4444", 10.0))
    else if id == "skeleton" then Some(MonsterType(30, 60.0, 8, "#cccccc", 7.0))
    else None
  }

  const SpawnStrategies: seq<SpawnStrategy> := [
    SpawnStrategy(2.0, 3.0, 0, "slime"),
    SpawnStrategy(5.0, 3.0, 1, "slime"),
    SpawnStrategy(10.0, 5.0, 2, "goblin"),
    SpawnStrategy(15.0, 4.0, 0, "skeleton")
  ]

  /** A strategy is well-formed when it names a known type, a lane 0-2 and positive timers. */
  predicate WellFormed(s: SpawnStrategy) {
    GetMonsterType(s.monsterId).Some? && s.pathOffset <= 2 && s.delay > 0.0 && s.interval > 0.0
  }

  /**
   The type table has exactly the three listed ids, each with positive hit points and
   speed; every spawn strategy is well-formed.
   */
  lemma TablesWellFormed(id: string)
    ensures GetMonsterType(id).Some? <==> id in MonsterTypeIds
    ensures GetMonsterType(id).Some? ==> GetMonsterType(id).value.hp > 0 && GetMonsterType(id).value.speed > 0.0
    ensures forall i :: 0 <= i < |SpawnStrategies| ==> WellFormed(SpawnStrategies[i])
  {
  }
}
