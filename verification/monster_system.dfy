/**
 `MonsterSystem`: the spawn schedule, and each monster's walk along its lane and its
 blows on the base. The game state and the path system are passed in; the blows the
 system emits (`monster_attack_base`) are returned in order, for the base's handler.
 */
module MonsterSystem {
  import opened Wrappers
  import opened Seqs
  import opened Components
  import opened MonsterComponent
  import opened MonsterDefs
  import opened Scene
  import Factories
  import GameState
  import PathSystem
  import Transform
  import World

  /** No spawning while this many monsters are listed. */
  const MaxMonsters := 30
  const AttackEvent := "monster_attack_base"
  /** Seconds before a monster's first blow, and between blows. */
  const AttackPeriod := 1.0

  // ---- The spawn schedule ----

  /** One strategy's timers: the delay before it starts, then the interval between spawns. */
  datatype SpawnState = SpawnState(strategy: SpawnStrategy, delayTimer: real, intervalTimer: real, hasStarted: bool)

  /** `_initSpawnStrategies`: one state per strategy, with its whole delay to run and not started. */
  function InitSpawnStates(strategies: seq<SpawnStrategy>): (ss: seq<SpawnState>)
    ensures |ss| == |strategies|
    ensures forall i :: 0 <= i < |ss| ==>
      ss[i].strategy == strategies[i] && ss[i].delayTimer == strategies[i].delay &&
      ss[i].intervalTimer == 0.0 && !ss[i].hasStarted
  {
    seq(|strategies|, i requires 0 <= i < |strategies| => SpawnState(strategies[i], strategies[i].delay, 0.0, false))
  }

  /** A strategy's state after a tick, and whether it spawns in that tick. */
  datatype Tick = Tick(state: SpawnState, spawn: bool)

  /**
   One strategy in `_updateSpawnStrategies`. Before it starts, its delay runs down and
   nothing spawns; when the delay is used up it starts with its interval timer at zero.
   Once started, its interval timer runs down and, when used up, it spawns one monster
   and the timer restarts at the strategy's interval.
   */
  function TickStrategy(s: SpawnState, dt: real): (t: Tick)
    ensures t.state.strategy == s.strategy
    ensures !s.hasStarted ==>
      !t.spawn && t.state.delayTimer == s.delayTimer - dt &&
      (t.state.hasStarted <==> s.delayTimer - dt <= 0.0) &&
      t.state.intervalTimer == (if t.state.hasStarted then 0.0 else s.intervalTimer)
    ensures s.hasStarted ==>
      t.state.hasStarted && t.state.delayTimer == s.delayTimer &&
      (t.spawn <==> s.intervalTimer - dt <= 0.0) &&
      t.state.intervalTimer == (if t.spawn then s.strategy.interval else s.intervalTimer - dt)
  {
    if !s.hasStarted then
      var d := s.delayTimer - dt;
      if d <= 0.0 then Tick(s.(delayTimer := d, hasStarted := true, intervalTimer := 0.0), false)
      else Tick(s.(delayTimer := d), false)
    else
      var v := s.intervalTimer - dt;
      if v <= 0.0 then Tick(s.(intervalTimer := s.strategy.interval), true)
      else Tick(s.(intervalTimer := v), false)
  }

  /** The interval timer of a started strategy never exceeds the strategy's interval. */
  predicate WellTimed(s: SpawnState) {
    s.hasStarted ==> s.intervalTimer <= s.strategy.interval
  }

  /** With a positive interval and time running forwards, a tick keeps the timers well-timed. */
  lemma TickWellTimed(s: SpawnState, dt: real)
    requires WellTimed(s) && s.strategy.interval > 0.0 && dt >= 0.0
    ensures WellTimed(TickStrategy(s, dt).state)
  {
  }

  /** The tick after a strategy starts spawns at once: its first monster comes without waiting an interval. */
  lemma FirstSpawnRightAfterStart(s: SpawnState, dt: real, dt2: real)
    requires !s.hasStarted && TickStrategy(s, dt).state.hasStarted && dt2 >= 0.0
    ensures TickStrategy(TickStrategy(s, dt).state, dt2).spawn
  {
  }

  /** The strategy's state after `n` ticks of `dt`, and how many of them spawned. */
  function Run(s: SpawnState, dt: real, n: nat): (r: (SpawnState, nat))
    ensures r.1 <= n
    decreases n
  {
    if n == 0 then (s, 0)
    else
      var t := TickStrategy(s, dt);
      var rest := Run(t.state, dt, n - 1);
      (rest.0, rest.1 + (if t.spawn then 1 else 0))
  }

  /**
   A started strategy whose timer `n` ticks can use up spawns within those `n` ticks:
   no started strategy stalls.
   */
  lemma {:induction false} SpawnsWithin(s: SpawnState, dt: real, n: nat)
    requires s.hasStarted && dt > 0.0 && n >= 1 && s.intervalTimer <= (n as real) * dt
    ensures Run(s, dt, n).1 >= 1
    decreases n
  {
    var t := TickStrategy(s, dt);
    if !t.spawn {
      assert s.intervalTimer - dt > 0.0;
      assert ((n - 1) as real) * dt == (n as real) * dt - dt;
      assert ((n - 1) as real) * dt > 0.0;
      SpawnsWithin(t.state, dt, n - 1);
    }
  }

  /** Every strategy's tick, and which of them spawn; none of either at or above the cap. */
  datatype Schedule = Schedule(states: seq<SpawnState>, fired: seq<bool>)

  /**
   `_updateSpawnStrategies`: at `MaxMonsters` or more listed monsters the tick is skipped
   for every strategy; otherwise every strategy ticks once and spawns at most once.
   */
  function UpdateSpawnStrategies(states: seq<SpawnState>, count: nat, dt: real): (r: Schedule)
    ensures |r.states| == |states| && |r.fired| == |states|
    ensures count >= MaxMonsters ==> r.states == states && forall i :: 0 <= i < |states| ==> !r.fired[i]
    ensures count < MaxMonsters ==> forall i :: 0 <= i < |states| ==>
      r.states[i] == TickStrategy(states[i], dt).state && r.fired[i] == TickStrategy(states[i], dt).spawn
  {
    if count >= MaxMonsters then Schedule(states, seq(|states|, _ => false))
    else
      Schedule(seq(|states|, i requires 0 <= i < |states| => TickStrategy(states[i], dt).state),
               seq(|states|, i requires 0 <= i < |states| => TickStrategy(states[i], dt).spawn))
  }

  // ---- The world ----

  /** Entity `k` has the same components, with the same fields, and the same position in `w` and `r`. */
  ghost predicate Alike(w: World.World, r: World.World, k: nat) {
    (forall cid :: DataOf(r, k, cid) == DataOf(w, k, cid)) && LocalPos(r, k) == LocalPos(w, k)
  }

  /**
   `r` keeps what `w` had: every entity up to `w`'s counter, with its components, and
   no other; their Transforms; the creation order as a prefix; the destruction queue,
   the systems and the bus.
   */
  predicate Keeps(w: World.World, r: World.World) {
    w.counter <= r.counter && w.order <= r.order && w.entities.Keys <= r.entities.Keys &&
    (forall k :: k in r.entities && k <= w.counter ==> k in w.entities) &&
    (forall k :: k in w.entities && k <= w.counter ==> r.entities[k] == w.entities[k]) &&
    (forall k :: k in r.transforms && k <= w.counter ==> k in w.transforms) &&
    (forall k :: k in w.transforms && k <= w.counter ==> k in r.transforms && r.transforms[k] == w.transforms[k]) &&
    r.queue == w.queue && r.systems == w.systems && r.bus == w.bus
  }

  lemma KeepsTrans(a: World.World, b: World.World, c: World.World)
    requires Keeps(a, b) && Keeps(b, c)
    ensures Keeps(a, c)
  {
  }

  /** What is kept includes every component's fields. */
  lemma KeptData(w: World.World, r: World.World)
    requires Keeps(w, r)
    ensures forall k: nat, cid :: k <= w.counter ==> DataOf(r, k, cid) == DataOf(w, k, cid)
  {
  }

  /** What is kept is alike. */
  lemma KeptAlike(w: World.World, r: World.World)
    requires Keeps(w, r)
    ensures forall k: nat :: k <= w.counter ==> Alike(w, r, k)
  {
    KeptData(w, r);
  }

  /** A freshly spawned monster: tagged, alive, moving, at the start of its walk. */
  predicate Fresh(w: World.World, k: nat) {
    k in w.entities && w.entities[k].tag == "monster" && w.entities[k].active && !w.entities[k].destroyed &&
    MonsterOf(w, k).Some? && MonsterOf(w, k).value.state == Moving && MonsterOf(w, k).value.pathProgress == 0.0
  }

  /** A monster fresh before stays fresh while its entity and its components are kept. */
  lemma FreshKept(w: World.World, r: World.World, k: nat)
    requires Keeps(w, r) && Fresh(w, k) && k <= w.counter
    ensures Fresh(r, k)
  {
    KeptData(w, r);
    assert DataOf(r, k, MonsterComponentId) == DataOf(w, k, MonsterComponentId);
  }

  /** Every entity `r` has and `w` had not is a fresh monster with an id handed out by `r`'s counter. */
  predicate AddsFresh(w: World.World, r: World.World) {
    forall k :: k in r.entities && k !in w.entities ==> k <= r.counter && Fresh(r, k)
  }

  lemma AddsFreshTrans(a: World.World, b: World.World, c: World.World)
    requires AddsFresh(a, b) && AddsFresh(b, c) && Keeps(b, c)
    ensures AddsFresh(a, c)
  {
    forall k | k in c.entities && k !in a.entities ensures k <= c.counter && Fresh(c, k) {
      if k in b.entities {
        FreshKept(b, c, k);
      }
    }
  }

  // ---- Spawning ----

  /** `id` is an alive `monster` entity of the strategy's type and lane, standing at `pos`. */
  predicate Spawnling(r: World.World, id: nat, st: SpawnStrategy, pos: Transform.Point) {
    id in r.entities && r.entities[id].tag == "monster" && r.entities[id].active && !r.entities[id].destroyed &&
    GetMonsterType(st.monsterId).Some? &&
    var t := GetMonsterType(st.monsterId).value;
    MonsterOf(r, id) == Some(NewMonster(st.monsterId, t.hp, t.speed, t.attack, st.pathOffset)) &&
    LocalPos(r, id) == Some(pos)
  }

  /** Setting the entity's position when there is one to set; nothing but that position changes. */
  function StandAt(w: World.World, id: nat, pos: Option<Transform.Point>): (r: World.World)
    ensures pos.Some? && id in w.transforms ==> LocalPos(r, id) == pos
    ensures pos.None? ==> r == w
    ensures r.entities == w.entities && r.counter == w.counter && r.order == w.order
    ensures r.transforms.Keys == w.transforms.Keys
    ensures forall k :: k in w.transforms && k != id ==> r.transforms[k] == w.transforms[k]
    ensures r.queue == w.queue && r.systems == w.systems && r.bus == w.bus
  {
    match pos
    case None => w
    case Some(q) => Place(w, id, q.x, q.y)
  }

  /**
   The monster factory's entity, before it is placed: the next id, appended to the
   creation order, a fresh monster of the strategy's type and lane at the origin.
   */
  method NewMonsterEntity(w: World.World, st: SpawnStrategy) returns (r: World.World, id: nat)
    requires GetMonsterType(st.monsterId).Some?
    ensures id == w.counter + 1 && r.counter == id && r.order == w.order + [id]
    ensures r.entities.Keys == w.entities.Keys + {id}
    ensures Spawnling(r, id, st, Transform.Point(0.0, 0.0))
    ensures Keeps(w, r)
  {
    CreateMonsterKeeps(w, st);
    var c := Factories.CreateMonster(w, st.monsterId, st.pathOffset);
    r, id := c.0, c.1.value;
  }

  lemma CreateMonsterKeeps(w: World.World, st: SpawnStrategy)
    ensures Keeps(w, Factories.CreateMonster(w, st.monsterId, st.pathOffset).0)
  {
  }

  /**
   `_spawnMonster`: nothing without a path system or for an unknown type; otherwise a
   new alive `monster` entity, the next id appended to the creation order, of the
   strategy's type on the strategy's lane, standing at the lane's start (the origin
   while the path system is not initialised); the rest of the world is kept.
   */
  method SpawnMonster(w: World.World, ps: Option<PathSystem.PathSystem>, st: SpawnStrategy) returns (r: World.World)
    requires ps.Some? ==> PathSystem.Valid(ps.value)
    ensures ps.None? || GetMonsterType(st.monsterId).None? ==> r == w
    ensures ps.Some? && GetMonsterType(st.monsterId).Some? ==>
      var id := w.counter + 1;
      r.counter == id && r.order == w.order + [id] && r.entities.Keys == w.entities.Keys + {id} &&
      Spawnling(r, id, st, PathSystem.GetStartPosition(ps.value, st.pathOffset))
    ensures Keeps(w, r) && AddsFresh(w, r)
  {
    if ps.None? || GetMonsterType(st.monsterId).None? {
      return w;
    }
    var p := ps.value;
    var c, id := NewMonsterEntity(w, st);
    var pos := PathSystem.GetPositionAtProgress(p, 0.0, st.pathOffset);
    assert pos == if p.lanes.Some? then Some(PathSystem.GetStartPosition(p, st.pathOffset)) else None;
    r := StandAt(c, id, pos);
    assert DataOf(r, id, MonsterComponentId) == DataOf(c, id, MonsterComponentId);
  }

  /** The number of monsters the fired strategies bring: those of a known type, given a path system. */
  function Spawned(ps: Option<PathSystem.PathSystem>, ss: seq<SpawnStrategy>, fired: seq<bool>): (n: nat)
    requires |fired| == |ss|
    ensures n <= |ss|
    ensures (forall i :: 0 <= i < |fired| ==> !fired[i]) ==> n == 0
  {
    if |ss| == 0 then 0
    else
      var j := |ss| - 1;
      Spawned(ps, ss[..j], fired[..j]) + (if fired[j] && ps.Some? && GetMonsterType(ss[j].monsterId).Some? then 1 else 0)
  }

  /**
   The spawns of one tick, strategy by strategy: one new entity per monster counted by
   `Spawned`, each a fresh monster, and what was there kept.
   */
  method SpawnAll(w: World.World, ps: Option<PathSystem.PathSystem>, ss: seq<SpawnStrategy>, fired: seq<bool>)
    returns (r: World.World)
    requires ps.Some? ==> PathSystem.Valid(ps.value)
    requires |fired| == |ss|
    ensures r.counter == w.counter + Spawned(ps, ss, fired)
    ensures |r.order| == |w.order| + Spawned(ps, ss, fired)
    ensures Keeps(w, r) && AddsFresh(w, r)
    ensures Spawned(ps, ss, fired) == 0 ==> r.entities.Keys == w.entities.Keys
  {
    r := w;
    var i := 0;
    assert ss[..0] == [] && fired[..0] == [];
    while i < |ss|
      invariant 0 <= i <= |ss| && SpawnedSoFar(w, r, ps, ss[..i], fired[..i])
    {
      assert ss[..i + 1][..i] == ss[..i] && fired[..i + 1][..i] == fired[..i];
      r := SpawnNext(w, r, ps, ss[..i + 1], fired[..i + 1]);
      i := i + 1;
    }
    assert ss[..i] == ss && fired[..i] == fired;
  }

  /** `SpawnAll` after the strategies `ss` with their firings: the counts, and the world kept. */
  predicate SpawnedSoFar(w: World.World, r: World.World, ps: Option<PathSystem.PathSystem>, ss: seq<SpawnStrategy>,
                         fired: seq<bool>) {
    |fired| == |ss| &&
    r.counter == w.counter + Spawned(ps, ss, fired) && |r.order| == |w.order| + Spawned(ps, ss, fired) &&
    Keeps(w, r) && AddsFresh(w, r) && (Spawned(ps, ss, fired) == 0 ==> r.entities.Keys == w.entities.Keys)
  }

  /** One strategy of `SpawnAll`: the last of `ss`, spawning when it fired. */
  method SpawnNext(w: World.World, r: World.World, ps: Option<PathSystem.PathSystem>, ss: seq<SpawnStrategy>,
                   fired: seq<bool>) returns (r': World.World)
    requires ps.Some? ==> PathSystem.Valid(ps.value)
    requires |ss| > 0 && |fired| == |ss| && SpawnedSoFar(w, r, ps, ss[..|ss| - 1], fired[..|ss| - 1])
    ensures SpawnedSoFar(w, r', ps, ss, fired)
  {
    var j := |ss| - 1;
    r' := r;
    if fired[j] {
      r' := SpawnMonster(r, ps, ss[j]);
      KeepsTrans(w, r, r');
      AddsFreshTrans(w, r, r');
    }
  }

  // ---- Walking and attacking ----

  /** A monster after a tick, where it must stand (if the path system says), and the blow it struck. */
  datatype Step = Step(monster: Monster, place: Option<Transform.Point>, attack: Option<int>)

  /**
   `_updateMonster` on the component. A moving monster walks `speed * dt`; reaching its
   lane's length it starts attacking, its first blow a period away, and stands where the
   lane's length leads; otherwise it stands where its walk leads. An attacking monster's
   timer runs down; used up, it strikes with its attack and the timer restarts. A dead
   monster does nothing.
   */
  function StepMonster(p: PathSystem.PathSystem, m: Monster, dt: real): (r: Step)
    requires PathSystem.Valid(p)
    ensures m.state == Moving && m.pathProgress + m.speed * dt >= PathSystem.GetTotalLength(p, m.pathOffset) ==>
      r.attack.None? &&
      r.monster == m.(pathProgress := m.pathProgress + m.speed * dt, state := Attacking, attackTimer := AttackPeriod) &&
      r.place == PathSystem.GetPositionAtProgress(p, PathSystem.GetTotalLength(p, m.pathOffset), m.pathOffset)
    ensures m.state == Moving && m.pathProgress + m.speed * dt < PathSystem.GetTotalLength(p, m.pathOffset) ==>
      r.attack.None? && r.monster == m.(pathProgress := m.pathProgress + m.speed * dt) &&
      r.place == PathSystem.GetPositionAtProgress(p, m.pathProgress + m.speed * dt, m.pathOffset)
    ensures m.state == Attacking ==> r.place.None?
    ensures m.state == Attacking && m.attackTimer - dt <= 0.0 ==>
      r.attack == Some(m.attack) && r.monster == m.(attackTimer := AttackPeriod)
    ensures m.state == Attacking && m.attackTimer - dt > 0.0 ==>
      r.attack.None? && r.monster == m.(attackTimer := m.attackTimer - dt)
    ensures m.state == Dead ==> r == Step(m, None, None)
  {
    match m.state
    case Moving =>
      var progress := m.pathProgress + m.speed * dt;
      var total := PathSystem.GetTotalLength(p, m.pathOffset);
      if progress >= total then
        Step(m.(pathProgress := progress, state := Attacking, attackTimer := AttackPeriod),
             PathSystem.GetPositionAtProgress(p, total, m.pathOffset), None)
      else
        Step(m.(pathProgress := progress), PathSystem.GetPositionAtProgress(p, progress, m.pathOffset), None)
    case Attacking =>
      var timer := m.attackTimer - dt;
      if timer <= 0.0 then Step(m.(attackTimer := AttackPeriod), None, Some(m.attack))
      else Step(m.(attackTimer := timer), None, None)
    case Dead => Step(m, None, None)
  }

  /** The states in the order a monster goes through them. */
  function Rank(s: MonsterState): nat {
    match s
    case Moving => 0
    case Attacking => 1
    case Dead => 2
  }

  /**
   A tick never sends a monster back: its state only moves forward from moving to
   attacking, a dead monster stays as it is, the distance walked never shrinks for a
   non-negative speed and step, and an attacking monster's timer stays within a period.
   */
  lemma StepForward(p: PathSystem.PathSystem, m: Monster, dt: real)
    requires PathSystem.Valid(p)
    ensures var r := StepMonster(p, m, dt).monster;
      m.state != Dead ==> Rank(r.state) >= Rank(m.state) && r.state != Dead
    ensures m.state == Dead ==> StepMonster(p, m, dt).monster == m
    ensures m.speed * dt >= 0.0 ==> StepMonster(p, m, dt).monster.pathProgress >= m.pathProgress
    ensures m.state == Attacking && m.attackTimer <= AttackPeriod && dt >= 0.0 ==>
      StepMonster(p, m, dt).monster.attackTimer <= AttackPeriod
    ensures StepMonster(p, m, dt).monster.(pathProgress := m.pathProgress, state := m.state,
                                            attackTimer := m.attackTimer) == m
  {
  }

  /**
   On a lane of positive length, the monster that reaches its end stands on the lane's
   last point; on the middle lane that is where the base stands.
   */
  lemma ArrivesAtEnd(p: PathSystem.PathSystem, m: Monster, dt: real)
    requires PathSystem.Valid(p) && p.lanes.Some?
    requires PathSystem.GetTotalLength(p, m.pathOffset) > 0.0
    requires m.state == Moving && m.pathProgress + m.speed * dt >= PathSystem.GetTotalLength(p, m.pathOffset)
    ensures var ps := p.lanes.value[PathSystem.LaneIndex(m.pathOffset)].points;
      StepMonster(p, m, dt).place == Some(ps[|ps| - 1])
    ensures PathSystem.LaneIndex(m.pathOffset) == 1 ==>
      StepMonster(p, m, dt).place == Some(PathSystem.GetEndPosition(p))
  {
  }

  /**
   Entity `k`, a monster in `w`, has in `r` the component its step gives it, and stands
   where the step says (or where it stood, when the step says nothing).
   */
  ghost predicate Stepped(p: PathSystem.PathSystem, w: World.World, r: World.World, k: nat, dt: real)
    requires PathSystem.Valid(p)
  {
    MonsterOf(w, k).Some? ==>
      var st := StepMonster(p, MonsterOf(w, k).value, dt);
      MonsterOf(r, k) == Some(st.monster) &&
      (st.place.Some? && k in w.transforms ==> LocalPos(r, k) == st.place) &&
      (st.place.None? ==> LocalPos(r, k) == LocalPos(w, k))
  }

  lemma AlikeTrans(a: World.World, b: World.World, c: World.World, k: nat)
    requires Alike(a, b, k) && Alike(b, c, k)
    ensures Alike(a, c, k)
  {
  }

  /** A stepped monster left alike afterwards is still stepped. */
  lemma SteppedThenAlike(p: PathSystem.PathSystem, w: World.World, r: World.World, r1: World.World, k: nat, dt: real)
    requires PathSystem.Valid(p) && Stepped(p, w, r, k, dt) && Alike(r, r1, k)
    ensures Stepped(p, w, r1, k, dt)
  {
    assert DataOf(r1, k, MonsterComponentId) == DataOf(r, k, MonsterComponentId);
  }

  /** A monster left alike before its step is stepped from where it started. */
  lemma AlikeThenStepped(p: PathSystem.PathSystem, w: World.World, r: World.World, r1: World.World, k: nat, dt: real)
    requires PathSystem.Valid(p) && Alike(w, r, k) && Stepped(p, r, r1, k, dt)
    ensures Stepped(p, w, r1, k, dt)
  {
    assert DataOf(r, k, MonsterComponentId) == DataOf(w, k, MonsterComponentId);
    assert k in w.transforms <==> k in r.transforms;
  }

  /**
   One more listed monster stepped: those listed before stay stepped, the new one is
   stepped from where it started, and the others stay alike.
   */
  lemma StepOne(ps: Option<PathSystem.PathSystem>, w: World.World, r: World.World, r1: World.World,
                done: seq<nat>, id: nat, dt: real)
    requires ps.Some? ==> PathSystem.Valid(ps.value)
    requires id !in done
    requires ps.Some? ==> forall k :: k in done ==> Stepped(ps.value, w, r, k, dt)
    requires forall k :: k !in done ==> Alike(w, r, k)
    requires ps.Some? ==> Stepped(ps.value, r, r1, id, dt)
    requires forall k :: k != id ==> Alike(r, r1, k)
    ensures ps.Some? ==> forall k :: k in done + [id] ==> Stepped(ps.value, w, r1, k, dt)
    ensures forall k :: k !in done + [id] ==> Alike(w, r1, k)
  {
    forall k | k in done + [id] && ps.Some? ensures Stepped(ps.value, w, r1, k, dt) {
      if k == id {
        AlikeThenStepped(ps.value, w, r, r1, k, dt);
      } else {
        SteppedThenAlike(ps.value, w, r, r1, k, dt);
      }
    }
    forall k | k !in done + [id] ensures Alike(w, r1, k) {
      AlikeTrans(w, r, r1, k);
    }
  }

  /**
   `_updateMonster` on an entity: nothing without a monster component or a path system;
   otherwise the stepped component is stored and the entity stands where it must.
   Every other entity is left alike.
   */
  method UpdateMonster(w: World.World, ps: Option<PathSystem.PathSystem>, id: nat, dt: real)
    returns (r: World.World, blow: Option<int>)
    requires ps.Some? ==> PathSystem.Valid(ps.value)
    ensures MonsterOf(w, id).None? || ps.None? ==> r == w && blow.None?
    ensures ps.Some? ==> Stepped(ps.value, w, r, id, dt)
    ensures MonsterOf(w, id).Some? && ps.Some? ==> blow == StepMonster(ps.value, MonsterOf(w, id).value, dt).attack
    ensures forall k :: k != id ==> Alike(w, r, k)
    ensures SameShape(w, r)
  {
    var m := MonsterOf(w, id);
    if m.None? || ps.None? {
      return w, None;
    }
    var st := StepMonster(ps.value, m.value, dt);
    r := SetData(w, id, MonsterComponentId, MonsterData(st.monster));
    if st.place.Some? {
      r := Place(r, id, st.place.value.x, st.place.value.y);
    }
    blow := st.attack;
  }

  /** The blow one listed monster strikes in a tick, judged on the world `w`. */
  function BlowOf(w: World.World, ps: Option<PathSystem.PathSystem>, id: nat, dt: real): (b: seq<int>)
    requires ps.Some? ==> PathSystem.Valid(ps.value)
    ensures |b| <= 1
    ensures |b| == 1 <==> MonsterOf(w, id).Some? && ps.Some? && StepMonster(ps.value, MonsterOf(w, id).value, dt).attack.Some?
  {
    var m := MonsterOf(w, id);
    if m.Some? && ps.Some? && StepMonster(ps.value, m.value, dt).attack.Some?
    then [StepMonster(ps.value, m.value, dt).attack.value] else []
  }

  /** The blows the listed monsters strike in a tick, in list order. */
  function AttacksOf(w: World.World, ps: Option<PathSystem.PathSystem>, ids: seq<nat>, dt: real): (a: seq<int>)
    requires ps.Some? ==> PathSystem.Valid(ps.value)
    ensures |a| <= |ids|
  {
    if |ids| == 0 then []
    else AttacksOf(w, ps, ids[..|ids| - 1], dt) + BlowOf(w, ps, ids[|ids| - 1], dt)
  }

  /** The blows depend only on the listed monsters' components. */
  lemma {:induction false} AttacksOfFrame(w: World.World, v: World.World, ps: Option<PathSystem.PathSystem>, ids: seq<nat>, dt: real)
    requires ps.Some? ==> PathSystem.Valid(ps.value)
    requires forall k :: k in ids ==> MonsterOf(v, k) == MonsterOf(w, k)
    ensures AttacksOf(v, ps, ids, dt) == AttacksOf(w, ps, ids, dt)
    decreases |ids|
  {
    if |ids| > 0 {
      AttacksOfFrame(w, v, ps, ids[..|ids| - 1], dt);
    }
  }

  /**
   The loop of `Update` over the listed monsters, the system's entity list: each is
   stepped exactly once and stands where its step says, the blows come out in list
   order, and every entity not listed keeps its components and its position.
   */
  method UpdateMonsters(w: World.World, ps: Option<PathSystem.PathSystem>, ids: seq<nat>, dt: real)
    returns (r: World.World, attacks: seq<int>)
    requires ps.Some? ==> PathSystem.Valid(ps.value)
    requires NoDup(ids)
    ensures ps.Some? ==> forall k :: k in ids ==> Stepped(ps.value, w, r, k, dt)
    ensures attacks == AttacksOf(w, ps, ids, dt)
    ensures forall k :: k !in ids ==> Alike(w, r, k)
    ensures SameShape(w, r)
    ensures ps.None? ==> r == w && attacks == []
  {
    r, attacks := w, [];
    var i := 0;
    while i < |ids|
      invariant 0 <= i <= |ids|
      invariant ps.Some? ==> forall k :: k in ids[..i] ==> Stepped(ps.value, w, r, k, dt)
      invariant attacks == AttacksOf(w, ps, ids[..i], dt)
      invariant forall k :: k !in ids[..i] ==> Alike(w, r, k)
      invariant SameShape(w, r)
      invariant ps.None? ==> r == w && attacks == []
    {
      var id := ids[i];
      assert id !in ids[..i];
      assert ids[..i + 1][..i] == ids[..i] && ids[..i + 1] == ids[..i] + [id];
      var r1, blow := UpdateMonster(r, ps, id, dt);
      assert MonsterOf(r, id) == MonsterOf(w, id) by {
        assert DataOf(r, id, MonsterComponentId) == DataOf(w, id, MonsterComponentId);
      }
      StepOne(ps, w, r, r1, ids[..i], id, dt);
      r := r1;
      attacks := attacks + (if blow.Some? then [blow.value] else []);
      i := i + 1;
    }
    assert ids[..i] == ids;
  }

  // ---- The system ----

  /** The system's view after a tick: the world, the spawn states and the blows emitted. */
  datatype MonsterFrame = MonsterFrame(world: World.World, states: seq<SpawnState>, attacks: seq<int>)

  function Strategies(states: seq<SpawnState>): (ss: seq<SpawnStrategy>)
    ensures |ss| == |states| && forall i :: 0 <= i < |states| ==> ss[i] == states[i].strategy
  {
    seq(|states|, i requires 0 <= i < |states| => states[i].strategy)
  }

  /**
   `Update`: nothing unless the game is playing; then the spawn schedule ticks (skipped
   at the cap) and the fired strategies spawn, and then every listed monster, the
   system's entity list refreshed before the tick, is stepped once. Monsters spawned
   in this tick are not listed and so do not move until the next one; every entity
   that was there and is not listed keeps its components.
   */
  method Update(w: World.World, g: GameState.GameState, ps: Option<PathSystem.PathSystem>,
                states: seq<SpawnState>, monsters: seq<nat>, dt: real) returns (r: MonsterFrame)
    requires ps.Some? ==> PathSystem.Valid(ps.value)
    requires NoDup(monsters)
    ensures !GameState.IsPlaying(g) ==> r == MonsterFrame(w, states, [])
    ensures GameState.IsPlaying(g) && |monsters| >= MaxMonsters ==>
      r.states == states && r.world.entities.Keys == w.entities.Keys && r.world.counter == w.counter
    ensures GameState.IsPlaying(g) && |monsters| < MaxMonsters ==>
      |r.states| == |states| && forall i :: 0 <= i < |states| ==> r.states[i] == TickStrategy(states[i], dt).state
    ensures GameState.IsPlaying(g) && ps.Some? ==>
      forall k: nat :: k in monsters && k <= w.counter ==> Stepped(ps.value, w, r.world, k, dt)
    ensures GameState.IsPlaying(g) && (forall k :: k in monsters ==> k <= w.counter) ==>
      r.attacks == AttacksOf(w, ps, monsters, dt)
    ensures forall k :: k in w.entities ==> k in r.world.entities
    ensures forall k: nat, cid :: k <= w.counter && k !in monsters ==> DataOf(r.world, k, cid) == DataOf(w, k, cid)
  {
    if !GameState.IsPlaying(g) {
      return MonsterFrame(w, states, []);
    }
    var sched := UpdateSpawnStrategies(states, |monsters|, dt);
    var w1 := SpawnAll(w, ps, Strategies(states), sched.fired);
    KeptData(w, w1);
    KeptAlike(w, w1);
    assert forall k: nat :: k <= w.counter ==> MonsterOf(w1, k) == MonsterOf(w, k) by {
      forall k: nat | k <= w.counter ensures MonsterOf(w1, k) == MonsterOf(w, k) {
        assert DataOf(w1, k, MonsterComponentId) == DataOf(w, k, MonsterComponentId);
      }
    }
    var w2, attacks := UpdateMonsters(w1, ps, monsters, dt);
    forall k: nat | k in monsters && k <= w.counter && ps.Some? ensures Stepped(ps.value, w, w2, k, dt) {
      AlikeThenStepped(ps.value, w, w1, w2, k, dt);
    }
    if forall k :: k in monsters ==> k <= w.counter {
      AttacksOfFrame(w, w1, ps, monsters, dt);
    }
    r := MonsterFrame(w2, sched.states, attacks);
  }

  /** `Reset`: every listed monster is destroyed and the schedule starts over. */
  function Reset(w: World.World, monsters: seq<nat>, strategies: seq<SpawnStrategy>): (r: (World.World, seq<SpawnState>))
    ensures forall k :: k in w.entities ==>
      k in r.0.entities && (r.0.entities[k].destroyed <==> w.entities[k].destroyed || k in monsters)
    ensures r.0.order == w.order && r.0.transforms == w.transforms && r.0.counter == w.counter
    ensures r.1 == InitSpawnStates(strategies)
  {
    (DestroyAll(w, monsters), InitSpawnStates(strategies))
  }
}
