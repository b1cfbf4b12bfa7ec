/**
 `BaseSystem`: the base at the end of the path. It is built when the system starts,
 loses hit points for every `monster_attack_base` event, switches the game to
 `gameover` and announces `game_over` whenever a blow leaves it without hit points, and
 is restored on a restart. The health bar's colour follows the remaining share of hit
 points.
 */
module BaseSystem {
  import opened Wrappers
  import opened Components
  import opened Render
  import opened BaseComponent
  import opened Scene
  import Factories
  import GameState
  import PathSystem
  import Transform
  import World
  import EventBus

  const AttackEvent := "monster_attack_base"
  const GameOverEvent := "game_over"
  const BaseMaxHp := 1000

  /**
   The system's own fields: the path system found at start (`_pathSystem`), the base
   it built (`_baseEntity`), and the bound attack handler it registered, if any.
   */
  datatype BaseSys = BaseSys(path: Option<PathSystem.PathSystem>, base: Option<nat>, handler: Option<nat>)

  /** The constructor: no path system, no base, nothing registered. */
  function New(): (st: BaseSys)
    ensures st.path.None? && st.base.None? && st.handler.None?
  {
    BaseSys(None, None, None)
  }

  /** The system holds a base entity that is still active (a torn-down entity is no longer active). */
  predicate Standing(w: World.World, base: Option<nat>) {
    base.Some? && base.value in w.entities && w.entities[base.value].active
  }

  /** A standing base that also holds its BaseComponent: the only kind a blow reaches. */
  predicate Hittable(w: World.World, base: Option<nat>) {
    Standing(w, base) && BaseOf(w, base.value).Some?
  }

  // ---- Building the base ----

  /** A 40 by 40 blue rectangle with a darker two-pixel border. */
  function BaseSprite(): SpriteRenderer {
    NewSprite(Some(Rect), Some(40.0), Some(40.0), None, Some("#0088ff"), Some("#0044aa"), Some(2.0), None)
  }

  function BaseParts(): seq<Component> {
    [Of(SpriteRendererId, SpriteData(BaseSprite())), Of(BaseComponentId, BaseData(NewBase(Some(BaseMaxHp))))]
  }

  /**
   `_createBase`: a new `base` entity standing where the middle lane ends, drawn as the
   blue rectangle and holding a full BaseComponent of 1000 hit points; every other
   entity and Transform is left as it was.
   */
  method CreateBase(w: World.World, p: PathSystem.PathSystem) returns (r: World.World, id: nat)
    requires PathSystem.Valid(p)
    ensures id == w.counter + 1 && r.counter == id && r.order == w.order + [id]
    ensures r.entities.Keys == w.entities.Keys + {id}
    ensures r.entities[id].tag == "base" && r.entities[id].active && !r.entities[id].destroyed
    ensures LocalPos(r, id) == Some(PathSystem.GetEndPosition(p))
    ensures BaseOf(r, id) == Some(Base(1000, 1000))
    ensures SpriteOf(r, id) == Some(SpriteRenderer(Rect, 40.0, 40.0, 16.0, "#0088ff", "#0044aa", 2.0, true))
    ensures Hittable(r, Some(id))
    ensures forall k :: k in w.entities && k != id ==> r.entities[k] == w.entities[k]
    ensures forall k, cid :: k != id ==> DataOf(r, k, cid) == DataOf(w, k, cid)
    ensures forall k :: k in w.transforms && k != id ==> k in r.transforms && r.transforms[k] == w.transforms[k]
    ensures r.queue == w.queue && r.systems == w.systems && r.bus == w.bus
  {
    var e := PathSystem.GetEndPosition(p);
    var cs := BaseParts();
    assert Factories.Fits({TransformId}, cs) by {
      Factories.IdsCons(cs[1], []); Factories.IdsCons(cs[0], [cs[1]]);
      assert cs == [cs[0]] + [cs[1]] && [cs[1]] == [cs[1]] + [];
      assert Factories.Ids(cs) == {SpriteRendererId, BaseComponentId};
    }
    var b := Factories.Build(w, "base", e.x, e.y, cs);
    assert DataOf(b.0, b.1, cs[0].staticId) == Some(cs[0].data);
    assert DataOf(b.0, b.1, cs[1].staticId) == Some(cs[1].data);
    r, id := b.0, b.1;
  }

  // ---- Starting and stopping ----

  /**
   `OnInit`, given the registered PathSystem if there is one: without it nothing is
   built and nothing registered; with it the base is built and the bound handler
   `callback` listens for monster attacks, without context.
   */
  method OnInit(w: World.World, s: World.System, ps: Option<PathSystem.PathSystem>, callback: nat)
    returns (r: World.World, st: BaseSys)
    requires ps.Some? ==> PathSystem.Valid(ps.value)
    ensures ps.None? ==> r == w && st == New()
    ensures ps.Some? ==> st == BaseSys(ps, Some(w.counter + 1), Some(callback))
    ensures ps.Some? ==> (Hittable(r, st.base) && BaseOf(r, st.base.value) == Some(Base(1000, 1000)) &&
      LocalPos(r, st.base.value) == Some(PathSystem.GetEndPosition(ps.value)) && r.entities[st.base.value].tag == "base")
    ensures ps.Some? ==> r.bus == World.SystemOn(w, s, AttackEvent, callback, None).bus
    ensures ps.Some? && s.attached ==>
      EventBus.Listeners(r.bus, AttackEvent) == EventBus.Listeners(w.bus, AttackEvent) + [EventBus.Listener(callback, None)]
    ensures forall k, cid :: k != w.counter + 1 ==> DataOf(r, k, cid) == DataOf(w, k, cid)
  {
    if ps.None? {
      return w, New();
    }
    var w1, id := CreateBase(w, ps.value);
    r := World.SystemOn(w1, s, AttackEvent, callback, None);
    st := BaseSys(ps, Some(id), Some(callback));
    assert forall k, cid :: DataOf(r, k, cid) == DataOf(w1, k, cid);
  }

  /**
   `OnDispose`: stops listening with the handler bound at start; when the start
   returned early no handler was bound, and the unbound method `unbound` is used, which
   was never registered.
   */
  function OnDispose(w: World.World, s: World.System, st: BaseSys, unbound: nat): (r: World.World)
    ensures !s.attached ==> r == w
    ensures s.attached ==> (EventBus.Listeners(r.bus, AttackEvent) ==
      EventBus.Without(EventBus.Listeners(w.bus, AttackEvent), st.handler.GetOr(unbound), None))
  {
    World.SystemOff(w, s, AttackEvent, st.handler.GetOr(unbound), None)
  }

  /**
   Disposing a started system takes back exactly its own registration: the bus is as
   it was before the start, whatever the base went through in between.
   */
  lemma DisposeUndoesInit(w: World.World, s: World.System, callback: nat, x: World.World, unbound: nat)
    requires EventBus.Valid(w.bus)
    requires forall l :: l in EventBus.Listeners(w.bus, AttackEvent) ==> !EventBus.Matches(l, callback, None)
    requires x.bus == World.SystemOn(w, s, AttackEvent, callback, None).bus
    ensures OnDispose(x, s, BaseSys(None, None, Some(callback)), unbound).bus == w.bus
  {
    World.SystemOffUndoesOn(w, s, AttackEvent, callback, None);
  }

  // ---- Monster attacks ----

  /** After one blow: the world, the game state, the `game_over` listeners called, and whether the base fell. */
  datatype Struck = Struck(world: World.World, game: GameState.GameState, notified: seq<EventBus.Listener>, over: bool)

  /**
   `_onMonsterAttack`: ignored unless the base stands and holds its BaseComponent;
   otherwise the base takes the blow, and when that leaves it no hit points
   `_onBaseDestroyed` switches the game to `gameover` and emits `game_over`. Only the
   base's BaseComponent changes.
   */
  function OnMonsterAttack(w: World.World, g: GameState.GameState, s: World.System, base: Option<nat>,
                           attack: int): (r: Struck)
    ensures !Hittable(w, base) ==> r == Struck(w, g, [], false)
    ensures Hittable(w, base) ==>
      var d := TakeDamage(BaseOf(w, base.value).value, attack);
      BaseOf(r.world, base.value) == Some(d.base) && r.over == d.destroyed
    ensures r.over ==> (r.game == GameState.SetState(g, GameState.GameOver) &&
      r.notified == World.SystemEmit(w, s, GameOverEvent))
    ensures !r.over ==> r.game == g && r.notified == []
    ensures forall k, cid :: base.None? || k != base.value || cid != BaseComponentId ==>
      DataOf(r.world, k, cid) == DataOf(w, k, cid)
    ensures SameShape(w, r.world) && r.world.transforms == w.transforms
  {
    if !Hittable(w, base) then Struck(w, g, [], false)
    else
      var d := TakeDamage(BaseOf(w, base.value).value, attack);
      var w1 := SetData(w, base.value, BaseComponentId, BaseData(d.base));
      if d.destroyed then
        Struck(w1, GameState.SetState(g, GameState.GameOver), World.SystemEmit(w1, s, GameOverEvent), true)
      else Struck(w1, g, [], false)
  }

  /** Blows in the order the monsters strike them, with every `game_over` listener call and the count of falls. */
  datatype Siege = Siege(world: World.World, game: GameState.GameState, notified: seq<EventBus.Listener>, falls: nat)

  /** The attack events of one tick delivered in turn (each `Emit` calls the handler at once). */
  function Suffer(w: World.World, g: GameState.GameState, s: World.System, base: Option<nat>,
                  attacks: seq<int>): (r: Siege)
    ensures r.falls <= |attacks|
    decreases |attacks|
  {
    if |attacks| == 0 then Siege(w, g, [], 0)
    else
      var h := OnMonsterAttack(w, g, s, base, attacks[0]);
      var rest := Suffer(h.world, h.game, s, base, attacks[1..]);
      Siege(rest.world, rest.game, h.notified + rest.notified, (if h.over then 1 else 0) + rest.falls)
  }

  function Total(attacks: seq<int>): int
    decreases |attacks|
  {
    if |attacks| == 0 then 0 else attacks[0] + Total(attacks[1..])
  }

  predicate Blows(attacks: seq<int>) {
    forall i :: 0 <= i < |attacks| ==> attacks[i] >= 0
  }

  /**
   A run of non-negative blows on a standing base with hit points in range takes off
   their total, floored at zero; the base falls during the run exactly when the run is
   not empty and the total reaches its hit points, and then the game is over; otherwise
   the game state is untouched. The kill count never changes.
   */
  lemma {:induction false} SufferTotal(w: World.World, g: GameState.GameState, s: World.System, base: Option<nat>,
                                       attacks: seq<int>)
    requires Hittable(w, base) && Healthy(BaseOf(w, base.value).value) && Blows(attacks)
    ensures var b := BaseOf(w, base.value).value;
      var r := Suffer(w, g, s, base, attacks);
      Hittable(r.world, base) &&
      BaseOf(r.world, base.value) == Some(b.(hp := if b.hp - Total(attacks) > 0 then b.hp - Total(attacks) else 0)) &&
      (r.falls > 0 <==> |attacks| > 0 && b.hp <= Total(attacks)) &&
      (r.falls > 0 ==> GameState.IsGameOver(r.game)) &&
      (r.falls == 0 ==> r.game == g) &&
      r.game.killCount == g.killCount
    decreases |attacks|
  {
    if |attacks| > 0 {
      var b := BaseOf(w, base.value).value;
      var h := OnMonsterAttack(w, g, s, base, attacks[0]);
      assert Blows(attacks[1..]) by {
        forall i | 0 <= i < |attacks[1..]| ensures attacks[1..][i] >= 0 { assert attacks[1..][i] == attacks[i + 1]; }
      }
      assert SameShape(w, h.world);
      SufferTotal(h.world, h.game, s, base, attacks[1..]);
      if h.over {
        TotalNonNeg(attacks[1..]);
      }
    }
  }

  lemma {:induction false} TotalNonNeg(attacks: seq<int>)
    requires Blows(attacks)
    ensures Total(attacks) >= 0
    decreases |attacks|
  {
    if |attacks| > 0 {
      assert Blows(attacks[1..]) by {
        forall i | 0 <= i < |attacks[1..]| ensures attacks[1..][i] >= 0 { assert attacks[1..][i] == attacks[i + 1]; }
      }
      TotalNonNeg(attacks[1..]);
    }
  }

  /**
   A fallen base falls again under every further blow: each non-negative blow that
   reaches it switches to `gameover` and emits `game_over` once more.
   */
  lemma {:induction false} FallenFallsAgain(w: World.World, g: GameState.GameState, s: World.System, base: Option<nat>,
                                            attacks: seq<int>)
    requires Hittable(w, base) && BaseOf(w, base.value).value.hp == 0 && Blows(attacks)
    ensures Suffer(w, g, s, base, attacks).falls == |attacks|
    decreases |attacks|
  {
    if |attacks| > 0 {
      var h := OnMonsterAttack(w, g, s, base, attacks[0]);
      assert h.over;
      assert Blows(attacks[1..]) by {
        forall i | 0 <= i < |attacks[1..]| ensures attacks[1..][i] >= 0 { assert attacks[1..][i] == attacks[i + 1]; }
      }
      assert SameShape(w, h.world);
      FallenFallsAgain(h.world, h.game, s, base, attacks[1..]);
    }
  }

  // ---- Restart ----

  /**
   `Reset`: a base that no longer stands is built anew (and the system then holds the
   new one); a standing base has its hit points restored, when it holds its
   BaseComponent. Building needs the path system: without one the source throws, which
   is `None` here.
   */
  method Reset(w: World.World, st: BaseSys) returns (r: Option<(World.World, BaseSys)>)
    requires st.path.Some? ==> PathSystem.Valid(st.path.value)
    ensures !Standing(w, st.base) && st.path.None? ==> r.None?
    ensures !Standing(w, st.base) && st.path.Some? ==>
      r.Some? && r.value.1 == st.(base := Some(w.counter + 1)) &&
      Hittable(r.value.0, r.value.1.base) && BaseOf(r.value.0, w.counter + 1) == Some(Base(1000, 1000)) &&
      LocalPos(r.value.0, w.counter + 1) == Some(PathSystem.GetEndPosition(st.path.value)) &&
      (forall k, cid :: k != w.counter + 1 ==> DataOf(r.value.0, k, cid) == DataOf(w, k, cid))
    ensures Standing(w, st.base) ==> r.Some? && r.value.1 == st
    ensures Hittable(w, st.base) ==>
      var b := BaseOf(w, st.base.value).value;
      BaseOf(r.value.0, st.base.value) == Some(b.(hp := b.maxHp)) &&
      (forall k, cid :: k != st.base.value || cid != BaseComponentId ==> DataOf(r.value.0, k, cid) == DataOf(w, k, cid))
    ensures Standing(w, st.base) && !Hittable(w, st.base) ==> r == Some((w, st))
  {
    if !Standing(w, st.base) {
      if st.path.None? {
        return None;
      }
      var w1, id := CreateBase(w, st.path.value);
      return Some((w1, st.(base := Some(id))));
    }
    var b := BaseOf(w, st.base.value);
    if b.None? {
      return Some((w, st));
    }
    var w1 := SetData(w, st.base.value, BaseComponentId, BaseData(BaseComponent.Reset(b.value)));
    return Some((w1, st));
  }

  /** A restart after any run of blows gives back a full base, and a game over is undone only by the game's own reset. */
  lemma ResetRestores(w: World.World, g: GameState.GameState, s: World.System, base: Option<nat>, attacks: seq<int>)
    requires Hittable(w, base) && Healthy(BaseOf(w, base.value).value) && Blows(attacks)
    ensures var r := Suffer(w, g, s, base, attacks);
      Hittable(r.world, base) &&
      BaseComponent.Reset(BaseOf(r.world, base.value).value) == BaseComponent.Reset(BaseOf(w, base.value).value)
  {
    SufferTotal(w, g, s, base, attacks);
  }

  // ---- Health bar ----

  const Red := "#ff0000"
  const Yellow := "#ffff00"
  const Green := "#00ff00"

  /** `_renderHealthBar`'s colour: red below 30%, yellow below 60%, green from there on. */
  function HealthBarColor(ratio: real): (c: string)
    ensures c in {Red, Yellow, Green}
  {
    if ratio < 0.3 then Red else if ratio < 0.6 then Yellow else Green
  }

  /**
   In hit points: the bar is red while fewer than 3 tenths of the maximum remain,
   yellow from there until 6 tenths, green from 6 tenths on.
   */
  lemma ColorByHp(b: Base)
    requires b.maxHp > 0
    ensures HealthBarColor(HpRatio(b)) == Red <==> 10 * b.hp < 3 * b.maxHp
    ensures HealthBarColor(HpRatio(b)) == Yellow <==> 3 * b.maxHp <= 10 * b.hp < 6 * b.maxHp
    ensures HealthBarColor(HpRatio(b)) == Green <==> 6 * b.maxHp <= 10 * b.hp
  {
    var m := b.maxHp as real;
    var x := b.hp as real;
    assert HpRatio(b) * m == x;
    RatioBelow(x, m, 0.3);
    RatioBelow(x, m, 0.6);
  }

  lemma RatioBelow(x: real, m: real, t: real)
    requires m > 0.0
    ensures x / m < t <==> x < t * m
  {
    assert x / m * m == x;
  }

  /** Losing hit points never makes the bar healthier: green, yellow and red only ever step down. */
  lemma ColorWorsens(b: Base, damage: int)
    requires b.maxHp > 0 && Healthy(b) && damage >= 0
    ensures var c0 := HealthBarColor(HpRatio(b));
      var c1 := HealthBarColor(HpRatio(TakeDamage(b, damage).base));
      (c0 == Red ==> c1 == Red) && (c0 == Yellow ==> c1 != Green)
  {
    ColorByHp(b);
    ColorByHp(TakeDamage(b, damage).base);
  }
}
