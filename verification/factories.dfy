/**
 The entity factories of the game: each creates one tagged entity, puts it at a local
 position and attaches a fixed list of components. `Build` is that common shape; the
 factories differ only in their tags and component lists.
 */
module Factories {
  import opened Wrappers
  import opened Seqs
  import opened Reals
  import opened Components
  import opened Colliders
  import opened Render
  import opened BrickComponent
  import opened MonsterComponent
  import opened BaseComponent
  import opened BulletComponent
  import opened CharacterComponent
  import MonsterDefs
  import Transform
  import Entity
  import World
  import opened Scene

  /** The static IDs of a component list. */
  function Ids(cs: seq<Component>): (ids: set<string>)
    ensures forall i :: 0 <= i < |cs| ==> cs[i].staticId in ids
  {
    set i | 0 <= i < |cs| :: cs[i].staticId
  }

  /** The IDs of a list with a given head. */
  lemma IdsCons(c: Component, cs: seq<Component>)
    ensures Ids([c] + cs) == {c.staticId} + Ids(cs)
  {
    var l := [c] + cs;
    assert l[0] == c;
    assert forall i :: 0 <= i < |cs| ==> l[i + 1] == cs[i];
    forall x | x in Ids(l) ensures x in {c.staticId} + Ids(cs) {
      var i :| 0 <= i < |l| && l[i].staticId == x;
      if i > 0 { assert cs[i - 1] == l[i]; }
    }
  }

  /** The IDs of a three-element list. */
  lemma Ids3(a: Component, b: Component, c: Component)
    ensures Ids([a, b, c]) == {a.staticId, b.staticId, c.staticId}
  {
    IdsCons(c, []);
    IdsCons(b, [c]);
    IdsCons(a, [b, c]);
    assert [a, b, c] == [a] + [b, c] && [b, c] == [b] + [c] && [c] == [c] + [];
  }

  /** A list an entity holding `held` accepts whole: distinct new IDs, none empty, not both renderers. */
  predicate Fits(held: set<string>, cs: seq<Component>) {
    (forall i, j :: 0 <= i < j < |cs| ==> cs[i].staticId != cs[j].staticId) &&
    (forall i :: 0 <= i < |cs| ==> cs[i].staticId != "" && cs[i].staticId !in held) &&
    !(SpriteRendererId in held + Ids(cs) && TextureRendererId in held + Ids(cs))
  }

  /** Attaching the components in list order. */
  function AddAll(w: World.World, id: nat, cs: seq<Component>): (r: World.World)
    ensures r.entities.Keys == w.entities.Keys && r.order == w.order && r.transforms == w.transforms
    ensures r.counter == w.counter && r.queue == w.queue && r.systems == w.systems && r.bus == w.bus
    ensures forall k :: k in w.entities ==>
      r.entities[k].tag == w.entities[k].tag && r.entities[k].active == w.entities[k].active &&
      r.entities[k].destroyed == w.entities[k].destroyed && r.entities[k].hasWorld == w.entities[k].hasWorld
    ensures forall k, cid :: k != id ==> DataOf(r, k, cid) == DataOf(w, k, cid)
    ensures forall k :: k in w.entities && k != id ==> r.entities[k] == w.entities[k]
    decreases |cs|
  {
    if |cs| == 0 then w else AddAll(Add(w, id, cs[0]), id, cs[1..])
  }

  /** The head of a fitting list is accepted, and the rest fits what the entity then holds. */
  lemma FitsStep(held: set<string>, cs: seq<Component>)
    requires |cs| > 0 && Fits(held, cs)
    ensures Ids(cs) == {cs[0].staticId} + Ids(cs[1..])
    ensures Fits(held + {cs[0].staticId}, cs[1..])
  {
    assert cs == [cs[0]] + cs[1..];
    IdsCons(cs[0], cs[1..]);
    var rest := cs[1..];
    var held' := held + {cs[0].staticId};
    forall i, j | 0 <= i < j < |rest| ensures rest[i].staticId != rest[j].staticId {
      assert rest[i] == cs[i + 1] && rest[j] == cs[j + 1];
    }
    forall i | 0 <= i < |rest| ensures rest[i].staticId != "" && rest[i].staticId !in held' {
      assert rest[i] == cs[i + 1];
      assert cs[0].staticId != cs[i + 1].staticId;
    }
    assert held' + Ids(rest) == held + Ids(cs);
  }

  /** A fitting list is attached whole, each component with its fields; nothing else of the entity changes. */
  lemma {:induction false} AddAllData(w: World.World, id: nat, cs: seq<Component>, held: set<string>)
    requires id in w.entities && w.entities[id].components.Keys == held && Fits(held, cs)
    ensures AddAll(w, id, cs).entities[id].components.Keys == held + Ids(cs)
    ensures forall i :: 0 <= i < |cs| ==> DataOf(AddAll(w, id, cs), id, cs[i].staticId) == Some(cs[i].data)
    ensures forall cid :: cid !in Ids(cs) ==> DataOf(AddAll(w, id, cs), id, cid) == DataOf(w, id, cid)
    decreases |cs|
  {
    if |cs| > 0 {
      var c := cs[0];
      FitsStep(held, cs);
      assert Accepts(w, id, c);
      var w1 := Add(w, id, c);
      AddAllData(w1, id, cs[1..], held + {c.staticId});
      AddAllStep(w, id, cs);
      AddAllNext(w, w1, AddAll(w1, id, cs[1..]), id, cs, held);
    }
  }

  /** The inductive step of `AddAllData`: the head's data, and the rest's as attached after it. */
  lemma AddAllNext(w: World.World, w1: World.World, r: World.World, id: nat, cs: seq<Component>, held: set<string>)
    requires |cs| > 0 && id in w.entities && w.entities[id].components.Keys == held
    requires Accepts(w, id, cs[0]) && w1 == Add(w, id, cs[0])
    requires Ids(cs) == {cs[0].staticId} + Ids(cs[1..]) && cs[0].staticId !in Ids(cs[1..])
    requires id in r.entities && r.entities[id].components.Keys == held + {cs[0].staticId} + Ids(cs[1..])
    requires forall i :: 0 <= i < |cs[1..]| ==> DataOf(r, id, cs[1..][i].staticId) == Some(cs[1..][i].data)
    requires forall cid :: cid !in Ids(cs[1..]) ==> DataOf(r, id, cid) == DataOf(w1, id, cid)
    ensures r.entities[id].components.Keys == held + Ids(cs)
    ensures forall i :: 0 <= i < |cs| ==> DataOf(r, id, cs[i].staticId) == Some(cs[i].data)
    ensures forall cid :: cid !in Ids(cs) ==> DataOf(r, id, cid) == DataOf(w, id, cid)
  {
    forall i | 0 <= i < |cs| ensures DataOf(r, id, cs[i].staticId) == Some(cs[i].data) {
      if i > 0 { assert cs[1..][i - 1] == cs[i]; }
    }
  }

  /** Attaching a non-empty list is attaching its head, then its tail. */
  lemma AddAllStep(w: World.World, id: nat, cs: seq<Component>)
    requires |cs| > 0
    ensures AddAll(w, id, cs) == AddAll(Add(w, id, cs[0]), id, cs[1..])
  {
  }

  /**
   The common shape of a factory: a new entity from the id counter with the tag, put at
   the local position, holding the components of a fitting list with their fields and
   nothing else; every other entity, and every other Transform, is left as it was.
   */
  function Build(w: World.World, tag: string, x: real, y: real, cs: seq<Component>): (r: (World.World, nat))
    ensures r.1 == w.counter + 1 && r.0.counter == r.1 && r.1 in r.0.entities
    ensures r.0.order == w.order + [r.1] && r.0.entities.Keys == w.entities.Keys + {r.1}
    ensures r.0.entities[r.1].tag == tag && r.0.entities[r.1].active && !r.0.entities[r.1].destroyed
    ensures r.0.entities[r.1].hasWorld
    ensures LocalPos(r.0, r.1) == Some(Transform.Point(x, y)) && r.0.transforms[r.1].parent.None?
    ensures r.0.transforms.Keys == w.transforms.Keys + {r.1}
    ensures forall k :: k in w.transforms && k != r.1 ==> r.0.transforms[k] == w.transforms[k]
    ensures forall k :: k in w.entities && k != r.1 ==> r.0.entities[k] == w.entities[k]
    ensures forall k, cid :: k != r.1 ==> DataOf(r.0, k, cid) == DataOf(w, k, cid)
    ensures r.0.queue == w.queue && r.0.systems == w.systems && r.0.bus == w.bus
    ensures Fits({TransformId}, cs) ==>
      r.0.entities[r.1].components.Keys == {TransformId} + Ids(cs) &&
      forall i :: 0 <= i < |cs| ==> DataOf(r.0, r.1, cs[i].staticId) == Some(cs[i].data)
  {
    var (w2, id) := Fresh(w, tag, x, y);
    var r := AddAll(w2, id, cs);
    if Fits({TransformId}, cs) then
      AddAllData(w2, id, cs, {TransformId});
      (r, id)
    else (r, id)
  }

  /** A new entity from the id counter with the tag, at the local position, holding only its Transform. */
  function Fresh(w: World.World, tag: string, x: real, y: real): (r: (World.World, nat))
    ensures r.1 == w.counter + 1 && r.0.counter == r.1 && r.1 in r.0.entities
    ensures r.0.order == w.order + [r.1] && r.0.entities.Keys == w.entities.Keys + {r.1}
    ensures r.0.entities[r.1].tag == tag && r.0.entities[r.1].active && !r.0.entities[r.1].destroyed
    ensures r.0.entities[r.1].hasWorld && r.0.entities[r.1].components.Keys == {TransformId}
    ensures LocalPos(r.0, r.1) == Some(Transform.Point(x, y)) && r.0.transforms[r.1].parent.None?
    ensures r.0.transforms.Keys == w.transforms.Keys + {r.1}
    ensures forall k :: k in w.transforms && k != r.1 ==> r.0.transforms[k] == w.transforms[k]
    ensures forall k :: k in w.entities && k != r.1 ==> r.0.entities[k] == w.entities[k]
    ensures forall k, cid :: k != r.1 ==> DataOf(r.0, k, cid) == DataOf(w, k, cid)
    ensures r.0.queue == w.queue && r.0.systems == w.systems && r.0.bus == w.bus
  {
    var (w1, id) := World.CreateEntity(w, Some(tag));
    (Place(w1, id, x, y), id)
  }

  /** One component of a fitting list, as the built entity holds it. */
  lemma BuildData(w: World.World, tag: string, x: real, y: real, cs: seq<Component>, i: nat)
    requires Fits({TransformId}, cs) && i < |cs|
    ensures var r := Build(w, tag, x, y, cs); DataOf(r.0, r.1, cs[i].staticId) == Some(cs[i].data)
  {
  }

  /** A component outside a fitting list is not held by the built entity, unless it is the Transform. */
  lemma BuildAbsent(w: World.World, tag: string, x: real, y: real, cs: seq<Component>, cid: string)
    requires Fits({TransformId}, cs) && cid !in Ids(cs) && cid != TransformId
    ensures var r := Build(w, tag, x, y, cs); DataOf(r.0, r.1, cid).None?
  {
    var r := Build(w, tag, x, y, cs);
    assert cid !in r.0.entities[r.1].components.Keys;
  }

  /**
   A freshly built entity is found at once: by its tag, and by a query for any of the
   components it was built with.
   */
  lemma BuildFound(w: World.World, tag: string, x: real, y: real, cs: seq<Component>, ids: World.QueryKey)
    requires Fits({TransformId}, cs)
    requires forall c :: c in ids ==> c in {TransformId} + Ids(cs)
    ensures var r := Build(w, tag, x, y, cs);
      r.1 in World.GetEntitiesByTag(r.0, tag) && r.1 in World.Matching(r.0, ids)
  {
    var r := Build(w, tag, x, y, cs);
    assert r.1 in r.0.order;
    World.GetEntitiesByTagMembers(r.0, tag);
    var p := id => id in r.0.entities && r.0.entities[id].active && !r.0.entities[id].destroyed &&
                   forall c :: c in ids ==> c in r.0.entities[id].components;
    FilterMembers(r.0.order, p);
    assert World.Matching(r.0, ids) == Filter(r.0.order, p);
  }

  // ---- BrickFactory ----

  const WallColor := "#555555"

  /** The components of a brick: a bordered 32 by 32 rectangle, a 32 by 32 box collider, the hit rule. */
  function BrickParts(destructible: bool, hp: int, color: string): seq<Component> {
    [Of(SpriteRendererId, SpriteData(NewSprite(Some(Rect), Some(32.0), Some(32.0), None, Some(color), Some("#333333"), Some(1.0), None))),
     Of(BoxColliderId, BoxData(NewBox(Some(32.0), Some(32.0), None, None))),
     Of(BrickComponentId, BrickData(NewBrick(Some(destructible), Some(hp))))]
  }

  lemma BrickFits(destructible: bool, hp: int, color: string)
    ensures Fits({TransformId}, BrickParts(destructible, hp, color))
    ensures Ids(BrickParts(destructible, hp, color)) == {SpriteRendererId, BoxColliderId, BrickComponentId}
  {
    var cs := BrickParts(destructible, hp, color);
    Ids3(cs[0], cs[1], cs[2]);
  }

  /**
   `createBrick`: destructible with 20 hit points unless told otherwise, tagged `brick`
   when destructible and `wall` when not, green or grey unless a colour is given, with a
   32 by 32 box collider and no rigid body: a static obstacle.
   */
  function CreateBrick(w: World.World, x: real, y: real, destructible: Option<bool>, hp: Option<int>,
                       color: Option<string>): (r: (World.World, nat))
    ensures r.1 in r.0.entities && r.0.entities.Keys == w.entities.Keys + {r.1}
    ensures var d := destructible.GetOr(true);
      r.0.entities[r.1].tag == (if d then "brick" else "wall") &&
      BrickOf(r.0, r.1) == Some(Brick(d, hp.GetOr(20), hp.GetOr(20))) &&
      SpriteOf(r.0, r.1).Some? &&
      SpriteOf(r.0, r.1).value.color == OrString(color, if d then BrickComponent.Green else WallColor)
    ensures BoxOf(r.0, r.1) == Some(BoxCollider(32.0, 32.0, 0.0, 0.0))
    ensures r.0.entities[r.1].components.Keys == {TransformId, SpriteRendererId, BoxColliderId, BrickComponentId}
    ensures LocalPos(r.0, r.1) == Some(Transform.Point(x, y))
    ensures r.1 == w.counter + 1 && r.0.order == w.order + [r.1] && r.0.counter == r.1
    ensures forall k :: k in w.entities && k != r.1 ==> r.0.entities[k] == w.entities[k]
    ensures forall k :: k in w.transforms && k != r.1 ==> k in r.0.transforms && r.0.transforms[k] == w.transforms[k]
    ensures r.0.systems == w.systems
  {
    var d := destructible.GetOr(true);
    var c := OrString(color, if d then BrickComponent.Green else WallColor);
    BrickBuilt(w, if d then "brick" else "wall", x, y, d, hp.GetOr(20), c);
    BrickKeys(w, if d then "brick" else "wall", x, y, d, hp.GetOr(20), c);
    Build(w, if d then "brick" else "wall", x, y, BrickParts(d, hp.GetOr(20), c))
  }

  /** The components a brick is built with. */
  lemma BrickBuilt(w: World.World, tag: string, x: real, y: real, destructible: bool, hp: int, color: string)
    requires color != ""
    ensures var r := Build(w, tag, x, y, BrickParts(destructible, hp, color));
      BrickOf(r.0, r.1) == Some(Brick(destructible, hp, hp)) &&
      SpriteOf(r.0, r.1).Some? && SpriteOf(r.0, r.1).value.color == color &&
      BoxOf(r.0, r.1) == Some(BoxCollider(32.0, 32.0, 0.0, 0.0))
  {
    var cs := BrickParts(destructible, hp, color);
    BrickFits(destructible, hp, color);
    BuildData(w, tag, x, y, cs, 0);
    BuildData(w, tag, x, y, cs, 1);
    BuildData(w, tag, x, y, cs, 2);
  }

  /** A brick holds its Transform and its three parts. */
  lemma BrickKeys(w: World.World, tag: string, x: real, y: real, destructible: bool, hp: int, color: string)
    ensures var r := Build(w, tag, x, y, BrickParts(destructible, hp, color));
      r.1 in r.0.entities &&
      r.0.entities[r.1].components.Keys == {TransformId, SpriteRendererId, BoxColliderId, BrickComponentId}
  {
    BrickFits(destructible, hp, color);
  }

  /** A new brick is found by its tag and by a query for box colliders with a brick component. */
  lemma BrickFound(w: World.World, x: real, y: real, destructible: Option<bool>, hp: Option<int>, color: Option<string>)
    ensures var r := CreateBrick(w, x, y, destructible, hp, color);
      r.1 in World.GetEntitiesByTag(r.0, if destructible.GetOr(true) then "brick" else "wall") &&
      r.1 in World.Matching(r.0, multiset{BoxColliderId, BrickComponentId})
  {
    var d := destructible.GetOr(true);
    var c := OrString(color, if d then BrickComponent.Green else WallColor);
    BrickFits(d, hp.GetOr(20), c);
    BuildFound(w, if d then "brick" else "wall", x, y, BrickParts(d, hp.GetOr(20), c),
               multiset{BoxColliderId, BrickComponentId});
  }

  /** The components of a ball: the velocity for the chosen direction, a white radius-5 circle, a radius-5 collider. */
  function BallParts(vx: real, vy: real): seq<Component> {
    [Of(RigidBodyId, BodyData(NewBody(Some(vx), Some(vy), Some(1.0)))),
     Of(SpriteRendererId, SpriteData(NewSprite(Some(Circle), None, None, Some(5.0), Some("#ffffff"), None, None, None))),
     Of(CircleColliderId, CircleData(NewCircle(Some(5.0), None, None)))]
  }

  lemma BallFits(vx: real, vy: real)
    ensures Fits({TransformId}, BallParts(vx, vy))
    ensures Ids(BallParts(vx, vy)) == {RigidBodyId, SpriteRendererId, CircleColliderId}
  {
    var cs := BallParts(vx, vy);
    Ids3(cs[0], cs[1], cs[2]);
  }

  /** JavaScript's `speed || 200`: a missing or zero speed falls back. */
  function BallSpeed(speed: Option<real>): (s: real)
    ensures speed.Some? && speed.value != 0.0 ==> s == speed.value
    ensures speed.None? || speed.value == 0.0 ==> s == 200.0
  {
    if speed.Some? && speed.value != 0.0 then speed.value else 200.0
  }

  /**
   `createBall`: tagged `ball`, a perfectly bouncing rigid body moving at the speed
   (200 unless given) in the chosen direction, a radius-5 circle collider. The direction
   comes as its cosine and sine, since the random angle is not modelled.
   */
  function CreateBall(w: World.World, x: real, y: real, speed: Option<real>, cos: real, sin: real): (r: (World.World, nat))
    ensures r.1 in r.0.entities && r.0.entities.Keys == w.entities.Keys + {r.1}
    ensures r.0.entities[r.1].tag == "ball"
    ensures BodyOf(r.0, r.1) == Some(RigidBody(cos * BallSpeed(speed), sin * BallSpeed(speed), 1.0))
    ensures CircleOf(r.0, r.1) == Some(CircleCollider(5.0, 0.0, 0.0))
    ensures DataOf(r.0, r.1, BoxColliderId).None?
    ensures LocalPos(r.0, r.1) == Some(Transform.Point(x, y))
    ensures r.1 == w.counter + 1 && r.0.order == w.order + [r.1] && r.0.counter == r.1
    ensures Untouched(w, r.0, r.1) && r.0.systems == w.systems
  {
    BallBuilt(w, x, y, cos * BallSpeed(speed), sin * BallSpeed(speed));
    Build(w, "ball", x, y, BallParts(cos * BallSpeed(speed), sin * BallSpeed(speed)))
  }

  /** The components a ball is built with. */
  lemma BallBuilt(w: World.World, x: real, y: real, vx: real, vy: real)
    ensures var r := Build(w, "ball", x, y, BallParts(vx, vy));
      BodyOf(r.0, r.1) == Some(RigidBody(vx, vy, 1.0)) &&
      CircleOf(r.0, r.1) == Some(CircleCollider(5.0, 0.0, 0.0)) &&
      DataOf(r.0, r.1, BoxColliderId).None?
  {
    BallBody(w, x, y, vx, vy);
    BallCircle(w, x, y, vx, vy);
    BallNoBox(w, x, y, vx, vy);
  }

  lemma BallBody(w: World.World, x: real, y: real, vx: real, vy: real)
    ensures var r := Build(w, "ball", x, y, BallParts(vx, vy)); BodyOf(r.0, r.1) == Some(RigidBody(vx, vy, 1.0))
  {
    BallFits(vx, vy);
    BuildData(w, "ball", x, y, BallParts(vx, vy), 0);
  }

  lemma BallCircle(w: World.World, x: real, y: real, vx: real, vy: real)
    ensures var r := Build(w, "ball", x, y, BallParts(vx, vy)); CircleOf(r.0, r.1) == Some(CircleCollider(5.0, 0.0, 0.0))
  {
    BallFits(vx, vy);
    BuildData(w, "ball", x, y, BallParts(vx, vy), 2);
  }

  lemma BallNoBox(w: World.World, x: real, y: real, vx: real, vy: real)
    ensures var r := Build(w, "ball", x, y, BallParts(vx, vy)); DataOf(r.0, r.1, BoxColliderId).None?
  {
    BallFits(vx, vy);
    BuildAbsent(w, "ball", x, y, BallParts(vx, vy), BoxColliderId);
  }

  /** A unit direction scaled by the speed has the speed squared as its squared length. */
  lemma UnitScale(cos: real, sin: real, speed: real)
    ensures cos * cos + sin * sin == 1.0 ==> SqLen(cos * speed, sin * speed) == speed * speed
  {
    var b := SetVelocityFromAngle(NewBody(None, None, None), cos, sin, speed);
    assert b.vx == cos * speed && b.vy == sin * speed;
  }

  /** A ball built with a unit direction scaled by `speed` has a velocity of squared length `speed * speed`. */
  lemma BallVelocity(w: World.World, x: real, y: real, speed: real, cos: real, sin: real)
    ensures var r := Build(w, "ball", x, y, BallParts(cos * speed, sin * speed));
      BodyOf(r.0, r.1).Some? &&
      (cos * cos + sin * sin == 1.0 ==> SqLen(BodyOf(r.0, r.1).value.vx, BodyOf(r.0, r.1).value.vy) == speed * speed)
  {
    BallBuilt(w, x, y, cos * speed, sin * speed);
    UnitScale(cos, sin, speed);
  }

  /**
   `createBall` with a unit direction: the ball moves at the requested speed, or at 200
   when none (or zero) is given; its velocity's squared length is that speed squared.
   */
  lemma BallSpeedLaw(w: World.World, x: real, y: real, speed: Option<real>, cos: real, sin: real)
    ensures var r := CreateBall(w, x, y, speed, cos, sin);
      BodyOf(r.0, r.1).Some? &&
      (cos * cos + sin * sin == 1.0 ==>
        SqLen(BodyOf(r.0, r.1).value.vx, BodyOf(r.0, r.1).value.vy) == BallSpeed(speed) * BallSpeed(speed))
  {
    CreateBallBuilds(w, x, y, speed, cos, sin);
    BallVelocity(w, x, y, BallSpeed(speed), cos, sin);
  }

  lemma CreateBallBuilds(w: World.World, x: real, y: real, speed: Option<real>, cos: real, sin: real)
    ensures CreateBall(w, x, y, speed, cos, sin)
      == Build(w, "ball", x, y, BallParts(cos * BallSpeed(speed), sin * BallSpeed(speed)))
  {
  }

  // ---- MonsterFactory ----

  function MonsterParts(typeId: string, t: MonsterDefs.MonsterType, pathOffset: nat): seq<Component> {
    [Of(SpriteRendererId, SpriteData(NewSprite(Some(Circle), None, None, Some(t.radius), Some(t.color), Some("#000000"), Some(1.0), None))),
     Of(MonsterComponentId, MonsterData(NewMonster(typeId, t.hp, t.speed, t.attack, pathOffset)))]
  }

  /**
   `createMonster`: nothing for an unknown type; otherwise a `monster` at the origin
   drawn as a circle of the type's radius, running the type's hit points, speed and
   attack on the given lane.
   */
  function CreateMonster(w: World.World, typeId: string, pathOffset: nat): (r: (World.World, Option<nat>))
    ensures MonsterDefs.GetMonsterType(typeId).None? ==> r == (w, None)
    ensures MonsterDefs.GetMonsterType(typeId).Some? ==>
      var t := MonsterDefs.GetMonsterType(typeId).value;
      r.1 == Some(w.counter + 1) && r.0.entities.Keys == w.entities.Keys + {r.1.value} && r.0.entities[r.1.value].tag == "monster" &&
      LocalPos(r.0, r.1.value) == Some(Transform.Point(0.0, 0.0)) &&
      MonsterOf(r.0, r.1.value) == Some(NewMonster(typeId, t.hp, t.speed, t.attack, pathOffset)) &&
      SpriteOf(r.0, r.1.value).Some? && SpriteOf(r.0, r.1.value).value.shape == Circle &&
      SpriteOf(r.0, r.1.value).value.radius == t.radius &&
      r.0.order == w.order + [r.1.value] && r.0.counter == r.1.value &&
      r.0.entities[r.1.value].active && !r.0.entities[r.1.value].destroyed &&
      (forall k :: k in w.entities && k != r.1.value ==> r.0.entities[k] == w.entities[k])
    ensures forall k, cid :: (r.1.None? || k != r.1.value) ==> DataOf(r.0, k, cid) == DataOf(w, k, cid)
    ensures forall k :: k in w.transforms && (r.1.None? || k != r.1.value) ==>
      k in r.0.transforms && r.0.transforms[k] == w.transforms[k]
    ensures r.1.Some? ==> r.0.transforms.Keys == w.transforms.Keys + {r.1.value}
    ensures r.0.queue == w.queue && r.0.systems == w.systems && r.0.bus == w.bus
  {
    var t := MonsterDefs.GetMonsterType(typeId);
    if t.None? then (w, None)
    else
      var cs := MonsterParts(typeId, t.value, pathOffset);
      assert Fits({TransformId}, cs) by {
        IdsCons(cs[1], []); IdsCons(cs[0], [cs[1]]);
      assert cs == [cs[0]] + [cs[1]] && [cs[1]] == [cs[1]] + [];
      assert Ids(cs) == {SpriteRendererId, MonsterComponentId};
      }
      var r := Build(w, "monster", 0.0, 0.0, cs);
      assert DataOf(r.0, r.1, cs[0].staticId) == Some(cs[0].data);
      assert DataOf(r.0, r.1, cs[1].staticId) == Some(cs[1].data);
      (r.0, Some(r.1))
  }

  // ---- BulletFactory ----

  function BulletParts(damage: int): seq<Component> {
    [Of(SpriteRendererId, SpriteData(NewSprite(Some(Circle), None, None, Some(3.0), Some("#ffff00"), Some("#ff8800"), Some(1.0), None))),
     Of(BulletComponentId, BulletData(NewBullet(damage, Some(300.0))))]
  }

  /** `createBullet`: a `bullet` at the point carrying the damage, flying at 300 pixels per second. */
  function CreateBullet(w: World.World, x: real, y: real, damage: int): (r: (World.World, nat))
    ensures r.1 in r.0.entities && r.0.entities.Keys == w.entities.Keys + {r.1}
    ensures r.0.entities[r.1].tag == "bullet"
    ensures BulletOf(r.0, r.1) == Some(Bullet(damage, 300.0, 0.0))
    ensures LocalPos(r.0, r.1) == Some(Transform.Point(x, y))
    ensures r.1 == w.counter + 1 && r.0.order == w.order + [r.1] && r.0.counter == r.1
    ensures r.0.entities[r.1].active && !r.0.entities[r.1].destroyed
    ensures forall k :: k in w.entities && k != r.1 ==> r.0.entities[k] == w.entities[k]
    ensures forall k, cid :: k != r.1 ==> DataOf(r.0, k, cid) == DataOf(w, k, cid)
    ensures forall k :: k in w.transforms && k != r.1 ==> k in r.0.transforms && r.0.transforms[k] == w.transforms[k]
    ensures r.0.transforms.Keys == w.transforms.Keys + {r.1}
    ensures r.0.queue == w.queue && r.0.systems == w.systems && r.0.bus == w.bus
  {
    var cs := BulletParts(damage);
    assert Fits({TransformId}, cs) by {
      IdsCons(cs[1], []); IdsCons(cs[0], [cs[1]]);
      assert cs == [cs[0]] + [cs[1]] && [cs[1]] == [cs[1]] + [];
      assert Ids(cs) == {SpriteRendererId, BulletComponentId};
    }
    var r := Build(w, "bullet", x, y, cs);
    assert DataOf(r.0, r.1, cs[1].staticId) == Some(cs[1].data);
    r
  }
}
