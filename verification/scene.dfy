/**
 What the game code does to a world through the handles it holds: set an entity's
 local position, attach components, read and rewrite a component's fields, and look up
 the game components by type.
 */
module Scene {
  import opened Wrappers
  import opened Components
  import opened Colliders
  import opened Render
  import opened BrickComponent
  import opened MonsterComponent
  import opened BaseComponent
  import opened BulletComponent
  import opened CharacterComponent
  import Transform
  import Entity
  import World
  import WorldDestroy

  /** The fields of the entity's component `cid`, if it holds one. */
  function DataOf(w: World.World, id: nat, cid: string): (d: Option<Data>)
    ensures d.Some? <==> World.ComponentOf(w, id, cid).Some?
    ensures d.Some? ==> d.value == World.ComponentOf(w, id, cid).value.data
  {
    var c := World.ComponentOf(w, id, cid);
    if c.Some? then Some(c.value.data) else None
  }

  /** The entity's local position (`transform.x`, `transform.y`). */
  function LocalPos(w: World.World, id: nat): (p: Option<Transform.Point>)
    ensures p.Some? <==> id in w.transforms
    ensures p.Some? ==> p.value.x == w.transforms[id].x && p.value.y == w.transforms[id].y
  {
    if id in w.transforms then Some(Transform.Point(w.transforms[id].x, w.transforms[id].y)) else None
  }

  /** The registry, the hierarchy links and the bookkeeping are the same, whatever the positions and component fields. */
  predicate SameShape(w: World.World, r: World.World) {
    r.entities.Keys == w.entities.Keys && r.order == w.order && r.transforms.Keys == w.transforms.Keys &&
    r.counter == w.counter && r.queue == w.queue && r.systems == w.systems && r.bus == w.bus &&
    (forall k :: k in w.entities ==>
       r.entities[k].tag == w.entities[k].tag && r.entities[k].active == w.entities[k].active &&
       r.entities[k].destroyed == w.entities[k].destroyed && r.entities[k].hasWorld == w.entities[k].hasWorld &&
       r.entities[k].components.Keys == w.entities[k].components.Keys) &&
    (forall k :: k in w.transforms ==>
       r.transforms[k].parent == w.transforms[k].parent && r.transforms[k].children == w.transforms[k].children)
  }

  /** Every entity and every Transform other than `id`'s is as it was. */
  predicate Untouched(w: World.World, r: World.World, id: nat) {
    (forall k :: k in w.entities && k != id ==> k in r.entities && r.entities[k] == w.entities[k]) &&
    (forall k :: k in w.transforms && k != id ==> k in r.transforms && r.transforms[k] == w.transforms[k])
  }

  /** Setting `transform.x` and `transform.y`: nothing else changes, and nothing once the Transform is gone. */
  function Place(w: World.World, id: nat, x: real, y: real): (r: World.World)
    ensures id in w.transforms ==> r == w.(transforms := w.transforms[id := w.transforms[id].(x := x, y := y)])
    ensures id !in w.transforms ==> r == w
    ensures LocalPos(r, id) == if id in w.transforms then Some(Transform.Point(x, y)) else None
    ensures forall k :: k != id ==> LocalPos(r, k) == LocalPos(w, k)
    ensures SameShape(w, r) && r.entities == w.entities
  {
    if id in w.transforms then w.(transforms := w.transforms[id := w.transforms[id].(x := x, y := y)]) else w
  }

  /** The entity would accept the component: it has an ID not yet present and no renderer clash. */
  predicate Accepts(w: World.World, id: nat, c: Component) {
    id in w.entities && c.staticId != "" && c.staticId !in w.entities[id].components &&
    !Entity.RendererClash(w.entities[id], c.staticId)
  }

  /**
   `AddComponent` through an entity handle: an accepted component is stored with its
   fields; every other component of every entity, and the hierarchy, stay as they were.
   */
  function Add(w: World.World, id: nat, c: Component): (r: World.World)
    ensures Accepts(w, id, c) ==> DataOf(r, id, c.staticId) == Some(c.data)
    ensures !Accepts(w, id, c) ==> r == w
    ensures forall k, cid :: k != id || cid != c.staticId ==> DataOf(r, k, cid) == DataOf(w, k, cid)
    ensures Accepts(w, id, c) ==> r.entities[id].components.Keys == w.entities[id].components.Keys + {c.staticId}
    ensures r.entities.Keys == w.entities.Keys && r.order == w.order && r.transforms == w.transforms
    ensures r.counter == w.counter && r.queue == w.queue && r.systems == w.systems && r.bus == w.bus
    ensures forall k :: k in w.entities ==>
      r.entities[k].tag == w.entities[k].tag && r.entities[k].active == w.entities[k].active &&
      r.entities[k].destroyed == w.entities[k].destroyed && r.entities[k].hasWorld == w.entities[k].hasWorld
    ensures forall k :: k in w.entities && k != id ==> r.entities[k] == w.entities[k]
  {
    if id in w.entities then World.AddComponent(w, id, c).0 else w
  }

  /** Rewriting the fields of a component the entity holds; nothing when it holds none. */
  function SetData(w: World.World, id: nat, cid: string, d: Data): (r: World.World)
    ensures World.ComponentOf(w, id, cid).Some? ==> DataOf(r, id, cid) == Some(d)
    ensures World.ComponentOf(w, id, cid).None? ==> r == w
    ensures forall k, c :: k != id || c != cid ==> DataOf(r, k, c) == DataOf(w, k, c)
    ensures SameShape(w, r) && r.transforms == w.transforms && r.dirty == w.dirty && r.cache == w.cache
  {
    if World.ComponentOf(w, id, cid).None? then w
    else
      var e := w.entities[id];
      w.(entities := w.entities[id := e.(components := e.components[cid := e.components[cid].(data := d)])])
  }

  // ---- The game components, by type ----

  function BrickOf(w: World.World, id: nat): (b: Option<Brick>)
    ensures b.Some? ==> DataOf(w, id, BrickComponentId) == Some(BrickData(b.value))
    ensures b.Some? <==> DataOf(w, id, BrickComponentId).Some? && DataOf(w, id, BrickComponentId).value.BrickData?
  {
    var d := DataOf(w, id, BrickComponentId);
    if d.Some? && d.value.BrickData? then Some(d.value.brick) else None
  }

  function SpriteOf(w: World.World, id: nat): (s: Option<SpriteRenderer>)
    ensures s.Some? ==> DataOf(w, id, SpriteRendererId) == Some(SpriteData(s.value))
    ensures s.Some? <==> DataOf(w, id, SpriteRendererId).Some? && DataOf(w, id, SpriteRendererId).value.SpriteData?
  {
    var d := DataOf(w, id, SpriteRendererId);
    if d.Some? && d.value.SpriteData? then Some(d.value.sprite) else None
  }

  function MonsterOf(w: World.World, id: nat): (m: Option<Monster>)
    ensures m.Some? ==> DataOf(w, id, MonsterComponentId) == Some(MonsterData(m.value))
    ensures m.Some? <==> DataOf(w, id, MonsterComponentId).Some? && DataOf(w, id, MonsterComponentId).value.MonsterData?
  {
    var d := DataOf(w, id, MonsterComponentId);
    if d.Some? && d.value.MonsterData? then Some(d.value.monster) else None
  }

  function BaseOf(w: World.World, id: nat): (b: Option<Base>)
    ensures b.Some? ==> DataOf(w, id, BaseComponentId) == Some(BaseData(b.value))
    ensures b.Some? <==> DataOf(w, id, BaseComponentId).Some? && DataOf(w, id, BaseComponentId).value.BaseData?
  {
    var d := DataOf(w, id, BaseComponentId);
    if d.Some? && d.value.BaseData? then Some(d.value.base) else None
  }

  function BulletOf(w: World.World, id: nat): (b: Option<Bullet>)
    ensures b.Some? ==> DataOf(w, id, BulletComponentId) == Some(BulletData(b.value))
    ensures b.Some? <==> DataOf(w, id, BulletComponentId).Some? && DataOf(w, id, BulletComponentId).value.BulletData?
  {
    var d := DataOf(w, id, BulletComponentId);
    if d.Some? && d.value.BulletData? then Some(d.value.bullet) else None
  }

  function CharacterOf(w: World.World, id: nat): (c: Option<Character>)
    ensures c.Some? ==> DataOf(w, id, CharacterComponentId) == Some(CharacterData(c.value))
    ensures c.Some? <==> DataOf(w, id, CharacterComponentId).Some? && DataOf(w, id, CharacterComponentId).value.CharacterData?
  {
    var d := DataOf(w, id, CharacterComponentId);
    if d.Some? && d.value.CharacterData? then Some(d.value.character) else None
  }

  function CharacterBrickOf(w: World.World, id: nat): (c: Option<CharacterBrick>)
    ensures c.Some? ==> DataOf(w, id, CharacterBrickComponentId) == Some(CharacterBrickData(c.value))
    ensures c.Some? <==> DataOf(w, id, CharacterBrickComponentId).Some? && DataOf(w, id, CharacterBrickComponentId).value.CharacterBrickData?
  {
    var d := DataOf(w, id, CharacterBrickComponentId);
    if d.Some? && d.value.CharacterBrickData? then Some(d.value.characterBrick) else None
  }

  function CircleOf(w: World.World, id: nat): (c: Option<CircleCollider>)
    ensures c.Some? ==> DataOf(w, id, CircleColliderId) == Some(CircleData(c.value))
    ensures c.Some? <==> DataOf(w, id, CircleColliderId).Some? && DataOf(w, id, CircleColliderId).value.CircleData?
  {
    var d := DataOf(w, id, CircleColliderId);
    if d.Some? && d.value.CircleData? then Some(d.value.circle) else None
  }

  function BoxOf(w: World.World, id: nat): (b: Option<BoxCollider>)
    ensures b.Some? ==> DataOf(w, id, BoxColliderId) == Some(BoxData(b.value))
    ensures b.Some? <==> DataOf(w, id, BoxColliderId).Some? && DataOf(w, id, BoxColliderId).value.BoxData?
  {
    var d := DataOf(w, id, BoxColliderId);
    if d.Some? && d.value.BoxData? then Some(d.value.box) else None
  }

  function TextureOf(w: World.World, id: nat): (t: Option<TextureRenderer>)
    ensures t.Some? ==> DataOf(w, id, TextureRendererId) == Some(TextureData(t.value))
    ensures t.Some? <==> DataOf(w, id, TextureRendererId).Some? && DataOf(w, id, TextureRendererId).value.TextureData?
  {
    var d := DataOf(w, id, TextureRendererId);
    if d.Some? && d.value.TextureData? then Some(d.value.texture) else None
  }

  function TouchOf(w: World.World, id: nat): (t: Option<TouchHandler>)
    ensures t.Some? ==> DataOf(w, id, TouchHandlerId) == Some(TouchData(t.value))
    ensures t.Some? <==> DataOf(w, id, TouchHandlerId).Some? && DataOf(w, id, TouchHandlerId).value.TouchData?
  {
    var d := DataOf(w, id, TouchHandlerId);
    if d.Some? && d.value.TouchData? then Some(d.value.touch) else None
  }

  function BodyOf(w: World.World, id: nat): (b: Option<RigidBody>)
    ensures b.Some? ==> DataOf(w, id, RigidBodyId) == Some(BodyData(b.value))
    ensures b.Some? <==> DataOf(w, id, RigidBodyId).Some? && DataOf(w, id, RigidBodyId).value.BodyData?
  {
    var d := DataOf(w, id, RigidBodyId);
    if d.Some? && d.value.BodyData? then Some(d.value.body) else None
  }

  // ---- Bulk teardown ----

  /**
   `Destroy` on each listed entity in turn: every listed entity the world knows is
   marked for teardown, each queued once if it was not marked before; nothing else changes.
   */
  function DestroyAll(w: World.World, ids: seq<nat>): (r: World.World)
    ensures r.entities.Keys == w.entities.Keys
    ensures forall k :: k in w.entities ==>
      r.entities[k] == if k in ids then w.entities[k].(destroyed := true) else w.entities[k]
    ensures forall k :: k in r.queue <==>
      k in w.queue || (k in ids && k in w.entities && !w.entities[k].destroyed && w.entities[k].hasWorld)
    ensures r.order == w.order && r.transforms == w.transforms && r.counter == w.counter
    ensures r.systems == w.systems && r.bus == w.bus && r.dirty == w.dirty && r.cache == w.cache
    ensures forall k, cid :: DataOf(r, k, cid) == DataOf(w, k, cid)
  {
    WorldDestroy.DestroyAllQueue(w, ids);
    var r := WorldDestroy.DestroyAll(w, ids);
    assert forall k, cid :: World.ComponentOf(r, k, cid) == World.ComponentOf(w, k, cid);
    r
  }
}
