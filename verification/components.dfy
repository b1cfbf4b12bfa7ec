/**
 The component base: a component is its class's static ID, whether that class
 overrides `OnUpdate`, the class's own fields (`data`), and the three fields of the base
 class. A Transform's fields live in the world's hierarchy, so its data is only a mark.
 */
module Components {
  import opened Wrappers
  import opened Colliders
  import opened Render
  import opened BrickComponent
  import opened MonsterComponent
  import opened BaseComponent
  import opened BulletComponent
  import opened CharacterComponent
  import EventBus

  const TransformId := "Transform"
  const BoxColliderId := "BoxCollider"
  const CircleColliderId := "CircleCollider"
  const RigidBodyId := "RigidBody"
  const SpriteRendererId := "SpriteRenderer"
  const TextureRendererId := "TextureRenderer"
  const TouchHandlerId := "TouchHandler"
  const BrickComponentId := "BrickComponent"
  const MonsterComponentId := "MonsterComponent"
  const BaseComponentId := "BaseComponent"
  const BulletComponentId := "BulletComponent"
  const CharacterComponentId := "CharacterComponent"
  const CharacterBrickComponentId := "CharacterBrickComponent"

  datatype Data =
    | TransformMark
    | BoxData(box: BoxCollider)
    | CircleData(circle: CircleCollider)
    | BodyData(body: RigidBody)
    | SpriteData(sprite: SpriteRenderer)
    | TextureData(texture: TextureRenderer)
    | TouchData(touch: TouchHandler)
    | BrickData(brick: Brick)
    | MonsterData(monster: Monster)
    | BaseData(base: Base)
    | BulletData(bullet: Bullet)
    | CharacterData(character: Character)
    | CharacterBrickData(characterBrick: CharacterBrick)
    | OtherData

  /**
   `staticId` is `constructor.ID` (empty when the class defines none);
   `overridesUpdate` says whether the class's `OnUpdate` differs from the base no-op.
   `entity` is the owner's id, `initialized` and `hasUpdate` the base class's flags.
   */
  datatype Component = Component(
    staticId: string, overridesUpdate: bool, data: Data,
    entity: Option<nat>, initialized: bool, hasUpdate: bool)

  /** The base constructor: detached, not initialised, not (yet) listed as updatable. */
  function New(staticId: string, overridesUpdate: bool, data: Data): (c: Component)
    ensures c.entity.None? && !c.initialized && !c.hasUpdate
    ensures c.staticId == staticId && c.overridesUpdate == overridesUpdate && c.data == data
  {
    Component(staticId, overridesUpdate, data, None, false, false)
  }

  /** A framework or game component: none of these classes overrides `OnUpdate`. */
  function Of(staticId: string, data: Data): (c: Component)
    ensures c == New(staticId, false, data)
  {
    New(staticId, false, data)
  }

  /**
   The `world` accessor: a component reaches a world only through its owner, so a
   detached component has none. `ownerWorld` is whether the owner still has its world.
   */
  predicate HasWorld(c: Component, ownerWorld: bool) {
    c.entity.Some? && ownerWorld
  }

  /** `Emit` through the component: the listeners to call, none when there is no world. */
  function Emit(c: Component, ownerWorld: bool, bus: EventBus.Bus, event: string): (r: seq<EventBus.Listener>)
    ensures !HasWorld(c, ownerWorld) ==> r == []
    ensures HasWorld(c, ownerWorld) ==> r == EventBus.Emit(bus, event)
  {
    if HasWorld(c, ownerWorld) then EventBus.Emit(bus, event) else []
  }

  /** `On` through the component: registers on the world's bus, or does nothing. */
  function On(c: Component, ownerWorld: bool, bus: EventBus.Bus, event: string, callback: nat,
              context: Option<nat>): (r: EventBus.Bus)
    ensures !HasWorld(c, ownerWorld) ==> r == bus
    ensures HasWorld(c, ownerWorld) ==>
      EventBus.Listeners(r, event) == EventBus.Listeners(bus, event) + [EventBus.Listener(callback, context)]
    ensures forall k :: k != event ==> EventBus.Listeners(r, k) == EventBus.Listeners(bus, k)
  {
    if HasWorld(c, ownerWorld) then EventBus.On(bus, event, callback, context) else bus
  }

  /** `Off` through the component: unregisters on the world's bus, or does nothing. */
  function Off(c: Component, ownerWorld: bool, bus: EventBus.Bus, event: string, callback: nat,
               context: Option<nat>): (r: EventBus.Bus)
    ensures !HasWorld(c, ownerWorld) ==> r == bus
    ensures HasWorld(c, ownerWorld) ==>
      EventBus.Listeners(r, event) == EventBus.Without(EventBus.Listeners(bus, event), callback, context)
    ensures HasWorld(c, ownerWorld) ==>
      forall l :: l in EventBus.Listeners(r, event) <==>
        l in EventBus.Listeners(bus, event) && !EventBus.Matches(l, callback, context)
    ensures forall k :: k != event ==> EventBus.Listeners(r, k) == EventBus.Listeners(bus, k)
  {
    if HasWorld(c, ownerWorld) then EventBus.Off(bus, event, callback, context) else bus
  }

  /**
   A detached component's `On` and `Off` leave the bus as it was; an attached one's
   `Off` undoes its `On` of a new listener.
   */
  lemma ComponentOffUndoesOn(c: Component, ownerWorld: bool, bus: EventBus.Bus, event: string,
                             callback: nat, context: Option<nat>)
    requires EventBus.Valid(bus)
    requires forall l :: l in EventBus.Listeners(bus, event) ==> !EventBus.Matches(l, callback, context)
    ensures Off(c, ownerWorld, On(c, ownerWorld, bus, event, callback, context), event, callback, context) == bus
  {
    if HasWorld(c, ownerWorld) {
      EventBus.OffUndoesOn(bus, event, callback, context);
    }
  }
}
