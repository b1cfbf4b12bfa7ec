/**
 An entity: the component container. Each operation returns the new entity together
 with what the source does to the world afterwards (mark the query cache dirty,
 schedule the teardown), which the World module applies.
 */
module Entity {
  import opened Wrappers
  import opened Seqs
  import opened Components
  import Render

  /**
   `components` maps static IDs to components; `updatables` lists, in insertion order,
   the IDs of the components that override `OnUpdate`; `hasWorld` is whether `world`
   is still set.
   */
  datatype Entity = Entity(
    id: nat, tag: string, active: bool, hasWorld: bool,
    components: map<string, Component>, updatables: seq<string>, destroyed: bool)

  /** The constructor (the id comes from the counter): active, empty, not destroyed. */
  function New(id: nat, tag: Option<string>): (e: Entity)
    ensures e.id == id && e.active && e.hasWorld && !e.destroyed
    ensures e.components == map[] && e.updatables == []
    ensures tag.None? ==> e.tag == ""
  {
    Entity(id, Render.OrString(tag, ""), true, true, map[], [], false)
  }

  /** The entity's own invariant. */
  ghost predicate Valid(e: Entity) {
    NoDup(e.updatables) &&
    (forall k :: k in e.updatables ==> k in e.components && e.components[k].hasUpdate) &&
    (forall k :: k in e.components ==>
       e.components[k].staticId == k && e.components[k].entity == Some(e.id) &&
       (e.components[k].hasUpdate ==> k in e.updatables)) &&
    !(SpriteRendererId in e.components && TextureRendererId in e.components)
  }

  /** The outcome of `AddComponent`: the entity, the returned component, and whether it was attached. */
  datatype AddResult = AddResult(entity: Entity, returned: Component, added: bool)

  /** The two renderers exclude each other. */
  predicate RendererClash(e: Entity, id: string) {
    (id == SpriteRendererId && TextureRendererId in e.components) ||
    (id == TextureRendererId && SpriteRendererId in e.components)
  }

  /**
   `AddComponent`: refused without a static ID (the component is returned as is), for
   an ID already present (the existing component is returned) and for the second
   renderer; otherwise the component is attached, stored under its ID, listed as
   updatable when it overrides `OnUpdate`, and initialised.
   */
  function AddComponent(e: Entity, c: Component): (r: AddResult)
    ensures c.staticId == "" ==> r == AddResult(e, c, false)
    ensures c.staticId != "" && c.staticId in e.components ==> r == AddResult(e, e.components[c.staticId], false)
    ensures c.staticId != "" && c.staticId !in e.components && RendererClash(e, c.staticId) ==>
      r == AddResult(e, c, false)
    ensures r.added <==> c.staticId != "" && c.staticId !in e.components && !RendererClash(e, c.staticId)
    ensures r.added ==>
      r.entity.components == e.components[c.staticId := r.returned] &&
      r.returned.entity == Some(e.id) && r.returned.initialized &&
      r.returned.data == c.data && r.returned.staticId == c.staticId &&
      r.entity.updatables == (if c.overridesUpdate then e.updatables + [c.staticId] else e.updatables) &&
      r.entity.(components := e.components, updatables := e.updatables) == e
  {
    var id := c.staticId;
    if id == "" then AddResult(e, c, false)
    else if id in e.components then AddResult(e, e.components[id], false)
    else if RendererClash(e, id) then AddResult(e, c, false)
    else
      var c' := c.(entity := Some(e.id), initialized := true,
                   hasUpdate := if c.overridesUpdate then true else c.hasUpdate);
      AddResult(e.(components := e.components[id := c'],
                   updatables := if c.overridesUpdate then e.updatables + [id] else e.updatables),
                c', true)
  }

  /** The outcome of `RemoveComponent`: the entity and the detached component, if any. */
  datatype RemoveResult = RemoveResult(entity: Entity, detached: Option<Component>)

  /**
   `RemoveComponent`: nothing for an absent ID or for the Transform; otherwise the
   component is detached, deinitialised and dropped from the map and from the
   updatable list.
   */
  function RemoveComponent(e: Entity, id: string): (r: RemoveResult)
    ensures id !in e.components || id == TransformId ==> r == RemoveResult(e, None)
    ensures id in e.components && id != TransformId ==>
      r.entity.components == e.components - {id} &&
      r.detached == Some(e.components[id].(entity := None, initialized := false)) &&
      r.entity.updatables == (if e.components[id].hasUpdate then RemoveFirst(e.updatables, id) else e.updatables) &&
      r.entity.(components := e.components, updatables := e.updatables) == e
  {
    if id !in e.components || id == TransformId then RemoveResult(e, None)
    else
      var c := e.components[id];
      RemoveResult(e.(components := e.components - {id},
                      updatables := if c.hasUpdate then RemoveFirst(e.updatables, id) else e.updatables),
                   Some(c.(entity := None, initialized := false)))
  }

  function GetComponent(e: Entity, id: string): (c: Option<Component>)
    ensures c.Some? <==> id in e.components
    ensures c.Some? ==> c.value == e.components[id]
  {
    if id in e.components then Some(e.components[id]) else None
  }

  predicate HasComponent(e: Entity, id: string) {
    id in e.components
  }

  /** `SetActive`: the new entity and whether the flag changed (which dirties the cache). */
  function SetActive(e: Entity, active: bool): (r: (Entity, bool))
    ensures r.0 == e.(active := active)
    ensures r.1 <==> e.active != active
  {
    if e.active != active then (e.(active := active), true) else (e, false)
  }

  /** `Destroy`: the new entity and whether a teardown must be scheduled with the world. */
  function Destroy(e: Entity): (r: (Entity, bool))
    ensures r.0 == e.(destroyed := true)
    ensures r.1 <==> !e.destroyed && e.hasWorld
  {
    if !e.destroyed then (e.(destroyed := true), e.hasWorld) else (e, false)
  }

  /** `Destroy` is idempotent: a second call changes nothing and schedules nothing. */
  lemma DestroyIdempotent(e: Entity)
    ensures Destroy(Destroy(e).0) == (Destroy(e).0, false)
  {
  }

  /**
   Adding and removing components keeps the entity's invariant: updatable IDs are
   listed once, and the two renderers never sit on one entity.
   */
  lemma AddComponentValid(e: Entity, c: Component)
    requires Valid(e)
    requires c.staticId != "" ==> (c.hasUpdate ==> c.overridesUpdate)
    ensures Valid(AddComponent(e, c).entity)
  {
    var r := AddComponent(e, c);
    if r.added {
      if c.overridesUpdate {
        NoDupAppend(e.updatables, c.staticId);
      }
    }
  }

  lemma RemoveComponentValid(e: Entity, id: string)
    requires Valid(e)
    ensures Valid(RemoveComponent(e, id).entity)
  {
    if id in e.components && id != TransformId && e.components[id].hasUpdate {
      RemoveFirstNoDup(e.updatables, id);
    }
  }

  /** Removing a component that was just added restores the entity. */
  lemma RemoveUndoesAdd(e: Entity, c: Component)
    requires Valid(e) && c.staticId != TransformId && (c.hasUpdate ==> c.overridesUpdate)
    requires AddComponent(e, c).added
    ensures RemoveComponent(AddComponent(e, c).entity, c.staticId).entity == e
  {
    var id := c.staticId;
    var e1 := AddComponent(e, c).entity;
    if c.overridesUpdate {
      assert id !in e.updatables;
      RemoveFirstAppended(e.updatables, id);
    }
    var e2 := RemoveComponent(e1, id).entity;
    assert e2.components == e.components;
  }
}
