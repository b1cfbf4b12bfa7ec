/**
 The world: the registry of entities (by id and in creation order), the Transform
 hierarchy, the registered systems, the destroy queue, the query cache and its dirty
 flag, the entity-id counter and the event bus.
 */
module World {
  import opened Wrappers
  import opened Seqs
  import opened Components
  import Transform
  import Entity
  import EventBus

  /**
   A registered system: `handle` is the object's identity, `staticId` its class's
   `ID`, `query` its class's static `Query` (`None` for null), `entities` the list the
   world refreshes, `attached` whether `world` is set.
   */
  datatype System = System(handle: nat, staticId: string, query: Option<seq<string>>,
                           entities: seq<nat>, attached: bool)

  /** The constructor: no world and an empty entity list. */
  function NewSystem(handle: nat, staticId: string, query: Option<seq<string>>): (s: System)
    ensures !s.attached && s.entities == []
  {
    System(handle, staticId, query, [], false)
  }

  /** The cache is keyed by the requested IDs regardless of their order. */
  type QueryKey = multiset<string>

  datatype World = World(
    entities: map<nat, Entity.Entity>, order: seq<nat>, transforms: Transform.Hierarchy,
    systems: seq<System>, queue: seq<nat>, dirty: bool, cache: map<QueryKey, seq<nat>>,
    counter: nat, bus: EventBus.Bus)

  /** The constructor: nothing registered, the cache dirty. */
  function Empty(): (w: World)
    ensures w.entities == map[] && w.order == [] && w.systems == [] && w.queue == [] && w.dirty
  {
    World(map[], [], map[], [], [], true, map[], 0, EventBus.Empty())
  }

  /** `_markQueryDirty`. */
  function MarkDirty(w: World): (r: World)
    ensures r.dirty && r.cache == map[]
    ensures r.(dirty := w.dirty, cache := w.cache) == w
  {
    w.(dirty := true, cache := map[])
  }

  /** The Transform every entity is created with, already attached and initialised. */
  function CreatedTransform(id: nat): (c: Component)
    ensures c.staticId == TransformId && c.entity == Some(id) && c.initialized && !c.hasUpdate
  {
    Of(TransformId, TransformMark).(entity := Some(id), initialized := true)
  }

  /**
   `CreateEntity`: the next id from the counter; the entity is registered by id and at
   the end of the creation order, holds a default Transform, and the cache is cleared.
   */
  function CreateEntity(w: World, tag: Option<string>): (r: (World, nat))
    ensures r.1 == w.counter + 1 && r.0.counter == r.1
    ensures r.0.entities == w.entities[r.1 := Entity.New(r.1, tag).(components := map[TransformId := CreatedTransform(r.1)])]
    ensures r.0.order == w.order + [r.1]
    ensures r.0.transforms == w.transforms[r.1 := Transform.New(None, None, None, None, None)]
    ensures r.0.dirty && r.0.cache == map[]
    ensures r.0.systems == w.systems && r.0.queue == w.queue && r.0.bus == w.bus
  {
    var id := w.counter + 1;
    var e := Entity.New(id, tag).(components := map[TransformId := CreatedTransform(id)]);
    var w1 := w.(entities := w.entities[id := e], order := w.order + [id],
                 transforms := w.transforms[id := Transform.New(None, None, None, None, None)],
                 counter := id);
    (MarkDirty(w1), id)
  }

  /** `GetEntity`: null for an unknown id. */
  function GetEntity(w: World, id: nat): (r: Option<Entity.Entity>)
    ensures r.Some? <==> id in w.entities
    ensures r.Some? ==> r.value == w.entities[id]
  {
    if id in w.entities then Some(w.entities[id]) else None
  }

  /** An entity that queries and lookups by tag see: active and not awaiting teardown. */
  predicate Alive(w: World, id: nat) {
    id in w.entities && w.entities[id].active && !w.entities[id].destroyed
  }

  /** `GetEntitiesByTag`: the alive entities with that tag, in creation order. */
  function GetEntitiesByTag(w: World, tag: string): seq<nat> {
    Filter(w.order, id => Alive(w, id) && w.entities[id].tag == tag)
  }

  /** Membership of `GetEntitiesByTag`, in both directions. */
  lemma GetEntitiesByTagMembers(w: World, tag: string)
    ensures forall id :: id in GetEntitiesByTag(w, tag) <==>
      id in w.order && Alive(w, id) && w.entities[id].tag == tag
  {
    FilterMembers(w.order, id => Alive(w, id) && w.entities[id].tag == tag);
  }

  /**
   `DestroyEntity` by id, and the Destroy of an entity: the first request marks it and
   queues its teardown; a later one, or an unknown id, does nothing.
   */
  function DestroyEntity(w: World, id: nat): (r: World)
    ensures id !in w.entities || w.entities[id].destroyed ==> r == w
    ensures id in w.entities && !w.entities[id].destroyed ==>
      r == w.(entities := w.entities[id := w.entities[id].(destroyed := true)],
              queue := if w.entities[id].hasWorld then w.queue + [id] else w.queue)
  {
    if id !in w.entities then w
    else
      var d := Entity.Destroy(w.entities[id]);
      w.(entities := w.entities[id := d.0], queue := if d.1 then w.queue + [id] else w.queue)
  }

  /** `AddComponent` on the entity `id`: the component returned, and the cache cleared on success. */
  function AddComponent(w: World, id: nat, c: Component): (r: (World, Option<Component>))
    requires id in w.entities
    ensures var a := Entity.AddComponent(w.entities[id], c);
      r.1 == Some(a.returned) &&
      (a.added ==> r.0 == MarkDirty(w.(entities := w.entities[id := a.entity]))) &&
      (!a.added ==> r.0 == w)
  {
    var a := Entity.AddComponent(w.entities[id], c);
    if a.added then (MarkDirty(w.(entities := w.entities[id := a.entity])), Some(a.returned))
    else (w, Some(a.returned))
  }

  /** `RemoveComponent` on the entity `id`: the cache is cleared only when something was removed. */
  function RemoveComponent(w: World, id: nat, componentId: string): (r: World)
    requires id in w.entities
    ensures var d := Entity.RemoveComponent(w.entities[id], componentId);
      (d.detached.Some? ==> r == MarkDirty(w.(entities := w.entities[id := d.entity]))) &&
      (d.detached.None? ==> r == w)
  {
    var d := Entity.RemoveComponent(w.entities[id], componentId);
    if d.detached.Some? then MarkDirty(w.(entities := w.entities[id := d.entity])) else w
  }

  /** `SetActive` on the entity `id`: the cache is cleared only when the flag changes. */
  function SetActive(w: World, id: nat, active: bool): (r: World)
    requires id in w.entities
    ensures r.entities == w.entities[id := w.entities[id].(active := active)]
    ensures w.entities[id].active != active ==> r.dirty && r.cache == map[]
    ensures w.entities[id].active == active ==> r == w
  {
    var s := Entity.SetActive(w.entities[id], active);
    if s.1 then MarkDirty(w.(entities := w.entities[id := s.0])) else w
  }

  // ---- Hierarchy, delegated to the Transform ----

  /** `SetParent` on the entity `id` (a no-op once its Transform is gone). */
  function SetParent(w: World, id: nat, parent: Option<nat>): (r: World)
    ensures id !in w.transforms ==> r == w
    ensures id in w.transforms ==> r == w.(transforms := Transform.SetParent(w.transforms, id, parent))
  {
    if id in w.transforms then w.(transforms := Transform.SetParent(w.transforms, id, parent)) else w
  }

  function GetParent(w: World, id: nat): (r: Option<nat>)
    ensures id !in w.transforms ==> r.None?
    ensures id in w.transforms ==> r == w.transforms[id].parent
  {
    if id in w.transforms then w.transforms[id].parent else None
  }

  /** `AddChild` on the entity `id`. */
  function AddChild(w: World, id: nat, child: nat): (r: World)
    ensures id in w.transforms && child in w.transforms ==> GetParent(r, child) == Some(id)
    ensures id !in w.transforms || child !in w.transforms ==> r == w
  {
    if id in w.transforms then w.(transforms := Transform.AddChild(w.transforms, id, child)) else w
  }

  /** `RemoveChild` on the entity `id`: only its own child is let go, and only while it has a Transform. */
  function RemoveChild(w: World, id: nat, child: nat): (r: World)
    ensures r.entities == w.entities && r.queue == w.queue && r.transforms.Keys == w.transforms.Keys
    ensures r.order == w.order && r.systems == w.systems && r.counter == w.counter && r.dirty == w.dirty
    ensures r.cache == w.cache && r.bus == w.bus
    ensures id in w.transforms && child in w.transforms && w.transforms[child].parent == Some(id) ==>
      GetParent(r, child) == None
    ensures !(id in w.transforms && child in w.transforms && w.transforms[child].parent == Some(id)) ==> r == w
  {
    if id in w.transforms then w.(transforms := Transform.RemoveChild(w.transforms, id, child)) else w
  }

  /** `GetChildren`: a copy of the list, so the caller cannot alter the hierarchy through it. */
  function GetChildren(w: World, id: nat): (r: seq<nat>)
    ensures id !in w.transforms ==> r == []
    ensures id in w.transforms ==> r == w.transforms[id].children
  {
    if id in w.transforms then w.transforms[id].children else []
  }

  // ---- Systems ----

  /** `AddSystem`: attached and appended, so systems run in registration order. */
  function AddSystem(w: World, s: System): (r: World)
    ensures r.systems == w.systems + [s.(attached := true)]
    ensures r.(systems := w.systems) == w
  {
    w.(systems := w.systems + [s.(attached := true)])
  }

  /** The position of the first system with this handle (`indexOf`). */
  function IndexOfSystem(systems: seq<System>, handle: nat): (i: Option<nat>)
    ensures i.Some? ==> i.value < |systems| && systems[i.value].handle == handle &&
                        forall j :: 0 <= j < i.value ==> systems[j].handle != handle
    ensures i.None? ==> forall j :: 0 <= j < |systems| ==> systems[j].handle != handle
    decreases |systems|
  {
    if |systems| == 0 then None
    else if systems[0].handle == handle then Some(0)
    else
      var i := IndexOfSystem(systems[1..], handle);
      if i.Some? then Some(i.value + 1) else None
  }

  /**
   `RemoveSystem`: the first registration of that system leaves the list, and the
   detached system (no world, no entities) is returned; an unregistered system changes
   nothing.
   */
  function RemoveSystem(w: World, handle: nat): (r: (World, Option<System>))
    ensures IndexOfSystem(w.systems, handle).None? ==> r == (w, None)
    ensures var i := IndexOfSystem(w.systems, handle);
      i.Some? ==> r.0 == w.(systems := w.systems[..i.value] + w.systems[i.value + 1..]) &&
                  r.1 == Some(w.systems[i.value].(attached := false, entities := []))
  {
    var i := IndexOfSystem(w.systems, handle);
    if i.None? then (w, None)
    else (w.(systems := w.systems[..i.value] + w.systems[i.value + 1..]),
          Some(w.systems[i.value].(attached := false, entities := [])))
  }

  /** `GetSystem`: the first registered system whose class ID matches, else null. */
  function GetSystem(w: World, staticId: string): (r: Option<System>)
    ensures r.Some? ==> r.value in w.systems && r.value.staticId == staticId
    ensures r.Some? ==> exists i :: 0 <= i < |w.systems| && w.systems[i] == r.value &&
                         forall j :: 0 <= j < i ==> w.systems[j].staticId != staticId
    ensures r.None? ==> forall j :: 0 <= j < |w.systems| ==> w.systems[j].staticId != staticId
  {
    FirstSystem(w.systems, staticId)
  }

  function FirstSystem(systems: seq<System>, staticId: string): (r: Option<System>)
    ensures r.Some? ==> exists i :: 0 <= i < |systems| && systems[i] == r.value && r.value.staticId == staticId &&
                         forall j :: 0 <= j < i ==> systems[j].staticId != staticId
    ensures r.None? ==> forall j :: 0 <= j < |systems| ==> systems[j].staticId != staticId
    decreases |systems|
  {
    if |systems| == 0 then None
    else if systems[0].staticId == staticId then Some(systems[0])
    else
      var r := FirstSystem(systems[1..], staticId);
      if r.Some? then
        var i :| 0 <= i < |systems[1..]| && systems[1..][i] == r.value &&
          forall j :: 0 <= j < i ==> systems[1..][j].staticId != staticId;
        assert systems[i + 1] == r.value;
        assert forall j :: 0 <= j < i + 1 ==> systems[j].staticId != staticId by {
          forall j | 0 <= j < i + 1 ensures systems[j].staticId != staticId {
            if j > 0 { assert systems[j] == systems[1..][j - 1]; }
          }
        }
        r
      else r
  }

  /** A system's `Emit`: the listeners the world's bus calls, none while it is not attached. */
  function SystemEmit(w: World, s: System, event: string): (r: seq<EventBus.Listener>)
    ensures !s.attached ==> r == []
    ensures s.attached ==> r == EventBus.Emit(w.bus, event)
  {
    if s.attached then EventBus.Emit(w.bus, event) else []
  }

  /** A system's `On`: registers on the world's bus, or does nothing while not attached. */
  function SystemOn(w: World, s: System, event: string, callback: nat, context: Option<nat>): (r: World)
    ensures !s.attached ==> r == w
    ensures s.attached ==> r == w.(bus := EventBus.On(w.bus, event, callback, context))
  {
    if s.attached then w.(bus := EventBus.On(w.bus, event, callback, context)) else w
  }

  /** A system's `Off`: unregisters on the world's bus, or does nothing while not attached. */
  function SystemOff(w: World, s: System, event: string, callback: nat, context: Option<nat>): (r: World)
    ensures !s.attached ==> r == w
    ensures s.attached ==> r == w.(bus := EventBus.Off(w.bus, event, callback, context))
  {
    if s.attached then w.(bus := EventBus.Off(w.bus, event, callback, context)) else w
  }

  /** A system that subscribes and unsubscribes a fresh listener leaves the world as it was. */
  lemma SystemOffUndoesOn(w: World, s: System, event: string, callback: nat, context: Option<nat>)
    requires EventBus.Valid(w.bus)
    requires forall l :: l in EventBus.Listeners(w.bus, event) ==> !EventBus.Matches(l, callback, context)
    ensures SystemOff(SystemOn(w, s, event, callback, context), s, event, callback, context) == w
  {
    if s.attached {
      EventBus.OffUndoesOn(w.bus, event, callback, context);
    }
  }

  // ---- Queries ----

  /** The component stored under `cid`, if the entity holds one (`GetComponent`). */
  function ComponentOf(w: World, id: nat, cid: string): (c: Option<Component>)
    ensures c.Some? <==> id in w.entities && cid in w.entities[id].components
    ensures c.Some? ==> c.value == w.entities[id].components[cid]
  {
    if id in w.entities && cid in w.entities[id].components then Some(w.entities[id].components[cid]) else None
  }

  /** The entity's world position (`worldX`, `worldY`), when it still has a Transform. */
  function PositionOf(w: World, id: nat): (p: Option<Transform.Point>)
    ensures p.Some? <==> id in w.transforms
    ensures p.Some? ==> p.value == Transform.WorldPos(w.transforms, id)
  {
    if id in w.transforms then Some(Transform.WorldPos(w.transforms, id)) else None
  }

  /** The entity holds every requested component. */
  predicate HasAll(w: World, id: nat, ids: QueryKey)
    requires id in w.entities
  {
    forall c :: c in ids ==> c in w.entities[id].components
  }

  /** The entities a query for `ids` stands for: alive, holding every ID, in creation order. */
  function Matching(w: World, ids: QueryKey): seq<nat> {
    MatchingIn(w.entities, w.order, ids)
  }

  /** `Matching`, as it depends only on the registry. */
  function MatchingIn(entities: map<nat, Entity.Entity>, order: seq<nat>, ids: QueryKey): seq<nat> {
    Filter(order, id => id in entities && entities[id].active && !entities[id].destroyed &&
                        forall c :: c in ids ==> c in entities[id].components)
  }

  /**
   `Query`, as written: no IDs give the empty list; otherwise the cache is read only
   when it is clean and holds the key, else the result is recomputed and stored.
   */
  function Query(w: World, ids: seq<string>): (r: (World, seq<nat>))
    ensures |ids| == 0 ==> r == (w, [])
    ensures |ids| > 0 && w.dirty ==>
      r.1 == Matching(w, multiset(ids)) && r.0 == w.(cache := w.cache[multiset(ids) := r.1])
  {
    if |ids| == 0 then (w, [])
    else
      var key := multiset(ids);
      if !w.dirty && key in w.cache then (w, w.cache[key])
      else
        var result := Matching(w, key);
        (w.(cache := w.cache[key := result]), result)
  }

  /** `QueryOne`: the first entity of the query, if any. */
  function QueryOne(w: World, ids: seq<string>): (r: (World, Option<nat>))
    ensures r.0 == Query(w, ids).0
    ensures |Query(w, ids).1| == 0 <==> r.1.None?
    ensures r.1.Some? ==> r.1.value == Query(w, ids).1[0]
  {
    var q := Query(w, ids);
    (q.0, if |q.1| > 0 then Some(q.1[0]) else None)
  }

  /**
   A query returns exactly the alive entities holding every requested component, each
   once, whatever the order or repetition of the requested IDs.
   */
  lemma MatchingSpec(w: World, ids: QueryKey)
    requires NoDup(w.order)
    ensures forall id :: id in Matching(w, ids) <==> id in w.order && Alive(w, id) && HasAll(w, id, ids)
    ensures NoDup(Matching(w, ids))
  {
    var p := id => id in w.entities && w.entities[id].active && !w.entities[id].destroyed &&
                   forall c :: c in ids ==> c in w.entities[id].components;
    FilterMembers(w.order, p);
    FilterNoDup(w.order, p);
  }

  /** The order of the requested IDs does not matter. */
  lemma QueryOrderIrrelevant(w: World, ids1: seq<string>, ids2: seq<string>)
    requires w.dirty && multiset(ids1) == multiset(ids2)
    ensures Query(w, ids1) == Query(w, ids2)
  {
  }

  /** `_refreshSystemEntities` for the `i`-th system: no static query gives an empty list. */
  function RefreshSystemEntities(w: World, i: nat): (r: World)
    requires i < |w.systems|
    ensures |r.systems| == |w.systems|
    ensures forall j :: 0 <= j < |w.systems| && j != i ==> r.systems[j] == w.systems[j]
    ensures var q := w.systems[i].query;
      (q.None? || |q.value| == 0) ==> r == w.(systems := w.systems[i := w.systems[i].(entities := [])])
    ensures var q := w.systems[i].query;
      q.Some? && |q.value| > 0 && w.dirty ==> r.systems[i].entities == Matching(w, multiset(q.value))
    ensures r.entities == w.entities && r.order == w.order && r.dirty == w.dirty && r.queue == w.queue
    ensures r.transforms == w.transforms && r.counter == w.counter
  {
    var s := w.systems[i];
    if s.query.None? || |s.query.value| == 0 then w.(systems := w.systems[i := s.(entities := [])])
    else
      var q := Query(w, s.query.value);
      q.0.(systems := w.systems[i := s.(entities := q.1)])
  }
}
