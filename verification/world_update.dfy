/**
 One frame of the world: every component that overrides `OnUpdate` on an active, live
 entity, in creation order; then every system in registration order, each after its
 entity list is refreshed; then the deferred teardown. The hooks' bodies are not part
 of the model, so a frame yields the schedule of hook calls it makes.
 */
module WorldUpdate {
  import opened Seqs
  import opened World
  import WorldDestroy

  /** A hook call, with the frame time it receives. */
  datatype Call =
    | ComponentUpdate(entity: nat, component: string, dt: real)
    | SystemUpdate(handle: nat, entities: seq<nat>, dt: real)

  /** The component hooks of one entity, in the order the components were added. */
  function EntityCalls(id: nat, updatables: seq<string>, dt: real): (r: seq<Call>)
    ensures |r| == |updatables|
    ensures forall k :: 0 <= k < |r| ==> r[k] == ComponentUpdate(id, updatables[k], dt)
    decreases |updatables|
  {
    if |updatables| == 0 then [] else [ComponentUpdate(id, updatables[0], dt)] + EntityCalls(id, updatables[1..], dt)
  }

  /** The component phase over the entities `ids`, skipping inactive and marked ones. */
  function ComponentCalls(w: World, ids: seq<nat>, dt: real): (r: seq<Call>)
    decreases |ids|
  {
    if |ids| == 0 then []
    else
      var head := if Alive(w, ids[0]) then EntityCalls(ids[0], w.entities[ids[0]].updatables, dt) else [];
      head + ComponentCalls(w, ids[1..], dt)
  }

  /** The component phase calls exactly the updatable components of the alive listed entities. */
  lemma {:induction false} ComponentCallsSpec(w: World, ids: seq<nat>, dt: real)
    ensures forall c :: c in ComponentCalls(w, ids, dt) ==>
      c.ComponentUpdate? && c.dt == dt && c.entity in ids && Alive(w, c.entity) &&
      c.component in w.entities[c.entity].updatables
    ensures forall id, k :: id in ids && Alive(w, id) && 0 <= k < |w.entities[id].updatables| ==>
      ComponentUpdate(id, w.entities[id].updatables[k], dt) in ComponentCalls(w, ids, dt)
    decreases |ids|
  {
    if |ids| > 0 {
      ComponentCallsSpec(w, ids[1..], dt);
      var head := if Alive(w, ids[0]) then EntityCalls(ids[0], w.entities[ids[0]].updatables, dt) else [];
      assert ComponentCalls(w, ids, dt) == head + ComponentCalls(w, ids[1..], dt);
      forall c | c in head
        ensures c.ComponentUpdate? && c.dt == dt && c.entity in ids && Alive(w, c.entity) &&
                c.component in w.entities[c.entity].updatables
      {
        var k :| 0 <= k < |head| && head[k] == c;
      }
      forall id, k | id in ids && Alive(w, id) && 0 <= k < |w.entities[id].updatables|
        ensures ComponentUpdate(id, w.entities[id].updatables[k], dt) in ComponentCalls(w, ids, dt)
      {
        if id == ids[0] {
          assert head[k] == ComponentUpdate(id, w.entities[id].updatables[k], dt);
        } else {
          assert id in ids[1..];
        }
      }
    }
  }

  /** What `_refreshSystemEntities` gives a system, read off the registry. */
  function View(w: World, s: System): seq<nat> {
    if s.query.None? || |s.query.value| == 0 then [] else Matching(w, multiset(s.query.value))
  }

  /** The system phase from the `i`-th system on: refresh, then call, for each in turn. */
  function RunSystems(w: World, i: nat, dt: real): (r: (World, seq<Call>))
    requires i <= |w.systems|
    ensures |r.0.systems| == |w.systems| && |r.1| == |w.systems| - i
    ensures r.0.entities == w.entities && r.0.order == w.order && r.0.queue == w.queue
    ensures r.0.dirty == w.dirty && r.0.counter == w.counter && r.0.transforms == w.transforms
    decreases |w.systems| - i
  {
    if i == |w.systems| then (w, [])
    else
      var w1 := RefreshSystemEntities(w, i);
      var rest := RunSystems(w1, i + 1, dt);
      (rest.0, [SystemUpdate(w1.systems[i].handle, w1.systems[i].entities, dt)] + rest.1)
  }

  /**
   The system phase leaves the earlier systems alone, gives each later one its view of
   the registry, and calls them in order with that view.
   */
  lemma {:induction false} RunSystemsSpec(w: World, i: nat, dt: real)
    requires i <= |w.systems| && w.dirty
    ensures forall k :: 0 <= k < i ==> RunSystems(w, i, dt).0.systems[k] == w.systems[k]
    ensures forall k :: i <= k < |w.systems| ==>
      RunSystems(w, i, dt).0.systems[k] == w.systems[k].(entities := View(w, w.systems[k]))
    ensures forall k :: i <= k < |w.systems| ==>
      RunSystems(w, i, dt).1[k - i] == SystemUpdate(w.systems[k].handle, View(w, w.systems[k]), dt)
    decreases |w.systems| - i
  {
    if i < |w.systems| {
      RunSystemsSpec(RefreshSystemEntities(w, i), i + 1, dt);
      RunSystemsNext(w, i, dt);
    }
  }

  /** The step of `RunSystemsSpec`: the `i`-th system refreshed and called, then the rest. */
  lemma RunSystemsNext(w: World, i: nat, dt: real)
    requires i < |w.systems| && w.dirty
    requires var w1 := RefreshSystemEntities(w, i);
      (forall k :: 0 <= k < i + 1 ==> RunSystems(w1, i + 1, dt).0.systems[k] == w1.systems[k]) &&
      (forall k :: i + 1 <= k < |w1.systems| ==>
        RunSystems(w1, i + 1, dt).0.systems[k] == w1.systems[k].(entities := View(w1, w1.systems[k]))) &&
      (forall k :: i + 1 <= k < |w1.systems| ==>
        RunSystems(w1, i + 1, dt).1[k - (i + 1)] == SystemUpdate(w1.systems[k].handle, View(w1, w1.systems[k]), dt))
    ensures forall k :: 0 <= k < i ==> RunSystems(w, i, dt).0.systems[k] == w.systems[k]
    ensures forall k :: i <= k < |w.systems| ==>
      RunSystems(w, i, dt).0.systems[k] == w.systems[k].(entities := View(w, w.systems[k]))
    ensures forall k :: i <= k < |w.systems| ==>
      RunSystems(w, i, dt).1[k - i] == SystemUpdate(w.systems[k].handle, View(w, w.systems[k]), dt)
  {
    Refreshed(w, i);
    RunSystemsStep(w, i, dt);
    var w1 := RefreshSystemEntities(w, i);
    var rest := RunSystems(w1, i + 1, dt);
    var calls := [SystemUpdate(w1.systems[i].handle, w1.systems[i].entities, dt)] + rest.1;
    forall k | i < k < |w.systems|
      ensures calls[k - i] == SystemUpdate(w.systems[k].handle, View(w, w.systems[k]), dt)
    {
      assert calls[k - i] == rest.1[k - (i + 1)];
    }
  }

  /** With the cache invalid, refreshing the `i`-th system gives it its view and changes no view. */
  lemma Refreshed(w: World, i: nat)
    requires i < |w.systems| && w.dirty
    ensures var w1 := RefreshSystemEntities(w, i);
      w1.systems[i] == w.systems[i].(entities := View(w, w.systems[i])) &&
      (forall k :: 0 <= k < |w.systems| && k != i ==> w1.systems[k] == w.systems[k]) &&
      (forall k :: 0 <= k < |w.systems| ==> View(w1, w1.systems[k]) == View(w, w.systems[k]))
  {
  }

  /** The system phase from the `i`-th system: that one, then the rest. */
  lemma RunSystemsStep(w: World, i: nat, dt: real)
    requires i < |w.systems|
    ensures var w1 := RefreshSystemEntities(w, i); var rest := RunSystems(w1, i + 1, dt);
      RunSystems(w, i, dt) == (rest.0, [SystemUpdate(w1.systems[i].handle, w1.systems[i].entities, dt)] + rest.1)
  {
  }

  /** `Update`: the component phase, the system phase, then the flush. */
  function Update(w: World, dt: real): (r: (World, seq<Call>))
  {
    var calls := ComponentCalls(w, w.order, dt);
    var s := RunSystems(w, 0, dt);
    (WorldDestroy.Flush(s.0), calls + s.1)
  }

  /**
   A frame calls every updatable component of every alive entity and nothing else, then
   each system once, in registration order, with the entities matching its query; it
   ends with the destroy queue empty and every queued entity gone.
   */
  lemma UpdateSpec(w: World, dt: real)
    requires w.dirty
    ensures var r := Update(w, dt); var n := |ComponentCalls(w, w.order, dt)|;
      |r.1| == n + |w.systems| &&
      (forall k :: 0 <= k < |w.systems| ==>
        r.1[n + k] == SystemUpdate(w.systems[k].handle, View(w, w.systems[k]), dt)) &&
      |r.0.systems| == |w.systems| &&
      (forall k :: 0 <= k < |w.systems| ==>
        r.0.systems[k] == w.systems[k].(entities := View(w, w.systems[k]))) &&
      r.0.queue == [] && (forall id :: id in w.queue ==> id !in r.0.entities)
    ensures forall c :: c in Update(w, dt).1[..|ComponentCalls(w, w.order, dt)|] ==>
      c.ComponentUpdate? && c.entity in w.order && Alive(w, c.entity) &&
      c.component in w.entities[c.entity].updatables
    ensures forall id, k :: id in w.order && Alive(w, id) && 0 <= k < |w.entities[id].updatables| ==>
      ComponentUpdate(id, w.entities[id].updatables[k], dt) in Update(w, dt).1[..|ComponentCalls(w, w.order, dt)|]
  {
    var calls := ComponentCalls(w, w.order, dt);
    var s := RunSystems(w, 0, dt);
    ComponentCallsSpec(w, w.order, dt);
    RunSystemsSpec(w, 0, dt);
    assert Update(w, dt).1[..|calls|] == calls;
    forall k | 0 <= k < |w.systems|
      ensures Update(w, dt).1[|calls| + k] == SystemUpdate(w.systems[k].handle, View(w, w.systems[k]), dt)
    {
      assert Update(w, dt).1[|calls| + k] == s.1[k - 0];
    }
  }
}
