/**
 The world's invariant, kept by every operation: the registry and the creation order
 list the same entities once each, every entity carries its own id, belongs to this
 world, holds its Transform and keeps its own invariant, ids come from the counter,
 and every entity marked for destruction is queued for teardown. Also: what any
 sequence of operations does to the query cache.
 */
module WorldInvariant {
  import opened Wrappers
  import opened Seqs
  import opened Components
  import opened World
  import Entity
  import WorldDestroy
  import WorldUpdate

  /** The creation order and the registry list the same entities, and so do the Transforms. */
  ghost predicate Registry(w: World) {
    NoDup(w.order) && (forall id :: id in w.order <==> id in w.entities) &&
    w.transforms.Keys == w.entities.Keys
  }

  /** One registered entity's part of the invariant. */
  ghost predicate EntityOk(w: World, id: nat)
    requires id in w.entities
  {
    Ok(w.entities[id], id, w.counter)
  }

  ghost predicate Ok(e: Entity.Entity, id: nat, counter: nat) {
    e.id == id && 0 < id <= counter && e.hasWorld && TransformId in e.components && Entity.Valid(e)
  }

  ghost predicate Members(w: World) {
    forall id :: id in w.entities ==> EntityOk(w, id)
  }

  /** Marking an entity destroyed does not touch its own invariant. */
  lemma OkMarked(e: Entity.Entity, id: nat, counter: nat, counter': nat)
    requires Ok(e, id, counter) && counter <= counter'
    ensures Ok(e.(destroyed := true), id, counter') && Ok(e, id, counter')
  {
  }

  /** Entities that stay registered, unchanged or only marked, keep their part of the invariant. */
  lemma MembersTransfer(w: World, r: World)
    requires Members(w) && w.counter <= r.counter
    requires forall x :: x in r.entities ==>
      x in w.entities && (r.entities[x] == w.entities[x] || r.entities[x] == w.entities[x].(destroyed := true))
    ensures Members(r)
  {
    forall x | x in r.entities ensures EntityOk(r, x) {
      assert EntityOk(w, x);
      OkMarked(w.entities[x], x, w.counter, r.counter);
    }
  }

  ghost predicate WF(w: World) {
    Registry(w) && Members(w) && WorldDestroy.Pending(w, []) && Hier(w)
  }

  /** An id the counter has handed out. */
  predicate Issued(w: World, id: nat) {
    0 < id <= w.counter
  }

  /**
   The hierarchy: the parent and child links agree among live Transforms, child lists
   name only live Transforms, and every parent is an entity the counter handed out (a
   torn-down parent may remain named, but never an id still to come).
   */
  ghost predicate Hier(w: World) {
    Transform.Consistent(w.transforms) && Transform.Closed(w.transforms) &&
    forall c :: c in w.transforms && w.transforms[c].parent.Some? ==> Issued(w, w.transforms[c].parent.value)
  }

  lemma EmptyWF()
    ensures WF(Empty())
  {
  }

  /** A new entity gets an id no registered entity has, larger than all of them, and the invariant holds. */
  lemma CreateEntityWF(w: World, tag: Option<string>)
    requires WF(w)
    ensures var r := CreateEntity(w, tag);
      r.1 !in w.entities && (forall id :: id in w.entities ==> id < r.1) && WF(r.0)
  {
    CreateEntityKeeps(w, tag);
    assert w.counter + 1 !in w.transforms;
    CreateEntityHier(w, tag);
  }

  lemma CreateEntityKeeps(w: World, tag: Option<string>)
    requires Registry(w) && Members(w) && WorldDestroy.Pending(w, [])
    ensures var r := CreateEntity(w, tag);
      r.1 !in w.entities && (forall id :: id in w.entities ==> id < r.1) &&
      Registry(r.0) && Members(r.0) && WorldDestroy.Pending(r.0, [])
  {
    var r := CreateEntity(w, tag);
    assert r.1 !in w.entities;
    NoDupAppend(w.order, r.1);
    assert Entity.Valid(r.0.entities[r.1]);
    forall id | id in r.0.entities ensures EntityOk(r.0, id) {
      if id != r.1 { assert EntityOk(w, id); }
    }
  }

  /** The new entity's Transform joins the hierarchy unlinked; no one names its id as parent yet. */
  lemma CreateEntityHier(w: World, tag: Option<string>)
    requires Hier(w) && w.counter + 1 !in w.transforms
    ensures Hier(CreateEntity(w, tag).0)
  {
    var id := w.counter + 1;
    var t := Transform.New(None, None, None, None, None);
    var r := CreateEntity(w, tag).0;
    assert r.transforms == w.transforms[id := t] && r.counter == id;
    Transform.AddFresh(w.transforms, id, t);
    forall c | c in r.transforms && r.transforms[c].parent.Some?
      ensures Issued(r, r.transforms[c].parent.value)
    {
      assert c != id && r.transforms[c] == w.transforms[c];
    }
  }

  lemma DestroyEntityWF(w: World, id: nat)
    requires WF(w)
    ensures WF(DestroyEntity(w, id))
  {
    MembersTransfer(w, DestroyEntity(w, id));
  }

  /** Replacing one entity by one that keeps its part of the invariant keeps the invariant. */
  lemma ReplaceWF(w: World, id: nat, e: Entity.Entity)
    requires WF(w) && id in w.entities && Ok(e, id, w.counter)
    requires e.destroyed ==> w.entities[id].destroyed
    ensures WF(w.(entities := w.entities[id := e]))
    ensures WF(MarkDirty(w.(entities := w.entities[id := e])))
  {
    var r := w.(entities := w.entities[id := e]);
    assert r.entities.Keys == w.entities.Keys;
    forall x | x in r.entities ensures EntityOk(r, x) {
      if x != id { assert EntityOk(w, x); }
    }
  }

  lemma AddComponentWF(w: World, id: nat, c: Component)
    requires WF(w) && id in w.entities
    requires c.staticId != "" ==> (c.hasUpdate ==> c.overridesUpdate)
    ensures WF(AddComponent(w, id, c).0)
  {
    var e := w.entities[id];
    var a := Entity.AddComponent(e, c);
    Entity.AddComponentValid(e, c);
    if a.added {
      assert EntityOk(w, id);
      assert a.entity.id == e.id && a.entity.hasWorld && a.entity.destroyed == e.destroyed;
      assert TransformId in a.entity.components;
      ReplaceWF(w, id, a.entity);
    }
  }

  lemma RemoveComponentWF(w: World, id: nat, componentId: string)
    requires WF(w) && id in w.entities
    ensures WF(RemoveComponent(w, id, componentId))
  {
    var e := w.entities[id];
    var d := Entity.RemoveComponent(e, componentId);
    if d.detached.Some? {
      Entity.RemoveComponentValid(e, componentId);
      assert EntityOk(w, id);
      assert Ok(d.entity, id, w.counter);
      ReplaceWF(w, id, d.entity);
    }
  }

  lemma SetActiveWF(w: World, id: nat, active: bool)
    requires WF(w) && id in w.entities
    ensures WF(SetActive(w, id, active))
  {
    var e := w.entities[id];
    if e.active != active {
      assert EntityOk(w, id);
      ReplaceWF(w, id, e.(active := active));
    }
  }

  // ---- The teardown keeps the registry ----

  lemma DestroyAllMembers(w: World, ids: seq<nat>)
    requires Members(w)
    ensures Members(WorldDestroy.DestroyAll(w, ids))
  {
    MembersTransfer(w, WorldDestroy.DestroyAll(w, ids));
  }

  lemma TearDownKeeps(w: World, id: nat)
    requires Registry(w) && Members(w)
    ensures Registry(WorldDestroy.TearDown(w, id)) && Members(WorldDestroy.TearDown(w, id))
  {
    TearDownRegistry(w, id);
    TearDownMembers(w, id);
  }

  lemma TearDownRegistry(w: World, id: nat)
    requires Registry(w)
    ensures Registry(WorldDestroy.TearDown(w, id))
  {
    if id in w.entities {
      RemoveFirstNoDup(w.order, id);
    }
  }

  lemma TearDownMembers(w: World, id: nat)
    requires Members(w)
    ensures Members(WorldDestroy.TearDown(w, id))
  {
    if id in w.entities {
      var r := WorldDestroy.TearDown(w, id);
      var w1 := w.(entities := w.entities - {id}, order := RemoveFirst(w.order, id));
      MembersTransfer(w, w1);
      var w2 := WorldDestroy.DestroyAll(w1, Reverse(if id in w.transforms then w.transforms[id].children else []));
      DestroyAllMembers(w1, Reverse(if id in w.transforms then w.transforms[id].children else []));
      assert r.entities == w2.entities && r.counter == w2.counter;
      MembersTransfer(w2, r);
    }
  }

  /** One teardown keeps the hierarchy. */
  lemma TearDownHier(w: World, id: nat)
    requires Hier(w)
    ensures Hier(WorldDestroy.TearDown(w, id))
  {
    var r := WorldDestroy.TearDown(w, id);
    var h := w.transforms;
    if id in w.entities && id in h {
      var parent := h[id].parent;
      var w1 := w.(entities := w.entities - {id}, order := RemoveFirst(w.order, id));
      var w2 := WorldDestroy.DestroyAll(w1, Reverse(h[id].children));
      assert w2.transforms == h;
      var w3 := if parent.Some? then RemoveChild(w2, parent.value, id) else w2;
      assert r.transforms == w3.transforms - {id};
      if parent.Some? && parent.value in h {
        assert w3.transforms == Transform.SetParent(h, id, None);
        Transform.SetParentConsistent(h, id, None);
        Transform.SetParentClosed(h, id, None);
      } else {
        assert w3.transforms == h;
      }
      Transform.Drop(w3.transforms, id);
    }
  }

  lemma {:induction false} BatchHier(w: World, snapshot: seq<nat>)
    requires Hier(w)
    ensures Hier(WorldDestroy.Batch(w, snapshot))
    decreases |snapshot|
  {
    if |snapshot| > 0 {
      TearDownHier(w, snapshot[0]);
      BatchHier(WorldDestroy.TearDown(w, snapshot[0]), snapshot[1..]);
    }
  }

  lemma {:induction false} FlushHier(w: World)
    requires Hier(w)
    ensures Hier(WorldDestroy.Flush(w))
    decreases |WorldDestroy.Live(w)|
  {
    if |w.queue| > 0 {
      var w0 := w.(queue := []);
      assert WorldDestroy.Live(w0) == WorldDestroy.Live(w);
      BatchHier(w0, w.queue);
      var w1 := WorldDestroy.Batch(w0, w.queue);
      if |w1.queue| > 0 {
        FlushHier(w1);
      }
      var w2 := if |w1.queue| > 0 then WorldDestroy.Flush(w1) else w1;
      assert WorldDestroy.Flush(w) == MarkDirty(w2);
    }
  }

  /** In a world that keeps the invariant, no Transform left after a teardown lists the entity. */
  lemma TearDownUnlisted(w: World, id: nat)
    requires WF(w)
    ensures forall p :: p in WorldDestroy.TearDown(w, id).transforms ==> id !in WorldDestroy.TearDown(w, id).transforms[p].children
  {
    TearDownHier(w, id);
  }

  lemma {:induction false} BatchKeeps(w: World, snapshot: seq<nat>)
    requires Registry(w) && Members(w)
    ensures Registry(WorldDestroy.Batch(w, snapshot)) && Members(WorldDestroy.Batch(w, snapshot))
    decreases |snapshot|
  {
    if |snapshot| > 0 {
      TearDownKeeps(w, snapshot[0]);
      BatchKeeps(WorldDestroy.TearDown(w, snapshot[0]), snapshot[1..]);
    }
  }

  lemma {:induction false} FlushKeeps(w: World)
    requires Registry(w) && Members(w)
    ensures Registry(WorldDestroy.Flush(w)) && Members(WorldDestroy.Flush(w))
    decreases |WorldDestroy.Live(w)|
  {
    if |w.queue| > 0 {
      var w0 := w.(queue := []);
      assert WorldDestroy.Live(w0) == WorldDestroy.Live(w);
      MembersTransfer(w, w0);
      BatchKeeps(w0, w.queue);
      var w1 := WorldDestroy.Batch(w0, w.queue);
      if |w1.queue| > 0 {
        FlushKeeps(w1);
      }
      var w2 := if |w1.queue| > 0 then WorldDestroy.Flush(w1) else w1;
      var r := WorldDestroy.Flush(w);
      assert r == MarkDirty(w2);
      MembersTransfer(w2, r);
    }
  }

  /** The flush keeps the invariant and leaves no marked entity behind. */
  lemma FlushWF(w: World)
    requires WF(w)
    ensures WF(WorldDestroy.Flush(w))
    ensures forall id :: id in WorldDestroy.Flush(w).entities ==> !WorldDestroy.Flush(w).entities[id].destroyed
  {
    FlushKeeps(w);
    FlushHier(w);
    WorldDestroy.FlushClears(w);
  }

  /** A frame keeps the invariant. */
  lemma UpdateWF(w: World, dt: real)
    requires WF(w)
    ensures WF(WorldUpdate.Update(w, dt).0)
  {
    var s := WorldUpdate.RunSystems(w, 0, dt);
    MembersTransfer(w, s.0);
    FlushWF(s.0);
  }

  // ---- Any sequence of operations ----

  /** The world operations a program can perform. */
  datatype Op =
    | Create(tag: Option<string>)
    | Destroy(id: nat)
    | Add(id: nat, component: Component)
    | Remove(id: nat, componentId: string)
    | Activate(id: nat, active: bool)
    | Parent(id: nat, parent: Option<nat>)
    | Adopt(id: nat, child: nat)
    | Disown(id: nat, child: nat)
    | Register(system: System)
    | Unregister(handle: nat)
    | Ask(ids: seq<string>)
    | Frame(dt: real)

  /**
   One operation; operations on an entity no longer registered do not reach the world,
   and a new parent is an entity the program holds, so one the counter has handed out.
   */
  function Apply(w: World, op: Op): World {
    match op
    case Create(tag) => CreateEntity(w, tag).0
    case Destroy(id) => DestroyEntity(w, id)
    case Add(id, c) => if id in w.entities then AddComponent(w, id, c).0 else w
    case Remove(id, cid) => if id in w.entities then RemoveComponent(w, id, cid) else w
    case Activate(id, a) => if id in w.entities then SetActive(w, id, a) else w
    case Parent(id, p) => if p.None? || Issued(w, p.value) then SetParent(w, id, p) else w
    case Adopt(id, c) => AddChild(w, id, c)
    case Disown(id, c) => RemoveChild(w, id, c)
    case Register(s) => AddSystem(w, s)
    case Unregister(h) => RemoveSystem(w, h).0
    case Ask(ids) => Query(w, ids).0
    case Frame(dt) => WorldUpdate.Update(w, dt).0
  }

  function Run(w: World, ops: seq<Op>): World
    decreases |ops|
  {
    if |ops| == 0 then w else Run(Apply(w, ops[0]), ops[1..])
  }

  /** A component carries the update flag only if its class overrides `OnUpdate`: attaching is what sets it. */
  predicate FreshComponents(ops: seq<Op>) {
    forall k :: 0 <= k < |ops| && ops[k].Add? ==> (ops[k].component.staticId != "" ==> (ops[k].component.hasUpdate ==> ops[k].component.overridesUpdate))
  }

  /** Every operation keeps the invariant. */
  lemma ApplyWF(w: World, op: Op)
    requires WF(w)
    requires op.Add? ==> (op.component.staticId != "" ==> (op.component.hasUpdate ==> op.component.overridesUpdate))
    ensures WF(Apply(w, op))
  {
    if op.Create? || op.Destroy? || op.Add? || op.Remove? || op.Activate? {
      ApplyEntityWF(w, op);
    } else {
      ApplyStructureWF(w, op);
    }
  }

  /** The operations on one entity keep the invariant. */
  lemma ApplyEntityWF(w: World, op: Op)
    requires WF(w) && (op.Create? || op.Destroy? || op.Add? || op.Remove? || op.Activate?)
    requires op.Add? ==> (op.component.staticId != "" ==> (op.component.hasUpdate ==> op.component.overridesUpdate))
    ensures WF(Apply(w, op))
  {
    match op
    case Create(tag) => CreateEntityWF(w, tag);
    case Destroy(id) => DestroyEntityWF(w, id);
    case Add(id, c) => if id in w.entities { AddComponentWF(w, id, c); }
    case Remove(id, cid) => if id in w.entities { RemoveComponentWF(w, id, cid); }
    case Activate(id, a) => if id in w.entities { SetActiveWF(w, id, a); }
  }

  /** The hierarchy, system, query and frame operations keep the invariant. */
  lemma ApplyStructureWF(w: World, op: Op)
    requires WF(w) && !(op.Create? || op.Destroy? || op.Add? || op.Remove? || op.Activate?)
    ensures WF(Apply(w, op))
  {
    match op
    case Parent(id, p) => if p.None? || Issued(w, p.value) { ParentWF(w, id, p); }
    case Adopt(id, c) => AdoptWF(w, id, c);
    case Disown(id, c) => DisownWF(w, id, c);
    case Register(s) => RegisterWF(w, s);
    case Unregister(h) => UnregisterWF(w, h);
    case Ask(ids) => AskWF(w, ids);
    case Frame(dt) => UpdateWF(w, dt);
  }

  /** Re-parenting keeps the hierarchy, as long as the new parent is an id already handed out. */
  lemma ParentWF(w: World, id: nat, p: Option<nat>)
    requires WF(w) && (p.None? || Issued(w, p.value))
    ensures WF(SetParent(w, id, p))
  {
    MembersTransfer(w, SetParent(w, id, p));
    if id in w.transforms {
      Transform.SetParentConsistent(w.transforms, id, p);
      Transform.SetParentClosed(w.transforms, id, p);
    }
  }

  lemma AdoptWF(w: World, id: nat, c: nat)
    requires WF(w)
    ensures WF(AddChild(w, id, c))
  {
    MembersTransfer(w, AddChild(w, id, c));
    if id in w.transforms && c in w.transforms {
      assert EntityOk(w, id);
      Transform.SetParentConsistent(w.transforms, c, Some(id));
      Transform.SetParentClosed(w.transforms, c, Some(id));
    }
  }

  lemma DisownWF(w: World, id: nat, c: nat)
    requires WF(w)
    ensures WF(RemoveChild(w, id, c))
  {
    MembersTransfer(w, RemoveChild(w, id, c));
    if id in w.transforms && c in w.transforms && w.transforms[c].parent == Some(id) {
      Transform.SetParentConsistent(w.transforms, c, None);
      Transform.SetParentClosed(w.transforms, c, None);
    }
  }

  lemma RegisterWF(w: World, s: System)
    requires WF(w)
    ensures WF(AddSystem(w, s))
  {
    MembersTransfer(w, AddSystem(w, s));
  }

  lemma UnregisterWF(w: World, h: nat)
    requires WF(w)
    ensures WF(RemoveSystem(w, h).0)
  {
    MembersTransfer(w, RemoveSystem(w, h).0);
  }

  lemma AskWF(w: World, ids: seq<string>)
    requires WF(w)
    ensures WF(Query(w, ids).0)
  {
    MembersTransfer(w, Query(w, ids).0);
  }

  /** Any program keeps the invariant, starting from the empty world. */
  lemma {:induction false} RunWF(w: World, ops: seq<Op>)
    requires WF(w) && FreshComponents(ops)
    ensures WF(Run(w, ops))
    decreases |ops|
  {
    if |ops| > 0 {
      ApplyWF(w, ops[0]);
      assert FreshComponents(ops[1..]) by {
        forall k | 0 <= k < |ops[1..]| && ops[1..][k].Add?
          ensures ops[1..][k].component.staticId != "" ==> (ops[1..][k].component.hasUpdate ==> ops[1..][k].component.overridesUpdate)
        {
          assert ops[1..][k] == ops[k + 1];
        }
      }
      RunWF(Apply(w, ops[0]), ops[1..]);
    }
  }

  /** No operation ever clears the dirty flag. */
  lemma ApplyKeepsDirty(w: World, op: Op)
    requires w.dirty
    ensures Apply(w, op).dirty
  {
    match op
    case Frame(dt) =>
      assert WorldUpdate.RunSystems(w, 0, dt).0.dirty;
    case _ =>
  }

  /** The id counter never goes back, so an id is never handed out twice. */
  lemma ApplyCounter(w: World, op: Op)
    ensures Apply(w, op).counter >= w.counter
  {
  }

  lemma {:induction false} RunKeepsDirty(w: World, ops: seq<Op>)
    requires w.dirty
    ensures Run(w, ops).dirty
    decreases |ops|
  {
    if |ops| > 0 {
      ApplyKeepsDirty(w, ops[0]);
      RunKeepsDirty(Apply(w, ops[0]), ops[1..]);
    }
  }

  /**
   As written, the query cache is never read: whatever the program did before, a query
   recomputes its answer from the registry.
   */
  lemma QueryAlwaysRecomputes(ops: seq<Op>, ids: seq<string>)
    requires |ids| > 0
    ensures Query(Run(Empty(), ops), ids).1 == Matching(Run(Empty(), ops), multiset(ids))
  {
    RunKeepsDirty(Empty(), ops);
  }
}
