/**
 The deferred teardown: `_processDestroyQueue` of the world together with the entity's
 `_doDestroy`, which destroys the children (possibly queueing more teardowns), leaves
 the parent and drops the components.
 */
module WorldDestroy {
  import opened Wrappers
  import opened Seqs
  import opened World

  /** The entities still registered and not yet marked for destruction. */
  function Live(w: World): set<nat> {
    set id | id in w.entities && !w.entities[id].destroyed
  }

  /** What a flush can still queue, plus what it has queued: it never grows. */
  function Weight(w: World): nat {
    |w.queue| + |Live(w)|
  }

  /** The queue only grows at its end, and the weight does not grow. */
  predicate Shrinks(w: World, r: World) {
    w.queue <= r.queue && Weight(r) <= Weight(w)
  }

  /** Marking an entity destroyed queues at most itself and removes it from `Live`. */
  lemma DestroyEntityShrinks(w: World, id: nat)
    ensures Shrinks(w, DestroyEntity(w, id))
    ensures Live(DestroyEntity(w, id)) == Live(w) - {id}
  {
    var r := DestroyEntity(w, id);
    assert Live(r) == Live(w) - {id};
    if id in Live(w) {
      assert |Live(r)| == |Live(w)| - 1;
    }
  }

  /** `Destroy` on each entity of the list, in that order. */
  function DestroyAll(w: World, ids: seq<nat>): (r: World)
    ensures r.entities.Keys == w.entities.Keys
    ensures forall id :: id in w.entities ==>
      r.entities[id] == if id in ids then w.entities[id].(destroyed := true) else w.entities[id]
    ensures r.order == w.order && r.transforms == w.transforms && r.systems == w.systems
    ensures r.counter == w.counter && r.dirty == w.dirty && r.cache == w.cache && r.bus == w.bus
    ensures Shrinks(w, r)
    decreases |ids|
  {
    if |ids| == 0 then w
    else
      var w1 := DestroyEntity(w, ids[0]);
      DestroyEntityShrinks(w, ids[0]);
      var r := DestroyAll(w1, ids[1..]);
      DestroyAllNext(w, w1, r, ids);
      r
  }

  /** The step of `DestroyAll`: the head marked first, then the rest. */
  lemma DestroyAllNext(w: World, w1: World, r: World, ids: seq<nat>)
    requires |ids| > 0 && w1 == DestroyEntity(w, ids[0]) && Shrinks(w, w1)
    requires r.entities.Keys == w1.entities.Keys
    requires forall id :: id in w1.entities ==>
      r.entities[id] == if id in ids[1..] then w1.entities[id].(destroyed := true) else w1.entities[id]
    requires r.order == w1.order && r.transforms == w1.transforms && r.systems == w1.systems
    requires r.counter == w1.counter && r.dirty == w1.dirty && r.cache == w1.cache && r.bus == w1.bus
    requires Shrinks(w1, r)
    ensures r.entities.Keys == w.entities.Keys
    ensures forall id :: id in w.entities ==>
      r.entities[id] == if id in ids then w.entities[id].(destroyed := true) else w.entities[id]
    ensures r.order == w.order && r.transforms == w.transforms && r.systems == w.systems
    ensures r.counter == w.counter && r.dirty == w.dirty && r.cache == w.cache && r.bus == w.bus
    ensures Shrinks(w, r)
  {
    assert forall id :: id in ids && id != ids[0] ==> id in ids[1..];
  }

  /** `DestroyAll` queues only listed entities that were live and belonged to the world. */
  lemma {:induction false} DestroyAllQueuesListed(w: World, ids: seq<nat>)
    ensures forall k :: |w.queue| <= k < |DestroyAll(w, ids).queue| ==>
      DestroyAll(w, ids).queue[k] in ids && DestroyAll(w, ids).queue[k] in Live(w) &&
      w.entities[DestroyAll(w, ids).queue[k]].hasWorld
    decreases |ids|
  {
    if |ids| > 0 {
      var w1 := DestroyEntity(w, ids[0]);
      DestroyEntityShrinks(w, ids[0]);
      DestroyAllQueuesListed(w1, ids[1..]);
      ListedNext(w, w1, DestroyAll(w1, ids[1..]), ids);
    }
  }

  /** The step of `DestroyAllQueuesListed`. */
  lemma ListedNext(w: World, w1: World, r: World, ids: seq<nat>)
    requires |ids| > 0 && w1 == DestroyEntity(w, ids[0]) && Shrinks(w, w1) && Live(w1) == Live(w) - {ids[0]}
    requires w1.queue <= r.queue
    requires forall k :: |w1.queue| <= k < |r.queue| ==>
      r.queue[k] in ids[1..] && r.queue[k] in Live(w1) && w1.entities[r.queue[k]].hasWorld
    ensures forall k :: |w.queue| <= k < |r.queue| ==>
      r.queue[k] in ids && r.queue[k] in Live(w) && w.entities[r.queue[k]].hasWorld
  {
    forall k | |w.queue| <= k < |r.queue|
      ensures r.queue[k] in ids && r.queue[k] in Live(w) && w.entities[r.queue[k]].hasWorld
    {
      if k < |w1.queue| {
        assert r.queue[k] == w1.queue[k] == ids[0];
      } else {
        assert r.queue[k] in ids[1..] && r.queue[k] in Live(w1);
      }
    }
  }

  /**
   The queue after `DestroyAll`: what was queued, and each listed entity that was live
   and belonged to the world.
   */
  lemma DestroyAllQueue(w: World, ids: seq<nat>)
    ensures var r := DestroyAll(w, ids); forall k :: k in r.queue <==>
      k in w.queue || (k in ids && k in w.entities && !w.entities[k].destroyed && w.entities[k].hasWorld)
  {
    var r := DestroyAll(w, ids);
    DestroyAllQueuesListed(w, ids);
    DestroyAllQueuesLive(w, ids);
    forall k | k in r.queue
      ensures k in w.queue || (k in ids && k in w.entities && !w.entities[k].destroyed && w.entities[k].hasWorld)
    {
      var i :| 0 <= i < |r.queue| && r.queue[i] == k;
      if i < |w.queue| { assert w.queue[i] == k; }
    }
    forall k | k in w.queue ensures k in r.queue {
      var i :| 0 <= i < |w.queue| && w.queue[i] == k;
      assert r.queue[i] == k;
    }
  }

  /** `DestroyAll` queues every listed live entity that still belongs to the world. */
  lemma {:induction false} DestroyAllQueuesLive(w: World, ids: seq<nat>)
    ensures var r := DestroyAll(w, ids);
      forall id :: id in ids && id in Live(w) && w.entities[id].hasWorld ==> id in r.queue
    decreases |ids|
  {
    if |ids| > 0 {
      var w1 := DestroyEntity(w, ids[0]);
      DestroyEntityShrinks(w, ids[0]);
      DestroyAllQueuesLive(w1, ids[1..]);
      var r := DestroyAll(w1, ids[1..]);
      forall id | id in ids && id in Live(w) && w.entities[id].hasWorld ensures id in r.queue {
        if id == ids[0] {
          assert w1.queue[|w.queue|] == id;
          assert r.queue[|w.queue|] == id;
        } else {
          assert id in ids[1..];
          assert id in Live(w1) && w1.entities[id].hasWorld;
        }
      }
    }
  }

  /** Dropping an entity from the registry removes at most it from `Live`. */
  lemma UnregisterShrinks(w: World, id: nat)
    ensures Live(w.(entities := w.entities - {id}, order := RemoveFirst(w.order, id))) == Live(w) - {id}
  {
  }

  /**
   One entity's teardown: it leaves the registry and the creation order, its children
   are destroyed last to first, it leaves its parent, and its Transform is dropped. An
   entity no longer registered is skipped.
   */
  function TearDown(w: World, id: nat): (r: World)
    ensures id !in w.entities ==> r == w
    ensures r.entities.Keys == w.entities.Keys - {id}
    ensures r.transforms.Keys == w.transforms.Keys - (if id in w.entities then {id} else {})
    ensures id in w.entities ==> r.order == RemoveFirst(w.order, id)
    ensures r.systems == w.systems && r.counter == w.counter && r.dirty == w.dirty && r.cache == w.cache
    ensures Shrinks(w, r)
  {
    if id !in w.entities then w
    else
      var children := if id in w.transforms then w.transforms[id].children else [];
      var parent := if id in w.transforms then w.transforms[id].parent else None;
      var w1 := w.(entities := w.entities - {id}, order := RemoveFirst(w.order, id));
      UnregisterShrinks(w, id);
      var w2 := DestroyAll(w1, Reverse(children));
      var w3 := if parent.Some? then RemoveChild(w2, parent.value, id) else w2;
      w3.(transforms := w3.transforms - {id})
  }

  /** One pass over a snapshot of the queue. */
  function Batch(w: World, snapshot: seq<nat>): (r: World)
    ensures r.entities.Keys <= w.entities.Keys
    ensures forall id :: id in snapshot ==> id !in r.entities
    ensures r.systems == w.systems && r.counter == w.counter && r.dirty == w.dirty
    ensures Shrinks(w, r)
    decreases |snapshot|
  {
    if |snapshot| == 0 then w
    else
      var r := Batch(TearDown(w, snapshot[0]), snapshot[1..]);
      assert forall id :: id in snapshot && id != snapshot[0] ==> id in snapshot[1..];
      r
  }

  /**
   `_processDestroyQueue`: nothing to do for an empty queue; otherwise the queue is
   emptied, the snapshot torn down, the pass repeated while teardown queued more, and
   the query cache cleared.
   */
  function Flush(w: World): (r: World)
    ensures r.queue == []
    ensures w.queue == [] ==> r == w
    ensures w.queue != [] ==> r.dirty && r.cache == map[]
    ensures r.entities.Keys <= w.entities.Keys
    ensures forall id :: id in w.queue ==> id !in r.entities
    ensures r.systems == w.systems && r.counter == w.counter
    decreases |Live(w)|
  {
    if |w.queue| == 0 then w
    else
      var w0 := w.(queue := []);
      assert Live(w0) == Live(w);
      var w1 := Batch(w0, w.queue);
      var w2 := if |w1.queue| > 0 then Flush(w1) else w1;
      MarkDirty(w2)
  }

  /** Every entity still registered belongs to this world. */
  predicate InWorld(w: World) {
    forall id :: id in w.entities ==> w.entities[id].hasWorld
  }

  /** Every registered entity marked destroyed awaits teardown: in `rest` or in the queue. */
  predicate Pending(w: World, rest: seq<nat>) {
    forall id :: id in w.entities && w.entities[id].destroyed ==> id in rest || id in w.queue
  }

  /** Tearing down the head of the snapshot keeps every marked entity awaiting teardown. */
  lemma TearDownPending(w: World, snapshot: seq<nat>)
    requires |snapshot| > 0 && Pending(w, snapshot) && InWorld(w)
    ensures Pending(TearDown(w, snapshot[0]), snapshot[1..]) && InWorld(TearDown(w, snapshot[0]))
  {
    var id := snapshot[0];
    if id in w.entities {
      var children := if id in w.transforms then w.transforms[id].children else [];
      var w1 := w.(entities := w.entities - {id}, order := RemoveFirst(w.order, id));
      var w2 := DestroyAll(w1, Reverse(children));
      DestroyAllQueuesLive(w1, Reverse(children));
      var r := TearDown(w, id);
      assert r.entities == w2.entities && r.queue == w2.queue;
      forall x | x in r.entities && r.entities[x].destroyed ensures x in snapshot[1..] || x in r.queue {
        assert x != id && x in w1.entities;
        if !w1.entities[x].destroyed {
          assert x in Reverse(children) && x in Live(w1);
        } else {
          assert x in snapshot || x in w.queue;
          if x in snapshot { assert x in snapshot[1..]; }
        }
      }
    }
  }

  /** A whole pass leaves every marked entity in the queue for the next pass. */
  lemma {:induction false} BatchPending(w: World, snapshot: seq<nat>)
    requires Pending(w, snapshot) && InWorld(w)
    ensures Pending(Batch(w, snapshot), []) && InWorld(Batch(w, snapshot))
    decreases |snapshot|
  {
    if |snapshot| > 0 {
      TearDownPending(w, snapshot);
      BatchPending(TearDown(w, snapshot[0]), snapshot[1..]);
    }
  }

  /**
   When every marked entity is queued, the flush leaves no marked entity registered:
   destruction requested during teardown (of children) is carried out in the same flush.
   */
  lemma {:induction false} FlushClears(w: World)
    requires Pending(w, []) && InWorld(w)
    ensures forall id :: id in Flush(w).entities ==> !Flush(w).entities[id].destroyed
    ensures InWorld(Flush(w))
    decreases |Live(w)|
  {
    if |w.queue| > 0 {
      var w0 := w.(queue := []);
      assert Live(w0) == Live(w);
      var w1 := Batch(w0, w.queue);
      BatchPending(w0, w.queue);
      if |w1.queue| > 0 {
        FlushClears(w1);
      }
    }
  }

  /** The teardown of a registered entity marks each of its children that was live, and queues it. */
  lemma TearDownMarksChildren(w: World, id: nat)
    requires id in w.entities && id in w.transforms && InWorld(w)
    ensures forall c :: c in w.transforms[id].children && c in Live(w) && c != id ==>
      c in TearDown(w, id).entities && TearDown(w, id).entities[c].destroyed && c in TearDown(w, id).queue
  {
    var children := w.transforms[id].children;
    var w1 := w.(entities := w.entities - {id}, order := RemoveFirst(w.order, id));
    DestroyAllQueuesLive(w1, Reverse(children));
    var r := TearDown(w, id);
    assert r.entities == DestroyAll(w1, Reverse(children)).entities;
    assert r.queue == DestroyAll(w1, Reverse(children)).queue;
    ReverseMembers(children);
    forall c | c in children && c in Live(w) && c != id
      ensures c in r.entities && r.entities[c].destroyed && c in r.queue
    {
      assert c in Reverse(children) && c in Live(w1);
    }
  }

  /** With a consistent hierarchy, the torn-down entity's parent no longer lists it. */
  lemma TearDownLeavesParent(w: World, id: nat, p: nat)
    requires id in w.entities && id in w.transforms && Transform.Consistent(w.transforms)
    requires w.transforms[id].parent == Some(p) && p in w.transforms && p != id
    ensures p in TearDown(w, id).transforms && id !in TearDown(w, id).transforms[p].children
  {
    var w1 := w.(entities := w.entities - {id}, order := RemoveFirst(w.order, id));
    var w2 := DestroyAll(w1, Reverse(w.transforms[id].children));
    assert w2.transforms == w.transforms;
    var w3 := RemoveChild(w2, p, id);
    assert w3.transforms == Transform.SetParent(w.transforms, id, None);
    Transform.SetParentConsistent(w.transforms, id, None);
    assert TearDown(w, id).transforms == w3.transforms - {id};
  }
}
