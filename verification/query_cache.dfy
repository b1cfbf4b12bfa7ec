/**
 The query cache as evidently intended: a recomputed answer is stored and the cache is
 marked clean, so later queries are answered from it until the next mutation. For that
 to be sound, marking an entity for destruction must invalidate the cache too, since
 queries skip marked entities.
 */
module QueryCache {
  import opened Seqs
  import opened World
  import WorldDestroy
  import WorldUpdate

  /** Every cached answer is the one a recomputation would give. */
  ghost predicate Coherent(w: World) {
    forall k :: k in w.cache ==> w.cache[k] == Matching(w, k)
  }

  /** `Query` with the cache marked clean once an answer is stored. */
  function CachedQuery(w: World, ids: seq<string>): (r: (World, seq<nat>))
    ensures |ids| == 0 ==> r == (w, [])
    ensures |ids| > 0 ==> !r.0.dirty && multiset(ids) in r.0.cache && r.0.cache[multiset(ids)] == r.1
    ensures r.0.entities == w.entities && r.0.order == w.order && r.0.queue == w.queue
    ensures r.0.transforms == w.transforms && r.0.systems == w.systems && r.0.counter == w.counter
  {
    if |ids| == 0 then (w, [])
    else
      var key := multiset(ids);
      if !w.dirty && key in w.cache then (w, w.cache[key])
      else
        var result := Matching(w, key);
        (w.(cache := w.cache[key := result], dirty := false), result)
  }

  /** On a coherent world the cached query answers as the recomputation does, and stays coherent. */
  lemma CachedQueryCorrect(w: World, ids: seq<string>)
    requires Coherent(w)
    ensures |ids| > 0 ==> CachedQuery(w, ids).1 == Matching(w, multiset(ids))
    ensures Coherent(CachedQuery(w, ids).0)
  {
  }

  /** `Destroy`, invalidating the cache whenever it marks an entity. */
  function DestroyMarked(w: World, id: nat): (r: World)
    ensures id in w.entities && !w.entities[id].destroyed ==>
      r.dirty && r.cache == map[] && r.entities == DestroyEntity(w, id).entities
    ensures !(id in w.entities && !w.entities[id].destroyed) ==> r == w
    ensures r.queue == DestroyEntity(w, id).queue
  {
    if id in w.entities && !w.entities[id].destroyed then MarkDirty(DestroyEntity(w, id)) else w
  }

  /** `_refreshSystemEntities` over the cached query. */
  function CachedRefresh(w: World, i: nat): (r: World)
    requires i < |w.systems|
    ensures |r.systems| == |w.systems| && r.entities == w.entities && r.order == w.order
  {
    var s := w.systems[i];
    if s.query.None? || |s.query.value| == 0 then w.(systems := w.systems[i := s.(entities := [])])
    else
      var q := CachedQuery(w, s.query.value);
      q.0.(systems := w.systems[i := s.(entities := q.1)])
  }

  /** The system phase over the cached query. */
  function CachedRunSystems(w: World, i: nat): (r: World)
    requires i <= |w.systems|
    ensures |r.systems| == |w.systems| && r.entities == w.entities && r.order == w.order
    decreases |w.systems| - i
  {
    if i == |w.systems| then w else CachedRunSystems(CachedRefresh(w, i), i + 1)
  }

  /** One refresh through the cache gives the system what a recomputation gives, and keeps coherence. */
  lemma CachedRefreshCorrect(w: World, i: nat)
    requires i < |w.systems| && Coherent(w)
    ensures Coherent(CachedRefresh(w, i))
    ensures CachedRefresh(w, i).systems[i] == w.systems[i].(entities := WorldUpdate.View(w, w.systems[i]))
    ensures forall k :: 0 <= k < |w.systems| && k != i ==> CachedRefresh(w, i).systems[k] == w.systems[k]
  {
    var s := w.systems[i];
    if s.query.Some? && |s.query.value| > 0 {
      CachedQueryCorrect(w, s.query.value);
    }
  }

  /** Systems refreshed through the cache see exactly what a recomputation gives. */
  lemma {:induction false} CachedRunSystemsCorrect(w: World, i: nat)
    requires i <= |w.systems| && Coherent(w)
    ensures Coherent(CachedRunSystems(w, i))
    ensures forall k :: i <= k < |w.systems| ==>
      CachedRunSystems(w, i).systems[k] == w.systems[k].(entities := WorldUpdate.View(w, w.systems[k]))
    ensures forall k :: 0 <= k < i ==> CachedRunSystems(w, i).systems[k] == w.systems[k]
    decreases |w.systems| - i
  {
    if i < |w.systems| {
      var w1 := CachedRefresh(w, i);
      CachedRefreshCorrect(w, i);
      CachedRunSystemsCorrect(w1, i + 1);
      var r := CachedRunSystems(w, i);
      assert r == CachedRunSystems(w1, i + 1);
      forall k | i <= k < |w.systems|
        ensures r.systems[k] == w.systems[k].(entities := WorldUpdate.View(w, w.systems[k]))
      {
        if k > i {
          assert w1.systems[k] == w.systems[k];
          assert WorldUpdate.View(w1, w1.systems[k]) == WorldUpdate.View(w, w.systems[k]);
        }
      }
    }
  }

  /** The mutations that change what a query sees all leave the cache coherent. */
  lemma MutationsCoherent(w: World)
    ensures forall tag :: Coherent(CreateEntity(w, tag).0)
    ensures forall id :: Coherent(w) ==> Coherent(DestroyMarked(w, id))
    ensures forall id, c :: id in w.entities && Coherent(w) ==> Coherent(AddComponent(w, id, c).0)
    ensures forall id, c :: id in w.entities && Coherent(w) ==> Coherent(RemoveComponent(w, id, c))
    ensures forall id, a :: id in w.entities && Coherent(w) ==> Coherent(SetActive(w, id, a))
    ensures Coherent(w) ==> Coherent(WorldDestroy.Flush(w))
  {
  }

  /** Changes to the hierarchy and the systems do not affect what a query sees. */
  lemma OthersCoherent(w: World)
    requires Coherent(w)
    ensures forall id, p :: Coherent(SetParent(w, id, p))
    ensures forall id, c :: Coherent(AddChild(w, id, c)) && Coherent(RemoveChild(w, id, c))
    ensures forall s :: Coherent(AddSystem(w, s))
    ensures forall h :: Coherent(RemoveSystem(w, h).0)
  {
  }

  /**
   Marking an entity without invalidating, as the entity's `Destroy` does, breaks the
   corrected cache: a query answered before still lists the marked entity afterwards.
   */
  lemma DestroyWithoutInvalidating()
    ensures var w := CreateEntity(Empty(), Wrappers.None).0;
      var w1 := CachedQuery(w, [Components.TransformId]).0;
      var w2 := DestroyEntity(w1, 1);
      CachedQuery(w2, [Components.TransformId]).1 == [1] &&
      Matching(w2, multiset([Components.TransformId])) == [] &&
      Coherent(w1) && !Coherent(w2)
  {
    var w := CreateEntity(Empty(), Wrappers.None).0;
    var key := multiset([Components.TransformId]);
    assert w.order == [1];
    assert Matching(w, key) == Filter([1], id => id in w.entities && w.entities[id].active && !w.entities[id].destroyed &&
                                               forall c :: c in key ==> c in w.entities[id].components);
    assert Matching(w, key) == [1];
    var w1 := CachedQuery(w, [Components.TransformId]).0;
    assert w1.cache == map[key := [1]];
    var w2 := DestroyEntity(w1, 1);
    assert w2.entities[1].destroyed;
    assert Matching(w2, key) == [];
    assert w2.cache[key] == [1];
  }
}
