# A Dafny model of a small JavaScript ECS runtime and its brick/tower-defence game

The modelled program is a small Entity-Component-System runtime for a 2D arcade game. A `World` owns entities and an ordered list of systems. Each entity holds at most one component per type id and always has a `Transform`, and a `Transform` may have a parent. An event bus publishes messages by topic. The world runs a fixed frame order: component `OnUpdate` hooks, then each system with its refreshed query, then a deferred and cascading destroy flush. On top of the runtime sit a swept-collision physics system, a touch-gesture input system, and the rules of a brick-breaker / tower-defence game:
- the ring of walls and bricks;
- ball embedding repair and the win latch;
- draggable multi-cell pieces that snap to the grid and leave phantom bricks;
- monsters that spawn on timers and walk piecewise-linear lanes;
- bullets that chase the frontmost monster;
- a base that takes damage;
- a game-state record.

The model is functional. The world is an immutable record:
- an entity map and the ordered id list;
- the `Transform` hierarchy;
- the system list;
- the destroy queue;
- the query cache and its dirty flag;
- the id counter;
- the event bus, a map from topic to listener sequence.

Every operation is a pure function or a method from one state to the next. Component state is a `Data` variant, so factories and game systems read and write it through the world. Coordinates are `real`. The square root, `Math.random` and cos/sin are parameters: lemmas that need the square-root law require `Reals.IsSqrt`. `Math.round` is `Floor(x + 1/2)`.

Modules follow the source files:
- `Seqs`, `Reals` and `Wrappers` are shared helpers.
- `EventBus`, `Components`, `Entity`, `Transform`, `Colliders` and `Render` model the component records and the framework core.
- `World`, `WorldDestroy`, `WorldUpdate`, `WorldInvariant` and `QueryCache` model the World.
- `Sweep`, `Physics` and `PhysicsWorld` model the physics system.
- `Input` models the touch system.
- `Scene` and `Factories` hold typed component access and entity construction.
- The remaining modules follow the game's files: `BrickComponent`, `BrickLayout`, `BrickGame`, `BrickGameSystem`, `Embedding`, `CharacterComponent`, `CharacterDefs`, `CharacterSystem`, `MonsterDefs`, `MonsterComponent`, `MonsterSystem`, `PathSystem`, `BulletComponent`, `BulletSystem`, `BaseComponent`, `BaseSystem` and `GameState`.

`World.Query` keeps a per-key cache (World.js:225-247) that is meant to answer between structural changes. The code never reads it, because the dirty flag is never cleared (see Findings). The model follows the code, and `Query` always recomputes its answer from the world's current structure.

## Model

| member | source | states |
|---|---|---|
| Seqs.RemoveFirst | game/js/framework/core/World.js:298-301 | removing the first occurrence of an id (the `indexOf` + `splice` idiom) drops exactly one element when the id is present, keeps every other element, and changes nothing when it is absent |
| Seqs.RemoveFirstNoDup | game/js/framework/components/Transform.js:73-81 | on a duplicate-free list, removing an id leaves the list duplicate-free and the id no longer in it |
| Seqs.RemoveFirstAppended | game/js/framework/components/Transform.js:83-91 | removing an id that was just pushed onto a list that did not hold it gives the original list back |
| Seqs.Reverse | game/js/framework/core/Entity.js:218-221 | the children are visited from the last to the first: element `i` of the result is element `n-1-i` of the input |
| Transform.New | game/js/framework/components/Transform.js:19-37 | a new transform has no parent and no children; a given x, y, rotation, scaleX or scaleY is kept; missing x, y and rotation default to 0 and missing scaleX and scaleY default to 1 |
| Transform.WorldPosOfRoot | game/js/framework/components/Transform.js:43-65 | a transform without a parent in the hierarchy sits at its own local position |
| Transform.WorldPosOfChild | game/js/framework/components/Transform.js:43-65 | a child's world position is its parent's world position plus its local offset |
| Transform.FuelIrrelevant | game/js/framework/components/Transform.js:43-65 | on an acyclic hierarchy the world position does not depend on the recursion bound once the bound exceeds the node's depth |
| Transform.Unlink | game/js/framework/components/Transform.js:73-81 | detaching a child removes it from the children of its old parent only; positions, scales, rotations and parents are untouched |
| Transform.Link | game/js/framework/components/Transform.js:83-91 | attaching sets the child's parent and appends the child to the new parent's children unless it is already listed; no other node changes |
| Transform.SetParent | game/js/framework/components/Transform.js:71-92 | after re-parenting, the child's parent is the new one and the new parent lists the child; only the old and new parents' child lists change |
| Transform.SetParentClosed | game/js/framework/components/Transform.js:71-92 | re-parenting lists no Transform that was not in the hierarchy, so child lists keep naming live Transforms only |
| Transform.SetParentConsistent | game/js/framework/components/Transform.js:71-92 | re-parenting keeps the hierarchy consistent (every child list duplicate-free and agreeing with the parent links) and leaves the child listed under no other node |
| Transform.UnlinkClears | game/js/framework/components/Transform.js:73-81 | on a consistent hierarchy, unlinking leaves the child in no child list and every other membership as it was |
| Transform.LinkConsistent | game/js/framework/components/Transform.js:83-91 | linking an unlinked child gives a consistent hierarchy again |
| Transform.AddChild | game/js/framework/components/Transform.js:98-103 | adding a child makes `self` its parent and lists it among `self`'s children |
| Transform.RemoveChild | game/js/framework/components/Transform.js:109-114 | removing a child clears its parent only when `self` is that parent, and otherwise does nothing |
| Transform.RemoveChildUndoesAddChild | game/js/framework/components/Transform.js:98-114 | on a consistent hierarchy, adding a parentless child and then removing it restores the hierarchy exactly |
| Colliders.NewBox | game/js/framework/components/BoxCollider.js:18-29 | a box collider keeps the given size and offsets, and defaults to 32 by 32 with zero offset |
| Colliders.GetBounds | game/js/framework/components/BoxCollider.js:35-50 | the bounds are as wide and tall as the box and centred on the world position plus the offset; without a transform they are all zero |
| Colliders.NewCircle | game/js/framework/components/CircleCollider.js:17-26 | a circle collider keeps the given radius and offsets, and defaults to radius 16 with zero offset |
| Colliders.GetCenter | game/js/framework/components/CircleCollider.js:32-41 | the centre is the world position shifted by the offset, or the origin without a transform |
| Colliders.NewBody | game/js/framework/components/RigidBody.js:18-27 | a rigid body keeps the given velocity and bounce, and otherwise starts at rest with bounce 1 |
| Colliders.SetVelocity | game/js/framework/components/RigidBody.js:34-37 | setting the velocity replaces both components and keeps the bounce |
| Colliders.SetVelocityFromAngle | game/js/framework/components/RigidBody.js:44-47 | for a unit direction, the squared length of the new velocity is the squared speed |
| Colliders.SpeedLaw | game/js/framework/components/RigidBody.js:53-55 | the speed is non-negative, squares to the squared velocity length, and is zero exactly when the body is at rest |
| Colliders.SpeedOfVelocity | game/js/framework/components/RigidBody.js:53-55 | a velocity of squared length `s*s` has speed `s` |
| Colliders.SpeedFromAngle | game/js/framework/components/RigidBody.js:44-55 | a velocity set from a unit direction and a speed reads back that speed |
| Render.OrString | game/js/framework/components/SpriteRenderer.js:23-42 | a missing or empty string option falls back to the default, as JavaScript's or-default idiom does |
| Render.NewSprite | game/js/framework/components/SpriteRenderer.js:23-42 | every given option is kept (a colour only when non-empty); otherwise a sprite is a visible white 32 by 32 rectangle with radius 16, no border colour and border width 1 |
| Render.NewTexture | game/js/framework/components/TextureRenderer.js:29-47 | a texture renderer defaults to a visible 32 by 32 image with zero offset |
| Render.NewTouch | game/js/framework/components/TouchHandler.js:25-49 | a touch handler defaults to enabled, not draggable, swallowing touches, with drag threshold 5 |
| Components.New | game/js/framework/core/Component.js:11-18 | a fresh component belongs to no entity, is not initialised and is not on the update list |
| Components.Emit | game/js/framework/core/Component.js:55-59 | a component emits on the world's bus only when attached to an entity in a world, and otherwise reaches nobody |
| Components.On | game/js/framework/core/Component.js:67-71 | subscribing through a component appends the listener to the event's list on the world's bus only when attached to a world; other events' lists never change |
| Components.Off | game/js/framework/core/Component.js:79-83 | when attached to a world, unsubscribing through a component leaves the event's list with exactly the non-matching listeners, in their order and multiplicity; other events' lists never change |
| Components.ComponentOffUndoesOn | game/js/framework/core/Component.js:67-83 | a fresh subscription made through a component and then removed leaves the bus as it was |
| Entity.New | game/js/framework/core/Entity.js:14-30 | a new entity is active, in a world, not destroyed, with no components and an empty tag by default |
| Entity.AddComponent | game/js/framework/core/Entity.js:39-79 | a component is attached exactly when it has an id, the id is not taken and no second renderer would result; a taken id returns the existing component; an attached component is bound to the entity, initialised, and on the update list iff it overrides OnUpdate |
| Entity.RemoveComponent | game/js/framework/core/Entity.js:85-112 | removing deletes the component, unbinds it and drops it from the update list; the Transform and unknown ids are refused with nothing removed |
| Entity.GetComponent | game/js/framework/core/Entity.js:119-130 | a component is found exactly when its id is attached |
| Entity.SetActive | game/js/framework/core/Entity.js:191-198 | the flag is set and the query cache is invalidated exactly when the flag changes |
| Entity.Destroy | game/js/framework/core/Entity.js:203-210 | destroy marks the entity and schedules it exactly when it was alive and in a world |
| Entity.DestroyIdempotent | game/js/framework/core/Entity.js:203-210 | destroying twice changes nothing the second time and schedules nothing |
| Entity.AddComponentValid | game/js/framework/core/Entity.js:39-79 | adding a component that carries the update flag only if it overrides OnUpdate keeps the entity well-formed: the update list holds exactly the attached components that override OnUpdate, once each |
| Entity.RemoveComponentValid | game/js/framework/core/Entity.js:85-112 | removing keeps the entity well-formed |
| Entity.RemoveUndoesAdd | game/js/framework/core/Entity.js:39-112 | removing a component that was just added restores the entity exactly |
| EventBus.Empty | game/js/framework/core/EventBus.js:7-10 | a new bus has no events |
| EventBus.On | game/js/framework/core/EventBus.js:18-23 | subscribing appends one listener to the event's list and leaves every other event alone |
| EventBus.RemoveMatching | game/js/framework/core/EventBus.js:31-43 | the backward removal loop removes exactly the listeners matching the callback (and the context, when given) and keeps the others in order |
| EventBus.WithoutMembers | game/js/framework/core/EventBus.js:31-43 | a listener survives removal exactly when it does not match |
| EventBus.Off | game/js/framework/core/EventBus.js:31-43 | unsubscribing leaves the event's list with exactly the non-matching listeners, in their order and multiplicity, deletes an emptied event, and leaves other events alone |
| EventBus.Emit | game/js/framework/core/EventBus.js:50-63 | an event nobody listens to reaches nobody; a listened-to event has a non-empty snapshot |
| EventBus.Dispatch | game/js/framework/core/EventBus.js:50-63 | the listeners called are exactly those registered when the event was emitted, in order, whatever the callbacks do to the table |
| EventBus.OffDuringDispatch | game/js/framework/core/EventBus.js:50-63 | a listener that an earlier callback of the same emit unregisters is still called, and is gone from the table afterwards |
| EventBus.Clear | game/js/framework/core/EventBus.js:68-70 | after clearing, no event reaches anybody |
| EventBus.OffUndoesOn | game/js/framework/core/EventBus.js:18-43 | subscribing a new callback and then unsubscribing it restores the bus exactly |
| World.NewSystem | game/js/framework/core/System.js:15-20 | a new system is attached to no world and has an empty entity list |
| World.SystemEmit | game/js/framework/core/System.js:40-44 | a system emits on the world's bus only while it is attached to a world |
| World.SystemOn | game/js/framework/core/System.js:52-56 | a system subscribes on the world's bus only while attached |
| World.SystemOff | game/js/framework/core/System.js:64-68 | a system unsubscribes on the world's bus only while attached |
| World.SystemOffUndoesOn | game/js/framework/core/System.js:52-68 | an attached system that subscribes a new callback and unsubscribes it leaves the world as it was |
| World.Empty | game/js/framework/core/World.js:11-40 | a new world has no entities, no systems, an empty destroy queue and a query cache marked dirty |
| World.MarkDirty | game/js/framework/core/World.js:267-270 | invalidation sets the dirty flag and empties the cache, touching nothing else |
| World.CreatedTransform | game/js/framework/core/World.js:121-126 | the default Transform is bound to the new entity and initialised, and it is not on the update list |
| World.CreateEntity | game/js/framework/core/World.js:118-133 | the new entity takes the next id, holds exactly its Transform at the origin, is appended to the creation order and invalidates the cache; systems, queue and bus are untouched |
| World.GetEntity | game/js/framework/core/World.js:153-155 | an entity is found exactly when its id is registered |
| World.GetEntitiesByTagMembers | game/js/framework/core/World.js:162-171 | the answer holds exactly the registered entities with that tag that are active and not marked destroyed |
| World.DestroyEntity | game/js/framework/core/World.js:139-146 | destroying a registered live entity marks it and appends it to the destroy queue when it is in a world; an unknown or already marked id changes nothing |
| World.AddComponent | game/js/framework/core/Entity.js:39-79 | the world changes, and the cache is invalidated, exactly when the entity accepts the component |
| World.RemoveComponent | game/js/framework/core/Entity.js:85-112 | the world changes, and the cache is invalidated, exactly when a component was detached |
| World.SetActive | game/js/framework/core/Entity.js:191-198 | the entity's flag is set; the cache is invalidated when the flag changes, and an unchanged flag changes nothing |
| World.SetParent | game/js/framework/core/Entity.js:138-143 | an entity's parent is changed through its Transform; without a Transform nothing changes |
| World.GetParent | game/js/framework/core/Entity.js:149-152 | an entity's parent is the one its Transform records, and none without a Transform |
| World.AddChild | game/js/framework/core/Entity.js:158-163 | after adding, the child's parent is the entity; with either Transform missing nothing changes |
| World.RemoveChild | game/js/framework/core/Entity.js:169-174 | a child of this entity loses its parent; anything else leaves the world as it was, and the registry, systems and cache never change |
| World.GetChildren | game/js/framework/core/Entity.js:180-183 | an entity's children are those its Transform lists, and none without a Transform |
| World.AddSystem | game/js/framework/core/World.js:180-185 | the system is attached and appended after the existing systems; the world's other fields are untouched, and the system's `OnInit` is applied by the caller |
| World.IndexOfSystem | game/js/framework/core/World.js:192 | the index found is the first system with that handle, and none is found only when no system has it |
| World.RemoveSystem | game/js/framework/core/World.js:191-199 | the first system with that handle is spliced out and returned detached with an empty entity list, its `OnDispose` applied by the caller; an unknown handle changes nothing |
| World.FirstSystem | game/js/framework/core/World.js:206-213 | the system returned is the first registered with that id, and none is returned only when no system has it |
| World.GetSystem | game/js/framework/core/World.js:206-213 | the system returned is registered, carries the id asked for and precedes every other with that id |
| World.ComponentOf | game/js/framework/core/World.js:153-155 | a component is found exactly when the entity is registered and holds it |
| World.PositionOf | game/js/framework/components/Transform.js:43-65 | an entity has a world position exactly when it has a Transform, and that position is the hierarchy's |
| World.Query | game/js/framework/core/World.js:222-249 | an empty id list gives nothing; otherwise the answer is recomputed and stored under the sorted key, since the cache is always dirty |
| World.QueryOne | game/js/framework/core/World.js:256-259 | the answer is the first entity `Query` returns, and none exactly when `Query` returns none |
| World.MatchingSpec | game/js/framework/core/World.js:231-245 | the recomputed answer holds exactly the entities in creation order that are active, not marked destroyed and hold every asked-for component, once each |
| World.QueryOrderIrrelevant | game/js/framework/core/World.js:225 | the order of the asked-for ids does not change the answer, because the key is sorted |
| World.RefreshSystemEntities | game/js/framework/core/World.js:320-327 | a system without a query gets an empty entity list, a system with one gets the query's answer, and no other system or entity changes |
| WorldDestroy.DestroyEntityShrinks | game/js/framework/core/Entity.js:203-210 | marking an entity queues at most that entity and removes it from the live set, so the queue plus the live set never grows |
| WorldDestroy.DestroyAll | game/js/framework/core/Entity.js:218-221 | destroying a list of entities marks exactly the listed registered ones and changes nothing else but the queue |
| WorldDestroy.DestroyAllQueuesListed | game/js/framework/core/Entity.js:218-221 | what destroying a list adds to the queue are listed entities that were live and in a world |
| WorldDestroy.DestroyAllQueue | game/js/framework/core/Entity.js:218-221 | after destroying a list, an id is queued exactly when it was queued before or was listed, live and in a world |
| WorldDestroy.DestroyAllQueuesLive | game/js/framework/core/Entity.js:218-221 | every listed entity that was live and in a world ends up queued |
| WorldDestroy.UnregisterShrinks | game/js/framework/core/World.js:297-301 | unregistering an entity removes exactly it from the live set |
| WorldDestroy.TearDown | game/js/framework/core/Entity.js:216-240 | tearing down a registered entity unregisters it and drops its Transform; an unknown id changes nothing; systems, counter and cache are untouched |
| WorldDestroy.TearDownMarksChildren | game/js/framework/core/Entity.js:218-221 | tearing down an entity marks and queues each of its live children |
| WorldDestroy.TearDownLeavesParent | game/js/framework/core/Entity.js:224-227 | on a consistent hierarchy (which every reachable world has, see `WorldInvariant.Hier`), after teardown the parent no longer lists the entity among its children |
| WorldDestroy.Batch | game/js/framework/core/World.js:292-305 | processing a snapshot unregisters every entity in it and leaves systems, counter and dirty flag alone |
| WorldDestroy.Flush | game/js/framework/core/World.js:285-313 | after a flush the queue is empty and every entity that was queued is gone; an empty queue changes nothing, a non-empty one invalidates the cache |
| WorldDestroy.TearDownPending | game/js/framework/core/World.js:292-305 | tearing down the head of the snapshot keeps every marked entity awaiting teardown |
| WorldDestroy.BatchPending | game/js/framework/core/World.js:292-305 | after a batch every marked entity still registered is in the queue |
| WorldDestroy.FlushClears | game/js/framework/core/World.js:285-313 | after a complete flush no registered entity is marked destroyed |
| WorldUpdate.EntityCalls | game/js/framework/core/World.js:93-96 | one `OnUpdate` call per updatable component of the entity, in list order, each with the frame's `dt` |
| WorldUpdate.ComponentCallsSpec | game/js/framework/core/World.js:90-97 | the component phase calls exactly the updatable components of the active, unmarked entities |
| WorldUpdate.RunSystems | game/js/framework/core/World.js:100-105 | the system phase calls each remaining system once and changes no entity, queue or counter |
| WorldUpdate.RunSystemsSpec | game/js/framework/core/World.js:100-105 | each system from the `i`-th on is refreshed with its query's answer and then called with that list, in registration order |
| WorldUpdate.Refreshed | game/js/framework/core/World.js:103 | refreshing one system sets its list to its view and leaves the other systems and every view alone |
| WorldUpdate.RunSystemsStep | game/js/framework/core/World.js:100-105 | the system phase is one refresh and call followed by the phase for the later systems |
| WorldUpdate.UpdateSpec | game/js/framework/core/World.js:88-109 | a frame first calls the updatable components of the live entities, then every system in order with its refreshed list, and finally empties the destroy queue so that no queued entity remains |
| WorldInvariant.OkMarked | game/js/framework/core/Entity.js:203-210 | marking an entity destroyed keeps its part of the invariant |
| WorldInvariant.MembersTransfer | game/js/framework/core/World.js:100-105 | a step that only keeps or marks entities keeps each entity's part of the invariant |
| WorldInvariant.EmptyWF | game/js/framework/core/World.js:11-40 | a new world meets the invariant |
| WorldInvariant.CreateEntityWF | game/js/framework/core/World.js:118-133 | creating keeps the invariant and the new id is fresh and larger than every registered id |
| WorldInvariant.CreateEntityKeeps | game/js/framework/core/World.js:118-133 | creating keeps the registry, each entity's invariant and the destroy queue's coverage; the new id exceeds every registered id |
| WorldInvariant.CreateEntityHier | game/js/framework/core/World.js:118-133 | the new entity's Transform joins the hierarchy unlinked and keeps it consistent, because no Transform lists or names the fresh id |
| WorldInvariant.DestroyEntityWF | game/js/framework/core/World.js:139-146 | destroying keeps the invariant: a marked entity is queued |
| WorldInvariant.ReplaceWF | game/js/framework/core/Entity.js:39-112 | replacing an entity by a well-formed version of itself keeps the invariant |
| WorldInvariant.AddComponentWF | game/js/framework/core/Entity.js:39-79 | adding a component keeps the invariant |
| WorldInvariant.RemoveComponentWF | game/js/framework/core/Entity.js:85-112 | removing a component keeps the invariant; the Transform is never removed |
| WorldInvariant.SetActiveWF | game/js/framework/core/Entity.js:191-198 | toggling an entity keeps the invariant |
| WorldInvariant.DestroyAllMembers | game/js/framework/core/Entity.js:218-221 | destroying children keeps each entity's part of the invariant |
| WorldInvariant.TearDownKeeps | game/js/framework/core/Entity.js:216-240 | a teardown keeps the registry and the members' invariant |
| WorldInvariant.TearDownRegistry | game/js/framework/core/World.js:297-301 | a teardown keeps the registry, the order and the Transforms in step |
| WorldInvariant.TearDownMembers | game/js/framework/core/Entity.js:216-240 | a teardown keeps every remaining entity's part of the invariant |
| WorldInvariant.BatchKeeps | game/js/framework/core/World.js:292-305 | processing a snapshot keeps the registry and the members' invariant |
| WorldInvariant.FlushKeeps | game/js/framework/core/World.js:285-313 | a flush keeps the registry and the members' invariant |
| WorldInvariant.FlushWF | game/js/framework/core/World.js:285-313 | a flush keeps the invariant and leaves no registered entity marked destroyed |
| WorldInvariant.TearDownHier | game/js/framework/core/Entity.js:216-240 | a teardown keeps the hierarchy consistent: the entity leaves its parent's list before its Transform is dropped |
| WorldInvariant.BatchHier | game/js/framework/core/World.js:292-305 | processing a snapshot keeps the hierarchy consistent |
| WorldInvariant.FlushHier | game/js/framework/core/World.js:285-313 | a flush keeps the hierarchy consistent |
| WorldInvariant.TearDownUnlisted | game/js/framework/core/Entity.js:224-233 | in a world that keeps the invariant, no Transform left after a teardown lists the torn-down entity |
| WorldInvariant.UpdateWF | game/js/framework/core/World.js:88-109 | a frame keeps the invariant |
| WorldInvariant.ApplyWF | game/js/framework/core/World.js:118-249 | every world operation keeps the invariant: registry, entity invariants, destroy queue coverage and hierarchy consistency |
| WorldInvariant.ApplyEntityWF | game/js/framework/core/World.js:118-146 | every entity operation keeps the invariant |
| WorldInvariant.ApplyStructureWF | game/js/framework/core/World.js:180-249 | every hierarchy, system, query and frame operation keeps the invariant |
| WorldInvariant.ParentWF | game/js/framework/core/Entity.js:138-143 | re-parenting to no parent or to an entity already created keeps the invariant, hierarchy consistency included |
| WorldInvariant.AdoptWF | game/js/framework/core/Entity.js:158-163 | adding a child keeps the invariant, hierarchy consistency included |
| WorldInvariant.DisownWF | game/js/framework/core/Entity.js:169-174 | removing a child keeps the invariant, hierarchy consistency included |
| WorldInvariant.RegisterWF | game/js/framework/core/World.js:180-185 | adding a system keeps the invariant |
| WorldInvariant.UnregisterWF | game/js/framework/core/World.js:191-199 | removing a system keeps the invariant |
| WorldInvariant.AskWF | game/js/framework/core/World.js:222-249 | a query keeps the invariant |
| WorldInvariant.RunWF | game/js/framework/core/World.js:118-249 | any sequence of operations from a well-formed world keeps the invariant |
| WorldInvariant.ApplyKeepsDirty | game/js/framework/core/World.js:35 | no operation ever clears the dirty flag |
| WorldInvariant.ApplyCounter | game/js/framework/core/World.js:118-133 | the id counter never decreases |
| WorldInvariant.RunKeepsDirty | game/js/framework/core/World.js:35 | after any sequence of operations the cache is still marked dirty |
| WorldInvariant.QueryAlwaysRecomputes | game/js/framework/core/World.js:227-229 | after any sequence of operations a query is recomputed: the cache is never read |
| QueryCache.CachedQuery | game/js/framework/core/World.js:222-249 | with the flag cleared after storing, a non-empty query leaves the cache clean and holding its answer, and changes nothing else |
| QueryCache.CachedQueryCorrect | game/js/framework/core/World.js:222-249 | on a coherent cache the cached query answers what a recomputation would, and keeps the cache coherent |
| QueryCache.DestroyMarked | game/js/framework/core/Entity.js:203-210 | destroy that also invalidates the cache when it marks an entity |
| QueryCache.MutationsCoherent | game/js/framework/core/World.js:118-146 | creating, destroying (with invalidation), changing components, toggling and flushing keep the cache coherent |
| QueryCache.OthersCoherent | game/js/framework/core/World.js:180-199 | hierarchy and system operations keep the cache coherent |
| QueryCache.CachedRefresh | game/js/framework/core/World.js:320-327 | refreshing through the cache changes no entity |
| QueryCache.CachedRefreshCorrect | game/js/framework/core/World.js:320-327 | on a coherent cache, refreshing through it gives the system its view, exactly as the uncached refresh does |
| QueryCache.CachedRunSystems | game/js/framework/core/World.js:100-105 | the system phase through the cache changes no entity |
| QueryCache.CachedRunSystemsCorrect | game/js/framework/core/World.js:100-105 | on a coherent cache the system phase hands every system its view, exactly as the uncached phase does |
| QueryCache.DestroyWithoutInvalidating | game/js/framework/core/Entity.js:203-210 | with the cache read when clean, destroying an entity without invalidating leaves a stale answer that still lists it |
| Sweep.RayCircle | game/js/framework/systems/PhysicsSystem.js:311-332 | the entry parameter, when there is one, is non-negative, and a displacement shorter than the threshold never hits |
| Sweep.QuadOfRay | game/js/framework/systems/PhysicsSystem.js:312-319 | the squared distance along the ray minus the squared radius is the quadratic with the coefficients the source computes |
| Sweep.FirstRoot | game/js/framework/systems/PhysicsSystem.js:321-329 | the smaller root is a root, lies on the descending side, and the quadratic is positive before it |
| Sweep.RayCircleContact | game/js/framework/systems/PhysicsSystem.js:311-332 | at the returned parameter the ray touches the circle while moving into it, and at no earlier non-negative parameter is it inside the circle |
| Sweep.UnitNormal | game/js/framework/systems/PhysicsSystem.js:283-285 | dividing a non-zero vector by its length gives a unit normal |
| Sweep.SweepCircleCircle | game/js/framework/systems/PhysicsSystem.js:272-289 | a circle-circle hit lies within the sub-step |
| Sweep.SweepCircleCircleContact | game/js/framework/systems/PhysicsSystem.js:272-289 | at a circle-circle hit the centres are exactly the sum of the radii apart, and the normal is a unit vector facing against the motion |
| Sweep.EarliestSpec | game/js/framework/systems/PhysicsSystem.js:79-102 | the earliest-candidate scan never ends later than its starting best or any candidate that beats the bound, and a replaced best is the first candidate with the smallest parameter |
| Sweep.EarliestFrom | game/js/framework/systems/PhysicsSystem.js:79-102 | the scan's answer is the starting best or one of the candidates |
| Sweep.EdgeCand | game/js/framework/systems/PhysicsSystem.js:177-222 | an edge of the expanded box is hit only when the circle approaches it, at the parameter where the gap closes, and within the edge's span |
| Sweep.CornerCand | game/js/framework/systems/PhysicsSystem.js:233-249 | a corner is hit only at a non-negative parameter |
| Sweep.BoxCandidates | game/js/framework/systems/PhysicsSystem.js:172-249 | the box test weighs exactly eight candidates: four edges and four corners |
| Sweep.SweepCircleBox | game/js/framework/systems/PhysicsSystem.js:165-256 | a circle-box hit lies within the sub-step |
| Sweep.CornerNormal | game/js/framework/systems/PhysicsSystem.js:239-247 | a corner hit's normal is a unit vector facing against the motion |
| Sweep.BoxCandidateNormals | game/js/framework/systems/PhysicsSystem.js:172-249 | every box candidate's normal is a unit vector facing against the motion |
| Sweep.SweepCircleBoxSpec | game/js/framework/systems/PhysicsSystem.js:165-256 | the circle-box hit is no later than any candidate within the sub-step, and its normal is a unit vector facing against the motion |
| Physics.ObstacleHit | game/js/framework/systems/PhysicsSystem.js:79-102 | another active collider is hit only within the sub-step, and the body itself and inactive colliders are skipped |
| Physics.Candidates | game/js/framework/systems/PhysicsSystem.js:79-102 | the search weighs one candidate per obstacle, in obstacle order |
| Physics.FindHitSpec | game/js/framework/systems/PhysicsSystem.js:74-102 | no hit is found exactly when no obstacle is hit; a found hit belongs to an eligible obstacle, is the first with the smallest parameter, is no later than any other hit, and lies within the sub-step |
| Physics.FindHitFirst | game/js/framework/systems/PhysicsSystem.js:84-100 | the strict comparison keeps the first of equally early hits |
| Physics.FindHitLeast | game/js/framework/systems/PhysicsSystem.js:74-102 | the hit found is no later than the hit of any obstacle |
| Physics.FindHitStruck | game/js/framework/systems/PhysicsSystem.js:74-102 | the obstacle named by the hit is another active collider in the snapshot |
| Physics.FindHitNormal | game/js/framework/systems/PhysicsSystem.js:74-102 | the normal of the hit found is a unit vector facing against the motion |
| Physics.ReflectComponents | game/js/framework/systems/PhysicsSystem.js:113-115 | the reflection scales the normal part of the velocity by minus the bounce and keeps the tangential part |
| Physics.ReflectKeepsSpeed | game/js/framework/systems/PhysicsSystem.js:113-115 | with bounce 1 the reflection keeps the speed |
| Physics.ReflectSeparates | game/js/framework/systems/PhysicsSystem.js:113-115 | after reflecting a velocity that moved into the surface, with non-negative bounce, the body no longer moves into it |
| Physics.Bounce | game/js/framework/systems/PhysicsSystem.js:104-130 | a bounce counts one more collision, emits one event naming the body, the obstacle and the normal, reflects the velocity and shrinks the remaining time |
| Physics.Resolve | game/js/framework/systems/PhysicsSystem.js:62-137 | the bounce loop stops at five bounces, emits one event per bounce, names only struck obstacles, and never lets the remaining time grow or go negative |
| Physics.ResolveSettles | game/js/framework/systems/PhysicsSystem.js:62-137 | the loop ends with its time spent, its bounces used up or a negligible move, and only appends events |
| Physics.ResolveKeepsSpeed | game/js/framework/systems/PhysicsSystem.js:62-137 | with bounce 1 the loop ends at the speed it started with |
| Physics.ResolveFree | game/js/framework/systems/PhysicsSystem.js:131-136 | with nothing to hit the loop moves the whole remaining displacement at once and emits nothing |
| Physics.EventsExtend | game/js/framework/systems/PhysicsSystem.js:126-130 | appending an event for a struck obstacle keeps every event naming the body and a struck obstacle |
| Physics.StepBody | game/js/framework/systems/PhysicsSystem.js:36-141 | a body without a circle collider moves freely for the clamped frame time; a nearly still one stays put; at most five collisions are emitted, each naming a struck obstacle; the bounce never changes |
| Physics.StepBodyKeepsSpeed | game/js/framework/systems/PhysicsSystem.js:36-141 | a perfectly elastic body keeps its speed through the step |
| Physics.StepBodyFree | game/js/framework/systems/PhysicsSystem.js:58-141 | a moving circle with nothing to hit moves by its velocity times the clamped frame time |
| PhysicsWorld.BoxObstacleOf | game/js/framework/systems/PhysicsSystem.js:79-82 | a listed box entity becomes an obstacle that counts as active only when the entity is registered and active |
| PhysicsWorld.CircleObstacleOf | game/js/framework/systems/PhysicsSystem.js:92-95 | a listed circle entity becomes an obstacle that counts as active only when the entity is registered and active |
| PhysicsWorld.Obstacles | game/js/framework/systems/PhysicsSystem.js:30-31 | the obstacle snapshot lists the boxes first and then the circles, each in query order |
| PhysicsWorld.StruckListed | game/js/framework/systems/PhysicsSystem.js:79-102 | a struck obstacle is a listed, registered, active entity other than the body |
| PhysicsWorld.StepEntity | game/js/framework/systems/PhysicsSystem.js:33-142 | an inactive or incomplete entity is skipped; otherwise only its Transform and RigidBody change, by the body step, and every event names it and another listed collider |
| PhysicsWorld.StepAll | game/js/framework/systems/PhysicsSystem.js:33-142 | stepping the listed bodies changes only them, and emits at most five events per body, each naming a body and another listed collider |
| PhysicsWorld.Update | game/js/framework/systems/PhysicsSystem.js:25-143 | a physics frame changes only the listed bodies, keeps the registry, and every collision event names a listed body and an entity holding a box or circle collider |
| PhysicsWorld.UpdateFreeBody | game/js/framework/systems/PhysicsSystem.js:41-45 | a body without a circle collider moves by its velocity times the frame time clamped at 0.05, and emits nothing |
| Embedding.Clamp | game/js/games/BrickGame/BrickGameSystem.js:89-90 | clamping lands within the bounds, keeps a value already inside, and snaps a value outside to the nearer bound |
| Embedding.Nearest | game/js/games/BrickGame/BrickGameSystem.js:89-90 | the nearest point lies in the box, and is the centre itself when the centre is inside |
| Embedding.NearestClosest | game/js/games/BrickGame/BrickGameSystem.js:88-94 | no point of the box is closer to the centre than the nearest point |
| Embedding.GapZero | game/js/games/BrickGame/BrickGameSystem.js:94-105 | the squared distance to the box is zero exactly when the centre is inside |
| Embedding.Shortest | game/js/games/BrickGame/BrickGameSystem.js:107-121 | the side chosen needs the smallest push, and ties are broken left, right, top, bottom as the comparison chain does |
| Embedding.InsidePush | game/js/games/BrickGame/BrickGameSystem.js:107-121 | a centre inside the box is pushed out along the chosen side by that side's push plus 0.1 |
| Embedding.PushOut | game/js/games/BrickGame/BrickGameSystem.js:97-122 | a centre inside the box is pushed out of the nearest side; a centre farther than the radius is not moved |
| Embedding.PushOutIff | game/js/games/BrickGame/BrickGameSystem.js:97-122 | a ball is moved exactly when its centre is inside the box or it overlaps the box without its centre being inside |
| Embedding.GrazingPushClears | game/js/games/BrickGame/BrickGameSystem.js:97-104 | an overlapping ball is pushed along the normal to 0.1 beyond contact, with the same nearest point, so it no longer overlaps |
| Embedding.InsidePushClears | game/js/games/BrickGame/BrickGameSystem.js:105-121 | a centre inside the box is pushed out to 0.1 beyond contact, measured from the box |
| Input.Initial | game/js/framework/systems/InputSystem.js:13-40 | the touch tracker starts released, not dragging, with no hit entity and no distance travelled |
| Input.PointIn | game/js/framework/systems/InputSystem.js:264-313 | a box collider decides the hit by its bounds; failing that a circle collider by its disc; failing both only a visible sprite or texture over a Transform can be hit |
| Input.HitTest | game/js/framework/systems/InputSystem.js:245-257 | no entity is hit only when no listed entity is enabled and under the point; otherwise the hit is the last listed such entity, the topmost |
| Input.Press | game/js/framework/systems/InputSystem.js:126-147 | a press records the start point, resets dragging and distance, and either calls the hit entity's enabled down handler or emits a global touch_down |
| Input.Nudge | game/js/framework/systems/InputSystem.js:179-184 | a drag moves the entity's Transform by the touch point's movement and changes nothing else |
| Input.Move | game/js/framework/systems/InputSystem.js:153-198 | a move while released does nothing; otherwise the distance grows by the step length, dragging starts only for an enabled handler once the touch point is at least the threshold from the start, never stops mid-press, and a draggable entity follows the touch point |
| Input.Release | game/js/framework/systems/InputSystem.js:204-235 | a release while pressed ends the press; with a hit entity it calls up and then drag-end or click on an enabled handler; without one it emits touch_up, then click unless a drag happened |
| Input.Process | game/js/framework/systems/InputSystem.js:106-120 | an event of an unknown kind is ignored |
| Input.Drain | game/js/framework/systems/InputSystem.js:94-100 | draining the queue processes the events first to last, collecting their effects in order |
| Input.DrainAppend | game/js/framework/systems/InputSystem.js:94-100 | draining two queues one after the other is draining their concatenation |
| Input.ProcessInv | game/js/framework/systems/InputSystem.js:106-235 | every event keeps the tracker consistent: dragging needs a hit entity and a released tracker has neither |
| Input.DrainInv | game/js/framework/systems/InputSystem.js:94-100 | draining any queue keeps the tracker consistent |
| Input.ReleaseWithoutHitClicks | game/js/framework/systems/InputSystem.js:224-230 | a press that hit nothing and never dragged ends with touch_up followed by click |
| Input.TapClicks | game/js/framework/systems/InputSystem.js:126-235 | a tap on an entity with down, up and click handlers calls exactly down, up, click in that order, ends released and moves nothing |
| Scene.DataOf | game/js/framework/core/Entity.js:119-121 | an entity's component state is found exactly when the entity holds the component |
| Scene.LocalPos | game/js/framework/components/Transform.js:19-37 | an entity has a local position exactly when it has a Transform |
| Scene.Place | game/js/framework/components/Transform.js:19-37 | placing sets the entity's local position and leaves every other entity's position and every component alone |
| Scene.Add | game/js/framework/core/Entity.js:39-79 | an accepted component's state is readable afterwards; a refused one changes nothing; no other component state and no entity flag changes |
| Scene.SetData | game/js/framework/core/Entity.js:119-121 | rewriting a component's state changes exactly that component of that entity |
| Scene.DestroyAll | game/js/framework/core/Entity.js:218-221 | destroying a list marks exactly the listed entities, queues the live ones in a world, and leaves every component state as it was |
| Factories.AddAll | game/js/games/BrickGame/utils/BrickFactory.js:80-94 | attaching a list of components to one entity changes no other entity, no entity flag, and no Transform |
| Factories.AddAllData | game/js/games/BrickGame/utils/BrickFactory.js:80-94 | when the component ids are distinct and new, each listed component's state is readable afterwards and every other component is as before |
| Factories.Fresh | game/js/framework/core/World.js:118-133 | a factory's new entity takes the next id, is appended to the creation order, carries the tag, holds only its Transform, sits at the given position, and changes no other entity |
| Factories.Build | game/js/framework/core/World.js:118-133 | a built entity is new, tagged, placed, holds exactly its Transform and the listed components with their states, and nothing else changes |
| Factories.BuildData | game/js/games/BrickGame/utils/BrickFactory.js:80-94 | each listed component's state is readable on the built entity |
| Factories.BuildAbsent | game/js/games/BrickGame/utils/BrickFactory.js:80-94 | a component not listed is absent from the built entity |
| Factories.BuildFound | game/js/framework/core/World.js:162-171 | a built entity is found by its tag and by any query over its components |
| Factories.BrickFits | game/js/games/BrickGame/utils/BrickFactory.js:80-94 | a brick's three components have distinct ids, none of them the Transform |
| Factories.CreateBrick | game/js/games/BrickGame/utils/BrickFactory.js:68-97 | a brick is destructible with 20 hit points unless told otherwise, is tagged brick or wall accordingly, is coloured green or grey unless given a colour, and has a 32 by 32 box collider |
| Factories.BrickBuilt | game/js/games/BrickGame/utils/BrickFactory.js:80-94 | the built brick carries the given brick state, sprite colour and 32 by 32 box |
| Factories.BrickKeys | game/js/games/BrickGame/utils/BrickFactory.js:80-94 | a brick holds exactly a Transform, a sprite, a box collider and a brick component |
| Factories.BrickFound | game/js/games/BrickGame/utils/BrickFactory.js:68-97 | a new brick is found under its tag and by a query for box collider and brick component |
| Factories.BallFits | game/js/games/BrickGame/utils/BrickFactory.js:36-48 | a ball's three components have distinct ids, none of them the Transform |
| Factories.BallSpeed | game/js/games/BrickGame/utils/BrickFactory.js:25 | a missing or zero speed becomes 200 |
| Factories.CreateBall | game/js/games/BrickGame/utils/BrickFactory.js:24-51 | a ball is tagged ball, has a perfectly elastic body moving in the drawn direction at the given speed and a radius-5 circle collider, and no box collider |
| Factories.BallBuilt | game/js/games/BrickGame/utils/BrickFactory.js:36-48 | the built ball carries the given velocity with bounce 1, a radius-5 circle and no box |
| Factories.BallVelocity | game/js/games/BrickGame/utils/BrickFactory.js:36-40 | for a unit direction the ball's velocity has the given speed |
| Factories.BallSpeedLaw | game/js/games/BrickGame/utils/BrickFactory.js:24-40 | a new ball moves at the requested speed, or 200 without one |
| Factories.CreateBallBuilds | game/js/games/BrickGame/utils/BrickFactory.js:24-51 | a ball is the generic build with the ball's components |
| Factories.CreateMonster | game/js/games/BrickGame/utils/MonsterFactory.js:18-52 | an unknown type creates nothing; a known one creates a monster at the origin with the type's hit points, speed and attack and a circle sprite of the type's radius |
| Factories.CreateBullet | game/js/games/BrickGame/utils/BulletFactory.js:18-40 | a bullet is tagged bullet, placed, carries the given damage at speed 300 and has not yet lived |
| BrickComponent.NewBrick | game/js/games/BrickGame/BrickComponent.js:17-26 | a brick is destructible with 20 hit points by default, and its maximum is its initial hit points |
| BrickComponent.Hit | game/js/games/BrickGame/BrickComponent.js:33-42 | a hit on an indestructible brick changes nothing; otherwise it costs one hit point and destroys the brick exactly when none are left |
| BrickComponent.Color | game/js/games/BrickGame/BrickComponent.js:50-62 | the colour is green above two thirds of the maximum, yellow above one third, and red otherwise |
| BrickComponent.HpColor | game/js/games/BrickGame/BrickComponent.js:54-61 | with a zero maximum the ratio is infinite or undefined, so the brick is green exactly when hit points remain |
| BrickComponent.HitKeepsWorn | game/js/games/BrickGame/BrickComponent.js:33-42 | a surviving destructible brick keeps between 0 and its maximum hit points |
| BrickComponent.Hits | game/js/games/BrickGame/BrickComponent.js:33-42 | k hits cost a destructible brick k hit points and leave an indestructible brick alone |
| BrickComponent.HitsToDestroy | game/js/games/BrickGame/BrickComponent.js:33-42 | a destructible brick is destroyed exactly by its hp-th hit, and an indestructible one never is |
| BrickLayout.Ring | game/js/games/BrickGame/BrickGame.js:43 | the ring is the distance to the nearest edge of the grid |
| BrickLayout.RingZero | game/js/games/BrickGame/BrickGame.js:43-52 | a cell is on the outer ring exactly when it lies on an edge of the grid |
| BrickLayout.SpotsSound | game/js/games/BrickGame/BrickGame.js:41-67 | every cell laid lies in the grid, within the three outer rings, and is a wall exactly on the outer ring |
| BrickLayout.SpotsComplete | game/js/games/BrickGame/BrickGame.js:41-67 | every cell of the three outer rings is laid |
| BrickLayout.SpotsOrdered | game/js/games/BrickGame/BrickGame.js:41-42 | cells are laid row by row, and left to right within a row |
| BrickLayout.SpotsStep | game/js/games/BrickGame/BrickGame.js:41-46 | one grid step lays the cell unless it lies inside the third ring, then continues with the next cell |
| BrickLayout.RowBricksValue | game/js/games/BrickGame/BrickGame.js:41-46 | a row within three of the top or bottom lays all 10 cells, any other row lays 6 |
| BrickLayout.RowWallsValue | game/js/games/BrickGame/BrickGame.js:52-57 | the top and bottom rows are all wall, every other row has a wall at each end |
| BrickLayout.Counts | game/js/games/BrickGame/BrickGame.js:17-67 | the 15 by 10 field lays 114 bricks, 46 of them walls |
| BrickGame.Center | game/js/games/BrickGame/BrickGame.js:49-50 | a cell's centre is the origin plus the cell's offset plus half a cell |
| BrickGame.PlaceBrick | game/js/games/BrickGame/BrickGame.js:52-65 | an outer-ring cell gets an indestructible grey wall at its centre and an inner cell gets a green brick with 20 hit points |
| BrickGame.EachCounts | game/js/games/BrickGame/BrickGame.js:41-67 | laying the cells creates one entity per cell with consecutive ids, in order |
| BrickGame.EachKeeps | game/js/games/BrickGame/BrickGame.js:41-67 | laying the cells changes no existing entity or Transform |
| BrickGame.EachPlaces | game/js/games/BrickGame/BrickGame.js:41-67 | the i-th created entity is the brick of the i-th cell |
| BrickGame.PlaceBricksPlaces | game/js/games/BrickGame/BrickGame.js:41-67 | laying the grid creates exactly one brick per laid cell, in order and at its centre, and keeps existing entities |
| BrickGame.LayBricks | game/js/games/BrickGame/BrickGame.js:41-67 | the bricks of the cells are created in order at consecutive ids, and existing entities are kept |
| BrickGame.Origin | game/js/games/BrickGame/BrickGame.js:37-38 | the field is centred: the margins on either side are equal |
| BrickGame.Middle | game/js/games/BrickGame/BrickGame.js:70-71 | the ball starts at the centre of the screen, half a field from the origin |
| BrickGame.PlaceField | game/js/games/BrickGame/BrickGame.js:32-67 | the game system is added first and its `OnInit` appends its collision listener to the bus (BrickGameSystem.js:21-24), leaving other events alone; then the bricks of the cells are laid, in order |
| BrickGame.Field | game/js/games/BrickGame/BrickGame.js:32-67 | the field holds the 114 bricks of the layout, centred on the screen, after the added game system, whose collision listener is appended to the bus |
| BrickGame.Serve | game/js/games/BrickGame/utils/BrickFactory.js:24-51 | the ball is created after the bricks at the given point, moving at the given speed, and touches nothing else |
| BrickGame.Launch | game/js/games/BrickGame/BrickGame.js:32-72 | a game with any layout adds the system and subscribes its collision listener, lays the bricks, then serves one ball at speed 200 |
| BrickGame.Start | game/js/games/BrickGame/BrickGame.js:32-77 | a new game adds the game system and subscribes its collision listener (and no other), lays the 114 bricks of the layout centred on the screen, and serves one ball from the centre at speed 200; existing entities are kept |
| BrickGameSystem.Init | game/js/games/BrickGame/BrickGameSystem.js:21-24 | an attached game system subscribes its collision handler once |
| BrickGameSystem.Dispose | game/js/games/BrickGame/BrickGameSystem.js:26-28 | disposing removes the collision handler |
| BrickGameSystem.DisposeUndoesInit | game/js/games/BrickGame/BrickGameSystem.js:21-28 | subscribing and then disposing leaves the bus as it was |
| BrickGameSystem.HitBrick | game/js/games/BrickGame/BrickGameSystem.js:40-43 | hitting an entity without a destructible brick changes nothing; otherwise the brick loses a hit point, the entity is destroyed when none remain, and a surviving brick is recoloured by its remaining health |
| BrickGameSystem.OnCollision | game/js/games/BrickGame/BrickGameSystem.js:35-50 | a collision hits the brick of either party, and no other entity's components change |
| BrickGameSystem.HitTimesCounts | game/js/games/BrickGame/BrickGameSystem.js:35-50 | k hits take k hit points and leave the brick destroyed exactly when it was already or its hit points run out |
| BrickGameSystem.Nudge | game/js/games/BrickGame/BrickGameSystem.js:103-120 | a push moves only that entity's Transform |
| BrickGameSystem.PushBall | game/js/games/BrickGame/BrickGameSystem.js:81-123 | the ball alone moves; it stays put when no box needs a push, and a single box pushes it once |
| BrickGameSystem.OneBoxClears | game/js/games/BrickGame/BrickGameSystem.js:81-123 | a ball embedded in an active box is pushed to exactly 0.1 beyond contact with it |
| BrickGameSystem.BallCenter | game/js/games/BrickGame/BrickGameSystem.js:77-78 | the ball's centre is its world position shifted by the collider offset |
| BrickGameSystem.FixBall | game/js/games/BrickGame/BrickGameSystem.js:69-76 | an inactive ball or one without a collider or Transform is left alone, and only the ball moves |
| BrickGameSystem.FixBalls | game/js/games/BrickGame/BrickGameSystem.js:69-124 | only the listed balls move |
| BrickGameSystem.FixEmbedding | game/js/games/BrickGame/BrickGameSystem.js:65-125 | only entities tagged ball move, and no entity, order, system or subscription changes |
| BrickGameSystem.Remaining | game/js/games/BrickGame/BrickGameSystem.js:130-137 | the count of active bricks is zero exactly when none is active and full exactly when all are |
| BrickGameSystem.WonIff | game/js/games/BrickGame/BrickGameSystem.js:130-144 | the game is won exactly when no alive entity is tagged brick |
| BrickGameSystem.Update | game/js/games/BrickGame/BrickGameSystem.js:52-60 | a won game does nothing; otherwise only the balls move, and the win is declared and emitted exactly when no brick is left |
| BrickGameSystem.PlayWinsOnce | game/js/games/BrickGame/BrickGameSystem.js:52-144 | over any run of frames the win is emitted at most once, and never after the game is won |
| BulletComponent.NewBullet | game/js/games/BrickGame/components/BulletComponent.js:17-30 | a bullet carries its damage, moves at 300 unless given a speed, and has not yet lived |
| BulletSystem.Init | game/js/games/BrickGame/systems/BulletSystem.js:32-38 | an attached bullet system subscribes its shoot handler once |
| BulletSystem.Dispose | game/js/games/BrickGame/systems/BulletSystem.js:40-42 | disposing removes the shoot handler |
| BulletSystem.DisposeUndoesInit | game/js/games/BrickGame/systems/BulletSystem.js:32-42 | subscribing and then disposing leaves the bus as it was |
| BulletSystem.FoundBy | game/js/framework/core/World.js:231-245 | a live, active entity holding the asked-for components is found by the query |
| BulletSystem.GoneFromQuery | game/js/framework/core/World.js:234 | an entity marked destroyed is no longer found by any query |
| BulletSystem.OnShootBullet | game/js/games/BrickGame/systems/BulletSystem.js:50-53 | a shoot event creates one new bullet at the given point with the given damage, found among the bullets, and changes no other entity |
| BulletSystem.Listed | game/js/games/BrickGame/systems/BulletSystem.js:64 | every live, active bullet is among the system's bullets |
| BulletSystem.LeadsOnce | game/js/games/BrickGame/systems/BulletSystem.js:128-149 | at most one monster leads the list |
| BulletSystem.FindFrontmost | game/js/games/BrickGame/systems/BulletSystem.js:128-149 | no target is found exactly when no monster is active and alive; otherwise the target is the first monster with the greatest path progress |
| BulletSystem.Course | game/js/games/BrickGame/systems/BulletSystem.js:89-119 | a bullet expires exactly when its lifetime passes 5 seconds, and hits exactly when it has not expired and is closer than 10 to the target |
| BulletSystem.FlightLaw | game/js/games/BrickGame/systems/BulletSystem.js:96-119 | a flying bullet was at least 10 from the target and moves straight toward it by its speed times the frame time |
| BulletSystem.HitOf | game/js/games/BrickGame/systems/BulletSystem.js:101-109 | a bullet contributes one damage, its own, exactly when its course hits |
| BulletSystem.Hits | game/js/games/BrickGame/systems/BulletSystem.js:83-120 | the damages dealt in one frame are at most one per bullet |
| BulletSystem.DamageAllAppend | game/js/games/BrickGame/components/MonsterComponent.js:55-72 | applying two runs of damage in turn is applying their concatenation |
| BulletSystem.Retire | game/js/games/BrickGame/systems/BulletSystem.js:90-92 | a retired bullet is marked destroyed and nothing else changes |
| BulletSystem.Age | game/js/games/BrickGame/systems/BulletSystem.js:89 | ageing a bullet rewrites only its own state |
| BulletSystem.Move | game/js/games/BrickGame/systems/BulletSystem.js:112-119 | moving a bullet rewrites only its position |
| BulletSystem.Strike | game/js/games/BrickGame/systems/BulletSystem.js:101-108 | a strike damages the target, counts a kill and destroys the monster exactly when the damage kills it, and changes nothing else |
| BulletSystem.Wound | game/js/games/BrickGame/systems/BulletSystem.js:89-108 | an aged bullet's hit damages the target and changes no other entity |
| BulletSystem.FlyOn | game/js/games/BrickGame/systems/BulletSystem.js:112-119 | a bullet that neither expired nor hit ages and moves toward the target |
| BulletSystem.Expire | game/js/games/BrickGame/systems/BulletSystem.js:89-93 | a bullet that outlived 5 seconds ages and is destroyed without moving |
| BulletSystem.HitTarget | game/js/games/BrickGame/systems/BulletSystem.js:101-109 | a bullet within 10 of the target ages, damages the monster and is destroyed |
| BulletSystem.Advance | game/js/games/BrickGame/systems/BulletSystem.js:83-120 | one bullet's frame is exactly one of flying on, expiring or hitting, and touches only the bullet and the target |
| BulletSystem.FlyOne | game/js/games/BrickGame/systems/BulletSystem.js:83-120 | the per-bullet frame, taken from the last bullet to the first, leaves each handled bullet advanced and collects its hit |
| BulletSystem.Accrue | game/js/games/BrickGame/systems/BulletSystem.js:101-108 | damage collected in two runs adds up, and a kill in the whole run is a kill in one of them |
| BulletSystem.Chase | game/js/games/BrickGame/systems/BulletSystem.js:83-120 | every bullet advances toward the target, only bullets and the target change, and the target takes the collected damage, dying and counting one kill at most |
| BulletSystem.Update | game/js/games/BrickGame/systems/BulletSystem.js:55-121 | a frame does nothing unless the game is playing with bullets; without a target every bullet is destroyed; otherwise the target is the frontmost monster, every bullet advances toward it and it takes their damage, counting at most one kill |
| BulletSystem.Reset | game/js/games/BrickGame/systems/BulletSystem.js:154-162 | a reset marks every bullet destroyed and changes no component |
| BulletSystem.ResetClears | game/js/games/BrickGame/systems/BulletSystem.js:154-162 | after a reset no bullet is listed |
| MonsterComponent.NewMonster | game/js/games/BrickGame/components/MonsterComponent.js:20-49 | a monster starts moving, at full hit points, at the start of its path and with no attack pending |
| MonsterComponent.TakeDamage | game/js/games/BrickGame/components/MonsterComponent.js:55-72 | damage to a dead monster does nothing; damage that brings hit points to zero or below kills it with zero hit points; lesser damage only subtracts |
| MonsterComponent.KilledAtMostOnce | game/js/games/BrickGame/components/MonsterComponent.js:55-72 | however much damage it takes, a monster is killed at most once, and a dead one never again |
| MonsterDefs.TablesWellFormed | game/js/games/BrickGame/utils/MonsterDefs.js:11-93 | exactly the three named types are defined, each with positive hit points and speed, and every spawn strategy names a defined type |
| MonsterSystem.InitSpawnStates | game/js/games/BrickGame/systems/MonsterSystem.js:56-63 | one spawn state per strategy, in order, waiting out the strategy's delay with the interval timer at zero and not yet started |
| MonsterSystem.TickStrategy | game/js/games/BrickGame/systems/MonsterSystem.js:95-116 | a waiting strategy counts its delay down and starts, with the interval timer at zero, once the delay is spent, never spawning in that tick; a started one counts its interval down and spawns, restarting the interval, once it is spent |
| MonsterSystem.TickWellTimed | game/js/games/BrickGame/systems/MonsterSystem.js:95-116 | the timers stay within their bounds: a started strategy's interval timer never exceeds its interval |
| MonsterSystem.FirstSpawnRightAfterStart | game/js/games/BrickGame/systems/MonsterSystem.js:101-104 | the tick after a strategy starts always spawns its first monster |
| MonsterSystem.Run | game/js/games/BrickGame/systems/MonsterSystem.js:95-116 | n ticks spawn at most n monsters per strategy |
| MonsterSystem.SpawnsWithin | game/js/games/BrickGame/systems/MonsterSystem.js:109-115 | a started strategy whose timer is at most n frame times away spawns within n ticks |
| MonsterSystem.UpdateSpawnStrategies | game/js/games/BrickGame/systems/MonsterSystem.js:88-117 | at 30 or more monsters nothing ticks or spawns; below that every strategy ticks once and fires as its tick says |
| MonsterSystem.CreateMonsterKeeps | game/js/games/BrickGame/utils/MonsterFactory.js:18-52 | creating a monster keeps every existing entity and its components |
| MonsterSystem.NewMonsterEntity | game/js/games/BrickGame/utils/MonsterFactory.js:18-52 | a known type gives a new monster with the next id, as its strategy describes, at the origin |
| MonsterSystem.StandAt | game/js/games/BrickGame/systems/MonsterSystem.js:134-139 | a found start position is written to the Transform, and a missing one changes nothing |
| MonsterSystem.SpawnMonster | game/js/games/BrickGame/systems/MonsterSystem.js:124-142 | without a path system or with an unknown type nothing happens; otherwise one new monster is created and placed at the start of its lane, and no existing entity changes |
| MonsterSystem.Spawned | game/js/games/BrickGame/systems/MonsterSystem.js:95-116 | no more monsters are spawned than strategies fired, and none when none fired |
| MonsterSystem.SpawnAll | game/js/games/BrickGame/systems/MonsterSystem.js:95-116 | firing strategies in order adds one monster per spawn, with fresh consecutive ids, keeping every existing entity |
| MonsterSystem.SpawnNext | game/js/games/BrickGame/systems/MonsterSystem.js:110-115 | one more fired strategy extends the spawned prefix by its monster |
| MonsterSystem.StepMonster | game/js/games/BrickGame/systems/MonsterSystem.js:150-202 | a moving monster advances by speed times dt and, once at the end of its lane, switches to attacking with the timer at one second, standing at the lane's end; an attacking monster strikes for its attack and restarts the timer once the timer runs out; a dead monster does nothing |
| MonsterSystem.StepForward | game/js/games/BrickGame/systems/MonsterSystem.js:150-202 | a monster never goes back from attacking to moving, never dies by stepping, never loses path progress, and keeps its attack timer within one second |
| MonsterSystem.ArrivesAtEnd | game/js/games/BrickGame/systems/MonsterSystem.js:165-175 | a monster reaching the end of its lane stands on the lane's last corner, which is the base's position on the middle lane |
| MonsterSystem.UpdateMonster | game/js/games/BrickGame/systems/MonsterSystem.js:150-156 | an entity without a monster state or a world without a path system is left alone; otherwise the monster steps and only it changes |
| MonsterSystem.BlowOf | game/js/games/BrickGame/systems/MonsterSystem.js:189-200 | a monster strikes the base at most once per frame, exactly when its step says so |
| MonsterSystem.AttacksOf | game/js/games/BrickGame/systems/MonsterSystem.js:77-80 | a frame's strikes are at most one per monster |
| MonsterSystem.AttacksOfFrame | game/js/games/BrickGame/systems/MonsterSystem.js:77-80 | the strikes depend only on the monsters' own states |
| MonsterSystem.UpdateMonsters | game/js/games/BrickGame/systems/MonsterSystem.js:77-80 | every listed monster steps once, their strikes are collected in list order, and nothing else changes |
| MonsterSystem.Strategies | game/js/games/BrickGame/systems/MonsterSystem.js:56-63 | the spawn states keep their strategies in order |
| MonsterSystem.Update | game/js/games/BrickGame/systems/MonsterSystem.js:65-81 | nothing happens unless the game is playing; spawning pauses at 30 monsters and otherwise every strategy ticks; every listed monster steps and the strikes are reported; no entity is lost and no non-monster changes |
| MonsterSystem.Reset | game/js/games/BrickGame/systems/MonsterSystem.js:207-218 | a reset marks every listed monster destroyed, keeps the rest, and restarts the spawn states |
| PathSystem.New | game/js/games/BrickGame/systems/PathSystem.js:19-36 | a new path system is not initialised |
| PathSystem.Offsets | game/js/games/BrickGame/systems/PathSystem.js:76-81 | the three lanes lie a quarter, a half and three quarters of a cell plus 5 outside the field, innermost first |
| PathSystem.Corners | game/js/games/BrickGame/systems/PathSystem.js:94-99 | a lane runs from the top right, over the top left and bottom left, to the bottom right, along axis-parallel sides |
| PathSystem.MeasureLane | game/js/games/BrickGame/systems/PathSystem.js:104-111 | a measured lane's cumulative lengths start at zero and add each side's length, ending at the total |
| PathSystem.CalculateAllPaths | game/js/games/BrickGame/systems/PathSystem.js:65-116 | three measured lanes are built, one per offset |
| PathSystem.Init | game/js/games/BrickGame/systems/PathSystem.js:47-53 | initialising builds and measures the three lanes |
| PathSystem.LaneLengths | game/js/games/BrickGame/systems/PathSystem.js:104-111 | a lane at offset d measures the field's width, then height plus 2d plus width, then another width |
| PathSystem.Monotone | game/js/games/BrickGame/systems/PathSystem.js:104-111 | cumulative lengths start at zero, never decrease and end at the non-negative total |
| PathSystem.BuiltLanesIncrease | game/js/games/BrickGame/systems/PathSystem.js:94-111 | on a field of positive size the cumulative lengths strictly increase |
| PathSystem.LaneIndex | game/js/games/BrickGame/systems/PathSystem.js:127-128 | offsets 0, 1 and 2 pick their own lane and larger offsets the outer lane |
| PathSystem.Lerp | game/js/games/BrickGame/systems/PathSystem.js:155-161 | interpolation stays between the segment's ends and hits them at 0 and 1 |
| PathSystem.FirstReaching | game/js/games/BrickGame/systems/PathSystem.js:142-148 | the scan stops at the first cumulative length reaching the progress |
| PathSystem.SegmentFound | game/js/games/BrickGame/systems/PathSystem.js:142-148 | for progress strictly inside the lane the segment found is the first whose end reaches it |
| PathSystem.FractionBounds | game/js/games/BrickGame/systems/PathSystem.js:151-153 | the fraction along the found segment lies in (0, 1], and is 1 at the segment's end |
| PathSystem.GetPositionAtProgress | game/js/games/BrickGame/systems/PathSystem.js:124-162 | no position before initialisation; the start corner at non-positive progress, the last corner at or past the total, and otherwise the point that fraction of the way along the first segment reaching the progress, lying between its corners |
| PathSystem.PositionAtCorner | game/js/games/BrickGame/systems/PathSystem.js:124-162 | when the lengths strictly increase, the progress of a corner maps to that corner |
| PathSystem.GetTotalLength | game/js/games/BrickGame/systems/PathSystem.js:169-174 | the total length of the chosen lane, or 0 before initialisation |
| PathSystem.GetEndPosition | game/js/games/BrickGame/systems/PathSystem.js:181-185 | the last corner of the middle lane, or the origin before initialisation |
| PathSystem.GetStartPosition | game/js/games/BrickGame/systems/PathSystem.js:192-198 | the first corner of the chosen lane, or the origin before initialisation |
| PathSystem.WalkEnds | game/js/games/BrickGame/systems/PathSystem.js:124-198 | progress 0 is the start position and progress at or past the total on the middle lane is the end position |
| BaseComponent.NewBase | game/js/games/BrickGame/components/BaseComponent.js:15-25 | a base starts at full health, 1000 unless given a maximum |
| BaseComponent.TakeDamage | game/js/games/BrickGame/components/BaseComponent.js:32-41 | damage subtracts from the hit points; reaching zero or below clamps them to zero and reports the base destroyed |
| BaseComponent.Reset | game/js/games/BrickGame/components/BaseComponent.js:54-56 | a reset restores full health |
| BaseComponent.DamageKeepsRatio | game/js/games/BrickGame/components/BaseComponent.js:32-49 | non-negative damage keeps the health ratio within [0, 1], and the ratio is zero exactly when the base is destroyed |
| BaseSystem.New | game/js/games/BrickGame/systems/BaseSystem.js:19-27 | a new base system knows no path system, no base and no handler |
| BaseSystem.CreateBase | game/js/games/BrickGame/systems/BaseSystem.js:55-80 | the base is a new entity tagged base at the end of the middle lane, with a blue 40 by 40 sprite and 1000 hit points, and nothing else changes |
| BaseSystem.OnInit | game/js/games/BrickGame/systems/BaseSystem.js:29-45 | without a path system nothing happens; otherwise the base is created and the attack handler subscribed once |
| BaseSystem.OnDispose | game/js/games/BrickGame/systems/BaseSystem.js:47-49 | disposing removes the attack handler |
| BaseSystem.DisposeUndoesInit | game/js/games/BrickGame/systems/BaseSystem.js:29-49 | subscribing at init and unsubscribing at dispose leave the bus as it was |
| BaseSystem.OnMonsterAttack | game/js/games/BrickGame/systems/BaseSystem.js:88-119 | an attack on a missing, inactive or component-less base does nothing; otherwise the base takes the damage, and when destroyed the game is over and game_over is emitted; only the base's state changes |
| BaseSystem.Suffer | game/js/games/BrickGame/systems/BaseSystem.js:88-105 | the base falls at most once per attack |
| BaseSystem.SufferTotal | game/js/games/BrickGame/systems/BaseSystem.js:88-119 | a run of attacks subtracts their total from the base, clamped at zero; the base falls exactly when the total reaches its hit points, and then the game is over; the kill count never changes |
| BaseSystem.FallenFallsAgain | game/js/games/BrickGame/systems/BaseSystem.js:97-104 | a base at zero hit points reports destroyed again on every further attack |
| BaseSystem.Reset | game/js/games/BrickGame/systems/BaseSystem.js:182-195 | a missing or inactive base is created anew when the path system is known; a standing base is healed to full; nothing else changes |
| BaseSystem.ResetRestores | game/js/games/BrickGame/systems/BaseSystem.js:182-195 | after any run of attacks a reset brings the base back to the same full health |
| BaseSystem.HealthBarColor | game/js/games/BrickGame/systems/BaseSystem.js:154-159 | the health bar is red, yellow or green |
| BaseSystem.ColorByHp | game/js/games/BrickGame/systems/BaseSystem.js:154-159 | the bar is red below 30% health, yellow below 60%, and green otherwise |
| BaseSystem.ColorWorsens | game/js/games/BrickGame/systems/BaseSystem.js:154-159 | damage never improves the bar's colour |
| GameState.Initial | game/js/games/BrickGame/utils/GameStateManager.js:20-32 | a new game is playing with no kills |
| GameState.GetInstance | game/js/games/BrickGame/utils/GameStateManager.js:13-18 | the single instance is created on first use and returned unchanged afterwards |
| GameState.SetState | game/js/games/BrickGame/utils/GameStateManager.js:38-43 | setting the state changes only the state |
| GameState.IncrementKills | game/js/games/BrickGame/utils/GameStateManager.js:72-74 | a kill adds one to the count and keeps the state |
| GameState.Reset | game/js/games/BrickGame/utils/GameStateManager.js:79-83 | a reset gives a playing game with no kills |
| GameState.StateTests | game/js/games/BrickGame/utils/GameStateManager.js:57-67 | a game is never both playing and over, and each test reads the state just set |
| CharacterComponent.MaxRow | game/js/games/BrickGame/components/CharacterComponent.js:64-71 | the largest row index of the cells (at least 0), attained by some cell unless it is 0 |
| CharacterComponent.MaxCol | game/js/games/BrickGame/components/CharacterComponent.js:64-71 | the largest column index of the cells (at least 0), attained by some cell unless it is 0 |
| CharacterComponent.WithLayout | game/js/games/BrickGame/components/CharacterComponent.js:64-103 | the bounding box is one cell wider and taller than the largest column and row, the anchor offset moves from the box centre to cell (0,0), and each cell gets its centre relative to the box centre |
| CharacterComponent.NewCharacter | game/js/games/BrickGame/components/CharacterComponent.js:30-58 | a piece starts in the spawn state with no phantoms and no previous grid position, keeps the given options (a colour only when non-empty), takes the defaults (slot -1, one cell at (0,0), white, border #333333) for missing options, and has one offset per cell |
| CharacterComponent.LayoutGeometry | game/js/games/BrickGame/components/CharacterComponent.js:64-103 | the box is a whole number of cells of at least one cell, cell (0,0)'s offset is the anchor offset, and every cell with non-negative coordinates lies strictly inside the box |
| CharacterComponent.OnHit | game/js/games/BrickGame/components/CharacterComponent.js:115-117 | the base piece's hit hook leaves the piece unchanged |
| CharacterComponent.NewCharacterBrick | game/js/games/BrickGame/components/CharacterComponent.js:133-142 | a phantom brick record defaults to owner 0, empty type and cell index 0 |
| CharacterDefs.TableShape | game/js/games/BrickGame/utils/CharacterDefs.js:16-52 | exactly the four listed type ids have a definition, and each shape starts at cell (0,0) and fits in a 2x2 box |
| CharacterDefs.RandomTypeId | game/js/games/BrickGame/utils/CharacterDefs.js:58-61 | any random draw in [0, 1) picks one of the defined type ids |
| CharacterSystem.New | game/js/games/BrickGame/systems/CharacterSystem.js:28-58 | a new system has the default layout, three empty slots, nothing dragged and no shadow |
| CharacterSystem.Init | game/js/games/BrickGame/systems/CharacterSystem.js:73-81 | initialisation replaces the layout and nothing else |
| CharacterSystem.Subscribe | game/js/games/BrickGame/systems/CharacterSystem.js:83-87 | an attached system appends its collision listener to the collision event; a detached one changes nothing |
| CharacterSystem.Unsubscribe | game/js/games/BrickGame/systems/CharacterSystem.js:89-91 | an attached system removes its collision listener; a detached one changes nothing |
| CharacterSystem.UnsubscribeUndoesSubscribe | game/js/games/BrickGame/systems/CharacterSystem.js:83-91 | disposing the system after initialising it restores the event bus when the listener was not there before |
| CharacterSystem.FreeFrom | game/js/games/BrickGame/systems/CharacterSystem.js:330-335 | the first empty slot at or after the start index, or -1 exactly when there is none |
| CharacterSystem.FindEmptySlot | game/js/games/BrickGame/systems/CharacterSystem.js:330-335 | the first empty slot of the three, or -1 exactly when all are taken |
| CharacterSystem.SlotFor | game/js/games/BrickGame/systems/CharacterSystem.js:307-314 | a piece returns to its own slot when it has one, else to the first empty slot, else to slot 0 |
| CharacterSystem.SetSlot | game/js/games/BrickGame/systems/CharacterSystem.js:322 | writing a slot changes that slot only |
| CharacterSystem.SlotCenterInside | game/js/games/BrickGame/systems/CharacterSystem.js:183-189 | a slot's centre lies strictly inside its third of the spawn area |
| CharacterSystem.SnapAt | game/js/games/BrickGame/systems/CharacterSystem.js:412-435 | a snap, when there is one, puts every cell on the grid within half a cell of the anchor; there is none exactly when some cell of the rounded position falls off the grid |
| CharacterSystem.RoundWhole | game/js/games/BrickGame/systems/CharacterSystem.js:422-423 | rounding a whole number gives it back |
| CharacterSystem.NearestCell | game/js/games/BrickGame/systems/CharacterSystem.js:422-423 | the centre of grid cell n snaps to n |
| CharacterSystem.SnapOfPlaced | game/js/games/BrickGame/systems/CharacterSystem.js:278-288 | a piece standing where placing it at (row, col) puts it snaps back to (row, col) |
| CharacterSystem.AnyCovers | game/js/games/BrickGame/systems/CharacterSystem.js:489-497 | true exactly when some listed entity is active and within the tolerance of the cell centre |
| CharacterSystem.Occupied | game/js/games/BrickGame/systems/CharacterSystem.js:482-512 | a cell is occupied exactly when an active box collider or ball lies within 15 units of its centre on both axes |
| CharacterSystem.CellsOccupied | game/js/games/BrickGame/systems/CharacterSystem.js:464-472 | one occupancy flag per cell of the shape |
| CharacterSystem.AllCellsFree | game/js/games/BrickGame/systems/CharacterSystem.js:445-454 | true exactly when no cell of the shape at the anchor is occupied |
| CharacterSystem.Picked | game/js/games/BrickGame/systems/CharacterSystem.js:202-221 | picking a piece marks it dragging, remembers where it came from, drops its phantoms if it was placed, and changes nothing else |
| CharacterSystem.Settled | game/js/games/BrickGame/systems/CharacterSystem.js:293-295 | a placed piece records its grid position and phantoms and leaves its slot, nothing else changes |
| CharacterSystem.Returned | game/js/games/BrickGame/systems/CharacterSystem.js:307-321 | a returned piece is in the spawn state in the given slot, nothing else changes |
| CharacterSystem.LandingOf | game/js/games/BrickGame/systems/CharacterSystem.js:248-263 | a drop places the piece exactly when the snap exists and is free; otherwise it goes back to its previous grid position if it came from the grid |
| CharacterSystem.RejectedDropReturns | game/js/games/BrickGame/systems/CharacterSystem.js:251-263 | a rejected drop of a piece picked from the grid goes back to its grid position, and of a piece from the spawn area goes back to spawn |
| CharacterSystem.NewPiece | game/js/games/BrickGame/systems/CharacterSystem.js:113-136 | a spawned piece takes the randomly drawn type's cells, is in the spawn state and remembers its slot |
| CharacterSystem.PieceFits | game/js/games/BrickGame/systems/CharacterSystem.js:122-159 | the parts added to a new piece do not clash with the Transform or each other |
| CharacterSystem.PhantomFits | game/js/games/BrickGame/systems/CharacterSystem.js:361-381 | the parts added to a phantom do not clash with the Transform or each other |
| CharacterSystem.PieceBuilt | game/js/games/BrickGame/systems/CharacterSystem.js:122-159 | a built piece carries its character record, an invisible hit sprite of its box size and a draggable touch handler |
| CharacterSystem.PhantomBuilt | game/js/games/BrickGame/systems/CharacterSystem.js:361-381 | a built phantom carries a one-cell sprite in the piece's colours, a one-cell collider and a record naming its owner and cell |
| CharacterSystem.GrowsTrans | game/js/framework/core/World.js:118-133 | growing the world (new entities only, old ones unchanged) is transitive |
| CharacterSystem.BuildGrows | game/js/framework/core/World.js:118-133 | creating an entity only adds to the world |
| CharacterSystem.SpawnedKept | game/js/games/BrickGame/systems/CharacterSystem.js:113-162 | a spawned piece stays as spawned while the world only grows |
| CharacterSystem.SpawnOne | game/js/games/BrickGame/systems/CharacterSystem.js:113-162 | spawning creates exactly one new entity at the slot centre with the drawn piece and fills that slot only |
| CharacterSystem.FilledNext | game/js/games/BrickGame/systems/CharacterSystem.js:100-106 | filling slot i extends the refill invariant to the first i+1 slots |
| CharacterSystem.SlotsNext | game/js/games/BrickGame/systems/CharacterSystem.js:100-106 | filling slot i keeps earlier slots filled and later slots as they were |
| CharacterSystem.EarlierKept | game/js/games/BrickGame/systems/CharacterSystem.js:100-106 | pieces spawned into earlier slots survive later spawns |
| CharacterSystem.FillSlot | game/js/games/BrickGame/systems/CharacterSystem.js:101-105 | one step of the refill loop keeps the refill invariant |
| CharacterSystem.SpawnCharacters | game/js/games/BrickGame/systems/CharacterSystem.js:100-106 | afterwards all three slots are filled, taken slots are untouched, and each empty slot holds a new piece at its centre from that slot's draw |
| CharacterSystem.CheckRefill | game/js/games/BrickGame/systems/CharacterSystem.js:169-175 | nothing happens while any slot is taken; when all are empty, every slot gets a new piece |
| CharacterSystem.PhantomKept | game/js/games/BrickGame/systems/CharacterSystem.js:349-385 | a phantom stays in place while the world only grows |
| CharacterSystem.PhantomOccupies | game/js/games/BrickGame/systems/CharacterSystem.js:349-385 | a phantom's own cell counts as occupied |
| CharacterSystem.MakePhantom | game/js/games/BrickGame/systems/CharacterSystem.js:352-384 | one new phantom entity is created at the centre of the cell the shape's i-th cell lands on |
| CharacterSystem.PhantomsNext | game/js/games/BrickGame/systems/CharacterSystem.js:352-384 | adding one phantom extends the phantom invariant by one cell |
| CharacterSystem.MakePhantoms | game/js/games/BrickGame/systems/CharacterSystem.js:349-385 | one phantom per cell of the shape, in order, each at its cell |
| CharacterSystem.DragStart | game/js/games/BrickGame/systems/CharacterSystem.js:202-221 | picking a piece marks it dragging, destroys its phantoms if it was placed, frees its slot if it was in the spawn area, and changes nothing else; without a piece nothing happens |
| CharacterSystem.ReturnToSpawn | game/js/games/BrickGame/systems/CharacterSystem.js:307-323 | the piece moves to its slot's centre, is in the spawn state and fills that slot; nothing else changes |
| CharacterSystem.SpawnPickReturns | game/js/games/BrickGame/systems/CharacterSystem.js:202-323 | picking a piece from its slot and returning it restores its slot, position and record |
| CharacterSystem.GridSnap | game/js/games/BrickGame/systems/CharacterSystem.js:412-435 | a snap exists only for a piece with a Transform, is the snap of its position, and lies on the grid |
| CharacterSystem.PhantomUntouched | game/js/games/BrickGame/systems/CharacterSystem.js:349-385 | a phantom stays valid when its own transform and parts are unchanged |
| CharacterSystem.PhantomsRelabelled | game/js/games/BrickGame/systems/CharacterSystem.js:293-295 | updating the owner's record keeps its phantoms valid |
| CharacterSystem.Stand | game/js/games/BrickGame/systems/CharacterSystem.js:278-291 | the piece moves so that its cell (0,0) sits on the anchor cell and gets one phantom per cell |
| CharacterSystem.Settle | game/js/games/BrickGame/systems/CharacterSystem.js:278-295 | the piece stands on the grid with its phantoms and records itself as placed there |
| CharacterSystem.PlaceCharacter | game/js/games/BrickGame/systems/CharacterSystem.js:278-299 | the piece is placed with its phantoms, and the spawn area is refilled exactly when all slots are empty |
| CharacterSystem.PlacedSnapsBack | game/js/games/BrickGame/systems/CharacterSystem.js:278-288 | a placed piece snaps to the cell it was placed on |
| CharacterSystem.PlacedCellsTaken | game/js/games/BrickGame/systems/CharacterSystem.js:349-385 | the cells a placed piece covers are occupied, so no other piece can drop onto them |
| CharacterSystem.Land | game/js/games/BrickGame/systems/CharacterSystem.js:251-263 | a drop either returns the piece to spawn or places it at the chosen position |
| CharacterSystem.DragEnd | game/js/games/BrickGame/systems/CharacterSystem.js:243-268 | a drop places the piece at a free snap, else back at its grid position if picked from the grid, else back to spawn, and clears the drag and the shadow |
| CharacterSystem.Shadow | game/js/games/BrickGame/systems/CharacterSystem.js:547-563 | while a piece is dragged the shadow is its snap, with one occupancy flag per cell when the snap exists |
| CharacterSystem.OccupancyAgrees | game/js/games/BrickGame/systems/CharacterSystem.js:445-472 | the shadow's per-cell flags are all clear exactly when the drop check finds the cells free |
| CharacterSystem.ShadowPredictsDrop | game/js/games/BrickGame/systems/CharacterSystem.js:243-268 | the shadow shows every cell free exactly when the drop would place the piece there |
| CharacterSystem.Route | game/js/games/BrickGame/systems/CharacterSystem.js:524-538 | a collision is routed only when one side is a phantom whose owner still has a piece; the phantom is taken from the second entity first |
| CharacterSystem.RouteSymmetric | game/js/games/BrickGame/systems/CharacterSystem.js:524-538 | when only one side is a phantom, the order of the two entities does not matter |
| CharacterSystem.OnCollision | game/js/games/BrickGame/systems/CharacterSystem.js:524-541 | a routed collision to the base piece changes no component |

## Left out

- Drawing is left out because it only has side effects on the canvas. This covers the render and debug systems, the game-over overlay, `CharacterSystem`'s spawn area, cell and shadow drawing, the path drawing in `PathSystem`, and the canvas calls of `BaseSystem`'s health bar. Only the health bar's colour rule is kept (`BaseSystem.HealthBarColor`).
- Console logging is left out because it has no effect on state.
- Platform input plumbing is left out because it is host I/O: the wx/DOM listener registration and event normalisation in `InputSystem`'s `OnInit`/`OnDispose`. `Input.Drain` takes the already buffered `{type, x, y}` queue as input.
- The host loop, bootstrapping and module wiring are left out because they are timing and loading only: `requestAnimationFrame`, `Date.now`, `main.js`, the framework re-export index, and `World.Init`/`Dispose`'s canvas handling. Functions are modelled as if their modules were wired correctly.
- The upload and auto-commit tools are left out because they are network, filesystem and git I/O.
- IEEE-754 arithmetic is left out: coordinates are `real`, so there is no rounding, overflow, NaN or Infinity. The one place where the source's result depends on them is `BrickComponent`'s colour for a zero `maxHp`, which `BrickComponent.HpColor` states explicitly. The "no tunnelling" claim of the swept physics is not stated.
- `Math.sqrt`, `Math.random`, `Math.cos` and `Math.sin` are parameters rather than computations, because Dafny has no real square root or trigonometry. `BrickFactory._randomAngleAvoidAxes` and `RigidBody.SetVelocityFromAngle` receive the chosen angle's cosine and sine.
- Callbacks are not executed, because they are arbitrary code the model cannot see. This covers component `OnUpdate` bodies, system `Update` bodies and event listeners. A component's `OnInit` at attachment (Entity.js:74-76) is the base no-op in every component here, so it changes nothing and is not modelled. `WorldUpdate` returns the ordered schedule of calls, `EventBus.Emit` returns the snapshot of listeners it would call, and `Input` returns the handler callbacks it would fire. The game systems' own `Update` logic is modelled separately as functions and methods in each system's module.
- Behaviour-free records are folded into datatypes rather than modelled as classes: `SpriteRenderer`, `TextureRenderer`, `TouchHandler`, `BulletComponent` and `BulletFactory`. `TextureRenderer`'s frame animation is left out because it only selects drawing frames. `TouchHandler` callbacks are presence flags, and `swallowTouch` is kept as a field that nothing reads.
- The `GameStateManager` singleton is threaded explicitly as a `GameState.State` value, because a process-wide accessor has no functional equivalent. `GameState.GetInstance` models the "create once" rule over an optional instance.
- Transform.WorldPosFuel: world positions are computed with a recursion budget equal to the number of Transforms. When the hierarchy has no cycle, any budget above an entity's rank gives the same position (`Transform.FuelIrrelevant`). The source recurses without bound, so it would not terminate on a cyclic hierarchy; the model stops when the budget runs out.
- CharacterSystem.Stand, CharacterSystem.Settle, CharacterSystem.PlaceCharacter, CharacterSystem.Land and CharacterSystem.DragEnd require the piece's id not to exceed the world's id counter. Every entity the world creates satisfies this, so the requirement only excludes worlds the program cannot reach.
- PathSystem.LaneIndex takes a non-negative lane offset. A negative offset indexes the lane array with a negative number in the source, which is undefined there.
- BaseSystem.Reset returns `None` where the source would throw: a reset without a base and without a path system dereferences a missing path system.
- Lemmas that rely on the square-root law require `Reals.IsSqrt(sqrt)`: `Colliders.SpeedLaw`, `Colliders.SpeedOfVelocity`, `Colliders.SpeedFromAngle`, `Embedding.PushOutIff`, `BrickGameSystem.OneBoxClears` and `BulletSystem.FlightLaw`. The operations themselves accept any function.
- Members that walk lanes require `PathSystem.Valid`, the shape `PathSystem.Init` produces. The lanes are never built any other way.
- World.AddSystem, World.RemoveSystem: the system's `OnInit` (World.js:183) and `OnDispose` (World.js:194) hooks are not run by these two functions, because each system's hooks are its own code. They are modelled per system, for the caller to apply: `BaseSystem.OnInit`/`OnDispose`, `BulletSystem.Init`/`Dispose`, `BrickGameSystem.Init`/`Dispose` and `CharacterSystem.Subscribe`/`Unsubscribe`. `BrickGame.PlaceField` applies `BrickGameSystem.Init` right after `AddSystem`, as `BrickGame.js` does through `World.AddSystem`.
- World.CreateEntity: the id counter is a field of the world, while the source's `_entityIdCounter` (Entity.js:7,16) is shared by every world in the process. With one world, as the game builds, the two agree; with several worlds the source's ids are unique across worlds and the model's only within each.
- WorldInvariant.Apply: a re-parenting whose new parent is an id the counter has not yet handed out is skipped. The source passes a Transform object, which belongs to an entity already created, so no such call exists there.
- Concurrency is not modelled: the program is single-threaded and runs each frame to completion.

## Findings

| source | as written | input that shows it | evidently intended | confidence | as-written member | corrected member |
|---|---|---|---|---|---|---|
| game/js/framework/core/World.js:227-229 | `_queryDirty` starts true and is only ever set to true (lines 35, 80 and 268), so the cached branch of `Query` is never taken and every query is recomputed | any world: two `Query` calls with no mutation between them both recompute, and the cache is written but never read | a query is answered from the cache while no structural change has happened since it was stored, and `Destroy` invalidates the cache as the other mutations do | not executed | WorldInvariant.QueryAlwaysRecomputes | QueryCache.CachedQueryCorrect |
