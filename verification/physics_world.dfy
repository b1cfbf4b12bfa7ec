/**
 The physics system's `Update` over the world: the box and circle colliders are
 queried once per frame; each listed active body then steps in turn against the
 obstacles' current shapes (bodies stepped earlier in the frame have already moved),
 and its Transform and RigidBody are written back.
 */
module PhysicsWorld {
  import opened Wrappers
  import opened Reals
  import opened Components
  import opened Colliders
  import Transform
  import Physics
  import World

  /** The class's static query. */
  const PhysicsQuery: seq<string> := [TransformId, RigidBodyId]

  /**
   A listed box entity as an obstacle, its bounds read now. An entity whose box is
   missing counts as inactive, so nothing can strike it.
   */
  function BoxObstacleOf(w: World.World, id: nat): (o: Physics.Obstacle)
    ensures o.BoxObstacle? && o.id == id
    ensures o.active ==> id in w.entities && w.entities[id].active
  {
    var c := World.ComponentOf(w, id, BoxColliderId);
    if c.Some? && c.value.data.BoxData? then
      Physics.BoxObstacle(id, w.entities[id].active, GetBounds(c.value.data.box, World.PositionOf(w, id)))
    else Physics.BoxObstacle(id, false, Bounds(0.0, 0.0, 0.0, 0.0))
  }

  /** A listed circle entity as an obstacle, its centre read now. */
  function CircleObstacleOf(w: World.World, id: nat): (o: Physics.Obstacle)
    ensures o.CircleObstacle? && o.id == id
    ensures o.active ==> id in w.entities && w.entities[id].active
  {
    var c := World.ComponentOf(w, id, CircleColliderId);
    if c.Some? && c.value.data.CircleData? then
      Physics.CircleObstacle(id, w.entities[id].active, GetCenter(c.value.data.circle, World.PositionOf(w, id)),
                             c.value.data.circle.radius)
    else Physics.CircleObstacle(id, false, Transform.Point(0.0, 0.0), 0.0)
  }

  /** The candidates in the source's scan order: every box, then every circle. */
  function Obstacles(w: World.World, boxes: seq<nat>, circles: seq<nat>): (obs: seq<Physics.Obstacle>)
    ensures |obs| == |boxes| + |circles|
    ensures forall k :: 0 <= k < |boxes| ==> obs[k] == BoxObstacleOf(w, boxes[k])
    ensures forall k :: 0 <= k < |circles| ==> obs[|boxes| + k] == CircleObstacleOf(w, circles[k])
  {
    seq(|boxes|, k requires 0 <= k < |boxes| => BoxObstacleOf(w, boxes[k])) +
    seq(|circles|, k requires 0 <= k < |circles| => CircleObstacleOf(w, circles[k]))
  }

  /** Only listed, active entities other than the mover can be struck. */
  lemma StruckListed(w: World.World, boxes: seq<nat>, circles: seq<nat>, self: nat, b: nat)
    requires Physics.Struck(self, Obstacles(w, boxes, circles), b)
    ensures b != self && (b in boxes || b in circles) && b in w.entities && w.entities[b].active
  {
    var obs := Obstacles(w, boxes, circles);
    var o :| o in obs && Physics.Eligible(self, o) && o.id == b;
    var k :| 0 <= k < |obs| && obs[k] == o;
    if k < |boxes| {
      assert o == BoxObstacleOf(w, boxes[k]);
    } else {
      assert o == CircleObstacleOf(w, circles[k - |boxes|]);
    }
  }

  /** The entities a body step can update: registered, active, with a Transform and a RigidBody. */
  predicate Movable(w: World.World, id: nat) {
    id in w.entities && w.entities[id].active && id in w.transforms &&
    RigidBodyId in w.entities[id].components && w.entities[id].components[RigidBodyId].data.BodyData?
  }

  /**
   One body's step: inactive (or incomplete) entities are skipped; otherwise the body
   moves against the obstacles, and its local position and velocity are stored.
   */
  function StepEntity(sqrt: real -> real, w: World.World, id: nat, boxes: seq<nat>, circles: seq<nat>, dt: real)
    : (r: (World.World, seq<Physics.Collision>))
    ensures !Movable(w, id) ==> r == (w, [])
    ensures r.0.entities.Keys == w.entities.Keys && r.0.transforms.Keys == w.transforms.Keys
    ensures r.0.order == w.order && r.0.queue == w.queue && r.0.systems == w.systems
    ensures r.0.dirty == w.dirty && r.0.counter == w.counter && r.0.bus == w.bus
    ensures forall x :: x in w.entities && x != id ==> r.0.entities[x] == w.entities[x]
    ensures forall x :: x in w.transforms && x != id ==> r.0.transforms[x] == w.transforms[x]
    ensures Movable(w, id) ==>
      var e := w.entities[id]; var t := w.transforms[id]; var body := e.components[RigidBodyId].data.body;
      var c := World.ComponentOf(w, id, CircleColliderId);
      var circle := if c.Some? && c.value.data.CircleData? then Some(c.value.data.circle) else None;
      var step := Physics.StepBody(sqrt, id, dt, Transform.Point(t.x, t.y), Transform.WorldPos(w.transforms, id),
                                   body, circle, Obstacles(w, boxes, circles));
      r.1 == step.events &&
      r.0.transforms[id] == t.(x := step.local.x, y := step.local.y) &&
      r.0.entities[id] == e.(components := e.components[RigidBodyId := e.components[RigidBodyId].(data := BodyData(step.body))])
    ensures |r.1| <= Physics.MaxBounces
    ensures forall k :: 0 <= k < |r.1| ==>
      r.1[k].a == id && r.1[k].b != id && (r.1[k].b in boxes || r.1[k].b in circles)
  {
    if !Movable(w, id) then (w, [])
    else
      var e := w.entities[id];
      var t := w.transforms[id];
      var rb := e.components[RigidBodyId];
      var c := World.ComponentOf(w, id, CircleColliderId);
      var circle := if c.Some? && c.value.data.CircleData? then Some(c.value.data.circle) else None;
      var obs := Obstacles(w, boxes, circles);
      var step := Physics.StepBody(sqrt, id, dt, Transform.Point(t.x, t.y), Transform.WorldPos(w.transforms, id),
                                   rb.data.body, circle, obs);
      assert forall k :: 0 <= k < |step.events| ==>
        step.events[k].b != id && (step.events[k].b in boxes || step.events[k].b in circles) by {
        forall k | 0 <= k < |step.events|
          ensures step.events[k].b != id && (step.events[k].b in boxes || step.events[k].b in circles)
        {
          StruckListed(w, boxes, circles, id, step.events[k].b);
        }
      }
      (w.(transforms := w.transforms[id := t.(x := step.local.x, y := step.local.y)],
          entities := w.entities[id := e.(components := e.components[RigidBodyId := rb.(data := BodyData(step.body))])]),
       step.events)
  }

  /** The bodies of the system's entity list, in order. */
  function StepAll(sqrt: real -> real, w: World.World, ids: seq<nat>, boxes: seq<nat>, circles: seq<nat>, dt: real)
    : (r: (World.World, seq<Physics.Collision>))
    ensures r.0.entities.Keys == w.entities.Keys && r.0.transforms.Keys == w.transforms.Keys
    ensures r.0.order == w.order && r.0.queue == w.queue && r.0.systems == w.systems
    ensures r.0.dirty == w.dirty && r.0.counter == w.counter && r.0.bus == w.bus
    ensures forall x :: x in w.entities && x !in ids ==> r.0.entities[x] == w.entities[x]
    ensures forall x :: x in w.transforms && x !in ids ==> r.0.transforms[x] == w.transforms[x]
    ensures |r.1| <= Physics.MaxBounces * |ids|
    ensures forall k :: 0 <= k < |r.1| ==>
      r.1[k].a in ids && r.1[k].b != r.1[k].a && (r.1[k].b in boxes || r.1[k].b in circles)
    decreases |ids|
  {
    if |ids| == 0 then (w, [])
    else
      var s := StepEntity(sqrt, w, ids[0], boxes, circles, dt);
      var rest := StepAll(sqrt, s.0, ids[1..], boxes, circles, dt);
      var events := s.1 + rest.1;
      assert forall k :: 0 <= k < |events| ==> events[k].a in ids by {
        forall k | 0 <= k < |events| ensures events[k].a in ids {
          if k >= |s.1| { assert events[k] == rest.1[k - |s.1|]; assert events[k].a in ids[1..]; }
        }
      }
      (rest.0, events)
  }

  /**
   `Update`: the collider lists are queried once, then every listed body steps. Only
   listed bodies change, the registry does not, and every event names a listed mover
   and another entity holding a collider.
   */
  function Update(sqrt: real -> real, w: World.World, ids: seq<nat>, dt: real): (r: (World.World, seq<Physics.Collision>))
    ensures r.0.entities.Keys == w.entities.Keys && r.0.order == w.order && r.0.queue == w.queue
    ensures r.0.systems == w.systems && r.0.counter == w.counter
    ensures forall x :: x in w.entities && x !in ids ==> r.0.entities[x] == w.entities[x]
    ensures |r.1| <= Physics.MaxBounces * |ids|
    ensures w.dirty ==> forall k :: 0 <= k < |r.1| ==>
      r.1[k].a in ids && r.1[k].b != r.1[k].a &&
      (r.1[k].b in World.Matching(w, multiset{BoxColliderId}) || r.1[k].b in World.Matching(w, multiset{CircleColliderId}))
  {
    var q1 := World.Query(w, [BoxColliderId]);
    var q2 := World.Query(q1.0, [CircleColliderId]);
    assert multiset([BoxColliderId]) == multiset{BoxColliderId};
    assert multiset([CircleColliderId]) == multiset{CircleColliderId};
    StepAll(sqrt, q2.0, ids, q1.1, q2.1, dt)
  }

  /** A body without a circle collider moves by its velocity times the clamped step, and raises nothing. */
  lemma UpdateFreeBody(sqrt: real -> real, w: World.World, id: nat, boxes: seq<nat>, circles: seq<nat>, dt: real)
    requires Movable(w, id) && World.ComponentOf(w, id, CircleColliderId).None?
    ensures var r := StepEntity(sqrt, w, id, boxes, circles, dt);
      var body := w.entities[id].components[RigidBodyId].data.body;
      r.1 == [] &&
      r.0.transforms[id].x == w.transforms[id].x + body.vx * Min(dt, Physics.MaxDt) &&
      r.0.transforms[id].y == w.transforms[id].y + body.vy * Min(dt, Physics.MaxDt)
  {
  }
}
