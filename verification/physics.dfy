/**
 The dynamic part of the physics step for one body: the search for the first obstacle
 along the displacement, the velocity reflection, and the bounce loop that spends the
 frame's time. Obstacles are given as a snapshot of the other colliders, boxes first and
 then circles, in query order.
 */
module Physics {
  import opened Wrappers
  import opened Reals
  import opened Transform
  import opened Colliders
  import opened Sweep

  const MaxBounces: nat := 5
  const PushOut := 0.01
  const MaxDt := 0.05
  const MinRemaining := 0.000001
  const MinMove2 := 0.00000001
  const MinSpeed := 0.0001

  /** A collider of another entity, with the world-space shape read at search time. */
  datatype Obstacle =
    | BoxObstacle(id: nat, active: bool, bounds: Bounds)
    | CircleObstacle(id: nat, active: bool, center: Point, radius: real)

  /** The `collision` event: `a` is the moving entity, `b` the one it struck. */
  datatype Collision = Collision(a: nat, b: nat, normal: Point)

  /** An obstacle is considered unless it is the moving entity itself or inactive. */
  predicate Eligible(self: nat, o: Obstacle) {
    o.id != self && o.active
  }

  /** The sweep of the moving circle against one obstacle. */
  function ObstacleHit(sqrt: real -> real, self: nat, p: Point, d: Point, radius: real, o: Obstacle)
    : (h: Option<Hit>)
    ensures h.Some? ==> Eligible(self, o) && 0.0 <= h.value.t < 1.0
  {
    if !Eligible(self, o) then None
    else match o
      case BoxObstacle(_, _, b) => SweepCircleBox(sqrt, p, d, radius, b)
      case CircleObstacle(_, _, c, r) => SweepCircleCircle(sqrt, p, d, radius, c, r)
  }

  function Tagged(h: Option<Hit>, id: nat): Option<Cand<nat>> {
    if h.Some? then Some(Cand(h.value, id)) else None
  }

  function Candidates(sqrt: real -> real, self: nat, p: Point, d: Point, radius: real, obs: seq<Obstacle>)
    : (cs: seq<Option<Cand<nat>>>)
    ensures |cs| == |obs|
    ensures forall i :: 0 <= i < |obs| ==> cs[i] == Tagged(ObstacleHit(sqrt, self, p, d, radius, obs[i]), obs[i].id)
  {
    seq(|obs|, i requires 0 <= i < |obs| => Tagged(ObstacleHit(sqrt, self, p, d, radius, obs[i]), obs[i].id))
  }

  /** The search of one bounce: the earliest hit below `t = 1`, ties to the first obstacle. */
  function FindHit(sqrt: real -> real, self: nat, p: Point, d: Point, radius: real, obs: seq<Obstacle>)
    : Option<Cand<nat>>
  {
    Earliest(Candidates(sqrt, self, p, d, radius, obs), None, Some(1.0))
  }

  /**
   The search finds a hit exactly when some eligible obstacle is hit; the hit found is
   that of an eligible obstacle, lies in `[0, 1)`, is no later than any other obstacle's
   hit, and is strictly earlier than the hits of all obstacles before it.
   */
  lemma FindHitSpec(sqrt: real -> real, self: nat, p: Point, d: Point, radius: real, obs: seq<Obstacle>)
    ensures var r := FindHit(sqrt, self, p, d, radius, obs);
      r.None? <==> forall i :: 0 <= i < |obs| ==> ObstacleHit(sqrt, self, p, d, radius, obs[i]).None?
    ensures var r := FindHit(sqrt, self, p, d, radius, obs);
      r.Some? ==>
        exists i :: 0 <= i < |obs| && Eligible(self, obs[i]) && obs[i].id == r.value.tag &&
          ObstacleHit(sqrt, self, p, d, radius, obs[i]) == Some(r.value.hit) &&
          forall j :: 0 <= j < i && ObstacleHit(sqrt, self, p, d, radius, obs[j]).Some? ==>
            ObstacleHit(sqrt, self, p, d, radius, obs[j]).value.t > r.value.hit.t
    ensures var r := FindHit(sqrt, self, p, d, radius, obs);
      forall i :: 0 <= i < |obs| && ObstacleHit(sqrt, self, p, d, radius, obs[i]).Some? ==>
        r.Some? && r.value.hit.t <= ObstacleHit(sqrt, self, p, d, radius, obs[i]).value.t
    ensures var r := FindHit(sqrt, self, p, d, radius, obs);
      r.Some? ==> 0.0 <= r.value.hit.t < 1.0
  {
    FindHitFirst(sqrt, self, p, d, radius, obs);
    FindHitLeast(sqrt, self, p, d, radius, obs);
  }

  /** A hit found is that of an eligible obstacle, and strictly earlier than the hits of those before it. */
  lemma FindHitFirst(sqrt: real -> real, self: nat, p: Point, d: Point, radius: real, obs: seq<Obstacle>)
    ensures var r := FindHit(sqrt, self, p, d, radius, obs);
      r.Some? ==>
        exists i :: 0 <= i < |obs| && Eligible(self, obs[i]) && obs[i].id == r.value.tag &&
          ObstacleHit(sqrt, self, p, d, radius, obs[i]) == Some(r.value.hit) &&
          forall j :: 0 <= j < i && ObstacleHit(sqrt, self, p, d, radius, obs[j]).Some? ==>
            ObstacleHit(sqrt, self, p, d, radius, obs[j]).value.t > r.value.hit.t
  {
    var cs := Candidates(sqrt, self, p, d, radius, obs);
    EarliestSpec(cs, None, Some(1.0));
    var r := FindHit(sqrt, self, p, d, radius, obs);
    if r.Some? {
      var i :| 0 <= i < |cs| && cs[i] == r && Beats(r, Some(1.0)) &&
        forall j :: 0 <= j < i && Beats(cs[j], Some(1.0)) ==> cs[j].value.hit.t > r.value.hit.t;
      var h := ObstacleHit(sqrt, self, p, d, radius, obs[i]);
      assert h == Some(r.value.hit) && Eligible(self, obs[i]) && obs[i].id == r.value.tag;
      forall j | 0 <= j < i && ObstacleHit(sqrt, self, p, d, radius, obs[j]).Some?
        ensures ObstacleHit(sqrt, self, p, d, radius, obs[j]).value.t > r.value.hit.t
      {
        assert Beats(cs[j], Some(1.0));
      }
    }
  }

  /** The hit found is no later than any obstacle's hit. */
  lemma FindHitLeast(sqrt: real -> real, self: nat, p: Point, d: Point, radius: real, obs: seq<Obstacle>)
    ensures var r := FindHit(sqrt, self, p, d, radius, obs);
      forall i :: 0 <= i < |obs| && ObstacleHit(sqrt, self, p, d, radius, obs[i]).Some? ==>
        r.Some? && r.value.hit.t <= ObstacleHit(sqrt, self, p, d, radius, obs[i]).value.t
  {
    var cs := Candidates(sqrt, self, p, d, radius, obs);
    EarliestSpec(cs, None, Some(1.0));
    forall i | 0 <= i < |obs| && ObstacleHit(sqrt, self, p, d, radius, obs[i]).Some?
      ensures Beats(cs[i], Some(1.0))
    {
    }
  }

  /** `id` names an eligible obstacle of the snapshot. */
  predicate Struck(self: nat, obs: seq<Obstacle>, id: nat) {
    exists o :: o in obs && Eligible(self, o) && o.id == id
  }

  /** Every event was raised by the moving entity against an eligible obstacle. */
  predicate EventsFrom(self: nat, obs: seq<Obstacle>, events: seq<Collision>) {
    forall k :: 0 <= k < |events| ==> events[k].a == self && Struck(self, obs, events[k].b)
  }

  /** The part of `FindHitSpec` the bounce loop needs. */
  lemma FindHitStruck(sqrt: real -> real, self: nat, p: Point, d: Point, radius: real, obs: seq<Obstacle>)
    ensures var r := FindHit(sqrt, self, p, d, radius, obs);
      r.Some? ==> Struck(self, obs, r.value.tag) && 0.0 <= r.value.hit.t < 1.0
  {
    FindHitSpec(sqrt, self, p, d, radius, obs);
    var r := FindHit(sqrt, self, p, d, radius, obs);
    if r.Some? {
      var i :| 0 <= i < |obs| && Eligible(self, obs[i]) && obs[i].id == r.value.tag &&
        ObstacleHit(sqrt, self, p, d, radius, obs[i]) == Some(r.value.hit);
      assert obs[i] in obs;
    }
  }

  /** Under the square-root law, every hit found has a unit normal facing the motion. */
  lemma FindHitNormal(sqrt: real -> real, self: nat, p: Point, d: Point, radius: real, obs: seq<Obstacle>)
    requires IsSqrt(sqrt)
    ensures var r := FindHit(sqrt, self, p, d, radius, obs);
      r.Some? ==> Len2(r.value.hit.normal) == 1.0 && Dot(r.value.hit.normal, d) <= 0.0
  {
    FindHitSpec(sqrt, self, p, d, radius, obs);
    var r := FindHit(sqrt, self, p, d, radius, obs);
    if r.Some? {
      var i :| 0 <= i < |obs| && Eligible(self, obs[i]) && obs[i].id == r.value.tag &&
        ObstacleHit(sqrt, self, p, d, radius, obs[i]) == Some(r.value.hit);
      match obs[i]
      case BoxObstacle(_, _, b) =>
        SweepCircleBoxSpec(sqrt, p, d, radius, b);
      case CircleObstacle(_, _, c, cr) =>
        SweepCircleCircleContact(sqrt, p, d, radius, c, cr);
    }
  }

  // ---- Velocity response ----

  /** `v' = v - (1 + bounce) (v . n) n`. */
  function Reflect(v: Point, bounce: real, n: Point): Point {
    var k := (1.0 + bounce) * Dot(v, n);
    Point(v.x - k * n.x, v.y - k * n.y)
  }

  /** The direction along the surface. */
  function Tangent(n: Point): Point {
    Point(-n.y, n.x)
  }

  /**
   Against a unit normal the normal component of the velocity is reversed and scaled by
   the bounce, and the tangential component is kept: bounce 1 reflects perfectly,
   bounce 0 slides along the surface.
   */
  lemma ReflectComponents(v: Point, bounce: real, n: Point)
    requires Len2(n) == 1.0
    ensures Dot(Reflect(v, bounce, n), n) == -bounce * Dot(v, n)
    ensures Dot(Reflect(v, bounce, n), Tangent(n)) == Dot(v, Tangent(n))
  {
    var s := Dot(v, n);
    var k := (1.0 + bounce) * s;
    var w := Reflect(v, bounce, n);
    assert Dot(w, n) == s - k * (n.x * n.x + n.y * n.y);
    assert Dot(w, Tangent(n)) == Dot(v, Tangent(n)) - k * (n.x * (-n.y) + n.y * n.x);
  }

  /** A perfect bounce against a unit normal keeps the squared speed. */
  lemma ReflectKeepsSpeed(v: Point, n: Point)
    requires Len2(n) == 1.0
    ensures Len2(Reflect(v, 1.0, n)) == Len2(v)
  {
    var s := Dot(v, n);
    var w := Reflect(v, 1.0, n);
    assert w.x == v.x - 2.0 * s * n.x && w.y == v.y - 2.0 * s * n.y;
    assert Len2(w) == Len2(v) - 4.0 * s * s + 4.0 * s * s * (n.x * n.x + n.y * n.y);
  }

  /** A body approaching a surface no longer moves into it after a non-negative bounce. */
  lemma ReflectSeparates(v: Point, bounce: real, n: Point)
    requires Len2(n) == 1.0 && bounce >= 0.0 && Dot(v, n) <= 0.0
    ensures Dot(Reflect(v, bounce, n), n) >= 0.0
  {
    ReflectComponents(v, bounce, n);
  }

  // ---- The bounce loop ----

  /** The state of the loop: world position, velocity, time left, bounces and events. */
  datatype Motion = Motion(pos: Point, vel: Point, remaining: real, bounces: nat, events: seq<Collision>)

  function Scale(v: Point, k: real): Point {
    Point(v.x * k, v.y * k)
  }

  function Add(a: Point, b: Point): Point {
    Point(a.x + b.x, a.y + b.y)
  }

  /** True when the loop has stopped: no time left, the bounce limit, or a negligible move. */
  predicate Settled(m: Motion) {
    m.remaining <= MinRemaining || m.bounces >= MaxBounces || Len2(Scale(m.vel, m.remaining)) < MinMove2
  }

  /**
   The `while` loop of the update: each iteration moves by `velocity * remaining`,
   stopping at the first hit, pushing out along its normal, reflecting the velocity,
   keeping the unused fraction of the time and recording a `collision` event.
   */
  function Resolve(sqrt: real -> real, self: nat, radius: real, bounce: real, obs: seq<Obstacle>, m: Motion)
    : (r: Motion)
    requires m.bounces <= MaxBounces
    decreases MaxBounces - m.bounces
    ensures m.bounces <= r.bounces <= MaxBounces
    ensures |r.events| == |m.events| + (r.bounces - m.bounces)
    ensures EventsFrom(self, obs, m.events) ==> EventsFrom(self, obs, r.events)
    ensures m.remaining >= 0.0 ==> 0.0 <= r.remaining <= m.remaining
  {
    if m.remaining <= MinRemaining || m.bounces >= MaxBounces then m
    else
      var move := Scale(m.vel, m.remaining);
      if Len2(move) < MinMove2 then
        m.(pos := Add(m.pos, move))
      else
        var h := FindHit(sqrt, self, m.pos, move, radius, obs);
        if h.Some? then
          FindHitStruck(sqrt, self, m.pos, move, radius, obs);
          var next := Bounce(m, move, h.value, self, bounce);
          assert EventsFrom(self, obs, m.events) ==> EventsFrom(self, obs, next.events) by {
            if EventsFrom(self, obs, m.events) { EventsExtend(self, obs, m.events, next.events[|m.events|]); }
          }
          Resolve(sqrt, self, radius, bounce, obs, next)
        else m.(pos := Add(m.pos, move), remaining := 0.0)
  }

  /**
   The loop runs until it has settled (the frame's time spent, five bounces, or a
   negligible move), and it only appends events.
   */
  lemma {:induction false} ResolveSettles(sqrt: real -> real, self: nat, radius: real, bounce: real,
                                          obs: seq<Obstacle>, m: Motion)
    requires m.bounces <= MaxBounces && m.remaining >= 0.0
    decreases MaxBounces - m.bounces
    ensures Settled(Resolve(sqrt, self, radius, bounce, obs, m))
    ensures var r := Resolve(sqrt, self, radius, bounce, obs, m);
      |m.events| <= |r.events| && r.events[..|m.events|] == m.events
  {
    if m.remaining <= MinRemaining || m.bounces >= MaxBounces {
    } else {
      var move := Scale(m.vel, m.remaining);
      if Len2(move) < MinMove2 {
        assert Resolve(sqrt, self, radius, bounce, obs, m) == m.(pos := Add(m.pos, move));
      } else {
        var h := FindHit(sqrt, self, m.pos, move, radius, obs);
        if h.Some? {
          FindHitStruck(sqrt, self, m.pos, move, radius, obs);
          var next := Bounce(m, move, h.value, self, bounce);
          assert Resolve(sqrt, self, radius, bounce, obs, m) == Resolve(sqrt, self, radius, bounce, obs, next);
          ResolveSettles(sqrt, self, radius, bounce, obs, next);
          assert next.events[..|m.events|] == m.events;
        }
      }
    }
  }

  /** One collision response: move to the contact, push out, reflect, keep the unused time. */
  function Bounce(m: Motion, move: Point, hit: Cand<nat>, self: nat, bounce: real): (next: Motion)
    requires 0.0 <= hit.hit.t < 1.0
    ensures next.bounces == m.bounces + 1
    ensures next.events == m.events + [Collision(self, hit.tag, hit.hit.normal)]
    ensures next.vel == Reflect(m.vel, bounce, hit.hit.normal)
    ensures m.remaining >= 0.0 ==> 0.0 <= next.remaining <= m.remaining
  {
    var t := hit.hit.t;
    var n := hit.hit.normal;
    assert m.remaining >= 0.0 ==> 0.0 <= m.remaining * (1.0 - t) <= m.remaining by {
      if m.remaining >= 0.0 { NonNegScale(m.remaining, 1.0 - t); }
    }
    Motion(Add(Add(m.pos, Scale(move, t)), Scale(n, PushOut)), Reflect(m.vel, bounce, n),
           m.remaining * (1.0 - t), m.bounces + 1, m.events + [Collision(self, hit.tag, n)])
  }

  lemma EventsExtend(self: nat, obs: seq<Obstacle>, events: seq<Collision>, e: Collision)
    requires EventsFrom(self, obs, events) && e.a == self && Struck(self, obs, e.b)
    ensures EventsFrom(self, obs, events + [e])
  {
    assert forall k :: 0 <= k < |events| ==> (events + [e])[k] == events[k];
  }

  lemma NonNegScale(x: real, f: real)
    requires x >= 0.0 && 0.0 < f <= 1.0
    ensures 0.0 <= x * f <= x
  {
  }

  /** With a perfect bounce the loop keeps the body's squared speed, however many hits occur. */
  lemma {:induction false} ResolveKeepsSpeed(sqrt: real -> real, self: nat, radius: real,
                                             obs: seq<Obstacle>, m: Motion)
    requires IsSqrt(sqrt) && m.bounces <= MaxBounces
    decreases MaxBounces - m.bounces
    ensures Len2(Resolve(sqrt, self, radius, 1.0, obs, m).vel) == Len2(m.vel)
  {
    if m.remaining <= MinRemaining || m.bounces >= MaxBounces {
    } else {
      var move := Scale(m.vel, m.remaining);
      if Len2(move) >= MinMove2 {
        var h := FindHit(sqrt, self, m.pos, move, radius, obs);
        if h.Some? {
          FindHitStruck(sqrt, self, m.pos, move, radius, obs);
          FindHitNormal(sqrt, self, m.pos, move, radius, obs);
          var next := Bounce(m, move, h.value, self, 1.0);
          ReflectKeepsSpeed(m.vel, h.value.hit.normal);
          ResolveKeepsSpeed(sqrt, self, radius, obs, next);
        }
      }
    }
  }

  /** With nothing to hit, the loop moves the full displacement `velocity * dt`. */
  lemma ResolveFree(sqrt: real -> real, self: nat, radius: real, bounce: real, m: Motion)
    requires m.bounces < MaxBounces && m.remaining > MinRemaining
    ensures var r := Resolve(sqrt, self, radius, bounce, [], m);
      r.pos == Add(m.pos, Scale(m.vel, m.remaining)) && r.vel == m.vel && r.events == m.events
  {
    assert FindHit(sqrt, self, m.pos, Scale(m.vel, m.remaining), radius, []) == None;
  }

  // ---- One body ----

  /** A moving entity's physics state: its local Transform position and its body. */
  datatype BodyStep = BodyStep(local: Point, body: RigidBody, events: seq<Collision>)

  function Velocity(b: RigidBody): Point {
    Point(b.vx, b.vy)
  }

  /**
   The per-entity part of the update. `world` is the Transform's world position;
   `circle` the entity's CircleCollider if any. A body without a circle only drifts;
   one slower than 0.0001 is skipped; otherwise the bounce loop runs from the circle's
   centre and its world displacement is added to the local position.
   */
  function StepBody(sqrt: real -> real, self: nat, dt: real, local: Point, world: Point, body: RigidBody,
                    circle: Option<CircleCollider>, obs: seq<Obstacle>): (r: BodyStep)
    ensures circle.None? ==>
      r.body == body && r.events == [] && r.local == Add(local, Scale(Velocity(body), Min(dt, MaxDt)))
    ensures circle.Some? && Speed(sqrt, body) < MinSpeed ==> r == BodyStep(local, body, [])
    ensures |r.events| <= MaxBounces
    ensures r.body.bounce == body.bounce
    ensures EventsFrom(self, obs, r.events)
  {
    var dt := Min(dt, MaxDt);
    match circle
    case None => BodyStep(Add(local, Scale(Velocity(body), dt)), body, [])
    case Some(c) =>
      if Speed(sqrt, body) < MinSpeed then BodyStep(local, body, [])
      else
        var start := Point(world.x + c.offsetX, world.y + c.offsetY);
        var out := Resolve(sqrt, self, c.radius, body.bounce, obs, Motion(start, Velocity(body), dt, 0, []));
        BodyStep(Add(local, Sub(out.pos, start)), SetVelocity(body, out.vel.x, out.vel.y), out.events)
  }

  /** A perfectly bouncy circle body keeps its speed through the step. */
  lemma StepBodyKeepsSpeed(sqrt: real -> real, self: nat, dt: real, local: Point, world: Point,
                           body: RigidBody, circle: Option<CircleCollider>, obs: seq<Obstacle>)
    requires IsSqrt(sqrt) && body.bounce == 1.0
    ensures var r := StepBody(sqrt, self, dt, local, world, body, circle, obs);
      Len2(Velocity(r.body)) == Len2(Velocity(body))
  {
    if circle.Some? && Speed(sqrt, body) >= MinSpeed {
      var c := circle.value;
      var start := Point(world.x + c.offsetX, world.y + c.offsetY);
      ResolveKeepsSpeed(sqrt, self, c.radius, obs, Motion(start, Velocity(body), Min(dt, MaxDt), 0, []));
    }
  }

  /**
   With no obstacles a moving circle body drifts by `velocity * min(dt, 0.05)` like a
   body without a collider (when that time exceeds the loop's 1e-6 threshold).
   */
  lemma StepBodyFree(sqrt: real -> real, self: nat, dt: real, local: Point, world: Point,
                     body: RigidBody, c: CircleCollider)
    requires Speed(sqrt, body) >= MinSpeed && Min(dt, MaxDt) > MinRemaining
    ensures var r := StepBody(sqrt, self, dt, local, world, body, Some(c), []);
      r.body == body && r.events == [] && r.local == Add(local, Scale(Velocity(body), Min(dt, MaxDt)))
  {
    var start := Point(world.x + c.offsetX, world.y + c.offsetY);
    var move := Scale(Velocity(body), Min(dt, MaxDt));
    ResolveFree(sqrt, self, c.radius, body.bounce, Motion(start, Velocity(body), Min(dt, MaxDt), 0, []));
    assert Sub(Add(start, move), start) == move;
  }
}
