/**
 `BulletSystem`: the characters' bullets. A `shoot_bullet` request creates a bullet;
 each frame of play every bullet ages, and all of them chase the one monster that is
 furthest along the path: a bullet that has lived too long is destroyed, one close
 enough hits the target and is destroyed, and the others fly towards it. With no
 monster to chase every bullet is destroyed.
 */
module BulletSystem {
  import opened Wrappers
  import opened Seqs
  import opened Reals
  import opened Components
  import opened MonsterComponent
  import opened BulletComponent
  import opened Scene
  import Factories
  import Sweep
  import GameState
  import Transform
  import World
  import EventBus

  const ShootEvent := "shoot_bullet"
  const MaxLifetime := 5.0
  const HitRadius := 10.0

  // ---- Subscriptions ----

  /** `OnInit`: the bound shoot handler `callback` listens for shoot requests, without context. */
  function Init(w: World.World, s: World.System, callback: nat): (r: World.World)
    ensures s.attached ==>
      EventBus.Listeners(r.bus, ShootEvent) == EventBus.Listeners(w.bus, ShootEvent) + [EventBus.Listener(callback, None)]
    ensures !s.attached ==> r == w
  {
    World.SystemOn(w, s, ShootEvent, callback, None)
  }

  /** `OnDispose`: the same handler stops listening. */
  function Dispose(w: World.World, s: World.System, callback: nat): (r: World.World)
    ensures s.attached ==>
      EventBus.Listeners(r.bus, ShootEvent) == EventBus.Without(EventBus.Listeners(w.bus, ShootEvent), callback, None)
    ensures !s.attached ==> r == w
  {
    World.SystemOff(w, s, ShootEvent, callback, None)
  }

  /** Disposing right after initialising leaves the world's bus as it was. */
  lemma DisposeUndoesInit(w: World.World, s: World.System, callback: nat)
    requires EventBus.Valid(w.bus)
    requires forall l :: l in EventBus.Listeners(w.bus, ShootEvent) ==> !EventBus.Matches(l, callback, None)
    ensures Dispose(Init(w, s, callback), s, callback) == w
  {
    World.SystemOffUndoesOn(w, s, ShootEvent, callback, None);
  }

  // ---- What the queries find ----

  /** The bullets the system's query lists. */
  function Bullets(w: World.World): seq<nat> {
    World.Matching(w, multiset{BulletComponentId})
  }

  /** The monsters `_findFrontmostMonster` looks through. */
  function Monsters(w: World.World): seq<nat> {
    World.Matching(w, multiset{MonsterComponentId})
  }

  /** A listed, live, undestroyed entity holding every requested component is found. */
  lemma FoundBy(w: World.World, id: nat, ids: World.QueryKey)
    requires id in w.order && id in w.entities && w.entities[id].active && !w.entities[id].destroyed
    requires forall c :: c in ids ==> c in w.entities[id].components
    ensures id in World.Matching(w, ids)
  {
    FilterMembers(w.order, k => k in w.entities && w.entities[k].active && !w.entities[k].destroyed &&
                                forall c :: c in ids ==> c in w.entities[k].components);
  }

  /** A destroyed entity is found by no query. */
  lemma GoneFromQuery(w: World.World, id: nat, ids: World.QueryKey)
    requires id in w.entities ==> w.entities[id].destroyed
    ensures id !in World.Matching(w, ids)
  {
    FilterMembers(w.order, k => k in w.entities && w.entities[k].active && !w.entities[k].destroyed &&
                                forall c :: c in ids ==> c in w.entities[k].components);
  }

  // ---- Shooting ----

  /**
   `_onShootBullet`: one new `bullet` at the requested point carrying the requested
   damage, flying at 300 pixels per second with no lifetime yet, and listed by the
   system's query from then on; nothing else changes.
   */
  method OnShootBullet(w: World.World, x: real, y: real, damage: int) returns (r: World.World, id: nat)
    ensures id == w.counter + 1 && r.counter == id && r.entities.Keys == w.entities.Keys + {id}
    ensures r.entities[id].tag == "bullet"
    ensures BulletOf(r, id) == Some(Bullet(damage, 300.0, 0.0))
    ensures LocalPos(r, id) == Some(Transform.Point(x, y))
    ensures id in Bullets(r)
    ensures forall k, cid :: k != id ==> DataOf(r, k, cid) == DataOf(w, k, cid)
    ensures forall k :: k in w.transforms && k != id ==> k in r.transforms && r.transforms[k] == w.transforms[k]
    ensures forall k :: k in w.entities && k != id ==> r.entities[k] == w.entities[k]
  {
    var c := Factories.CreateBullet(w, x, y, damage);
    r, id := c.0, c.1;
    Listed(r, id);
  }

  /** A live bullet standing in the order is listed by the query. */
  lemma Listed(w: World.World, id: nat)
    requires id in w.order && id in w.entities && w.entities[id].active && !w.entities[id].destroyed
    requires BulletOf(w, id).Some?
    ensures id in Bullets(w)
  {
    assert DataOf(w, id, BulletComponentId).Some?;
    FoundBy(w, id, multiset{BulletComponentId});
  }

  // ---- The target ----

  /**
   A monster `_findFrontmostMonster` may pick: an active entity whose MonsterComponent
   is not dead and whose progress beats the starting mark of -1.
   */
  predicate Candidate(w: World.World, k: nat) {
    k in w.entities && w.entities[k].active && MonsterOf(w, k).Some? &&
    MonsterOf(w, k).value.state != Dead && MonsterOf(w, k).value.pathProgress > -1.0
  }

  function Progress(w: World.World, k: nat): real
    requires MonsterOf(w, k).Some?
  {
    MonsterOf(w, k).value.pathProgress
  }

  /**
   Position `i` of the list holds the frontmost monster: a candidate at least as far
   along as every candidate, and strictly further than every candidate before it.
   */
  predicate Leads(w: World.World, ms: seq<nat>, i: nat) {
    i < |ms| && Candidate(w, ms[i]) &&
    (forall j :: 0 <= j < |ms| && Candidate(w, ms[j]) ==> Progress(w, ms[j]) <= Progress(w, ms[i])) &&
    (forall j :: 0 <= j < i && Candidate(w, ms[j]) ==> Progress(w, ms[j]) < Progress(w, ms[i]))
  }

  /** At most one position leads. */
  lemma LeadsOnce(w: World.World, ms: seq<nat>, i: nat, j: nat)
    requires Leads(w, ms, i) && Leads(w, ms, j)
    ensures i == j
  {
  }

  /**
   `_findFrontmostMonster`'s scan with a strict comparison: no position when the list
   holds no candidate, otherwise the leading position, so ties go to the earliest.
   */
  method FindFrontmost(w: World.World, ms: seq<nat>) returns (at: Option<nat>)
    ensures at.None? <==> forall i :: 0 <= i < |ms| ==> !Candidate(w, ms[i])
    ensures at.Some? ==> Leads(w, ms, at.value)
  {
    at := None;
    var best := -1.0;
    var i := 0;
    while i < |ms|
      invariant 0 <= i <= |ms|
      invariant at.None? ==> best == -1.0 && forall j :: 0 <= j < i ==> !Candidate(w, ms[j])
      invariant at.Some? ==> at.value < i && Candidate(w, ms[at.value]) && best == Progress(w, ms[at.value])
      invariant at.Some? ==> forall j :: 0 <= j < i && Candidate(w, ms[j]) ==> Progress(w, ms[j]) <= best
      invariant at.Some? ==> forall j :: 0 <= j < at.value && Candidate(w, ms[j]) ==> Progress(w, ms[j]) < best
    {
      var k := ms[i];
      if k in w.entities && w.entities[k].active {
        var m := MonsterOf(w, k);
        if m.Some? && m.value.state != Dead && m.value.pathProgress > best {
          best := m.value.pathProgress;
          at := Some(i);
        }
      }
      i := i + 1;
    }
  }

  /** Where the target stands (`transform.x`, `transform.y`); every entity holds a Transform. */
  function Aim(w: World.World, t: nat): Transform.Point {
    LocalPos(w, t).GetOr(Transform.Point(0.0, 0.0))
  }

  // ---- One bullet ----

  /** What becomes of a bullet this frame. */
  datatype Flight = Expired | Hit | Fly(to: Transform.Point)

  function Gap(at: Transform.Point, target: Transform.Point): real {
    SqLen(target.x - at.x, target.y - at.y)
  }

  /**
   The bullet's fate: it expires once its lifetime, grown by `dt`, passes 5 seconds;
   otherwise it hits when the target is nearer than 10, and else it moves along the
   direction to the target by its speed times `dt`.
   */
  function Course(b: Bullet, at: Transform.Point, target: Transform.Point, dt: real, sqrt: real -> real): (f: Flight)
    ensures f.Expired? <==> b.lifetime + dt > MaxLifetime
    ensures f.Hit? <==> b.lifetime + dt <= MaxLifetime && sqrt(Gap(at, target)) < HitRadius
  {
    if b.lifetime + dt > MaxLifetime then Expired
    else
      var d := sqrt(Gap(at, target));
      if d < HitRadius then Hit
      else if d > 0.0 then
        Fly(Transform.Point(at.x + Stride(target.x - at.x, d, b.speed, dt), at.y + Stride(target.y - at.y, d, b.speed, dt)))
      else Fly(at)
  }

  /** One coordinate of a step: the offset `x` to the target over the distance `d`, times speed and `dt`. */
  function Stride(x: real, d: real, v: real, dt: real): real
    requires d != 0.0
  {
    x / d * v * dt
  }

  lemma ScaleLen(x: real, y: real, u: real)
    ensures SqLen(x * u, y * u) == (u * u) * SqLen(x, y)
  {
  }

  lemma Regroup(x: real, d: real, v: real, dt: real)
    requires d != 0.0
    ensures Stride(x, d, v, dt) == x * ((v * dt) / d)
  {
  }

  lemma Shorten(x: real, u: real)
    ensures x - x * u == x * (1.0 - u)
  {
  }

  /** A vector of length `d` scaled by `s / d` has length `s`. */
  lemma StepLen(dx: real, dy: real, d: real, s: real)
    requires d > 0.0 && d * d == SqLen(dx, dy)
    ensures SqLen(dx * (s / d), dy * (s / d)) == s * s
  {
    var u := s / d;
    ScaleLen(dx, dy, u);
    assert u * d == s;
    Sweep.ScaledSquare(u, s, d);
  }

  /** What is left of a vector of length `d` after a step of `s` along it has length `d - s`. */
  lemma RemainLen(dx: real, dy: real, d: real, s: real)
    requires d > 0.0 && d * d == SqLen(dx, dy)
    ensures SqLen(dx - dx * (s / d), dy - dy * (s / d)) == (d - s) * (d - s)
  {
    var u := s / d;
    Shorten(dx, u);
    Shorten(dy, u);
    ScaleLen(dx, dy, 1.0 - u);
    assert u * d == s;
    assert (1.0 - u) * d == d - s;
    Sweep.ScaledSquare(1.0 - u, d - s, d);
  }

  /**
   The step from `at` to `to`, against a target `d` away, is `s` long and leaves
   `d - s` to go, both squared.
   */
  predicate Straight(at: Transform.Point, to: Transform.Point, target: Transform.Point, d: real, s: real) {
    SqLen(to.x - at.x, to.y - at.y) == s * s && Gap(to, target) == (d - s) * (d - s)
  }

  /** A step of `s / d` of the way to a target `d` away is straight. */
  lemma StepToward(at: Transform.Point, target: Transform.Point, to: Transform.Point, d: real, s: real)
    requires d > 0.0 && d * d == Gap(at, target)
    requires to.x - at.x == (target.x - at.x) * (s / d) && to.y - at.y == (target.y - at.y) * (s / d)
    ensures Straight(at, to, target, d, s)
  {
    var dx, dy := target.x - at.x, target.y - at.y;
    StepLen(dx, dy, d, s);
    assert target.x - to.x == dx - dx * (s / d) && target.y - to.y == dy - dy * (s / d);
    RemainLen(dx, dy, d, s);
  }

  /**
   A flying bullet, with a true square root, is at least 10 away from the target and
   covers exactly its speed times `dt` straight towards it: the remaining distance
   squared is the old distance less that step, squared.
   */
  lemma FlightLaw(b: Bullet, at: Transform.Point, target: Transform.Point, dt: real, sqrt: real -> real)
    requires IsSqrt(sqrt)
    requires Course(b, at, target, dt, sqrt).Fly?
    ensures sqrt(Gap(at, target)) >= HitRadius
    ensures Straight(at, Course(b, at, target, dt, sqrt).to, target, sqrt(Gap(at, target)), b.speed * dt)
  {
    var q := Gap(at, target);
    assert SqrtAt(sqrt, q);
    var d := sqrt(q);
    var to := Course(b, at, target, dt, sqrt).to;
    Regroup(target.x - at.x, d, b.speed, dt);
    Regroup(target.y - at.y, d, b.speed, dt);
    StepToward(at, target, to, d, b.speed * dt);
  }

  /** The damage a bullet deals this frame: its own when it hits, none otherwise. */
  function HitOf(w: World.World, k: nat, tp: Transform.Point, dt: real, sqrt: real -> real): (hs: seq<int>)
    ensures |hs| <= 1
    ensures |hs| == 1 <==> (BulletOf(w, k).Some? && LocalPos(w, k).Some? &&
      Course(BulletOf(w, k).value, LocalPos(w, k).value, tp, dt, sqrt).Hit?)
    ensures |hs| == 1 ==> hs[0] == BulletOf(w, k).value.damage
  {
    if BulletOf(w, k).None? || LocalPos(w, k).None? then []
    else if Course(BulletOf(w, k).value, LocalPos(w, k).value, tp, dt, sqrt).Hit? then [BulletOf(w, k).value.damage]
    else []
  }

  /** The damages of the listed bullets that hit, in the order the backward loop visits them. */
  function Hits(w: World.World, bs: seq<nat>, tp: Transform.Point, dt: real, sqrt: real -> real): (hs: seq<int>)
    ensures |hs| <= |bs|
    decreases |bs|
  {
    if |bs| == 0 then [] else Hits(w, bs[1..], tp, dt, sqrt) + HitOf(w, bs[0], tp, dt, sqrt)
  }

  /** Damage applied in two runs is damage applied in one: the state carries over, the kills add up. */
  lemma {:induction false} DamageAllAppend(m: Monster, a: seq<int>, b: seq<int>)
    ensures var x := DamageAll(m, a);
      DamageAll(m, a + b) == (DamageAll(x.0, b).0, x.1 + DamageAll(x.0, b).1)
    decreases |a|
  {
    if |a| > 0 {
      assert (a + b)[1..] == a[1..] + b;
      DamageAllAppend(TakeDamage(m, a[0]).monster, a[1..], b);
    } else {
      assert a + b == b;
    }
  }

  /** Bullet `k` has had its frame: it aged by `dt`, and it moved as its course says or was destroyed where it stood. */
  predicate Flown(w: World.World, r: World.World, k: nat, tp: Transform.Point, dt: real, sqrt: real -> real) {
    BulletOf(w, k).Some? && LocalPos(w, k).Some? ==>
      var b := BulletOf(w, k).value;
      var f := Course(b, LocalPos(w, k).value, tp, dt, sqrt);
      BulletOf(r, k) == Some(b.(lifetime := b.lifetime + dt)) &&
      (f.Fly? ==> LocalPos(r, k) == Some(f.to)) &&
      (!f.Fly? ==> LocalPos(r, k) == LocalPos(w, k) && k in r.entities && r.entities[k].destroyed)
  }

  /** `Flown` from its parts, with the course already worked out. */
  lemma FlownBy(w: World.World, r: World.World, k: nat, tp: Transform.Point, dt: real, sqrt: real -> real,
                b: Bullet, f: Flight)
    requires BulletOf(w, k) == Some(b) && LocalPos(w, k).Some?
    requires f == Course(b, LocalPos(w, k).value, tp, dt, sqrt)
    requires BulletOf(r, k) == Some(b.(lifetime := b.lifetime + dt))
    requires f.Fly? ==> LocalPos(r, k) == Some(f.to)
    requires !f.Fly? ==> LocalPos(r, k) == LocalPos(w, k) && k in r.entities && r.entities[k].destroyed
    ensures Flown(w, r, k, tp, dt, sqrt)
  {
  }

  /** Entity `k`'s bullet data and position are as they were. */
  predicate Same(w: World.World, r: World.World, k: nat) {
    DataOf(r, k, BulletComponentId) == DataOf(w, k, BulletComponentId) && LocalPos(r, k) == LocalPos(w, k)
  }

  /**
   The frame keeps the registry's shape, every tag and active flag and every destroy
   mark, and all component data except bullets' and the target's monster.
   */
  ghost predicate Kept(w: World.World, r: World.World, t: nat) {
    r.entities.Keys == w.entities.Keys && r.transforms.Keys == w.transforms.Keys &&
    r.order == w.order && r.counter == w.counter && r.systems == w.systems && r.bus == w.bus &&
    (forall j {:trigger r.entities[j]} :: j in w.entities ==>
       r.entities[j].tag == w.entities[j].tag && r.entities[j].active == w.entities[j].active &&
       r.entities[j].components.Keys == w.entities[j].components.Keys &&
       (w.entities[j].destroyed ==> r.entities[j].destroyed)) &&
    (forall j, cid {:trigger DataOf(r, j, cid)} :: cid != BulletComponentId && (j != t || cid != MonsterComponentId) ==>
       DataOf(r, j, cid) == DataOf(w, j, cid))
  }

  lemma KeptTrans(a: World.World, b: World.World, c: World.World, t: nat)
    requires Kept(a, b, t) && Kept(b, c, t)
    ensures Kept(a, c, t)
  {
  }

  lemma SameTrans(a: World.World, b: World.World, c: World.World, k: nat)
    requires forall j :: j != k ==> Same(a, b, j)
    requires forall j :: j != k ==> Same(b, c, j)
    ensures forall j :: j != k ==> Same(a, c, j)
  {
    forall j | j != k ensures Same(a, c, j) {
      assert Same(a, b, j) && Same(b, c, j);
    }
  }

  /** A destroy request: only the destroy mark and the queue change. */
  method Retire(w: World.World, id: nat, t: nat) returns (r: World.World)
    ensures Kept(w, r, t) && forall j :: Same(w, r, j)
    ensures MonsterOf(r, t) == MonsterOf(w, t)
    ensures BulletOf(r, id) == BulletOf(w, id) && LocalPos(r, id) == LocalPos(w, id)
    ensures id in w.entities ==> r.entities[id].destroyed
  {
    r := World.DestroyEntity(w, id);
    forall j, cid ensures DataOf(r, j, cid) == DataOf(w, j, cid) {
      assert World.ComponentOf(r, j, cid) == World.ComponentOf(w, j, cid);
    }
  }

  /** The bullet's fields rewritten (its lifetime grown); nothing else changes. */
  method Age(w: World.World, k: nat, b: Bullet, t: nat) returns (r: World.World)
    requires BulletOf(w, k).Some?
    ensures BulletOf(r, k) == Some(b) && LocalPos(r, k) == LocalPos(w, k)
    ensures Kept(w, r, t) && forall j :: j != k ==> Same(w, r, j)
    ensures MonsterOf(r, t) == MonsterOf(w, t)
  {
    r := SetData(w, k, BulletComponentId, BulletData(b));
    assert DataOf(r, t, MonsterComponentId) == DataOf(w, t, MonsterComponentId);
  }

  /** The bullet put at a new position; nothing else changes. */
  method Move(w: World.World, k: nat, to: Transform.Point, t: nat) returns (r: World.World)
    requires k in w.transforms
    ensures LocalPos(r, k) == Some(to) && DataOf(r, k, BulletComponentId) == DataOf(w, k, BulletComponentId)
    ensures Kept(w, r, t) && forall j :: j != k ==> Same(w, r, j)
    ensures MonsterOf(r, t) == MonsterOf(w, t)
  {
    r := Place(w, k, to.x, to.y);
  }

  /**
   `MonsterComponent.TakeDamage` on the target: its state takes the damage, and a kill
   adds one to the kill count and asks for the target's destruction.
   */
  method Strike(w: World.World, g: GameState.GameState, t: nat, damage: int) returns (r: World.World, g1: GameState.GameState)
    requires MonsterOf(w, t).Some?
    ensures var d := TakeDamage(MonsterOf(w, t).value, damage);
      MonsterOf(r, t) == Some(d.monster) &&
      g1 == (if d.killed then GameState.IncrementKills(g) else g) &&
      (d.killed ==> r.entities[t].destroyed)
    ensures Kept(w, r, t) && forall j :: Same(w, r, j)
  {
    var d := TakeDamage(MonsterOf(w, t).value, damage);
    r := SetData(w, t, MonsterComponentId, MonsterData(d.monster));
    assert forall j :: Same(w, r, j);
    g1 := g;
    if d.killed {
      g1 := GameState.IncrementKills(g);
      var r1 := Retire(r, t, t);
      KeptTrans(w, r, r1, t);
      forall j ensures Same(w, r1, j) {
        assert Same(w, r, j) && Same(r, r1, j);
      }
      r := r1;
    }
  }

  /**
   Bullet `k` has had its frame against target `t` standing at `tp`: it flew or was
   destroyed as its course says, every other entity's bullet and position are as they
   were, the frame is kept, and the target took the bullet's damage if it hit, a kill
   adding one to the count and asking for the target's destruction.
   */
  ghost predicate Advanced(w: World.World, g: GameState.GameState, r: World.World, g1: GameState.GameState,
                           k: nat, t: nat, tp: Transform.Point, dt: real, sqrt: real -> real)
    requires MonsterOf(w, t).Some?
  {
    Flown(w, r, k, tp, dt, sqrt) && (forall j :: j != k ==> Same(w, r, j)) && Kept(w, r, t) &&
    var d := DamageAll(MonsterOf(w, t).value, HitOf(w, k, tp, dt, sqrt));
    MonsterOf(r, t) == Some(d.0) && g1.killCount == g.killCount + d.1 && g1.state == g.state &&
    (d.1 > 0 ==> t in r.entities && r.entities[t].destroyed)
  }

  /** The course says fly: the bullet ages and moves. */
  method FlyOn(w: World.World, g: GameState.GameState, k: nat, t: nat, tp: Transform.Point, dt: real,
               sqrt: real -> real) returns (r: World.World, g1: GameState.GameState)
    requires BulletOf(w, k).Some? && k in w.transforms && MonsterOf(w, t).Some?
    requires Course(BulletOf(w, k).value, LocalPos(w, k).value, tp, dt, sqrt).Fly?
    ensures Advanced(w, g, r, g1, k, t, tp, dt, sqrt)
  {
    var b := BulletOf(w, k).value;
    var f := Course(b, LocalPos(w, k).value, tp, dt, sqrt);
    var b1 := b.(lifetime := b.lifetime + dt);
    var r1 := Age(w, k, b1, t);
    r := Move(r1, k, f.to, t);
    g1 := g;
    assert HitOf(w, k, tp, dt, sqrt) == [];
    assert BulletOf(r, k) == Some(b1);
    KeptTrans(w, r1, r, t);
    SameTrans(w, r1, r, k);
    FlownBy(w, r, k, tp, dt, sqrt, b, f);
  }

  /** The course says expired: the bullet ages and is destroyed where it stands. */
  method Expire(w: World.World, g: GameState.GameState, k: nat, t: nat, tp: Transform.Point, dt: real,
                sqrt: real -> real) returns (r: World.World, g1: GameState.GameState)
    requires BulletOf(w, k).Some? && k in w.transforms && MonsterOf(w, t).Some?
    requires Course(BulletOf(w, k).value, LocalPos(w, k).value, tp, dt, sqrt).Expired?
    ensures Advanced(w, g, r, g1, k, t, tp, dt, sqrt)
  {
    var b := BulletOf(w, k).value;
    var f := Course(b, LocalPos(w, k).value, tp, dt, sqrt);
    var b1 := b.(lifetime := b.lifetime + dt);
    var r1 := Age(w, k, b1, t);
    r := Retire(r1, k, t);
    g1 := g;
    assert HitOf(w, k, tp, dt, sqrt) == [];
    KeptTrans(w, r1, r, t);
    SameTrans(w, r1, r, k);
    FlownBy(w, r, k, tp, dt, sqrt, b, f);
  }

  /** The first half of a hit: the bullet ages and the target takes its damage. */
  method Wound(w: World.World, g: GameState.GameState, k: nat, t: nat, b1: Bullet, damage: int)
    returns (r: World.World, g1: GameState.GameState)
    requires BulletOf(w, k).Some? && MonsterOf(w, t).Some?
    ensures BulletOf(r, k) == Some(b1) && LocalPos(r, k) == LocalPos(w, k)
    ensures Kept(w, r, t) && forall j :: j != k ==> Same(w, r, j)
    ensures var d := TakeDamage(MonsterOf(w, t).value, damage);
      MonsterOf(r, t) == Some(d.monster) &&
      g1 == (if d.killed then GameState.IncrementKills(g) else g) &&
      (d.killed ==> r.entities[t].destroyed)
  {
    var r1 := Age(w, k, b1, t);
    r, g1 := Strike(r1, g, t, damage);
    KeptTrans(w, r1, r, t);
    forall j | j != k ensures Same(w, r, j) {
      assert Same(w, r1, j) && Same(r1, r, j);
    }
    assert Same(r1, r, k);
  }

  /** The course says hit: the bullet ages, the target takes its damage, and the bullet is destroyed. */
  method HitTarget(w: World.World, g: GameState.GameState, k: nat, t: nat, tp: Transform.Point, dt: real,
                   sqrt: real -> real) returns (r: World.World, g1: GameState.GameState)
    requires BulletOf(w, k).Some? && k in w.transforms && MonsterOf(w, t).Some?
    requires Course(BulletOf(w, k).value, LocalPos(w, k).value, tp, dt, sqrt).Hit?
    ensures Advanced(w, g, r, g1, k, t, tp, dt, sqrt)
  {
    var b := BulletOf(w, k).value;
    var f := Course(b, LocalPos(w, k).value, tp, dt, sqrt);
    var b1 := b.(lifetime := b.lifetime + dt);
    var r1;
    r1, g1 := Wound(w, g, k, t, b1, b.damage);
    r := Retire(r1, k, t);
    assert HitOf(w, k, tp, dt, sqrt) == [b.damage];
    KeptTrans(w, r1, r, t);
    SameTrans(w, r1, r, k);
    FlownBy(w, r, k, tp, dt, sqrt, b, f);
  }

  /** One bullet's frame, exactly as the loop body does it. */
  method Advance(w: World.World, g: GameState.GameState, k: nat, t: nat, tp: Transform.Point, dt: real,
                 sqrt: real -> real) returns (r: World.World, g1: GameState.GameState)
    requires BulletOf(w, k).Some? && k in w.transforms && MonsterOf(w, t).Some?
    ensures Advanced(w, g, r, g1, k, t, tp, dt, sqrt)
  {
    var f := Course(BulletOf(w, k).value, LocalPos(w, k).value, tp, dt, sqrt);
    if f.Fly? {
      r, g1 := FlyOn(w, g, k, t, tp, dt, sqrt);
    } else if f.Expired? {
      r, g1 := Expire(w, g, k, t, tp, dt, sqrt);
    } else {
      r, g1 := HitTarget(w, g, k, t, tp, dt, sqrt);
    }
  }

  /** One more bullet has had its frame: the earlier ones stay flown, the rest untouched, the damage adds on. */
  lemma FlyOne(w: World.World, x: World.World, x1: World.World, bullets: seq<nat>, i: nat, t: nat,
               tp: Transform.Point, dt: real, sqrt: real -> real)
    requires 0 < i <= |bullets| && NoDup(bullets)
    requires forall k :: k in bullets[i..] ==> Flown(w, x, k, tp, dt, sqrt)
    requires forall k :: k !in bullets[i..] ==> Same(w, x, k)
    requires Flown(x, x1, bullets[i - 1], tp, dt, sqrt)
    requires forall j :: j != bullets[i - 1] ==> Same(x, x1, j)
    requires Kept(x, x1, t)
    ensures forall k :: k in bullets[i - 1..] ==> Flown(w, x1, k, tp, dt, sqrt)
    ensures forall k :: k !in bullets[i - 1..] ==> Same(w, x1, k)
    ensures Hits(w, bullets[i - 1..], tp, dt, sqrt) == Hits(w, bullets[i..], tp, dt, sqrt) + HitOf(x, bullets[i - 1], tp, dt, sqrt)
  {
    var k0 := bullets[i - 1];
    assert bullets[i - 1..] == [k0] + bullets[i..];
    assert bullets[i - 1..][1..] == bullets[i..];
    assert k0 !in bullets[i..];
    assert Same(w, x, k0);
    assert BulletOf(x, k0) == BulletOf(w, k0);
    assert HitOf(x, k0, tp, dt, sqrt) == HitOf(w, k0, tp, dt, sqrt);
    forall k | k !in bullets[i - 1..] ensures Same(w, x1, k) {
      assert Same(w, x, k) && Same(x, x1, k);
    }
    forall k | k in bullets[i - 1..] ensures Flown(w, x1, k, tp, dt, sqrt) {
      if k == k0 {
      } else {
        assert Same(x, x1, k);
        assert BulletOf(x1, k) == BulletOf(x, k);
      }
    }
  }

  /**
   The loop's damage bookkeeping: the target's state and the kill count after the
   earlier hits and then this bullet's are those after all of them together.
   */
  lemma Accrue(m0: Monster, before: seq<int>, hs: seq<int>, after: seq<int>,
               m: Option<Monster>, m1: Option<Monster>, c0: int, c: int, c1: int)
    requires after == before + hs
    requires m == Some(DamageAll(m0, before).0) && c == c0 + DamageAll(m0, before).1
    requires m1 == Some(DamageAll(m.value, hs).0) && c1 == c + DamageAll(m.value, hs).1
    ensures m1 == Some(DamageAll(m0, after).0) && c1 == c0 + DamageAll(m0, after).1
    ensures DamageAll(m0, after).1 > 0 ==> DamageAll(m0, before).1 > 0 || DamageAll(m.value, hs).1 > 0
  {
    DamageAllAppend(m0, before, hs);
  }

  // ---- The frame ----

  /** After a frame: the world, the game state, and the monster chased, if the frame looked for one and found it. */
  datatype Volley = Volley(world: World.World, game: GameState.GameState, target: Option<nat>)

  /**
   The loop of `Update` against target `t`: each bullet, from the last listed to the
   first, has its frame against the target's position at the start, and the target
   takes the hits' damage in that order, so it is counted as killed at most once.
   */
  method Chase(w: World.World, g: GameState.GameState, bullets: seq<nat>, t: nat, dt: real, sqrt: real -> real)
    returns (x: World.World, h: GameState.GameState)
    requires NoDup(bullets) && MonsterOf(w, t).Some?
    requires forall k :: k in bullets ==> BulletOf(w, k).Some?
    requires forall k :: k in w.entities ==> k in w.transforms
    ensures forall k :: k in bullets ==> Flown(w, x, k, Aim(w, t), dt, sqrt)
    ensures forall k :: k !in bullets ==> Same(w, x, k)
    ensures Kept(w, x, t)
    ensures var d := DamageAll(MonsterOf(w, t).value, Hits(w, bullets, Aim(w, t), dt, sqrt));
      MonsterOf(x, t) == Some(d.0) && h.killCount == g.killCount + d.1 && h.state == g.state &&
      (d.1 > 0 ==> x.entities[t].destroyed)
    ensures h.killCount <= g.killCount + 1
  {
    var tp := Aim(w, t);
    var m0 := MonsterOf(w, t).value;
    x, h := w, g;
    var i := |bullets|;
    ghost var hs := Hits(w, bullets[i..], tp, dt, sqrt);
    while i > 0
      invariant 0 <= i <= |bullets|
      invariant hs == Hits(w, bullets[i..], tp, dt, sqrt)
      invariant forall k :: k in bullets[i..] ==> Flown(w, x, k, tp, dt, sqrt)
      invariant forall k :: k !in bullets[i..] ==> Same(w, x, k)
      invariant Kept(w, x, t)
      invariant MonsterOf(x, t) == Some(DamageAll(m0, hs).0)
      invariant h.killCount == g.killCount + DamageAll(m0, hs).1
      invariant h.state == g.state
      invariant DamageAll(m0, hs).1 > 0 ==> x.entities[t].destroyed
    {
      var k := bullets[i - 1];
      assert k !in bullets[i..];
      assert BulletOf(x, k) == BulletOf(w, k) by {
        assert DataOf(x, k, BulletComponentId) == DataOf(w, k, BulletComponentId);
      }
      var x1, h1 := Advance(x, h, k, t, tp, dt, sqrt);
      FlyOne(w, x, x1, bullets, i, t, tp, dt, sqrt);
      KeptTrans(w, x, x1, t);
      ghost var hs1 := Hits(w, bullets[i - 1..], tp, dt, sqrt);
      Accrue(m0, hs, HitOf(x, k, tp, dt, sqrt), hs1, MonsterOf(x, t), MonsterOf(x1, t), g.killCount, h.killCount, h1.killCount);
      x, h, hs := x1, h1, hs1;
      i := i - 1;
    }
    assert bullets[0..] == bullets;
    KilledAtMostOnce(m0, Hits(w, bullets, tp, dt, sqrt));
  }

  /**
   `Update`: nothing while the game is not being played or when there are no bullets.
   Otherwise the frontmost monster is looked up once; without one every bullet is
   destroyed, and with one each bullet, from the last listed to the first, has its
   frame against the target's position at the start. The target takes the hits' damage
   in that order, so it is counted as killed at most once.
   */
  method Update(w: World.World, g: GameState.GameState, bullets: seq<nat>, dt: real, sqrt: real -> real)
    returns (r: Volley)
    requires NoDup(bullets)
    requires forall k :: k in bullets ==> BulletOf(w, k).Some?
    requires forall k :: k in w.entities ==> k in w.transforms
    ensures !GameState.IsPlaying(g) || |bullets| == 0 ==> r == Volley(w, g, None)
    ensures GameState.IsPlaying(g) && |bullets| > 0 ==>
      (r.target.None? <==> forall i :: 0 <= i < |Monsters(w)| ==> !Candidate(w, Monsters(w)[i]))
    ensures r.target.Some? ==> exists i :: 0 <= i < |Monsters(w)| && Monsters(w)[i] == r.target.value && Leads(w, Monsters(w), i)
    ensures GameState.IsPlaying(g) && |bullets| > 0 && r.target.None? ==>
      r.game == g && (forall k :: k in bullets ==> k in r.world.entities && r.world.entities[k].destroyed) &&
      (forall k, cid :: DataOf(r.world, k, cid) == DataOf(w, k, cid)) && r.world.transforms == w.transforms
    ensures r.target.Some? ==> Candidate(w, r.target.value)
    ensures r.target.Some? ==> forall k :: k in bullets ==> Flown(w, r.world, k, Aim(w, r.target.value), dt, sqrt)
    ensures r.target.Some? ==> forall k :: k !in bullets ==> Same(w, r.world, k)
    ensures r.target.Some? ==> Kept(w, r.world, r.target.value)
    ensures r.target.Some? && MonsterOf(w, r.target.value).Some? ==>
      var t := r.target.value;
      var d := DamageAll(MonsterOf(w, t).value, Hits(w, bullets, Aim(w, t), dt, sqrt));
      MonsterOf(r.world, t) == Some(d.0) && r.game.killCount == g.killCount + d.1 && r.game.state == g.state &&
      (d.1 > 0 ==> r.world.entities[t].destroyed)
    ensures r.game.killCount <= g.killCount + 1
  {
    if !GameState.IsPlaying(g) || |bullets| == 0 {
      return Volley(w, g, None);
    }
    var ms := Monsters(w);
    var at := FindFrontmost(w, ms);
    if at.None? {
      var rw := DestroyAll(w, Reverse(bullets));
      ReverseMembers(bullets);
      return Volley(rw, g, None);
    }
    var t := ms[at.value];
    var x, h := Chase(w, g, bullets, t, dt, sqrt);
    r := Volley(x, h, Some(t));
  }

  // ---- Restart ----

  /** `Reset`: every listed bullet is destroyed, from the first listed on; nothing else changes. */
  function Reset(w: World.World, bullets: seq<nat>): (r: World.World)
    ensures r.entities.Keys == w.entities.Keys
    ensures forall k :: k in w.entities && k in bullets ==> r.entities[k].destroyed
    ensures forall k, cid :: DataOf(r, k, cid) == DataOf(w, k, cid)
  {
    DestroyAll(w, bullets)
  }

  /** After a reset of the bullets the query lists, the query lists none. */
  lemma ResetClears(w: World.World)
    ensures Bullets(Reset(w, Bullets(w))) == []
  {
    var bs := Bullets(w);
    var r := Reset(w, bs);
    var ids := multiset{BulletComponentId};
    var p := k => k in w.entities && w.entities[k].active && !w.entities[k].destroyed &&
                  forall c :: c in ids ==> c in w.entities[k].components;
    var q := k => k in r.entities && r.entities[k].active && !r.entities[k].destroyed &&
                  forall c :: c in ids ==> c in r.entities[k].components;
    FilterMembers(w.order, p);
    FilterMembers(r.order, q);
    assert Bullets(r) == Filter(r.order, q);
    forall k | k in r.order ensures !q(k) {
      if k in r.entities && r.entities[k].active && BulletComponentId in r.entities[k].components {
        if !w.entities[k].destroyed {
          assert p(k);
          assert k in bs;
        }
        assert r.entities[k].destroyed;
      }
    }
    FilterNone(r.order, q);
  }
}
