/**
 `BrickGameSystem`: the brick-breaker's rules. Each collision hits the bricks among the
 two entities; each frame, until the game is won, balls sunk into a box are pushed out
 of it and the game is won once no brick is left.
 */
module BrickGameSystem {
  import opened Wrappers
  import opened Components
  import opened BrickComponent
  import opened Colliders
  import opened Render
  import opened Scene
  import opened Embedding
  import opened Reals
  import Transform
  import World
  import EventBus

  const CollisionEvent := "collision"
  const WinEvent := "brick_game_win"

  // ---- Subscriptions ----

  /** `OnInit`: the bound collision handler `callback` listens for collisions, without context. */
  function Init(w: World.World, s: World.System, callback: nat): (r: World.World)
    ensures s.attached ==>
      EventBus.Listeners(r.bus, CollisionEvent) == EventBus.Listeners(w.bus, CollisionEvent) + [EventBus.Listener(callback, None)]
    ensures !s.attached ==> r == w
  {
    World.SystemOn(w, s, CollisionEvent, callback, None)
  }

  /** `OnDispose`: the same handler stops listening. */
  function Dispose(w: World.World, s: World.System, callback: nat): (r: World.World)
    ensures s.attached ==>
      EventBus.Listeners(r.bus, CollisionEvent) == EventBus.Without(EventBus.Listeners(w.bus, CollisionEvent), callback, None)
    ensures !s.attached ==> r == w
  {
    World.SystemOff(w, s, CollisionEvent, callback, None)
  }

  /** Disposing right after initialising leaves the world's bus as it was. */
  lemma DisposeUndoesInit(w: World.World, s: World.System, callback: nat)
    requires EventBus.Valid(w.bus)
    requires forall l :: l in EventBus.Listeners(w.bus, CollisionEvent) ==> !EventBus.Matches(l, callback, None)
    ensures Dispose(Init(w, s, callback), s, callback) == w
  {
    World.SystemOffUndoesOn(w, s, CollisionEvent, callback, None);
  }

  // ---- Hits ----

  /**
   `BrickComponent.Hit` on entity `id`'s brick: nothing without a brick or for an
   indestructible one; otherwise one hit point less, and then either the entity is
   destroyed or its sprite, if any, takes the colour of the remaining hit points.
   */
  function HitBrick(w: World.World, id: nat): (r: World.World)
    ensures BrickOf(w, id).None? || !BrickOf(w, id).value.destructible ==> r == w
    ensures BrickOf(w, id).Some? && BrickOf(w, id).value.destructible ==>
      id in w.entities && id in r.entities && BrickOf(r, id) == Some(Hit(BrickOf(w, id).value).brick) &&
      (r.entities[id].destroyed <==> w.entities[id].destroyed || Hit(BrickOf(w, id).value).destroyed)
    ensures BrickOf(w, id).Some? && BrickOf(w, id).value.destructible && !Hit(BrickOf(w, id).value).destroyed &&
            SpriteOf(w, id).Some? ==>
      SpriteOf(r, id) == Some(SpriteOf(w, id).value.(color := HpColor(BrickOf(w, id).value.hp - 1, BrickOf(w, id).value.maxHp)))
    ensures forall k, cid :: k != id ==> DataOf(r, k, cid) == DataOf(w, k, cid)
    ensures forall k :: k in w.entities && k != id ==> k in r.entities && r.entities[k] == w.entities[k]
    ensures r.entities.Keys == w.entities.Keys && r.transforms == w.transforms
    ensures r.order == w.order && r.counter == w.counter && r.systems == w.systems && r.bus == w.bus
  {
    match BrickOf(w, id)
    case None => w
    case Some(b) =>
      if !b.destructible then w
      else
        var h := Hit(b);
        var w1 := SetData(w, id, BrickComponentId, BrickData(h.brick));
        if h.destroyed then World.DestroyEntity(w1, id)
        else
          match SpriteOf(w1, id)
          case None => w1
          case Some(s) => SetData(w1, id, SpriteRendererId, SpriteData(s.(color := HpColor(h.brick.hp, h.brick.maxHp))))
  }

  /** `_onCollision`: the second entity's brick is hit, then the first's. */
  function OnCollision(w: World.World, a: nat, b: nat): (r: World.World)
    ensures a != b && BrickOf(w, a).Some? && BrickOf(w, a).value.destructible ==>
      BrickOf(r, a) == Some(Hit(BrickOf(w, a).value).brick)
    ensures a != b && BrickOf(w, b).Some? && BrickOf(w, b).value.destructible ==>
      BrickOf(r, b) == Some(Hit(BrickOf(w, b).value).brick)
    ensures forall k, cid :: k != a && k != b ==> DataOf(r, k, cid) == DataOf(w, k, cid)
    ensures r.transforms == w.transforms && r.order == w.order && r.systems == w.systems
  {
    HitBrick(HitBrick(w, b), a)
  }

  /** `k` hits on the same entity. */
  function HitTimes(w: World.World, id: nat, k: nat): World.World {
    if k == 0 then w else HitBrick(HitTimes(w, id, k - 1), id)
  }

  /**
   Hits on a destructible brick count down its hit points one at a time, and the
   entity is marked destroyed exactly once a hit has brought them to zero or below.
   */
  lemma {:induction false} HitTimesCounts(w: World.World, id: nat, k: nat)
    requires BrickOf(w, id).Some? && BrickOf(w, id).value.destructible
    ensures id in w.entities && id in HitTimes(w, id, k).entities
    ensures BrickOf(HitTimes(w, id, k), id) == Some(Hits(BrickOf(w, id).value, k))
    ensures HitTimes(w, id, k).entities[id].destroyed <==>
      w.entities[id].destroyed || (k > 0 && BrickOf(w, id).value.hp - k <= 0)
  {
    var b := BrickOf(w, id).value;
    if k > 0 {
      HitTimesCounts(w, id, k - 1);
      var v := HitTimes(w, id, k - 1);
      assert BrickOf(v, id) == Some(Hits(b, k - 1));
      assert Hits(b, k - 1).destructible && Hits(b, k - 1).hp == b.hp - (k - 1);
    }
  }

  // ---- Embedded balls ----

  /** `r` differs from `w` at most in the local positions of the entities in `ids`. */
  predicate Moved(w: World.World, r: World.World, ids: set<nat>) {
    r.(transforms := w.transforms) == w && r.transforms.Keys == w.transforms.Keys &&
    forall k :: k in w.transforms ==>
      r.transforms[k] == if k in ids then w.transforms[k].(x := r.transforms[k].x, y := r.transforms[k].y)
                         else w.transforms[k]
  }

  lemma MovedTrans(a: World.World, b: World.World, c: World.World, s: set<nat>, t: set<nat>)
    requires Moved(a, b, s) && Moved(b, c, t)
    ensures Moved(a, c, s + t)
  {
  }

  /** `transform.x += d.x; transform.y += d.y` on the entity's Transform, if it has one. */
  function Nudge(w: World.World, id: nat, d: Transform.Point): (r: World.World)
    ensures LocalPos(w, id).Some? ==> LocalPos(r, id) == Some(Shift(LocalPos(w, id).value, d))
    ensures LocalPos(w, id).None? ==> r == w
    ensures Moved(w, r, {id})
  {
    match LocalPos(w, id)
    case None => w
    case Some(p) => Place(w, id, p.x + d.x, p.y + d.y)
  }

  /**
   The push box entity `other` gives the ball of centre `c`: none for the ball itself,
   an inactive entity or one without a box, else `PushOut` against the box's bounds in
   the current world.
   */
  function BoxPush(sqrt: real -> real, w: World.World, ball: nat, c: Transform.Point, radius: real, other: nat): Option<Transform.Point> {
    if other == ball || other !in w.entities || !w.entities[other].active then None
    else
      match BoxOf(w, other)
      case None => None
      case Some(box) => PushOut(sqrt, c, radius, GetBounds(box, World.PositionOf(w, other)))
  }

  /**
   The inner loop of `_fixEmbedding`: each box in turn may push the ball, whose centre
   `c` was read once before the loop; the pushes add up on its Transform.
   */
  function PushBall(sqrt: real -> real, w: World.World, ball: nat, c: Transform.Point, radius: real, boxes: seq<nat>): (r: World.World)
    ensures Moved(w, r, {ball})
    ensures (forall j :: 0 <= j < |boxes| ==> BoxPush(sqrt, w, ball, c, radius, boxes[j]).None?) ==> r == w
    ensures |boxes| == 1 && BoxPush(sqrt, w, ball, c, radius, boxes[0]).Some? ==>
      r == Nudge(w, ball, BoxPush(sqrt, w, ball, c, radius, boxes[0]).value)
    decreases |boxes|
  {
    if |boxes| == 0 then w
    else
      var d := BoxPush(sqrt, w, ball, c, radius, boxes[0]);
      var w1 := if d.Some? then Nudge(w, ball, d.value) else w;
      var r := PushBall(sqrt, w1, ball, c, radius, boxes[1..]);
      MovedTrans(w, w1, r, {ball}, {ball});
      r
  }

  /**
   A ball grazing, or centred inside, a single box with proper bounds moves by the push,
   which leaves its centre `radius + 0.1` from the box.
   */
  lemma OneBoxClears(sqrt: real -> real, w: World.World, ball: nat, c: Transform.Point, radius: real, other: nat)
    requires IsSqrt(sqrt) && radius >= 0.0 && ball in w.transforms
    requires other != ball && other in w.entities && w.entities[other].active && BoxOf(w, other).Some?
    requires var bounds := GetBounds(BoxOf(w, other).value, World.PositionOf(w, other));
      Proper(bounds) && (Inside(c, bounds) || Grazing(c, radius, bounds))
    ensures var bounds := GetBounds(BoxOf(w, other).value, World.PositionOf(w, other));
      var d := PushOut(sqrt, c, radius, bounds);
      d.Some? && LocalPos(PushBall(sqrt, w, ball, c, radius, [other]), ball) == Some(Shift(LocalPos(w, ball).value, d.value)) &&
      Gap(Shift(c, d.value), bounds) == (radius + Clearance) * (radius + Clearance)
  {
    var bounds := GetBounds(BoxOf(w, other).value, World.PositionOf(w, other));
    if Inside(c, bounds) {
      InsidePushClears(sqrt, c, radius, bounds);
    } else {
      GrazingPushClears(sqrt, c, radius, bounds);
    }
  }

  /** The ball's collider centre: its world position plus the collider offset. */
  function BallCenter(p: Transform.Point, col: CircleCollider): (c: Transform.Point)
    ensures c.x - col.offsetX == p.x && c.y - col.offsetY == p.y
  {
    Transform.Point(p.x + col.offsetX, p.y + col.offsetY)
  }

  /** One ball of `_fixEmbedding`: skipped when inactive or without a circle collider or a Transform. */
  function FixBall(sqrt: real -> real, w: World.World, ball: nat, boxes: seq<nat>): (r: World.World)
    ensures Moved(w, r, {ball})
    ensures ball !in w.entities || !w.entities[ball].active || CircleOf(w, ball).None? || ball !in w.transforms ==> r == w
  {
    if ball !in w.entities || !w.entities[ball].active then w
    else
      match (CircleOf(w, ball), World.PositionOf(w, ball))
      case (Some(col), Some(p)) => PushBall(sqrt, w, ball, BallCenter(p, col), col.radius, boxes)
      case _ => w
  }

  /** The outer loop: the balls in turn. */
  function FixBalls(sqrt: real -> real, w: World.World, balls: seq<nat>, boxes: seq<nat>): (r: World.World)
    ensures Moved(w, r, set k | k in balls)
    decreases |balls|
  {
    if |balls| == 0 then w
    else
      var w1 := FixBall(sqrt, w, balls[0], boxes);
      var r := FixBalls(sqrt, w1, balls[1..], boxes);
      assert (set k | k in balls) == {balls[0]} + (set k | k in balls[1..]);
      MovedTrans(w, w1, r, {balls[0]}, set k | k in balls[1..]);
      r
  }

  /**
   `_fixEmbedding`: the balls are the alive entities tagged "ball" and the boxes the
   alive entities with a box collider, both listed once at the start.
   */
  function FixEmbedding(sqrt: real -> real, w: World.World): (r: World.World)
    ensures Moved(w, r, set k | k in World.GetEntitiesByTag(w, "ball"))
    ensures r.entities == w.entities && r.order == w.order && r.systems == w.systems && r.bus == w.bus
  {
    FixBalls(sqrt, w, World.GetEntitiesByTag(w, "ball"), World.Matching(w, multiset{BoxColliderId}))
  }

  // ---- Winning ----

  predicate Active(w: World.World, id: nat) {
    id in w.entities && w.entities[id].active
  }

  /** `remaining`: how many of the listed bricks are active. */
  function Remaining(w: World.World, bricks: seq<nat>): (n: nat)
    ensures n <= |bricks|
    ensures n == 0 <==> forall i :: 0 <= i < |bricks| ==> !Active(w, bricks[i])
    ensures n == |bricks| <==> forall i :: 0 <= i < |bricks| ==> Active(w, bricks[i])
    decreases |bricks|
  {
    if |bricks| == 0 then 0
    else
      var n := Remaining(w, bricks[1..]);
      assert forall i :: 0 < i < |bricks| ==> bricks[i] == bricks[1..][i - 1];
      if Active(w, bricks[0]) then n + 1 else n
  }

  /** `_checkWin`'s condition: no brick is left. */
  predicate Won(w: World.World) {
    Remaining(w, World.GetEntitiesByTag(w, "brick")) == 0
  }

  /**
   The game is won exactly when no alive entity tagged "brick" is left; walls, tagged
   "wall", do not count.
   */
  lemma WonIff(w: World.World)
    ensures Won(w) <==> forall id :: id in w.order && World.Alive(w, id) ==> w.entities[id].tag != "brick"
  {
    var bricks := World.GetEntitiesByTag(w, "brick");
    World.GetEntitiesByTagMembers(w, "brick");
    if !Won(w) {
      var i :| 0 <= i < |bricks| && Active(w, bricks[i]);
      assert bricks[i] in bricks;
    }
  }

  /** What a frame leaves: the world, the `_won` latch, and whether "brick_game_win" was emitted. */
  datatype Frame = Frame(world: World.World, won: bool, emitted: bool)

  /**
   `Update`: nothing once won; otherwise the balls are freed, and the game is won (and
   the win announced) when no brick is left in the freed world.
   */
  function Update(sqrt: real -> real, w: World.World, won: bool): (f: Frame)
    ensures won ==> f == Frame(w, true, false)
    ensures !won ==> Moved(w, f.world, set k | k in World.GetEntitiesByTag(w, "ball")) && f.world.entities == w.entities
    ensures !won ==> f.won == f.emitted
    ensures !won ==> (f.emitted <==>
      forall id :: id in f.world.order && World.Alive(f.world, id) ==> f.world.entities[id].tag != "brick")
  {
    if won then Frame(w, true, false)
    else
      var w1 := FixEmbedding(sqrt, w);
      WonIff(w1);
      var win := Won(w1);
      Frame(w1, win, win)
  }

  /**
   A run of frames, given the world the system finds at each frame (the rest of the
   game runs between them): the final latch, and how many win events were emitted.
   */
  function Play(sqrt: real -> real, worlds: seq<World.World>, won: bool): (r: (bool, nat))
    decreases |worlds|
  {
    if |worlds| == 0 then (won, 0)
    else
      var f := Update(sqrt, worlds[0], won);
      var rest := Play(sqrt, worlds[1..], f.won);
      (rest.0, rest.1 + if f.emitted then 1 else 0)
  }

  /** The win is announced at most once, never after the game is won, and the latch stays set. */
  lemma {:induction false} PlayWinsOnce(sqrt: real -> real, worlds: seq<World.World>, won: bool)
    ensures Play(sqrt, worlds, won).1 <= 1
    ensures won ==> Play(sqrt, worlds, won) == (true, 0)
    ensures Play(sqrt, worlds, won).1 == 1 ==> Play(sqrt, worlds, won).0
    decreases |worlds|
  {
    if |worlds| > 0 {
      var f := Update(sqrt, worlds[0], won);
      PlayWinsOnce(sqrt, worlds[1..], f.won);
    }
  }
}
