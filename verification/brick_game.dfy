/**
 The brick-breaker scene of `BrickGame.Start`: a 10 by 15 grid of 32-pixel cells
 centred in the screen, whose three outer rings hold bricks (the outermost an
 indestructible wall), and a ball at the centre of the field.
 */
module BrickGame {
  import opened Wrappers
  import opened Components
  import opened BrickComponent
  import Transform
  import World
  import opened Scene
  import opened Factories
  import opened Colliders
  import opened Render
  import opened BrickLayout
  import BrickGameSystem
  import EventBus

  const CellSize := 32
  const FieldWidth := 320.0
  const FieldHeight := 480.0
  const BrickHp := 20
  const BallStartSpeed := 200.0

  // ---- Start ----

  /** The centre of a spot's cell, for the field's top-left corner at (`ox`, `oy`). */
  function Center(ox: real, oy: real, s: Spot): (p: Transform.Point)
    ensures p.x - ox == (s.col * CellSize) as real + (CellSize / 2) as real
    ensures p.y - oy == (s.row * CellSize) as real + (CellSize / 2) as real
  {
    Transform.Point(ox + (s.col * CellSize) as real + (CellSize / 2) as real,
                    oy + (s.row * CellSize) as real + (CellSize / 2) as real)
  }

  /** The brick of a spot: an indestructible grey wall, or a destructible green brick of 20 hit points. */
  function PlaceBrick(w: World.World, ox: real, oy: real, s: Spot): (r: (World.World, nat))
    ensures BrickAt(r.0, r.1, ox, oy, s)
    ensures r.1 == w.counter + 1 && Places(w, r.0, ox, oy, s)
  {
    var p := Center(ox, oy, s);
    if s.wall then CreateBrick(w, p.x, p.y, Some(false), None, Some(WallColor))
    else CreateBrick(w, p.x, p.y, Some(true), Some(BrickHp), Some(Green))
  }

  /** Entity `id` is the brick of spot `s`: tag, hit rule, colour and position. */
  predicate BrickAt(w: World.World, id: nat, ox: real, oy: real, s: Spot) {
    id in w.entities && w.entities[id].tag == (if s.wall then "wall" else "brick") &&
    BrickOf(w, id) == Some(Brick(!s.wall, BrickHp, BrickHp)) &&
    SpriteOf(w, id).Some? && SpriteOf(w, id).value.color == (if s.wall then WallColor else Green) &&
    LocalPos(w, id) == Some(Center(ox, oy, s))
  }

  /** The ids handed out after `counter`, in order. */
  function Fresh(counter: nat, n: nat): (ids: seq<nat>)
    ensures |ids| == n && forall i :: 0 <= i < n ==> ids[i] == counter + 1 + i
  {
    seq(n, i requires 0 <= i < n => counter + 1 + i)
  }

  lemma FreshCons(counter: nat, n: nat)
    requires n > 0
    ensures Fresh(counter, n) == [counter + 1] + Fresh(counter + 1, n - 1)
  {
    assert forall i :: 0 <= i < n ==> Fresh(counter, n)[i] == ([counter + 1] + Fresh(counter + 1, n - 1))[i];
  }

  /** Appending the next id and then the ids after it appends all of them. */
  lemma FreshAppend(order: seq<nat>, counter: nat, n: nat)
    requires n > 0
    ensures order + [counter + 1] + Fresh(counter + 1, n - 1) == order + Fresh(counter, n)
  {
    FreshCons(counter, n);
  }

  /** A brick stays the brick of its spot while its entity and its Transform are untouched. */
  lemma BrickAtKept(w: World.World, r: World.World, id: nat, ox: real, oy: real, s: Spot)
    requires BrickAt(w, id, ox, oy, s)
    requires id in r.entities && r.entities[id] == w.entities[id]
    requires id in w.transforms && id in r.transforms && r.transforms[id] == w.transforms[id]
    ensures BrickAt(r, id, ox, oy, s)
  {
    assert DataOf(r, id, BrickComponentId) == DataOf(w, id, BrickComponentId);
    assert DataOf(r, id, SpriteRendererId) == DataOf(w, id, SpriteRendererId);
  }

  /**
   What creating the brick of spot `s` does to `v`, giving `r`: the next id, appended to
   the creation order, is that brick; the entities and Transforms created earlier and
   the systems are left as they were.
   */
  predicate Places(v: World.World, r: World.World, ox: real, oy: real, s: Spot) {
    r.counter == v.counter + 1 && r.order == v.order + [r.counter] && BrickAt(r, r.counter, ox, oy, s) &&
    (forall k :: k in v.entities && k <= v.counter ==> k in r.entities && r.entities[k] == v.entities[k]) &&
    (forall k :: k in v.transforms && k <= v.counter ==> k in r.transforms && r.transforms[k] == v.transforms[k]) &&
    r.systems == v.systems && r.bus == v.bus
  }

  /** The nested grid loops of `Start`: `step` on each spot in turn. */
  function Each(w: World.World, spots: seq<Spot>, step: (World.World, Spot) -> World.World): World.World
    decreases |spots|
  {
    if |spots| == 0 then w else Each(step(w, spots[0]), spots[1..], step)
  }

  /** A step that places its spot's brick hands out one id per spot, in order... */
  lemma {:induction false} EachCounts(w: World.World, ox: real, oy: real, spots: seq<Spot>,
                                      step: (World.World, Spot) -> World.World)
    requires forall v, s :: Places(v, step(v, s), ox, oy, s)
    ensures var r := Each(w, spots, step);
      r.counter == w.counter + |spots| && r.order == w.order + Fresh(w.counter, |spots|) &&
      r.systems == w.systems && r.bus == w.bus
    decreases |spots|
  {
    if |spots| == 0 {
      assert Fresh(w.counter, 0) == [];
    } else {
      var w1 := step(w, spots[0]);
      assert Places(w, w1, ox, oy, spots[0]);
      EachCounts(w1, ox, oy, spots[1..], step);
      FreshAppend(w.order, w.counter, |spots|);
    }
  }

  /** ... leaves the entities and Transforms created before alone ... */
  lemma {:induction false} EachKeeps(w: World.World, ox: real, oy: real, spots: seq<Spot>,
                                     step: (World.World, Spot) -> World.World)
    requires forall v, s :: Places(v, step(v, s), ox, oy, s)
    ensures forall k :: k in w.entities && k <= w.counter ==>
      k in Each(w, spots, step).entities && Each(w, spots, step).entities[k] == w.entities[k]
    ensures forall k :: k in w.transforms && k <= w.counter ==>
      k in Each(w, spots, step).transforms && Each(w, spots, step).transforms[k] == w.transforms[k]
    decreases |spots|
  {
    if |spots| > 0 {
      var w1 := step(w, spots[0]);
      assert Places(w, w1, ox, oy, spots[0]);
      EachKeeps(w1, ox, oy, spots[1..], step);
    }
  }

  /** ... and leaves the brick of the `i`-th spot under the `i`-th new id. */
  lemma {:induction false} EachPlaces(w: World.World, ox: real, oy: real, spots: seq<Spot>,
                                      step: (World.World, Spot) -> World.World)
    requires forall v, s :: Places(v, step(v, s), ox, oy, s)
    ensures forall i :: 0 <= i < |spots| ==> BrickAt(Each(w, spots, step), w.counter + 1 + i, ox, oy, spots[i])
    decreases |spots|
  {
    if |spots| > 0 {
      var w1 := step(w, spots[0]);
      EachPlaces(w1, ox, oy, spots[1..], step);
      EachKeeps(w1, ox, oy, spots[1..], step);
      EachPlacesNext(w, w1, Each(w1, spots[1..], step), ox, oy, spots);
    }
  }

  /** The step of `EachPlaces`: the head's brick survives the rest, whose bricks follow it. */
  lemma EachPlacesNext(w: World.World, w1: World.World, r: World.World, ox: real, oy: real, spots: seq<Spot>)
    requires |spots| > 0 && Places(w, w1, ox, oy, spots[0])
    requires forall i :: 0 <= i < |spots[1..]| ==> BrickAt(r, w1.counter + 1 + i, ox, oy, spots[1..][i])
    requires forall k :: k in w1.entities && k <= w1.counter ==> k in r.entities && r.entities[k] == w1.entities[k]
    requires forall k :: k in w1.transforms && k <= w1.counter ==> k in r.transforms && r.transforms[k] == w1.transforms[k]
    ensures forall i :: 0 <= i < |spots| ==> BrickAt(r, w.counter + 1 + i, ox, oy, spots[i])
  {
    BrickAtKept(w1, r, w1.counter, ox, oy, spots[0]);
    PlacesShift(w.counter, w1.counter, r, ox, oy, spots);
  }

  /** The bricks of a list's tail, under the ids after its head's, with the head's brick in front. */
  lemma PlacesShift(counter: nat, first: nat, r: World.World, ox: real, oy: real, spots: seq<Spot>)
    requires |spots| > 0 && first == counter + 1 && BrickAt(r, first, ox, oy, spots[0])
    requires forall i :: 0 <= i < |spots[1..]| ==> BrickAt(r, first + 1 + i, ox, oy, spots[1..][i])
    ensures forall i :: 0 <= i < |spots| ==> BrickAt(r, counter + 1 + i, ox, oy, spots[i])
  {
    forall i | 0 < i < |spots| ensures BrickAt(r, counter + 1 + i, ox, oy, spots[i]) {
      assert spots[1..][i - 1] == spots[i];
      assert first + 1 + (i - 1) == counter + 1 + i;
    }
  }

  /** One brick per spot, in order. */
  function PlaceBricks(w: World.World, ox: real, oy: real, spots: seq<Spot>): World.World {
    Each(w, spots, (v, s) => PlaceBrick(v, ox, oy, s).0)
  }

  /** `PlaceBricks` places one brick per spot, each under the next id, and leaves the rest alone. */
  lemma PlaceBricksPlaces(w: World.World, ox: real, oy: real, spots: seq<Spot>)
    ensures var r := PlaceBricks(w, ox, oy, spots);
      r.counter == w.counter + |spots| && r.order == w.order + Fresh(w.counter, |spots|) &&
      r.systems == w.systems && r.bus == w.bus
    ensures forall i :: 0 <= i < |spots| ==> BrickAt(PlaceBricks(w, ox, oy, spots), w.counter + 1 + i, ox, oy, spots[i])
    ensures forall k :: k in w.entities && k <= w.counter ==>
      k in PlaceBricks(w, ox, oy, spots).entities && PlaceBricks(w, ox, oy, spots).entities[k] == w.entities[k]
  {
    var step := (v, s) => PlaceBrick(v, ox, oy, s).0;
    forall v, s ensures Places(v, step(v, s), ox, oy, s) {
      var p := PlaceBrick(v, ox, oy, s);
      assert step(v, s) == p.0;
    }
    EachCounts(w, ox, oy, spots, step);
    EachKeeps(w, ox, oy, spots, step);
    EachPlaces(w, ox, oy, spots, step);
  }

  /** `PlaceBricks`, with what `PlaceBricksPlaces` proves about it. */
  method LayBricks(w: World.World, ox: real, oy: real, spots: seq<Spot>) returns (r: World.World)
    ensures r.counter == w.counter + |spots| && r.order == w.order + Fresh(w.counter, |spots|)
    ensures r.systems == w.systems && r.bus == w.bus
    ensures forall i :: 0 <= i < |spots| ==> BrickAt(r, w.counter + 1 + i, ox, oy, spots[i])
    ensures forall k :: k in w.entities && k <= w.counter ==> k in r.entities && r.entities[k] == w.entities[k]
  {
    r := PlaceBricks(w, ox, oy, spots);
    PlaceBricksPlaces(w, ox, oy, spots);
  }

  /** Bricks stay where they are while their entities and Transforms are untouched. */
  lemma BricksKept(v: World.World, r: World.World, first: nat, ox: real, oy: real, spots: seq<Spot>, other: nat)
    requires forall i :: 0 <= i < |spots| ==> BrickAt(v, first + i, ox, oy, spots[i])
    requires other >= first + |spots| && Untouched(v, r, other)
    ensures forall i :: 0 <= i < |spots| ==> BrickAt(r, first + i, ox, oy, spots[i])
  {
    forall i | 0 <= i < |spots| ensures BrickAt(r, first + i, ox, oy, spots[i]) {
      BrickAtKept(v, r, first + i, ox, oy, spots[i]);
    }
  }

  /** The margin that centres a field of length `field` in a screen of length `size`. */
  function Origin(size: real, field: real): (o: real)
    ensures o + field + o == size
  {
    (size - field) / 2.0
  }

  /** The middle of the centred field: the middle of the screen. */
  function Middle(size: real, field: real): (m: real)
    ensures m == size / 2.0 && m - Origin(size, field) == field / 2.0
  {
    Origin(size, field) + field / 2.0
  }

  /**
   Between `w` and `r`, the game system's bound collision handler `callback` joined the
   end of the collision listeners, and no other event's listeners changed.
   */
  ghost predicate Subscribed(w: World.World, r: World.World, callback: nat) {
    EventBus.Listeners(r.bus, BrickGameSystem.CollisionEvent) ==
      EventBus.Listeners(w.bus, BrickGameSystem.CollisionEvent) + [EventBus.Listener(callback, None)] &&
    forall k :: k != BrickGameSystem.CollisionEvent ==> EventBus.Listeners(r.bus, k) == EventBus.Listeners(w.bus, k)
  }

  /**
   The game system is registered, and registering it runs its `OnInit`, which
   subscribes its collision handler `callback`; then one brick per spot, in order.
   */
  method PlaceField(w: World.World, ox: real, oy: real, handle: nat, callback: nat, spots: seq<Spot>)
    returns (r: World.World)
    ensures forall i :: 0 <= i < |spots| ==> BrickAt(r, w.counter + 1 + i, ox, oy, spots[i])
    ensures r.systems == w.systems + [World.System(handle, "BrickGameSystem", None, [], true)]
    ensures Subscribed(w, r, callback)
    ensures r.counter == w.counter + |spots| && r.order == w.order + Fresh(w.counter, |spots|)
    ensures forall k :: k in w.entities && k <= w.counter ==> k in r.entities && r.entities[k] == w.entities[k]
  {
    var w1 := World.AddSystem(w, World.NewSystem(handle, "BrickGameSystem", None));
    var w2 := BrickGameSystem.Init(w1, w1.systems[|w1.systems| - 1], callback);
    r := LayBricks(w2, ox, oy, spots);
  }

  /**
   The first two steps of `Start`: the game system is registered, then the layout's
   bricks are created cell by cell around the centred field.
   */
  method Field(w: World.World, width: real, height: real, handle: nat, callback: nat) returns (r: World.World)
    ensures forall i :: 0 <= i < |Layout()| ==>
      BrickAt(r, w.counter + 1 + i, Origin(width, FieldWidth), Origin(height, FieldHeight), Layout()[i])
    ensures r.systems == w.systems + [World.System(handle, "BrickGameSystem", None, [], true)]
    ensures Subscribed(w, r, callback)
    ensures r.counter == w.counter + |Layout()| && r.order == w.order + Fresh(w.counter, |Layout()|)
    ensures forall k :: k in w.entities && k <= w.counter ==> k in r.entities && r.entities[k] == w.entities[k]
  {
    r := PlaceField(w, Origin(width, FieldWidth), Origin(height, FieldHeight), handle, callback, Layout());
  }

  /** The last step of `Start`: the ball at (`x`, `y`), moving at `BallSpeed(speed)` along (`cos`, `sin`). */
  method Serve(f: World.World, x: real, y: real, speed: Option<real>, cos: real, sin: real) returns (r: World.World, ball: nat)
    ensures ball == f.counter + 1 && r.counter == ball && r.order == f.order + [ball]
    ensures ball in r.entities && r.entities[ball].tag == "ball"
    ensures LocalPos(r, ball) == Some(Transform.Point(x, y))
    ensures BodyOf(r, ball) == Some(RigidBody(cos * BallSpeed(speed), sin * BallSpeed(speed), 1.0))
    ensures CircleOf(r, ball) == Some(CircleCollider(5.0, 0.0, 0.0))
    ensures Untouched(f, r, ball) && r.systems == f.systems && r.bus == f.bus
  {
    var b := CreateBall(f, x, y, speed, cos, sin);
    r, ball := b.0, b.1;
  }

  /** `Start` over any list of spots, any field corner (`ox`, `oy`) and any ball position. */
  method Launch(w: World.World, ox: real, oy: real, x: real, y: real, handle: nat, callback: nat,
                cos: real, sin: real, spots: seq<Spot>)
    returns (r: World.World, ball: nat)
    ensures forall i :: 0 <= i < |spots| ==> BrickAt(r, w.counter + 1 + i, ox, oy, spots[i])
    ensures r.systems == w.systems + [World.System(handle, "BrickGameSystem", None, [], true)]
    ensures Subscribed(w, r, callback)
    ensures ball == w.counter + |spots| + 1 && r.counter == ball
    ensures r.order == w.order + Fresh(w.counter, |spots|) + [ball]
    ensures ball in r.entities && r.entities[ball].tag == "ball"
    ensures LocalPos(r, ball) == Some(Transform.Point(x, y))
    ensures BodyOf(r, ball) == Some(RigidBody(cos * BallSpeed(Some(BallStartSpeed)), sin * BallSpeed(Some(BallStartSpeed)), 1.0))
    ensures CircleOf(r, ball) == Some(CircleCollider(5.0, 0.0, 0.0))
    ensures forall k :: k in w.entities && k <= w.counter ==> k in r.entities && r.entities[k] == w.entities[k]
  {
    var f := PlaceField(w, ox, oy, handle, callback, spots);
    r, ball := Serve(f, x, y, Some(BallStartSpeed), cos, sin);
    BricksKept(f, r, w.counter + 1, ox, oy, spots, ball);
  }

  /**
   `Start`: the field, and then the ball at its centre, which is the centre of the
   screen, with speed 200 in the direction (`cos`, `sin`). The bricks are the entities
   created right after the given world's last one, in layout order, and the ball comes
   last; nothing that existed before changes.
   */
  method Start(w: World.World, width: real, height: real, handle: nat, callback: nat, cos: real, sin: real)
    returns (r: World.World, ball: nat)
    ensures forall i :: 0 <= i < |Layout()| ==>
      BrickAt(r, w.counter + 1 + i, Origin(width, FieldWidth), Origin(height, FieldHeight), Layout()[i])
    ensures r.systems == w.systems + [World.System(handle, "BrickGameSystem", None, [], true)]
    ensures Subscribed(w, r, callback)
    ensures ball == w.counter + |Layout()| + 1 && r.counter == ball
    ensures r.order == w.order + Fresh(w.counter, |Layout()|) + [ball]
    ensures ball in r.entities && r.entities[ball].tag == "ball"
    ensures LocalPos(r, ball) == Some(Transform.Point(Middle(width, FieldWidth), Middle(height, FieldHeight)))
    ensures BodyOf(r, ball) == Some(RigidBody(cos * BallStartSpeed, sin * BallStartSpeed, 1.0))
    ensures CircleOf(r, ball) == Some(CircleCollider(5.0, 0.0, 0.0))
    ensures forall k :: k in w.entities && k <= w.counter ==> k in r.entities && r.entities[k] == w.entities[k]
  {
    r, ball := Launch(w, Origin(width, FieldWidth), Origin(height, FieldHeight),
                      Middle(width, FieldWidth), Middle(height, FieldHeight), handle, callback, cos, sin, Layout());
  }
}
