/**
 The input system: a single-touch gesture machine fed from a buffered queue of
 `{type, x, y}` events. Hit testing picks the topmost enabled touch target; presses,
 drags and releases are routed to its handler, or emitted globally when nothing was
 hit. Handler callbacks are not run: each step reports the calls and events it makes.
 */
module Input {
  import opened Wrappers
  import opened Reals
  import opened Components
  import opened Colliders
  import opened Render
  import Transform
  import World
  import opened Scene

  const StartType := "start"
  const MoveType := "move"
  const EndType := "end"

  datatype TouchEvent = TouchEvent(kind: string, x: real, y: real)

  /** The tracking fields: pressed, press point, last point, dragging, distance travelled, hit entity. */
  datatype State = State(down: bool, startX: real, startY: real, lastX: real, lastY: real,
                         dragging: bool, totalDistance: real, hit: Option<nat>)

  /** The constructor: nothing pressed. */
  function Initial(): (s: State)
    ensures !s.down && !s.dragging && s.hit.None? && s.totalDistance == 0.0
  {
    State(false, 0.0, 0.0, 0.0, 0.0, false, 0.0, None)
  }

  /** What one step does beyond its own state: a handler callback, a global event, or a drag move. */
  datatype Effect =
    | TouchDown(entity: nat, x: real, y: real)
    | DragStart(entity: nat, x: real, y: real)
    | Drag(entity: nat, x: real, y: real, dx: real, dy: real)
    | TouchUp(entity: nat, x: real, y: real)
    | DragEnd(entity: nat, x: real, y: real)
    | Click(entity: nat, x: real, y: real)
    | Emitted(event: string, x: real, y: real)

  predicate Enabled(w: World.World, id: nat) {
    TouchOf(w, id).Some? && TouchOf(w, id).value.enabled
  }

  predicate InRect(px: real, py: real, left: real, right: real, top: real, bottom: real) {
    left <= px <= right && top <= py <= bottom
  }

  predicate InDisc(px: real, py: real, cx: real, cy: real, radius: real) {
    SqLen(px - cx, py - cy) <= radius * radius
  }

  /**
   `_isPointInEntity`: the box collider decides if there is one, else the circle
   collider, else a visible sprite, else a visible texture (all bounds inclusive);
   without any of them, or without a Transform for the renderers, the point is outside.
   */
  function PointIn(w: World.World, id: nat, px: real, py: real): (r: bool)
    ensures BoxOf(w, id).Some? ==>
      var b := GetBounds(BoxOf(w, id).value, World.PositionOf(w, id));
      (r <==> InRect(px, py, b.left, b.right, b.top, b.bottom))
    ensures BoxOf(w, id).None? && CircleOf(w, id).Some? ==>
      var c := GetCenter(CircleOf(w, id).value, World.PositionOf(w, id));
      (r <==> InDisc(px, py, c.x, c.y, CircleOf(w, id).value.radius))
    ensures r ==>
      (BoxOf(w, id).Some? || CircleOf(w, id).Some? ||
       (id in w.transforms &&
        ((SpriteOf(w, id).Some? && SpriteOf(w, id).value.visible) ||
         (TextureOf(w, id).Some? && TextureOf(w, id).value.visible))))
  {
    if BoxOf(w, id).Some? then
      var b := GetBounds(BoxOf(w, id).value, World.PositionOf(w, id));
      InRect(px, py, b.left, b.right, b.top, b.bottom)
    else if CircleOf(w, id).Some? then
      var c := GetCenter(CircleOf(w, id).value, World.PositionOf(w, id));
      InDisc(px, py, c.x, c.y, CircleOf(w, id).value.radius)
    else if id !in w.transforms then false
    else
      var p := Transform.WorldPos(w.transforms, id);
      var sprite := SpriteOf(w, id);
      if sprite.Some? && sprite.value.visible then
        var sp := sprite.value;
        match sp.shape
        case Rect => InRect(px, py, p.x - sp.width / 2.0, p.x + sp.width / 2.0, p.y - sp.height / 2.0, p.y + sp.height / 2.0)
        case Circle => InDisc(px, py, p.x, p.y, sp.radius)
      else
        var texture := TextureOf(w, id);
        if texture.Some? && texture.value.visible then
          var t := texture.value;
          var cx := p.x + t.offsetX;
          var cy := p.y + t.offsetY;
          InRect(px, py, cx - t.width / 2.0, cx + t.width / 2.0, cy - t.height / 2.0, cy + t.height / 2.0)
        else false
  }

  /** An entity a touch at the point can land on. */
  predicate Hittable(w: World.World, id: nat, x: real, y: real) {
    Enabled(w, id) && PointIn(w, id, x, y)
  }

  /** `_hitTest`: the last listed (topmost) hittable entity, else none. */
  function HitTest(w: World.World, ids: seq<nat>, x: real, y: real): (r: Option<nat>)
    ensures r.None? ==> forall k :: 0 <= k < |ids| ==> !Hittable(w, ids[k], x, y)
    ensures r.Some? ==>
      exists k :: 0 <= k < |ids| && ids[k] == r.value && Hittable(w, ids[k], x, y) &&
        (forall j :: k < j < |ids| ==> !Hittable(w, ids[j], x, y))
    decreases |ids|
  {
    if |ids| == 0 then None
    else
      var last := ids[|ids| - 1];
      if Hittable(w, last, x, y) then Some(last)
      else
        var r := HitTest(w, ids[..|ids| - 1], x, y);
        assert forall k :: 0 <= k < |ids| - 1 ==> ids[..|ids| - 1][k] == ids[k];
        r
  }

  /** `_handleTouchStart`: the press is recorded and routed to the hit entity, or emitted. */
  function Press(s: State, w: World.World, ids: seq<nat>, x: real, y: real): (r: (State, seq<Effect>))
    ensures r.0 == State(true, x, y, x, y, false, 0.0, HitTest(w, ids, x, y))
    ensures r.0.hit.None? ==> r.1 == [Emitted("touch_down", x, y)]
    ensures r.0.hit.Some? ==> r.1 == (if Enabled(w, r.0.hit.value) && TouchOf(w, r.0.hit.value).value.onTouchDown
                                      then [TouchDown(r.0.hit.value, x, y)] else [])
  {
    var hit := HitTest(w, ids, x, y);
    var s1 := State(true, x, y, x, y, false, 0.0, hit);
    match hit
    case None => (s1, [Emitted("touch_down", x, y)])
    case Some(h) =>
      if Enabled(w, h) && TouchOf(w, h).value.onTouchDown then (s1, [TouchDown(h, x, y)]) else (s1, [])
  }

  /** Move the entity's local position by the drag delta. */
  function Nudge(w: World.World, id: nat, dx: real, dy: real): (r: World.World)
    ensures id in w.transforms ==> r.transforms == w.transforms[id := w.transforms[id].(x := w.transforms[id].x + dx, y := w.transforms[id].y + dy)]
    ensures id !in w.transforms ==> r == w
    ensures r.entities == w.entities && r.order == w.order && r.queue == w.queue && r.systems == w.systems
  {
    if id in w.transforms then
      w.(transforms := w.transforms[id := w.transforms[id].(x := w.transforms[id].x + dx, y := w.transforms[id].y + dy)])
    else w
  }

  /**
   `_handleTouchMove`: ignored while not pressed. Otherwise, on an enabled hit entity,
   dragging starts once the distance from the press reaches the threshold, and while
   dragging a draggable entity follows the finger; with no hit entity the move is
   emitted. The last point is updated either way.
   */
  function Move(sqrt: real -> real, s: State, w: World.World, x: real, y: real): (r: (State, World.World, seq<Effect>))
    ensures !s.down ==> r == (s, w, [])
    ensures s.down ==> r.0.lastX == x && r.0.lastY == y && r.0.down && r.0.hit == s.hit
    ensures s.down ==> r.0.totalDistance == s.totalDistance + sqrt(SqLen(x - s.lastX, y - s.lastY))
    ensures s.dragging ==> r.0.dragging && forall k :: 0 <= k < |r.2| ==> !r.2[k].DragStart?
    ensures s.down && s.hit.None? ==> r.1 == w && r.2 == [Emitted("touch_move", x, y)] && r.0.dragging == s.dragging
    ensures s.down && !s.dragging && r.0.dragging ==>
      s.hit.Some? && Enabled(w, s.hit.value) &&
      sqrt(SqLen(x - s.startX, y - s.startY)) >= TouchOf(w, s.hit.value).value.dragThreshold
    ensures s.down && s.hit.Some? && r.0.dragging && Enabled(w, s.hit.value) && TouchOf(w, s.hit.value).value.draggable ==>
      r.1 == Nudge(w, s.hit.value, x - s.lastX, y - s.lastY)
    ensures r.1.entities == w.entities && r.1.order == w.order && r.1.queue == w.queue
  {
    if !s.down then (s, w, [])
    else
      var dx := x - s.lastX;
      var dy := y - s.lastY;
      var s1 := s.(totalDistance := s.totalDistance + sqrt(SqLen(dx, dy)), lastX := x, lastY := y);
      match s.hit
      case None => (s1, w, [Emitted("touch_move", x, y)])
      case Some(h) =>
        if !Enabled(w, h) then (s1, w, [])
        else
          var handler := TouchOf(w, h).value;
          var starts := !s.dragging && sqrt(SqLen(x - s.startX, y - s.startY)) >= handler.dragThreshold;
          var dragging := s.dragging || starts;
          var e1 := if starts && handler.onDragStart then [DragStart(h, x, y)] else [];
          if !dragging then (s1, w, e1)
          else
            var w1 := if handler.draggable then Nudge(w, h, dx, dy) else w;
            var e2 := if handler.onDrag then [Drag(h, x, y, dx, dy)] else [];
            (s1.(dragging := true), w1, e1 + e2)
  }

  /**
   `_handleTouchEnd`: ignored while not pressed. Otherwise an enabled hit entity gets
   its release and then the end of its drag or a click; with no hit entity the release
   and, unless dragging, a click are emitted. The touch is then over.
   */
  function Release(s: State, w: World.World, x: real, y: real): (r: (State, seq<Effect>))
    ensures !s.down ==> r == (s, [])
    ensures s.down ==> !r.0.down && !r.0.dragging && r.0.hit.None?
    ensures s.down && s.hit.None? ==>
      r.1 == [Emitted("touch_up", x, y)] + (if s.dragging then [] else [Emitted("click", x, y)])
    ensures s.down && s.hit.Some? && Enabled(w, s.hit.value) ==>
      var h := s.hit.value; var handler := TouchOf(w, h).value;
      r.1 == (if handler.onTouchUp then [TouchUp(h, x, y)] else []) +
             (if s.dragging then (if handler.onDragEnd then [DragEnd(h, x, y)] else [])
              else (if handler.onClick then [Click(h, x, y)] else []))
    ensures s.down && s.hit.Some? && !Enabled(w, s.hit.value) ==> r.1 == []
  {
    if !s.down then (s, [])
    else
      var s1 := s.(down := false, dragging := false, hit := None);
      match s.hit
      case None => (s1, [Emitted("touch_up", x, y)] + (if s.dragging then [] else [Emitted("click", x, y)]))
      case Some(h) =>
        if !Enabled(w, h) then (s1, [])
        else
          var handler := TouchOf(w, h).value;
          var up := if handler.onTouchUp then [TouchUp(h, x, y)] else [];
          var tail := if s.dragging then (if handler.onDragEnd then [DragEnd(h, x, y)] else [])
                      else (if handler.onClick then [Click(h, x, y)] else []);
          (s1, up + tail)
  }

  /** `_processTouchEvent`: dispatch on the type; other types are ignored. */
  function Process(sqrt: real -> real, s: State, w: World.World, ids: seq<nat>, e: TouchEvent)
    : (r: (State, World.World, seq<Effect>))
    ensures e.kind != StartType && e.kind != MoveType && e.kind != EndType ==> r == (s, w, [])
  {
    if e.kind == StartType then
      var p := Press(s, w, ids, e.x, e.y); (p.0, w, p.1)
    else if e.kind == MoveType then Move(sqrt, s, w, e.x, e.y)
    else if e.kind == EndType then
      var p := Release(s, w, e.x, e.y); (p.0, w, p.1)
    else (s, w, [])
  }

  /** One event's processing: the next state, the world after it, and what it did. */
  type Step = (State, World.World, TouchEvent) -> (State, World.World, seq<Effect>)

  /** Processing a queue event by event, first in first out, collecting the effects in order. */
  function Fold(step: Step, s: State, w: World.World, queue: seq<TouchEvent>): (r: (State, World.World, seq<Effect>))
    decreases |queue|
  {
    if |queue| == 0 then (s, w, [])
    else
      var p := step(s, w, queue[0]);
      var rest := Fold(step, p.0, p.1, queue[1..]);
      (rest.0, rest.1, p.2 + rest.2)
  }

  /** Folding two batches one after the other is folding them as one queue. */
  lemma {:induction false} FoldAppend(step: Step, s: State, w: World.World, q1: seq<TouchEvent>, q2: seq<TouchEvent>)
    ensures var a := Fold(step, s, w, q1); var b := Fold(step, a.0, a.1, q2);
      Fold(step, s, w, q1 + q2) == (b.0, b.1, a.2 + b.2)
    decreases |q1|
  {
    if |q1| > 0 {
      assert (q1 + q2)[0] == q1[0] && (q1 + q2)[1..] == q1[1..] + q2;
      var p := step(s, w, q1[0]);
      FoldAppend(step, p.0, p.1, q1[1..], q2);
      var a' := Fold(step, p.0, p.1, q1[1..]);
      var b := Fold(step, a'.0, a'.1, q2);
      assert p.2 + (a'.2 + b.2) == (p.2 + a'.2) + b.2;
    } else {
      assert q1 + q2 == q2;
      var b := Fold(step, s, w, q2);
      assert [] + b.2 == b.2;
    }
  }

  /** `Update`: the whole buffered queue, first in first out. */
  function Drain(sqrt: real -> real, s: State, w: World.World, ids: seq<nat>, queue: seq<TouchEvent>)
    : (r: (State, World.World, seq<Effect>))
    ensures |queue| == 0 ==> r == (s, w, [])
    ensures |queue| > 0 ==>
      var p := Process(sqrt, s, w, ids, queue[0]);
      var rest := Drain(sqrt, p.0, p.1, ids, queue[1..]);
      r == (rest.0, rest.1, p.2 + rest.2)
    decreases |queue|
  {
    Fold((s', w', e) => Process(sqrt, s', w', ids, e), s, w, queue)
  }

  /** Draining two batches one after the other is draining them as one queue, in order. */
  lemma DrainAppend(sqrt: real -> real, s: State, w: World.World, ids: seq<nat>,
                    q1: seq<TouchEvent>, q2: seq<TouchEvent>)
    ensures var a := Drain(sqrt, s, w, ids, q1); var b := Drain(sqrt, a.0, a.1, ids, q2);
      Drain(sqrt, s, w, ids, q1 + q2) == (b.0, b.1, a.2 + b.2)
  {
    FoldAppend((s', w', e) => Process(sqrt, s', w', ids, e), s, w, q1, q2);
  }

  /** The tracking invariant: dragging needs a hit entity, and an idle machine has neither. */
  predicate Inv(s: State) {
    (s.hit.None? ==> !s.dragging) && (!s.down ==> s.hit.None? && !s.dragging)
  }

  /** Every event keeps the invariant. */
  lemma ProcessInv(sqrt: real -> real, s: State, w: World.World, ids: seq<nat>, e: TouchEvent)
    requires Inv(s)
    ensures Inv(Process(sqrt, s, w, ids, e).0)
  {
  }

  /**
   With no hit entity there is never a drag, so releasing a touch that hit nothing
   always emits both the release and a click.
   */
  lemma {:induction false} ReleaseWithoutHitClicks(sqrt: real -> real, ids: seq<nat>, w: World.World,
                                                   queue: seq<TouchEvent>, x: real, y: real)
    requires var s := Drain(sqrt, Initial(), w, ids, queue).0; s.down && s.hit.None?
    ensures var d := Drain(sqrt, Initial(), w, ids, queue);
      Release(d.0, d.1, x, y).1 == [Emitted("touch_up", x, y), Emitted("click", x, y)]
  {
    DrainInv(sqrt, Initial(), w, ids, queue);
  }

  lemma {:induction false} DrainInv(sqrt: real -> real, s: State, w: World.World, ids: seq<nat>, queue: seq<TouchEvent>)
    requires Inv(s)
    ensures Inv(Drain(sqrt, s, w, ids, queue).0)
    decreases |queue|
  {
    if |queue| > 0 {
      ProcessInv(sqrt, s, w, ids, queue[0]);
      var p := Process(sqrt, s, w, ids, queue[0]);
      DrainInv(sqrt, p.0, p.1, ids, queue[1..]);
    }
  }

  /**
   A tap without movement on a touch target: the target gets its press, its release and
   a click, in that order, and the machine ends idle.
   */
  lemma TapClicks(sqrt: real -> real, s: State, w: World.World, ids: seq<nat>, x: real, y: real)
    requires HitTest(w, ids, x, y).Some? && var h := HitTest(w, ids, x, y).value;
      TouchOf(w, h).value.onTouchDown && TouchOf(w, h).value.onTouchUp && TouchOf(w, h).value.onClick
    ensures var h := HitTest(w, ids, x, y).value;
      var d := Drain(sqrt, s, w, ids, [TouchEvent(StartType, x, y), TouchEvent(EndType, x, y)]);
      d.2 == [TouchDown(h, x, y), TouchUp(h, x, y), Click(h, x, y)] && !d.0.down && d.1 == w
  {
    var h := HitTest(w, ids, x, y).value;
    var p := Press(s, w, ids, x, y);
    assert Enabled(w, h);
    var q := Release(p.0, w, x, y);
    assert q.1 == [TouchUp(h, x, y), Click(h, x, y)];
    var queue := [TouchEvent(StartType, x, y), TouchEvent(EndType, x, y)];
    assert queue[1..] == [TouchEvent(EndType, x, y)];
    assert queue[1..][1..] == [];
  }
}
