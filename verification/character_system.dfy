/**
 `CharacterSystem`: the pieces the player drags onto the grid. Three spawn slots below
 the field each hold a random piece; a piece dropped on free grid cells is placed
 there and stands on the grid as one phantom brick per cell, and one dropped anywhere
 else goes back where it came from. Once all three slots are empty they are refilled.
 Collisions with a phantom brick are routed to the piece it belongs to.
 */
module CharacterSystem {
  import opened Wrappers
  import opened Seqs
  import opened Reals
  import opened Components
  import opened Colliders
  import opened Render
  import opened CharacterComponent
  import opened Scene
  import CharacterDefs
  import Factories
  import Transform
  import World
  import EventBus

  const CollisionEvent := "collision"
  const SlotCount := 3
  /** How near, on each axis, an entity must stand to a cell's centre to occupy it: just under half a cell. */
  const Tolerance := 15.0

  /** Where the field lies (`Init`'s layout). */
  datatype Layout = Layout(originX: real, originY: real, gridCols: int, gridRows: int,
                           fieldWidth: real, fieldHeight: real, spawnAreaHeight: real)

  /** The layout before `Init`: a 10 by 15 grid, 320 by 480 pixels, at the origin, above an 80-pixel spawn area. */
  const DefaultLayout := Layout(0.0, 0.0, 10, 15, 320.0, 480.0, 80.0)

  /**
   The system's state: the layout, the piece in each spawn slot, the piece being dragged,
   and the shadow's snapped position with the occupancy of each of its cells.
   */
  datatype CharSys = CharSys(layout: Layout, slots: seq<Option<nat>>, dragging: Option<nat>,
                             shadow: Option<GridPos>, shadowOccupied: Option<seq<bool>>)

  /** The constructor: the default layout, three empty slots, nothing dragged, no shadow. */
  function New(): (s: CharSys)
    ensures s.layout == DefaultLayout && |s.slots| == SlotCount
    ensures forall i :: 0 <= i < |s.slots| ==> s.slots[i].None?
    ensures s.dragging.None? && s.shadow.None? && s.shadowOccupied.None?
  {
    CharSys(DefaultLayout, [None, None, None], None, None, None)
  }

  /** `Init`: the layout is replaced; nothing else changes. */
  function Init(s: CharSys, layout: Layout): (r: CharSys)
    ensures r.layout == layout && r.(layout := s.layout) == s
  {
    s.(layout := layout)
  }

  // ---- Subscriptions ----

  /** `OnInit`: the bound collision handler `callback` listens for collisions, without context. */
  function Subscribe(w: World.World, s: World.System, callback: nat): (r: World.World)
    ensures s.attached ==>
      EventBus.Listeners(r.bus, CollisionEvent) == EventBus.Listeners(w.bus, CollisionEvent) + [EventBus.Listener(callback, None)]
    ensures !s.attached ==> r == w
  {
    World.SystemOn(w, s, CollisionEvent, callback, None)
  }

  /** `OnDispose`: the same handler stops listening. */
  function Unsubscribe(w: World.World, s: World.System, callback: nat): (r: World.World)
    ensures s.attached ==>
      EventBus.Listeners(r.bus, CollisionEvent) == EventBus.Without(EventBus.Listeners(w.bus, CollisionEvent), callback, None)
    ensures !s.attached ==> r == w
  {
    World.SystemOff(w, s, CollisionEvent, callback, None)
  }

  /** Unsubscribing right after subscribing leaves the world's bus as it was. */
  lemma UnsubscribeUndoesSubscribe(w: World.World, s: World.System, callback: nat)
    requires EventBus.Valid(w.bus)
    requires forall l :: l in EventBus.Listeners(w.bus, CollisionEvent) ==> !EventBus.Matches(l, callback, None)
    ensures Unsubscribe(Subscribe(w, s, callback), s, callback) == w
  {
    World.SystemOffUndoesOn(w, s, CollisionEvent, callback, None);
  }

  // ---- Spawn slots ----

  /** Slot `i` exists and holds no piece. */
  predicate Free(slots: seq<Option<nat>>, i: int) {
    0 <= i < |slots| && slots[i].None?
  }

  /** The lowest free slot from `i` on, or -1. */
  function FreeFrom(slots: seq<Option<nat>>, i: nat): (k: int)
    requires i <= SlotCount
    ensures k == -1 || i <= k < SlotCount
    ensures k == -1 <==> forall j :: i <= j < SlotCount ==> !Free(slots, j)
    ensures k >= 0 ==> Free(slots, k) && forall j :: i <= j < k ==> !Free(slots, j)
    decreases SlotCount - i
  {
    if i == SlotCount then -1
    else if Free(slots, i) then i
    else FreeFrom(slots, i + 1)
  }

  /** `_findEmptySlot`: the lowest free slot, or -1 when all three hold a piece. */
  function FindEmptySlot(slots: seq<Option<nat>>): (k: int)
    ensures k == -1 || 0 <= k < SlotCount
    ensures k == -1 <==> forall j :: 0 <= j < SlotCount ==> !Free(slots, j)
    ensures k >= 0 ==> Free(slots, k) && forall j :: 0 <= j < k ==> !Free(slots, j)
  {
    FreeFrom(slots, 0)
  }

  /**
   The slot `_returnToSpawn` sends a piece to: its own slot when it has one, otherwise
   the lowest free slot, and slot 0 when every slot is taken.
   */
  function SlotFor(slotIndex: int, slots: seq<Option<nat>>): (i: int)
    ensures slotIndex >= 0 ==> i == slotIndex
    ensures slotIndex < 0 ==> 0 <= i < SlotCount
    ensures slotIndex < 0 && (exists j :: 0 <= j < SlotCount && Free(slots, j)) ==>
      Free(slots, i) && forall j :: 0 <= j < i ==> !Free(slots, j)
    ensures slotIndex < 0 && (forall j :: 0 <= j < SlotCount ==> !Free(slots, j)) ==> i == 0
  {
    var k := if slotIndex >= 0 then slotIndex else FindEmptySlot(slots);
    if k < 0 then 0 else k
  }

  /**
   A write to `_slots[i]`. An index outside the three slots (the -1 of a placed piece)
   adds a property that no slot scan reads, so the slots are unchanged.
   */
  function SetSlot(slots: seq<Option<nat>>, i: int, v: Option<nat>): (r: seq<Option<nat>>)
    ensures |r| == |slots|
    ensures forall j :: 0 <= j < |slots| ==> r[j] == if j == i then v else slots[j]
  {
    if 0 <= i < |slots| then slots[i := v] else slots
  }

  /** `_getSlotCenter`: the middle of slot `i`'s third of the field's width, halfway down the spawn area. */
  function SlotCenter(l: Layout, i: int): Transform.Point {
    Transform.Point(l.originX + (i as real + 0.5) * (l.fieldWidth / 3.0),
                    l.originY + l.fieldHeight + l.spawnAreaHeight / 2.0)
  }

  /** Each slot's centre lies strictly inside its own third of the spawn area. */
  lemma SlotCenterInside(l: Layout, i: int)
    requires 0 <= i < SlotCount && l.fieldWidth > 0.0 && l.spawnAreaHeight > 0.0
    ensures var c := SlotCenter(l, i);
      l.originX + (i as real) * (l.fieldWidth / 3.0) < c.x < l.originX + (i as real + 1.0) * (l.fieldWidth / 3.0) &&
      l.originY + l.fieldHeight < c.y < l.originY + l.fieldHeight + l.spawnAreaHeight
  {
    var u := l.fieldWidth / 3.0;
    assert (i as real + 0.5) * u == (i as real) * u + 0.5 * u;
    assert (i as real + 1.0) * u == (i as real) * u + u;
  }

  // ---- The grid ----

  /** The centre of grid cell (`row`, `col`). */
  function CellCenter(l: Layout, row: int, col: int): Transform.Point {
    Transform.Point(l.originX + (col * CellSize + CellSize / 2) as real,
                    l.originY + (row * CellSize + CellSize / 2) as real)
  }

  predicate InGrid(l: Layout, row: int, col: int) {
    0 <= row < l.gridRows && 0 <= col < l.gridCols
  }

  /** Every cell of the shape, anchored at (`row`, `col`), lies on the grid. */
  predicate OnGrid(l: Layout, cells: seq<Cell>, row: int, col: int) {
    forall i :: 0 <= i < |cells| ==> InGrid(l, row + cells[i].r, col + cells[i].c)
  }

  /** The centre of the anchor cell of a piece whose box is centred at `at`. */
  function Anchor(ch: Character, at: Transform.Point): Transform.Point {
    Transform.Point(at.x + ch.anchorOffset.x as real, at.y + ch.anchorOffset.y as real)
  }

  /** The index of the cell whose centre is nearest `a`, along an axis starting at `o`. */
  function Nearest(o: real, a: real): int {
    Round((a - o - (CellSize / 2) as real) / CellSize as real)
  }

  /**
   `_calcGridSnap` on a piece whose box is centred at `at`: the cell nearest the anchor
   cell's centre, half a cell at most away on each axis, when every cell of the piece
   then lies on the grid; none exactly when some cell would fall outside.
   */
  function SnapAt(l: Layout, ch: Character, at: Transform.Point): (g: Option<GridPos>)
    ensures g.Some? ==> OnGrid(l, ch.cells, g.value.row, g.value.col)
    ensures g.Some? ==>
      var a := Anchor(ch, at);
      var c := CellCenter(l, g.value.row, g.value.col);
      -16.0 < c.x - a.x <= 16.0 && -16.0 < c.y - a.y <= 16.0
    ensures g.None? <==>
      exists i :: 0 <= i < |ch.cells| &&
        !InGrid(l, Nearest(l.originY, Anchor(ch, at).y) + ch.cells[i].r, Nearest(l.originX, Anchor(ch, at).x) + ch.cells[i].c)
  {
    var a := Anchor(ch, at);
    var row := Nearest(l.originY, a.y);
    var col := Nearest(l.originX, a.x);
    if OnGrid(l, ch.cells, row, col) then Some(GridPos(row, col)) else None
  }

  /** Where `_placeCharacter` puts the centre of a piece anchored at (`row`, `col`). */
  function PlacedAt(l: Layout, ch: Character, row: int, col: int): Transform.Point {
    var c := CellCenter(l, row, col);
    Transform.Point(c.x - ch.anchorOffset.x as real, c.y - ch.anchorOffset.y as real)
  }

  /** Rounding an integer gives it back. */
  lemma RoundWhole(n: int)
    ensures Round(n as real) == n
  {
  }

  lemma NearestCell(o: real, n: int)
    ensures Nearest(o, o + (n * CellSize + CellSize / 2) as real) == n
  {
    var a := o + (n * CellSize + CellSize / 2) as real;
    assert a - o - (CellSize / 2) as real == (n * CellSize) as real;
    assert (n * CellSize) as real / CellSize as real == n as real;
    RoundWhole(n);
  }

  /** A piece placed at a grid position that fits snaps back to that position. */
  lemma SnapOfPlaced(l: Layout, ch: Character, row: int, col: int)
    requires OnGrid(l, ch.cells, row, col)
    ensures SnapAt(l, ch, PlacedAt(l, ch, row, col)) == Some(GridPos(row, col))
  {
    var a := Anchor(ch, PlacedAt(l, ch, row, col));
    assert a == CellCenter(l, row, col);
    NearestCell(l.originX, col);
    NearestCell(l.originY, row);
  }

  // ---- Occupancy ----

  /** Entity `k` is active and its world position is within the tolerance of `c` on both axes. */
  predicate Covers(w: World.World, k: nat, c: Transform.Point) {
    k in w.entities && w.entities[k].active && World.PositionOf(w, k).Some? &&
    Abs(World.PositionOf(w, k).value.x - c.x) < Tolerance && Abs(World.PositionOf(w, k).value.y - c.y) < Tolerance
  }

  /** Some listed entity covers `c`. */
  function AnyCovers(w: World.World, ks: seq<nat>, c: Transform.Point): (b: bool)
    ensures b <==> exists i :: 0 <= i < |ks| && Covers(w, ks[i], c)
    decreases |ks|
  {
    if |ks| == 0 then false
    else
      assert forall i :: 1 <= i < |ks| ==> ks[i] == ks[1..][i - 1];
      Covers(w, ks[0], c) || AnyCovers(w, ks[1..], c)
  }

  /** The entities `Query('BoxCollider')` lists: bricks, walls and phantom bricks. */
  function Boxes(w: World.World): seq<nat> {
    World.Matching(w, multiset{BoxColliderId})
  }

  /** The balls `GetEntitiesByTag('ball')` lists. */
  function Balls(w: World.World): seq<nat> {
    World.GetEntitiesByTag(w, "ball")
  }

  /** `_isCellOccupied`: some box-collider entity or ball covers the cell's centre. */
  function Occupied(w: World.World, l: Layout, row: int, col: int): (b: bool)
    ensures b <==> exists k :: (k in Boxes(w) || k in Balls(w)) && Covers(w, k, CellCenter(l, row, col))
  {
    var c := CellCenter(l, row, col);
    AnyCovers(w, Boxes(w), c) || AnyCovers(w, Balls(w), c)
  }

  /** `_checkCellsOccupied`: the occupancy of each cell of the shape anchored at (`row`, `col`). */
  function CellsOccupied(w: World.World, l: Layout, cells: seq<Cell>, row: int, col: int): (r: seq<bool>)
    ensures |r| == |cells|
  {
    seq(|cells|, i requires 0 <= i < |cells| => Occupied(w, l, row + cells[i].r, col + cells[i].c))
  }

  /** No cell of the shape anchored at (`row`, `col`) is occupied. */
  predicate CellsFree(w: World.World, l: Layout, cells: seq<Cell>, row: int, col: int) {
    forall i :: 0 <= i < |cells| ==> !Occupied(w, l, row + cells[i].r, col + cells[i].c)
  }

  /** `_checkAllCellsFree`, stopping at the first occupied cell: free exactly when no entry of `CellsOccupied` is set. */
  method AllCellsFree(w: World.World, l: Layout, cells: seq<Cell>, row: int, col: int) returns (free: bool)
    ensures free <==> forall i :: 0 <= i < |cells| ==> !CellsOccupied(w, l, cells, row, col)[i]
    ensures free == CellsFree(w, l, cells, row, col)
  {
    var i := 0;
    while i < |cells|
      invariant 0 <= i <= |cells|
      invariant forall j :: 0 <= j < i ==> !CellsOccupied(w, l, cells, row, col)[j]
      invariant forall j :: 0 <= j < i ==> !Occupied(w, l, row + cells[j].r, col + cells[j].c)
    {
      if Occupied(w, l, row + cells[i].r, col + cells[i].c) {
        assert CellsOccupied(w, l, cells, row, col)[i];
        return false;
      }
      i := i + 1;
    }
    return true;
  }

  // ---- The piece's state machine ----

  /** Drag start on the piece: it remembers where it came from and is dragging; a placed piece forgets its phantoms. */
  function Picked(ch: Character): (r: Character)
    ensures r.state == Dragging && r.dragOrigin == ch.state
    ensures r.phantomIds == if ch.state == Placed then [] else ch.phantomIds
    ensures r.(state := ch.state, dragOrigin := ch.dragOrigin, phantomIds := ch.phantomIds) == ch
  {
    ch.(dragOrigin := ch.state, state := Dragging, phantomIds := if ch.state == Placed then [] else ch.phantomIds)
  }

  /** `_placeCharacter` on the piece: placed at the anchor, out of its slot, standing as the phantoms `ps`. */
  function Settled(ch: Character, row: int, col: int, ps: seq<nat>): (r: Character)
    ensures r.state == Placed && r.prevGridPos == Some(GridPos(row, col)) && r.slotIndex == -1 && r.phantomIds == ps
    ensures r.(state := ch.state, prevGridPos := ch.prevGridPos, slotIndex := ch.slotIndex, phantomIds := ch.phantomIds) == ch
  {
    ch.(state := Placed, prevGridPos := Some(GridPos(row, col)), slotIndex := -1, phantomIds := ps)
  }

  /** `_returnToSpawn` on the piece: back in the spawn area, in slot `slot`. */
  function Returned(ch: Character, slot: int): (r: Character)
    ensures r.state == Spawn && r.slotIndex == slot
    ensures r.(state := ch.state, slotIndex := ch.slotIndex) == ch
  {
    ch.(state := Spawn, slotIndex := slot)
  }

  /** Where a dropped piece goes. */
  datatype Landing = PlaceAt(at: GridPos) | BackTo(at: GridPos) | ToSpawn

  /**
   `_onCharacterDragEnd`'s decision: the snapped position when there is one and all its
   cells are free; otherwise the previous grid position of a piece picked up from the
   grid, and the spawn area for any other piece.
   */
  function LandingOf(ch: Character, snap: Option<GridPos>, free: bool): (d: Landing)
    ensures d.PlaceAt? <==> snap.Some? && free
    ensures d.PlaceAt? ==> d.at == snap.value
    ensures d.BackTo? ==> ch.prevGridPos == Some(d.at)
  {
    if snap.Some? && free then PlaceAt(snap.value)
    else if ch.dragOrigin == Placed && ch.prevGridPos.Some? then BackTo(ch.prevGridPos.value)
    else ToSpawn
  }

  /**
   A rejected drop undoes the pick-up: a piece lifted off the grid goes back to where it
   stood, and a piece lifted from a slot goes back to the spawn area.
   */
  lemma RejectedDropReturns(ch: Character, snap: Option<GridPos>, free: bool)
    requires !(snap.Some? && free)
    ensures ch.state == Placed && ch.prevGridPos.Some? ==> LandingOf(Picked(ch), snap, free) == BackTo(ch.prevGridPos.value)
    ensures ch.state != Placed ==> LandingOf(Picked(ch), snap, free) == ToSpawn
  {
  }

  // ---- Pieces and phantoms as entities ----

  /** The piece `_spawnOneCharacter` makes for `slot` from the random draw: the drawn type's shape and colour. */
  function NewPiece(slot: int, random: real): (ch: Character)
    requires 0.0 <= random < 1.0
    ensures var t := CharacterDefs.GetType(CharacterDefs.RandomTypeId(random)).value;
      ch.typeId == CharacterDefs.RandomTypeId(random) && ch.cells == t.cells && ch.state == Spawn && ch.slotIndex == slot
  {
    var id := CharacterDefs.RandomTypeId(random);
    var t := CharacterDefs.GetType(id).value;
    NewCharacter(Some(id), Some(t.cells), Some(t.color), None, Some(slot))
  }

  /** The piece's invisible hit area: a visible rectangle of its box's size, with fill and border blanked. */
  function HitSprite(ch: Character): SpriteRenderer {
    NewSprite(Some(Rect), Some(ch.bboxWidth as real), Some(ch.bboxHeight as real), None, None, None, None, Some(true))
      .(color := "", borderColor := "")
  }

  /** The piece's touch handler: draggable once moved 3 pixels, with the three drag callbacks bound. */
  function DragTouch(): TouchHandler {
    NewTouch(false, false, false, true, true, true, None, Some(true), None, Some(3.0))
  }

  function PieceParts(ch: Character): seq<Component> {
    [Of(CharacterComponentId, CharacterData(ch)), Of(SpriteRendererId, SpriteData(HitSprite(ch))),
     Of(TouchHandlerId, TouchData(DragTouch()))]
  }

  /** A phantom's look: a 32 by 32 rectangle in the piece's colours with a 1-pixel border. */
  function PhantomSprite(ch: Character): SpriteRenderer {
    NewSprite(Some(Rect), Some(CellSize as real), Some(CellSize as real), None, Some(ch.color), Some(ch.borderColor), Some(1.0), None)
  }

  const PhantomBox := BoxCollider(32.0, 32.0, 0.0, 0.0)

  function PhantomParts(ch: Character, e: nat, i: int): seq<Component> {
    [Of(SpriteRendererId, SpriteData(PhantomSprite(ch))),
     Of(BoxColliderId, BoxData(NewBox(Some(CellSize as real), Some(CellSize as real), None, None))),
     Of(CharacterBrickComponentId, CharacterBrickData(NewCharacterBrick(Some(e), Some(ch.typeId), Some(i))))]
  }

  /** A piece's parts fit a fresh entity. */
  lemma PieceFits(ch: Character)
    ensures Factories.Fits({TransformId}, PieceParts(ch))
  {
    var cs := PieceParts(ch);
    Factories.Ids3(cs[0], cs[1], cs[2]);
  }

  /** A phantom's parts fit a fresh entity. */
  lemma PhantomFits(ch: Character, e: nat, i: int)
    ensures Factories.Fits({TransformId}, PhantomParts(ch, e, i))
  {
    var cs := PhantomParts(ch, e, i);
    Factories.Ids3(cs[0], cs[1], cs[2]);
  }

  /** A piece entity built with its parts holds them. */
  lemma PieceBuilt(w: World.World, x: real, y: real, ch: Character)
    ensures var r := Factories.Build(w, "", x, y, PieceParts(ch));
      CharacterOf(r.0, r.1) == Some(ch) && SpriteOf(r.0, r.1) == Some(HitSprite(ch)) && TouchOf(r.0, r.1) == Some(DragTouch())
  {
    var cs := PieceParts(ch);
    PieceFits(ch);
    var r := Factories.Build(w, "", x, y, cs);
    assert DataOf(r.0, r.1, cs[0].staticId) == Some(cs[0].data);
    assert DataOf(r.0, r.1, cs[1].staticId) == Some(cs[1].data);
    assert DataOf(r.0, r.1, cs[2].staticId) == Some(cs[2].data);
  }

  /** A phantom entity built with its parts holds them. */
  lemma PhantomBuilt(w: World.World, x: real, y: real, ch: Character, e: nat, i: int)
    ensures var r := Factories.Build(w, "character", x, y, PhantomParts(ch, e, i));
      SpriteOf(r.0, r.1) == Some(PhantomSprite(ch)) && BoxOf(r.0, r.1) == Some(PhantomBox) &&
      CharacterBrickOf(r.0, r.1) == Some(CharacterBrick(e, ch.typeId, i))
  {
    var cs := PhantomParts(ch, e, i);
    PhantomFits(ch, e, i);
    var r := Factories.Build(w, "character", x, y, cs);
    assert DataOf(r.0, r.1, cs[0].staticId) == Some(cs[0].data);
    assert DataOf(r.0, r.1, cs[1].staticId) == Some(cs[1].data);
    assert DataOf(r.0, r.1, cs[2].staticId) == Some(cs[2].data);
  }

  /**
   The world only grew: everything up to the old id counter, entities, Transforms and
   component fields, is as it was, and so are the systems and the bus.
   */
  ghost predicate Grows(w: World.World, r: World.World) {
    w.counter <= r.counter && w.entities.Keys <= r.entities.Keys && w.order <= r.order &&
    w.transforms.Keys <= r.transforms.Keys && r.systems == w.systems && r.bus == w.bus &&
    (forall k: nat {:trigger r.entities[k]} :: k in w.entities && k <= w.counter ==> r.entities[k] == w.entities[k]) &&
    (forall k: nat {:trigger r.transforms[k]} :: k in w.transforms && k <= w.counter ==> r.transforms[k] == w.transforms[k]) &&
    (forall k: nat, cid {:trigger DataOf(r, k, cid)} :: k <= w.counter ==> DataOf(r, k, cid) == DataOf(w, k, cid))
  }

  lemma GrowsTrans(a: World.World, b: World.World, c: World.World)
    requires Grows(a, b) && Grows(b, c)
    ensures Grows(a, c)
  {
    forall k: nat | k in a.transforms && k <= a.counter ensures c.transforms[k] == a.transforms[k] {
      assert b.transforms[k] == a.transforms[k];
    }
  }

  /** Building an entity only grows the world. */
  lemma BuildGrows(w: World.World, tag: string, x: real, y: real, cs: seq<Component>)
    ensures Grows(w, Factories.Build(w, tag, x, y, cs).0)
  {
    var r := Factories.Build(w, tag, x, y, cs);
    assert w.counter < r.1;
  }

  /** `r` differs from `s` at most in its slots. */
  predicate SlotsOnly(s: CharSys, r: CharSys) {
    r.layout == s.layout && r.dragging == s.dragging && r.shadow == s.shadow && r.shadowOccupied == s.shadowOccupied
  }

  /** Entity `id`, made after the counter of `w`, is a live piece `ch` standing at `at`, with its hit area and drag handler. */
  predicate Spawned(w: World.World, r: World.World, id: nat, at: Transform.Point, ch: Character) {
    w.counter < id <= r.counter && id in r.entities && r.entities[id].active && !r.entities[id].destroyed &&
    CharacterOf(r, id) == Some(ch) && LocalPos(r, id) == Some(at) &&
    SpriteOf(r, id) == Some(HitSprite(ch)) && TouchOf(r, id) == Some(DragTouch())
  }

  lemma SpawnedKept(w: World.World, x: World.World, x1: World.World, id: nat, at: Transform.Point, ch: Character)
    requires Spawned(w, x, id, at, ch) && Grows(x, x1)
    ensures Spawned(w, x1, id, at, ch)
  {
    assert DataOf(x1, id, CharacterComponentId) == DataOf(x, id, CharacterComponentId);
    assert DataOf(x1, id, SpriteRendererId) == DataOf(x, id, SpriteRendererId);
    assert DataOf(x1, id, TouchHandlerId) == DataOf(x, id, TouchHandlerId);
    assert x1.transforms[id] == x.transforms[id];
  }

  // ---- Spawning ----

  /**
   `_spawnOneCharacter`: a new untagged entity at the slot's centre holding the drawn
   piece, its hit area and its drag handler, entered in the slot.
   */
  method SpawnOne(w: World.World, s: CharSys, slot: int, random: real) returns (r: World.World, rs: CharSys, id: nat)
    requires 0 <= slot < |s.slots| && 0.0 <= random < 1.0
    ensures id == w.counter + 1 && r.counter == id && r.entities.Keys == w.entities.Keys + {id}
    ensures Spawned(w, r, id, SlotCenter(s.layout, slot), NewPiece(slot, random))
    ensures rs.slots == s.slots[slot := Some(id)] && SlotsOnly(s, rs)
    ensures Grows(w, r)
  {
    var ch := NewPiece(slot, random);
    var at := SlotCenter(s.layout, slot);
    var b := Factories.Build(w, "", at.x, at.y, PieceParts(ch));
    PieceBuilt(w, at.x, at.y, ch);
    BuildGrows(w, "", at.x, at.y, PieceParts(ch));
    r, id := b.0, b.1;
    rs := s.(slots := s.slots[slot := Some(id)]);
  }

  /** After the first `i` slots of the spawning loop: those slots are full, fresh pieces in the ones that were empty. */
  ghost predicate Filled(w: World.World, s: CharSys, draws: seq<real>, r: World.World, rs: CharSys, i: int)
    requires |s.slots| == SlotCount && |draws| == SlotCount
    requires forall i :: 0 <= i < SlotCount ==> 0.0 <= draws[i] < 1.0
  {
    0 <= i <= SlotCount && SlotsOnly(s, rs) && |rs.slots| == SlotCount &&
    (forall j :: 0 <= j < i ==> rs.slots[j].Some?) &&
    (forall j :: i <= j < SlotCount ==> rs.slots[j] == s.slots[j]) &&
    (forall j :: 0 <= j < i && s.slots[j].Some? ==> rs.slots[j] == s.slots[j]) &&
    (forall j :: 0 <= j < i && s.slots[j].None? ==>
      Spawned(w, r, rs.slots[j].value, SlotCenter(s.layout, j), NewPiece(j, draws[j]))) &&
    Grows(w, r)
  }

  /** Slot `i`, empty, has just been given the piece `id`: the loop's facts extend over it. */
  lemma FilledNext(w: World.World, s: CharSys, draws: seq<real>, r: World.World, rs: CharSys, i: int,
                   r1: World.World, rs1: CharSys, id: nat)
    requires |s.slots| == SlotCount && |draws| == SlotCount && 0 <= i < SlotCount
    requires forall i :: 0 <= i < SlotCount ==> 0.0 <= draws[i] < 1.0
    requires Filled(w, s, draws, r, rs, i) && rs.slots[i].None?
    requires Spawned(r, r1, id, SlotCenter(rs.layout, i), NewPiece(i, draws[i]))
    requires rs1.slots == rs.slots[i := Some(id)] && SlotsOnly(rs, rs1) && Grows(r, r1)
    ensures Filled(w, s, draws, r1, rs1, i + 1)
  {
    SlotsNext(s, rs, rs1, i, id);
    EarlierKept(w, s, draws, r, rs, i, r1, rs1);
    GrowsTrans(w, r, r1);
    var at, ch := SlotCenter(s.layout, i), NewPiece(i, draws[i]);
    assert Spawned(w, r1, id, at, ch);
    forall j | 0 <= j < i + 1 && s.slots[j].None?
      ensures Spawned(w, r1, rs1.slots[j].value, SlotCenter(s.layout, j), NewPiece(j, draws[j]))
    {
      if j == i {
        assert rs1.slots[j].value == id;
      }
    }
  }

  /** The slot bookkeeping of one turn of the spawning loop. */
  lemma SlotsNext(s: CharSys, rs: CharSys, rs1: CharSys, i: int, id: nat)
    requires |s.slots| == SlotCount && |rs.slots| == SlotCount && 0 <= i < SlotCount
    requires forall j :: 0 <= j < i ==> rs.slots[j].Some?
    requires forall j :: i <= j < SlotCount ==> rs.slots[j] == s.slots[j]
    requires forall j :: 0 <= j < i && s.slots[j].Some? ==> rs.slots[j] == s.slots[j]
    requires rs1.slots == rs.slots[i := Some(id)] && rs.slots[i].None?
    ensures |rs1.slots| == SlotCount
    ensures forall j :: 0 <= j < SlotCount && j != i ==> rs1.slots[j] == rs.slots[j]
    ensures forall j :: 0 <= j < i + 1 ==> rs1.slots[j].Some?
    ensures forall j :: i + 1 <= j < SlotCount ==> rs1.slots[j] == s.slots[j]
    ensures forall j :: 0 <= j < i + 1 && s.slots[j].Some? ==> rs1.slots[j] == s.slots[j]
    ensures rs1.slots[i] == Some(id)
  {
  }

  /** The pieces spawned before slot `i` stay as they were while slot `i` is filled. */
  lemma EarlierKept(w: World.World, s: CharSys, draws: seq<real>, r: World.World, rs: CharSys, i: int,
                    r1: World.World, rs1: CharSys)
    requires |s.slots| == SlotCount && |draws| == SlotCount && 0 <= i < SlotCount
    requires forall i :: 0 <= i < SlotCount ==> 0.0 <= draws[i] < 1.0
    requires |rs.slots| == SlotCount && |rs1.slots| == SlotCount
    requires forall j :: 0 <= j < i ==> rs.slots[j].Some? && rs1.slots[j] == rs.slots[j]
    requires forall j :: 0 <= j < i && s.slots[j].None? ==>
      Spawned(w, r, rs.slots[j].value, SlotCenter(s.layout, j), NewPiece(j, draws[j]))
    requires Grows(r, r1)
    ensures forall j :: 0 <= j < i && s.slots[j].None? ==>
      Spawned(w, r1, rs1.slots[j].value, SlotCenter(s.layout, j), NewPiece(j, draws[j]))
  {
    forall j | 0 <= j < i && s.slots[j].None?
      ensures Spawned(w, r1, rs1.slots[j].value, SlotCenter(s.layout, j), NewPiece(j, draws[j]))
    {
      SpawnedKept(w, r, r1, rs.slots[j].value, SlotCenter(s.layout, j), NewPiece(j, draws[j]));
    }
  }

  /** One turn of the spawning loop: slot `i` is filled if it was empty. */
  method FillSlot(w: World.World, s: CharSys, draws: seq<real>, r: World.World, rs: CharSys, i: int)
    returns (r1: World.World, rs1: CharSys)
    requires |s.slots| == SlotCount && |draws| == SlotCount && 0 <= i < SlotCount
    requires forall i :: 0 <= i < SlotCount ==> 0.0 <= draws[i] < 1.0
    requires Filled(w, s, draws, r, rs, i)
    ensures Filled(w, s, draws, r1, rs1, i + 1)
  {
    if rs.slots[i].None? {
      var id;
      r1, rs1, id := SpawnOne(r, rs, i, draws[i]);
      FilledNext(w, s, draws, r, rs, i, r1, rs1, id);
    } else {
      r1, rs1 := r, rs;
    }
  }

  /**
   `SpawnCharacters`: every empty slot gets a newly spawned piece, from that slot's draw;
   a slot holding a piece keeps it.
   */
  method SpawnCharacters(w: World.World, s: CharSys, draws: seq<real>) returns (r: World.World, rs: CharSys)
    requires |s.slots| == SlotCount && |draws| == SlotCount
    requires forall i :: 0 <= i < SlotCount ==> 0.0 <= draws[i] < 1.0
    ensures SlotsOnly(s, rs) && |rs.slots| == SlotCount
    ensures forall i :: 0 <= i < SlotCount ==> rs.slots[i].Some?
    ensures forall i :: 0 <= i < SlotCount && s.slots[i].Some? ==> rs.slots[i] == s.slots[i]
    ensures forall i :: 0 <= i < SlotCount && s.slots[i].None? ==>
      Spawned(w, r, rs.slots[i].value, SlotCenter(s.layout, i), NewPiece(i, draws[i]))
    ensures Grows(w, r)
  {
    r, rs := w, s;
    var i := 0;
    while i < SlotCount
      invariant 0 <= i <= SlotCount
      invariant Filled(w, s, draws, r, rs, i)
    {
      r, rs := FillSlot(w, s, draws, r, rs, i);
      i := i + 1;
    }
  }

  /** `_checkRefill`: the slots are refilled only when all three are empty. */
  method CheckRefill(w: World.World, s: CharSys, draws: seq<real>) returns (r: World.World, rs: CharSys)
    requires |s.slots| == SlotCount && |draws| == SlotCount
    requires forall i :: 0 <= i < SlotCount ==> 0.0 <= draws[i] < 1.0
    ensures (exists i :: 0 <= i < SlotCount && s.slots[i].Some?) ==> r == w && rs == s
    ensures (forall i :: 0 <= i < SlotCount ==> s.slots[i].None?) ==>
      SlotsOnly(s, rs) && |rs.slots| == SlotCount &&
      forall i :: 0 <= i < SlotCount ==> rs.slots[i].Some? && Spawned(w, r, rs.slots[i].value, SlotCenter(s.layout, i), NewPiece(i, draws[i]))
    ensures Grows(w, r) && |rs.slots| == SlotCount && SlotsOnly(s, rs)
  {
    var i := 0;
    while i < SlotCount
      invariant 0 <= i <= SlotCount
      invariant forall j :: 0 <= j < i ==> s.slots[j].None?
    {
      if s.slots[i].Some? {
        return w, s;
      }
      i := i + 1;
    }
    r, rs := SpawnCharacters(w, s, draws);
  }

  // ---- Phantom bricks ----

  /**
   Entity `p` is a live phantom brick of piece `e`, for the piece's cell `i`: tagged
   `character`, without a parent, centred on grid cell (`row`, `col`), drawn in the
   piece's colours, with a 32 by 32 box collider and the back-reference to the piece.
   */
  predicate PhantomAt(w: World.World, p: nat, l: Layout, e: nat, ch: Character, i: int, row: int, col: int) {
    p in w.entities && p in w.order && w.entities[p].tag == "character" &&
    w.entities[p].active && !w.entities[p].destroyed &&
    p in w.transforms && w.transforms[p].parent.None? &&
    LocalPos(w, p) == Some(CellCenter(l, row, col)) &&
    SpriteOf(w, p) == Some(PhantomSprite(ch)) && BoxOf(w, p) == Some(PhantomBox) &&
    CharacterBrickOf(w, p) == Some(CharacterBrick(e, ch.typeId, i))
  }

  lemma PhantomKept(x: World.World, x1: World.World, p: nat, l: Layout, e: nat, ch: Character, i: int, row: int, col: int)
    requires PhantomAt(x, p, l, e, ch, i, row, col) && p <= x.counter && Grows(x, x1)
    ensures PhantomAt(x1, p, l, e, ch, i, row, col)
  {
    assert DataOf(x1, p, SpriteRendererId) == DataOf(x, p, SpriteRendererId);
    assert DataOf(x1, p, BoxColliderId) == DataOf(x, p, BoxColliderId);
    assert DataOf(x1, p, CharacterBrickComponentId) == DataOf(x, p, CharacterBrickComponentId);
    assert x1.transforms[p] == x.transforms[p];
    assert x1.entities[p] == x.entities[p];
  }

  /**
   A phantom brick occupies its cell: it is a box collider the occupancy scan lists, and
   it stands exactly on the cell's centre.
   */
  lemma PhantomOccupies(w: World.World, p: nat, l: Layout, e: nat, ch: Character, i: int, row: int, col: int)
    requires PhantomAt(w, p, l, e, ch, i, row, col)
    ensures Occupied(w, l, row, col)
  {
    var ids: World.QueryKey := multiset{BoxColliderId};
    var keep := id => id in w.entities && w.entities[id].active && !w.entities[id].destroyed &&
                      forall c :: c in ids ==> c in w.entities[id].components;
    FilterMembers(w.order, keep);
    assert World.Matching(w, ids) == Filter(w.order, keep);
    assert World.ComponentOf(w, p, BoxColliderId).Some?;
    assert p in Boxes(w);
    assert World.PositionOf(w, p) == Some(CellCenter(l, row, col));
    assert Covers(w, p, CellCenter(l, row, col));
  }

  /** `_createPhantoms`, one turn: the phantom for cell `i` of a piece anchored at (`row`, `col`). */
  method MakePhantom(w: World.World, l: Layout, e: nat, ch: Character, i: int, row: int, col: int)
    returns (r: World.World, p: nat)
    requires 0 <= i < |ch.cells|
    ensures p == w.counter + 1 && r.counter == p
    ensures PhantomAt(r, p, l, e, ch, i, row + ch.cells[i].r, col + ch.cells[i].c)
    ensures Grows(w, r)
  {
    var at := CellCenter(l, row + ch.cells[i].r, col + ch.cells[i].c);
    var b := Factories.Build(w, "character", at.x, at.y, PhantomParts(ch, e, i));
    PhantomBuilt(w, at.x, at.y, ch, e, i);
    BuildGrows(w, "character", at.x, at.y, PhantomParts(ch, e, i));
    r, p := b.0, b.1;
  }

  /** The phantoms `ps` stand for the first `n` cells of the piece, made in order after `w`'s counter. */
  ghost predicate Phantoms(w: World.World, r: World.World, ps: seq<nat>, l: Layout, e: nat, ch: Character,
                           row: int, col: int, n: int)
    requires 0 <= n <= |ch.cells|
  {
    |ps| == n && r.counter == w.counter + n && Grows(w, r) &&
    forall j :: 0 <= j < n ==>
      ps[j] == w.counter + 1 + j && PhantomAt(r, ps[j], l, e, ch, j, row + ch.cells[j].r, col + ch.cells[j].c)
  }

  /** The loop's facts extend over the phantom `p` just made for cell `n`. */
  lemma PhantomsNext(w: World.World, r: World.World, ps: seq<nat>, l: Layout, e: nat, ch: Character,
                     row: int, col: int, n: int, r1: World.World, p: nat)
    requires 0 <= n < |ch.cells| && Phantoms(w, r, ps, l, e, ch, row, col, n)
    requires p == r.counter + 1 && r1.counter == p && Grows(r, r1)
    requires PhantomAt(r1, p, l, e, ch, n, row + ch.cells[n].r, col + ch.cells[n].c)
    ensures Phantoms(w, r1, ps + [p], l, e, ch, row, col, n + 1)
  {
    var ps1 := ps + [p];
    forall j | 0 <= j < n + 1
      ensures ps1[j] == w.counter + 1 + j && PhantomAt(r1, ps1[j], l, e, ch, j, row + ch.cells[j].r, col + ch.cells[j].c)
    {
      if j < n {
        PhantomKept(r, r1, ps[j], l, e, ch, j, row + ch.cells[j].r, col + ch.cells[j].c);
      }
    }
    GrowsTrans(w, r, r1);
  }

  /** `_createPhantoms`: one phantom brick per cell of the piece anchored at (`row`, `col`), in cell order. */
  method MakePhantoms(w: World.World, l: Layout, e: nat, ch: Character, row: int, col: int)
    returns (r: World.World, ps: seq<nat>)
    ensures Phantoms(w, r, ps, l, e, ch, row, col, |ch.cells|)
  {
    r, ps := w, [];
    var i := 0;
    while i < |ch.cells|
      invariant 0 <= i <= |ch.cells|
      invariant Phantoms(w, r, ps, l, e, ch, row, col, i)
    {
      var r1, p := MakePhantom(r, l, e, ch, i, row, col);
      PhantomsNext(w, r, ps, l, e, ch, row, col, i, r1, p);
      r, ps := r1, ps + [p];
      i := i + 1;
    }
  }

  // ---- Dragging ----

  /**
   `_onCharacterDragStart` on piece `e`: the piece remembers where it came from and is
   dragging; lifted off the grid its phantoms are destroyed, lifted from a slot the slot
   is emptied. Nothing happens to an entity without a piece.
   */
  function DragStart(w: World.World, s: CharSys, e: nat): (r: (World.World, CharSys))
    ensures |r.1.slots| == |s.slots| && r.1.layout == s.layout && r.1.shadow == s.shadow && r.1.shadowOccupied == s.shadowOccupied
    ensures r.0.entities.Keys == w.entities.Keys && r.0.transforms == w.transforms && r.0.counter == w.counter
    ensures CharacterOf(w, e).None? ==> r == (w, s)
    ensures CharacterOf(w, e).Some? ==>
      var ch := CharacterOf(w, e).value;
      CharacterOf(r.0, e) == Some(Picked(ch)) && r.1.dragging == Some(e) &&
      (forall p :: p in w.entities ==>
         r.0.entities[p].destroyed == (w.entities[p].destroyed || (ch.state == Placed && p in ch.phantomIds))) &&
      (forall j :: 0 <= j < |s.slots| ==>
         r.1.slots[j] == if ch.state == Spawn && j == ch.slotIndex then None else s.slots[j])
    ensures forall k, cid :: k != e || cid != CharacterComponentId ==> DataOf(r.0, k, cid) == DataOf(w, k, cid)
  {
    match CharacterOf(w, e)
    case None => (w, s)
    case Some(ch) =>
      var w1 := if ch.state == Placed then DestroyAll(w, ch.phantomIds) else w;
      var slots := if ch.state == Spawn then SetSlot(s.slots, ch.slotIndex, None) else s.slots;
      (SetData(w1, e, CharacterComponentId, CharacterData(Picked(ch))), s.(slots := slots, dragging := Some(e)))
  }

  /**
   `_returnToSpawn` on piece `e`: back to its own slot, or to the lowest free one when it
   has none (slot 0 when all are taken), at the slot's centre and entered in it.
   */
  function ReturnToSpawn(w: World.World, s: CharSys, e: nat, ch: Character): (r: (World.World, CharSys))
    ensures var slot := SlotFor(ch.slotIndex, s.slots);
      (e in w.transforms ==> LocalPos(r.0, e) == Some(SlotCenter(s.layout, slot))) &&
      (CharacterOf(w, e).Some? ==> CharacterOf(r.0, e) == Some(Returned(ch, slot))) &&
      |r.1.slots| == |s.slots| &&
      (forall j :: 0 <= j < |s.slots| ==> r.1.slots[j] == if j == slot then Some(e) else s.slots[j])
    ensures SlotsOnly(s, r.1) && r.0.entities.Keys == w.entities.Keys && r.0.counter == w.counter && r.0.transforms.Keys == w.transforms.Keys
    ensures forall k :: k != e ==> LocalPos(r.0, k) == LocalPos(w, k)
    ensures forall k, cid :: k != e || cid != CharacterComponentId ==> DataOf(r.0, k, cid) == DataOf(w, k, cid)
  {
    var slot := SlotFor(ch.slotIndex, s.slots);
    var at := SlotCenter(s.layout, slot);
    var w1 := Place(w, e, at.x, at.y);
    (SetData(w1, e, CharacterComponentId, CharacterData(Returned(ch, slot))), s.(slots := SetSlot(s.slots, slot, Some(e))))
  }

  /**
   A piece lifted from its slot and sent back to the spawn area lands where it stood: in
   the same slot, at the same spot, in the same state, with every slot as before.
   */
  lemma SpawnPickReturns(w: World.World, s: CharSys, e: nat, ch: Character)
    requires CharacterOf(w, e) == Some(ch) && ch.state == Spawn && 0 <= ch.slotIndex < |s.slots|
    requires s.slots[ch.slotIndex] == Some(e) && LocalPos(w, e) == Some(SlotCenter(s.layout, ch.slotIndex))
    ensures var (w1, s1) := DragStart(w, s, e);
      var (w2, s2) := ReturnToSpawn(w1, s1, e, Picked(ch));
      s2.slots == s.slots && LocalPos(w2, e) == LocalPos(w, e) && CharacterOf(w2, e) == Some(ch.(dragOrigin := Spawn))
  {
    var (w1, s1) := DragStart(w, s, e);
    assert SlotFor(Picked(ch).slotIndex, s1.slots) == ch.slotIndex;
    var (w2, s2) := ReturnToSpawn(w1, s1, e, Picked(ch));
    assert s2.slots == s.slots;
  }

  // ---- Dropping ----

  /**
   `_calcGridSnap` on entity `e`: none for an entity without a piece or without a
   Transform, otherwise the snap of the piece where its box is centred.
   */
  function GridSnap(w: World.World, l: Layout, e: nat): (g: Option<GridPos>)
    ensures g.Some? ==> (CharacterOf(w, e).Some? && LocalPos(w, e).Some? &&
      g == SnapAt(l, CharacterOf(w, e).value, LocalPos(w, e).value))
    ensures g.Some? ==> OnGrid(l, CharacterOf(w, e).value.cells, g.value.row, g.value.col)
  {
    match CharacterOf(w, e)
    case None => None
    case Some(ch) =>
      match LocalPos(w, e)
      case None => None
      case Some(at) => SnapAt(l, ch, at)
  }

  /** A phantom brick whose own fields and Transform were not touched is still one. */
  lemma PhantomUntouched(x: World.World, x1: World.World, p: nat, l: Layout, e: nat, ch: Character, i: int, row: int, col: int)
    requires PhantomAt(x, p, l, e, ch, i, row, col) && SameShape(x, x1) && x1.transforms[p] == x.transforms[p]
    requires DataOf(x1, p, SpriteRendererId) == DataOf(x, p, SpriteRendererId)
    requires DataOf(x1, p, BoxColliderId) == DataOf(x, p, BoxColliderId)
    requires DataOf(x1, p, CharacterBrickComponentId) == DataOf(x, p, CharacterBrickComponentId)
    ensures PhantomAt(x1, p, l, e, ch, i, row, col)
  {
  }

  /** Writing the piece's own fields leaves its phantom bricks as they were. */
  lemma PhantomsRelabelled(x: World.World, x1: World.World, ps: seq<nat>, l: Layout, e: nat, ch: Character,
                           row: int, col: int, d: Data)
    requires x1 == SetData(x, e, CharacterComponentId, d)
    requires |ps| <= |ch.cells|
    requires forall j :: 0 <= j < |ps| ==> ps[j] != e && PhantomAt(x, ps[j], l, e, ch, j, row + ch.cells[j].r, col + ch.cells[j].c)
    ensures forall j :: 0 <= j < |ps| ==> PhantomAt(x1, ps[j], l, e, ch, j, row + ch.cells[j].r, col + ch.cells[j].c)
  {
    forall j | 0 <= j < |ps|
      ensures PhantomAt(x1, ps[j], l, e, ch, j, row + ch.cells[j].r, col + ch.cells[j].c)
    {
      PhantomUntouched(x, x1, ps[j], l, e, ch, j, row + ch.cells[j].r, col + ch.cells[j].c);
    }
  }

  /** `_placeCharacter`'s moves: the piece is put so that its anchor cell sits on (`row`, `col`), and its phantom bricks are made. */
  method Stand(w: World.World, l: Layout, e: nat, ch: Character, row: int, col: int) returns (r: World.World, ps: seq<nat>)
    requires CharacterOf(w, e) == Some(ch) && e <= w.counter
    ensures CharacterOf(r, e) == Some(ch) && e <= r.counter
    ensures e in w.transforms ==> LocalPos(r, e) == Some(PlacedAt(l, ch, row, col))
    ensures |ps| == |ch.cells|
    ensures forall j :: 0 <= j < |ps| ==>
      e < ps[j] <= r.counter && PhantomAt(r, ps[j], l, e, ch, j, row + ch.cells[j].r, col + ch.cells[j].c)
  {
    var at := PlacedAt(l, ch, row, col);
    var w1 := Place(w, e, at.x, at.y);
    r, ps := MakePhantoms(w1, l, e, ch, row, col);
    assert DataOf(r, e, CharacterComponentId) == DataOf(w1, e, CharacterComponentId);
    if e in w.transforms {
      assert r.transforms[e] == w1.transforms[e];
    }
  }

  /**
   The grid part of `_placeCharacter` on piece `e`, which is `ch`: the piece stands on
   (`row`, `col`) with one phantom brick per cell, and is placed there out of any slot.
   */
  method Settle(w: World.World, l: Layout, e: nat, ch: Character, row: int, col: int) returns (r: World.World, ps: seq<nat>)
    requires CharacterOf(w, e) == Some(ch) && e <= w.counter
    ensures CharacterOf(r, e) == Some(Settled(ch, row, col, ps)) && e <= r.counter
    ensures e in w.transforms ==> LocalPos(r, e) == Some(PlacedAt(l, ch, row, col))
    ensures |ps| == |ch.cells|
    ensures forall j :: 0 <= j < |ps| ==>
      ps[j] <= r.counter && PhantomAt(r, ps[j], l, e, ch, j, row + ch.cells[j].r, col + ch.cells[j].c)
  {
    var w1;
    w1, ps := Stand(w, l, e, ch, row, col);
    r := SetData(w1, e, CharacterComponentId, CharacterData(Settled(ch, row, col, ps)));
    PhantomsRelabelled(w1, r, ps, l, e, ch, row, col, CharacterData(Settled(ch, row, col, ps)));
  }

  /**
   `_placeCharacter` on piece `e`, which is `ch`: it is settled on the grid at (`row`,
   `col`) with its phantom bricks, and the slots are refilled once all three are empty.
   Ids come from the world's counter, so `e` is at most the counter.
   */
  method PlaceCharacter(w: World.World, s: CharSys, e: nat, ch: Character, row: int, col: int, draws: seq<real>)
    returns (r: World.World, rs: CharSys, ps: seq<nat>)
    requires CharacterOf(w, e) == Some(ch) && e <= w.counter
    requires |s.slots| == SlotCount && |draws| == SlotCount
    requires forall i :: 0 <= i < SlotCount ==> 0.0 <= draws[i] < 1.0
    ensures CharacterOf(r, e) == Some(Settled(ch, row, col, ps))
    ensures e in w.transforms ==> LocalPos(r, e) == Some(PlacedAt(s.layout, ch, row, col))
    ensures |ps| == |ch.cells|
    ensures forall j :: 0 <= j < |ps| ==> PhantomAt(r, ps[j], s.layout, e, ch, j, row + ch.cells[j].r, col + ch.cells[j].c)
    ensures SlotsOnly(s, rs) && |rs.slots| == SlotCount
    ensures (exists i :: 0 <= i < SlotCount && s.slots[i].Some?) ==> rs == s
    ensures (forall i :: 0 <= i < SlotCount ==> s.slots[i].None?) ==> forall i :: 0 <= i < SlotCount ==> rs.slots[i].Some?
  {
    var w1;
    w1, ps := Settle(w, s.layout, e, ch, row, col);
    r, rs := CheckRefill(w1, s, draws);
    forall j | 0 <= j < |ps|
      ensures PhantomAt(r, ps[j], s.layout, e, ch, j, row + ch.cells[j].r, col + ch.cells[j].c)
    {
      PhantomKept(w1, r, ps[j], s.layout, e, ch, j, row + ch.cells[j].r, col + ch.cells[j].c);
    }
    assert DataOf(r, e, CharacterComponentId) == DataOf(w1, e, CharacterComponentId);
    if e in w.transforms {
      assert r.transforms[e] == w1.transforms[e];
    }
  }

  /** A piece placed at a grid position that fits snaps back to that position. */
  lemma PlacedSnapsBack(w: World.World, l: Layout, e: nat, ch: Character, row: int, col: int, ps: seq<nat>)
    requires CharacterOf(w, e) == Some(Settled(ch, row, col, ps)) && LocalPos(w, e) == Some(PlacedAt(l, ch, row, col))
    requires OnGrid(l, ch.cells, row, col)
    ensures GridSnap(w, l, e) == Some(GridPos(row, col))
  {
    var st := Settled(ch, row, col, ps);
    assert st.cells == ch.cells && st.anchorOffset == ch.anchorOffset;
    assert PlacedAt(l, st, row, col) == PlacedAt(l, ch, row, col);
    SnapOfPlaced(l, st, row, col);
  }

  /**
   Once a piece stands on the grid its cells are taken: every one is occupied, so no
   piece can be dropped onto any of them.
   */
  lemma PlacedCellsTaken(w: World.World, l: Layout, e: nat, ch: Character, row: int, col: int, ps: seq<nat>)
    requires |ps| == |ch.cells|
    requires forall j :: 0 <= j < |ps| ==> PhantomAt(w, ps[j], l, e, ch, j, row + ch.cells[j].r, col + ch.cells[j].c)
    ensures forall j :: 0 <= j < |ch.cells| ==> Occupied(w, l, row + ch.cells[j].r, col + ch.cells[j].c)
    ensures |ch.cells| > 0 ==> !CellsFree(w, l, ch.cells, row, col)
  {
    forall j | 0 <= j < |ch.cells|
      ensures Occupied(w, l, row + ch.cells[j].r, col + ch.cells[j].c)
    {
      PhantomOccupies(w, ps[j], l, e, ch, j, row + ch.cells[j].r, col + ch.cells[j].c);
    }
    if |ch.cells| > 0 {
      assert Occupied(w, l, row + ch.cells[0].r, col + ch.cells[0].c);
    }
  }

  /** A piece that is `ch` after being placed at `g`, with whatever phantoms it was given. */
  predicate SettledAt(w: World.World, e: nat, ch: Character, g: GridPos) {
    CharacterOf(w, e).Some? && CharacterOf(w, e).value == Settled(ch, g.row, g.col, CharacterOf(w, e).value.phantomIds)
  }

  /** The piece `e`, which is `ch`, lands as decided: placed on the grid at the landing's position, or back in the spawn area. */
  method Land(w: World.World, s: CharSys, e: nat, ch: Character, d: Landing, draws: seq<real>) returns (r: World.World, rs: CharSys)
    requires CharacterOf(w, e) == Some(ch) && e <= w.counter
    requires |s.slots| == SlotCount && |draws| == SlotCount
    requires forall i :: 0 <= i < SlotCount ==> 0.0 <= draws[i] < 1.0
    ensures d.ToSpawn? ==> (r, rs) == ReturnToSpawn(w, s, e, ch)
    ensures !d.ToSpawn? ==> SettledAt(r, e, ch, d.at) && rs.layout == s.layout
    ensures !d.ToSpawn? && e in w.transforms && OnGrid(s.layout, ch.cells, d.at.row, d.at.col) ==>
      GridSnap(r, s.layout, e) == Some(d.at)
  {
    if d.ToSpawn? {
      var back := ReturnToSpawn(w, s, e, ch);
      r, rs := back.0, back.1;
    } else {
      var ps;
      r, rs, ps := PlaceCharacter(w, s, e, ch, d.at.row, d.at.col, draws);
      if e in w.transforms && OnGrid(s.layout, ch.cells, d.at.row, d.at.col) {
        PlacedSnapsBack(r, s.layout, e, ch, d.at.row, d.at.col, ps);
      }
    }
  }

  /**
   `_onCharacterDragEnd` on entity `e`: nothing happens without a piece. Otherwise the
   piece is placed at its snapped position when there is one and all its cells are free;
   else it goes back to where it stood on the grid if it was lifted from there, or to the
   spawn area. Then nothing is dragged and there is no shadow.
   */
  method DragEnd(w: World.World, s: CharSys, e: nat, draws: seq<real>) returns (r: World.World, rs: CharSys)
    requires e <= w.counter && |s.slots| == SlotCount && |draws| == SlotCount
    requires forall i :: 0 <= i < SlotCount ==> 0.0 <= draws[i] < 1.0
    ensures CharacterOf(w, e).None? ==> r == w && rs == s
    ensures CharacterOf(w, e).Some? ==>
      rs.dragging.None? && rs.shadow.None? && rs.shadowOccupied.None? && rs.layout == s.layout
    ensures CharacterOf(w, e).Some? ==>
      var ch := CharacterOf(w, e).value;
      var snap := GridSnap(w, s.layout, e);
      var free := snap.Some? && CellsFree(w, s.layout, ch.cells, snap.value.row, snap.value.col);
      match LandingOf(ch, snap, free)
      case PlaceAt(g) => SettledAt(r, e, ch, g) && GridSnap(r, s.layout, e) == snap
      case BackTo(g) =>
        SettledAt(r, e, ch, g) && (e in w.transforms && OnGrid(s.layout, ch.cells, g.row, g.col) ==> GridSnap(r, s.layout, e) == Some(g))
      case ToSpawn =>
        var back := ReturnToSpawn(w, s, e, ch);
        r == back.0 && rs == back.1.(dragging := None, shadow := None, shadowOccupied := None)
  {
    var c := CharacterOf(w, e);
    if c.None? {
      return w, s;
    }
    var ch := c.value;
    var snap := GridSnap(w, s.layout, e);
    var free := false;
    if snap.Some? {
      free := AllCellsFree(w, s.layout, ch.cells, snap.value.row, snap.value.col);
    }
    r, rs := Land(w, s, e, ch, LandingOf(ch, snap, free), draws);
    rs := rs.(dragging := None, shadow := None, shadowOccupied := None);
  }

  // ---- The shadow ----

  /** A context to draw on, and a piece being dragged that is in the dragging state. */
  predicate Tracking(w: World.World, s: CharSys, hasCtx: bool) {
    hasCtx && s.dragging.Some? && CharacterOf(w, s.dragging.value).Some? &&
    CharacterOf(w, s.dragging.value).value.state == Dragging
  }

  /**
   `Update`'s shadow step, taken only with a drawing context: while a piece is being
   dragged, the shadow is its snapped position, with the occupancy of each of its cells
   there; no position means no occupancy either.
   */
  function Shadow(w: World.World, s: CharSys, hasCtx: bool): (r: CharSys)
    ensures r.layout == s.layout && r.slots == s.slots && r.dragging == s.dragging
    ensures !Tracking(w, s, hasCtx) ==> r == s
    ensures Tracking(w, s, hasCtx) ==>
      var ch := CharacterOf(w, s.dragging.value).value;
      r.shadow == GridSnap(w, s.layout, s.dragging.value) &&
      (r.shadow.None? <==> r.shadowOccupied.None?) &&
      (r.shadow.Some? ==>
        |r.shadowOccupied.value| == |ch.cells| &&
        forall i :: 0 <= i < |ch.cells| ==>
          r.shadowOccupied.value[i] == Occupied(w, s.layout, r.shadow.value.row + ch.cells[i].r, r.shadow.value.col + ch.cells[i].c))
  {
    if !hasCtx || s.dragging.None? then s
    else
      match CharacterOf(w, s.dragging.value)
      case None => s
      case Some(ch) =>
        if ch.state != Dragging then s
        else
          var g := GridSnap(w, s.layout, s.dragging.value);
          s.(shadow := g, shadowOccupied := if g.Some? then Some(CellsOccupied(w, s.layout, ch.cells, g.value.row, g.value.col)) else None)
  }

  /** The occupancy list has no set entry exactly when the cells are free. */
  lemma OccupancyAgrees(w: World.World, l: Layout, cells: seq<Cell>, row: int, col: int)
    ensures (forall i :: 0 <= i < |cells| ==> !CellsOccupied(w, l, cells, row, col)[i]) <==> CellsFree(w, l, cells, row, col)
  {
    var occ := CellsOccupied(w, l, cells, row, col);
    assert forall i :: 0 <= i < |cells| ==> occ[i] == Occupied(w, l, row + cells[i].r, col + cells[i].c);
  }

  /**
   The shadow tells the drop: when it shows with no occupied cell, letting go of the piece
   right there places it at the shadow, and otherwise the piece is not placed anew.
   */
  lemma ShadowPredictsDrop(w: World.World, s: CharSys, e: nat, ch: Character)
    requires s.dragging == Some(e) && CharacterOf(w, e) == Some(ch) && ch.state == Dragging
    ensures var r := Shadow(w, s, true);
      var snap := GridSnap(w, s.layout, e);
      var free := snap.Some? && CellsFree(w, s.layout, ch.cells, snap.value.row, snap.value.col);
      var d := LandingOf(ch, snap, free);
      (r.shadow.Some? && r.shadowOccupied.Some? && forall i :: 0 <= i < |r.shadowOccupied.value| ==> !r.shadowOccupied.value[i]) <==>
        d.PlaceAt? && r.shadow == Some(d.at)
  {
    var snap := GridSnap(w, s.layout, e);
    if snap.Some? {
      OccupancyAgrees(w, s.layout, ch.cells, snap.value.row, snap.value.col);
    }
  }

  // ---- Collision routing ----

  /** A collision routed to a piece: the piece, the ball that struck and the phantom brick it struck. */
  datatype Routed = Routed(piece: nat, ball: nat, brick: nat)

  /**
   `_onCollision` between `a` and `b`: the phantom brick is `b` when `b` is one, else `a`;
   the collision goes to that phantom's piece, if the piece still exists, with the other
   entity as the ball. None when neither is a phantom brick or the piece is gone.
   */
  function Route(w: World.World, a: nat, b: nat): (r: Option<Routed>)
    ensures r.Some? ==>
      CharacterBrickOf(w, r.value.brick).Some? &&
      CharacterBrickOf(w, r.value.brick).value.characterEntityId == r.value.piece &&
      CharacterOf(w, r.value.piece).Some? &&
      ((r.value.brick, r.value.ball) == (b, a) || (r.value.brick, r.value.ball) == (a, b))
    ensures CharacterBrickOf(w, b).Some? && r.Some? ==> r.value.brick == b
    ensures CharacterBrickOf(w, a).None? && CharacterBrickOf(w, b).None? ==> r.None?
    ensures r.None? && CharacterBrickOf(w, b).Some? ==>
      CharacterOf(w, CharacterBrickOf(w, b).value.characterEntityId).None?
  {
    var cbB := CharacterBrickOf(w, b);
    var cbA := CharacterBrickOf(w, a);
    var cb := if cbB.Some? then cbB else cbA;
    if cb.None? then None
    else
      var piece := cb.value.characterEntityId;
      if World.GetEntity(w, piece).None? || CharacterOf(w, piece).None? then None
      else if cbB.Some? then Some(Routed(piece, a, b))
      else Some(Routed(piece, b, a))
  }

  /** When only one of the two is a phantom brick, the order the collision names them in does not matter. */
  lemma RouteSymmetric(w: World.World, a: nat, b: nat)
    requires CharacterBrickOf(w, a).None? || CharacterBrickOf(w, b).None?
    ensures Route(w, a, b) == Route(w, b, a)
  {
  }

  /**
   `_onCollision` as a whole: the base piece's `onHit` does nothing, so a routed
   collision leaves every component as it was.
   */
  function OnCollision(w: World.World, a: nat, b: nat): (r: World.World)
    ensures forall k, cid :: DataOf(r, k, cid) == DataOf(w, k, cid)
  {
    match Route(w, a, b)
    case None => w
    case Some(t) =>
      var ch := CharacterOf(w, t.piece).value;
      SetData(w, t.piece, CharacterComponentId, CharacterData(OnHit(ch, t.ball, t.brick)))
  }
}
