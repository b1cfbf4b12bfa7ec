/**
 A placeable piece: its shape in grid cells, its placement state, and the pixel layout
 derived from the shape; and the back-reference carried by each phantom brick.
 */
module CharacterComponent {
  import opened Wrappers
  import Render

  const CellSize := 32

  /** A cell of the shape, as row and column offsets from the anchor cell (0, 0). */
  datatype Cell = Cell(r: int, c: int)

  datatype GridPos = GridPos(row: int, col: int)

  datatype PieceState = Spawn | Dragging | Placed

  datatype Offset = Offset(x: int, y: int)

  datatype Character = Character(
    typeId: string, state: PieceState, slotIndex: int, phantomIds: seq<nat>,
    prevGridPos: Option<GridPos>, dragOrigin: PieceState,
    cells: seq<Cell>, color: string, borderColor: string,
    bboxWidth: int, bboxHeight: int, anchorOffset: Offset, cellOffsets: seq<Offset>)

  /** The largest row offset, starting from 0. */
  function MaxRow(cells: seq<Cell>): (m: int)
    ensures m >= 0 && forall i :: 0 <= i < |cells| ==> cells[i].r <= m
    ensures m == 0 || exists i :: 0 <= i < |cells| && cells[i].r == m
    decreases |cells|
  {
    if |cells| == 0 then 0
    else
      var rest := MaxRow(cells[1..]);
      assert forall i :: 1 <= i < |cells| ==> cells[i] == cells[1..][i - 1];
      if cells[0].r > rest then cells[0].r else rest
  }

  /** The largest column offset, starting from 0. */
  function MaxCol(cells: seq<Cell>): (m: int)
    ensures m >= 0 && forall i :: 0 <= i < |cells| ==> cells[i].c <= m
    ensures m == 0 || exists i :: 0 <= i < |cells| && cells[i].c == m
    decreases |cells|
  {
    if |cells| == 0 then 0
    else
      var rest := MaxCol(cells[1..]);
      assert forall i :: 1 <= i < |cells| ==> cells[i] == cells[1..][i - 1];
      if cells[0].c > rest then cells[0].c else rest
  }

  /** The centre of a cell relative to the centre of the bounding box. */
  function CellOffset(cell: Cell, bboxWidth: int, bboxHeight: int): Offset {
    Offset(cell.c * CellSize + CellSize / 2 - bboxWidth / 2, cell.r * CellSize + CellSize / 2 - bboxHeight / 2)
  }

  /** `_computeLayout`. */
  function WithLayout(ch: Character): (r: Character)
    ensures r.bboxWidth == (MaxCol(ch.cells) + 1) * CellSize
    ensures r.bboxHeight == (MaxRow(ch.cells) + 1) * CellSize
    ensures r.anchorOffset == Offset(CellSize / 2 - r.bboxWidth / 2, CellSize / 2 - r.bboxHeight / 2)
    ensures |r.cellOffsets| == |ch.cells|
    ensures forall i :: 0 <= i < |ch.cells| ==> r.cellOffsets[i] == CellOffset(ch.cells[i], r.bboxWidth, r.bboxHeight)
    ensures r.cells == ch.cells && r.state == ch.state && r.slotIndex == ch.slotIndex
  {
    var w := (MaxCol(ch.cells) + 1) * CellSize;
    var h := (MaxRow(ch.cells) + 1) * CellSize;
    ch.(bboxWidth := w, bboxHeight := h,
        anchorOffset := Offset(CellSize / 2 - w / 2, CellSize / 2 - h / 2),
        cellOffsets := seq(|ch.cells|, i requires 0 <= i < |ch.cells| => CellOffset(ch.cells[i], w, h)))
  }

  /**
   The constructor: state spawn, no phantoms, no previous position, the given shape
   (one anchor cell when none is given), a white fill and a `#333333` border.
   */
  function NewCharacter(typeId: Option<string>, cells: Option<seq<Cell>>, color: Option<string>,
                        borderColor: Option<string>, slotIndex: Option<int>): (ch: Character)
    ensures ch.typeId == Render.OrString(typeId, "")
    ensures ch.state == Spawn && ch.phantomIds == [] && ch.prevGridPos == None && ch.dragOrigin == Spawn
    ensures slotIndex.None? ==> ch.slotIndex == -1
    ensures slotIndex.Some? ==> ch.slotIndex == slotIndex.value
    ensures cells.None? ==> ch.cells == [Cell(0, 0)]
    ensures cells.Some? ==> ch.cells == cells.value
    ensures color.None? || color.value == "" ==> ch.color == "#ffffff"
    ensures color.Some? && color.value != "" ==> ch.color == color.value
    ensures borderColor.None? ==> ch.borderColor == "#333333"
    ensures borderColor.Some? ==> ch.borderColor == borderColor.value
    ensures |ch.cellOffsets| == |ch.cells|
  {
    WithLayout(Character(Render.OrString(typeId, ""), Spawn, slotIndex.GetOr(-1), [], None, Spawn,
                         cells.GetOr([Cell(0, 0)]), Render.OrString(color, "#ffffff"),
                         borderColor.GetOr("#333333"), 0, 0, Offset(0, 0), []))
  }

  /**
   The layout's geometry: the box spans whole cells, every cell's centre lies inside it,
   and the anchor offset is the offset of the anchor cell (0, 0).
   */
  lemma LayoutGeometry(ch: Character)
    ensures var r := WithLayout(ch);
      r.bboxWidth >= CellSize && r.bboxHeight >= CellSize &&
      r.bboxWidth % CellSize == 0 && r.bboxHeight % CellSize == 0
    ensures var r := WithLayout(ch);
      forall i :: 0 <= i < |ch.cells| && ch.cells[i] == Cell(0, 0) ==> r.cellOffsets[i] == r.anchorOffset
    ensures var r := WithLayout(ch);
      forall i :: 0 <= i < |ch.cells| && ch.cells[i].r >= 0 && ch.cells[i].c >= 0 ==>
        -r.bboxWidth / 2 < r.cellOffsets[i].x < r.bboxWidth / 2 &&
        -r.bboxHeight / 2 < r.cellOffsets[i].y < r.bboxHeight / 2
  {
  }

  /** The base `onHit`: the piece is unaffected by the ball. */
  function OnHit(ch: Character, ball: nat, brick: nat): (r: Character)
    ensures r == ch
  {
    ch
  }

  /** The back-reference on a phantom brick to the piece it belongs to. */
  datatype CharacterBrick = CharacterBrick(characterEntityId: nat, typeId: string, cellIndex: int)

  /** Defaults: entity 0, no type, cell 0. */
  function NewCharacterBrick(characterEntityId: Option<nat>, typeId: Option<string>, cellIndex: Option<int>)
    : (b: CharacterBrick)
    ensures characterEntityId.None? ==> b.characterEntityId == 0
    ensures typeId.None? ==> b.typeId == ""
    ensures cellIndex.None? ==> b.cellIndex == 0
    ensures cellIndex.Some? ==> b.cellIndex == cellIndex.value
  {
    CharacterBrick(characterEntityId.GetOr(0), Render.OrString(typeId, ""), cellIndex.GetOr(0))
  }
}
