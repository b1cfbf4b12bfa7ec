/** The table of piece shapes. */
module CharacterDefs {
  import opened Wrappers
  import opened CharacterComponent

  datatype CharacterType = CharacterType(cells: seq<Cell>, color: string, attack: int)

  /** The keys of the table, in definition order. */
  const TypeIds: seq<string> := ["block_1x1", "block_1x2", "block_2x1", "block_2x2_L"]

  function GetType(id: string): Option<CharacterType> {
    if id == "block_1x1" then Some(CharacterType([Cell(0, 0)], "#6699ff", 15))
    else if id == "block_1x2" then Some(CharacterType([Cell(0, 0), Cell(0, 1)], "#ff9933", 20))
    else if id == "block_2x1" then Some(CharacterType([Cell(0, 0), Cell(1, 0)], "#33cc99", 18))
    else if id == "block_2x2_L" then Some(CharacterType([Cell(0, 0), Cell(1, 0), Cell(1, 1)], "#cc66ff", 25))
    else None
  }

  /**
   `getTypeIds` lists exactly the defined types; every shape starts with its anchor cell
   (0, 0) and uses only offsets 0 and 1.
   */
  lemma TableShape(id: string)
    ensures GetType(id).Some? <==> id in TypeIds
    ensures GetType(id).Some? ==>
      var cells := GetType(id).value.cells;
      |cells| > 0 && cells[0] == Cell(0, 0) &&
      forall i :: 0 <= i < |cells| ==> 0 <= cells[i].r <= 1 && 0 <= cells[i].c <= 1
  {
  }

  /**
   `getRandomTypeId`: `random` stands for `Math.random()`, a value in `[0, 1)`; the
   index is the floor of `random * 4`.
   */
  function RandomTypeId(random: real): (id: string)
    requires 0.0 <= random < 1.0
    ensures id in TypeIds && GetType(id).Some?
  {
    var i := (random * (|TypeIds| as real)).Floor;
    TypeIds[i]
  }
}
