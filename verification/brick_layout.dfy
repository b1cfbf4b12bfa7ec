/**
 The grid layout of the brick-breaker scene: a 10 by 15 grid of cells, of which the
 three outer rings get bricks, the outermost being an indestructible wall.
 */
module BrickLayout {
  const Cols := 10
  const Rows := 15

  function Min(a: int, b: int): int {
    if a <= b then a else b
  }

  /** The cell's ring: its distance, in cells, from the nearest edge of the grid. */
  function Ring(row: int, col: int): (r: int)
    ensures r <= row && r <= Rows - 1 - row && r <= col && r <= Cols - 1 - col
    ensures r == row || r == Rows - 1 - row || r == col || r == Cols - 1 - col
  {
    Min(Min(row, Rows - 1 - row), Min(col, Cols - 1 - col))
  }

  /** A cell of the grid that gets a brick, and whether that brick is the wall. */
  datatype Spot = Spot(row: nat, col: nat, wall: bool)

  /**
   The cells from (`row`, `col`) on, in row-major order, that get a brick: rings 0 to
   2, ring 0 being the wall.
   */
  function SpotsFrom(row: nat, col: nat): (s: seq<Spot>)
    requires col < Cols
    decreases Rows - row, Cols - col
  {
    if row >= Rows then []
    else
      var rest := if col + 1 < Cols then SpotsFrom(row, col + 1) else SpotsFrom(row + 1, 0);
      if Ring(row, col) > 2 then rest
      else [Spot(row, col, Ring(row, col) == 0)] + rest
  }

  /** Every listed cell is on the grid, in rings 0 to 2, a wall exactly in ring 0, and not before the start. */
  lemma {:induction false} SpotsSound(row: nat, col: nat)
    requires col < Cols
    ensures var s := SpotsFrom(row, col); forall i :: 0 <= i < |s| ==>
      s[i].row < Rows && s[i].col < Cols && 0 <= Ring(s[i].row, s[i].col) <= 2 &&
      (s[i].wall <==> Ring(s[i].row, s[i].col) == 0) && Before(row, col, s[i].row, s[i].col)
    decreases Rows - row, Cols - col
  {
    if row < Rows {
      var n := Next(row, col);
      SpotsSound(n.0, n.1);
      SpotsStep(row, col);
      var s := SpotsFrom(row, col);
      var rest := SpotsFrom(n.0, n.1);
      forall i | 0 <= i < |s|
        ensures s[i].row < Rows && s[i].col < Cols && 0 <= Ring(s[i].row, s[i].col) <= 2 &&
          (s[i].wall <==> Ring(s[i].row, s[i].col) == 0) && Before(row, col, s[i].row, s[i].col)
      {
        if Ring(row, col) <= 2 && i > 0 { assert s[i] == rest[i - 1]; }
      }
    }
  }

  /** Row-major order on cells, not strict. */
  predicate Before(r1: nat, c1: nat, r2: nat, c2: nat) {
    r1 < r2 || (r1 == r2 && c1 <= c2)
  }

  /** The layout: every brick cell of the grid. */
  function Layout(): seq<Spot> {
    SpotsFrom(Top(), 0)
  }

  /** The first row. */
  function Top(): nat {
    0
  }

  /** The cell after (`row`, `col`) in row-major order. */
  function Next(row: nat, col: nat): (n: (nat, nat))
    requires col < Cols
    ensures n.1 < Cols
    ensures forall r: nat, c: nat :: c < Cols && Before(row, col, r, c) && (r, c) != (row, col) ==> Before(n.0, n.1, r, c)
  {
    if col + 1 < Cols then (row, col + 1) else (row + 1, 0)
  }

  /** Every cell from (`row`, `col`) on that gets a brick is listed. */
  lemma {:induction false} SpotsComplete(row: nat, col: nat)
    requires col < Cols
    ensures forall r: nat, c: nat :: r < Rows && c < Cols && Ring(r, c) <= 2 && Before(row, col, r, c) ==>
      Spot(r, c, Ring(r, c) == 0) in SpotsFrom(row, col)
    decreases Rows - row, Cols - col
  {
    if row < Rows {
      var n := Next(row, col);
      SpotsComplete(n.0, n.1);
      var rest := SpotsFrom(n.0, n.1);
      assert SpotsFrom(row, col) == if Ring(row, col) > 2 then rest else [Spot(row, col, Ring(row, col) == 0)] + rest;
    }
  }

  /** The cells are listed in strictly increasing row-major order. */
  lemma {:induction false} SpotsOrdered(row: nat, col: nat)
    requires col < Cols
    ensures forall i, j :: 0 <= i < j < |SpotsFrom(row, col)| ==>
      !Before(SpotsFrom(row, col)[j].row, SpotsFrom(row, col)[j].col, SpotsFrom(row, col)[i].row, SpotsFrom(row, col)[i].col)
    decreases Rows - row, Cols - col
  {
    if row < Rows {
      var n := Next(row, col);
      SpotsOrdered(n.0, n.1);
      SpotsSound(n.0, n.1);
      SpotsStep(row, col);
      if Ring(row, col) <= 2 {
        OrderedCons(row, col, SpotsFrom(n.0, n.1));
      }
    }
  }

  /** A strictly ordered list after a cell stays so with that cell's spot in front. */
  lemma OrderedCons(row: nat, col: nat, rest: seq<Spot>)
    requires col < Cols
    requires forall i :: 0 <= i < |rest| ==> Before(Next(row, col).0, Next(row, col).1, rest[i].row, rest[i].col)
    requires forall i, j :: 0 <= i < j < |rest| ==> !Before(rest[j].row, rest[j].col, rest[i].row, rest[i].col)
    ensures var s := [Spot(row, col, Ring(row, col) == 0)] + rest;
      forall i, j :: 0 <= i < j < |s| ==> !Before(s[j].row, s[j].col, s[i].row, s[i].col)
  {
    var s := [Spot(row, col, Ring(row, col) == 0)] + rest;
    forall i, j | 0 <= i < j < |s|
      ensures !Before(s[j].row, s[j].col, s[i].row, s[i].col)
    {
      assert s[j] == rest[j - 1];
      if i > 0 { assert s[i] == rest[i - 1]; }
    }
  }

  function CountWalls(s: seq<Spot>): nat {
    if |s| == 0 then 0 else (if s[0].wall then 1 else 0) + CountWalls(s[1..])
  }

  /** The bricks of a row from column `col` on, and the walls among them. */
  function RowBricks(row: nat, col: nat): nat
    decreases Cols - col
  {
    if col >= Cols then 0 else (if Ring(row, col) <= 2 then 1 else 0) + RowBricks(row, col + 1)
  }

  function RowWalls(row: nat, col: nat): nat
    decreases Cols - col
  {
    if col >= Cols then 0 else (if Ring(row, col) == 0 then 1 else 0) + RowWalls(row, col + 1)
  }

  /** The spots from a cell are the cell's own spot, if it gets a brick, then those from the next cell. */
  lemma SpotsStep(row: nat, col: nat)
    requires row < Rows && col < Cols
    ensures var n := Next(row, col); var rest := SpotsFrom(n.0, n.1);
      SpotsFrom(row, col) == if Ring(row, col) > 2 then rest else [Spot(row, col, Ring(row, col) == 0)] + rest
  {
  }

  /** The rest of a row comes before the later rows: the brick count... */
  lemma {:induction false} ColLength(row: nat, col: nat)
    requires row < Rows && col < Cols
    ensures |SpotsFrom(row, col)| == RowBricks(row, col) + (if row + 1 < Rows then |SpotsFrom(row + 1, 0)| else 0)
    decreases Cols - col
  {
    SpotsStep(row, col);
    if col + 1 < Cols {
      ColLength(row, col + 1);
    } else {
      assert RowBricks(row, col + 1) == 0;
    }
  }

  /** ... and the wall count. */
  lemma {:induction false} ColWalls(row: nat, col: nat)
    requires row < Rows && col < Cols
    ensures CountWalls(SpotsFrom(row, col)) ==
      RowWalls(row, col) + (if row + 1 < Rows then CountWalls(SpotsFrom(row + 1, 0)) else 0)
    decreases Cols - col
  {
    SpotsStep(row, col);
    var n := Next(row, col);
    var rest := SpotsFrom(n.0, n.1);
    if col + 1 < Cols {
      ColWalls(row, col + 1);
    } else {
      assert RowWalls(row, col + 1) == 0;
      if row + 1 >= Rows { assert rest == []; }
    }
    if Ring(row, col) <= 2 {
      var x := Spot(row, col, Ring(row, col) == 0);
      CountWallsCons(x, rest);
    }
  }

  lemma CountWallsCons(x: Spot, s: seq<Spot>)
    ensures CountWalls([x] + s) == (if x.wall then 1 else 0) + CountWalls(s)
  {
    assert ([x] + s)[1..] == s;
  }

  /** A row's bricks: the three rows at the top and at the bottom are full; the others keep three cells at either end. */
  lemma RowBricksValue(row: nat)
    requires row < Rows
    ensures RowBricks(row, 0) == if row <= 2 || row >= Rows - 3 then 10 else 6
  {
    assert RowBricks(row, 9) == (if Ring(row, 9) <= 2 then 1 else 0) + RowBricks(row, 10);
    assert RowBricks(row, 8) == (if Ring(row, 8) <= 2 then 1 else 0) + RowBricks(row, 9);
    assert RowBricks(row, 7) == (if Ring(row, 7) <= 2 then 1 else 0) + RowBricks(row, 8);
    assert RowBricks(row, 6) == (if Ring(row, 6) <= 2 then 1 else 0) + RowBricks(row, 7);
    assert RowBricks(row, 5) == (if Ring(row, 5) <= 2 then 1 else 0) + RowBricks(row, 6);
    assert RowBricks(row, 4) == (if Ring(row, 4) <= 2 then 1 else 0) + RowBricks(row, 5);
    assert RowBricks(row, 3) == (if Ring(row, 3) <= 2 then 1 else 0) + RowBricks(row, 4);
    assert RowBricks(row, 2) == (if Ring(row, 2) <= 2 then 1 else 0) + RowBricks(row, 3);
    assert RowBricks(row, 1) == (if Ring(row, 1) <= 2 then 1 else 0) + RowBricks(row, 2);
    assert RowBricks(row, 0) == (if Ring(row, 0) <= 2 then 1 else 0) + RowBricks(row, 1);
  }

  /** A row's walls: the first and last rows are all wall; the others have a wall cell at either end. */
  lemma RowWallsValue(row: nat)
    requires row < Rows
    ensures RowWalls(row, 0) == if row == 0 || row == Rows - 1 then 10 else 2
  {
    assert RowWalls(row, 9) == (if Ring(row, 9) == 0 then 1 else 0) + RowWalls(row, 10);
    assert RowWalls(row, 8) == (if Ring(row, 8) == 0 then 1 else 0) + RowWalls(row, 9);
    assert RowWalls(row, 7) == (if Ring(row, 7) == 0 then 1 else 0) + RowWalls(row, 8);
    assert RowWalls(row, 6) == (if Ring(row, 6) == 0 then 1 else 0) + RowWalls(row, 7);
    assert RowWalls(row, 5) == (if Ring(row, 5) == 0 then 1 else 0) + RowWalls(row, 6);
    assert RowWalls(row, 4) == (if Ring(row, 4) == 0 then 1 else 0) + RowWalls(row, 5);
    assert RowWalls(row, 3) == (if Ring(row, 3) == 0 then 1 else 0) + RowWalls(row, 4);
    assert RowWalls(row, 2) == (if Ring(row, 2) == 0 then 1 else 0) + RowWalls(row, 3);
    assert RowWalls(row, 1) == (if Ring(row, 1) == 0 then 1 else 0) + RowWalls(row, 2);
    assert RowWalls(row, 0) == (if Ring(row, 0) == 0 then 1 else 0) + RowWalls(row, 1);
  }

  /** The bricks and walls of the rows from `row` on. */
  function BricksFrom(row: nat): nat
    decreases Rows - row
  {
    if row >= Rows then 0 else (if row <= 2 || row >= Rows - 3 then 10 else 6) + BricksFrom(row + 1)
  }

  function WallsFrom(row: nat): nat
    decreases Rows - row
  {
    if row >= Rows then 0 else (if row == 0 || row == Rows - 1 then 10 else 2) + WallsFrom(row + 1)
  }

  /** The rows from `row` on hold `BricksFrom(row)` bricks... */
  lemma {:induction false} TailBricks(row: nat)
    requires row < Rows
    ensures |SpotsFrom(row, 0)| == BricksFrom(row)
    decreases Rows - row
  {
    ColLength(row, 0);
    RowBricksValue(row);
    if row + 1 < Rows {
      TailBricks(row + 1);
    }
  }

  /** ... and `WallsFrom(row)` walls. */
  lemma {:induction false} TailWalls(row: nat)
    requires row < Rows
    ensures CountWalls(SpotsFrom(row, 0)) == WallsFrom(row)
    decreases Rows - row
  {
    ColWalls(row, 0);
    RowWallsValue(row);
    if row + 1 < Rows {
      TailWalls(row + 1);
    }
  }

  /** The layout has 114 bricks, 46 of them wall; the other 36 of the 150 cells stay empty. */
  lemma Counts()
    ensures |Layout()| == 114 && CountWalls(Layout()) == 46
  {
    TailBricks(Top());
    TailWalls(Top());
    assert BricksFrom(0) == 114 && WallsFrom(0) == 46;
  }

  /** Ring 0 is exactly the border of the grid. */
  lemma RingZero(row: nat, col: nat)
    requires row < Rows && col < Cols
    ensures Ring(row, col) == 0 <==> row == 0 || row == Rows - 1 || col == 0 || col == Cols - 1
  {
  }
}
