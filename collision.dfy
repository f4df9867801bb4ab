/** The occupancy grid and the collision queries a figure runs against it
    (figure.py:114-128). */
module Collision {
  import opened Tiles

  /** The board, column-major: field[x][y] holds when cell (x, y) is occupied
      by a settled tile. Its width is the number of columns and its height
      the length of the first column. */
  type Field = seq<seq<bool>>

  /** A rectangular board with at least one column and one row. */
  predicate WellFormed(field: Field)
  {
    |field| > 0 && |field[0]| > 0 && forall x :: 0 <= x < |field| ==> |field[x]| == |field[0]|
  }

  function Width(field: Field): int
    requires WellFormed(field)
  {
    |field|
  }

  function Height(field: Field): int
    requires WellFormed(field)
  {
    |field[0]|
  }

  /** The board with nothing settled on it. */
  function EmptyField(width: nat, height: nat): (field: Field)
    requires width > 0 && height > 0
    ensures WellFormed(field) && Width(field) == width && Height(field) == height
  {
    seq(width, x => seq(height, y => false))
  }

  /** Every tile lies in one of the board's columns. */
  predicate WithinColumns(t: seq<Tile>, field: Field)
    requires WellFormed(field)
  {
    forall i :: 0 <= i < |t| ==> 0 <= t[i].x < Width(field)
  }

  /** Every tile's row can be looked up: a row above the board reads the
      column from its far end, like a negative list index, and only as far
      as the column is long. */
  predicate RowsReachable(t: seq<Tile>, field: Field)
    requires WellFormed(field)
  {
    forall i :: 0 <= i < |t| ==> -Height(field) <= t[i].y
  }

  /** The cell the source reads for a tile at (x, y): the row is clamped to
      the bottom row (`min(y, border_bottom)`), and a negative row r is read
      as row Height + r. */
  function CellAt(field: Field, x: int, y: int): bool
    requires WellFormed(field) && 0 <= x < Width(field) && -Height(field) <= y
  {
    var row := if y < Height(field) - 1 then y else Height(field) - 1;
    if row >= 0 then field[x][row] else field[x][Height(field) + row]
  }

  /** Some tile is left of column 0 or right of the last column. */
  predicate AnyOutsideX(t: seq<Tile>, field: Field)
    requires WellFormed(field)
  {
    exists i :: 0 <= i < |t| && (t[i].x < 0 || t[i].x > Width(field) - 1)
  }

  /** Some tile is below the bottom row. */
  predicate AnyBelow(t: seq<Tile>, field: Field)
    requires WellFormed(field)
  {
    exists i :: 0 <= i < |t| && t[i].y > Height(field) - 1
  }

  /** `__hit_other_figure`: some tile's cell is occupied. */
  predicate HitOtherFigure(t: seq<Tile>, field: Field)
    requires WellFormed(field) && WithinColumns(t, field) && RowsReachable(t, field)
  {
    exists i :: 0 <= i < |t| && CellAt(field, t[i].x, t[i].y)
  }

  /** What `__cannot_move` needs to run without an index error: its occupancy
      lookups happen only once no tile is outside the columns or below the
      board, and then every row must be reachable. */
  predicate LookupSafe(t: seq<Tile>, field: Field)
    requires WellFormed(field)
  {
    AnyOutsideX(t, field) || AnyBelow(t, field) || RowsReachable(t, field)
  }

  /** `__cannot_move`: the tiles are off the columns, below the board, or on
      an occupied cell. */
  predicate CannotMove(t: seq<Tile>, field: Field)
    requires WellFormed(field) && LookupSafe(t, field)
  {
    AnyOutsideX(t, field) || AnyBelow(t, field) || HitOtherFigure(t, field)
  }

  /** `__fallen`: the tiles are below the board or on an occupied cell. Unlike
      `__cannot_move` it reads the grid without first checking the columns,
      so its caller must already know them to be in range. */
  predicate Fallen(t: seq<Tile>, field: Field)
    requires WellFormed(field) && WithinColumns(t, field) && LookupSafe(t, field)
  {
    AnyBelow(t, field) || HitOtherFigure(t, field)
  }

  /** The tiles a figure may rest on: on the board's columns, not below it,
      each on a free cell. */
  predicate Fits(t: seq<Tile>, field: Field)
    requires WellFormed(field)
  {
    RowsReachable(t, field) && !CannotMove(t, field)
  }

  /** `__cannot_move` fails exactly when every tile is in a column, on or
      above the bottom row, and on a free cell. */
  lemma CannotMoveIff(t: seq<Tile>, field: Field)
    requires WellFormed(field) && RowsReachable(t, field)
    ensures !CannotMove(t, field) <==>
      forall i :: 0 <= i < |t| ==>
        0 <= t[i].x < Width(field) && t[i].y < Height(field) && !CellAt(field, t[i].x, t[i].y)
  {
  }

  /** With every tile in a column, `__fallen` and `__cannot_move` agree: a
      vertical move that is refused always marks the figure as fallen. */
  lemma FallenIffCannotMove(t: seq<Tile>, field: Field)
    requires WellFormed(field) && WithinColumns(t, field) && LookupSafe(t, field)
    ensures Fallen(t, field) <==> CannotMove(t, field)
  {
  }

  /** Tiles on the board's rows read exactly their own cell, tiles below it
      read the bottom row of their column, and tiles above it read the row
      that far from the bottom. */
  lemma CellAtRows(field: Field, x: int, y: int)
    requires WellFormed(field) && 0 <= x < Width(field) && -Height(field) <= y
    ensures 0 <= y < Height(field) ==> CellAt(field, x, y) == field[x][y]
    ensures Height(field) <= y ==> CellAt(field, x, y) == field[x][Height(field) - 1]
    ensures y < 0 ==> CellAt(field, x, y) == field[x][Height(field) + y]
  {
  }

  /** Nothing is ever hit on an empty board. */
  lemma EmptyFieldIsFree(width: nat, height: nat, t: seq<Tile>)
    requires width > 0 && height > 0
    requires WithinColumns(t, EmptyField(width, height)) && RowsReachable(t, EmptyField(width, height))
    ensures !HitOtherFigure(t, EmptyField(width, height))
  {
  }
}
