# The falling figure of a Tetris game, in Dafny

This project models `figure.py`, the piece engine of a small Tetris game written in Python.

- A figure is one of seven tetrominoes. It is an ordered list of four unit tiles on a grid of columns and rows, with rows growing downward.
- The board is a column-major occupancy grid `field[x][y]`. Its width is `len(field)` and its height is `len(field[0])`.
- A figure can be built from a shape definition at a spawn position.
- It can move along one axis. A move that the board refuses is undone, and a refused downward move marks the figure as fallen.
- It can be turned a quarter turn clockwise about its tile 0. The turn is kicked back inside the columns and is given up when it would collide.

Modules, one per concern of `figure.py`:

- `Tiles` (tiles.dfy): tiles, translation, the bounding box and the quarter turn. The source's float rotation matrix followed by `np.round` is exactly the integer map that takes the offset (dx, dy) from tile 0 to (-dy, dx).
- `Shapes` (shapes.dfy): the shape table.
- `Collision` (collision.dfy): the board and the queries `__cannot_move`, `__hit_other_figure` and `__fallen`.
  - A row above the board is read the way Python reads a negative list index: row `height + y`. Such a lookup needs `y >= -height`.
- `Kicks` (kicks.dfy): the two wall-kick loops of `rotate`, as its comments describe them.
  - Each is a closed-form function: the number of steps is the overhang, and the kick is abandoned if any step hits.
- `Rotation` (rotation.dfy): the whole turn and its properties.
- `Figures` (figure.dfy): the class `Figure` with its fields, the methods that change them, and the kick loops as `while` loops proved equal to the functions of `Kicks`.
- `AsWritten` (as_written.dfy): `rotate` as the code is actually written, and the two defects it shows (see "## Findings").

## Model

| member | source | states |
|---|---|---|
| Tiles.Translate | figure.py:49 | every tile moves by the same offset and the tile order is kept |
| Tiles.TranslateInverse | figure.py:57-64 | the opposite shift undoes a shift of the tiles |
| Tiles.TranslateCompose | figure.py:90 | two shifts in a row are one shift by their sum |
| Tiles.Min | figure.py:75 | `np.min` of a column: a lower bound that some tile attains |
| Tiles.Max | figure.py:75 | `np.max` of a column: an upper bound that some tile attains |
| Tiles.BoundingSum | figure.py:75 | the width plus height of the bounding box that the square test compares with 4; it is at least 2 |
| Tiles.Rotate90 | figure.py:80-84 | tile 0 stays fixed, the order stays, and every other tile's offset from tile 0 is turned from (dx, dy) to (-dy, dx) |
| Tiles.RotateFourTimes | figure.py:80-84 | four quarter turns give back the same tiles in the same order |
| Tiles.BoundingSumRotate | figure.py:75-84 | a quarter turn keeps the width plus height of the bounding box |
| Tiles.BoundingSumTranslate | figure.py:49-75 | a translation keeps the width plus height of the bounding box |
| Tiles.TurnedWidth | figure.py:75-84 | the turned figure is exactly as wide as the original is tall |
| Tiles.TurnedHeight | figure.py:75-84 | the turned figure is exactly as tall as the original is wide |
| Shapes.FigureShapes | figure.py:11-19 | the table has seven entries, and each has exactly four pairwise distinct offsets |
| Shapes.OnlySquareSkipsRotation | figure.py:11-19 | among the seven shapes, width plus height is 4 exactly for "Square" |
| Collision.CellAt | figure.py:123 | the cell read for a tile: the row clamped to the bottom row by `min(y, border_bottom)`, and a negative row read from the far end of the column as Python indexes it; its cases are stated by Collision.CellAtRows |
| Collision.HitOtherFigure | figure.py:121-123 | `__hit_other_figure`: some tile's cell is occupied |
| Collision.CannotMove | figure.py:114-119 | `__cannot_move`: some tile is off the columns or below the bottom row, or hits a settled tile; its pointwise form is Collision.CannotMoveIff |
| Collision.Fallen | figure.py:125-128 | `__fallen`: some tile is below the bottom row or hits a settled tile; Collision.FallenIffCannotMove relates it to `__cannot_move` |
| Collision.CannotMoveIff | figure.py:114-123 | `__cannot_move` is false exactly when every tile has 0 <= x < width, y < height and a free cell |
| Collision.FallenIffCannotMove | figure.py:114-128 | with the tiles in the columns, `__fallen` and `__cannot_move` agree |
| Collision.CellAtRows | figure.py:121-123 | a lookup reads the tile's own cell on the board, the bottom row below it, and row height + y above it |
| Collision.EmptyFieldIsFree | figure.py:121-123 | no tile hits anything on an empty board |
| Kicks.HitInColumns | figure.py:91-92 | the collision test after each kick step (also at figure.py:100-101): some tile that is in a column lands on an occupied cell; Kicks.HitInColumnsOnBoard equates it with `__hit_other_figure` on the board |
| Kicks.HitInColumnsOnBoard | figure.py:121-123 | the kick step's hit test equals `__hit_other_figure` once every tile is in a column |
| Kicks.LeftOverhangShift | figure.py:88-90 | each step right takes one column off the left overhang, so the loop ends |
| Kicks.RightOverhangShift | figure.py:97-99 | each step left takes one column off the right overhang, so the loop ends |
| Kicks.KickFromLeft | figure.py:86-93 | a completed left kick keeps the tile count and leaves no tile left of column 0 |
| Kicks.KickFromRight | figure.py:95-102 | a completed right kick keeps the tile count and leaves no tile right of the last column |
| Kicks.KickFromLeftClears | figure.py:88-90 | shifting right by the left overhang clears the left edge |
| Kicks.KickFromRightClears | figure.py:97-99 | shifting left by the right overhang clears the right edge |
| Kicks.KickFromLeftIdle | figure.py:88 | a candidate already clear of the left edge is not moved by the left kick |
| Kicks.KickFromRightIdle | figure.py:97 | a candidate already clear of the right edge is not moved by the right kick |
| Kicks.LeftKickMissesIff | figure.py:88-93 | the loop's run of misses means that no shift of 1 to n columns right hits |
| Kicks.RightKickMissesIff | figure.py:97-102 | the loop's run of misses means that no shift of 1 to n columns left hits |
| Kicks.LeftKickStep | figure.py:88-93 | one left-kick step either abandons the kick on a hit or extends the run of misses, with one column less of overhang |
| Kicks.RightKickStep | figure.py:97-102 | one right-kick step either abandons the kick on a hit or extends the run of misses, with one column less of overhang |
| Kicks.LeftKickAbandons | figure.py:91-93 | a hit at any step of the left kick gives up the turn |
| Kicks.RightKickAbandons | figure.py:100-102 | a hit at any step of the right kick gives up the turn |
| Kicks.LeftKickCompletes | figure.py:88-93 | a left kick that ends with every step missed yields the shifted candidate |
| Kicks.RightKickCompletes | figure.py:97-102 | a right kick that ends with every step missed yields the shifted candidate |
| Kicks.KickedCandidate | figure.py:86-102 | both kicks together are one sideways shift of the turned candidate |
| Rotation.TurnOutcome | figure.py:86-106 | a turn that is not given up yields tiles that pass `__cannot_move`, are as many as before, and are the turned tiles shifted sideways |
| Rotation.Rotated | figure.py:70-108 | `rotate` keeps the number of tiles |
| Rotation.RotatedByOutcome | figure.py:75-108 | proof step for Figures.Figure.Rotate: away from the square, Rotation.Rotated unfolds to the tiles the turn yields, or the old tiles |
| Rotation.RotatedAllOrNothing | figure.py:86-108 | after `rotate` the tiles are either unchanged, or the turned and kicked tiles, which pass `__cannot_move` |
| Rotation.TurnOutcomeIdle | figure.py:86-106 | a candidate that fits without a kick is committed as is |
| Rotation.RotatedWhenTurnFits | figure.py:75-108 | a non-square figure whose turn fits without a kick is turned about tile 0 exactly |
| Rotation.RotatedFourTimes | figure.py:70-108 | where all four orientations fit, four calls of `rotate` give back the original tiles, each call taking the plain quarter turn |
| Rotation.PlacedSquareNeverRotates | figure.py:75-78 | the square, placed anywhere, is recognised by its bounding box and left unchanged |
| Figures.Shifted | figure.py:55-64 | the candidate of `move`: a horizontal move adds the distance to every column and keeps the rows, a vertical move adds it to every row and keeps the columns, in tile order |
| Figures.Figure.constructor | figure.py:42-49 | name and colour are taken from the definition, tiles are the offsets plus the spawn position in order, and `fallen` is false |
| Figures.Figure.Create | figure.py:33-49 | the tile-count error comes exactly when the definition does not have four positions (figure.py:44-45); otherwise a new figure as the constructor builds it |
| Figures.Figure.AllShapes | figure.py:29-31 | one new figure per table entry, in table order, each built without error at the same spawn position |
| Figures.Figure.Move | figure.py:51-68 | the tiles shift along one axis, or stay exactly as they were if the shifted tiles cannot move; `fallen` becomes true exactly when a vertical move is refused by the bottom or a settled tile, and is never cleared |
| Figures.Figure.KickLeft | figure.py:86-93 | the left-kick loop ends with the result of `Kicks.KickFromLeft` |
| Figures.Figure.KickRight | figure.py:95-102 | the right-kick loop ends with the result of `Kicks.KickFromRight` |
| Figures.Figure.Turn | figure.py:86-106 | both loops and the final test give the result of `Rotation.TurnOutcome` |
| Figures.Figure.Rotate | figure.py:70-108 | the new tiles are `Rotation.Rotated` of the old ones; name, colour and `fallen` do not change |
| AsWritten.RotationAsWritten | figure.py:70-108 | the code as written commits only the unkicked turned tiles |
| AsWritten.RotateAsWritten | figure.py:70-108 | the written loops, with stale columns and checks of the old tiles, end as `AsWritten.RotationAsWritten` says |
| AsWritten.AgreesWhenTurnFits | figure.py:84-108 | when the figure fits and its turn fits without a kick, the written code commits what the intended rotation commits |
| AsWritten.KickNeverEnds | figure.py:87-102 | a figure that fits and whose turn needs a kick keeps the written kick loop running for any number of steps |
| AsWritten.StandingBarLoops | figure.py:87-93 | the standing bar at column 0 on the empty board: the written left kick never ends |
| AsWritten.StandingBarKicked | figure.py:86-108 | the same bar, intended behaviour: turned and kicked two columns right, from column 0 to column 3 |
| AsWritten.LeftTLandsOnTile | figure.py:104-108 | a T beside a settled tile: the written code commits the turn onto the settled tile |
| AsWritten.LeftTStays | figure.py:104-106 | the same T, intended behaviour: the turn is refused and the tiles stay |

## Left out

- Console output (figure.py:77, 89, 98, 110-112, 130-131) is not modelled. It is diagnostics only.
- `pygame.Color` and `pygame.Rect` are left out as graphics objects. A tile is an integer pair, and the colour is an opaque name.
- The NumPy float rotation (figure.py:21-25, 84) is replaced by the exact integer map that it computes after rounding.
- main.py, item.py, shape.py and util.py are not part of this model. They hold the event loop, drawing, images, random shape choice and the record file.
- Exceptions other than the constructor's tile-count error are not modelled. Index errors that Python would raise become preconditions instead.
- Figures.Figure.Create: `pygame.Color(self.color_name)` (figure.py:48) raises `ValueError` for a colour name pygame does not know, after the tile count has been checked. The model keeps the colour as a name and accepts any name, so its error result covers only the tile count. All seven colours of the shape table are names pygame knows, so Figures.Figure.AllShapes is not affected.
- Figures.Figure.Move: requires that the shifted tiles' rows can be looked up whenever `__cannot_move` reaches the grid (rows no more than the board's height above it).
- Figures.Figure.Move: for a vertical move, also requires the tiles to be in the columns. In that case `__fallen` reads the grid without a column check, and Python would wrap a negative column index.
- Figures.Figure.Rotate: requires that the turned tiles' rows can be looked up, unless the figure is the square.
- Kicks.HitInColumns: after each kick step, only tiles already in a column are tested against the grid. This is an interpretation of the comment at figure.py:91, because a full `__cannot_move` would refuse every kick of more than one column.
- AsWritten.RotateAsWritten: each kick loop is cut off after `fuel` steps. A loop that never ends is reported as still looping for every `fuel`.
- Rotation.RotatedFourTimes: stated only on boards where all four orientations fit without a kick. A kicked turn moves tile 0, so four turns need not return to the start.
- The turn is about tile 0 itself; no fractional rotation centre is kept (figure.py:80-84).
- The square is returned unchanged; `figure.py` has no power-ups, so the tile order of a square is never cycled (figure.py:75-78).
- With the tiles in the columns, every refused vertical move sets `fallen` (Collision.FallenIffCannotMove).

## Findings

| source | as written | input that shows it | evidently intended | confidence | as-written member | corrected member |
|---|---|---|---|---|---|---|
| figure.py:87-102 | `x_coordinates` views the first turned array and is not refreshed after `rotated = rotated + [1, 0]`; the in-loop checks test `self.tiles` | tiles (0,5), (0,4), (0,6), (0,7) on an empty 10 x 20 board | shift the candidate right until no tile is left of the board, giving (2,5), (3,5), (1,5), (0,5) | not executed | AsWritten.StandingBarLoops | Kicks.KickFromLeft |
| figure.py:104-108 | the final `__cannot_move` tests `self.tiles`, so the turned tiles are committed without a check | tiles (4,5), (4,4), (4,6), (3,5), with only cell (5,5) occupied on a 10 x 20 board | refuse the turn, because turned tile 1 lands on (5,5) | not executed | AsWritten.LeftTLandsOnTile | Rotation.TurnOutcome |
