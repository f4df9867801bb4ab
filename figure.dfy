/** The falling figure of figure.py: construction from a shape definition,
    moving along one axis, and the quarter turn with wall kicks. */
module Figures {
  import opened Tiles
  import opened Collision
  import opened Shapes
  import opened Kicks
  import opened Rotation

  /** The axis of a move (the source's `Direction` enum). */
  datatype Direction = X | Y

  /** The tiles after a move of `distance` along `direction`: a horizontal
      move changes only the columns, a vertical one only the rows. */
  function Shifted(t: seq<Tile>, direction: Direction, distance: int): (r: seq<Tile>)
    ensures |r| == |t|
    ensures forall i :: 0 <= i < |t| ==>
      (direction == X ==> r[i].x == t[i].x + distance && r[i].y == t[i].y) &&
      (direction == Y ==> r[i].x == t[i].x && r[i].y == t[i].y + distance)
  {
    match direction
    case X => Translate(t, distance, 0)
    case Y => Translate(t, 0, distance)
  }

  /** Result of the constructor: the source raises an error when the
      definition does not have exactly four positions. */
  datatype Construction = Built(figure: Figure) | WrongTileCount

  class Figure {
    var name: string
    var colorName: string
    /** The tiles in definition order; tile 0 is the pivot of `Rotate`. */
    var tiles: seq<Tile>
    /** Set once a downward move is refused by the floor or a settled tile. */
    var fallen: bool

    ghost predicate Valid()
      reads this
    {
      |tiles| == 4
    }

    /** Places a well-formed definition with its offsets added to the spawn
        position, in order, not yet fallen (figure.py:42-49). */
    constructor (definition: Definition, initialPos: Tile)
      requires |definition.positions| == 4
      ensures Valid() && name == definition.name && colorName == definition.colorName
      ensures tiles == Translate(definition.positions, initialPos.x, initialPos.y)
      ensures !fallen
    {
      name := definition.name;
      colorName := definition.colorName;
      fallen := false;
      tiles := Translate(definition.positions, initialPos.x, initialPos.y);
    }

    /** `Figure(definition, initial_pos)`: refuses any definition that does
        not have exactly four positions (figure.py:33-49). */
    static method Create(definition: Definition, initialPos: Tile) returns (r: Construction)
      ensures r.WrongTileCount? <==> |definition.positions| != 4
      ensures r.Built? ==> fresh(r.figure) && r.figure.Valid() && !r.figure.fallen
      ensures r.Built? ==> r.figure.name == definition.name && r.figure.colorName == definition.colorName
      ensures r.Built? ==>
        r.figure.tiles == Translate(definition.positions, initialPos.x, initialPos.y)
    {
      if |definition.positions| != 4 {
        return WrongTileCount;
      }
      var f := new Figure(definition, initialPos);
      return Built(f);
    }

    /** `all_shapes`: one new figure per table entry, in table order, each
        placed at the same spawn position (figure.py:29-31). */
    static method AllShapes(initialPos: Tile) returns (figures: seq<Figure>)
      ensures |figures| == |FigureShapes()|
      ensures forall i :: 0 <= i < |figures| ==>
        fresh(figures[i]) && figures[i].Valid() && !figures[i].fallen &&
        figures[i].name == FigureShapes()[i].name &&
        figures[i].colorName == FigureShapes()[i].colorName &&
        figures[i].tiles == Translate(FigureShapes()[i].positions, initialPos.x, initialPos.y)
    {
      var table := FigureShapes();
      figures := [];
      for i := 0 to |table|
        invariant |figures| == i
        invariant forall j :: 0 <= j < i ==>
          fresh(figures[j]) && figures[j].Valid() && !figures[j].fallen &&
          figures[j].name == table[j].name && figures[j].colorName == table[j].colorName &&
          figures[j].tiles == Translate(table[j].positions, initialPos.x, initialPos.y)
      {
        var r := Create(table[i], initialPos);
        assert r.Built?;
        figures := figures + [r.figure];
      }
    }

    /** `move`: shift every tile by `distance` along `direction`; if the result
        cannot move, put the tiles back exactly as they were and, for a
        vertical move refused by the floor or a settled tile, mark the figure
        as fallen (figure.py:51-68). `__fallen` reads the grid without a
        column check, so a vertical move needs the tiles in the columns. */
    method Move(direction: Direction, distance: int, field: Field)
      requires Valid() && WellFormed(field)
      requires LookupSafe(Shifted(tiles, direction, distance), field)
      requires direction == Y ==> WithinColumns(tiles, field)
      modifies this
      ensures Valid() && unchanged(`name, `colorName)
      ensures var moved := Shifted(old(tiles), direction, distance);
        tiles == if CannotMove(moved, field) then old(tiles) else moved
      ensures var moved := Shifted(old(tiles), direction, distance);
        fallen == (old(fallen) || (direction == Y && CannotMove(moved, field) && Fallen(moved, field)))
    {
      var saved := tiles;
      var dx := if direction == X then distance else 0;
      var dy := if direction == Y then distance else 0;
      var i := 0;
      while i < |tiles|
        invariant 0 <= i <= |tiles| == |saved|
        invariant forall j :: 0 <= j < i ==> tiles[j] == Tile(saved[j].x + dx, saved[j].y + dy)
        invariant forall j :: i <= j < |tiles| ==> tiles[j] == saved[j]
        invariant name == old(name) && colorName == old(colorName) && fallen == old(fallen)
      {
        tiles := tiles[i := Tile(tiles[i].x + dx, tiles[i].y + dy)];
        i := i + 1;
      }
      assert tiles == Shifted(saved, direction, distance);
      if CannotMove(tiles, field) {
        if direction == Y && Fallen(tiles, field) {
          fallen := true;
        }
        tiles := saved;
      }
    }

    /** The left kick loop of `rotate` (figure.py:86-93 as intended): shift
        the candidate one column right while a tile is left of the board and
        give up (None) as soon as a shifted candidate hits. */
    static method KickLeft(turned: seq<Tile>, field: Field) returns (r: Option<seq<Tile>>)
      requires WellFormed(field) && |turned| > 0 && RowsReachable(turned, field)
      ensures r == KickFromLeft(turned, field)
    {
      var rotated := turned;
      var k := 0;
      while AnyLeftOut(rotated)
        invariant 0 <= k <= LeftOverhang(turned)
        invariant rotated == Translate(turned, k, 0)
        invariant LeftOverhang(rotated) == LeftOverhang(turned) - k
        invariant LeftKickMisses(turned, field, k)
        decreases LeftOverhang(turned) - k
      {
        ghost var j := k;
        k := k + 1;
        LeftKickStep(turned, field, j, k, rotated);
        rotated := Translate(rotated, 1, 0);
        if HitInColumns(rotated, field) {
          return None;
        }
      }
      LeftKickCompletes(turned, field, k, rotated);
      return Some(rotated);
    }

    /** The right kick loop of `rotate` (figure.py:95-102 as intended), the
        mirror image of `KickLeft`. */
    static method KickRight(kicked: seq<Tile>, field: Field) returns (r: Option<seq<Tile>>)
      requires WellFormed(field) && |kicked| > 0 && RowsReachable(kicked, field)
      ensures r == KickFromRight(kicked, field)
    {
      var rotated := kicked;
      var k := 0;
      while AnyRightOut(rotated, field)
        invariant 0 <= k <= RightOverhang(kicked, field)
        invariant rotated == Translate(kicked, -k, 0)
        invariant RightOverhang(rotated, field) == RightOverhang(kicked, field) - k
        invariant RightKickMisses(kicked, field, k)
        decreases RightOverhang(kicked, field) - k
      {
        ghost var j := k;
        k := k + 1;
        RightKickStep(kicked, field, j, k, rotated);
        rotated := Translate(rotated, -1, 0);
        if HitInColumns(rotated, field) {
          return None;
        }
      }
      RightKickCompletes(kicked, field, k, rotated);
      return Some(rotated);
    }

    /** The turned candidate through both kick loops and the final
        `__cannot_move` test (figure.py:86-105 as intended). */
    static method Turn(rot: seq<Tile>, field: Field) returns (r: Option<seq<Tile>>)
      requires WellFormed(field) && |rot| > 0 && RowsReachable(rot, field)
      ensures r == TurnOutcome(rot, field)
    {
      var left := KickLeft(rot, field);
      if left.None? {
        return None;
      }
      var right := KickRight(left.value, field);
      if right.None? {
        return None;
      }
      if CannotMove(right.value, field) {
        return None;
      }
      return right;
    }

    /** `rotate`, as its comments describe it: the square is left alone;
        otherwise the tiles are turned about tile 0, kicked back inside the
        columns one step at a time, and committed only if no step hits and the
        result can stay where it is. It never changes `fallen`. */
    method Rotate(field: Field)
      requires Valid() && WellFormed(field) && RotateSafe(tiles, field)
      modifies this
      ensures Valid() && unchanged(`name, `colorName, `fallen)
      ensures tiles == Rotated(old(tiles), field)
    {
      var t := tiles;
      if BoundingSum(t) == 4 {
        return;
      }
      RotatedByOutcome(t, field);
      var outcome := Turn(Rotate90(t), field);
      if outcome.Some? {
        tiles := outcome.value;
      }
    }
  }
}
