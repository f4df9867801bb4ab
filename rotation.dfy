/** `rotate` as its comments describe it (figure.py:70-108): the square
    test, the quarter turn, both kicks and the final `__cannot_move` test. */
module Rotation {
  import opened Tiles
  import opened Collision
  import opened Shapes
  import opened Kicks

  /** What the intended `rotate` needs to run without an index error: unless
      the figure is the square, the turned tiles' rows must be reachable. (The
      code as written never looks up the turned tiles.) */
  predicate RotateSafe(t: seq<Tile>, field: Field)
    requires WellFormed(field) && |t| > 0
  {
    BoundingSum(t) == 4 || RowsReachable(Rotate90(t), field)
  }

  /** The turned candidate after both kick loops and the final
      `__cannot_move` test: None when `rotate` gives up, otherwise the tiles
      it commits, which are the candidate shifted sideways by KickShift and
      fit the board. */
  function TurnOutcome(rot: seq<Tile>, field: Field): (r: Option<seq<Tile>>)
    requires WellFormed(field) && |rot| > 0 && RowsReachable(rot, field)
    ensures r.Some? ==> |r.value| == |rot| && Fits(r.value, field)
    ensures r.Some? ==> r.value == Translate(rot, KickShift(rot, field), 0)
  {
    match KickFromLeft(rot, field)
    case None => None
    case Some(a) =>
      match KickFromRight(a, field)
      case None => None
      case Some(b) =>
        KickedCandidate(rot, field, a, -(RightOverhang(a, field) as int), b);
        if CannotMove(b, field) then None else Some(b)
  }

  /** The tiles after `rotate`, as the source's comments describe it: the
      square is left alone, and so is every figure whose turn is given up. */
  function Rotated(t: seq<Tile>, field: Field): (r: seq<Tile>)
    requires WellFormed(field) && |t| > 0 && RotateSafe(t, field)
    ensures |r| == |t|
  {
    if BoundingSum(t) == 4 then t
    else
      match TurnOutcome(Rotate90(t), field)
      case None => t
      case Some(b) => b
  }

  /** Away from the square, `rotate` takes the committed candidate, if any. */
  lemma RotatedByOutcome(t: seq<Tile>, field: Field)
    requires WellFormed(field) && |t| > 0 && RotateSafe(t, field) && BoundingSum(t) != 4
    ensures RowsReachable(Rotate90(t), field)
    ensures Rotated(t, field) ==
      if TurnOutcome(Rotate90(t), field).Some? then TurnOutcome(Rotate90(t), field).value else t
  {
  }

  /** `rotate` is all or nothing: either the tiles are unchanged, or they are
      the turned tiles shifted sideways by the kick, and they fit the board. */
  lemma RotatedAllOrNothing(t: seq<Tile>, field: Field)
    requires WellFormed(field) && |t| > 0 && RotateSafe(t, field)
    ensures Rotated(t, field) == t ||
      (Rotated(t, field) == Translate(Rotate90(t), KickShift(Rotate90(t), field), 0) &&
       Fits(Rotated(t, field), field))
  {
  }

  /** A candidate that needs no kick and lands on free cells is committed
      as is. */
  lemma TurnOutcomeIdle(rot: seq<Tile>, field: Field)
    requires WellFormed(field) && |rot| > 0 && Fits(rot, field)
    ensures TurnOutcome(rot, field) == Some(rot)
  {
    assert !AnyLeftOut(rot) && !AnyRightOut(rot, field);
    KickFromLeftIdle(rot, field);
    KickFromRightIdle(rot, field);
  }

  /** A turn that needs no kick and lands on free cells is taken as is. */
  lemma RotatedWhenTurnFits(t: seq<Tile>, field: Field)
    requires WellFormed(field) && |t| > 0 && BoundingSum(t) != 4
    requires Fits(Rotate90(t), field)
    ensures Rotated(t, field) == Rotate90(t)
  {
    TurnOutcomeIdle(Rotate90(t), field);
  }

  /** On a board where all four orientations of a figure fit, four rotations
      bring every tile back to where it started. */
  lemma RotatedFourTimes(t: seq<Tile>, field: Field)
    requires WellFormed(field) && |t| > 0 && BoundingSum(t) != 4
    requires Fits(t, field) && Fits(Rotate90(t), field)
    requires Fits(Rotate90(Rotate90(t)), field) && Fits(Rotate90(Rotate90(Rotate90(t))), field)
    ensures Rotated(t, field) == Rotate90(t)
    ensures Rotated(Rotate90(t), field) == Rotate90(Rotate90(t))
    ensures Rotated(Rotate90(Rotate90(t)), field) == Rotate90(Rotate90(Rotate90(t)))
    ensures Rotate90(Rotate90(Rotate90(Rotate90(t)))) == t &&
      Rotated(Rotate90(Rotate90(Rotate90(t))), field) == t
  {
    var r1 := Rotate90(t);
    var r2 := Rotate90(r1);
    var r3 := Rotate90(r2);
    RotateFourTimes(t);
    BoundingSumRotate(t);
    BoundingSumRotate(r1);
    BoundingSumRotate(r2);
    RotatedWhenTurnFits(t, field);
    RotatedWhenTurnFits(r1, field);
    RotatedWhenTurnFits(r2, field);
    RotatedWhenTurnFits(r3, field);
  }

  /** A square placed anywhere is recognised by its bounding box and is never
      turned (figure.py:75-78). */
  lemma PlacedSquareNeverRotates(pos: Tile, field: Field)
    requires WellFormed(field)
    ensures var sq := Translate(Square.positions, pos.x, pos.y);
      BoundingSum(sq) == 4 && Rotated(sq, field) == sq
  {
    SquareBox();
    BoundingSumTranslate(Square.positions, pos.x, pos.y);
  }
}
