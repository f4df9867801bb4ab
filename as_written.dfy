/** `rotate` exactly as figure.py:70-108 is written. `x_coordinates` is a
    view into the first turned array, and `rotated + [1, 0]` builds a new
    array, so both kick loops keep testing the columns of the unkicked
    candidate. Every `__cannot_move` call inspects the figure's current
    tiles, never the candidate. A kick loop that starts therefore ends only
    when the current tiles cannot move; otherwise it never ends. Without a
    kick, a candidate that lands on an occupied cell is committed. */
module AsWritten {
  import opened Tiles
  import opened Collision
  import opened Shapes
  import opened Kicks
  import opened Rotation

  /** How a call of the written `rotate` ends: it returns leaving the tiles
      alone, it assigns new tiles, or it is still in a kick loop once the
      given number of steps per loop has been spent. */
  datatype Run = Unchanged | Committed(tiles: seq<Tile>) | StillLooping

  /** Some column is left of the board. */
  predicate AnyNegative(xs: seq<int>)
  {
    exists i :: 0 <= i < |xs| && xs[i] < 0
  }

  /** Some column is right of `borderRight`. */
  predicate AnyBeyond(xs: seq<int>, borderRight: int)
  {
    exists i :: 0 <= i < |xs| && xs[i] > borderRight
  }

  /** What the written `rotate` does when each kick loop may run `fuel`
      steps. The square is left alone. A candidate that needs a kick leaves
      the tiles alone if the current tiles cannot move (checked after the
      first step); otherwise the loop runs out of steps. A candidate that
      needs no kick is committed unless the current tiles cannot move. */
  function RotationAsWritten(tiles: seq<Tile>, field: Field, fuel: nat): (r: Run)
    requires WellFormed(field) && |tiles| > 0 && LookupSafe(tiles, field)
    ensures r.Committed? ==> r.tiles == Rotate90(tiles)
  {
    if BoundingSum(tiles) == 4 then Unchanged
    else
      var rot := Rotate90(tiles);
      if AnyLeftOut(rot) || AnyRightOut(rot, field) then
        if fuel > 0 && CannotMove(tiles, field) then Unchanged else StillLooping
      else if CannotMove(tiles, field) then Unchanged
      else Committed(rot)
  }

  /** The written `rotate`, loop for loop, with each kick loop cut off after
      `fuel` steps. */
  method RotateAsWritten(tiles: seq<Tile>, field: Field, fuel: nat) returns (run: Run)
    requires WellFormed(field) && |tiles| > 0 && LookupSafe(tiles, field)
    ensures run == RotationAsWritten(tiles, field, fuel)
  {
    if BoundingSum(tiles) == 4 {
      return Unchanged;
    }
    var rotated := Rotate90(tiles);
    var xs := Xs(rotated);
    assert AnyNegative(xs) <==> AnyLeftOut(Rotate90(tiles));
    var steps := 0;
    while AnyNegative(xs)
      invariant 0 <= steps <= fuel
      invariant steps == 0 ==> rotated == Rotate90(tiles)
      invariant steps > 0 ==> AnyNegative(xs) && !CannotMove(tiles, field)
      decreases fuel - steps
    {
      if steps == fuel {
        return StillLooping;
      }
      rotated := Translate(rotated, 1, 0);
      steps := steps + 1;
      if CannotMove(tiles, field) {
        return Unchanged;
      }
    }
    var borderRight := |field| - 1;
    assert AnyBeyond(xs, borderRight) <==> AnyRightOut(Rotate90(tiles), field);
    steps := 0;
    while AnyBeyond(xs, borderRight)
      invariant 0 <= steps <= fuel
      invariant steps == 0 ==> rotated == Rotate90(tiles)
      invariant steps > 0 ==> AnyBeyond(xs, borderRight) && !CannotMove(tiles, field)
      decreases fuel - steps
    {
      if steps == fuel {
        return StillLooping;
      }
      rotated := Translate(rotated, -1, 0);
      steps := steps + 1;
      if CannotMove(tiles, field) {
        return Unchanged;
      }
    }
    if CannotMove(tiles, field) {
      return Unchanged;
    }
    return Committed(rotated);
  }

  /** A figure that can stay where it is and whose turn fits without a kick
      is turned by the written code just as by the intended one. */
  lemma AgreesWhenTurnFits(tiles: seq<Tile>, field: Field, fuel: nat)
    requires WellFormed(field) && |tiles| > 0 && Fits(tiles, field)
    requires BoundingSum(tiles) != 4 && Fits(Rotate90(tiles), field)
    ensures RotationAsWritten(tiles, field, fuel) == Committed(Rotated(tiles, field))
  {
    RotatedWhenTurnFits(tiles, field);
  }

  /** A figure that can stay where it is and whose turn needs a kick is
      never turned by the written code: the kick loop does not end. */
  lemma KickNeverEnds(tiles: seq<Tile>, field: Field, fuel: nat)
    requires WellFormed(field) && |tiles| > 0 && Fits(tiles, field) && BoundingSum(tiles) != 4
    requires AnyLeftOut(Rotate90(tiles)) || AnyRightOut(Rotate90(tiles), field)
    ensures RotationAsWritten(tiles, field, fuel) == StillLooping
  {
  }

  /** The empty 10 x 20 board of the game. */
  function Board(): (field: Field)
    ensures WellFormed(field) && Width(field) == 10 && Height(field) == 20
  {
    EmptyField(10, 20)
  }

  /** On the empty board no kick step hits. */
  lemma NothingHitOnBoard(t: seq<Tile>)
    requires RowsReachable(t, Board())
    ensures !HitInColumns(t, Board())
  {
  }

  /** On the empty board the left kick always completes. */
  lemma LeftKickOnBoard(t: seq<Tile>)
    requires |t| > 0 && RowsReachable(t, Board())
    ensures KickFromLeft(t, Board()) == Some(Translate(t, LeftOverhang(t), 0))
  {
    forall j | 1 <= j <= LeftOverhang(t)
      ensures !HitInColumns(Translate(t, j, 0), Board())
    {
      NothingHitOnBoard(Translate(t, j, 0));
    }
  }

  /** A vertical bar against the left wall, tile 0 at (0, 5). */
  const StandingBar := [Tile(0, 5), Tile(0, 4), Tile(0, 6), Tile(0, 7)]
  /** The standing bar turned about (0, 5): two tiles left of the board. */
  const TurnedBar := [Tile(0, 5), Tile(1, 5), Tile(-1, 5), Tile(-2, 5)]
  /** The turned bar kicked two columns right. */
  const LyingBar := [Tile(2, 5), Tile(3, 5), Tile(1, 5), Tile(0, 5)]

  lemma StandingBarBox()
    ensures BoundingSum(StandingBar) == 5
  {
    BoundingSumFrom(StandingBar, 0, 0, 1, 3);
  }

  lemma StandingBarTurn()
    ensures Rotate90(StandingBar) == TurnedBar
  {
    var rot := Rotate90(StandingBar);
    assert rot[1] == TurnAbout(StandingBar[0], StandingBar[1]);
    assert rot[2] == TurnAbout(StandingBar[0], StandingBar[2]);
    assert rot[3] == TurnAbout(StandingBar[0], StandingBar[3]);
  }

  /** The standing bar rests on free cells of the empty board. */
  lemma StandingBarFits()
    ensures Fits(StandingBar, Board())
  {
    assert WithinColumns(StandingBar, Board()) && RowsReachable(StandingBar, Board());
    EmptyFieldIsFree(10, 20, StandingBar);
    assert !AnyOutsideX(StandingBar, Board()) && !AnyBelow(StandingBar, Board());
  }

  /** Finding 1, as written: turning the standing bar on the empty board
      never ends, however many steps the loop is given. */
  lemma StandingBarLoops(fuel: nat)
    ensures RotationAsWritten(StandingBar, Board(), fuel) == StillLooping
  {
    StandingBarBox();
    StandingBarTurn();
    assert TurnedBar[3].x < 0;
    StandingBarFits();
    KickNeverEnds(StandingBar, Board(), fuel);
  }

  lemma TurnedBarOverhang()
    ensures LeftOverhang(TurnedBar) == 2 && Translate(TurnedBar, 2, 0) == LyingBar
  {
    MinIs(Xs(TurnedBar), -2, 3);
    var a := Translate(TurnedBar, 2, 0);
    assert a[0] == LyingBar[0] && a[1] == LyingBar[1] && a[2] == LyingBar[2] && a[3] == LyingBar[3];
  }

  lemma LyingBarFits()
    ensures Fits(LyingBar, Board())
  {
    assert WithinColumns(LyingBar, Board()) && RowsReachable(LyingBar, Board());
    EmptyFieldIsFree(10, 20, LyingBar);
    assert !AnyOutsideX(LyingBar, Board()) && !AnyBelow(LyingBar, Board());
  }

  /** The turned bar is kicked to lie flat and is committed. */
  lemma TurnedBarKicked()
    ensures TurnOutcome(TurnedBar, Board()) == Some(LyingBar)
  {
    TurnedBarOverhang();
    LeftKickOnBoard(TurnedBar);
    LyingBarFits();
    assert !AnyRightOut(LyingBar, Board());
    KickFromRightIdle(LyingBar, Board());
  }

  /** Finding 1, as intended: the bar is turned and kicked two columns
      right, to lie flat from column 0 to column 3. */
  lemma StandingBarKicked()
    ensures Rotated(StandingBar, Board()) == LyingBar
  {
    StandingBarBox();
    StandingBarTurn();
    TurnedBarKicked();
  }

  /** The game's board with one settled tile, at (5, 5). */
  function BoardWithTile(): (field: Field)
    ensures WellFormed(field) && Width(field) == 10 && Height(field) == 20
    ensures field[5][5]
  {
    EmptyField(10, 20)[5 := EmptyField(10, 20)[5][5 := true]]
  }

  /** A T pointing left, tile 0 at (4, 5). */
  const LeftT := [Tile(4, 5), Tile(4, 4), Tile(4, 6), Tile(3, 5)]
  /** The T turned about (4, 5): its tile 1 lands on (5, 5). */
  const TurnedT := [Tile(4, 5), Tile(5, 5), Tile(3, 5), Tile(4, 4)]

  lemma LeftTBox()
    ensures BoundingSum(LeftT) == 5
  {
    BoundingSumFrom(LeftT, 3, 0, 1, 2);
  }

  lemma LeftTTurn()
    ensures Rotate90(LeftT) == TurnedT
  {
    var rot := Rotate90(LeftT);
    assert rot[1] == TurnAbout(LeftT[0], LeftT[1]);
    assert rot[2] == TurnAbout(LeftT[0], LeftT[2]);
    assert rot[3] == TurnAbout(LeftT[0], LeftT[3]);
  }

  /** The T rests on free cells beside the settled tile. */
  lemma LeftTFits()
    ensures Fits(LeftT, BoardWithTile())
  {
    var field := BoardWithTile();
    assert RowsReachable(LeftT, field);
    CannotMoveIff(LeftT, field);
    forall i | 0 <= i < |LeftT|
      ensures !CellAt(field, LeftT[i].x, LeftT[i].y)
    {
      CellAtRows(field, LeftT[i].x, LeftT[i].y);
    }
  }

  /** The turned T is in the columns but lands on the settled tile. */
  lemma TurnedTBlocked()
    ensures RowsReachable(TurnedT, BoardWithTile())
    ensures !AnyLeftOut(TurnedT) && !AnyRightOut(TurnedT, BoardWithTile())
    ensures CannotMove(TurnedT, BoardWithTile())
  {
    var field := BoardWithTile();
    assert RowsReachable(TurnedT, field);
    CellAtRows(field, 5, 5);
    assert CellAt(field, TurnedT[1].x, TurnedT[1].y);
  }

  /** Finding 2, as written: the turned T is committed onto the settled
      tile, because the final check looks at the old tiles. */
  lemma LeftTLandsOnTile(fuel: nat)
    ensures RotationAsWritten(LeftT, BoardWithTile(), fuel) == Committed(TurnedT)
    ensures CannotMove(TurnedT, BoardWithTile())
  {
    LeftTBox();
    LeftTTurn();
    LeftTFits();
    TurnedTBlocked();
  }

  /** Finding 2, as intended: the turn is refused and the T stays. */
  lemma LeftTStays()
    ensures Rotated(LeftT, BoardWithTile()) == LeftT
  {
    LeftTBox();
    LeftTTurn();
    TurnedTBlocked();
    KickFromLeftIdle(TurnedT, BoardWithTile());
    KickFromRightIdle(TurnedT, BoardWithTile());
  }
}
