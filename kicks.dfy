/** The wall kicks of `rotate` as its comments describe them
    (figure.py:86-102): the turned candidate is shifted right while a tile
    is left of the board and then left while a tile is right of it, and the
    turn is given up as soon as a shifted candidate lands a tile that is in
    a column on an occupied cell. The code as written tests a view of the
    columns of the candidate as it was before the first shift, and checks
    the figure's current tiles instead of the candidate; module AsWritten
    models that. */
module Kicks {
  import opened Tiles
  import opened Collision

  datatype Option<T> = None | Some(value: T)

  /** Some tile is left of column 0. */
  predicate AnyLeftOut(t: seq<Tile>)
  {
    exists i :: 0 <= i < |t| && t[i].x < 0
  }

  /** Some tile is right of the last column. */
  predicate AnyRightOut(t: seq<Tile>, field: Field)
    requires WellFormed(field)
  {
    exists i :: 0 <= i < |t| && t[i].x > Width(field) - 1
  }

  /** How many columns the leftmost tile is left of the board. */
  function LeftOverhang(t: seq<Tile>): nat
    requires |t| > 0
  {
    if Min(Xs(t)) < 0 then -Min(Xs(t)) else 0
  }

  /** How many columns the rightmost tile is right of the board. */
  function RightOverhang(t: seq<Tile>, field: Field): nat
    requires WellFormed(field) && |t| > 0
  {
    if Max(Xs(t)) > Width(field) - 1 then Max(Xs(t)) - (Width(field) - 1) else 0
  }

  /** The collision test after one kick step: a tile that is already in one
      of the board's columns lands on an occupied cell. */
  predicate HitInColumns(t: seq<Tile>, field: Field)
    requires WellFormed(field) && RowsReachable(t, field)
  {
    exists i :: 0 <= i < |t| && 0 <= t[i].x < Width(field) && CellAt(field, t[i].x, t[i].y)
  }

  /** Once every tile is in a column, the kick step's test is
      `__hit_other_figure` itself. */
  lemma HitInColumnsOnBoard(t: seq<Tile>, field: Field)
    requires WellFormed(field) && WithinColumns(t, field) && RowsReachable(t, field)
    ensures HitInColumns(t, field) == HitOtherFigure(t, field)
  {
  }

  /** Shifting one column right takes one column off the left overhang. */
  lemma LeftOverhangShift(t: seq<Tile>)
    requires |t| > 0 && AnyLeftOut(t)
    ensures LeftOverhang(t) > 0 && LeftOverhang(Translate(t, 1, 0)) == LeftOverhang(t) - 1
  {
    OffsetBounds(Xs(Translate(t, 1, 0)), Xs(t), 1);
    var i :| 0 <= i < |t| && t[i].x < 0;
    assert Xs(t)[i] < 0;
  }

  /** Shifting one column left takes one column off the right overhang. */
  lemma RightOverhangShift(t: seq<Tile>, field: Field)
    requires WellFormed(field) && |t| > 0 && AnyRightOut(t, field)
    ensures RightOverhang(t, field) > 0
    ensures RightOverhang(Translate(t, -1, 0), field) == RightOverhang(t, field) - 1
  {
    OffsetBounds(Xs(Translate(t, -1, 0)), Xs(t), -1);
    var i :| 0 <= i < |t| && t[i].x > Width(field) - 1;
    assert Xs(t)[i] > Width(field) - 1;
  }

  /** With no tile left of the board there is nothing to kick back. */
  lemma NoLeftOverhang(t: seq<Tile>)
    requires |t| > 0 && !AnyLeftOut(t)
    ensures LeftOverhang(t) == 0
  {
    var i :| 0 <= i < |t| && Xs(t)[i] == Min(Xs(t));
  }

  /** With no tile right of the board there is nothing to kick back. */
  lemma NoRightOverhang(t: seq<Tile>, field: Field)
    requires WellFormed(field) && |t| > 0 && !AnyRightOut(t, field)
    ensures RightOverhang(t, field) == 0
  {
    var i :| 0 <= i < |t| && Xs(t)[i] == Max(Xs(t));
  }

  /** The first n positions the left kick passes through, one to n columns
      right of t, all miss. */
  predicate LeftKickMisses(t: seq<Tile>, field: Field, n: nat)
    requires WellFormed(field) && RowsReachable(t, field)
  {
    n == 0 || (!HitInColumns(Translate(t, n, 0), field) && LeftKickMisses(t, field, n - 1))
  }

  /** The first n positions the right kick passes through, one to n columns
      left of t, all miss. */
  predicate RightKickMisses(t: seq<Tile>, field: Field, n: nat)
    requires WellFormed(field) && RowsReachable(t, field)
  {
    n == 0 || (!HitInColumns(Translate(t, -(n as int), 0), field) && RightKickMisses(t, field, n - 1))
  }

  /** LeftKickMisses says that no step from 1 to n hits. */
  lemma {:induction false} LeftKickMissesIff(t: seq<Tile>, field: Field, n: nat)
    requires WellFormed(field) && RowsReachable(t, field)
    ensures LeftKickMisses(t, field, n) <==>
      forall j :: 1 <= j <= n ==> !HitInColumns(Translate(t, j, 0), field)
  {
    if n > 0 {
      LeftKickMissesIff(t, field, n - 1);
    }
  }

  /** RightKickMisses says that no step from -n to -1 hits. */
  lemma {:induction false} RightKickMissesIff(t: seq<Tile>, field: Field, n: nat)
    requires WellFormed(field) && RowsReachable(t, field)
    ensures RightKickMisses(t, field, n) <==>
      forall j :: -(n as int) <= j <= -1 ==> !HitInColumns(Translate(t, j, 0), field)
  {
    if n > 0 {
      RightKickMissesIff(t, field, n - 1);
    }
  }

  /** One of the positions the left kick passes through, one to n columns
      right of t, hits. */
  predicate LeftKickHits(t: seq<Tile>, field: Field, n: int)
    requires WellFormed(field) && RowsReachable(t, field)
  {
    exists j :: 1 <= j <= n && HitInColumns(Translate(t, j, 0), field)
  }

  /** One of the positions the right kick passes through, one to n columns
      left of t, hits. */
  predicate RightKickHits(t: seq<Tile>, field: Field, n: int)
    requires WellFormed(field) && RowsReachable(t, field)
  {
    exists j :: -n <= j <= -1 && HitInColumns(Translate(t, j, 0), field)
  }

  /** The left kick loop (figure.py:86-93 as intended): the candidate moves
      right one column at a time while a tile is left of the board, which
      takes exactly its left overhang in steps; the rotation is abandoned
      (None) if any step hits. */
  function KickFromLeft(t: seq<Tile>, field: Field): (r: Option<seq<Tile>>)
    requires WellFormed(field) && |t| > 0 && RowsReachable(t, field)
    ensures r.Some? ==> |r.value| == |t| && !AnyLeftOut(r.value) && RowsReachable(r.value, field)
  {
    KickFromLeftClears(t);
    if LeftKickHits(t, field, LeftOverhang(t)) then None else Some(Translate(t, LeftOverhang(t), 0))
  }

  /** The right kick loop (figure.py:95-102 as intended), the mirror image of
      the left kick. */
  function KickFromRight(t: seq<Tile>, field: Field): (r: Option<seq<Tile>>)
    requires WellFormed(field) && |t| > 0 && RowsReachable(t, field)
    ensures r.Some? ==> |r.value| == |t| && !AnyRightOut(r.value, field) && RowsReachable(r.value, field)
  {
    KickFromRightClears(t, field);
    if RightKickHits(t, field, RightOverhang(t, field)) then None
    else Some(Translate(t, -(RightOverhang(t, field) as int), 0))
  }

  /** A completed left kick leaves no tile left of the board. */
  lemma KickFromLeftClears(t: seq<Tile>)
    requires |t| > 0
    ensures !AnyLeftOut(Translate(t, LeftOverhang(t), 0))
  {
    var s := Translate(t, LeftOverhang(t), 0);
    OffsetBounds(Xs(s), Xs(t), LeftOverhang(t));
    assert Min(Xs(s)) >= 0;
    forall i | 0 <= i < |s|
      ensures s[i].x >= 0
    {
      assert Xs(s)[i] == s[i].x;
    }
  }

  /** A completed right kick leaves no tile right of the board. */
  lemma KickFromRightClears(t: seq<Tile>, field: Field)
    requires WellFormed(field) && |t| > 0
    ensures !AnyRightOut(Translate(t, -(RightOverhang(t, field) as int), 0), field)
  {
    var k := -(RightOverhang(t, field) as int);
    var s := Translate(t, k, 0);
    OffsetBounds(Xs(s), Xs(t), k);
    assert Max(Xs(s)) <= Width(field) - 1;
    forall i | 0 <= i < |s|
      ensures s[i].x <= Width(field) - 1
    {
      assert Xs(s)[i] == s[i].x;
    }
  }

  /** A candidate already clear of the left edge is not kicked. */
  lemma KickFromLeftIdle(t: seq<Tile>, field: Field)
    requires WellFormed(field) && |t| > 0 && RowsReachable(t, field) && !AnyLeftOut(t)
    ensures KickFromLeft(t, field) == Some(t)
  {
    NoLeftOverhang(t);
    TranslateZero(t);
  }

  /** A candidate already clear of the right edge is not kicked. */
  lemma KickFromRightIdle(t: seq<Tile>, field: Field)
    requires WellFormed(field) && |t| > 0 && RowsReachable(t, field) && !AnyRightOut(t, field)
    ensures KickFromRight(t, field) == Some(t)
  {
    NoRightOverhang(t, field);
    TranslateZero(t);
  }

  /** One step of the left kick, from j steps to k = j + 1: with a tile
      still left of the board, the next candidate is the turned one shifted
      k columns, has one column less of overhang, and either hits, which
      abandons the kick, or extends the run of misses. */
  lemma LeftKickStep(turned: seq<Tile>, field: Field, j: nat, k: nat, rotated: seq<Tile>)
    requires WellFormed(field) && |turned| > 0 && RowsReachable(turned, field)
    requires k == j + 1 && rotated == Translate(turned, j, 0) && AnyLeftOut(rotated)
    requires LeftOverhang(rotated) == LeftOverhang(turned) - j
    requires LeftKickMisses(turned, field, j)
    ensures var next := Translate(rotated, 1, 0);
      k <= LeftOverhang(turned) && next == Translate(turned, k, 0) &&
      LeftOverhang(next) == LeftOverhang(turned) - k && RowsReachable(next, field) &&
      (HitInColumns(next, field) ==> KickFromLeft(turned, field) == None) &&
      (!HitInColumns(next, field) ==> LeftKickMisses(turned, field, k))
  {
    LeftOverhangShift(rotated);
    ShiftTwice(turned, j, 1, k);
    if HitInColumns(Translate(turned, k, 0), field) {
      LeftKickAbandons(turned, field, k);
    }
  }

  /** One step of the right kick, the mirror image of LeftKickStep. */
  lemma RightKickStep(kicked: seq<Tile>, field: Field, j: nat, k: nat, rotated: seq<Tile>)
    requires WellFormed(field) && |kicked| > 0 && RowsReachable(kicked, field)
    requires k == j + 1 && rotated == Translate(kicked, -(j as int), 0) && AnyRightOut(rotated, field)
    requires RightOverhang(rotated, field) == RightOverhang(kicked, field) - j
    requires RightKickMisses(kicked, field, j)
    ensures var next := Translate(rotated, -1, 0);
      k <= RightOverhang(kicked, field) && next == Translate(kicked, -(k as int), 0) &&
      RightOverhang(next, field) == RightOverhang(kicked, field) - k &&
      RowsReachable(next, field) &&
      (HitInColumns(next, field) ==> KickFromRight(kicked, field) == None) &&
      (!HitInColumns(next, field) ==> RightKickMisses(kicked, field, k))
  {
    RightOverhangShift(rotated, field);
    ShiftTwice(kicked, -(j as int), -1, -(k as int));
    if HitInColumns(Translate(kicked, -(k as int), 0), field) {
      RightKickAbandons(kicked, field, -(k as int));
    }
  }

  /** A left kick step that hits abandons the kick. */
  lemma LeftKickAbandons(t: seq<Tile>, field: Field, j: int)
    requires WellFormed(field) && |t| > 0 && RowsReachable(t, field)
    requires 1 <= j <= LeftOverhang(t) && HitInColumns(Translate(t, j, 0), field)
    ensures KickFromLeft(t, field) == None
  {
  }

  /** A right kick step that hits abandons the kick. */
  lemma RightKickAbandons(t: seq<Tile>, field: Field, j: int)
    requires WellFormed(field) && |t| > 0 && RowsReachable(t, field)
    requires -(RightOverhang(t, field) as int) <= j <= -1 && HitInColumns(Translate(t, j, 0), field)
    ensures KickFromRight(t, field) == None
  {
  }

  /** A left kick whose every step missed and that has no tile left of the
      board any more has ended where KickFromLeft says. */
  lemma LeftKickCompletes(t: seq<Tile>, field: Field, k: nat, rotated: seq<Tile>)
    requires WellFormed(field) && |t| > 0 && RowsReachable(t, field)
    requires rotated == Translate(t, k, 0) && !AnyLeftOut(rotated)
    requires LeftOverhang(rotated) == LeftOverhang(t) - k && LeftKickMisses(t, field, k)
    ensures KickFromLeft(t, field) == Some(rotated)
  {
    NoLeftOverhang(rotated);
    LeftKickMissesIff(t, field, k);
  }

  /** A right kick whose every step missed and that has no tile right of the
      board any more has ended where KickFromRight says. */
  lemma RightKickCompletes(t: seq<Tile>, field: Field, k: nat, rotated: seq<Tile>)
    requires WellFormed(field) && |t| > 0 && RowsReachable(t, field)
    requires rotated == Translate(t, -(k as int), 0) && !AnyRightOut(rotated, field)
    requires RightOverhang(rotated, field) == RightOverhang(t, field) - k
    requires RightKickMisses(t, field, k)
    ensures KickFromRight(t, field) == Some(rotated)
  {
    NoRightOverhang(rotated, field);
    RightKickMissesIff(t, field, k);
  }

  /** The total kick applied to a turned candidate: right by its left
      overhang, then left by the right overhang of the result. */
  function KickShift(rot: seq<Tile>, field: Field): int
    requires WellFormed(field) && |rot| > 0
  {
    LeftOverhang(rot) - RightOverhang(Translate(rot, LeftOverhang(rot), 0), field)
  }

  /** Both kicks together move the turned candidate by KickShift columns:
      a is the candidate after the left kick, b after the right kick by k. */
  lemma KickedCandidate(rot: seq<Tile>, field: Field, a: seq<Tile>, k: int, b: seq<Tile>)
    requires WellFormed(field) && |rot| > 0
    requires a == Translate(rot, LeftOverhang(rot), 0)
    requires k == -(RightOverhang(a, field) as int)
    requires b == Translate(a, k, 0)
    ensures b == Translate(rot, KickShift(rot, field), 0)
  {
    ShiftTwice(rot, LeftOverhang(rot), k, KickShift(rot, field));
  }
}
