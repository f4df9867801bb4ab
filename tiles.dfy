/** Grid-aligned tiles and the geometry of a figure's ordered tile list:
    translation, bounding box and the quarter turn about tile 0. */
module Tiles {

  /** One 1x1 tile at column x and row y (rows grow downward, as on screen). */
  datatype Tile = Tile(x: int, y: int)

  /** Every tile moved by (dx, dy); the order of the tiles is kept. */
  function Translate(t: seq<Tile>, dx: int, dy: int): (r: seq<Tile>)
    ensures |r| == |t|
    ensures forall i :: 0 <= i < |t| ==> r[i] == Tile(t[i].x + dx, t[i].y + dy)
  {
    seq(|t|, i requires 0 <= i < |t| => Tile(t[i].x + dx, t[i].y + dy))
  }

  /** A translation is undone by the opposite translation. */
  lemma TranslateInverse(t: seq<Tile>, dx: int, dy: int)
    ensures Translate(Translate(t, dx, dy), -dx, -dy) == t
  {
  }

  /** Two translations in a row are one translation by the sum. */
  lemma {:induction false} TranslateCompose(t: seq<Tile>, a: int, b: int, c: int, d: int)
    ensures Translate(Translate(t, a, b), c, d) == Translate(t, a + c, b + d)
  {
    var l, r := Translate(Translate(t, a, b), c, d), Translate(t, a + c, b + d);
    forall i | 0 <= i < |t|
      ensures l[i] == r[i]
    {
      assert Translate(t, a, b)[i] == Tile(t[i].x + a, t[i].y + b);
    }
  }

  /** Two sideways shifts in a row are one shift by their total. */
  lemma ShiftTwice(t: seq<Tile>, m: int, k: int, total: int)
    requires total == m + k
    ensures Translate(Translate(t, m, 0), k, 0) == Translate(t, total, 0)
  {
    TranslateCompose(t, m, 0, k, 0);
  }

  lemma TranslateZero(t: seq<Tile>)
    ensures Translate(t, 0, 0) == t
  {
  }

  /** The column of every tile, in order (the source's `vectors[:, 0]`). */
  function Xs(t: seq<Tile>): (r: seq<int>)
    ensures |r| == |t|
    ensures forall i :: 0 <= i < |t| ==> r[i] == t[i].x
  {
    seq(|t|, i requires 0 <= i < |t| => t[i].x)
  }

  /** The row of every tile, in order (the source's `vectors[:, 1]`). */
  function Ys(t: seq<Tile>): (r: seq<int>)
    ensures |r| == |t|
    ensures forall i :: 0 <= i < |t| ==> r[i] == t[i].y
  {
    seq(|t|, i requires 0 <= i < |t| => t[i].y)
  }

  /** The least element of a non-empty sequence. */
  function Min(s: seq<int>): (m: int)
    requires |s| > 0
    ensures forall i :: 0 <= i < |s| ==> m <= s[i]
    ensures exists i :: 0 <= i < |s| && s[i] == m
  {
    if |s| == 1 then s[0]
    else
      var rest := Min(s[1..]);
      assert forall i :: 1 <= i < |s| ==> s[i] == s[1..][i - 1];
      if s[0] <= rest then s[0] else rest
  }

  /** The greatest element of a non-empty sequence. */
  function Max(s: seq<int>): (m: int)
    requires |s| > 0
    ensures forall i :: 0 <= i < |s| ==> s[i] <= m
    ensures exists i :: 0 <= i < |s| && s[i] == m
  {
    if |s| == 1 then s[0]
    else
      var rest := Max(s[1..]);
      assert forall i :: 1 <= i < |s| ==> s[i] == s[1..][i - 1];
      if s[0] >= rest then s[0] else rest
  }

  /** A bound that is attained is the minimum. */
  lemma MinIs(s: seq<int>, v: int, k: int)
    requires 0 <= k < |s| && s[k] == v
    requires forall i :: 0 <= i < |s| ==> v <= s[i]
    ensures Min(s) == v
  {
  }

  /** A bound that is attained is the maximum. */
  lemma MaxIs(s: seq<int>, v: int, k: int)
    requires 0 <= k < |s| && s[k] == v
    requires forall i :: 0 <= i < |s| ==> s[i] <= v
    ensures Max(s) == v
  {
  }

  /** Width plus height of the bounding box, the quantity the source compares
      with 4 to recognise the square (figure.py:75). */
  function BoundingSum(t: seq<Tile>): (s: int)
    requires |t| > 0
    ensures s >= 2
  {
    assert Xs(t)[0] == t[0].x && Ys(t)[0] == t[0].y;
    (Max(Xs(t)) - Min(Xs(t)) + 1) + (Max(Ys(t)) - Min(Ys(t)) + 1)
  }

  /** Adding k to every element adds k to the least and the greatest. */
  lemma OffsetBounds(s: seq<int>, u: seq<int>, k: int)
    requires |s| == |u| > 0
    requires forall i :: 0 <= i < |s| ==> s[i] == k + u[i]
    ensures Min(s) == k + Min(u) && Max(s) == k + Max(u)
  {
    var i :| 0 <= i < |u| && u[i] == Min(u);
    MinIs(s, k + Min(u), i);
    var j :| 0 <= j < |u| && u[j] == Max(u);
    MaxIs(s, k + Max(u), j);
  }

  /** Negating every element and adding k swaps the least and the greatest. */
  lemma MirrorBounds(s: seq<int>, u: seq<int>, k: int)
    requires |s| == |u| > 0
    requires forall i :: 0 <= i < |s| ==> s[i] == k - u[i]
    ensures Min(s) == k - Max(u) && Max(s) == k - Min(u)
  {
    var i :| 0 <= i < |u| && u[i] == Max(u);
    MinIs(s, k - Max(u), i);
    var j :| 0 <= j < |u| && u[j] == Min(u);
    MaxIs(s, k - Min(u), j);
  }

  /** A translation moves the bounding box and keeps its size. */
  lemma {:induction false} BoundingSumTranslate(t: seq<Tile>, dx: int, dy: int)
    requires |t| > 0
    ensures BoundingSum(Translate(t, dx, dy)) == BoundingSum(t)
  {
    var s := Translate(t, dx, dy);
    OffsetBounds(Xs(s), Xs(t), dx);
    OffsetBounds(Ys(s), Ys(t), dy);
  }

  /** The quarter turn of p about c: the offset (dx, dy) becomes (-dy, dx).
      With rows growing downward this is clockwise on screen; it is the exact
      integer value of the source's rounded float rotation by -pi/2. */
  function TurnAbout(c: Tile, p: Tile): Tile
  {
    Tile(c.x - (p.y - c.y), c.y + (p.x - c.x))
  }

  /** Every tile turned about c, in order. */
  function RotateAbout(c: Tile, t: seq<Tile>): (r: seq<Tile>)
    ensures |r| == |t|
    ensures forall i :: 0 <= i < |t| ==> r[i] == TurnAbout(c, t[i])
  {
    seq(|t|, i requires 0 <= i < |t| => TurnAbout(c, t[i]))
  }

  /** The figure turned about its tile 0 (figure.py:80-84): the pivot stays,
      the order stays, every other tile's offset from the pivot is turned. */
  function Rotate90(t: seq<Tile>): (r: seq<Tile>)
    requires |t| > 0
    ensures |r| == |t| && r[0] == t[0]
    ensures forall i :: 0 <= i < |t| ==>
      r[i].x - r[0].x == -(t[i].y - t[0].y) && r[i].y - r[0].y == t[i].x - t[0].x
  {
    RotateAbout(t[0], t)
  }

  /** Four quarter turns are the identity on every tile list. */
  lemma {:induction false} RotateFourTimes(t: seq<Tile>)
    requires |t| > 0
    ensures Rotate90(Rotate90(Rotate90(Rotate90(t)))) == t
  {
    var r1 := Rotate90(t);
    var r2 := Rotate90(r1);
    var r3 := Rotate90(r2);
    var r4 := Rotate90(r3);
    assert r4[0] == t[0];
    forall i | 0 <= i < |t|
      ensures r4[i] == t[i]
    {
      assert r1[i].x - t[0].x == -(t[i].y - t[0].y) && r1[i].y - t[0].y == t[i].x - t[0].x;
      assert r2[i].x - t[0].x == -(t[i].x - t[0].x) && r2[i].y - t[0].y == -(t[i].y - t[0].y);
      assert r3[i].x - t[0].x == t[i].y - t[0].y && r3[i].y - t[0].y == -(t[i].x - t[0].x);
    }
  }

  /** A quarter turn swaps the width and the height of the bounding box, so
      the sum the source tests is the same before and after. */
  lemma {:induction false} BoundingSumRotate(t: seq<Tile>)
    requires |t| > 0
    ensures BoundingSum(Rotate90(t)) == BoundingSum(t)
  {
    TurnedWidth(t);
    TurnedHeight(t);
  }

  /** The turned figure is as wide as the original is tall. */
  lemma TurnedWidth(t: seq<Tile>)
    requires |t| > 0
    ensures Max(Xs(Rotate90(t))) - Min(Xs(Rotate90(t))) == Max(Ys(t)) - Min(Ys(t))
  {
    var r := Rotate90(t);
    forall i | 0 <= i < |t|
      ensures Xs(r)[i] == t[0].x + t[0].y - Ys(t)[i]
    {
      assert r[i] == TurnAbout(t[0], t[i]);
    }
    MirrorBounds(Xs(r), Ys(t), t[0].x + t[0].y);
  }

  /** The turned figure is as tall as the original is wide. */
  lemma TurnedHeight(t: seq<Tile>)
    requires |t| > 0
    ensures Max(Ys(Rotate90(t))) - Min(Ys(Rotate90(t))) == Max(Xs(t)) - Min(Xs(t))
  {
    var r := Rotate90(t);
    forall i | 0 <= i < |t|
      ensures Ys(r)[i] == t[0].y - t[0].x + Xs(t)[i]
    {
      assert r[i] == TurnAbout(t[0], t[i]);
    }
    OffsetBounds(Ys(r), Xs(t), t[0].y - t[0].x);
  }
}
