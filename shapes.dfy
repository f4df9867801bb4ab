/** The table of the seven tetrominoes (figure.py:11-19). */
module Shapes {
  import opened Tiles

  /** A figure definition: its name, its colour name and the offsets of its
      tiles; the first offset is the tile the figure turns about. The colour
      is kept as an opaque name. */
  datatype Definition = Definition(name: string, colorName: string, positions: seq<Tile>)

  /** No two tiles of t share a cell. */
  predicate Distinct(t: seq<Tile>)
  {
    forall i, j :: 0 <= i < j < |t| ==> t[i] != t[j]
  }

  const Bar := Definition("Bar", "green", [Tile(-1, 0), Tile(-2, 0), Tile(0, 0), Tile(1, 0)])
  const Square := Definition("Square", "red", [Tile(0, -1), Tile(-1, -1), Tile(-1, 0), Tile(0, 0)])
  const ZMirr := Definition("Z_Mirr", "blue", [Tile(-1, 0), Tile(-1, 1), Tile(0, 0), Tile(0, -1)])
  const Z := Definition("Z", "yellow", [Tile(0, 0), Tile(-1, 0), Tile(0, 1), Tile(-1, -1)])
  const LMirr := Definition("L_Mirr", "grey", [Tile(0, 0), Tile(0, -1), Tile(0, 1), Tile(-1, -1)])
  const L := Definition("L", "magenta", [Tile(0, 0), Tile(0, -1), Tile(0, 1), Tile(1, -1)])
  const T := Definition("T", "cyan", [Tile(0, 0), Tile(0, -1), Tile(0, 1), Tile(-1, 0)])

  /** The shape table, in the source's order. */
  function FigureShapes(): (table: seq<Definition>)
    ensures |table| == 7
    ensures forall i :: 0 <= i < |table| ==>
      |table[i].positions| == 4 && Distinct(table[i].positions)
  {
    [Bar, Square, ZMirr, Z, LMirr, L, T]
  }

  /** The bounding sum read off the extreme tiles: tiles a and b hold the
      least and greatest column, c and d the least and greatest row. */
  lemma BoundingSumFrom(t: seq<Tile>, a: nat, b: nat, c: nat, d: nat)
    requires a < |t| && b < |t| && c < |t| && d < |t|
    requires forall i :: 0 <= i < |t| ==> t[a].x <= t[i].x <= t[b].x && t[c].y <= t[i].y <= t[d].y
    ensures BoundingSum(t) == (t[b].x - t[a].x + 1) + (t[d].y - t[c].y + 1)
  {
    MinIs(Xs(t), t[a].x, a);
    MaxIs(Xs(t), t[b].x, b);
    MinIs(Ys(t), t[c].y, c);
    MaxIs(Ys(t), t[d].y, d);
  }

  /** The bounding sum of each shape, read off its extreme tiles. */
  lemma BarBox() ensures BoundingSum(Bar.positions) == 5 { BoundingSumFrom(Bar.positions, 1, 3, 0, 0); }
  lemma SquareBox() ensures BoundingSum(Square.positions) == 4 { BoundingSumFrom(Square.positions, 1, 0, 0, 2); }
  lemma ZMirrBox() ensures BoundingSum(ZMirr.positions) == 5 { BoundingSumFrom(ZMirr.positions, 0, 2, 3, 1); }
  lemma ZBox() ensures BoundingSum(Z.positions) == 5 { BoundingSumFrom(Z.positions, 1, 0, 3, 2); }
  lemma LMirrBox() ensures BoundingSum(LMirr.positions) == 5 { BoundingSumFrom(LMirr.positions, 3, 0, 1, 2); }
  lemma LBox() ensures BoundingSum(L.positions) == 5 { BoundingSumFrom(L.positions, 0, 3, 1, 2); }
  lemma TBox() ensures BoundingSum(T.positions) == 5 { BoundingSumFrom(T.positions, 3, 0, 1, 2); }

  /** Of the seven shapes, exactly the square has a bounding box whose width
      and height add up to 4, so it is the one the rotation skips. */
  lemma OnlySquareSkipsRotation()
    ensures forall i :: 0 <= i < |FigureShapes()| ==>
      (BoundingSum(FigureShapes()[i].positions) == 4 <==> FigureShapes()[i].name == "Square")
  {
    var table := FigureShapes();
    forall i | 0 <= i < |table|
      ensures BoundingSum(table[i].positions) == 4 <==> table[i].name == "Square"
    {
      if i == 0 { assert table[i] == Bar; BarBox(); }
      else if i == 1 { assert table[i] == Square; SquareBox(); }
      else if i == 2 { assert table[i] == ZMirr; ZMirrBox(); }
      else if i == 3 { assert table[i] == Z; ZBox(); }
      else if i == 4 { assert table[i] == LMirr; LMirrBox(); }
      else if i == 5 { assert table[i] == L; LBox(); }
      else { assert table[i] == T; TBox(); }
    }
  }
}
