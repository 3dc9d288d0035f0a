/** The staggered rows of createInitialGrid: row `row` sits at
    y = r + row * 1.75r, even rows start at x = r and odd rows at x = 2r,
    and bubbles are 2r apart while x <= width - r. Canvas widths are whole
    pixels and r = 16, so x is kept as an integer. */
module Layout {
  import opened Geometry

  /** Vertical distance between rows: r * 1.75. */
  const RowSpacing: real := Radius * 1.75

  function RowY(row: nat): (y: real)
    ensures y >= Radius
  {
    Radius + row as real * RowSpacing
  }

  /** x of a row's first bubble: r, plus r on odd rows. */
  function RowStart(row: nat): (x: int)
    ensures x == RadiusPx || x == 2 * RadiusPx
    ensures x == 2 * RadiusPx <==> row % 2 == 1
  {
    RadiusPx + (if row % 2 == 1 then RadiusPx else 0)
  }

  /** The slots of row `row` from x on, 2r apart, while x <= width - r. */
  function RowFrom(row: nat, x: int, width: int): (pts: seq<Point>)
    ensures |pts| > 0 ==> pts[0] == Point(x as real, RowY(row))
    decreases width - x
  {
    if x as real <= width as real - Radius then [Point(x as real, RowY(row))] + RowFrom(row, x + 2 * RadiusPx, width)
    else []
  }

  /** All slots of the first `rows` rows, row by row, left to right. */
  function Grid(rows: nat, width: int): (g: seq<Point>)
    ensures rows == 0 ==> g == []
  {
    if rows == 0 then []
    else Grid(rows - 1, width) + RowFrom(rows - 1, RowStart(rows - 1), width)
  }

  /** Every slot of a row is on the row's line, between x and width - r,
      and consecutive slots are 2r apart. */
  lemma {:induction false} RowFromInBounds(row: nat, x: int, width: int)
    ensures forall i :: 0 <= i < |RowFrom(row, x, width)| ==>
      && RowFrom(row, x, width)[i].y == RowY(row)
      && x as real <= RowFrom(row, x, width)[i].x <= width as real - Radius
      && RowFrom(row, x, width)[i].x == x as real + 2.0 * Radius * i as real
    decreases width - x
  {
    if x as real <= width as real - Radius {
      var rest := RowFrom(row, x + 2 * RadiusPx, width);
      RowFromInBounds(row, x + 2 * RadiusPx, width);
      assert RowFrom(row, x, width) == [Point(x as real, RowY(row))] + rest;
      forall i | 1 <= i < |rest| + 1
        ensures RowFrom(row, x, width)[i] == rest[i - 1]
      {
      }
    }
  }

  /** Every slot of the grid lies inside the playfield walls, no higher
      than the ceiling row and no lower than its last row. */
  lemma {:induction false} GridInBounds(rows: nat, width: int)
    ensures forall i :: 0 <= i < |Grid(rows, width)| ==>
      && Radius <= Grid(rows, width)[i].x <= width as real - Radius
      && Radius <= Grid(rows, width)[i].y <= RowY(rows - 1)
  {
    if rows > 0 {
      var above := Grid(rows - 1, width);
      var row := RowFrom(rows - 1, RowStart(rows - 1), width);
      GridInBounds(rows - 1, width);
      RowFromInBounds(rows - 1, RowStart(rows - 1), width);
      assert Grid(rows, width) == above + row;
      forall i | 0 <= i < |Grid(rows, width)|
        ensures Radius <= Grid(rows, width)[i].x <= width as real - Radius
        ensures Radius <= Grid(rows, width)[i].y <= RowY(rows - 1)
      {
        if i < |above| {
          assert Grid(rows, width)[i] == above[i];
          assert rows >= 2;
          assert RowY(rows - 2) <= RowY(rows - 1);
        } else {
          assert Grid(rows, width)[i] == row[i - |above|];
        }
      }
    }
  }

  /** On a canvas at least 2r wide the first slot is in the top row, so
      it anchors the board. */
  lemma GridStartsAtCeiling(rows: nat, width: int)
    requires rows > 0 && width >= 2 * RadiusPx
    ensures |Grid(rows, width)| > 0 && Grid(rows, width)[0] == Point(Radius, Radius)
    ensures Grid(rows, width)[0].y <= CeilingAnchorY
  {
    if rows == 1 {
      assert Grid(0, width) == [];
    } else {
      GridStartsAtCeiling(rows - 1, width);
    }
  }

  /** One slot more of row `row`: what is left of the row after x. */
  lemma RowFromUnfold(ps: seq<Point>, row: nat, x: int, width: int, g: seq<Point>)
    requires ps + RowFrom(row, x, width) == g
    requires x as real <= width as real - Radius
    ensures (ps + [Point(x as real, RowY(row))]) + RowFrom(row, x + 2 * RadiusPx, width) == g
  {
    var slot, rest := Point(x as real, RowY(row)), RowFrom(row, x + 2 * RadiusPx, width);
    assert RowFrom(row, x, width) == [slot] + rest;
    assert ps + ([slot] + rest) == (ps + [slot]) + rest;
  }

  /** Past width - r a row has no slots left. */
  lemma RowFromDone(ps: seq<Point>, row: nat, x: int, width: int, g: seq<Point>)
    requires ps + RowFrom(row, x, width) == g
    requires !(x as real <= width as real - Radius)
    ensures ps == g
  {
    assert RowFrom(row, x, width) == [];
  }

  /** The grid of row + 1 rows is the grid of `row` rows and then row `row`. */
  lemma GridNextRow(ps: seq<Point>, row: nat, width: int)
    requires ps == Grid(row, width)
    ensures ps + RowFrom(row, RowStart(row), width) == Grid(row + 1, width)
  {
  }
}
