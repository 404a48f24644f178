/**
 * The character-cell screen of flap.c and its one piece of geometry, put_rect:
 * fill a w x h block whose top-left cell is (x, y), clipped horizontally to
 * the columns [1, WIDTH]. The escape sequences and the fill character are
 * output only; the model is the set of (row, column) cells a call writes.
 */
module Screen {
  import opened Wrappers

  /** Number of columns of the play field (WIDTH). */
  const WIDTH: int := 64
  /** Row of the floor line (FLOOR_Y). */
  const FLOOR_Y: int := 40

  /** One character cell, 1-indexed; rows grow downward. */
  datatype Cell = Cell(row: int, col: int)

  /** A run of columns: the first one and how many. */
  datatype Span = Span(start: int, width: int)

  function Max(a: int, b: int): int { if a >= b then a else b }

  /**
   * The last column put_rect writes for a request starting at column x with
   * width w: the requested right edge, except that an overhanging rectangle
   * is cut at WIDTH - 1 (the code sets w = WIDTH - x).
   */
  function RightEdge(x: int, w: int): int {
    if x + w - 1 > WIDTH then WIDTH - 1 else x + w - 1
  }

  /**
   * The horizontal clipping of put_rect: None when it returns early (x past
   * the right edge, or nothing left after clipping), otherwise the columns
   * it writes on every row.
   */
  function Clip(x: int, w: int): (r: Option<Span>)
    ensures x > WIDTH ==> r.None?
    ensures r.Some? <==> x <= WIDTH && Max(x, 1) <= RightEdge(x, w)
    ensures r.Some? ==> r.value.width > 0
    ensures r.Some? ==> r.value.start == Max(x, 1)
    ensures r.Some? ==> r.value.start + r.value.width - 1 == RightEdge(x, w)
  {
    if x > WIDTH then None
    else
      var w1 := if x + w - 1 > WIDTH then WIDTH - x else w;
      var x2 := if x < 1 then 1 else x;
      var w2 := if x < 1 then w1 + x - 1 else w1;
      if w2 <= 0 then None else Some(Span(x2, w2))
  }

  /**
   * The cells put_rect(x, y, w, h, _) writes. The row guard tests the start
   * row y, not the loop row, so a rectangle starting above row 0 writes
   * nothing at all.
   */
  function RectCells(x: int, y: int, w: int, h: int): (r: set<Cell>)
    ensures x > WIDTH ==> r == {}
    ensures y < 0 || h <= 0 || w <= 0 ==> r == {}
    ensures forall c :: c in r ==> 1 <= c.col <= WIDTH && x <= c.col <= x + w - 1
    ensures forall c :: c in r ==> y <= c.row < y + h
  {
    match Clip(x, w)
    case None => {}
    case Some(s) =>
      if y < 0 then {}
      else set i, j | y <= i < y + h && s.start <= j < s.start + s.width :: Cell(i, j)
  }

  /** Membership in RectCells, stated without the clipping steps. */
  lemma RectCellsExact(x: int, y: int, w: int, h: int, c: Cell)
    ensures c in RectCells(x, y, w, h) <==>
              x <= WIDTH && y >= 0 && y <= c.row < y + h && Max(x, 1) <= c.col <= RightEdge(x, w)
  {
    if x <= WIDTH && y >= 0 && y <= c.row < y + h && Max(x, 1) <= c.col <= RightEdge(x, w) {
      assert Clip(x, w).Some?;
    }
  }

  /**
   * Rows: when y >= 0 every row y .. y + h - 1 gets the same clipped column
   * run, so a cell is written exactly when its row is in range and its
   * column is in the clipped run.
   */
  lemma RectRowsAreUniform(x: int, y: int, w: int, h: int, i: int, j: int)
    requires y >= 0 && y <= i < y + h
    requires Clip(x, w).Some?
    ensures Cell(i, j) in RectCells(x, y, w, h) <==> Cell(y, j) in RectCells(x, y, w, h)
  {
    RectCellsExact(x, y, w, h, Cell(i, j));
    RectCellsExact(x, y, w, h, Cell(y, j));
  }

  /** An overhanging rectangle never reaches column WIDTH itself. */
  lemma OverhangSkipsLastColumn(x: int, y: int, w: int, h: int)
    requires x + w - 1 > WIDTH
    ensures forall c :: c in RectCells(x, y, w, h) ==> c.col <= WIDTH - 1
  {
    forall c | c in RectCells(x, y, w, h) ensures c.col <= WIDTH - 1 {
      RectCellsExact(x, y, w, h, c);
    }
  }

  /** The cells written, in the order the nested loops of put_rect write them. */
  ghost predicate RowMajor(cells: seq<Cell>) {
    forall a, b :: 0 <= a < b < |cells| ==>
      cells[a].row < cells[b].row || (cells[a].row == cells[b].row && cells[a].col < cells[b].col)
  }

  /**
   * put_rect with its two loops: returns the cells in the order it writes
   * them, which is row by row, left to right, each cell once.
   */
  method PutRect(x: int, y: int, w: int, h: int) returns (cells: seq<Cell>)
    ensures forall c :: c in cells <==> c in RectCells(x, y, w, h)
    ensures RowMajor(cells)
  {
    cells := [];
    if x > WIDTH {
      return;
    }
    var cx, cw := x, w;
    if cx + cw - 1 > WIDTH {
      cw := WIDTH - cx;
    }
    if cx < 1 {
      cw := cw + cx - 1;
      cx := 1;
    }
    if cw <= 0 {
      assert Clip(x, w).None?;
      return;
    }
    assert Clip(x, w) == Some(Span(cx, cw));
    var i := y;
    while i < y + h
      invariant y <= i <= if h > 0 then y + h else y
      invariant y < 0 ==> cells == []
      invariant forall c :: c in cells <==> y >= 0 && y <= c.row < i && cx <= c.col < cx + cw
      invariant RowMajor(cells)
    {
      if y < 0 {
        i := i + 1;
        continue;
      }
      var j := 0;
      while j < cw
        invariant 0 <= j <= cw
        invariant forall c :: c in cells <==>
                    (y <= c.row < i && cx <= c.col < cx + cw) || (c.row == i && cx <= c.col < cx + j)
        invariant RowMajor(cells)
        invariant forall c :: c in cells ==> c.row < i || (c.row == i && c.col < cx + j)
      {
        cells := cells + [Cell(i, cx + j)];
        j := j + 1;
      }
      i := i + 1;
    }
    assert Max(x, 1) == cx && RightEdge(x, w) == cx + cw - 1;
    forall c ensures c in cells <==> c in RectCells(x, y, w, h) {
      RectCellsExact(x, y, w, h, c);
    }
  }

  /**
   * The right edge put_rect was evidently meant to have: an
   * overhanging rectangle keeps every column up to WIDTH (w = WIDTH - x + 1).
   */
  function IntendedRectCells(x: int, y: int, w: int, h: int): (r: set<Cell>)
    ensures forall c :: c in r <==>
              y >= 0 && y <= c.row < y + h && x <= c.col <= x + w - 1 && 1 <= c.col <= WIDTH
  {
    if x > WIDTH || y < 0 then {}
    else
      var last := if x + w - 1 > WIDTH then WIDTH else x + w - 1;
      set i, j | y <= i < y + h && Max(x, 1) <= j <= last :: Cell(i, j)
  }

  /**
   * As written, put_rect(62, 1, 5, 1) writes columns 62 and 63 only: column
   * 64 is on screen and inside the request, yet it is left out.
   */
  lemma RightEdgeDropsVisibleColumn()
    ensures Cell(1, WIDTH) !in RectCells(62, 1, 5, 1)
    ensures Cell(1, WIDTH) in IntendedRectCells(62, 1, 5, 1)
  {
    RectCellsExact(62, 1, 5, 1, Cell(1, WIDTH));
  }

  /** The written cells are the intended ones less column WIDTH on an overhang, and nothing else differs. */
  lemma RectCellsVersusIntended(x: int, y: int, w: int, h: int, c: Cell)
    ensures c in RectCells(x, y, w, h) <==>
              c in IntendedRectCells(x, y, w, h) && !(x + w - 1 > WIDTH && c.col == WIDTH)
  {
    RectCellsExact(x, y, w, h, c);
  }
}
