/**
 * The tray: a rows x cols grid of equal cells centred inside a larger
 * rectangle, mapped to pixel rectangles of the rectified image, plus the
 * lookup of a tray definition by name through a cache loaded once.
 */
module Tray {
  import opened Wrappers
  import opened Python
  import opened Grids

  /** One entry of the tray configuration file: lengths before scaling. */
  datatype TrayData = TrayData(
    name: string, rows: nat, cols: nat,
    width: real, height: real, cellWidth: real, cellHeight: real)

  /**
   * A tray definition. Every length is already multiplied by `scale`;
   * `x0` and `y0` are the left and top margins that centre the cells.
   * Nothing changes it after construction.
   */
  datatype TrayDefinition = TrayDefinition(
    scale: real, name: string, rows: nat, cols: nat,
    width: real, height: real, cellWidth: real, cellHeight: real,
    x0: real, y0: real)
  {
    /** The margins are equal on both sides: the cells are centred. */
    predicate Centred() {
      2.0 * x0 + cellWidth * cols as real == width &&
      2.0 * y0 + cellHeight * rows as real == height
    }

    /**
     * Top-left corner (x, y) of cell (row, col): each coordinate is the exact
     * edge `margin + size * index` truncated on its own, x from the column
     * alone and y from the row alone.
     */
    function GetPos(row: int, col: int): (p: (int, int))
      ensures TruncOf(p.0, x0 + cellWidth * col as real)
      ensures TruncOf(p.1, y0 + cellHeight * row as real)
    {
      (Trunc(x0 + cellWidth * col as real), Trunc(y0 + cellHeight * row as real))
    }

    /**
     * (x1, y1, x2, y2) of cell (row, col): the bottom-right corner is the
     * top-left corner of the next column and of the next row.
     */
    function GetBounds(row: int, col: int): (b: (int, int, int, int))
      ensures (b.0, b.1) == GetPos(row, col)
      ensures b.2 == GetPos(row, col + 1).0 && b.3 == GetPos(row + 1, col).1
    {
      var (x1, y1) := GetPos(row, col);
      var (x2, y2) := GetPos(row + 1, col + 1);
      (x1, y1, x2, y2)
    }

    /** `img[y1:y2, x1:x2, :]` with (x1, y1, x2, y2) the bounds of cell (row, col). */
    function GetCell<P>(img: Grid<P>, row: int, col: int): (cell: Grid<P>)
      ensures var (x1, y1, x2, y2) := GetBounds(row, col);
        var a, b := SliceBound(y1, |img|), SliceBound(y2, |img|);
        |cell| == (if a < b then b - a else 0) &&
        forall i :: 0 <= i < |cell| ==> a + i < |img| && cell[i] == Slice(img[a + i], x1, x2)
    {
      var (x1, y1, x2, y2) := GetBounds(row, col);
      Crop(img, x1, y1, x2, y2)
    }

    /**
     * `for row, col in tray`: every (row, col) with row < rows and col < cols,
     * each exactly once, in row-major order.
     */
    method Iter() returns (cells: seq<(nat, nat)>)
      ensures |cells| == rows * cols
      ensures forall i, j :: 0 <= i < j < |cells| ==> RowMajorBefore(cells[i], cells[j])
      ensures forall i :: 0 <= i < |cells| ==> cells[i].0 < rows && cells[i].1 < cols
      ensures forall r: nat, c: nat :: r < rows && c < cols ==> (r, c) in cells
    {
      cells := [];
      for row := 0 to rows
        invariant |cells| == row * cols
        invariant forall i, j :: 0 <= i < j < |cells| ==> RowMajorBefore(cells[i], cells[j])
        invariant forall i :: 0 <= i < |cells| ==> cells[i].0 < row && cells[i].1 < cols
        invariant forall r: nat, c: nat :: r < row && c < cols ==> (r, c) in cells
      {
        var line := RowOfCells(row);
        assert forall c: nat :: c < cols ==> (row, c) == line[c];
        cells := cells + line;
        assert (row + 1) * cols == row * cols + cols;
      }
    }

    /** The inner loop of `__iter__`: the cells of one row, left to right. */
    method RowOfCells(row: nat) returns (line: seq<(nat, nat)>)
      ensures |line| == cols && forall c :: 0 <= c < cols ==> line[c] == (row, c)
    {
      line := [];
      for col := 0 to cols
        invariant |line| == col && forall c :: 0 <= c < col ==> line[c] == (row, c)
      {
        line := line + [(row, col)];
      }
    }
  }

  /** Each row of `band` cut to columns x1..x2. */
  function CutColumns<P>(band: Grid<P>, x1: int, x2: int): (cut: Grid<P>)
    ensures |cut| == |band|
    ensures forall i :: 0 <= i < |band| ==> cut[i] == Slice(band[i], x1, x2)
  {
    if band == [] then [] else [Slice(band[0], x1, x2)] + CutColumns(band[1..], x1, x2)
  }

  /** `img[y1:y2, x1:x2, :]`: rows y1..y2 of the image, each cut to columns x1..x2. */
  function Crop<P>(img: Grid<P>, x1: int, y1: int, x2: int, y2: int): (cell: Grid<P>)
    ensures var a, b := SliceBound(y1, |img|), SliceBound(y2, |img|);
      |cell| == (if a < b then b - a else 0) &&
      forall i :: 0 <= i < |cell| ==> a + i < |img| && cell[i] == Slice(img[a + i], x1, x2)
  {
    CutColumns(Slice(img, y1, y2), x1, x2)
  }

  /** `cell` is the block of `img` in rows y1..y2 and columns x1..x2. */
  ghost predicate IsBlock<P>(cell: Grid<P>, img: Grid<P>, x1: int, y1: int, x2: int, y2: int)
    requires IsRectangular(img) && 0 <= y1 <= y2 <= |img| && 0 <= x1 <= x2 <= Width(img)
  {
    IsGrid(cell, y2 - y1, x2 - x1) &&
    forall i, j :: 0 <= i < y2 - y1 && 0 <= j < x2 - x1 ==> cell[i][j] == img[y1 + i][x1 + j]
  }

  /** When the bounds lie inside the image, the crop is exactly the block of rows y1..y2 and columns x1..x2. */
  lemma CropIsBlock<P>(img: Grid<P>, x1: int, y1: int, x2: int, y2: int)
    requires IsRectangular(img) && 0 <= y1 <= y2 <= |img| && 0 <= x1 <= x2 <= Width(img)
    ensures IsBlock(Crop(img, x1, y1, x2, y2), img, x1, y1, x2, y2)
  {
    CropShape(img, x1, y1, x2, y2);
    CropPixels(img, x1, y1, x2, y2);
  }

  /** An in-image crop has y2 - y1 rows of x2 - x1 pixels. */
  lemma CropShape<P>(img: Grid<P>, x1: int, y1: int, x2: int, y2: int)
    requires IsRectangular(img) && 0 <= y1 <= y2 <= |img| && 0 <= x1 <= x2 <= Width(img)
    ensures IsGrid(Crop(img, x1, y1, x2, y2), y2 - y1, x2 - x1)
  {
    var cell := Crop(img, x1, y1, x2, y2);
    forall i | 0 <= i < y2 - y1
      ensures |cell[i]| == x2 - x1
    {
      CropRow(img, x1, y1, x2, y2, i);
    }
  }

  /** Each pixel of an in-image crop is the image pixel offset by (x1, y1). */
  lemma CropPixels<P>(img: Grid<P>, x1: int, y1: int, x2: int, y2: int)
    requires IsRectangular(img) && 0 <= y1 <= y2 <= |img| && 0 <= x1 <= x2 <= Width(img)
    ensures var cell := Crop(img, x1, y1, x2, y2);
      |cell| == y2 - y1 &&
      forall i, j :: 0 <= i < y2 - y1 && 0 <= j < x2 - x1 ==> |cell[i]| == x2 - x1 && cell[i][j] == img[y1 + i][x1 + j]
  {
    var cell := Crop(img, x1, y1, x2, y2);
    forall i, j | 0 <= i < y2 - y1 && 0 <= j < x2 - x1
      ensures |cell[i]| == x2 - x1 && cell[i][j] == img[y1 + i][x1 + j]
    {
      CropPixel(img, x1, y1, x2, y2, i, j);
    }
  }

  /** Pixel (i, j) of an in-image crop is image pixel (y1 + i, x1 + j). */
  lemma CropPixel<P>(img: Grid<P>, x1: int, y1: int, x2: int, y2: int, i: nat, j: nat)
    requires IsRectangular(img) && 0 <= y1 <= y2 <= |img| && 0 <= x1 <= x2 <= Width(img)
    requires i < y2 - y1 && j < x2 - x1
    ensures var cell := Crop(img, x1, y1, x2, y2);
      |cell| == y2 - y1 && |cell[i]| == x2 - x1 && cell[i][j] == img[y1 + i][x1 + j]
  {
    CropRow(img, x1, y1, x2, y2, i);
    var row := img[y1 + i];
    assert row[x1..x2][j] == row[x1 + j];
  }

  /** Row i of an in-image crop is row y1 + i of the image cut to columns x1..x2. */
  lemma CropRow<P>(img: Grid<P>, x1: int, y1: int, x2: int, y2: int, i: nat)
    requires IsRectangular(img) && 0 <= y1 <= y2 <= |img| && 0 <= x1 <= x2 <= Width(img) && i < y2 - y1
    ensures |img[y1 + i]| == Width(img)
    ensures Crop(img, x1, y1, x2, y2)[i] == img[y1 + i][x1..x2]
  {
    var row := img[y1 + i];
    assert |row| == Width(img);
    assert SliceBound(y1, |img|) == y1;
    assert Crop(img, x1, y1, x2, y2)[i] == Slice(row, x1, x2);
  }

  /**
   * When the bounds of cell (row, col) lie inside the image, the cell is
   * exactly the pixels of rows y1..y2 and columns x1..x2.
   */
  lemma CellIsBlock<P>(t: TrayDefinition, img: Grid<P>, row: int, col: int)
    requires var (x1, y1, x2, y2) := t.GetBounds(row, col);
      IsRectangular(img) && 0 <= y1 <= y2 <= |img| && 0 <= x1 <= x2 <= Width(img)
    ensures var (x1, y1, x2, y2) := t.GetBounds(row, col);
      IsBlock(t.GetCell(img, row, col), img, x1, y1, x2, y2)
  {
    var b := t.GetBounds(row, col);
    CropIsBlock(img, b.0, b.1, b.2, b.3);
  }

  /**
   * `TrayDefinition(data, scale)`: lengths are scaled, counts are not, and the
   * margins centre the block of cells in the tray.
   */
  function NewTray(data: TrayData, scale: real): (t: TrayDefinition)
    ensures t.name == data.name && t.scale == scale
    ensures t.rows == data.rows && t.cols == data.cols
    ensures t.width == data.width * scale && t.height == data.height * scale
    ensures t.cellWidth == data.cellWidth * scale && t.cellHeight == data.cellHeight * scale
    ensures t.Centred()
  {
    var width, height := data.width * scale, data.height * scale;
    var cellWidth, cellHeight := data.cellWidth * scale, data.cellHeight * scale;
    TrayDefinition(
      scale, data.name, data.rows, data.cols, width, height, cellWidth, cellHeight,
      (width - cellWidth * data.cols as real) / 2.0,
      (height - cellHeight * data.rows as real) / 2.0)
  }

  /** Two neighbouring cells share their common edge: no gap and no overlap. */
  lemma CellsShareEdges(t: TrayDefinition, row: int, col: int)
    ensures t.GetBounds(row, col).2 == t.GetBounds(row, col + 1).0
    ensures t.GetBounds(row, col).3 == t.GetBounds(row + 1, col).1
  {
  }

  /** Scaling by a non-negative factor keeps order. */
  lemma ScaleMonotonic(a: real, i: real, j: real)
    requires 0.0 <= a && i <= j
    ensures a * i <= a * j
  {
    assert a * j - a * i == a * (j - i);
  }

  /**
   * One axis: with a non-negative margin and cell size, the truncated edges
   * before and after cell `index` are the cell size apart, up to less than
   * one pixel.
   */
  lemma SpanWithinOnePixel(margin: real, size: real, index: nat)
    requires 0.0 <= margin && 0.0 <= size
    ensures -1.0 < (Trunc(margin + size * (index + 1) as real) - Trunc(margin + size * index as real)) as real - size < 1.0
  {
    ScaleMonotonic(size, 0.0, index as real);
    assert size * (index + 1) as real == size * index as real + size;
  }

  /** With a non-negative margin and cell width, a cell is as wide as the cell width, up to less than one pixel. */
  lemma CellWidthWithinOnePixel(t: TrayDefinition, row: int, col: nat)
    requires 0.0 <= t.x0 && 0.0 <= t.cellWidth
    ensures -1.0 < (t.GetPos(row, col + 1).0 - t.GetPos(row, col).0) as real - t.cellWidth < 1.0
  {
    SpanWithinOnePixel(t.x0, t.cellWidth, col);
    assert t.GetPos(row, col).0 == Trunc(t.x0 + t.cellWidth * col as real);
    assert t.GetPos(row, col + 1).0 == Trunc(t.x0 + t.cellWidth * (col + 1) as real);
  }

  /** With a non-negative margin and cell height, a cell is as tall as the cell height, up to less than one pixel. */
  lemma CellHeightWithinOnePixel(t: TrayDefinition, row: nat, col: int)
    requires 0.0 <= t.y0 && 0.0 <= t.cellHeight
    ensures -1.0 < (t.GetPos(row + 1, col).1 - t.GetPos(row, col).1) as real - t.cellHeight < 1.0
  {
    SpanWithinOnePixel(t.y0, t.cellHeight, row);
    assert t.GetPos(row, col).1 == Trunc(t.y0 + t.cellHeight * row as real);
    assert t.GetPos(row + 1, col).1 == Trunc(t.y0 + t.cellHeight * (row + 1) as real);
  }

  /**
   * With non-negative margins and cell sizes, a cell is as wide and as tall in
   * pixels as the scaled cell size, up to less than one pixel.
   */
  lemma CellSizeWithinOnePixel(t: TrayDefinition, row: nat, col: nat)
    requires 0.0 <= t.x0 && 0.0 <= t.y0 && 0.0 <= t.cellWidth && 0.0 <= t.cellHeight
    ensures var (x1, y1, x2, y2) := t.GetBounds(row, col);
      -1.0 < (x2 - x1) as real - t.cellWidth < 1.0 &&
      -1.0 < (y2 - y1) as real - t.cellHeight < 1.0
  {
    CellWidthWithinOnePixel(t, row, col);
    CellHeightWithinOnePixel(t, row, col);
  }

  /** With a non-negative cell size, the truncated edge `margin + size * index` grows with the index. */
  lemma EdgesInOrder(margin: real, size: real, i: int, j: int)
    requires 0.0 <= size && i <= j
    ensures Trunc(margin + size * i as real) <= Trunc(margin + size * j as real)
  {
    var lo, hi := size * i as real, size * j as real;
    ScaleMonotonic(size, i as real, j as real);
    TruncMonotonic(margin + lo, margin + hi);
  }

  /** With a non-negative cell width, cells further right start no further left. */
  lemma ColumnsInOrder(t: TrayDefinition, row: int, c1: int, c2: int)
    requires 0.0 <= t.cellWidth && c1 <= c2
    ensures t.GetPos(row, c1).0 <= t.GetPos(row, c2).0
  {
    EdgesInOrder(t.x0, t.cellWidth, c1, c2);
    assert t.GetPos(row, c1).0 == Trunc(t.x0 + t.cellWidth * c1 as real);
    assert t.GetPos(row, c2).0 == Trunc(t.x0 + t.cellWidth * c2 as real);
  }

  /** With a non-negative cell height, lower rows start no higher. */
  lemma RowsInOrder(t: TrayDefinition, r1: int, r2: int, col: int)
    requires 0.0 <= t.cellHeight && r1 <= r2
    ensures t.GetPos(r1, col).1 <= t.GetPos(r2, col).1
  {
    EdgesInOrder(t.y0, t.cellHeight, r1, r2);
    assert t.GetPos(r1, col).1 == Trunc(t.y0 + t.cellHeight * r1 as real);
    assert t.GetPos(r2, col).1 == Trunc(t.y0 + t.cellHeight * r2 as real);
  }

  /**
   * Cells of one row (of one column) do not overlap: a cell ends where or
   * before any cell to its right (below it) begins.
   */
  lemma CellsDoNotOverlap(t: TrayDefinition, row: int, col: int, row': int, col': int)
    requires 0.0 <= t.cellWidth && 0.0 <= t.cellHeight
    ensures col < col' ==> t.GetBounds(row, col).2 <= t.GetBounds(row', col').0
    ensures row < row' ==> t.GetBounds(row, col).3 <= t.GetBounds(row', col').1
  {
    if col < col' {
      ColumnsInOrder(t, row, col + 1, col');
      assert t.GetPos(row, col').0 == t.GetPos(row', col').0;
    }
    if row < row' {
      RowsInOrder(t, row + 1, row', col);
      assert t.GetPos(row', col).1 == t.GetPos(row', col').1;
    }
  }


  /**
   * One edge of a centred tray, on one axis: with a non-negative margin and
   * cell size, the truncated edge `margin + size * index` of any index up to
   * the cell count lies between 0 and the tray's length.
   */
  lemma EdgeWithin(n: int, margin: real, size: real, index: nat, count: nat, length: real)
    requires TruncOf(n, margin + size * index as real)
    requires 0.0 <= margin && 0.0 <= size && index <= count
    requires 2.0 * margin + size * count as real == length
    ensures 0 <= n && n as real <= length
  {
    ScaleMonotonic(size, 0.0, index as real);
    ScaleMonotonic(size, index as real, count as real);
  }

  /**
   * A vertical edge of a horizontally centred tray: with a non-negative
   * margin and cell width, the edge before column `col` (up to `cols`) lies
   * within the tray's width.
   */
  lemma ColumnEdgeInsideTray(t: TrayDefinition, row: int, col: nat)
    requires 2.0 * t.x0 + t.cellWidth * t.cols as real == t.width
    requires 0.0 <= t.x0 && 0.0 <= t.cellWidth && col <= t.cols
    ensures 0 <= t.GetPos(row, col).0 && t.GetPos(row, col).0 as real <= t.width
  {
    EdgeWithin(t.GetPos(row, col).0, t.x0, t.cellWidth, col, t.cols, t.width);
  }

  /**
   * A horizontal edge of a vertically centred tray: with a non-negative
   * margin and cell height, the edge above row `row` (up to `rows`) lies
   * within the tray's height.
   */
  lemma RowEdgeInsideTray(t: TrayDefinition, row: nat, col: int)
    requires 2.0 * t.y0 + t.cellHeight * t.rows as real == t.height
    requires 0.0 <= t.y0 && 0.0 <= t.cellHeight && row <= t.rows
    ensures 0 <= t.GetPos(row, col).1 && t.GetPos(row, col).1 as real <= t.height
  {
    EdgeWithin(t.GetPos(row, col).1, t.y0, t.cellHeight, row, t.rows, t.height);
  }

  /** In a centred tray with non-negative margins every cell lies inside the tray. */
  lemma CellsInsideTray(t: TrayDefinition, row: nat, col: nat)
    requires t.Centred() && row < t.rows && col < t.cols
    requires 0.0 <= t.x0 && 0.0 <= t.y0 && 0.0 <= t.cellWidth && 0.0 <= t.cellHeight
    ensures var (x1, y1, x2, y2) := t.GetBounds(row, col);
      0 <= x1 && 0 <= y1 && x2 as real <= t.width && y2 as real <= t.height
  {
    ColumnEdgeInsideTray(t, row, col);
    ColumnEdgeInsideTray(t, row, col + 1);
    RowEdgeInsideTray(t, row, col);
    RowEdgeInsideTray(t, row + 1, col);
  }

  /** Index of the first tray named `name`, or |trays| when there is none. */
  function FirstNamed(trays: seq<TrayData>, name: string): (k: nat)
    ensures k <= |trays|
    ensures forall j :: 0 <= j < k ==> trays[j].name != name
    ensures k < |trays| ==> trays[k].name == name
  {
    if trays == [] then 0
    else if trays[0].name == name then 0
    else 1 + FirstNamed(trays[1..], name)
  }

  /**
   * The module-level cache `_trays_data`: `None` until the first lookup loads
   * the tray file, the loaded list from then on.
   */
  class TrayCatalog {
    var traysData: Option<seq<TrayData>>
    ghost var loads: nat

    /** The tray file has been read at most once, and only if the cache is filled. */
    ghost predicate Valid()
      reads this
    {
      loads == if traysData.Some? then 1 else 0
    }

    constructor ()
      ensures Valid() && traysData == None
    {
      traysData := None;
      loads := 0;
    }

    /**
     * `getTrayDef(name, scale)`: `file` is what reading the tray file would
     * give; it is read only when the cache is still empty. The result is the
     * first tray with that name, scaled, or None when no tray has it.
     */
    method GetTrayDef(name: string, scale: real, file: seq<TrayData>) returns (t: Option<TrayDefinition>)
      requires Valid()
      modifies this
      ensures Valid() && loads <= 1
      ensures old(traysData).Some? ==> traysData == old(traysData) && loads == old(loads)
      ensures old(traysData).None? ==> traysData == Some(file)
      ensures var trays := traysData.value; var k := FirstNamed(trays, name);
        t == if k < |trays| then Some(NewTray(trays[k], scale)) else None
    {
      if traysData.None? {
        traysData := Some(file);
        loads := loads + 1;
      }
      var trays := traysData.value;
      var i := 0;
      while i < |trays|
        invariant 0 <= i <= |trays|
        invariant forall j :: 0 <= j < i ==> trays[j].name != name
      {
        if trays[i].name == name {
          return Some(NewTray(trays[i], scale));
        }
        i := i + 1;
      }
      return None;
    }
  }
}
