/**
 * Rectangular grids (numpy 2-D arrays) and the numpy reductions the detector
 * uses on them: `argmax`/`argmin` over a vector, row-major `argmax` over a
 * whole surface followed by `unravel_index`, and the coordinate swap `np.flip`.
 */
module Grids {

  type Grid<T> = seq<seq<T>>

  /** A pixel is the vector of its channel values; an image is a grid of pixels. */
  type Pixel = seq<int>
  type Image = Grid<Pixel>

  /** Number of columns of a grid (of its first row); 0 for a grid with no rows. */
  function Width<T>(g: Grid<T>): nat {
    if |g| == 0 then 0 else |g[0]|
  }

  /** `img.shape[:2]`, the (height, width) of an image. */
  function ShapeOf<T>(img: Grid<T>): (nat, nat) {
    (|img|, Width(img))
  }

  /** `g` has shape (rows, cols). */
  predicate IsGrid<T>(g: Grid<T>, rows: nat, cols: nat) {
    |g| == rows && forall r :: 0 <= r < rows ==> |g[r]| == cols
  }

  /** The entries of a two-dimensional array, row by row. */
  function Contents<T>(a: array2<T>): (g: Grid<T>)
    reads a
    ensures IsGrid(g, a.Length0, a.Length1)
    ensures forall r, c :: 0 <= r < a.Length0 && 0 <= c < a.Length1 ==> g[r][c] == a[r, c]
  {
    seq(a.Length0, r requires 0 <= r < a.Length0 reads a =>
      seq(a.Length1, c requires 0 <= c < a.Length1 reads a => a[r, c]))
  }

  /** Two grids of the same shape with the same entries are equal. */
  lemma GridExtensionality<T>(a: Grid<T>, b: Grid<T>, rows: nat, cols: nat)
    requires IsGrid(a, rows, cols) && IsGrid(b, rows, cols)
    requires forall r, c :: 0 <= r < rows && 0 <= c < cols ==> a[r][c] == b[r][c]
    ensures a == b
  {
    forall r | 0 <= r < rows
      ensures a[r] == b[r]
    {
      assert forall c :: 0 <= c < cols ==> a[r][c] == b[r][c];
    }
  }

  /** `g` is a rectangular array, as every numpy 2-D array is. */
  predicate IsRectangular<T>(g: Grid<T>) {
    IsGrid(g, |g|, Width(g))
  }

  /** Grids `np.stack` accepts: at least one, all of the shape of the first. */
  predicate Stackable<T>(gs: seq<Grid<T>>) {
    |gs| > 0 && forall k :: 0 <= k < |gs| ==> IsGrid(gs[k], |gs[0]|, Width(gs[0]))
  }

  /** The scores of every grid at (r, c): one column of `np.stack(gs)`. */
  function Column<T>(gs: seq<Grid<T>>, r: nat, c: nat): (col: seq<T>)
    requires Stackable(gs) && r < |gs[0]| && c < Width(gs[0])
    ensures |col| == |gs| && forall k :: 0 <= k < |gs| ==> col[k] == gs[k][r][c]
  {
    seq(|gs|, k requires 0 <= k < |gs| => gs[k][r][c])
  }

  /** A match surface: a non-empty rectangular array of scores. */
  predicate IsSurface(m: Grid<real>) {
    |m| > 0 && |m[0]| > 0 && IsGrid(m, |m|, |m[0]|)
  }

  /** `p` = (row, col) indexes an element of `g`. */
  predicate InGrid<T>(g: Grid<T>, p: (int, int)) {
    0 <= p.0 < |g| && 0 <= p.1 < |g[p.0]|
  }

  /** Reverses the two coordinates of a pair, as `np.flip(..., axis=-1)` does. */
  function Flip<A>(p: (A, A)): (A, A) {
    (p.1, p.0)
  }

  /** `p` comes strictly before `q` when a grid is scanned row by row. */
  predicate RowMajorBefore(p: (int, int), q: (int, int)) {
    p.0 < q.0 || (p.0 == q.0 && p.1 < q.1)
  }

  /** `np.argmax` of a vector: an index of the largest element, the first one on ties. */
  function ArgMax(s: seq<real>): (k: nat)
    requires |s| > 0
    ensures k < |s|
    ensures forall j :: 0 <= j < |s| ==> s[j] <= s[k]
    ensures forall j :: 0 <= j < k ==> s[j] < s[k]
  {
    if |s| == 1 then 0
    else
      var k := ArgMax(s[..|s| - 1]);
      if s[|s| - 1] > s[k] then |s| - 1 else k
  }

  /** `np.argmin` of a vector: an index of the smallest element, the first one on ties. */
  function ArgMin(s: seq<real>): (k: nat)
    requires |s| > 0
    ensures k < |s|
    ensures forall j :: 0 <= j < |s| ==> s[k] <= s[j]
    ensures forall j :: 0 <= j < k ==> s[k] < s[j]
  {
    if |s| == 1 then 0
    else
      var k := ArgMin(s[..|s| - 1]);
      if s[|s| - 1] < s[k] then |s| - 1 else k
  }

  /** Row-major argmax over the first n rows of a surface. */
  function ArgMaxRows(m: Grid<real>, n: nat): (p: (nat, nat))
    requires IsSurface(m) && 0 < n <= |m|
    ensures p.0 < n && InGrid(m, p)
    ensures forall r, c :: 0 <= r < n && 0 <= c < |m[r]| ==> m[r][c] <= m[p.0][p.1]
    ensures forall r, c :: 0 <= r < n && 0 <= c < |m[r]| && RowMajorBefore((r, c), p) ==> m[r][c] < m[p.0][p.1]
  {
    var last := (n - 1, ArgMax(m[n - 1]));
    if n == 1 then last
    else
      var p := ArgMaxRows(m, n - 1);
      if m[last.0][last.1] > m[p.0][p.1] then last else p
  }

  /**
   * `p` holds a largest entry of `m`, and no position before it in row-major
   * order does.
   */
  predicate IsFirstMax(m: Grid<real>, p: (nat, nat)) {
    InGrid(m, p) &&
    (forall r, c :: 0 <= r < |m| && 0 <= c < |m[r]| ==> m[r][c] <= m[p.0][p.1]) &&
    (forall r, c :: 0 <= r < |m| && 0 <= c < |m[r]| && RowMajorBefore((r, c), p) ==> m[r][c] < m[p.0][p.1])
  }

  /** A surface has a first largest entry: the row-major scan finds one. */
  lemma FirstMaxExists(m: Grid<real>)
    requires IsSurface(m)
    ensures exists p :: IsFirstMax(m, p)
  {
    var p := ArgMaxRows(m, |m|);
    assert IsFirstMax(m, p);
  }

  /** A surface has only one first largest entry. */
  lemma FirstMaxUnique(m: Grid<real>, p: (nat, nat), q: (nat, nat))
    requires IsFirstMax(m, p) && IsFirstMax(m, q)
    ensures p == q
  {
  }

  /**
   * `np.unravel_index(np.argmax(m), m.shape)`: the position of the largest
   * score, the first one in row-major order on ties.
   */
  function ArgMax2(m: Grid<real>): (p: (nat, nat))
    requires IsSurface(m)
    ensures InGrid(m, p)
    ensures forall r, c :: 0 <= r < |m| && 0 <= c < |m[r]| ==> m[r][c] <= m[p.0][p.1]
    ensures forall r, c :: 0 <= r < |m| && 0 <= c < |m[r]| && RowMajorBefore((r, c), p) ==> m[r][c] < m[p.0][p.1]
  {
    FirstMaxExists(m);
    var p :| IsFirstMax(m, p);
    p
  }
}
