/** Column-major layout of a width x height grid in a flat sequence.
    The machine fills its grid column by column (outer loop over x, inner
    loop over y) with a running counter, so column x starts at position
    x * height and cell (x, y) is the element at x * height + y. */
module Layout {
  import opened Vectors

  /** `p` addresses a cell of a width x height grid. */
  predicate InGrid(p: Vector2, width: int, height: int)
  {
    0 <= p.X < width && 0 <= p.Y < height
  }

  /** The counter's value when the fill reaches column x: each earlier
      column advanced it by `height`. */
  function ColumnStart(x: nat, height: nat): nat
  {
    if x == 0 then 0 else ColumnStart(x - 1, height) + height
  }

  /** Position of cell `p` in the column-major sequence. */
  function CellIndex(p: Vector2, height: nat): (i: int)
    requires 0 <= p.X
    ensures i == p.X * height + p.Y
  {
    ColumnStartIsProduct(p.X, height);
    ColumnStart(p.X, height) + p.Y
  }

  /** The cell stored at position `i` of the column-major sequence:
      every `height` positions move one column to the right. */
  function PointAt(i: nat, height: nat): Vector2
    requires height > 0
  {
    if i < height then Vector2(0, i)
    else
      var p := PointAt(i - height, height);
      Vector2(p.X + 1, p.Y)
  }

  /** Column x starts at x * height, so a grid of `width` columns
      occupies width * height positions. */
  lemma {:induction false} ColumnStartIsProduct(x: nat, height: nat)
    ensures ColumnStart(x, height) == x * height
  {
    if x > 0 {
      ColumnStartIsProduct(x - 1, height);
      assert (x - 1) * height + height == x * height;
    }
  }

  /** Later columns start no earlier than the end of earlier ones. */
  lemma {:induction false} ColumnStartMonotone(x: nat, x': nat, height: nat)
    requires x <= x'
    ensures ColumnStart(x, height) <= ColumnStart(x', height)
  {
    if x < x' {
      ColumnStartMonotone(x, x' - 1, height);
    }
  }

  /** Every cell of the grid has a position in 0 .. width * height - 1. */
  lemma CellIndexInRange(p: Vector2, width: nat, height: nat)
    requires InGrid(p, width, height)
    ensures 0 <= CellIndex(p, height) < ColumnStart(width, height)
  {
    ColumnStartMonotone(p.X + 1, width, height);
  }

  /** `CellIndexInRange` for all cells at once. */
  lemma AllCellIndicesInRange(width: nat, height: nat)
    ensures forall p :: InGrid(p, width, height) ==> 0 <= CellIndex(p, height) < ColumnStart(width, height)
  {
    forall p | InGrid(p, width, height)
      ensures 0 <= CellIndex(p, height) < ColumnStart(width, height)
    {
      CellIndexInRange(p, width, height);
    }
  }

  /** Reading the position of an in-grid point back as a point gives it back. */
  lemma {:induction false} PointAtCellIndex(p: Vector2, width: nat, height: nat)
    requires InGrid(p, width, height)
    ensures height > 0 && PointAt(CellIndex(p, height), height) == p
    decreases p.X
  {
    if p.X > 0 {
      PointAtCellIndex(Vector2(p.X - 1, p.Y), width, height);
    }
  }

  /** Every position below width * height is the position of the point
      `PointAt(i)`, which lies inside the grid. */
  lemma {:induction false} CellIndexPointAt(i: nat, width: nat, height: nat)
    requires i < ColumnStart(width, height)
    ensures height > 0
    ensures InGrid(PointAt(i, height), width, height)
    ensures CellIndex(PointAt(i, height), height) == i
  {
    if i >= height {
      CellIndexPointAt(i - height, width - 1, height);
    }
  }

  /** Distinct cells have distinct positions. */
  lemma CellIndexInjective(p: Vector2, q: Vector2, width: nat, height: nat)
    requires InGrid(p, width, height) && InGrid(q, width, height)
    ensures CellIndex(p, height) == CellIndex(q, height) <==> p == q
  {
    PointAtCellIndex(p, width, height);
    PointAtCellIndex(q, width, height);
  }

  /** The column-major position alone does not tell in-grid points from
      others: the point one past the bottom of column x lies outside the
      grid, yet it has the position of the top of column x + 1, which lies
      inside 0 .. width * height - 1. */
  lemma OverflowingYAliasesNextColumn(x: nat, width: nat, height: nat)
    requires x + 1 < width && height > 0
    ensures !InGrid(Vector2(x, height), width, height)
    ensures CellIndex(Vector2(x, height), height) == CellIndex(Vector2(x + 1, 0), height)
    ensures 0 <= CellIndex(Vector2(x, height), height) < ColumnStart(width, height)
  {
    ColumnStartMonotone(x + 2, width, height);
  }

  /** The first `n` columns of `a`, read x outer, y inner. */
  function Columns<T>(a: array2<T>, n: nat): (s: seq<T>)
    reads a
    requires n <= a.Length0
    ensures |s| == ColumnStart(n, a.Length1)
    ensures forall x, y :: 0 <= x < n && 0 <= y < a.Length1 ==>
              CellIndex(Vector2(x, y), a.Length1) < |s| && s[CellIndex(Vector2(x, y), a.Length1)] == a[x, y]
  {
    if n == 0 then []
    else Columns(a, n - 1) + seq(a.Length1, y requires 0 <= y < a.Length1 reads a => a[n - 1, y])
  }

  /** The whole grid read back column by column: cell (x, y) is at
      position x * height + y, and there are width * height cells. */
  function Flatten<T>(a: array2<T>): (s: seq<T>)
    reads a
    ensures |s| == ColumnStart(a.Length0, a.Length1)
    ensures forall x, y :: 0 <= x < a.Length0 && 0 <= y < a.Length1 ==>
              CellIndex(Vector2(x, y), a.Length1) < |s| && s[CellIndex(Vector2(x, y), a.Length1)] == a[x, y]
  {
    Columns(a, a.Length0)
  }
}
