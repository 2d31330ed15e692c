/** The editor's program grid: a width x height array of operations that
    the editor paints cell by cell. */
module Editor {
  import opened Opcodes
  import opened Vectors
  import opened Layout

  class ScriptCanvas {
    // Width, Height and the array are set by the constructor only (their
    // setters are private and never used elsewhere), hence `const`.
    const Width: nat
    const Height: nat
    const Operations: array2<Operation>

    /** The array has the canvas's dimensions. */
    ghost predicate Valid()
    {
      Operations.Length0 == Width && Operations.Length1 == Height
    }

    /** A new canvas of the given size; every cell is zero-initialised,
        i.e. holds the opcode of ordinal 0, `NoOperation`. */
    constructor (width: nat, height: nat)
      ensures Valid()
      ensures Width == width && Height == height && fresh(Operations)
      ensures forall x, y :: 0 <= x < width && 0 <= y < height ==>
                Operations[x, y] == NoOperation
    {
      Width := width;
      Height := height;
      Operations := new Operation[width, height]((_, _) => NoOperation);
    }

    /** Whether `point` has a cell of the canvas underneath. */
    predicate IsValidPoint(point: Vector2): (b: bool)
      ensures Valid() ==> (b <==> 0 <= point.X < Operations.Length0 && 0 <= point.Y < Operations.Length1)
    {
      InGrid(point, Width, Height)
    }

    /** The indexer `this[point]`: the operation at a valid point, which is
        also the element at the point's column-major position. */
    function At(point: Vector2): (op: Operation)
      reads Operations
      requires Valid() && IsValidPoint(point)
      ensures op == Flatten(Operations)[CellIndex(point, Height)]
    {
      Operations[point.X, point.Y]
    }

    /** A click on cell (x, y): outside the canvas it does nothing; inside,
        the left button paints `brush` and any other button erases the cell
        to `NoOperation`. No other cell and no dimension changes. */
    method PaintCell(x: int, y: int, leftButton: bool, brush: Operation) returns (painted: bool)
      requires Valid()
      modifies Operations
      ensures Valid()
      ensures painted <==> IsValidPoint(Vector2(x, y))
      ensures painted ==> Operations[x, y] == (if leftButton then brush else NoOperation)
      ensures forall i, j :: 0 <= i < Width && 0 <= j < Height && (i, j) != (x, y) ==>
                Operations[i, j] == old(Operations[i, j])
      ensures !painted ==> unchanged(Operations)
    {
      if !IsValidPoint(Vector2(x, y)) {
        return false;
      }
      Operations[x, y] := if leftButton then brush else NoOperation;
      painted := true;
    }
  }

  /** Every point is valid or has a coordinate outside the canvas:
      a negative coordinate, X >= Width or Y >= Height. */
  lemma InvalidPoints(c: ScriptCanvas, p: Vector2)
    ensures !c.IsValidPoint(p) <==> p.X < 0 || p.Y < 0 || p.X >= c.Width || p.Y >= c.Height
  {
  }

  /** The valid points are in one-to-one correspondence with the positions
      0 .. Width * Height - 1 of the column-major sequence. */
  lemma ValidPointPositions(c: ScriptCanvas, p: Vector2, i: nat)
    requires c.Valid()
    ensures ColumnStart(c.Width, c.Height) == c.Width * c.Height
    ensures c.IsValidPoint(p) ==> 0 <= CellIndex(p, c.Height) < c.Width * c.Height
    ensures i < c.Width * c.Height ==>
              c.Height > 0 && c.IsValidPoint(PointAt(i, c.Height)) && CellIndex(PointAt(i, c.Height), c.Height) == i
    ensures c.IsValidPoint(p) && i < c.Width * c.Height ==>
              (CellIndex(p, c.Height) == i <==> p == PointAt(i, c.Height))
  {
    ColumnStartIsProduct(c.Width, c.Height);
    if c.IsValidPoint(p) {
      CellIndexInRange(p, c.Width, c.Height);
      PointAtCellIndex(p, c.Width, c.Height);
    }
    if i < c.Width * c.Height {
      CellIndexPointAt(i, c.Width, c.Height);
    }
  }
}
