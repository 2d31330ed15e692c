/** The machine state built from a program: its grid of operations, the
    memory stack, the accumulator and the program point. */
module Machines {
  import opened Opcodes
  import opened Vectors
  import opened Layout
  import Editor

  class Machine {
    var Operations: array2<Operation>
    var ProgramPoint: Vector2
    const Width: nat
    const Height: nat
    var Stack: array<int>
    var Accumulator: int

    /** The grid has the machine's dimensions. */
    ghost predicate Valid()
      reads this
    {
      Operations.Length0 == Width && Operations.Length1 == Height
    }

    /** Builds a machine from the first width * height operations of a
        column-major sequence (later elements are ignored), with a zeroed
        stack of `stackSize` cells, accumulator 0 and the cursor at `start`.
        The sequence must hold at least width * height operations. */
    constructor (width: nat, height: nat, operations: seq<Operation>, stackSize: nat, start: Vector2)
      requires width * height <= |operations|
      ensures Valid() && Width == width && Height == height
      ensures fresh(Operations) && fresh(Stack)
      ensures forall x, y :: 0 <= x < width && 0 <= y < height ==>
                0 <= CellIndex(Vector2(x, y), height) < |operations| &&
                Operations[x, y] == operations[CellIndex(Vector2(x, y), height)]
      ensures Flatten(Operations) == operations[..width * height]
      ensures Stack.Length == stackSize && forall i :: 0 <= i < stackSize ==> Stack[i] == 0
      ensures Accumulator == 0 && ProgramPoint == start
    {
      Width := width;
      Height := height;
      ProgramPoint := start;
      Accumulator := 0;
      var grid := new Operation[width, height];
      ColumnStartIsProduct(width, height);
      AllCellIndicesInRange(width, height);
      var counter := 0;
      var x := 0;
      while x < width
        invariant 0 <= x <= width
        invariant counter == ColumnStart(x, height)
        invariant forall i, j :: 0 <= i < x && 0 <= j < height ==>
                    grid[i, j] == operations[CellIndex(Vector2(i, j), height)]
      {
        var y := 0;
        while y < height
          invariant 0 <= y <= height
          invariant counter == CellIndex(Vector2(x, y), height)
          invariant forall i, j :: 0 <= i < x && 0 <= j < height ==>
                      grid[i, j] == operations[CellIndex(Vector2(i, j), height)]
          invariant forall j :: 0 <= j < y ==> grid[x, j] == operations[CellIndex(Vector2(x, j), height)]
        {
          grid[x, y] := operations[counter];
          counter := counter + 1;
          y := y + 1;
        }
        x := x + 1;
      }
      assert counter == ColumnStart(width, height) == width * height;
      // C# zero-initialises the stack array.
      Stack := new int[stackSize](_ => 0);
      FlattenAfterFill(grid, operations);
      Operations := grid;
    }
  }

  /** A grid whose cell (x, y) holds element x * height + y of a sequence
      reads back, column by column, as that sequence's first
      width * height elements (later elements play no part). */
  lemma FlattenAfterFill(grid: array2<Operation>, operations: seq<Operation>)
    requires ColumnStart(grid.Length0, grid.Length1) <= |operations|
    requires forall x, y :: 0 <= x < grid.Length0 && 0 <= y < grid.Length1 ==>
               CellIndex(Vector2(x, y), grid.Length1) < |operations| &&
               grid[x, y] == operations[CellIndex(Vector2(x, y), grid.Length1)]
    ensures Flatten(grid) == operations[..ColumnStart(grid.Length0, grid.Length1)]
  {
    forall k: nat | k < ColumnStart(grid.Length0, grid.Length1)
      ensures Flatten(grid)[k] == operations[k]
    {
      CellIndexPointAt(k, grid.Length0, grid.Length1);
    }
  }

  /** Filling a machine from the column-major reading of a canvas gives
      back the canvas cell for cell: the fill is the inverse of `Flatten`. */
  method FillAfterFlatten(canvas: Editor.ScriptCanvas, stackSize: nat, start: Vector2) returns (m: Machine)
    requires canvas.Valid()
    ensures fresh(m) && m.Valid()
    ensures m.Width == canvas.Width && m.Height == canvas.Height
    ensures forall x, y :: 0 <= x < m.Width && 0 <= y < m.Height ==>
              m.Operations[x, y] == canvas.Operations[x, y]
  {
    var cells := Flatten(canvas.Operations);
    ColumnStartIsProduct(canvas.Width, canvas.Height);
    m := new Machine(canvas.Width, canvas.Height, cells, stackSize, start);
  }
}
