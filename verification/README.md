# MapLanguage core, modelled in Dafny

MapLanguage is a graphical esoteric language: a program is a rectangular
grid of cells, and each cell holds one instruction (an `Operation`). This
project models the language layer that the editor and the interpreter
share:

- `opcodes.dfy` (module `Opcodes`): the closed set of 28 opcodes. An
  opcode's declaration index is its ordinal, and the ordinal is the number
  it is stored as. `FromOrdinal` decodes a number back into an opcode.
- `vector2.dfy` (module `Vectors`): the integer point type with
  component-wise `+` and `-`, the `==` / `!=` operators, `Zero` and `One`.
- `layout.dfy` (module `Layout`): the column-major index arithmetic that
  every flat encoding of a grid uses. Cell (x, y) sits at position
  `x * height + y`. `Flatten` reads a grid back in x-outer, y-inner order.
- `script_canvas.dfy` (module `Editor`): the editor's `ScriptCanvas`, a
  class over a mutable `array2<Operation>`. It has its bounds predicate,
  its point indexer and the editor's guarded single-cell write.
- `machine.dfy` (module `Machines`): the `Machine` constructor. It fills
  the grid column by column from a flat sequence with a running counter,
  allocates a zeroed stack, sets the accumulator to 0 and places the cursor
  at the start point.

The main results are these. Cell positions are a bijection between the
valid points and `0 .. width*height-1`. The machine's fill and `Flatten`
are inverse to each other in both directions. A guarded write changes
exactly one cell.

## Model

| member | source | states |
|---|---|---|
| `Opcodes.Ordinal` | Language/Operations.cs:23-62 | every opcode's ordinal lies in 0 .. 27 |
| `Opcodes.FromOrdinal` | Language/Operations.cs:23-62 | decoding succeeds exactly on 0 .. 27, and the decoded opcode has the given ordinal |
| `Opcodes.OrdinalRoundTrip` | Language/Operations.cs:23-62 | decoding an opcode's ordinal gives the same opcode back |
| `Opcodes.OrdinalInjective` | Language/Operations.cs:23-62 | two opcodes have the same ordinal if and only if they are the same opcode |
| `Opcodes.OrdinalsContiguous` | Language/Operations.cs:23-62 | every number in 0 .. 27 is some opcode's ordinal, so together with injectivity there are exactly 28 opcodes with contiguous ordinals |
| `Opcodes.OrdinalEnds` | Language/Operations.cs:28-61 | ordinal 0, the value of a zeroed cell, is `NoOperation`; ordinal 27 is `IsZero`; 28 decodes to nothing |
| `Opcodes.MoveOrdinals` | Language/Operations.cs:29-44 | the plain moves are exactly the ordinals 1..4 and the conditional moves exactly 13..16 |
| `Opcodes.ConditionalMoveOrder` | Language/Operations.cs:29-44 | each plain move's conditional counterpart is a conditional move 12 ordinals later, so both blocks use the order Left, Right, Up, Down |
| `Opcodes.SideEffectOrdinals` | Language/Operations.cs:53-60 | `Print` and `Exit`, the two opcodes documented as acting outside the machine, are exactly the ordinals 25..26, with `Exit` directly after `Print` |
| `Vectors.Add` | Language/Vector2.cs:17-20 | `operator +`, the component-wise sum: subtracting either summand from the result gives the other back; its algebra is stated by AddSubInverse, ZeroIdentity and AddCommutativeAssociative |
| `Vectors.Sub` | Language/Vector2.cs:22-25 | `operator -`, the component-wise difference: adding `b` back to `a - b` gives `a`, in each component |
| `Vectors.Equals` | Language/Vector2.cs:27-30 | `operator ==`, which compares both components, holds exactly when the two points are the same value |
| `Vectors.NotEquals` | Language/Vector2.cs:32-35 | `operator !=`, which tests whether some component differs, is exactly the negation of `operator ==` |
| `Vectors.AddSubInverse` | Language/Vector2.cs:17-25 | `(a + b) - b == a` and `(a - b) + b == a`; `a + b == c` if and only if `a == c - b` |
| `Vectors.ZeroIdentity` | Language/Vector2.cs:13-25 | `Zero` is a left and right identity of `+` and a right identity of `-`, and `a - a == Zero` |
| `Vectors.AddCommutativeAssociative` | Language/Vector2.cs:17-20 | `+` is commutative and associative |
| `Vectors.EqualityOperators` | Language/Vector2.cs:27-35 | `==` holds exactly when the two points are the same value, and `!=` is exactly the negation of `==` |
| `Vectors.UnitVectors` | Language/Vector2.cs:13-20 | `Zero` is (0, 0) and `One` is (1, 1); they differ, and `Zero + One == One` |
| `Layout.CellIndex` | Language/Machine.cs:28-36 | the fill counter's value when the loops reach cell (x, y), defined as the start of column x plus y, equals x*height + y |
| `Layout.ColumnStartIsProduct` | Language/Machine.cs:28-36 | after x full columns the fill's counter is x*height, so cell (x, y) is element x*height + y and a grid of `width` columns takes width*height elements |
| `Layout.CellIndexInRange` | Language/Machine.cs:28-36 | every cell inside a width x height grid has a position in 0 .. width*height-1 |
| `Layout.PointAtCellIndex` | Language/Machine.cs:28-36 | converting an in-grid point's position back into a point gives the same point |
| `Layout.CellIndexPointAt` | Language/Machine.cs:28-36 | every position in 0 .. width*height-1 belongs to an in-grid point, so each counter value of the fill loop names a cell |
| `Layout.CellIndexInjective` | Language/Machine.cs:28-36 | two in-grid points have the same position if and only if they are equal, so no cell is filled twice |
| `Layout.OverflowingYAliasesNextColumn` | ScriptCanvas.cs:54 | a point with `Y == Height` lies outside the grid, yet its position equals that of the top cell of the next column and lies inside 0 .. width*height-1, so the column-major position alone does not tell in-grid points from others; the canvas's bounds test compares each coordinate separately |
| `Layout.Columns` | Language/Machine.cs:29-35 | reading the first n columns in x-outer, y-inner order gives n*height elements, with cell (x, y) at position x*height + y |
| `Layout.Flatten` | Language/Machine.cs:29-35 | the whole grid read back column by column has width*height elements, with cell (x, y) at position x*height + y |
| `Editor.ScriptCanvas.constructor` | ScriptCanvas.cs:25-31 | after construction the dimensions are the arguments, the array has those dimensions and is fresh, and every cell is `NoOperation`, the opcode of ordinal 0 (see OrdinalEnds) |
| `Editor.ScriptCanvas.IsValidPoint` | ScriptCanvas.cs:49-54 | the bounds test is the grid-membership predicate `InGrid` of the canvas's dimensions, and a point passes it if and only if it indexes a cell of the array |
| `Editor.ScriptCanvas.At` | ScriptCanvas.cs:56 | the indexer is defined only on valid points, and it returns the element at the point's column-major position |
| `Editor.ScriptCanvas.PaintCell` | EditorCanvasControl.cs:98-109 | a click succeeds exactly on a valid point; the clicked cell becomes the brush (left button) or `NoOperation` (other buttons); every other cell is unchanged, and nothing changes on an invalid point |
| `Editor.InvalidPoints` | ScriptCanvas.cs:54 | a point is invalid if and only if a coordinate is negative, or `X >= Width`, or `Y >= Height` |
| `Editor.ValidPointPositions` | ScriptCanvas.cs:54-56 | a canvas's valid points correspond one-to-one with the positions 0 .. Width*Height-1 |
| `Machines.Machine.constructor` | Language/Machine.cs:21-37 | cell (x, y) holds input element x*height + y; the grid read back column-major is exactly the first width*height inputs; the stack has `stackSize` zeros; the accumulator is 0; the program point is `start`; the dimensions are the arguments |
| `Machines.FlattenAfterFill` | Language/Machine.cs:28-36 | a grid filled as the constructor fills it reads back as exactly the first width*height input elements, whatever follows them |
| `Machines.FillAfterFlatten` | Language/Machine.cs:21-37 | filling a machine from a canvas's column-major read-back reproduces the canvas cell for cell, so fill after flatten is the identity |

## Left out

- Execution stepping is left out. The window calls `Execute()`, `MoveNext()` and a `Machine(ScriptCanvas, int, Vector2)` constructor (MainWindow.axaml.cs:128-143), but none of these has a body in Language/Machine.cs. That file also has no facing direction, comparison flag or stack pointer. So no instruction semantics, no direction and no halting are modelled.
- Binary save and load are left out. No file I/O code is part of this model. `Flatten` and `FromOrdinal` are the column-major cell order and the opcode decoding that such a format would use. Headers and bytes are not modelled.
- Negative sizes are not modelled. C# throws at run time when an array or stack size is negative. The model's `width`, `height` and `stackSize` are `nat`, so that exception does not arise.
- Machines.Machine.constructor: requires at least width*height operations. In C#, `ElementAt` throws when the sequence is shorter, and the constructor does not handle that.
- `Vector2` arithmetic is not modelled with 32-bit wrap-around. Components are unbounded integers, so C# `int` overflow in `+` and `-` is not modelled. The same holds for the `counter` and index arithmetic of the fill.
- Machines.Machine.constructor: allocates the stack after the fill loop, not before. Nothing reads the stack during the fill, so no result differs.
- The click-to-cell conversion is left out. It turns a floating-point pointer position into cell coordinates (EditorCanvasControl.cs:100-102). `PaintCell` takes the integer cell coordinates and the pressed button as parameters.
- Rendering, asset and JSON loading, property registration, dialogs, memory-cell controls and the output message list are left out. They are UI code over foreign libraries.
- Concurrency between the editor and a running machine is left out.
