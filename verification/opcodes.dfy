/** The instruction set of the map language.
    An `Operation` is one cell's instruction; its ordinal (its position in
    the declaration of the enum) is the number it is stored as, so the
    order below is part of the format and must never change. */
module Opcodes {

  datatype Option<T> = None | Some(value: T)

  /** The opcodes, in declaration order. */
  datatype Operation =
    | NoOperation
    | MoveLeft
    | MoveRight
    | MoveUp
    | MoveDown
    | Add
    | Sub
    | Mul
    | Div
    | Increment
    | Decrement
    | IsLess
    | IsMore
    | MoveLeftIfTrue
    | MoveRightIfTrue
    | MoveUpIfTrue
    | MoveDownIfTrue
    | IsLessOrEqual
    | IsMoreOrEqual
    | IsEqual
    | IsNotEqual
    | MoveStackDown
    | MoveStackUp
    | WriteFromAccumulator
    | ReadToAccumulator
    | Print
    | Exit
    | IsZero

  /** Number of opcodes in the enum. */
  const OperationCount: nat := 28

  /** The numeric value of an opcode: its declaration index. */
  function Ordinal(op: Operation): (n: nat)
    ensures n < OperationCount
  {
    match op
    case NoOperation => 0
    case MoveLeft => 1
    case MoveRight => 2
    case MoveUp => 3
    case MoveDown => 4
    case Add => 5
    case Sub => 6
    case Mul => 7
    case Div => 8
    case Increment => 9
    case Decrement => 10
    case IsLess => 11
    case IsMore => 12
    case MoveLeftIfTrue => 13
    case MoveRightIfTrue => 14
    case MoveUpIfTrue => 15
    case MoveDownIfTrue => 16
    case IsLessOrEqual => 17
    case IsMoreOrEqual => 18
    case IsEqual => 19
    case IsNotEqual => 20
    case MoveStackDown => 21
    case MoveStackUp => 22
    case WriteFromAccumulator => 23
    case ReadToAccumulator => 24
    case Print => 25
    case Exit => 26
    case IsZero => 27
  }

  /** Decodes a stored number back into an opcode; numbers outside the
      enum's range decode to `None`. */
  function FromOrdinal(n: int): (r: Option<Operation>)
    ensures r.Some? <==> 0 <= n < OperationCount
    ensures r.Some? ==> Ordinal(r.value) == n
  {
    match n
    case 0 => Some(NoOperation)
    case 1 => Some(MoveLeft)
    case 2 => Some(MoveRight)
    case 3 => Some(MoveUp)
    case 4 => Some(MoveDown)
    case 5 => Some(Add)
    case 6 => Some(Sub)
    case 7 => Some(Mul)
    case 8 => Some(Div)
    case 9 => Some(Increment)
    case 10 => Some(Decrement)
    case 11 => Some(IsLess)
    case 12 => Some(IsMore)
    case 13 => Some(MoveLeftIfTrue)
    case 14 => Some(MoveRightIfTrue)
    case 15 => Some(MoveUpIfTrue)
    case 16 => Some(MoveDownIfTrue)
    case 17 => Some(IsLessOrEqual)
    case 18 => Some(IsMoreOrEqual)
    case 19 => Some(IsEqual)
    case 20 => Some(IsNotEqual)
    case 21 => Some(MoveStackDown)
    case 22 => Some(MoveStackUp)
    case 23 => Some(WriteFromAccumulator)
    case 24 => Some(ReadToAccumulator)
    case 25 => Some(Print)
    case 26 => Some(Exit)
    case 27 => Some(IsZero)
    case _ => None
  }

  /** Decoding the ordinal of an opcode gives that opcode back. */
  lemma OrdinalRoundTrip(op: Operation)
    ensures FromOrdinal(Ordinal(op)) == Some(op)
  {
    match op
    case NoOperation =>
    case MoveLeft =>
    case MoveRight =>
    case MoveUp =>
    case MoveDown =>
    case Add =>
    case Sub =>
    case Mul =>
    case Div =>
    case Increment =>
    case Decrement =>
    case IsLess =>
    case IsMore =>
    case MoveLeftIfTrue =>
    case MoveRightIfTrue =>
    case MoveUpIfTrue =>
    case MoveDownIfTrue =>
    case IsLessOrEqual =>
    case IsMoreOrEqual =>
    case IsEqual =>
    case IsNotEqual =>
    case MoveStackDown =>
    case MoveStackUp =>
    case WriteFromAccumulator =>
    case ReadToAccumulator =>
    case Print =>
    case Exit =>
    case IsZero =>
  }

  /** No two opcodes share an ordinal. */
  lemma OrdinalInjective(a: Operation, b: Operation)
    ensures Ordinal(a) == Ordinal(b) <==> a == b
  {
    OrdinalRoundTrip(a);
    OrdinalRoundTrip(b);
  }

  /** The ordinals are exactly 0 .. OperationCount - 1, each used once:
      every number in that range is the ordinal of some opcode. */
  lemma OrdinalsContiguous(n: int)
    requires 0 <= n < OperationCount
    ensures exists op :: Ordinal(op) == n
  {
    var op := FromOrdinal(n).value;
    assert Ordinal(op) == n;
  }

  /** A freshly zeroed cell holds `NoOperation`, the first opcode;
      the last opcode is `IsZero`. */
  lemma OrdinalEnds()
    ensures FromOrdinal(0) == Some(NoOperation)
    ensures FromOrdinal(OperationCount - 1) == Some(IsZero)
    ensures FromOrdinal(OperationCount).None?
  {
  }

  /** The four unconditional direction changes. */
  predicate IsMove(op: Operation)
  {
    op.MoveLeft? || op.MoveRight? || op.MoveUp? || op.MoveDown?
  }

  /** The four direction changes taken only when the comparison flag is set. */
  predicate IsConditionalMove(op: Operation)
  {
    op.MoveLeftIfTrue? || op.MoveRightIfTrue? || op.MoveUpIfTrue? || op.MoveDownIfTrue?
  }

  /** The conditional counterpart of an unconditional move (same direction). */
  function ConditionalOf(op: Operation): Operation
    requires IsMove(op)
  {
    match op
    case MoveLeft => MoveLeftIfTrue
    case MoveRight => MoveRightIfTrue
    case MoveUp => MoveUpIfTrue
    case MoveDown => MoveDownIfTrue
  }

  /** The plain moves are the ordinals 1..4 and the conditional moves the
      ordinals 13..16. */
  lemma MoveOrdinals(op: Operation)
    ensures IsMove(op) <==> 1 <= Ordinal(op) <= 4
    ensures IsConditionalMove(op) <==> 13 <= Ordinal(op) <= 16
  {
  }

  /** Both blocks of moves list the directions in the same order
      (Left, Right, Up, Down), twelve ordinals apart. */
  lemma ConditionalMoveOrder(op: Operation)
    requires IsMove(op)
    ensures IsConditionalMove(ConditionalOf(op))
    ensures Ordinal(ConditionalOf(op)) == Ordinal(op) + 12
  {
  }

  /** The opcodes whose documentation names an effect outside the machine:
      `Print` writes the accumulator to the output, `Exit` ends the run. */
  predicate HasSideEffect(op: Operation)
  {
    op == Print || op == Exit
  }

  /** The side-effect opcodes are exactly the ordinals 25 and 26, adjacent,
      with `Print` first. */
  lemma SideEffectOrdinals(op: Operation)
    ensures HasSideEffect(op) <==> 25 <= Ordinal(op) <= 26
    ensures Ordinal(Exit) == Ordinal(Print) + 1
  {
  }
}
