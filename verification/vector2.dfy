/** Grid coordinates: an integer pair with component-wise arithmetic.
    Components are unbounded integers (no 32-bit wrap-around). */
module Vectors {

  datatype Vector2 = Vector2(X: int, Y: int)

  const Zero: Vector2 := Vector2(0, 0)

  const One: Vector2 := Vector2(1, 1)

  /** Component-wise sum (`operator +`). */
  function Add(a: Vector2, b: Vector2): (r: Vector2)
    ensures Sub(r, b) == a && Sub(r, a) == b
  {
    Vector2(a.X + b.X, a.Y + b.Y)
  }

  /** Component-wise difference (`operator -`). */
  function Sub(a: Vector2, b: Vector2): (r: Vector2)
    ensures r.X + b.X == a.X && r.Y + b.Y == a.Y
  {
    Vector2(a.X - b.X, a.Y - b.Y)
  }

  /** `operator ==`: both components agree. */
  predicate Equals(a: Vector2, b: Vector2): (r: bool)
    ensures r <==> a == b
  {
    a.X == b.X && a.Y == b.Y
  }

  /** `operator !=`: some component differs. */
  predicate NotEquals(a: Vector2, b: Vector2): (r: bool)
    ensures r <==> !Equals(a, b)
  {
    a.X != b.X || a.Y != b.Y
  }

  /** Subtraction undoes addition, in both directions. */
  lemma AddSubInverse(a: Vector2, b: Vector2, c: Vector2)
    ensures Sub(Add(a, b), b) == a
    ensures Add(Sub(a, b), b) == a
    ensures Add(a, b) == c <==> a == Sub(c, b)
  {
  }

  /** `Zero` is a two-sided identity of `+`, and `a - a == Zero`. */
  lemma ZeroIdentity(a: Vector2)
    ensures Add(a, Zero) == a && Add(Zero, a) == a
    ensures Sub(a, Zero) == a
    ensures Sub(a, a) == Zero
  {
  }

  /** `+` is commutative and associative. */
  lemma AddCommutativeAssociative(a: Vector2, b: Vector2, c: Vector2)
    ensures Add(a, b) == Add(b, a)
    ensures Add(Add(a, b), c) == Add(a, Add(b, c))
  {
  }

  /** The source's `==` is value equality of the pair, and `!=` is exactly
      its negation. */
  lemma EqualityOperators(a: Vector2, b: Vector2)
    ensures Equals(a, b) <==> a == b
    ensures NotEquals(a, b) <==> !Equals(a, b)
  {
  }

  /** `Zero` is (0, 0) and `One` is (1, 1): they differ, and `One` is
      what a step of one cell along both axes from `Zero` reaches. */
  lemma UnitVectors()
    ensures Zero.X == 0 && Zero.Y == 0 && One.X == 1 && One.Y == 1
    ensures Add(Zero, One) == One && NotEquals(Zero, One)
  {
  }
}
