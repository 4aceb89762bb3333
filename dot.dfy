/**
 * The immutable grid point shared by the board and the queries
 * (src/com/dots/Dot.java). A Java record of two ints generates the
 * accessors x() and y() and a coordinate-wise equals; a Dafny datatype has
 * the same two things built in, and being a value it has no state to change.
 */
module Dots {
  datatype Dot = Dot(x: int, y: int)

  /** The accessors give back what the constructor was given, and a dot is
      rebuilt from its accessors. */
  lemma AccessorsReturnArguments(x: int, y: int, d: Dot)
    ensures Dot(x, y).x == x && Dot(x, y).y == y
    ensures Dot(d.x, d.y) == d
  {
  }

  /** Record equality: two dots are equal exactly when both coordinates are. */
  lemma EqualsIsCoordinatewise(a: Dot, b: Dot)
    ensures a == b <==> a.x == b.x && a.y == b.y
  {
  }
}
