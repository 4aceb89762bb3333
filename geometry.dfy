/**
 * How the two notions of "neighbour" relate: the growth step of
 * src/com/dots/Board.java moves along eight directions, while isNeighbor in
 * src/com/dots/DotManager.java counts only the four cardinal ones. Both use
 * the same step of 10.
 */
module Geometry {
  import opened Dots
  import Board
  import DotManager

  /** Of the eight growth candidates, exactly the four axis steps (the first
      four entries) are neighbours in the density sense; the diagonals are not. */
  lemma CandidateIsNeighborIffAxisStep(x: int, y: int, k: nat)
    requires k < 8
    ensures Board.MOVE_AMOUNT == DotManager.MOVE_AMOUNT
    ensures var c := Board.NeighborsOf(x, y)[k];
      DotManager.IsNeighbor(Dot(x, y), Dot(c.0, c.1)) <==> k < 4
  {
    Board.NeighborsOfListing(x, y);
  }
}
