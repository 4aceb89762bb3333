/**
 * The growth step of the simulation (src/com/dots/Board.java): a cursor that
 * leaves a dot behind on every timer tick and moves to a free lattice
 * neighbour, or jumps to a random position when it reaches the right or
 * bottom edge of the board.
 *
 * Every draw of java.util.Random is a value the caller supplies: a raw draw
 * in [0, MAX_POSITION - MIN_POSITION) for each coordinate of a relocation,
 * and an index into the list of free neighbours for a move.
 */
module Board {
  import opened Dots

  const BOARD_WIDTH := 900
  const BOARD_HEIGHT := 900
  const DOT_SIZE := 10
  const MOVE_AMOUNT := 10

  /** Bounds given to generateRandomPosition: nextInt(max - min) + min. */
  const MIN_POSITION := 20
  const MAX_POSITION := 891

  /** Unit steps of getNeighborCoordinates, in its enumeration order. */
  const DX: seq<int> := [1, -1, 0, 0, 1, -1, 1, -1]
  const DY: seq<int> := [0, 0, 1, -1, 1, 1, -1, -1]

  /** The int[2] rows of getNeighborCoordinates: (x, y). */
  type Coordinate = (int, int)

  /** generateRandomPosition, given the value `draw` that nextInt(871) would return. */
  function GenerateRandomPosition(draw: int): (p: int)
    requires 0 <= draw < MAX_POSITION - MIN_POSITION
    ensures MIN_POSITION <= p < MAX_POSITION
  {
    draw + MIN_POSITION
  }

  /** Every position in [20, 890] is the outcome of exactly one draw. */
  lemma EveryPositionIsDrawn(p: int)
    requires MIN_POSITION <= p < MAX_POSITION
    ensures exists draw :: 0 <= draw < MAX_POSITION - MIN_POSITION && GenerateRandomPosition(draw) == p
    ensures forall d1, d2 ::
      (0 <= d1 < MAX_POSITION - MIN_POSITION && 0 <= d2 < MAX_POSITION - MIN_POSITION &&
       GenerateRandomPosition(d1) == p && GenerateRandomPosition(d2) == p) ==> d1 == d2
  {
    assert GenerateRandomPosition(p - MIN_POSITION) == p;
  }

  /** isCloseToTheBorder, on the cursor coordinates it reads. Only the right
      and bottom edges are tested, with a logical or. */
  predicate IsCloseToTheBorder(x: int, y: int) {
    x + DOT_SIZE > BOARD_WIDTH || y + DOT_SIZE > BOARD_HEIGHT
  }

  /** A freshly drawn cursor is never close to the border, so the tick after a
      relocation takes the growth branch: it grows, or throws when all eight
      candidates are occupied. */
  lemma RandomPositionIsAwayFromBorder(drawX: int, drawY: int)
    requires 0 <= drawX < MAX_POSITION - MIN_POSITION && 0 <= drawY < MAX_POSITION - MIN_POSITION
    ensures !IsCloseToTheBorder(GenerateRandomPosition(drawX), GenerateRandomPosition(drawY))
  {
  }

  /** The eight candidate positions around (x, y), in the order of the DX/DY
      tables: entry i is (x + MOVE_AMOUNT * DX[i], y + MOVE_AMOUNT * DY[i]). */
  function NeighborsOf(x: int, y: int): (r: seq<Coordinate>)
    ensures |r| == 8
  {
    seq(8, i requires 0 <= i < 8 => (x + MOVE_AMOUNT * DX[i], y + MOVE_AMOUNT * DY[i]))
  }

  /** The candidates written out: the four axis steps, then the four diagonals. */
  lemma NeighborsOfListing(x: int, y: int)
    ensures NeighborsOf(x, y) == [
      (x + 10, y), (x - 10, y), (x, y + 10), (x, y - 10),
      (x + 10, y + 10), (x - 10, y + 10), (x + 10, y - 10), (x - 10, y - 10)]
  {
  }

  /** The eight candidates are pairwise distinct and none is (x, y) itself. */
  lemma NeighborsOfDistinct(x: int, y: int)
    ensures forall i, j :: 0 <= i < j < 8 ==> NeighborsOf(x, y)[i] != NeighborsOf(x, y)[j]
    ensures (x, y) !in NeighborsOf(x, y)
  {
    NeighborsOfListing(x, y);
  }

  /** The candidates are exactly the eight positions one lattice step away in
      each axis direction, diagonals included. */
  lemma NeighborsOfAreTheEightDirections(x: int, y: int, a: int, b: int)
    ensures (x + MOVE_AMOUNT * a, y + MOVE_AMOUNT * b) in NeighborsOf(x, y)
        <==> -1 <= a <= 1 && -1 <= b <= 1 && (a, b) != (0, 0)
  {
    NeighborsOfListing(x, y);
  }

  /** getNeighborCoordinates: fills a fresh 8-row array with the candidates. */
  method GetNeighborCoordinates(x: int, y: int) returns (coordinates: array<Coordinate>)
    ensures fresh(coordinates)
    ensures coordinates[..] == NeighborsOf(x, y)
  {
    coordinates := new Coordinate[8];
    for i := 0 to 8
      invariant forall k :: 0 <= k < i ==> coordinates[k] == (x + MOVE_AMOUNT * DX[k], y + MOVE_AMOUNT * DY[k])
    {
      coordinates[i] := (x + MOVE_AMOUNT * DX[i], y + MOVE_AMOUNT * DY[i]);
    }
  }

  /** Some dot lies exactly on the coordinate, on both axes. */
  predicate Occupied(c: Coordinate, dots: seq<Dot>) {
    exists d :: d in dots && d.x == c.0 && d.y == c.1
  }

  /** By record equality, being occupied is membership of the dot at c. */
  lemma OccupiedIsMembership(c: Coordinate, dots: seq<Dot>)
    ensures Occupied(c, dots) <==> Dot(c.0, c.1) in dots
  {
    if Dot(c.0, c.1) in dots {
      assert Dot(c.0, c.1).x == c.0 && Dot(c.0, c.1).y == c.1;
    }
  }

  /** filterValidCoordinates: the candidates on which no dot lies, in order. */
  function FilterValidCoordinates(coordinates: seq<Coordinate>, dots: seq<Dot>): (r: seq<Coordinate>)
    ensures |r| <= |coordinates|
    ensures forall c :: c in r <==> c in coordinates && !Occupied(c, dots)
  {
    if coordinates == [] then []
    else
      (if Occupied(coordinates[0], dots) then [] else [coordinates[0]])
      + FilterValidCoordinates(coordinates[1..], dots)
  }

  /** Filtering a concatenation filters each part and keeps them in order, so
      the survivors appear in the order of the candidates. */
  lemma {:induction false} FilterValidCoordinatesDistributes(a: seq<Coordinate>, b: seq<Coordinate>, dots: seq<Dot>)
    ensures FilterValidCoordinates(a + b, dots)
         == FilterValidCoordinates(a, dots) + FilterValidCoordinates(b, dots)
  {
    if a == [] {
      assert a + b == b;
    } else {
      assert (a + b)[0] == a[0];
      assert (a + b)[1..] == a[1..] + b;
      FilterValidCoordinatesDistributes(a[1..], b, dots);
    }
  }

  /** A list that no dot touches survives the filter whole. */
  lemma {:induction false} FilterValidCoordinatesKeepsFree(coordinates: seq<Coordinate>, dots: seq<Dot>)
    requires forall c :: c in coordinates ==> !Occupied(c, dots)
    ensures FilterValidCoordinates(coordinates, dots) == coordinates
  {
    if coordinates != [] {
      assert coordinates[0] in coordinates;
      assert forall c :: c in coordinates[1..] ==> c in coordinates;
      FilterValidCoordinatesKeepsFree(coordinates[1..], dots);
    }
  }

  /** No two dots of the list share both coordinates. */
  predicate NoDuplicates(dots: seq<Dot>) {
    forall i, j :: 0 <= i < j < |dots| ==> dots[i] != dots[j]
  }

  /** The growth step keeps the dots distinct and the cursor off them: the old
      cursor is appended while it lies on no dot, and the new cursor is a free
      candidate, which differs from the old cursor. */
  lemma GrowthKeepsDotsDistinct(dots: seq<Dot>, x: int, y: int, c: Coordinate)
    requires NoDuplicates(dots) && Dot(x, y) !in dots
    requires c in FilterValidCoordinates(NeighborsOf(x, y), dots)
    ensures NoDuplicates(dots + [Dot(x, y)])
    ensures Dot(c.0, c.1) !in dots + [Dot(x, y)]
  {
    var grown := dots + [Dot(x, y)];
    forall i, j | 0 <= i < j < |grown| ensures grown[i] != grown[j] {
      if j == |dots| {
        assert grown[i] == dots[i];
      }
    }
    OccupiedIsMembership(c, dots);
    NeighborsOfDistinct(x, y);
    assert Dot(c.0, c.1) != Dot(x, y);
  }

  /** What a tick did: relocated the cursor, grew by one dot, or stopped on
      the IllegalArgumentException that nextInt(0) throws when no candidate
      is free. */
  datatype Outcome = Relocated | Grown | BoundMustBePositive

  class Board {
    var dots: seq<Dot>
    var mainCircleXCoordinate: int
    var mainCircleYCoordinate: int

    /** The board starts with no dots and a cursor at a random position. */
    constructor (drawX: int, drawY: int)
      requires 0 <= drawX < MAX_POSITION - MIN_POSITION && 0 <= drawY < MAX_POSITION - MIN_POSITION
      ensures dots == []
      ensures mainCircleXCoordinate == GenerateRandomPosition(drawX)
      ensures mainCircleYCoordinate == GenerateRandomPosition(drawY)
    {
      dots := [];
      mainCircleXCoordinate := GenerateRandomPosition(drawX);
      mainCircleYCoordinate := GenerateRandomPosition(drawY);
    }

    /** The free candidates around the cursor, among which a growth step picks. */
    function ValidCoordinates(): seq<Coordinate>
      reads this
    {
      FilterValidCoordinates(NeighborsOf(mainCircleXCoordinate, mainCircleYCoordinate), dots)
    }

    /** The dots are distinct and the cursor lies on none of them. */
    ghost predicate Consistent()
      reads this
    {
      NoDuplicates(dots) && Dot(mainCircleXCoordinate, mainCircleYCoordinate) !in dots
    }

    /** actionPerformed: one timer tick. `drawX`/`drawY` are the draws of a
        relocation and `randomIndex` the draw among the free candidates. */
    method ActionPerformed(drawX: int, drawY: int, randomIndex: nat) returns (outcome: Outcome)
      requires 0 <= drawX < MAX_POSITION - MIN_POSITION && 0 <= drawY < MAX_POSITION - MIN_POSITION
      requires |ValidCoordinates()| > 0 ==> randomIndex < |ValidCoordinates()|
      modifies this
      // near the border: a new random cursor, no dot placed
      ensures old(IsCloseToTheBorder(mainCircleXCoordinate, mainCircleYCoordinate)) ==>
        && outcome == Relocated
        && dots == old(dots)
        && mainCircleXCoordinate == GenerateRandomPosition(drawX)
        && mainCircleYCoordinate == GenerateRandomPosition(drawY)
        && MIN_POSITION <= mainCircleXCoordinate < MAX_POSITION
        && MIN_POSITION <= mainCircleYCoordinate < MAX_POSITION
      // no free candidate: nextInt(0) throws before anything is changed
      ensures !old(IsCloseToTheBorder(mainCircleXCoordinate, mainCircleYCoordinate)) && old(ValidCoordinates()) == [] ==>
        && outcome == BoundMustBePositive
        && dots == old(dots)
        && mainCircleXCoordinate == old(mainCircleXCoordinate)
        && mainCircleYCoordinate == old(mainCircleYCoordinate)
      // growth: the old cursor becomes a dot and the cursor moves to the drawn candidate
      ensures !old(IsCloseToTheBorder(mainCircleXCoordinate, mainCircleYCoordinate)) && old(ValidCoordinates()) != [] ==>
        && outcome == Grown
        && dots == old(dots) + [Dot(old(mainCircleXCoordinate), old(mainCircleYCoordinate))]
        && (mainCircleXCoordinate, mainCircleYCoordinate) == old(ValidCoordinates())[randomIndex]
      ensures outcome == Grown ==>
        && (mainCircleXCoordinate, mainCircleYCoordinate) in NeighborsOf(old(mainCircleXCoordinate), old(mainCircleYCoordinate))
        && !Occupied((mainCircleXCoordinate, mainCircleYCoordinate), old(dots))
      ensures outcome == Grown && old(Consistent()) ==> Consistent()
      ensures outcome != Grown ==> dots == old(dots)
    {
      if IsCloseToTheBorder(mainCircleXCoordinate, mainCircleYCoordinate) {
        mainCircleXCoordinate := GenerateRandomPosition(drawX);
        mainCircleYCoordinate := GenerateRandomPosition(drawY);
        outcome := Relocated;
      } else {
        var coordinates := GetNeighborCoordinates(mainCircleXCoordinate, mainCircleYCoordinate);
        var validCoordinates := FilterValidCoordinates(coordinates[..], dots);
        if |validCoordinates| == 0 {
          outcome := BoundMustBePositive;
          return;
        }
        var chosenCoordinate := validCoordinates[randomIndex];
        assert chosenCoordinate in validCoordinates;
        if Consistent() {
          GrowthKeepsDotsDistinct(dots, mainCircleXCoordinate, mainCircleYCoordinate, chosenCoordinate);
        }
        dots := dots + [Dot(mainCircleXCoordinate, mainCircleYCoordinate)];
        mainCircleXCoordinate := chosenCoordinate.0;
        mainCircleYCoordinate := chosenCoordinate.1;
        outcome := Grown;
      }
    }
  }
}
