# Dot grid simulation: the growth step and the density queries

This project models the logic of a small Swing simulation (dot-calendar) in
Dafny and proves properties of that model. A blue cursor wanders a 900 x 900
board. On every timer tick it either jumps to a random position, when it is
close to the right or bottom edge, or it leaves a dot at its position and moves
to a random one of its eight lattice neighbours (a step of 10) on which no dot
lies. A separate set of static queries works over a list of dots:
cardinal adjacency, neighbour counts, the neighbour with the most neighbours,
the closest dot, and the dot with the fewest neighbours.

Modules, one per source file:

- `Dots` (dot.dfy): the `Dot(x, y)` record as a datatype.
- `Board` (board.dfy): the constants, the random position, the border test,
  the eight neighbour coordinates (a method filling a fresh array, specified by
  the function `NeighborsOf`), the free-coordinate filter, and class `Board`
  with the fields `dots`, `mainCircleXCoordinate` and `mainCircleYCoordinate`.
  Its method `ActionPerformed` is the timer tick.
- `DotManager` (dot_manager.dfy): `isNeighbor` and `getNeighbors` as functions,
  and the four scanning loops as methods proved against the specification
  functions `NeighborCount` and `SquaredDistance`.
- `Geometry` (geometry.dfy): how the 8-direction growth candidates relate to
  the 4-direction adjacency used for counting.
- `Options` (option.dfy): `Option`, standing for a nullable reference.

Modelling choices:

- Every draw of `java.util.Random` is a value the caller supplies. A relocation
  takes two raw draws in [0, 871), which `GenerateRandomPosition` maps to
  [20, 890]. A growth step takes an index `randomIndex`, which must lie below
  the number of free candidates when there is at least one.
- When no candidate is free, `nextInt(0)` throws `IllegalArgumentException`
  before `dots.add` runs. `ActionPerformed` then returns `BoundMustBePositive`
  and changes nothing.
- The border relocation does not check for existing dots. So the invariant
  `Consistent()` (the dots are distinct and the cursor lies on none of them) is
  preserved by the growth branch only, and the contract says exactly that.
- `isCloseToTheBorder` tests only `x + 10 > 900 || y + 10 > 900`. The cursor may
  leave the board through the left or top edge, and the model keeps this.
- Java compares dots by object identity (`dot != targetDot`). The model names a
  dot of the list by its position. `self: Option<nat>` is the position holding
  the dot a query is about, or `None` when it is not in the list. A query
  returns `Some(position)` of the dot it picks, or `None` where Java returns
  `null`. In `countNeighbors` and `getNeighbors` the identity test is
  redundant, because equal dots are never neighbours. `CountNeighbors` and
  `GetNeighborsCount` prove this. In `getClosestDot` the test matters: a
  different dot at the same coordinates is at distance 0 and is picked.
- The search for the most neighbours starts from `Integer.MIN_VALUE`, and every
  count is above it. The search for the least starts from `Integer.MAX_VALUE`.
  A count stays below the list length (`NeighborCountBelowLength`), and a Java
  list holds at most `Integer.MAX_VALUE` elements, so every count is below the
  start value too.
- `Board.java` calls `getX()`/`getY()` on a `Dot` (lines 75-76 and 117). The
  record only generates `x()`/`y()`. Both are taken to be the same accessor.
- `Board` never calls `DotManager`, so the queries are modelled on their own.

## Model

| member | source | states |
|---|---|---|
| `Dots.AccessorsReturnArguments` | src/com/dots/Dot.java:10 | `x()` and `y()` return the constructor arguments, and a dot is rebuilt from them |
| `Dots.EqualsIsCoordinatewise` | src/com/dots/Dot.java:10-12 | record equality holds exactly when both coordinates match |
| `Board.GenerateRandomPosition` | src/com/dots/Board.java:55-59 | `nextInt(871) + 20` lies in [20, 890] |
| `Board.EveryPositionIsDrawn` | src/com/dots/Board.java:55-59 | every position in [20, 890] comes from exactly one draw |
| `Board.RandomPositionIsAwayFromBorder` | src/com/dots/Board.java:134-136 | a randomly placed cursor is never close to the border, so the next tick takes the growth branch: it grows, or throws when all 8 candidates are occupied |
| `Board.NeighborsOf` | src/com/dots/Board.java:121-132 | there are always exactly 8 candidates |
| `Board.NeighborsOfListing` | src/com/dots/Board.java:124-128 | the 8 candidates written out in the fixed dx/dy order: four axis steps, then four diagonals |
| `Board.NeighborsOfDistinct` | src/com/dots/Board.java:124-128 | the candidates are pairwise distinct and none equals `(x, y)` |
| `Board.NeighborsOfAreTheEightDirections` | src/com/dots/Board.java:124-128 | `(x + 10a, y + 10b)` is a candidate iff a and b lie in {-1, 0, 1} and are not both 0 |
| `Board.GetNeighborCoordinates` | src/com/dots/Board.java:121-132 | the loop fills a fresh 8-row array whose entry i is `(x + 10*dx[i], y + 10*dy[i])`, the candidates in order |
| `Board.IsCloseToTheBorder` | src/com/dots/Board.java:134-136 | defined as `x + 10 > 900 \|\| y + 10 > 900`: only the right and bottom edges are tested |
| `Board.Occupied` | src/com/dots/Board.java:116-117 | defined as "some dot matches the coordinate on both axes", the negation of the `noneMatch` test |
| `Board.OccupiedIsMembership` | src/com/dots/Board.java:116-117 | a dot matches the coordinate on both axes exactly when `Dot(c)` is in the list |
| `Board.FilterValidCoordinates` | src/com/dots/Board.java:114-119 | the result keeps exactly the candidates that no dot matches on both coordinates, and is no longer than the input |
| `Board.FilterValidCoordinatesDistributes` | src/com/dots/Board.java:114-119 | filtering a concatenation is the concatenation of the filtered parts, so the original order is kept |
| `Board.FilterValidCoordinatesKeepsFree` | src/com/dots/Board.java:114-119 | candidates that no dot touches all survive, unchanged and in order |
| `Board.GrowthKeepsDotsDistinct` | src/com/dots/Board.java:99-107 | if the dots are distinct and the cursor lies on none of them, this still holds after the old cursor is appended and the cursor moves to a free candidate |
| `Board.Board.constructor` | src/com/dots/Board.java:36-40 | the board starts with no dots and a cursor at two drawn random positions |
| `Board.Board.ValidCoordinates` | src/com/dots/Board.java:97-99 | defined as the filter of the 8 candidates around the cursor against the current dots |
| `Board.Board.ActionPerformed` | src/com/dots/Board.java:91-112 | near the border: `dots` unchanged and the cursor redrawn into [20, 890]. No free candidate: `nextInt(0)` throws and nothing changes. Otherwise: `dots` gains the old cursor at its end, and the cursor moves to the drawn free candidate, which is a neighbour not on any old dot. Consistency is preserved on growth |
| `DotManager.Abs` | src/com/dots/DotManager.java:85-86 | `Math.abs` gives back n or -n, never negative |
| `DotManager.IsNeighbor` | src/com/dots/DotManager.java:84-89 | defined as: one axis differs by exactly 10 in absolute value and the other is equal |
| `DotManager.IsNeighborIffCardinalStep` | src/com/dots/DotManager.java:84-89 | `isNeighbor(a, b)` holds iff b is one of the four cardinal steps of size 10 from a |
| `DotManager.IsNeighborSymmetric` | src/com/dots/DotManager.java:84-89 | adjacency is symmetric |
| `DotManager.NotNeighborOfItself` | src/com/dots/DotManager.java:84-89 | dots with equal coordinates are never neighbours |
| `DotManager.NeighborCount` | src/com/dots/DotManager.java:72-82 | the neighbour count of a target lies in [0, the list length] |
| `DotManager.NeighborCountIsCardinality` | src/com/dots/DotManager.java:72-82 | the count is the number of list positions that hold a neighbour of the target |
| `DotManager.NeighborCountBelowLength` | src/com/dots/DotManager.java:72-82 | a dot of the list has a count strictly below the list length |
| `DotManager.GetNeighbors` | src/com/dots/DotManager.java:28-32 | the result lists the positions, strictly increasing, of exactly the neighbours of the target other than the target itself |
| `DotManager.GetNeighborsCount` | src/com/dots/DotManager.java:28-32 | the identity test removes nothing: the list is as long as the neighbour count |
| `DotManager.GetNeighborsCoversNeighbors` | src/com/dots/DotManager.java:28-32 | every neighbour of the target in the list appears in the result |
| `DotManager.CountNeighbors` | src/com/dots/DotManager.java:72-82 | the counting loop returns the neighbour count, so the `dot != targetDot` test is redundant |
| `DotManager.GetNeighborWithMostNeighbors` | src/com/dots/DotManager.java:12-26 | null iff no element neighbours `mainDot`. Otherwise the result is a neighbour with a count at least that of every neighbour, and strictly above that of every earlier neighbour |
| `DotManager.SquaredDistance` | src/com/dots/DotManager.java:51-55 | the squared distance is never negative and is 0 exactly for equal dots |
| `DotManager.SquaredDistanceSymmetric` | src/com/dots/DotManager.java:51-55 | distance does not depend on argument order |
| `DotManager.GetClosestDot` | src/com/dots/DotManager.java:34-49 | null iff the list holds nothing but `mainDot`. Otherwise the result is not `mainDot`, no other element is closer, and every earlier one is strictly farther |
| `DotManager.FindDotWithLeastNeighbors` | src/com/dots/DotManager.java:57-70 | null iff the list is empty. Otherwise the result's count is at most every element's, and strictly below that of every earlier element |
| `Geometry.CandidateIsNeighborIffAxisStep` | src/com/dots/DotManager.java:84-89 | of the 8 growth candidates, exactly the first four (axis steps) are neighbours in the counting sense, and both files use the same step of 10 |

## Left out

- Swing and AWT: the panel setup, `Timer`, painting, `repaint` and `Toolkit.sync`, plus the window classes `MainFrame` and `main`. These are user interface, not logic.
- The `inGame` flag is never set to false, so it is taken to be always true.
- `java.util.Random`: the draws are parameters. Their distribution and the generator's state are not modelled.
- The Swing timer's delivery of an exception thrown by `actionPerformed`: the model returns it as the outcome `BoundMustBePositive`.
- `DotManager.GetClosestDot`: compares squared integer distances instead of `Math.sqrt` doubles. `sqrt` is monotone, and the squares of board-sized coordinates are exact in a double, so the arg-min and the tie-break are the same. Starting from `Double.MAX_VALUE` becomes "no dot chosen yet". In Java, `dx * dx + dy * dy` is 32-bit `int` arithmetic: once a squared distance exceeds 2^31 - 1 it wraps. When the wrapped value is negative (for instance `Dot(0, 0)` against `Dot(32768, 32768)`, whose sum 2^31 wraps to -2^31, or a difference of 46341 on one axis alone), `Math.sqrt` gives NaN and `NaN < minDistance` is false, so Java skips that dot and returns null if no other dot remains. When it wraps to a non-negative value, Java compares the dot at a wrong distance. The model compares the true squared distances and may pick such a dot.
- Java's 32-bit `int`: coordinates are unbounded integers. The overflow of squared distances is described on the `DotManager.GetClosestDot` line above; a difference `dot1.x() - dot2.x()` that overflows near the `int` limits, and a cursor wandering past the left edge until it wraps, are not modelled either.
- Object identity: a list holding the same `Dot` object at two positions is not modelled. The dot a query is about stands at one position at most.
- The rows of `int[][]` are pairs, and their separate `int[]` objects (and any aliasing of them) are not modelled.
- `Dot.hashCode`: the value the record generates is chosen by the Java runtime. "Equal dots hash equal" holds for every function of a datatype value in Dafny.
