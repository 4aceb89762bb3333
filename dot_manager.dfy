/**
 * The density and distance queries over a list of dots
 * (src/com/dots/DotManager.java).
 *
 * The Java methods compare dots by object identity (`dot != targetDot`) and
 * return a reference, or null. Here a dot of the list is named by its index:
 * `self` is the index at which the dot the query is about sits in the list
 * (None when it is not in the list), and a query returns Some(index) of the
 * dot it picks, or None where Java returns null.
 */
module DotManager {
  import opened Dots
  import opened Options

  const MOVE_AMOUNT := 10
  const INT_MIN := -0x8000_0000
  const INT_MAX := 0x7fff_ffff

  function Abs(n: int): (r: nat)
    ensures r == n || r == -n
  {
    if n < 0 then -n else n
  }

  /** isNeighbor: one axis differs by exactly MOVE_AMOUNT and the other not at all. */
  predicate IsNeighbor(dot1: Dot, dot2: Dot) {
    var dx := Abs(dot1.x - dot2.x);
    var dy := Abs(dot1.y - dot2.y);
    (dx == MOVE_AMOUNT && dy == 0) || (dx == 0 && dy == MOVE_AMOUNT)
  }

  /** The four cardinal lattice steps away from a dot. */
  function CardinalSteps(d: Dot): seq<Dot> {
    [Dot(d.x + MOVE_AMOUNT, d.y), Dot(d.x - MOVE_AMOUNT, d.y),
     Dot(d.x, d.y + MOVE_AMOUNT), Dot(d.x, d.y - MOVE_AMOUNT)]
  }

  /** Adjacency is exactly "one cardinal step away"; diagonals do not count. */
  lemma IsNeighborIffCardinalStep(a: Dot, b: Dot)
    ensures IsNeighbor(a, b) <==> b in CardinalSteps(a)
  {
  }

  lemma IsNeighborSymmetric(a: Dot, b: Dot)
    ensures IsNeighbor(a, b) <==> IsNeighbor(b, a)
  {
  }

  /** Dots with equal coordinates are never neighbours. */
  lemma NotNeighborOfItself(a: Dot, b: Dot)
    requires a.x == b.x && a.y == b.y
    ensures !IsNeighbor(a, b)
  {
  }

  /** `self` names position i of the list: the identity test `dot != targetDot`
      fails there and only there. */
  predicate Excluded(self: Option<nat>, i: nat) {
    self == Some(i)
  }

  /** If `self` names a position of the list, the list holds `target` there. */
  predicate IsSelf(self: Option<nat>, target: Dot, dots: seq<Dot>) {
    self.Some? && self.value < |dots| ==> dots[self.value] == target
  }

  /** The number of dots of the list that are neighbours of `target`. */
  function NeighborCount(target: Dot, dots: seq<Dot>): (n: nat)
    ensures n <= |dots|
  {
    if dots == [] then 0
    else
      NeighborCount(target, dots[..|dots| - 1])
      + (if IsNeighbor(dots[|dots| - 1], target) then 1 else 0)
  }

  /** The positions of the list holding a neighbour of `target`. */
  ghost function NeighborPositions(target: Dot, dots: seq<Dot>): set<nat> {
    set i: nat | i < |dots| && IsNeighbor(dots[i], target)
  }

  /** NeighborCount counts exactly the positions holding a neighbour. */
  lemma {:induction false} NeighborCountIsCardinality(target: Dot, dots: seq<Dot>)
    ensures NeighborCount(target, dots) == |NeighborPositions(target, dots)|
  {
    if dots != [] {
      var n := |dots| - 1;
      var prefix := dots[..n];
      NeighborCountIsCardinality(target, prefix);
      var last: set<nat> := if IsNeighbor(dots[n], target) then {n} else {};
      assert NeighborPositions(target, dots) == NeighborPositions(target, prefix) + last by {
        forall i: nat | i < n ensures dots[i] == prefix[i] { }
      }
      assert NeighborPositions(target, prefix) !! last;
    }
  }

  /** A dot of the list is not its own neighbour, so its count stays below
      the length of the list. */
  lemma {:induction false} NeighborCountBelowLength(i: nat, dots: seq<Dot>)
    requires i < |dots|
    ensures NeighborCount(dots[i], dots) < |dots|
  {
    var n := |dots| - 1;
    var prefix := dots[..n];
    if i == n {
      NotNeighborOfItself(dots[n], dots[i]);
    } else {
      assert prefix[i] == dots[i];
      NeighborCountBelowLength(i, prefix);
    }
  }

  /** getNeighbors: the positions, in list order, of the neighbours of
      `target` other than `target` itself. */
  function GetNeighbors(target: Dot, self: Option<nat>, dots: seq<Dot>): (r: seq<nat>)
    ensures forall k :: 0 <= k < |r| ==> r[k] < |dots|
    ensures forall k, l :: 0 <= k < l < |r| ==> r[k] < r[l]
    ensures forall i: nat :: i in r <==> i < |dots| && !Excluded(self, i) && IsNeighbor(dots[i], target)
  {
    if dots == [] then []
    else
      var n := |dots| - 1;
      GetNeighbors(target, self, dots[..n])
      + (if !Excluded(self, n) && IsNeighbor(dots[n], target) then [n] else [])
  }

  /** The identity test of getNeighbors removes nothing: its list is as long
      as the count of neighbours. */
  lemma {:induction false} GetNeighborsCount(target: Dot, self: Option<nat>, dots: seq<Dot>)
    requires IsSelf(self, target, dots)
    ensures |GetNeighbors(target, self, dots)| == NeighborCount(target, dots)
  {
    if dots != [] {
      var n := |dots| - 1;
      GetNeighborsCount(target, self, dots[..n]);
      if Excluded(self, n) {
        NotNeighborOfItself(dots[n], target);
      }
    }
  }

  /** Every neighbour of `target` in the list is in the list of getNeighbors:
      the position the identity test skips holds `target`, no neighbour. */
  lemma GetNeighborsCoversNeighbors(target: Dot, self: Option<nat>, dots: seq<Dot>)
    requires IsSelf(self, target, dots)
    ensures forall i :: 0 <= i < |dots| && IsNeighbor(dots[i], target) ==> i in GetNeighbors(target, self, dots)
  {
    forall i | 0 <= i < |dots| && IsNeighbor(dots[i], target)
      ensures i in GetNeighbors(target, self, dots)
    {
      if Excluded(self, i) {
        NotNeighborOfItself(dots[i], target);
      }
    }
  }

  /** countNeighbors: a scan counting the neighbours of `target`; the
      identity test never changes the count. */
  method CountNeighbors(target: Dot, self: Option<nat>, dots: seq<Dot>) returns (count: nat)
    requires IsSelf(self, target, dots)
    ensures count == NeighborCount(target, dots)
    ensures count <= |dots|
  {
    count := 0;
    for i := 0 to |dots|
      invariant count == NeighborCount(target, dots[..i])
    {
      assert dots[..i + 1][..i] == dots[..i];
      if !Excluded(self, i) && IsNeighbor(dots[i], target) {
        count := count + 1;
      } else if Excluded(self, i) {
        NotNeighborOfItself(dots[i], target);
      }
    }
    assert dots[..|dots|] == dots;
  }

  /** getNeighborWithMostNeighbors: among the neighbours of `mainDot`, the
      first one with the largest neighbour count; None when it has none. */
  method GetNeighborWithMostNeighbors(mainDot: Dot, self: Option<nat>, dots: seq<Dot>) returns (r: Option<nat>)
    requires IsSelf(self, mainDot, dots)
    ensures r.None? <==> forall i :: 0 <= i < |dots| ==> !IsNeighbor(dots[i], mainDot)
    ensures r.Some? ==> r.value < |dots| && IsNeighbor(dots[r.value], mainDot)
    ensures r.Some? ==> forall i :: 0 <= i < |dots| && IsNeighbor(dots[i], mainDot) ==>
      NeighborCount(dots[i], dots) <= NeighborCount(dots[r.value], dots)
    ensures r.Some? ==> forall i :: 0 <= i < r.value && IsNeighbor(dots[i], mainDot) ==>
      NeighborCount(dots[i], dots) < NeighborCount(dots[r.value], dots)
  {
    var neighbors := GetNeighbors(mainDot, self, dots);
    var maxNeighborCount: int := INT_MIN;
    r := None;
    ghost var best := 0;  // the position of r in neighbors
    for j := 0 to |neighbors|
      invariant r.None? <==> j == 0
      invariant r.None? ==> maxNeighborCount == INT_MIN
      invariant r.Some? ==> best < j && r.value == neighbors[best]
      invariant r.Some? ==> maxNeighborCount == NeighborCount(dots[r.value], dots)
      invariant forall k :: 0 <= k < j ==> NeighborCount(dots[neighbors[k]], dots) <= maxNeighborCount
      invariant r.Some? ==> forall k :: 0 <= k < best ==> NeighborCount(dots[neighbors[k]], dots) < maxNeighborCount
    {
      var neighbor := neighbors[j];
      var neighborCount := CountNeighbors(dots[neighbor], Some(neighbor), dots);
      if neighborCount > maxNeighborCount {
        maxNeighborCount := neighborCount;
        r := Some(neighbor);
        best := j;
      }
    }
    GetNeighborsCoversNeighbors(mainDot, self, dots);
    if |neighbors| > 0 {
      assert neighbors[0] in neighbors;
      forall i | 0 <= i < |dots| && IsNeighbor(dots[i], mainDot)
        ensures NeighborCount(dots[i], dots) <= maxNeighborCount
        ensures i < r.value ==> NeighborCount(dots[i], dots) < maxNeighborCount
      {
        var k :| 0 <= k < |neighbors| && neighbors[k] == i;
        if i < r.value {
          assert k < best;
        }
      }
    }
  }

  /** calculateDistance, squared: the square root is monotone, so comparing
      squares orders the dots the same way. */
  function SquaredDistance(dot1: Dot, dot2: Dot): (d: nat)
    ensures d == 0 <==> dot1 == dot2
  {
    var dx := dot1.x - dot2.x;
    var dy := dot1.y - dot2.y;
    SquareIsZeroOnlyAtZero(dx);
    SquareIsZeroOnlyAtZero(dy);
    dx * dx + dy * dy
  }

  lemma SquareIsZeroOnlyAtZero(n: int)
    ensures n * n >= 0
    ensures n * n == 0 <==> n == 0
  {
    if n < 0 {
      assert n * n == (-n) * (-n);
    }
  }

  lemma SquaredDistanceSymmetric(a: Dot, b: Dot)
    ensures SquaredDistance(a, b) == SquaredDistance(b, a)
  {
    assert (a.x - b.x) * (a.x - b.x) == (b.x - a.x) * (b.x - a.x);
    assert (a.y - b.y) * (a.y - b.y) == (b.y - a.y) * (b.y - a.y);
  }

  /** getClosestDot: the first dot other than `mainDot` itself at the least
      distance from it; None when the list holds no other dot. */
  method GetClosestDot(mainDot: Dot, self: Option<nat>, dots: seq<Dot>) returns (r: Option<nat>)
    requires IsSelf(self, mainDot, dots)
    ensures r.None? <==> forall i :: 0 <= i < |dots| ==> Excluded(self, i)
    ensures r.Some? ==> r.value < |dots| && !Excluded(self, r.value)
    ensures r.Some? ==> forall i :: 0 <= i < |dots| && !Excluded(self, i) ==>
      SquaredDistance(mainDot, dots[r.value]) <= SquaredDistance(mainDot, dots[i])
    ensures r.Some? ==> forall i :: 0 <= i < r.value && !Excluded(self, i) ==>
      SquaredDistance(mainDot, dots[r.value]) < SquaredDistance(mainDot, dots[i])
  {
    // Java starts from Double.MAX_VALUE, above every distance; here "no dot
    // chosen yet" plays that part.
    var minDistance: nat := 0;
    r := None;
    for i := 0 to |dots|
      invariant r.None? <==> forall k :: 0 <= k < i ==> Excluded(self, k)
      invariant r.Some? ==> r.value < i && !Excluded(self, r.value)
      invariant r.Some? ==> minDistance == SquaredDistance(mainDot, dots[r.value])
      invariant r.Some? ==> forall k :: 0 <= k < i && !Excluded(self, k) ==>
        minDistance <= SquaredDistance(mainDot, dots[k])
      invariant r.Some? ==> forall k :: 0 <= k < r.value && !Excluded(self, k) ==>
        minDistance < SquaredDistance(mainDot, dots[k])
    {
      if !Excluded(self, i) {
        var distance := SquaredDistance(mainDot, dots[i]);
        if r.None? || distance < minDistance {
          minDistance := distance;
          r := Some(i);
        }
      }
    }
  }

  /** findDotWithLeastNeighbors: the first dot of the list with the least
      neighbour count; None for an empty list. A Java list holds at most
      Integer.MAX_VALUE elements, so every count is below that start value. */
  method FindDotWithLeastNeighbors(dots: seq<Dot>) returns (r: Option<nat>)
    requires |dots| <= INT_MAX
    ensures r.None? <==> |dots| == 0
    ensures r.Some? ==> r.value < |dots|
    ensures r.Some? ==> forall i :: 0 <= i < |dots| ==>
      NeighborCount(dots[r.value], dots) <= NeighborCount(dots[i], dots)
    ensures r.Some? ==> forall i :: 0 <= i < r.value ==>
      NeighborCount(dots[r.value], dots) < NeighborCount(dots[i], dots)
  {
    var minNeighborCount: int := INT_MAX;
    r := None;
    for i := 0 to |dots|
      invariant r.None? <==> i == 0
      invariant r.None? ==> minNeighborCount == INT_MAX
      invariant r.Some? ==> r.value < i && minNeighborCount == NeighborCount(dots[r.value], dots)
      invariant forall k :: 0 <= k < i ==> minNeighborCount <= NeighborCount(dots[k], dots)
      invariant r.Some? ==> forall k :: 0 <= k < r.value ==> minNeighborCount < NeighborCount(dots[k], dots)
    {
      var neighborCount := CountNeighbors(dots[i], Some(i), dots);
      NeighborCountBelowLength(i, dots);
      if neighborCount < minNeighborCount {
        minNeighborCount := neighborCount;
        r := Some(i);
      }
    }
  }
}
