// Grid coordinates and the integer distance notions the game uses.

module Geometry {

  type Cell = (int, int)

  /** Chebyshev distance `max(|dx|, |dy|)`: one step per king move. */
  function Chebyshev(a: Cell, b: Cell): (d: nat)
    ensures d == 0 <==> a == b
    ensures d >= a.0 - b.0 && d >= b.0 - a.0 && d >= a.1 - b.1 && d >= b.1 - a.1
    ensures d == a.0 - b.0 || d == b.0 - a.0 || d == a.1 - b.1 || d == b.1 - a.1
  {
    var dx := if a.0 >= b.0 then a.0 - b.0 else b.0 - a.0;
    var dy := if a.1 >= b.1 then a.1 - b.1 else b.1 - a.1;
    if dx >= dy then dx else dy
  }

  /** Two distinct cells that share an edge or a corner. */
  predicate Adjacent8(a: Cell, b: Cell)
  {
    a != b && -1 <= a.0 - b.0 <= 1 && -1 <= a.1 - b.1 <= 1
  }

  lemma Adjacent8IsChebyshevOne(a: Cell, b: Cell)
    ensures Adjacent8(a, b) <==> Chebyshev(a, b) == 1
  {}

  /** Squared Euclidean distance; `sqrt(d2) > r` and `d2 > r*r` agree for integers. */
  function Dist2(a: Cell, b: Cell): (d: nat)
    ensures d == 0 <==> a == b
  {
    var dx := a.0 - b.0;
    var dy := a.1 - b.1;
    assert dx * dx >= 0 && dy * dy >= 0;
    assert dx != 0 ==> dx * dx > 0;
    assert dy != 0 ==> dy * dy > 0;
    dx * dx + dy * dy
  }

  /** The eight king-move directions in the order ai.py lists them. */
  const Directions8: seq<Cell> :=
    [(-1, -1), (0, -1), (1, -1), (-1, 0), (1, 0), (-1, 1), (0, 1), (1, 1)]

  lemma Directions8AreUnitSteps(d: Cell)
    ensures d in Directions8 <==> Adjacent8((0, 0), d)
  {}
}
