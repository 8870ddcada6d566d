// Rectangular rooms and the L-shaped tunnels between their centres, shared by
// src/systems/procgen.py (`RectangularRoom`, `tunnel_between`) and
// web/game.js (`roomsIntersect`, `roomCenter`, `createHTunnel`/`createVTunnel`).

module Rooms {

  import opened Util
  import opened Geometry

  /** A room spans the corners (x1, y1) and (x2, y2) = (x + width, y + height). */
  datatype Room = Room(x1: int, y1: int, x2: int, y2: int)

  function NewRoom(x: int, y: int, width: int, height: int): Room
  {
    Room(x, y, x + width, y + height)
  }

  predicate WellFormed(r: Room)
  {
    r.x1 <= r.x2 && r.y1 <= r.y2
  }

  /** `center` / `roomCenter`: the floored midpoint. */
  function Center(r: Room): (c: Cell)
    ensures 2 * c.0 <= r.x1 + r.x2 < 2 * c.0 + 2
    ensures 2 * c.1 <= r.y1 + r.y2 < 2 * c.1 + 2
  {
    ((r.x1 + r.x2) / 2, (r.y1 + r.y2) / 2)
  }

  /** The cells of `inner`, the slices [x1+1, x2) x [y1+1, y2): the room without its walls. */
  predicate InInner(r: Room, c: Cell)
  {
    r.x1 + 1 <= c.0 < r.x2 && r.y1 + 1 <= c.1 < r.y2
  }

  /** The closed rectangle [x1, x2] x [y1, y2] that `intersects` compares. */
  predicate InClosed(r: Room, c: Cell)
  {
    r.x1 <= c.0 <= r.x2 && r.y1 <= c.1 <= r.y2
  }

  /** A room at least two cells wide and high has its centre inside its inner area. */
  lemma CenterInInner(r: Room)
    requires r.x2 - r.x1 >= 2 && r.y2 - r.y1 >= 2
    ensures InInner(r, Center(r))
  {
  }

  lemma CenterInClosed(r: Room)
    requires WellFormed(r)
    ensures InClosed(r, Center(r))
  {
  }

  /** `intersects` / `roomsIntersect`. */
  predicate Intersects(a: Room, b: Room)
  {
    a.x1 <= b.x2 && a.x2 >= b.x1 && a.y1 <= b.y2 && a.y2 >= b.y1
  }

  lemma IntersectsSymmetric(a: Room, b: Room)
    ensures Intersects(a, b) <==> Intersects(b, a)
  {
  }

  /** Two well-formed rooms intersect exactly when their closed rectangles share
      a cell, so rooms that merely touch along an edge or at a corner intersect. */
  lemma IntersectsIffShareCell(a: Room, b: Room)
    requires WellFormed(a) && WellFormed(b)
    ensures Intersects(a, b) <==> exists c :: InClosed(a, c) && InClosed(b, c)
  {
    if Intersects(a, b) {
      var c := (Max(a.x1, b.x1), Max(a.y1, b.y1));
      assert InClosed(a, c) && InClosed(b, c);
    }
  }

  /** Non-intersecting rooms share no cell, so their inner areas are disjoint. */
  lemma DisjointRooms(a: Room, b: Room, c: Cell)
    requires !Intersects(a, b)
    ensures !(InClosed(a, c) && InClosed(b, c))
    ensures !(InInner(a, c) && InInner(b, c))
  {
  }

  predicate Between(v: int, a: int, b: int)
  {
    Min(a, b) <= v <= Max(a, b)
  }

  /** `for x in range(min(xa, xb), max(xa, xb) + 1): yield x, y`, and `createHTunnel`. */
  function HRun(xa: int, xb: int, y: int): (r: seq<Cell>)
    ensures forall c :: c in r <==> c.1 == y && Between(c.0, xa, xb)
  {
    var r := seq(Abs(xa - xb) + 1, i => (Min(xa, xb) + i, y));
    assert forall c: Cell | c.1 == y && Between(c.0, xa, xb) :: r[c.0 - Min(xa, xb)] == c;
    r
  }

  /** The vertical counterpart, and `createVTunnel`. */
  function VRun(ya: int, yb: int, x: int): (r: seq<Cell>)
    ensures forall c :: c in r <==> c.0 == x && Between(c.1, ya, yb)
  {
    var r := seq(Abs(ya - yb) + 1, i => (x, Min(ya, yb) + i));
    assert forall c: Cell | c.0 == x && Between(c.1, ya, yb) :: r[c.1 - Min(ya, yb)] == c;
    r
  }

  /** The cells of an L from `a` to `b`: through the corner (b.x, a.y) when the
      horizontal leg comes first, through (a.x, b.y) otherwise. */
  predicate OnL(a: Cell, b: Cell, horizontalFirst: bool, c: Cell)
  {
    if horizontalFirst then
      (c.1 == a.1 && Between(c.0, a.0, b.0)) || (c.0 == b.0 && Between(c.1, a.1, b.1))
    else
      (c.0 == a.0 && Between(c.1, a.1, b.1)) || (c.1 == b.1 && Between(c.0, a.0, b.0))
  }

  /** `tunnel_between(start, end)` with `u` the `random.random()` draw: the four
      runs start->corner, corner->corner, corner->end as the generator yields them. */
  function TunnelBetween(start: Cell, end: Cell, u: Fraction): (r: seq<Cell>)
    ensures start in r && end in r
    ensures forall c :: c in r <==> OnL(start, end, u < 0.5, c)
  {
    var (x1, y1) := start;
    var (x2, y2) := end;
    var corner := if u < 0.5 then (x2, y1) else (x1, y2);
    HRun(x1, corner.0, y1) + VRun(y1, corner.1, corner.0) + HRun(corner.0, x2, corner.1) + VRun(corner.1, y2, x2)
  }

  /** Every tunnel cell lies in the bounding box of its two ends. */
  lemma TunnelInBox(start: Cell, end: Cell, horizontalFirst: bool, c: Cell)
    requires OnL(start, end, horizontalFirst, c)
    ensures Between(c.0, start.0, end.0) && Between(c.1, start.1, end.1)
  {
  }

  predicate Adjacent4(a: Cell, b: Cell)
  {
    Abs(a.0 - b.0) + Abs(a.1 - b.1) == 1
  }

  /** A walk in which each step crosses one edge. */
  predicate Walk4(w: seq<Cell>)
  {
    forall i :: 0 < i < |w| ==> Adjacent4(w[i - 1], w[i])
  }

  /** The horizontal walk from (x, y) to (xTo, y), one cell per step. */
  function HWalk(x: int, xTo: int, y: int): (w: seq<Cell>)
    ensures |w| > 0 && w[0] == (x, y) && w[|w| - 1] == (xTo, y)
    ensures Walk4(w)
    ensures forall c | c in w :: c.1 == y && Between(c.0, x, xTo)
  {
    var s := Sign(xTo - x);
    seq(Abs(xTo - x) + 1, i => (x + s * i, y))
  }

  function VWalk(y: int, yTo: int, x: int): (w: seq<Cell>)
    ensures |w| > 0 && w[0] == (x, y) && w[|w| - 1] == (x, yTo)
    ensures Walk4(w)
    ensures forall c | c in w :: c.0 == x && Between(c.1, y, yTo)
  {
    var s := Sign(yTo - y);
    seq(Abs(yTo - y) + 1, i => (x, y + s * i))
  }

  /** Joining two walks that meet at a common cell. */
  lemma JoinWalks(p: seq<Cell>, q: seq<Cell>)
    requires |p| > 0 && |q| > 0 && p[|p| - 1] == q[0]
    requires Walk4(p) && Walk4(q)
    ensures Walk4(p + q[1..])
    ensures forall c | c in p + q[1..] :: c in p || c in q
  {
    var w := p + q[1..];
    forall i | 0 < i < |w|
      ensures Adjacent4(w[i - 1], w[i])
    {
      if i >= |p| {
        assert w[i] == q[i - |p| + 1];
        assert w[i - 1] == q[i - |p|];
      }
    }
  }

  /** An L-shaped tunnel connects its ends: a walk of edge steps runs from
      start to end through tunnel cells only. */
  lemma {:induction false} TunnelConnected(start: Cell, end: Cell, u: Fraction) returns (w: seq<Cell>)
    ensures |w| > 0 && w[0] == start && w[|w| - 1] == end
    ensures Walk4(w)
    ensures forall c | c in w :: c in TunnelBetween(start, end, u)
  {
    var t := TunnelBetween(start, end, u);
    if u < 0.5 {
      var p := HWalk(start.0, end.0, start.1);
      var q := VWalk(start.1, end.1, end.0);
      JoinWalks(p, q);
      w := p + q[1..];
    } else {
      var p := VWalk(start.1, end.1, start.0);
      var q := HWalk(start.0, end.0, end.1);
      JoinWalks(p, q);
      w := p + q[1..];
    }
    forall c | c in w
      ensures c in t
    {
      assert OnL(start, end, u < 0.5, c);
    }
  }
}
