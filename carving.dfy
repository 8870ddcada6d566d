// Carving floor into a map's tile grid: the slice assignment
// `dungeon.tiles[room.inner] = floor` and the per-cell tunnel writes of
// src/systems/procgen.py, and the room and tunnel loops of web/game.js.

module Carving {

  import opened Geometry
  import opened Tiles
  import opened GameMaps

  predicate InBox(xlo: int, xhi: int, ylo: int, yhi: int, c: Cell)
  {
    xlo <= c.0 < xhi && ylo <= c.1 < yhi
  }

  /** Sets every cell of [xlo, xhi) x [ylo, yhi) to floor; an empty box carves nothing. */
  method CarveBox(m: GameMap, xlo: int, xhi: int, ylo: int, yhi: int)
    requires m.Valid()
    requires 0 <= xlo && xhi <= m.width && 0 <= ylo && yhi <= m.height
    modifies m.tiles
    ensures forall x, y | 0 <= x < m.width && 0 <= y < m.height ::
      m.tiles[x, y] == if InBox(xlo, xhi, ylo, yhi, (x, y)) then Floor else old(m.tiles[x, y])
  {
    var x := xlo;
    while x < xhi
      invariant xlo <= x <= if xlo <= xhi then xhi else xlo
      invariant forall i, j | 0 <= i < m.width && 0 <= j < m.height ::
        m.tiles[i, j] == if InBox(xlo, x, ylo, yhi, (i, j)) then Floor else old(m.tiles[i, j])
    {
      var y := ylo;
      while y < yhi
        invariant ylo <= y <= if ylo <= yhi then yhi else ylo
        invariant forall i, j | 0 <= i < m.width && 0 <= j < m.height ::
          m.tiles[i, j] == if InBox(xlo, x, ylo, yhi, (i, j)) || (i == x && ylo <= j < y) then Floor else old(m.tiles[i, j])
      {
        m.tiles[x, y] := Floor;
        y := y + 1;
      }
      x := x + 1;
    }
  }

  /** Sets every listed cell to floor. */
  method CarveCells(m: GameMap, cells: seq<Cell>)
    requires m.Valid()
    requires forall c | c in cells :: m.InBounds(c.0, c.1)
    modifies m.tiles
    ensures forall x, y | 0 <= x < m.width && 0 <= y < m.height ::
      m.tiles[x, y] == if (x, y) in cells then Floor else old(m.tiles[x, y])
  {
    for k := 0 to |cells|
      invariant forall x, y | 0 <= x < m.width && 0 <= y < m.height ::
        m.tiles[x, y] == if (x, y) in cells[..k] then Floor else old(m.tiles[x, y])
    {
      var c := cells[k];
      assert cells[..k + 1] == cells[..k] + [c];
      m.tiles[c.0, c.1] := Floor;
    }
    assert cells[..|cells|] == cells;
  }
}
