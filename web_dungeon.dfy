// Dungeon generation of web/game.js: `generateDungeon` with `createHTunnel` /
// `createVTunnel`.  Unlike the Python generator it carves each room's whole
// rectangle [x1, x2) x [y1, y2), keeps a one-cell margin on every side and
// places no entities.  Every `Math.random()` call takes the next draw of `rng`.

module WebDungeon {

  import opened Util
  import opened Geometry
  import opened Tiles
  import opened GameMaps
  import opened Rooms
  import opened Carving
  import opened Procgen

  /** The cells the room loop `for rx in [x1, x2), ry in [y1, y2)` carves. */
  predicate InArea(r: Room, c: Cell)
  {
    r.x1 <= c.0 < r.x2 && r.y1 <= c.1 < r.y2
  }

  predicate InSomeArea(rooms: seq<Room>, c: Cell)
  {
    exists k | 0 <= k < |rooms| :: InArea(rooms[k], c)
  }

  /** A room the browser generator may accept: a one-cell margin on every side. */
  predicate WithMargin(r: Room, width: int, height: int)
  {
    1 <= r.x1 <= r.x2 <= width - 1 && 1 <= r.y1 <= r.y2 <= height - 1
  }

  /** The cells `createHTunnel(cx1, cx2, cy1)` then `createVTunnel(cy1, cy2, cx2)`
      carve when `u < 0.5`, and `createVTunnel(cy1, cy2, cx1)` then
      `createHTunnel(cx1, cx2, cy2)` otherwise. */
  function WebTunnel(a: Cell, b: Cell, u: Fraction): (r: seq<Cell>)
    ensures a in r && b in r
    ensures forall c :: c in r <==> OnL(a, b, u < 0.5, c)
  {
    if u < 0.5 then HRun(a.0, b.0, a.1) + VRun(a.1, b.1, b.0)
    else VRun(a.1, b.1, a.0) + HRun(a.0, b.0, b.1)
  }

  /** The browser's two runs and the Python generator's `tunnel_between` carve
      the same cells for the same draw. */
  lemma WebTunnelMatchesTunnelBetween(a: Cell, b: Cell, u: Fraction, c: Cell)
    ensures c in WebTunnel(a, b, u) <==> c in TunnelBetween(a, b, u)
  {
  }

  predicate IsWebTunnel(t: seq<Cell>, a: Cell, b: Cell)
  {
    t == WebTunnel(a, b, 0.0) || t == WebTunnel(a, b, 0.5)
  }

  /** A tunnel of the generator covers both centres and stays in their bounding box. */
  lemma WebTunnelJoinsCentres(t: seq<Cell>, a: Cell, b: Cell)
    requires IsWebTunnel(t, a, b)
    ensures a in t && b in t
    ensures forall c | c in t :: Between(c.0, a.0, b.0) && Between(c.1, a.1, b.1)
  {
    forall c | c in t
      ensures Between(c.0, a.0, b.0) && Between(c.1, a.1, b.1)
    {
      if t == WebTunnel(a, b, 0.0) {
        TunnelInBox(a, b, true, c);
      } else {
        TunnelInBox(a, b, false, c);
      }
    }
  }

  /** The map holds floor exactly on the carved rooms and tunnels, wall elsewhere. */
  ghost predicate WebCarved(m: GameMap, rooms: seq<Room>, tunnels: seq<seq<Cell>>)
    requires m.Valid()
    reads m, m.tiles
  {
    forall x, y | 0 <= x < m.width && 0 <= y < m.height ::
      m.tiles[x, y] == if InSomeArea(rooms, (x, y)) || InSomeTunnel(tunnels, (x, y)) then Floor else Wall
  }

  lemma InSomeAreaAppend(rooms: seq<Room>, r: Room, c: Cell)
    ensures InSomeArea(rooms + [r], c) <==> InSomeArea(rooms, c) || InArea(r, c)
  {
    var t := rooms + [r];
    if InSomeArea(t, c) && !InArea(r, c) {
      var k :| 0 <= k < |t| && InArea(t[k], c);
      assert t[k] == rooms[k];
    }
    if InSomeArea(rooms, c) {
      var k :| 0 <= k < |rooms| && InArea(rooms[k], c);
      assert t[k] == rooms[k];
    }
    if InArea(r, c) {
      assert t[|rooms|] == r;
    }
  }

  /** `createHTunnel(map, x1, x2, y)`: floor on every cell of row `y` from
      min(x1, x2) to max(x1, x2) inclusive. */
  method CreateHTunnel(m: GameMap, x1: int, x2: int, y: int)
    requires m.Valid()
    requires 0 <= Min(x1, x2) && Max(x1, x2) < m.width && 0 <= y < m.height
    modifies m.tiles
    ensures forall i, j | 0 <= i < m.width && 0 <= j < m.height ::
      m.tiles[i, j] == if j == y && Between(i, x1, x2) then Floor else old(m.tiles[i, j])
  {
    var x := Min(x1, x2);
    while x <= Max(x1, x2)
      invariant Min(x1, x2) <= x <= Max(x1, x2) + 1
      invariant forall i, j | 0 <= i < m.width && 0 <= j < m.height ::
        m.tiles[i, j] == if j == y && Min(x1, x2) <= i < x then Floor else old(m.tiles[i, j])
    {
      m.tiles[x, y] := Floor;
      x := x + 1;
    }
  }

  /** `createVTunnel(map, y1, y2, x)`: floor on every cell of column `x` from
      min(y1, y2) to max(y1, y2) inclusive. */
  method CreateVTunnel(m: GameMap, y1: int, y2: int, x: int)
    requires m.Valid()
    requires 0 <= Min(y1, y2) && Max(y1, y2) < m.height && 0 <= x < m.width
    modifies m.tiles
    ensures forall i, j | 0 <= i < m.width && 0 <= j < m.height ::
      m.tiles[i, j] == if i == x && Between(j, y1, y2) then Floor else old(m.tiles[i, j])
  {
    var y := Min(y1, y2);
    while y <= Max(y1, y2)
      invariant Min(y1, y2) <= y <= Max(y1, y2) + 1
      invariant forall i, j | 0 <= i < m.width && 0 <= j < m.height ::
        m.tiles[i, j] == if i == x && Min(y1, y2) <= j < y then Floor else old(m.tiles[i, j])
    {
      m.tiles[x, y] := Floor;
      y := y + 1;
    }
  }

  /** The two tunnel calls of `generateDungeon` for one draw `u`. */
  method DigWebTunnel(m: GameMap, rooms: seq<Room>, tunnels: seq<seq<Cell>>, a: Cell, b: Cell, u: Fraction)
    returns (tunnel: seq<Cell>)
    requires m.Valid()
    requires m.InBounds(a.0, a.1) && m.InBounds(b.0, b.1)
    requires WebCarved(m, rooms, tunnels)
    modifies m.tiles
    ensures tunnel == WebTunnel(a, b, u) && IsWebTunnel(tunnel, a, b)
    ensures WebCarved(m, rooms, tunnels + [tunnel])
  {
    if u < 0.5 {
      CreateHTunnel(m, a.0, b.0, a.1);
      CreateVTunnel(m, a.1, b.1, b.0);
    } else {
      CreateVTunnel(m, a.1, b.1, a.0);
      CreateHTunnel(m, a.0, b.0, b.1);
    }
    tunnel := WebTunnel(a, b, u);
    forall x, y | 0 <= x < m.width && 0 <= y < m.height
      ensures m.tiles[x, y] == if InSomeArea(rooms, (x, y)) || InSomeTunnel(tunnels + [tunnel], (x, y)) then Floor else Wall
    {
      InSomeTunnelAppend(tunnels, tunnel, (x, y));
    }
  }

  /** The room loop of `generateDungeon`: floor on [x1, x2) x [y1, y2). */
  method CarveWebRoom(m: GameMap, rooms: seq<Room>, tunnels: seq<seq<Cell>>, room: Room)
    requires m.Valid()
    requires WithMargin(room, m.width, m.height)
    requires WebCarved(m, rooms, tunnels)
    modifies m.tiles
    ensures WebCarved(m, rooms + [room], tunnels)
  {
    CarveBox(m, room.x1, room.x2, room.y1, room.y2);
    forall x, y | 0 <= x < m.width && 0 <= y < m.height
      ensures m.tiles[x, y] == if InSomeArea(rooms + [room], (x, y)) || InSomeTunnel(tunnels, (x, y)) then Floor else Wall
    {
      InSomeAreaAppend(rooms, room, (x, y));
    }
  }

  /** What `generateDungeon` keeps true after every attempt. */
  ghost predicate WebState(m: GameMap, rooms: seq<Room>, tunnels: seq<seq<Cell>>, roomMinSize: int, roomMaxSize: int)
    reads m, m.tiles
  {
    && m.Valid()
    && WebRoomsState(rooms, tunnels, m.width, m.height, roomMinSize, roomMaxSize)
    && WebCarved(m, rooms, tunnels)
  }

  /** The rooms and tunnels part of `WebState`. */
  ghost predicate WebRoomsState(rooms: seq<Room>, tunnels: seq<seq<Cell>>, width: int, height: int,
                                roomMinSize: int, roomMaxSize: int)
  {
    && PairwiseDisjoint(rooms)
    && (forall r | r in rooms :: WithMargin(r, width, height))
    && (forall r | r in rooms :: roomMinSize <= r.x2 - r.x1 <= roomMaxSize && roomMinSize <= r.y2 - r.y1 <= roomMaxSize)
    && |tunnels| == Max(0, |rooms| - 1)
    && (forall i | 1 <= i < |rooms| :: IsWebTunnel(tunnels[i - 1], Center(rooms[i - 1]), Center(rooms[i])))
  }

  /** An accepted room, tunnelled to the previous one when there is one, keeps
      `WebRoomsState`. */
  lemma WebRoomsStateAppend(rooms: seq<Room>, tunnels: seq<seq<Cell>>, width: int, height: int,
                            roomMinSize: int, roomMaxSize: int, room: Room, tunnels': seq<seq<Cell>>)
    requires WebRoomsState(rooms, tunnels, width, height, roomMinSize, roomMaxSize)
    requires NoneIntersect(rooms, room) && WithMargin(room, width, height)
    requires roomMinSize <= room.x2 - room.x1 <= roomMaxSize && roomMinSize <= room.y2 - room.y1 <= roomMaxSize
    requires |rooms| == 0 ==> tunnels' == tunnels
    requires |rooms| > 0 ==> (|tunnels'| == |tunnels| + 1 && tunnels'[..|tunnels|] == tunnels
                               && IsWebTunnel(tunnels'[|tunnels|], Center(rooms[|rooms| - 1]), Center(room)))
    ensures WebRoomsState(rooms + [room], tunnels', width, height, roomMinSize, roomMaxSize)
  {
    PairwiseDisjointAppend(rooms, room);
    if |rooms| > 0 {
      assert tunnels' == tunnels + [tunnels'[|tunnels|]];
      WebTunnelsAppend(rooms, tunnels, room, tunnels'[|tunnels|]);
    }
  }

  /** A room with a margin has its centre on the map. */
  lemma CenterOnMap(r: Room, width: int, height: int)
    requires WithMargin(r, width, height)
    ensures 1 <= Center(r).0 <= width - 1 && 1 <= Center(r).1 <= height - 1
  {
  }

  /** One pass of the `for (let i = 0; i < maxRooms; i++)` loop, drawing
      w, h, x, y and, for a room after the first, the tunnel orientation. */
  method TryWebRoom(m: GameMap, rooms: seq<Room>, tunnels: seq<seq<Cell>>,
                    roomMinSize: int, roomMaxSize: int, rng: nat -> Fraction, start: nat)
    returns (next: nat, rooms': seq<Room>, tunnels': seq<seq<Cell>>)
    requires 0 <= roomMinSize <= roomMaxSize && m.width >= roomMaxSize + 2 && m.height >= roomMaxSize + 2
    requires WebState(m, rooms, tunnels, roomMinSize, roomMaxSize)
    modifies m.tiles
    ensures next >= start && rooms <= rooms' && |rooms'| <= |rooms| + 1
    ensures WebState(m, rooms', tunnels', roomMinSize, roomMaxSize)
  {
    var w := RandomInt(roomMinSize, roomMaxSize, rng(start));
    var h := RandomInt(roomMinSize, roomMaxSize, rng(start + 1));
    var x := RandomInt(1, m.width - w - 1, rng(start + 2));
    var y := RandomInt(1, m.height - h - 1, rng(start + 3));
    next := start + 4;
    var room := Room(x, y, x + w, y + h);
    rooms', tunnels' := rooms, tunnels;
    if !NoneIntersect(rooms, room) {
      return;
    }
    var u := rng(next);
    if |rooms| > 0 {
      next := next + 1;
    }
    tunnels' := AcceptWebRoom(m, rooms, tunnels, room, roomMinSize, roomMaxSize, u);
    rooms' := rooms + [room];
  }

  /** Carving an accepted room and, after the first, its tunnel from the previous centre. */
  method AcceptWebRoom(m: GameMap, rooms: seq<Room>, tunnels: seq<seq<Cell>>, room: Room,
                       roomMinSize: int, roomMaxSize: int, u: Fraction)
    returns (tunnels': seq<seq<Cell>>)
    requires WebState(m, rooms, tunnels, roomMinSize, roomMaxSize)
    requires NoneIntersect(rooms, room) && WithMargin(room, m.width, m.height)
    requires roomMinSize <= room.x2 - room.x1 <= roomMaxSize && roomMinSize <= room.y2 - room.y1 <= roomMaxSize
    modifies m.tiles
    ensures WebState(m, rooms + [room], tunnels', roomMinSize, roomMaxSize)
  {
    CarveWebRoom(m, rooms, tunnels, room);
    tunnels' := tunnels;
    if |rooms| > 0 {
      var prev := rooms[|rooms| - 1];
      assert prev in rooms;
      CenterOnMap(prev, m.width, m.height);
      CenterOnMap(room, m.width, m.height);
      var tunnel := DigWebTunnel(m, rooms + [room], tunnels, Center(prev), Center(room), u);
      tunnels' := tunnels + [tunnel];
      assert tunnels'[..|tunnels|] == tunnels;
    }
    WebRoomsStateAppend(rooms, tunnels, m.width, m.height, roomMinSize, roomMaxSize, room, tunnels');
  }

  lemma WebTunnelsAppend(rooms: seq<Room>, tunnels: seq<seq<Cell>>, room: Room, tunnel: seq<Cell>)
    requires |rooms| > 0 && |tunnels| == |rooms| - 1
    requires forall i | 1 <= i < |rooms| :: IsWebTunnel(tunnels[i - 1], Center(rooms[i - 1]), Center(rooms[i]))
    requires IsWebTunnel(tunnel, Center(rooms[|rooms| - 1]), Center(room))
    ensures var rs, ts := rooms + [room], tunnels + [tunnel];
      |ts| == |rs| - 1 && forall i | 1 <= i < |rs| :: IsWebTunnel(ts[i - 1], Center(rs[i - 1]), Center(rs[i]))
  {
    var rs, ts := rooms + [room], tunnels + [tunnel];
    forall i | 1 <= i < |rs|
      ensures IsWebTunnel(ts[i - 1], Center(rs[i - 1]), Center(rs[i]))
    {
      if i < |rooms| {
        assert ts[i - 1] == tunnels[i - 1] && rs[i - 1] == rooms[i - 1] && rs[i] == rooms[i];
      } else {
        assert ts[i - 1] == tunnel && rs[i - 1] == rooms[|rooms| - 1] && rs[i] == room;
      }
    }
  }

  /** `generateDungeon(width, height, maxRooms, roomMinSize, roomMaxSize)`.
      Accepted rooms never intersect and keep a one-cell margin, so every
      carved cell is on the map; each later room is tunnelled to the previous
      room's centre; the last room's centre is the down-stairs.
      `tunnels[i - 1]` is the tunnel dug for `rooms[i]`.  The generator relies
      on a room of the largest size fitting with its margin. */
  method GenerateWebDungeon(width: nat, height: nat, maxRooms: int, roomMinSize: int, roomMaxSize: int,
                            rng: nat -> Fraction, start: nat)
    returns (m: GameMap, rooms: seq<Room>, tunnels: seq<seq<Cell>>, next: nat)
    requires 0 <= roomMinSize <= roomMaxSize && width >= roomMaxSize + 2 && height >= roomMaxSize + 2
    ensures fresh(m) && m.Valid() && m.width == width && m.height == height
    ensures m.entities == [] && m.items == []
    ensures next >= start && |rooms| <= Max(0, maxRooms)
    ensures PairwiseDisjoint(rooms)
    ensures forall r | r in rooms :: WithMargin(r, width, height)
    ensures forall r | r in rooms :: roomMinSize <= r.x2 - r.x1 <= roomMaxSize && roomMinSize <= r.y2 - r.y1 <= roomMaxSize
    ensures |tunnels| == Max(0, |rooms| - 1)
    ensures forall i | 1 <= i < |rooms| :: IsWebTunnel(tunnels[i - 1], Center(rooms[i - 1]), Center(rooms[i]))
    ensures forall x, y | 0 <= x < width && 0 <= y < height ::
      m.tiles[x, y] ==
        if |rooms| > 0 && (x, y) == Center(rooms[|rooms| - 1]) then StairsDown
        else if InSomeArea(rooms, (x, y)) || InSomeTunnel(tunnels, (x, y)) then Floor
        else Wall
  {
    m := new GameMap(width, height);
    rooms, tunnels := [], [];
    next := start;
    var i := 0;
    while i < maxRooms
      invariant fresh(m) && fresh(m.tiles) && m.entities == [] && m.items == []
      invariant next >= start && 0 <= i <= Max(0, maxRooms) && |rooms| <= i
      invariant WebState(m, rooms, tunnels, roomMinSize, roomMaxSize)
    {
      next, rooms, tunnels := TryWebRoom(m, rooms, tunnels, roomMinSize, roomMaxSize, rng, next);
      i := i + 1;
    }
    if |rooms| > 0 {
      var last := rooms[|rooms| - 1];
      assert last in rooms;
      CenterOnMap(last, width, height);
      m.tiles[Center(last).0, Center(last).1] := StairsDown;
    }
  }
}
