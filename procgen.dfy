// Dungeon generation of src/systems/procgen.py: rooms placed by rejection
// sampling, joined by L-shaped tunnels, stairs in the last room, and the
// monsters and items dropped into each room after the first.  Every
// `random.random()` / `random.randint` call takes the next draw of `rng`.

module Procgen {

  import opened Util
  import opened Geometry
  import opened Tiles
  import opened Components
  import opened GameMaps
  import opened Rooms
  import opened Carving

  /** No room of the list intersects `r`: the negation of the `any(...)` test. */
  predicate NoneIntersect(rooms: seq<Room>, r: Room)
  {
    forall i | 0 <= i < |rooms| :: !Intersects(r, rooms[i])
  }

  predicate PairwiseDisjoint(rooms: seq<Room>)
  {
    forall i, j | 0 <= i < j < |rooms| :: !Intersects(rooms[i], rooms[j])
  }

  /** Inside the map with a wall column and row to spare: x1 >= 0, x2 <= width - 1, ... */
  predicate InsideMap(r: Room, width: int, height: int)
  {
    0 <= r.x1 <= r.x2 <= width - 1 && 0 <= r.y1 <= r.y2 <= height - 1
  }

  predicate InSomeInner(rooms: seq<Room>, c: Cell)
  {
    exists k | 0 <= k < |rooms| :: InInner(rooms[k], c)
  }

  predicate InSomeTunnel(tunnels: seq<seq<Cell>>, c: Cell)
  {
    exists k | 0 <= k < |tunnels| :: c in tunnels[k]
  }

  /** The rooms after the first: the ones that receive monsters and items. */
  function Later(rooms: seq<Room>): seq<Room>
  {
    if rooms == [] then [] else rooms[1..]
  }

  /** One of the two L-shaped tunnels from `a` to `b`. */
  predicate IsTunnel(t: seq<Cell>, a: Cell, b: Cell)
  {
    t == TunnelBetween(a, b, 0.0) || t == TunnelBetween(a, b, 0.5)
  }

  /** The map holds floor exactly on the carved cells and wall elsewhere. */
  ghost predicate CarvedTiles(m: GameMap, rooms: seq<Room>, tunnels: seq<seq<Cell>>)
    requires m.Valid()
    reads m, m.tiles
  {
    forall x, y | 0 <= x < m.width && 0 <= y < m.height ::
      m.tiles[x, y] == if InSomeInner(rooms, (x, y)) || InSomeTunnel(tunnels, (x, y)) then Floor else Wall
  }

  /** The monsters (never the player) and the items stand on distinct cells
      inside the rooms after the first. */
  ghost predicate Populated(dungeon: GameMap, rooms: seq<Room>, player: Entity)
    reads dungeon, (set e | e in dungeon.entities), (set e | e in dungeon.items)
  {
    && (forall e | e in dungeon.entities :: e != player && e.kind == ActorEntity && InSomeInner(Later(rooms), (e.x, e.y)))
    && (forall e | e in dungeon.items :: e.kind == ItemEntity && InSomeInner(Later(rooms), (e.x, e.y)))
    && DistinctPositions(dungeon.entities) && DistinctPositions(dungeon.items)
  }

  /** No two entities of the list stand on one cell. */
  predicate DistinctPositions(s: seq<Entity>)
    reads set e | e in s
  {
    forall i, j | 0 <= i < j < |s| :: (s[i].x, s[i].y) != (s[j].x, s[j].y)
  }

  /** `any(e.x == x and e.y == y for e in s)`. */
  predicate Occupied(s: seq<Entity>, x: int, y: int)
    reads set e | e in s
  {
    exists i | 0 <= i < |s| :: s[i].x == x && s[i].y == y
  }

  lemma AppendKeepsDistinct(s: seq<Entity>, e: Entity)
    requires DistinctPositions(s) && !Occupied(s, e.x, e.y)
    ensures DistinctPositions(s + [e])
  {
    var t := s + [e];
    forall i, j | 0 <= i < j < |t|
      ensures (t[i].x, t[i].y) != (t[j].x, t[j].y)
    {
      if j == |s| {
        assert t[i] == s[i];
      } else {
        assert t[i] == s[i] && t[j] == s[j];
      }
    }
  }

  /** Later rooms never reach into the first one. */
  lemma FirstRoomApart(rooms: seq<Room>, c: Cell)
    requires |rooms| > 0 && PairwiseDisjoint(rooms) && InClosed(rooms[0], c)
    ensures !InSomeInner(Later(rooms), c)
  {
    if InSomeInner(Later(rooms), c) {
      var k :| 0 <= k < |Later(rooms)| && InInner(Later(rooms)[k], c);
      assert Later(rooms)[k] == rooms[k + 1];
      DisjointRooms(rooms[0], rooms[k + 1], c);
    }
  }

  /** `place_entities`: up to `maxMonsters` monsters, then up to `maxItems`
      items, all inside the room's inner area, never two entities or two items
      on one cell.  `ok` is false where `randint` raises ValueError: a negative
      maximum, or a room too thin to have an inner cell. */
  method PlaceEntities(room: Room, dungeon: GameMap, maxMonsters: int, maxItems: int, rng: nat -> Fraction, start: nat)
    returns (ok: bool, next: nat)
    modifies dungeon`entities, dungeon`items
    ensures next >= start
    ensures old(dungeon.entities) <= dungeon.entities && old(dungeon.items) <= dungeon.items
    ensures forall i | |old(dungeon.entities)| <= i < |dungeon.entities| ::
      var e := dungeon.entities[i]; fresh(e) && e.kind == ActorEntity && InInner(room, (e.x, e.y))
    ensures forall i | |old(dungeon.items)| <= i < |dungeon.items| ::
      var e := dungeon.items[i]; fresh(e) && e.kind == ItemEntity && InInner(room, (e.x, e.y))
    ensures |dungeon.entities| <= |old(dungeon.entities)| + Max(0, maxMonsters)
    ensures |dungeon.items| <= |old(dungeon.items)| + Max(0, maxItems)
    ensures DistinctPositions(old(dungeon.entities)) ==> DistinctPositions(dungeon.entities)
    ensures DistinctPositions(old(dungeon.items)) ==> DistinctPositions(dungeon.items)
    ensures maxMonsters < 0 ==> !ok
    ensures maxMonsters >= 0 && maxItems >= 0 && room.x2 - room.x1 >= 2 && room.y2 - room.y1 >= 2 ==> ok
  {
    ok, next := PlaceMonsters(room, dungeon, maxMonsters, rng, start);
    if ok {
      ok, next := PlaceItems(room, dungeon, maxItems, rng, next);
    }
  }

  /** The monster half of `place_entities`: a goblin (hp 10, defense 0, power 3,
      detection range 6) with probability 0.8, otherwise an orc (16, 1, 4, range 8),
      skipped when any entity already stands on the drawn cell. */
  method PlaceMonsters(room: Room, dungeon: GameMap, maxMonsters: int, rng: nat -> Fraction, start: nat)
    returns (ok: bool, next: nat)
    modifies dungeon`entities
    ensures next >= start
    ensures old(dungeon.entities) <= dungeon.entities
    ensures forall i | |old(dungeon.entities)| <= i < |dungeon.entities| ::
      var e := dungeon.entities[i]; fresh(e) && e.kind == ActorEntity && InInner(room, (e.x, e.y))
    ensures |dungeon.entities| <= |old(dungeon.entities)| + Max(0, maxMonsters)
    ensures DistinctPositions(old(dungeon.entities)) ==> DistinctPositions(dungeon.entities)
    ensures maxMonsters < 0 ==> !ok
    ensures maxMonsters >= 0 && room.x2 - room.x1 >= 2 && room.y2 - room.y1 >= 2 ==> ok
  {
    next := start;
    ok := true;
    if maxMonsters < 0 {
      ok := false;
      return;
    }
    var numMonsters := RandomInt(0, maxMonsters, rng(next));
    next := next + 1;
    var n := 0;
    while n < numMonsters
      invariant 0 <= n <= numMonsters <= maxMonsters
      invariant next >= start
      invariant old(dungeon.entities) <= dungeon.entities
      invariant |dungeon.entities| <= |old(dungeon.entities)| + n
      invariant forall i | |old(dungeon.entities)| <= i < |dungeon.entities| ::
        var e := dungeon.entities[i]; fresh(e) && e.kind == ActorEntity && InInner(room, (e.x, e.y))
      invariant DistinctPositions(old(dungeon.entities)) ==> DistinctPositions(dungeon.entities)
    {
      if room.x2 - 1 < room.x1 + 1 || room.y2 - 1 < room.y1 + 1 {
        ok := false;
        return;
      }
      var x := RandomInt(room.x1 + 1, room.x2 - 1, rng(next));
      var y := RandomInt(room.y1 + 1, room.y2 - 1, rng(next + 1));
      next := next + 2;
      if !Occupied(dungeon.entities, x, y) {
        var monster := NewMonster(x, y, rng(next) < 0.8);
        next := next + 1;
        if DistinctPositions(old(dungeon.entities)) {
          AppendKeepsDistinct(dungeon.entities, monster);
        }
        dungeon.AddEntity(monster);
      }
      n := n + 1;
    }
  }

  /** A goblin or an orc standing at (x, y), alive and hostile. */
  method NewMonster(x: int, y: int, goblin: bool) returns (monster: Entity)
    ensures fresh(monster) && monster.kind == ActorEntity && monster.x == x && monster.y == y
    ensures fresh(monster.fighter) && fresh(monster.ai) && monster.fighter != null && monster.ai != null
    ensures monster.name == (if goblin then "고블린" else "오크")
    ensures monster.fighter.hp == monster.fighter.maxHp == (if goblin then 10 else 16)
    ensures monster.fighter.defense == (if goblin then 0 else 1) && monster.fighter.power == (if goblin then 3 else 4)
    ensures monster.ai.detectionRange == (if goblin then 6 else 8)
    ensures monster.ai.entity == monster && monster.fighter.entity == monster
  {
    if goblin {
      var ai := new AiComponent.Hostile(6);
      var fighter := new Fighter(10, 0, 3);
      monster := new Entity.Actor(x, y, 'g', "고블린", ai, fighter, null, null, null, 0);
    } else {
      var ai := new AiComponent.Hostile(8);
      var fighter := new Fighter(16, 1, 4);
      monster := new Entity.Actor(x, y, 'o', "오크", ai, fighter, null, null, null, 0);
    }
  }

  /** The item half of `place_entities`: dried meat (nutrition 200) below 0.5,
      a water bottle (hydration 300) below 0.8, otherwise a healing potion,
      skipped when an item already lies on the drawn cell. */
  method PlaceItems(room: Room, dungeon: GameMap, maxItems: int, rng: nat -> Fraction, start: nat)
    returns (ok: bool, next: nat)
    modifies dungeon`items
    ensures next >= start
    ensures old(dungeon.items) <= dungeon.items
    ensures forall i | |old(dungeon.items)| <= i < |dungeon.items| ::
      var e := dungeon.items[i]; fresh(e) && e.kind == ItemEntity && InInner(room, (e.x, e.y))
    ensures |dungeon.items| <= |old(dungeon.items)| + Max(0, maxItems)
    ensures DistinctPositions(old(dungeon.items)) ==> DistinctPositions(dungeon.items)
    ensures maxItems < 0 ==> !ok
    ensures maxItems >= 0 && room.x2 - room.x1 >= 2 && room.y2 - room.y1 >= 2 ==> ok
  {
    next := start;
    ok := true;
    if maxItems < 0 {
      ok := false;
      return;
    }
    var numItems := RandomInt(0, maxItems, rng(next));
    next := next + 1;
    var n := 0;
    while n < numItems
      invariant 0 <= n <= numItems <= maxItems
      invariant next >= start
      invariant old(dungeon.items) <= dungeon.items
      invariant |dungeon.items| <= |old(dungeon.items)| + n
      invariant forall i | |old(dungeon.items)| <= i < |dungeon.items| ::
        var e := dungeon.items[i]; fresh(e) && e.kind == ItemEntity && InInner(room, (e.x, e.y))
      invariant DistinctPositions(old(dungeon.items)) ==> DistinctPositions(dungeon.items)
    {
      if room.x2 - 1 < room.x1 + 1 || room.y2 - 1 < room.y1 + 1 {
        ok := false;
        return;
      }
      var x := RandomInt(room.x1 + 1, room.x2 - 1, rng(next));
      var y := RandomInt(room.y1 + 1, room.y2 - 1, rng(next + 1));
      next := next + 2;
      if !Occupied(dungeon.items, x, y) {
        var item := NewItem(x, y, rng(next));
        next := next + 1;
        if DistinctPositions(old(dungeon.items)) {
          AppendKeepsDistinct(dungeon.items, item);
        }
        dungeon.AddItem(item);
      }
      n := n + 1;
    }
  }

  /** Dried meat below 0.5, a water bottle below 0.8, otherwise a healing
      potion, lying at (x, y). */
  method NewItem(x: int, y: int, roll: Fraction) returns (item: Entity)
    ensures fresh(item) && item.kind == ItemEntity && item.x == x && item.y == y && item.consumable
    ensures item.name == (if roll < 0.5 then "마른 고기" else if roll < 0.8 then "물병" else "치료 물약")
    ensures item.glyph == (if roll < 0.5 then '%' else '!')
    ensures item.nutrition == (if roll < 0.5 then 200 else 0) && item.hydration == (if 0.5 <= roll < 0.8 then 300 else 0)
  {
    if roll < 0.5 {
      item := new Entity.Item(x, y, '%', "마른 고기", true, 200, 0);
    } else if roll < 0.8 {
      item := new Entity.Item(x, y, '!', "물병", true, 0, 300);
    } else {
      item := new Entity.Item(x, y, '!', "치료 물약", true, 0, 0);
    }
  }

  lemma InSomeInnerAppend(rooms: seq<Room>, r: Room, c: Cell)
    ensures InSomeInner(rooms + [r], c) <==> InSomeInner(rooms, c) || InInner(r, c)
  {
    var t := rooms + [r];
    if InSomeInner(t, c) && !InInner(r, c) {
      var k :| 0 <= k < |t| && InInner(t[k], c);
      assert t[k] == rooms[k];
    }
    if InSomeInner(rooms, c) {
      var k :| 0 <= k < |rooms| && InInner(rooms[k], c);
      assert t[k] == rooms[k];
    }
    if InInner(r, c) {
      assert t[|rooms|] == r;
    }
  }

  lemma InSomeTunnelAppend(tunnels: seq<seq<Cell>>, t: seq<Cell>, c: Cell)
    ensures InSomeTunnel(tunnels + [t], c) <==> InSomeTunnel(tunnels, c) || c in t
  {
    var u := tunnels + [t];
    if InSomeTunnel(u, c) && c !in t {
      var k :| 0 <= k < |u| && c in u[k];
      assert u[k] == tunnels[k];
    }
    if InSomeTunnel(tunnels, c) {
      var k :| 0 <= k < |tunnels| && c in tunnels[k];
      assert u[k] == tunnels[k];
    }
    if c in t {
      assert u[|tunnels|] == t;
    }
  }

  /** Every tunnel between two cells of the map stays in the map. */
  lemma TunnelInMap(a: Cell, b: Cell, u: Fraction, width: int, height: int)
    requires 0 <= a.0 < width && 0 <= b.0 < width && 0 <= a.1 < height && 0 <= b.1 < height
    ensures forall c | c in TunnelBetween(a, b, u) :: 0 <= c.0 < width && 0 <= c.1 < height
  {
    forall c | c in TunnelBetween(a, b, u)
      ensures 0 <= c.0 < width && 0 <= c.1 < height
    {
      TunnelInBox(a, b, u < 0.5, c);
    }
  }

  lemma TunnelIsTunnel(a: Cell, b: Cell, u: Fraction)
    ensures IsTunnel(TunnelBetween(a, b, u), a, b)
  {
  }

  /** The later-room branch of `generate_dungeon`: carve the inner area, tunnel
      from the previous room's centre (the tunnel is returned), then place
      monsters and items. */
  method AcceptLaterRoom(dungeon: GameMap, rooms: seq<Room>, tunnels: seq<seq<Cell>>, room: Room, player: Entity,
                         maxMonsters: int, maxItems: int, rng: nat -> Fraction, start: nat)
    returns (ok: bool, next: nat, tunnel: seq<Cell>)
    requires dungeon.Valid() && |rooms| > 0
    requires InsideMap(room, dungeon.width, dungeon.height)
    requires InsideMap(rooms[|rooms| - 1], dungeon.width, dungeon.height)
    requires CarvedTiles(dungeon, rooms, tunnels)
    requires Populated(dungeon, rooms, player)
    modifies dungeon.tiles, dungeon`entities, dungeon`items
    ensures next >= start
    ensures CarvedTiles(dungeon, rooms + [room], tunnels + [tunnel])
    ensures IsTunnel(tunnel, Center(rooms[|rooms| - 1]), Center(room))
    ensures forall e | e in dungeon.entities :: e in old(dungeon.entities) || fresh(e)
    ensures ok ==> Populated(dungeon, rooms + [room], player)
    ensures maxMonsters >= 0 && maxItems >= 0 && room.x2 - room.x1 >= 2 && room.y2 - room.y1 >= 2 ==> ok
  {
    CarveRoom(dungeon, rooms, tunnels, room);
    tunnel := DigTunnel(dungeon, rooms + [room], tunnels, Center(rooms[|rooms| - 1]), Center(room), rng(start));
    ok, next := PopulateRoom(dungeon, rooms, room, player, maxMonsters, maxItems, rng, start + 1);
  }

  /** `dungeon.tiles[new_room.inner] = floor`. */
  method CarveRoom(dungeon: GameMap, rooms: seq<Room>, tunnels: seq<seq<Cell>>, room: Room)
    requires dungeon.Valid()
    requires InsideMap(room, dungeon.width, dungeon.height)
    requires CarvedTiles(dungeon, rooms, tunnels)
    modifies dungeon.tiles
    ensures CarvedTiles(dungeon, rooms + [room], tunnels)
  {
    CarveBox(dungeon, room.x1 + 1, room.x2, room.y1 + 1, room.y2);
    forall x, y | 0 <= x < dungeon.width && 0 <= y < dungeon.height
      ensures dungeon.tiles[x, y] == if InSomeInner(rooms + [room], (x, y)) || InSomeTunnel(tunnels, (x, y)) then Floor else Wall
    {
      InSomeInnerAppend(rooms, room, (x, y));
    }
  }

  /** `for x, y in tunnel_between(a, b): dungeon.tiles[x, y] = floor`. */
  method DigTunnel(dungeon: GameMap, rooms: seq<Room>, tunnels: seq<seq<Cell>>, a: Cell, b: Cell, u: Fraction)
    returns (tunnel: seq<Cell>)
    requires dungeon.Valid()
    requires dungeon.InBounds(a.0, a.1) && dungeon.InBounds(b.0, b.1)
    requires CarvedTiles(dungeon, rooms, tunnels)
    modifies dungeon.tiles
    ensures tunnel == TunnelBetween(a, b, u) && IsTunnel(tunnel, a, b)
    ensures CarvedTiles(dungeon, rooms, tunnels + [tunnel])
  {
    tunnel := TunnelBetween(a, b, u);
    TunnelIsTunnel(a, b, u);
    TunnelInMap(a, b, u, dungeon.width, dungeon.height);
    CarveCells(dungeon, tunnel);
    forall x, y | 0 <= x < dungeon.width && 0 <= y < dungeon.height
      ensures dungeon.tiles[x, y] == if InSomeInner(rooms, (x, y)) || InSomeTunnel(tunnels + [tunnel], (x, y)) then Floor else Wall
    {
      InSomeTunnelAppend(tunnels, tunnel, (x, y));
    }
  }

  /** `place_entities` for a room after the first, with the generator's invariants:
      monsters and items stay inside the inner areas of the rooms after the first. */
  method PopulateRoom(dungeon: GameMap, rooms: seq<Room>, room: Room, player: Entity,
                      maxMonsters: int, maxItems: int, rng: nat -> Fraction, start: nat)
    returns (ok: bool, next: nat)
    requires |rooms| > 0
    requires Populated(dungeon, rooms, player)
    modifies dungeon`entities, dungeon`items
    ensures next >= start
    ensures forall e | e in dungeon.entities :: e in old(dungeon.entities) || fresh(e)
    ensures ok ==> Populated(dungeon, rooms + [room], player)
    ensures maxMonsters >= 0 && maxItems >= 0 && room.x2 - room.x1 >= 2 && room.y2 - room.y1 >= 2 ==> ok
  {
    ghost var entitiesBefore, itemsBefore := dungeon.entities, dungeon.items;
    ok, next := PlaceEntities(room, dungeon, maxMonsters, maxItems, rng, start);
    assert Later(rooms + [room]) == Later(rooms) + [room];
    forall c | InSomeInner(Later(rooms), c) || InInner(room, c)
      ensures InSomeInner(Later(rooms + [room]), c)
    {
      InSomeInnerAppend(Later(rooms), room, c);
    }
    forall e | e in dungeon.entities
      ensures e in entitiesBefore || fresh(e)
      ensures e != player && e.kind == ActorEntity && InSomeInner(Later(rooms + [room]), (e.x, e.y))
    {
      var i :| 0 <= i < |dungeon.entities| && dungeon.entities[i] == e;
      if i < |entitiesBefore| {
        assert dungeon.entities[i] == entitiesBefore[i];
      }
    }
    forall e | e in dungeon.items
      ensures e.kind == ItemEntity && InSomeInner(Later(rooms + [room]), (e.x, e.y))
    {
      var i :| 0 <= i < |dungeon.items| && dungeon.items[i] == e;
      if i < |itemsBefore| {
        assert dungeon.items[i] == itemsBefore[i];
      }
    }
  }

  /** What `generate_dungeon` keeps true after every attempt: the accepted
      rooms are disjoint, inside the map and of a drawn size, the player stands
      at the first room's centre, each later room has its tunnel, the tiles are
      the carved cells, and monsters and items stand on distinct cells inside
      the rooms after the first. */
  ghost predicate GenState(dungeon: GameMap, rooms: seq<Room>, tunnels: seq<seq<Cell>>, player: Entity,
                           width: int, height: int, roomMinSize: int, roomMaxSize: int)
    reads dungeon, dungeon.tiles, (set e | e in dungeon.entities), (set e | e in dungeon.items), player
  {
    && dungeon.Valid() && dungeon.width == width && dungeon.height == height
    && RoomsState(rooms, tunnels, player, width, height, roomMinSize, roomMaxSize)
    && CarvedTiles(dungeon, rooms, tunnels)
    && Populated(dungeon, rooms, player)
  }

  /** The rooms and tunnels part of `GenState`. */
  ghost predicate RoomsState(rooms: seq<Room>, tunnels: seq<seq<Cell>>, player: Entity,
                             width: int, height: int, roomMinSize: int, roomMaxSize: int)
    reads player
  {
    && PairwiseDisjoint(rooms)
    && (forall r | r in rooms :: InsideMap(r, width, height))
    && (forall r | r in rooms :: roomMinSize <= r.x2 - r.x1 <= roomMaxSize && roomMinSize <= r.y2 - r.y1 <= roomMaxSize)
    && (|rooms| > 0 ==> (player.x, player.y) == Center(rooms[0]))
    && |tunnels| == Max(0, |rooms| - 1)
    && (forall i | 1 <= i < |rooms| :: IsTunnel(tunnels[i - 1], Center(rooms[i - 1]), Center(rooms[i])))
  }

  /** One attempt of `generate_dungeon`'s loop. */
  method TryRoom(dungeon: GameMap, rooms: seq<Room>, tunnels: seq<seq<Cell>>, player: Entity,
                 roomMinSize: int, roomMaxSize: int, maxMonsters: int, maxItems: int, rng: nat -> Fraction, start: nat)
    returns (ok: bool, next: nat, rooms': seq<Room>, tunnels': seq<seq<Cell>>)
    requires roomMinSize >= 0
    requires GenState(dungeon, rooms, tunnels, player, dungeon.width, dungeon.height, roomMinSize, roomMaxSize)
    modifies dungeon.tiles, dungeon`entities, dungeon`items, player`x, player`y
    ensures next >= start && |rooms'| <= |rooms| + 1 && rooms <= rooms'
    ensures ok ==> GenState(dungeon, rooms', tunnels', player, dungeon.width, dungeon.height, roomMinSize, roomMaxSize)
    ensures !ok ==> rooms' == rooms
    ensures (|rooms'| == |rooms| || |rooms| > 0) ==> player.x == old(player.x) && player.y == old(player.y)
    ensures roomMaxSize < roomMinSize ==> !ok
    ensures (roomMinSize <= roomMaxSize && dungeon.width > roomMaxSize && dungeon.height > roomMaxSize
            && roomMinSize >= 2 && maxMonsters >= 0 && maxItems >= 0) ==> ok
  {
    ok, next, rooms', tunnels' := true, start, rooms, tunnels;
    if roomMaxSize < roomMinSize {
      ok := false;
      return;
    }
    var roomWidth := RandomInt(roomMinSize, roomMaxSize, rng(next));
    var roomHeight := RandomInt(roomMinSize, roomMaxSize, rng(next + 1));
    next := next + 2;
    if dungeon.width - roomWidth - 1 < 0 || dungeon.height - roomHeight - 1 < 0 {
      ok := false;
      return;
    }
    var x := RandomInt(0, dungeon.width - roomWidth - 1, rng(next));
    var y := RandomInt(0, dungeon.height - roomHeight - 1, rng(next + 1));
    next := next + 2;
    var newRoom := NewRoom(x, y, roomWidth, roomHeight);
    if !NoneIntersect(rooms, newRoom) {
      return;
    }
    ok, next, tunnels' := AcceptRoom(dungeon, rooms, tunnels, player, newRoom, roomMinSize, roomMaxSize,
                                     maxMonsters, maxItems, rng, next);
    if ok {
      rooms' := rooms + [newRoom];
    }
  }

  /** The accepting branch of `generate_dungeon`'s loop, for a room that
      intersects none of the accepted ones. */
  method AcceptRoom(dungeon: GameMap, rooms: seq<Room>, tunnels: seq<seq<Cell>>, player: Entity, room: Room,
                    roomMinSize: int, roomMaxSize: int, maxMonsters: int, maxItems: int, rng: nat -> Fraction, start: nat)
    returns (ok: bool, next: nat, tunnels': seq<seq<Cell>>)
    requires GenState(dungeon, rooms, tunnels, player, dungeon.width, dungeon.height, roomMinSize, roomMaxSize)
    requires NoneIntersect(rooms, room) && InsideMap(room, dungeon.width, dungeon.height)
    requires roomMinSize <= room.x2 - room.x1 <= roomMaxSize && roomMinSize <= room.y2 - room.y1 <= roomMaxSize
    modifies dungeon.tiles, dungeon`entities, dungeon`items, player`x, player`y
    ensures next >= start
    ensures ok ==> GenState(dungeon, rooms + [room], tunnels', player, dungeon.width, dungeon.height, roomMinSize, roomMaxSize)
    ensures |rooms| > 0 ==> player.x == old(player.x) && player.y == old(player.y)
    ensures |rooms| == 0 ==> ok
    ensures maxMonsters >= 0 && maxItems >= 0 && roomMinSize >= 2 ==> ok
  {
    if |rooms| == 0 {
      ok, next, tunnels' := true, start, tunnels;
      AcceptFirstRoom(dungeon, tunnels, player, room, roomMinSize, roomMaxSize);
    } else {
      ok, next, tunnels' := AcceptNextRoom(dungeon, rooms, tunnels, player, room, roomMinSize, roomMaxSize,
                                           maxMonsters, maxItems, rng, start);
    }
  }

  /** A room after the first: carve, tunnel from the previous room, populate. */
  method AcceptNextRoom(dungeon: GameMap, rooms: seq<Room>, tunnels: seq<seq<Cell>>, player: Entity, room: Room,
                        roomMinSize: int, roomMaxSize: int, maxMonsters: int, maxItems: int, rng: nat -> Fraction, start: nat)
    returns (ok: bool, next: nat, tunnels': seq<seq<Cell>>)
    requires GenState(dungeon, rooms, tunnels, player, dungeon.width, dungeon.height, roomMinSize, roomMaxSize)
    requires |rooms| > 0 && NoneIntersect(rooms, room) && InsideMap(room, dungeon.width, dungeon.height)
    requires roomMinSize <= room.x2 - room.x1 <= roomMaxSize && roomMinSize <= room.y2 - room.y1 <= roomMaxSize
    modifies dungeon.tiles, dungeon`entities, dungeon`items
    ensures next >= start
    ensures ok ==> GenState(dungeon, rooms + [room], tunnels', player, dungeon.width, dungeon.height, roomMinSize, roomMaxSize)
    ensures maxMonsters >= 0 && maxItems >= 0 && roomMinSize >= 2 ==> ok
  {
    assert rooms[|rooms| - 1] in rooms;
    var tunnel;
    ok, next, tunnel := AcceptLaterRoom(dungeon, rooms, tunnels, room, player, maxMonsters, maxItems, rng, start);
    tunnels' := tunnels + [tunnel];
    RoomsStateAppend(rooms, tunnels, player, dungeon.width, dungeon.height, roomMinSize, roomMaxSize, room, tunnel);
  }

  /** A later room that meets the sizes, lies inside the map, intersects no
      earlier room and is tunnelled to the previous one keeps `RoomsState`. */
  lemma RoomsStateAppend(rooms: seq<Room>, tunnels: seq<seq<Cell>>, player: Entity, width: int, height: int,
                         roomMinSize: int, roomMaxSize: int, room: Room, tunnel: seq<Cell>)
    requires RoomsState(rooms, tunnels, player, width, height, roomMinSize, roomMaxSize)
    requires |rooms| > 0 && NoneIntersect(rooms, room) && InsideMap(room, width, height)
    requires roomMinSize <= room.x2 - room.x1 <= roomMaxSize && roomMinSize <= room.y2 - room.y1 <= roomMaxSize
    requires IsTunnel(tunnel, Center(rooms[|rooms| - 1]), Center(room))
    ensures RoomsState(rooms + [room], tunnels + [tunnel], player, width, height, roomMinSize, roomMaxSize)
  {
    PairwiseDisjointAppend(rooms, room);
    LaterTunnels(rooms, tunnels, room, tunnel);
    assert (rooms + [room])[0] == rooms[0];
  }

  /** The first accepted room: carve it and put the player at its centre. */
  method AcceptFirstRoom(dungeon: GameMap, tunnels: seq<seq<Cell>>, player: Entity, room: Room,
                         roomMinSize: int, roomMaxSize: int)
    requires GenState(dungeon, [], tunnels, player, dungeon.width, dungeon.height, roomMinSize, roomMaxSize)
    requires InsideMap(room, dungeon.width, dungeon.height)
    requires roomMinSize <= room.x2 - room.x1 <= roomMaxSize && roomMinSize <= room.y2 - room.y1 <= roomMaxSize
    modifies dungeon.tiles, player`x, player`y
    ensures GenState(dungeon, [room], tunnels, player, dungeon.width, dungeon.height, roomMinSize, roomMaxSize)
  {
    CarveRoom(dungeon, [], tunnels, room);
    assert [] + [room] == [room];
    player.x, player.y := Center(room).0, Center(room).1;
  }

  lemma PairwiseDisjointAppend(rooms: seq<Room>, room: Room)
    requires PairwiseDisjoint(rooms) && NoneIntersect(rooms, room)
    ensures PairwiseDisjoint(rooms + [room])
  {
  }

  lemma LaterTunnels(rooms: seq<Room>, tunnels: seq<seq<Cell>>, room: Room, tunnel: seq<Cell>)
    requires |rooms| > 0 && |tunnels| == |rooms| - 1
    requires forall i | 1 <= i < |rooms| :: IsTunnel(tunnels[i - 1], Center(rooms[i - 1]), Center(rooms[i]))
    requires IsTunnel(tunnel, Center(rooms[|rooms| - 1]), Center(room))
    ensures var rs, ts := rooms + [room], tunnels + [tunnel];
      |ts| == |rs| - 1 && forall i | 1 <= i < |rs| :: IsTunnel(ts[i - 1], Center(rs[i - 1]), Center(rs[i]))
  {
    var rs, ts := rooms + [room], tunnels + [tunnel];
    forall i | 1 <= i < |rs|
      ensures IsTunnel(ts[i - 1], Center(rs[i - 1]), Center(rs[i]))
    {
      if i < |rooms| {
        assert ts[i - 1] == tunnels[i - 1] && rs[i - 1] == rooms[i - 1] && rs[i] == rooms[i];
      } else {
        assert ts[i - 1] == tunnel && rs[i - 1] == rooms[|rooms| - 1] && rs[i] == room;
      }
    }
  }

  /** `generate_dungeon`.  Each of the `maxRooms` attempts draws a size and a
      position and drops the room when it intersects an accepted one.  The
      first accepted room receives the player at its centre; every later one is
      tunnelled to the previous room and gets monsters and items.  The last
      room's centre becomes the down-stairs and the player is added last.
      `tunnels[i - 1]` is the tunnel dug for `rooms[i]`.  `ok` is false where
      `randint` raises ValueError. */
  method GenerateDungeon(mapWidth: nat, mapHeight: nat, maxRooms: int, roomMinSize: int, roomMaxSize: int,
                         player: Entity, maxMonsters: int, maxItems: int, rng: nat -> Fraction, start: nat)
    returns (dungeon: GameMap, rooms: seq<Room>, tunnels: seq<seq<Cell>>, ok: bool, next: nat)
    requires roomMinSize >= 0
    modifies player`x, player`y
    ensures fresh(dungeon) && dungeon.Valid() && dungeon.width == mapWidth && dungeon.height == mapHeight
    ensures next >= start && |rooms| <= Max(0, maxRooms)
    ensures PairwiseDisjoint(rooms)
    ensures forall r | r in rooms :: InsideMap(r, mapWidth, mapHeight)
    ensures forall r | r in rooms :: roomMinSize <= r.x2 - r.x1 <= roomMaxSize && roomMinSize <= r.y2 - r.y1 <= roomMaxSize
    ensures |rooms| > 0 ==> (player.x, player.y) == Center(rooms[0])
    ensures |rooms| == 0 ==> player.x == old(player.x) && player.y == old(player.y)
    ensures |tunnels| == Max(0, |rooms| - 1)
    ensures forall i | 1 <= i < |rooms| :: IsTunnel(tunnels[i - 1], Center(rooms[i - 1]), Center(rooms[i]))
    ensures ok ==> forall x, y | 0 <= x < mapWidth && 0 <= y < mapHeight ::
      dungeon.tiles[x, y] ==
        if |rooms| > 0 && (x, y) == Center(rooms[|rooms| - 1]) then StairsDown
        else if InSomeInner(rooms, (x, y)) || InSomeTunnel(tunnels, (x, y)) then Floor
        else Wall
    ensures ok ==> |dungeon.entities| > 0 && dungeon.entities[|dungeon.entities| - 1] == player
    ensures ok ==> forall i | 0 <= i < |dungeon.entities| - 1 ::
      var e := dungeon.entities[i]; e.kind == ActorEntity && InSomeInner(Later(rooms), (e.x, e.y))
    ensures ok ==> forall e | e in dungeon.items :: e.kind == ItemEntity && InSomeInner(Later(rooms), (e.x, e.y))
    ensures ok ==> DistinctPositions(dungeon.entities) && DistinctPositions(dungeon.items)
    ensures maxRooms > 0 && roomMaxSize < roomMinSize ==> !ok
    ensures (roomMinSize <= roomMaxSize && mapWidth > roomMaxSize && mapHeight > roomMaxSize
            && roomMinSize >= 2 && maxMonsters >= 0 && maxItems >= 0) ==> ok
  {
    dungeon, rooms, tunnels, ok, next := BuildRooms(mapWidth, mapHeight, maxRooms, roomMinSize, roomMaxSize,
                                                    player, maxMonsters, maxItems, rng, start);
    if ok {
      FinishDungeon(dungeon, rooms, tunnels, player, mapWidth, mapHeight, roomMinSize, roomMaxSize);
    }
  }

  /** The room loop of `generate_dungeon`. */
  method BuildRooms(mapWidth: nat, mapHeight: nat, maxRooms: int, roomMinSize: int, roomMaxSize: int,
                    player: Entity, maxMonsters: int, maxItems: int, rng: nat -> Fraction, start: nat)
    returns (dungeon: GameMap, rooms: seq<Room>, tunnels: seq<seq<Cell>>, ok: bool, next: nat)
    requires roomMinSize >= 0
    modifies player`x, player`y
    ensures fresh(dungeon) && fresh(dungeon.tiles)
    ensures next >= start && |rooms| <= Max(0, maxRooms)
    ensures dungeon.Valid() && dungeon.width == mapWidth && dungeon.height == mapHeight
    ensures RoomsState(rooms, tunnels, player, mapWidth, mapHeight, roomMinSize, roomMaxSize)
    ensures ok ==> GenState(dungeon, rooms, tunnels, player, mapWidth, mapHeight, roomMinSize, roomMaxSize)
    ensures |rooms| == 0 ==> player.x == old(player.x) && player.y == old(player.y)
    ensures maxRooms > 0 && roomMaxSize < roomMinSize ==> !ok
    ensures (roomMinSize <= roomMaxSize && mapWidth > roomMaxSize && mapHeight > roomMaxSize
            && roomMinSize >= 2 && maxMonsters >= 0 && maxItems >= 0) ==> ok
  {
    dungeon := new GameMap(mapWidth, mapHeight);
    rooms, tunnels := [], [];
    ok := true;
    next := start;
    var attempt := 0;
    while attempt < maxRooms
      invariant fresh(dungeon) && fresh(dungeon.tiles)
      invariant ok && next >= start && 0 <= attempt <= Max(0, maxRooms) && |rooms| <= attempt
      invariant attempt > 0 ==> roomMinSize <= roomMaxSize
      invariant GenState(dungeon, rooms, tunnels, player, mapWidth, mapHeight, roomMinSize, roomMaxSize)
      invariant |rooms| == 0 ==> player.x == old(player.x) && player.y == old(player.y)
    {
      var ok', next', rooms', tunnels' := TryRoom(dungeon, rooms, tunnels, player, roomMinSize, roomMaxSize,
                                                  maxMonsters, maxItems, rng, next);
      next := next';
      if !ok' {
        ok := false;
        return;
      }
      rooms, tunnels := rooms', tunnels';
      attempt := attempt + 1;
    }
  }

  /** The end of `generate_dungeon`: stairs at the last room's centre, then the player. */
  method FinishDungeon(dungeon: GameMap, rooms: seq<Room>, tunnels: seq<seq<Cell>>, player: Entity,
                       width: int, height: int, roomMinSize: int, roomMaxSize: int)
    requires roomMinSize >= 0
    requires GenState(dungeon, rooms, tunnels, player, width, height, roomMinSize, roomMaxSize)
    modifies dungeon.tiles, dungeon`entities
    ensures forall x, y | 0 <= x < width && 0 <= y < height ::
      dungeon.tiles[x, y] ==
        if |rooms| > 0 && (x, y) == Center(rooms[|rooms| - 1]) then StairsDown
        else if InSomeInner(rooms, (x, y)) || InSomeTunnel(tunnels, (x, y)) then Floor
        else Wall
    ensures dungeon.entities == old(dungeon.entities) + [player]
    ensures forall i | 0 <= i < |dungeon.entities| - 1 ::
      var e := dungeon.entities[i]; e.kind == ActorEntity && InSomeInner(Later(rooms), (e.x, e.y))
    ensures DistinctPositions(dungeon.entities)
  {
    if |rooms| > 0 {
      FirstRoomApart(rooms, (player.x, player.y));
    }
    PlaceStairs(dungeon, rooms, tunnels);
    AddPlayer(dungeon, rooms, player);
  }

  /** `dungeon.tiles[last_room.center] = stairs_down`. */
  method PlaceStairs(dungeon: GameMap, rooms: seq<Room>, tunnels: seq<seq<Cell>>)
    requires dungeon.Valid() && CarvedTiles(dungeon, rooms, tunnels)
    requires forall r | r in rooms :: InsideMap(r, dungeon.width, dungeon.height)
    modifies dungeon.tiles
    ensures forall x, y | 0 <= x < dungeon.width && 0 <= y < dungeon.height ::
      dungeon.tiles[x, y] ==
        if |rooms| > 0 && (x, y) == Center(rooms[|rooms| - 1]) then StairsDown
        else if InSomeInner(rooms, (x, y)) || InSomeTunnel(tunnels, (x, y)) then Floor
        else Wall
  {
    if |rooms| > 0 {
      var last := rooms[|rooms| - 1];
      assert last in rooms;
      var (sx, sy) := Center(last);
      dungeon.tiles[sx, sy] := StairsDown;
    }
  }

  /** `entities.append(player)`: the player joins after the monsters, on a cell
      none of them holds. */
  method AddPlayer(dungeon: GameMap, rooms: seq<Room>, player: Entity)
    requires Populated(dungeon, rooms, player) && !InSomeInner(Later(rooms), (player.x, player.y))
    modifies dungeon`entities
    ensures dungeon.entities == old(dungeon.entities) + [player]
    ensures forall i | 0 <= i < |dungeon.entities| - 1 ::
      var e := dungeon.entities[i]; e.kind == ActorEntity && InSomeInner(Later(rooms), (e.x, e.y))
    ensures DistinctPositions(dungeon.entities)
  {
    AppendKeepsDistinct(dungeon.entities, player);
    dungeon.AddEntity(player);
    forall i | 0 <= i < |dungeon.entities| - 1
      ensures dungeon.entities[i] in old(dungeon.entities)
    {
      assert dungeon.entities[i] == old(dungeon.entities)[i];
    }
  }
}
