// The dungeon map of src/systems/game_map.py and the `GameMap` class of
// web/game.js: a width x height grid of tiles indexed [x, y], the visible and
// explored flags, the entity and item lists, the ray-marching field of view and
// the A* path search.

module GameMaps {

  import opened Util
  import opened Geometry
  import opened Tiles
  import opened Components

  /** Index of the first entity in `s[k..]` that blocks movement at (x, y), or -1. */
  function BlockingIndex(s: seq<Entity>, x: int, y: int, k: nat): (i: int)
    reads set e | e in s
    requires k <= |s|
    ensures i == -1 || k <= i < |s|
    ensures i == -1 <==> forall j :: k <= j < |s| ==> !(s[j].blocksMovement && s[j].x == x && s[j].y == y)
    ensures i >= 0 ==> s[i].blocksMovement && s[i].x == x && s[i].y == y
    ensures i >= 0 ==> forall j :: k <= j < i ==> !(s[j].blocksMovement && s[j].x == x && s[j].y == y)
    decreases |s| - k
  {
    if k == |s| then -1
    else if s[k].blocksMovement && s[k].x == x && s[k].y == y then k
    else BlockingIndex(s, x, y, k + 1)
  }

  /** Index of the first actor in `s[k..]` standing at (x, y), or -1.  Python
      tests `hasattr(entity, "fighter")` and JavaScript `instanceof Actor`;
      both hold exactly for actors. */
  function ActorIndex(s: seq<Entity>, x: int, y: int, k: nat): (i: int)
    reads set e | e in s
    requires k <= |s|
    ensures i == -1 || k <= i < |s|
    ensures i == -1 <==> forall j :: k <= j < |s| ==> !(s[j].kind == ActorEntity && s[j].x == x && s[j].y == y)
    ensures i >= 0 ==> s[i].kind == ActorEntity && s[i].x == x && s[i].y == y
    ensures i >= 0 ==> forall j :: k <= j < i ==> !(s[j].kind == ActorEntity && s[j].x == x && s[j].y == y)
    decreases |s| - k
  {
    if k == |s| then -1
    else if s[k].kind == ActorEntity && s[k].x == x && s[k].y == y then k
    else ActorIndex(s, x, y, k + 1)
  }

  /** `s` is `t` with some elements left out, order kept. */
  predicate Subsequence<T(==)>(s: seq<T>, t: seq<T>)
    decreases |t|
  {
    if s == [] then true
    else if t == [] then false
    else if s[0] == t[0] then Subsequence(s[1..], t[1..])
    else Subsequence(s, t[1..])
  }

  /** The items of `s` lying at (x, y), in list order. */
  function ItemsAt(s: seq<Entity>, x: int, y: int): (r: seq<Entity>)
    reads set e | e in s
    ensures forall e | e in r :: e in s && e.x == x && e.y == y
    ensures forall e | e in s && e.x == x && e.y == y :: e in r
    ensures Subsequence(r, s)
  {
    if s == [] then []
    else if s[0].x == x && s[0].y == y then [s[0]] + ItemsAt(s[1..], x, y)
    else ItemsAt(s[1..], x, y)
  }

  /** The footprint of an entity list together with the fighters it points at. */
  function Footprint(s: seq<Entity>): set<object>
    reads set e | e in s
  {
    (set e | e in s :: e as object) + (set e | e in s && e.fighter != null :: e.fighter as object)
  }

  lemma FootprintOfTail(s: seq<Entity>)
    requires s != []
    ensures Footprint(s[1..]) <= Footprint(s)
  {
    forall o | o in Footprint(s[1..])
      ensures o in Footprint(s)
    {
      if o in (set e | e in s[1..] :: e as object) {
        var e :| e in s[1..] && o == e as object;
        assert e in s;
      } else {
        var e :| e in s[1..] && e.fighter != null && o == e.fighter as object;
        assert e in s;
      }
    }
  }

  /** The live actors of `s`, in list order: `GameMap.actors`. */
  function AliveIn(s: seq<Entity>): (r: seq<Entity>)
    reads Footprint(s)
    ensures forall e | e in r :: e in s && e.IsAlive()
    ensures forall e | e in s && e.IsAlive() :: e in r
    ensures Subsequence(r, s)
  {
    if s == [] then []
    else
      FootprintOfTail(s);
      if s[0].IsAlive() then [s[0]] + AliveIn(s[1..]) else AliveIn(s[1..])
  }

  /** Python's `dist > radius`, compared squared. */
  predicate Beyond(c: Cell, center: Cell, radius: int)
  {
    Dist2(c, center) > radius * radius
  }

  /** The cells a ray marks, starting from its step `j`: it stops at the first
      cell out of bounds, at the first cell farther than `radius` when
      `limitByDistance` (Python's `dist > radius`, compared squared), after
      `radius` steps, and right after the first opaque cell. */
  function RayFrom(tiles: array2<Tile>, ray: seq<Cell>, j: nat, center: Cell, radius: int, limitByDistance: bool): (r: seq<Cell>)
    reads tiles
    decreases |ray| - j
  {
    if j >= |ray| || j >= radius then []
    else
      var c := ray[j];
      if !(0 <= c.0 < tiles.Length0 && 0 <= c.1 < tiles.Length1) then []
      else if limitByDistance && Beyond(c, center, radius) then []
      else if !Transparent(tiles[c.0, c.1]) then [c]
      else [c] + RayFrom(tiles, ray, j + 1, center, radius, limitByDistance)
  }

  /** One step of a ray: it stops before a cell out of bounds or out of range,
      marks the cell otherwise, and goes on past it when it is transparent. */
  lemma RayFromStep(tiles: array2<Tile>, ray: seq<Cell>, j: nat, center: Cell, radius: int, limit: bool)
    requires j < |ray| && j < radius
    ensures var c := ray[j];
      |RayFrom(tiles, ray, j, center, radius, limit)|
      == if !(0 <= c.0 < tiles.Length0 && 0 <= c.1 < tiles.Length1) || (limit && Beyond(c, center, radius)) then 0
         else if Transparent(tiles[c.0, c.1]) then 1 + |RayFrom(tiles, ray, j + 1, center, radius, limit)|
         else 1
  {
  }

  /** A ray marks a prefix of its cells. */
  lemma RayFromIsPrefix(tiles: array2<Tile>, ray: seq<Cell>, center: Cell, radius: int, limit: bool)
    ensures var r := RayFrom(tiles, ray, 0, center, radius, limit); |r| <= |ray| && r == ray[..|r|]
  {
    RayFromShape(tiles, ray, 0, center, radius, limit);
  }

  /** What a whole ray marks. */
  lemma {:induction false} RayFromShape(tiles: array2<Tile>, ray: seq<Cell>, j: nat, center: Cell, radius: int, limit: bool)
    ensures var r := RayFrom(tiles, ray, j, center, radius, limit);
      && |r| <= Max(0, Min(|ray|, radius) - j)
      && (forall i :: 0 <= i < |r| ==> j + i < |ray| && r[i] == ray[j + i])
      && (forall i :: 0 <= i < |r| ==> 0 <= r[i].0 < tiles.Length0 && 0 <= r[i].1 < tiles.Length1)
      && (forall i :: 0 <= i < |r| ==> !limit || Dist2(r[i], center) <= radius * radius)
      && (forall i :: 0 <= i < |r| - 1 ==> Transparent(tiles[r[i].0, r[i].1]))
    decreases |ray| - j
  {
    if j < |ray| && j < radius {
      var c := ray[j];
      if 0 <= c.0 < tiles.Length0 && 0 <= c.1 < tiles.Length1
         && !(limit && Beyond(c, center, radius)) && Transparent(tiles[c.0, c.1]) {
        RayFromShape(tiles, ray, j + 1, center, radius, limit);
      }
    }
  }

  /** The cells marked by the first `k` rays. */
  function LitBy(tiles: array2<Tile>, rays: seq<seq<Cell>>, k: nat, center: Cell, radius: int, limit: bool): set<Cell>
    reads tiles
    requires k <= |rays|
  {
    if k == 0 then {}
    else
      var r := RayFrom(tiles, rays[k - 1], 0, center, radius, limit);
      LitBy(tiles, rays, k - 1, center, radius, limit) + (set c | c in r)
  }

  /** The A* neighbour order of `get_path`. */
  const Neighbors: seq<Cell> := [(0, -1), (0, 1), (-1, 0), (1, 0), (-1, -1), (-1, 1), (1, -1), (1, 1)]

  /** Move costs scaled by ten: 1.0 straight, 1.4 diagonal. */
  function StepCost(d: Cell): (c: int)
    ensures c >= 10
  {
    if d.0 != 0 && d.1 != 0 then 14 else 10
  }

  /** Manhattan distance, scaled by ten like the costs. */
  function Heuristic(a: Cell, b: Cell): nat
  {
    10 * (Abs(a.0 - b.0) + Abs(a.1 - b.1))
  }

  /** A heap entry `(f_score, cell)`. */
  type Entry = (int, Cell)

  /** Python's tuple order on `(f, (x, y))`. */
  predicate EntryLeq(a: Entry, b: Entry)
  {
    a.0 < b.0 || (a.0 == b.0 && (a.1.0 < b.1.0 || (a.1.0 == b.1.0 && a.1.1 <= b.1.1)))
  }

  /** Where `heapq.heappop` takes its element from: a least entry. */
  function MinIndex(h: seq<Entry>): (k: nat)
    requires |h| > 0
    ensures k < |h|
    ensures forall j :: 0 <= j < |h| ==> EntryLeq(h[k], h[j])
  {
    if |h| == 1 then 0
    else
      var k := 1 + MinIndex(h[1..]);
      assert forall j :: 1 <= j < |h| ==> h[j] == h[1..][j - 1];
      if EntryLeq(h[0], h[k]) then 0 else k
  }

  class GameMap {
    const width: int
    const height: int
    const tiles: array2<Tile>
    const visible: array2<bool>
    const explored: array2<bool>
    var entities: seq<Entity>
    var items: seq<Entity>

    ghost predicate Valid()
      reads this
    {
      && 0 <= width && 0 <= height
      && tiles.Length0 == width && tiles.Length1 == height
      && visible.Length0 == width && visible.Length1 == height
      && explored.Length0 == width && explored.Length1 == height
      && visible != explored
    }

    /** `GameMap(width, height)`: all wall, nothing visible or explored, no entities. */
    constructor (width: nat, height: nat)
      ensures Valid() && this.width == width && this.height == height
      ensures fresh(tiles) && fresh(visible) && fresh(explored)
      ensures forall x, y | 0 <= x < width && 0 <= y < height :: tiles[x, y] == Wall
      ensures forall x, y | 0 <= x < width && 0 <= y < height :: !visible[x, y] && !explored[x, y]
      ensures entities == [] && items == []
    {
      this.width, this.height := width, height;
      tiles := new Tile[width, height]((x, y) => Wall);
      visible := new bool[width, height]((x, y) => false);
      explored := new bool[width, height]((x, y) => false);
      entities, items := [], [];
    }

    /** `in_bounds` / `inBounds`. */
    predicate InBounds(x: int, y: int)
    {
      0 <= x < width && 0 <= y < height
    }

    function EntitySet(): set<Entity>
      reads this
    {
      set e | e in entities
    }

    /** `get_blocking_entity_at`: the first blocking entity at (x, y), if any. */
    function GetBlockingEntityAt(x: int, y: int): (r: Entity?)
      reads this, EntitySet()
      ensures r == null <==> forall e | e in entities :: !(e.blocksMovement && e.x == x && e.y == y)
      ensures r != null ==> r in entities && r.blocksMovement && r.x == x && r.y == y
    {
      var i := BlockingIndex(entities, x, y, 0);
      if i < 0 then null
      else entities[i]
    }

    /** `is_walkable` / `isWalkable`: in bounds, a walkable tile, and no blocking entity there. */
    predicate IsWalkable(x: int, y: int)
      requires Valid()
      reads this, tiles, EntitySet()
      ensures IsWalkable(x, y) <==>
        && InBounds(x, y) && Walkable(tiles[x, y])
        && forall e | e in entities :: !(e.blocksMovement && e.x == x && e.y == y)
    {
      InBounds(x, y) && Walkable(tiles[x, y]) && GetBlockingEntityAt(x, y) == null
    }

    /** `get_actor_at` / `getActorAt`: the first actor at (x, y), if any. */
    function GetActorAt(x: int, y: int): (r: Entity?)
      reads this, EntitySet()
      ensures r == null <==> forall e | e in entities :: !(e.kind == ActorEntity && e.x == x && e.y == y)
      ensures r != null ==> r in entities && r.kind == ActorEntity && r.x == x && r.y == y
      ensures r != null ==> exists i | 0 <= i < |entities| ::
        entities[i] == r && forall j | 0 <= j < i :: !(entities[j].kind == ActorEntity && entities[j].x == x && entities[j].y == y)
    {
      var i := ActorIndex(entities, x, y, 0);
      if i < 0 then null
      else entities[i]
    }

    /** `get_items_at` / `getItemsAt`. */
    function GetItemsAt(x: int, y: int): (r: seq<Entity>)
      reads this, set e | e in items
      ensures forall e | e in r :: e in items && e.x == x && e.y == y
      ensures forall e | e in items && e.x == x && e.y == y :: e in r
      ensures Subsequence(r, items)
    {
      ItemsAt(items, x, y)
    }

    /** `actors`: the live actors, in list order. */
    function Actors(): (r: seq<Entity>)
      reads this, Footprint(entities)
      ensures forall e | e in r :: e in entities && e.IsAlive()
      ensures forall e | e in entities && e.IsAlive() :: e in r
    {
      AliveIn(entities)
    }

    method AddEntity(e: Entity)
      modifies this`entities
      ensures entities == old(entities) + [e]
    {
      entities := entities + [e];
    }

    /** `remove_entity` / `removeEntity`: the first occurrence goes; absent is a no-op. */
    method RemoveEntity(e: Entity)
      modifies this`entities
      ensures entities == RemoveFirst(old(entities), e)
      ensures e !in old(entities) ==> entities == old(entities)
      ensures multiset(entities) == multiset(old(entities)) - multiset{e}
    {
      RemoveFirstAbsent(entities, e);
      RemoveFirstMultiset(entities, e);
      entities := RemoveFirst(entities, e);
    }

    method AddItem(item: Entity)
      modifies this`items
      ensures items == old(items) + [item]
    {
      items := items + [item];
    }

    /** `remove_item` / `removeItem`. */
    method RemoveItem(item: Entity)
      modifies this`items
      ensures items == RemoveFirst(old(items), item)
      ensures item !in old(items) ==> items == old(items)
      ensures multiset(items) == multiset(old(items)) - multiset{item}
    {
      RemoveFirstAbsent(items, item);
      RemoveFirstMultiset(items, item);
      items := RemoveFirst(items, item);
    }

    /** The flags of `a` are those of `a0` with the first `n` cells of `ray` set. */
    static ghost predicate SetOver(a: array2<bool>, a0: seq<seq<bool>>, ray: seq<Cell>, n: nat)
      reads a
    {
      && n <= |ray|
      && |a0| == a.Length0
      && (forall x | 0 <= x < a.Length0 :: |a0[x]| == a.Length1)
      && forall x, y | 0 <= x < a.Length0 && 0 <= y < a.Length1 :: a[x, y] == (a0[x][y] || (x, y) in ray[..n])
    }

    /** The flags of `a` as values. */
    static ghost function Flags(a: array2<bool>, ray: seq<Cell>): (r: seq<seq<bool>>)
      reads a
      ensures SetOver(a, r, ray, 0)
    {
      seq(a.Length0, x requires 0 <= x < a.Length0 reads a => seq(a.Length1, y requires 0 <= y < a.Length1 reads a => a[x, y]))
    }

    /** Sets the visible and explored flags of the next cell of the ray. */
    static method Mark(visible: array2<bool>, explored: array2<bool>, ray: seq<Cell>, n: nat,
                       ghost v0: seq<seq<bool>>, ghost e0: seq<seq<bool>>)
      requires visible != explored
      requires n < |ray| && 0 <= ray[n].0 < visible.Length0 && 0 <= ray[n].1 < visible.Length1
      requires visible.Length0 == explored.Length0 && visible.Length1 == explored.Length1
      requires SetOver(visible, v0, ray, n) && SetOver(explored, e0, ray, n)
      modifies visible, explored
      ensures SetOver(visible, v0, ray, n + 1) && SetOver(explored, e0, ray, n + 1)
    {
      visible[ray[n].0, ray[n].1] := true;
      explored[ray[n].0, ray[n].1] := true;
      assert ray[..n + 1] == ray[..n] + [ray[n]];
    }

    /** `_cast_ray`: marks visible and explored every cell of `RayFrom(ray, 0)`. */
    method CastRay(center: Cell, ray: seq<Cell>, radius: int, limitByDistance: bool)
      requires Valid()
      modifies visible, explored
      ensures forall x, y | 0 <= x < width && 0 <= y < height ::
        visible[x, y] == (old(visible[x, y]) || (x, y) in RayFrom(tiles, ray, 0, center, radius, limitByDistance))
      ensures forall x, y | 0 <= x < width && 0 <= y < height ::
        explored[x, y] == (old(explored[x, y]) || (x, y) in RayFrom(tiles, ray, 0, center, radius, limitByDistance))
    {
      ghost var v0, e0 := Flags(visible, ray), Flags(explored, ray);
      ghost var lit := RayFrom(tiles, ray, 0, center, radius, limitByDistance);
      RayFromIsPrefix(tiles, ray, center, radius, limitByDistance);
      var n := MarkRay(tiles, visible, explored, center, ray, radius, limitByDistance, v0, e0);
      assert lit == ray[..n];
    }

    /** The loop of `_cast_ray` over the three grids; `n` is the number of cells marked. */
    static method MarkRay(tiles: array2<Tile>, visible: array2<bool>, explored: array2<bool>, center: Cell, ray: seq<Cell>,
                          radius: int, limitByDistance: bool, ghost v0: seq<seq<bool>>, ghost e0: seq<seq<bool>>)
      returns (n: nat)
      requires visible != explored
      requires visible.Length0 == explored.Length0 == tiles.Length0 && visible.Length1 == explored.Length1 == tiles.Length1
      requires SetOver(visible, v0, ray, 0) && SetOver(explored, e0, ray, 0)
      modifies visible, explored
      ensures n == |RayFrom(tiles, ray, 0, center, radius, limitByDistance)|
      ensures SetOver(visible, v0, ray, n) && SetOver(explored, e0, ray, n)
    {
      ghost var total := |RayFrom(tiles, ray, 0, center, radius, limitByDistance)|;
      var j := 0;
      while j < radius && j < |ray|
        invariant 0 <= j <= |ray|
        invariant total == j + |RayFrom(tiles, ray, j, center, radius, limitByDistance)|
        invariant SetOver(visible, v0, ray, j) && SetOver(explored, e0, ray, j)
      {
        var c := ray[j];
        RayFromStep(tiles, ray, j, center, radius, limitByDistance);
        if !(0 <= c.0 < tiles.Length0 && 0 <= c.1 < tiles.Length1) || (limitByDistance && Beyond(c, center, radius)) {
          return j;
        }
        Mark(visible, explored, ray, j, v0, e0);
        if !Transparent(tiles[c.0, c.1]) {
          return j + 1;
        }
        j := j + 1;
      }
      return j;
    }

    /** `compute_fov` / `computeFOV`: clears every visible flag, marks the
        observer's cell, then casts every given ray.  The browser version has no
        distance cut-off (`limitByDistance` false); the Python one does. */
    method ComputeFov(cx: int, cy: int, radius: int, rays: seq<seq<Cell>>, limitByDistance: bool)
      requires Valid() && InBounds(cx, cy)
      modifies visible, explored
      ensures forall x, y | 0 <= x < width && 0 <= y < height ::
        visible[x, y] == ((x, y) == (cx, cy) || (x, y) in LitBy(tiles, rays, |rays|, (cx, cy), radius, limitByDistance))
      ensures forall x, y | 0 <= x < width && 0 <= y < height ::
        explored[x, y] == (old(explored[x, y]) || visible[x, y])
    {
      for x := 0 to width
        invariant forall i, j | 0 <= i < x && 0 <= j < height :: !visible[i, j]
        invariant forall i, j | 0 <= i < width && 0 <= j < height :: explored[i, j] == old(explored[i, j])
      {
        for y := 0 to height
          invariant forall i, j | 0 <= i < x && 0 <= j < height :: !visible[i, j]
          invariant forall j | 0 <= j < y :: !visible[x, j]
          invariant forall i, j | 0 <= i < width && 0 <= j < height :: explored[i, j] == old(explored[i, j])
        {
          visible[x, y] := false;
        }
      }
      visible[cx, cy] := true;
      explored[cx, cy] := true;
      for k := 0 to |rays|
        invariant forall x, y | 0 <= x < width && 0 <= y < height ::
          visible[x, y] == ((x, y) == (cx, cy) || (x, y) in LitBy(tiles, rays, k, (cx, cy), radius, limitByDistance))
        invariant forall x, y | 0 <= x < width && 0 <= y < height ::
          explored[x, y] == (old(explored[x, y]) || visible[x, y])
      {
        CastRay((cx, cy), rays[k], radius, limitByDistance);
      }
    }

    /** `get_path`: A* from start to goal over tiles that are in bounds and
        walkable (entities are ignored), with `fuel` bounding the number of
        heap pops.  A non-empty result is a chain of king moves from start's
        neighbour to goal over walkable cells. */
    method GetPath(start: Cell, goal: Cell, fuel: nat) returns (path: seq<Cell>)
      requires Valid()
      ensures path != [] ==> path[|path| - 1] == goal && Adjacent8(start, path[0])
      ensures forall i :: 0 <= i < |path| - 1 ==> Adjacent8(path[i], path[i + 1])
      ensures forall c | c in path :: InBounds(c.0, c.1) && Walkable(tiles[c.0, c.1])
      ensures start !in path
      ensures goal == start ==> path == []
    {
      var heap: seq<Entry> := [(0, start)];
      var cameFrom: map<Cell, Cell> := map[];
      var g: map<Cell, int> := map[start := 0];
      var steps := fuel;
      while heap != [] && steps > 0
        invariant start in g && g[start] == 0 && start !in cameFrom
        invariant forall c | c in g :: g[c] >= 0
        invariant forall c | c in cameFrom :: PathLink(start, c, cameFrom, g)
        invariant forall i | 0 <= i < |heap| :: heap[i].1 in g && (heap[i].1 == start || heap[i].1 in cameFrom)
        decreases steps
      {
        steps := steps - 1;
        var k := MinIndex(heap);
        var current := heap[k].1;
        heap := heap[..k] + heap[k + 1..];
        if current == goal {
          path := Reconstruct(start, goal, cameFrom, g);
          return;
        }
        for n := 0 to |Neighbors|
          invariant start in g && g[start] == 0 && start !in cameFrom
          invariant forall c | c in g :: g[c] >= 0
          invariant current in g && (current == start || current in cameFrom)
          invariant forall c | c in cameFrom :: PathLink(start, c, cameFrom, g)
          invariant forall i | 0 <= i < |heap| :: heap[i].1 in g && (heap[i].1 == start || heap[i].1 in cameFrom)
        {
          var d := Neighbors[n];
          var nb := (current.0 + d.0, current.1 + d.1);
          if InBounds(nb.0, nb.1) && Walkable(tiles[nb.0, nb.1]) {
            var tentative := g[current] + StepCost(d);
            if nb !in g || tentative < g[nb] {
              assert nb != start;
              assert Adjacent8(current, nb);
              cameFrom := cameFrom[nb := current];
              g := g[nb := tentative];
              heap := heap + [(tentative + Heuristic(nb, goal), nb)];
            }
          }
        }
      }
      path := [];
    }

    /** One `came_from` edge: `c` is a walkable cell reached by a king move from
        a parent with a smaller g-score, and the parent is start or has a parent. */
    ghost predicate PathLink(start: Cell, c: Cell, cameFrom: map<Cell, Cell>, g: map<Cell, int>)
      requires Valid()
      requires c in cameFrom
      reads this, tiles
    {
      && c in g && cameFrom[c] in g && g[cameFrom[c]] < g[c]
      && Adjacent8(cameFrom[c], c)
      && InBounds(c.0, c.1) && Walkable(tiles[c.0, c.1])
      && (cameFrom[c] == start || cameFrom[c] in cameFrom)
    }

    /** The reconstruction loop of `get_path`: follow `came_from` back from the
        goal and return the cells in forward order, start excluded. */
    method Reconstruct(start: Cell, goal: Cell, cameFrom: map<Cell, Cell>, g: map<Cell, int>) returns (path: seq<Cell>)
      requires Valid()
      requires goal in g && (goal == start || goal in cameFrom)
      requires start !in cameFrom
      requires forall c | c in g :: g[c] >= 0
      requires forall c | c in cameFrom :: PathLink(start, c, cameFrom, g)
      ensures path != [] ==> path[|path| - 1] == goal && Adjacent8(start, path[0])
      ensures forall i :: 0 <= i < |path| - 1 ==> Adjacent8(path[i], path[i + 1])
      ensures forall c | c in path :: InBounds(c.0, c.1) && Walkable(tiles[c.0, c.1])
      ensures start !in path
      ensures goal == start ==> path == []
    {
      var cur := goal;
      path := [];
      while cur in cameFrom
        invariant cur in g && (cur == start || cur in cameFrom)
        invariant path == [] ==> cur == goal
        invariant path != [] ==> path[|path| - 1] == goal && path[0] in cameFrom && cameFrom[path[0]] == cur
        invariant forall i :: 1 <= i < |path| ==> path[i] in cameFrom && cameFrom[path[i]] == path[i - 1]
        invariant forall c | c in path :: c in cameFrom
        decreases g[cur]
      {
        path := [cur] + path;
        cur := cameFrom[cur];
      }
      forall i | 0 <= i < |path| - 1
        ensures Adjacent8(path[i], path[i + 1])
      {
        assert PathLink(start, path[i + 1], cameFrom, g);
      }
      forall c | c in path
        ensures InBounds(c.0, c.1) && Walkable(tiles[c.0, c.1])
      {
        assert PathLink(start, c, cameFrom, g);
      }
      if path != [] {
        assert PathLink(start, path[0], cameFrom, g);
      }
    }
  }
}
