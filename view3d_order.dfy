// The geometry and the sprite order of the first-person view of
// web/view3d.js: the facing directions and their side vectors, the
// projection of entities into the view (`drawEntities`' dot products), the
// depth sort, the grouping by position and the order in which the groups'
// sprites are drawn.

module View3DOrder {

  import opened Ranking

  /** `maxDepth`: how many cells ahead the view reaches. */
  const MaxDepth := 4

  /** `facing`: 'N', 'S', 'E' or 'W'. */
  datatype Facing = N | S | E | W

  datatype Vec = Vec(dx: int, dy: int)

  function Dot(a: Vec, b: Vec): int
  {
    a.dx * b.dx + a.dy * b.dy
  }

  /** `directions[facing]`, with y growing downwards. */
  function Direction(f: Facing): Vec
  {
    match f
    case N => Vec(0, -1)
    case S => Vec(0, 1)
    case E => Vec(1, 0)
    case W => Vec(-1, 0)
  }

  /** `sideVectors[facing].left`. */
  function LeftOf(f: Facing): Vec
  {
    match f
    case N => Vec(-1, 0)
    case S => Vec(1, 0)
    case E => Vec(0, -1)
    case W => Vec(0, 1)
  }

  /** `sideVectors[facing].right`. */
  function RightOf(f: Facing): Vec
  {
    match f
    case N => Vec(1, 0)
    case S => Vec(-1, 0)
    case E => Vec(0, 1)
    case W => Vec(0, -1)
  }

  /** The side tables agree with the direction table: the direction is one
      step along one axis, left is minus right, and right is the direction
      turned a quarter clockwise on the screen. */
  lemma SideVectorsAreOpposite(f: Facing)
    ensures (Direction(f).dx == 0) != (Direction(f).dy == 0)
    ensures -1 <= Direction(f).dx <= 1 && -1 <= Direction(f).dy <= 1
    ensures LeftOf(f) == Vec(-RightOf(f).dx, -RightOf(f).dy)
    ensures RightOf(f) == Vec(-Direction(f).dy, Direction(f).dx)
  {
  }

  /** Both side vectors are perpendicular to the facing direction. */
  lemma SideVectorsArePerpendicular(f: Facing)
    ensures Dot(LeftOf(f), Direction(f)) == 0
    ensures Dot(RightOf(f), Direction(f)) == 0
  {
    match f
    case N =>
    case S =>
    case E =>
    case W =>
  }

  /** One element of the `entities` argument of `render`. */
  datatype SceneEntity = SceneEntity(x: int, y: int, glyph: char, isFloorItem: bool,
                                     isFlying: bool, isGrounded: bool, isCorpse: bool)

  /** `{...entity, depth, sideDist}`: an entity placed in the view. */
  datatype Sprite = Sprite(glyph: char, isFloorItem: bool, isFlying: bool, isGrounded: bool,
                           isCorpse: bool, depth: int, sideDist: int)

  /** `forwardDist`: the entity's offset along the facing direction. */
  function Forward(e: SceneEntity, f: Facing, px: int, py: int): int
  {
    Dot(Vec(e.x - px, e.y - py), Direction(f))
  }

  /** `sideDist`: the entity's offset along the right-hand vector. */
  function Sideways(e: SceneEntity, f: Facing, px: int, py: int): int
  {
    Dot(Vec(e.x - px, e.y - py), RightOf(f))
  }

  predicate InView(e: SceneEntity, f: Facing, px: int, py: int)
  {
    0 < Forward(e, f, px, py) <= MaxDepth
  }

  function Project(e: SceneEntity, f: Facing, px: int, py: int): Sprite
  {
    Sprite(e.glyph, e.isFloorItem, e.isFlying, e.isGrounded, e.isCorpse,
           Forward(e, f, px, py), Sideways(e, f, px, py))
  }

  /** The first loop of `drawEntities`: the entities in view, in their order,
      each with its depth and side offset. */
  function VisibleSprites(es: seq<SceneEntity>, f: Facing, px: int, py: int): (r: seq<Sprite>)
    ensures |r| <= |es|
    ensures forall i | 0 <= i < |r| :: 1 <= r[i].depth <= MaxDepth
  {
    if es == [] then []
    else
      var e := es[|es| - 1];
      VisibleSprites(es[..|es| - 1], f, px, py) + (if InView(e, f, px, py) then [Project(e, f, px, py)] else [])
  }

  /** A sprite is in view exactly when it is the projection of an entity at
      a forward distance in 1..MaxDepth. */
  lemma {:induction false} VisibleSpritesAreTheEntitiesInView(es: seq<SceneEntity>, f: Facing, px: int, py: int)
    ensures forall s :: s in VisibleSprites(es, f, px, py) <==>
      exists e | e in es :: InView(e, f, px, py) && s == Project(e, f, px, py)
  {
    if es != [] {
      var init := es[..|es| - 1];
      VisibleSpritesAreTheEntitiesInView(init, f, px, py);
      assert es == init + [es[|es| - 1]];
      forall s
        ensures s in VisibleSprites(es, f, px, py) <==>
          exists e | e in es :: InView(e, f, px, py) && s == Project(e, f, px, py)
      {
        if s in VisibleSprites(init, f, px, py) {
          var e :| e in init && InView(e, f, px, py) && s == Project(e, f, px, py);
          assert e in es;
        }
      }
    }
  }

  /** The grouping key `${depth},${Math.round(sideDist * 10)}`; for integral
      offsets it determines the depth and the side offset. */
  function Key(s: Sprite): (int, int)
  {
    (s.depth, s.sideDist)
  }

  /** The keys of `positionGroups`, in insertion order: each key once, in the
      order of its first sprite. */
  function FirstKeys(v: seq<Sprite>): (r: seq<(int, int)>)
    ensures forall k :: multiset(r)[k] <= 1
  {
    if v == [] then []
    else
      var rest := FirstKeys(v[..|v| - 1]);
      var k := Key(v[|v| - 1]);
      if k in rest then rest else rest + [k]
  }

  /** Every sprite's key is among the group keys. */
  lemma {:induction false} FirstKeysCover(v: seq<Sprite>, i: int)
    requires 0 <= i < |v|
    ensures Key(v[i]) in FirstKeys(v)
  {
    var init := v[..|v| - 1];
    if i < |v| - 1 {
      FirstKeysCover(init, i);
      assert init[i] == v[i];
    }
  }

  /** Every group key is the key of some sprite. */
  lemma {:induction false} FirstKeysSound(v: seq<Sprite>, k: (int, int))
    requires k in FirstKeys(v)
    ensures exists i | 0 <= i < |v| :: Key(v[i]) == k
  {
    var init := v[..|v| - 1];
    if k in FirstKeys(init) {
      FirstKeysSound(init, k);
      var i :| 0 <= i < |init| && Key(init[i]) == k;
      assert v[i] == init[i];
    } else {
      assert Key(v[|v| - 1]) == k;
    }
  }

  /** One `drawEntity(buffer, sprite, spread)` call; `spreadSteps` is ten
      times `spread`, so that `(i - (n - 1) / 2) * 0.2` is `2i - n + 1`. */
  datatype DrawCall = DrawCall(sprite: Sprite, spreadSteps: int)

  function Sprites(calls: seq<DrawCall>): (r: seq<Sprite>)
    ensures |r| == |calls|
    ensures forall i | 0 <= i < |calls| :: r[i] == calls[i].sprite
  {
    seq(|calls|, i requires 0 <= i < |calls| => calls[i].sprite)
  }

  lemma SpritesAppend(a: seq<DrawCall>, b: seq<DrawCall>)
    ensures Sprites(a + b) == Sprites(a) + Sprites(b)
  {
  }

  /** The floor items of a group, spread around the group's centre. */
  function FloorCalls(fs: seq<Sprite>): (r: seq<DrawCall>)
    ensures Sprites(r) == fs
    ensures forall i | 0 <= i < |r| :: r[i].spreadSteps == 2 * i - |fs| + 1
  {
    seq(|fs|, i requires 0 <= i < |fs| => DrawCall(fs[i], 2 * i - |fs| + 1))
  }

  /** The main entities of a group, unspread. */
  function MainCalls(ms: seq<Sprite>): (r: seq<DrawCall>)
    ensures Sprites(r) == ms
    ensures forall i | 0 <= i < |r| :: r[i].spreadSteps == 0
  {
    seq(|ms|, i requires 0 <= i < |ms| => DrawCall(ms[i], 0))
  }

  function FloorGroup(sorted: seq<Sprite>, k: (int, int)): seq<Sprite>
  {
    Filter(sorted, s => Key(s) == k && s.isFloorItem)
  }

  function MainGroup(sorted: seq<Sprite>, k: (int, int)): seq<Sprite>
  {
    Filter(sorted, s => Key(s) == k && !s.isFloorItem)
  }

  /** The calls for one key: `group.floor` first, then `group.main`. */
  function Block(sorted: seq<Sprite>, k: (int, int)): seq<DrawCall>
  {
    FloorCalls(FloorGroup(sorted, k)) + MainCalls(MainGroup(sorted, k))
  }

  /** The calls of the final loop of `drawEntities` over `keys`. */
  function Draws(sorted: seq<Sprite>, keys: seq<(int, int)>): seq<DrawCall>
  {
    if keys == [] then [] else Block(sorted, keys[0]) + Draws(sorted, keys[1..])
  }

  /** The depth-sorted sprites: `visibleEntities.sort((a, b) => b.depth - a.depth)`. */
  function DepthSorted(visible: seq<Sprite>): seq<Sprite>
  {
    ByRank(visible, SpriteDepth, MaxDepth)
  }

  function SpriteDepth(s: Sprite): int
  {
    s.depth
  }

  function KeyDepth(k: (int, int)): int
  {
    k.0
  }

  /** `sortedKeys`: the group keys sorted by depth, farthest first. */
  function SortedKeys(sorted: seq<Sprite>): seq<(int, int)>
  {
    ByRank(FirstKeys(sorted), KeyDepth, MaxDepth)
  }

  /** Every `drawEntity` call of `drawEntities`, in order. */
  function DrawOrder(visible: seq<Sprite>): seq<DrawCall>
  {
    var sorted := DepthSorted(visible);
    Draws(sorted, SortedKeys(sorted))
  }

  function CallDepth(c: DrawCall): int
  {
    c.sprite.depth
  }

  /** Every call of a block is for the block's key. */
  lemma BlockKeys(sorted: seq<Sprite>, k: (int, int))
    ensures forall i | 0 <= i < |Block(sorted, k)| :: Key(Block(sorted, k)[i].sprite) == k
  {
    var fl, mn := FloorCalls(FloorGroup(sorted, k)), MainCalls(MainGroup(sorted, k));
    forall i | 0 <= i < |Block(sorted, k)|
      ensures Key(Block(sorted, k)[i].sprite) == k
    {
      if i < |fl| {
        assert Block(sorted, k)[i].sprite == FloorGroup(sorted, k)[i];
      } else {
        assert Block(sorted, k)[i].sprite == MainGroup(sorted, k)[i - |fl|];
      }
    }
  }

  /** Within a block the floor items come first. */
  lemma BlockFloorFirst(sorted: seq<Sprite>, k: (int, int))
    ensures forall i, j | 0 <= i < j < |Block(sorted, k)| ::
      Block(sorted, k)[j].sprite.isFloorItem ==> Block(sorted, k)[i].sprite.isFloorItem
  {
    var fl, mn := FloorCalls(FloorGroup(sorted, k)), MainCalls(MainGroup(sorted, k));
    forall i | 0 <= i < |Block(sorted, k)|
      ensures i < |fl| <==> Block(sorted, k)[i].sprite.isFloorItem
    {
      if i < |fl| {
        assert Block(sorted, k)[i].sprite == FloorGroup(sorted, k)[i];
      } else {
        assert Block(sorted, k)[i].sprite == MainGroup(sorted, k)[i - |fl|];
      }
    }
  }

  /** A block holds the sprites of its key, as often as the sorted list does. */
  lemma BlockMultiset(sorted: seq<Sprite>, k: (int, int))
    ensures forall x :: multiset(Sprites(Block(sorted, k)))[x] == if Key(x) == k then multiset(sorted)[x] else 0
  {
    SpritesAppend(FloorCalls(FloorGroup(sorted, k)), MainCalls(MainGroup(sorted, k)));
    assert Sprites(Block(sorted, k)) == FloorGroup(sorted, k) + MainGroup(sorted, k);
  }

  /** In a list without repeats the head is not in the tail, and the tail
      has no repeats. */
  lemma DistinctTail<K>(keys: seq<K>)
    requires keys != [] && forall k :: multiset(keys)[k] <= 1
    ensures keys[0] !in keys[1..]
    ensures forall k :: multiset(keys[1..])[k] <= 1
  {
    assert keys == [keys[0]] + keys[1..];
    assert multiset(keys) == multiset{keys[0]} + multiset(keys[1..]);
    assert multiset(keys)[keys[0]] <= 1;
    assert forall k :: multiset(keys[1..])[k] <= multiset(keys)[k];
  }

  /** Over distinct keys, the draw calls hold each sprite whose key is listed,
      as often as the sorted list does. */
  lemma {:induction false} DrawsMultiset(sorted: seq<Sprite>, keys: seq<(int, int)>)
    requires forall k :: multiset(keys)[k] <= 1
    ensures forall x :: multiset(Sprites(Draws(sorted, keys)))[x] == if Key(x) in keys then multiset(sorted)[x] else 0
  {
    if keys != [] {
      DistinctTail(keys);
      DrawsMultiset(sorted, keys[1..]);
      BlockMultiset(sorted, keys[0]);
      SpritesAppend(Block(sorted, keys[0]), Draws(sorted, keys[1..]));
    }
  }

  /** Every call is for one of the keys. */
  lemma {:induction false} DrawsKeys(sorted: seq<Sprite>, keys: seq<(int, int)>)
    ensures forall i | 0 <= i < |Draws(sorted, keys)| :: Key(Draws(sorted, keys)[i].sprite) in keys
  {
    if keys != [] {
      DrawsKeys(sorted, keys[1..]);
      BlockKeys(sorted, keys[0]);
      var b, rest := Block(sorted, keys[0]), Draws(sorted, keys[1..]);
      var all: seq<DrawCall> := b + rest;
      assert Draws(sorted, keys) == all;
      forall i | 0 <= i < |all|
        ensures Key(all[i].sprite) in keys
      {
        if i >= |b| {
          assert all[i] == rest[i - |b|];
          assert Key(rest[i - |b|].sprite) in keys[1..];
        }
      }
    } else {
      assert Draws(sorted, keys) == [];
    }
  }

  /** Keys sorted farthest first give calls sorted farthest first. */
  lemma {:induction false} DrawsDepthOrder(sorted: seq<Sprite>, keys: seq<(int, int)>)
    requires RankSorted(keys, KeyDepth)
    ensures RankSorted(Draws(sorted, keys), CallDepth)
  {
    if keys != [] {
      assert RankSorted(keys[1..], KeyDepth) by {
        forall i, j | 0 <= i < j < |keys[1..]| ensures KeyDepth(keys[1..][i]) >= KeyDepth(keys[1..][j]) {
          assert keys[1..][i] == keys[i + 1] && keys[1..][j] == keys[j + 1];
        }
      }
      DrawsDepthOrder(sorted, keys[1..]);
      DrawsKeys(sorted, keys[1..]);
      BlockKeys(sorted, keys[0]);
      var b, rest := Block(sorted, keys[0]), Draws(sorted, keys[1..]);
      assert Draws(sorted, keys) == b + rest;
      forall i | 0 <= i < |rest|
        ensures CallDepth(rest[i]) <= keys[0].0
      {
        var k := Key(rest[i].sprite);
        assert k in keys[1..];
        var m :| 0 <= m < |keys[1..]| && keys[1..][m] == k;
        assert keys[m + 1] == k;
        assert KeyDepth(keys[0]) >= KeyDepth(keys[m + 1]);
      }
      forall i | 0 <= i < |b| ensures CallDepth(b[i]) == keys[0].0 {
        assert Key(b[i].sprite) == keys[0];
      }
      SortedAppend(b, rest, CallDepth, keys[0].0);
    } else {
      assert Draws(sorted, keys) == [];
    }
  }

  /** Over distinct keys, of two calls for the same key a floor item is
      never drawn after a main entity. */
  lemma {:induction false} DrawsFloorFirst(sorted: seq<Sprite>, keys: seq<(int, int)>)
    requires forall k :: multiset(keys)[k] <= 1
    ensures forall i, j | 0 <= i < j < |Draws(sorted, keys)| ::
      (Key(Draws(sorted, keys)[i].sprite) == Key(Draws(sorted, keys)[j].sprite)
       && Draws(sorted, keys)[j].sprite.isFloorItem) ==> Draws(sorted, keys)[i].sprite.isFloorItem
  {
    if keys != [] {
      DistinctTail(keys);
      DrawsFloorFirst(sorted, keys[1..]);
      DrawsKeys(sorted, keys[1..]);
      BlockKeys(sorted, keys[0]);
      BlockFloorFirst(sorted, keys[0]);
      var b, rest := Block(sorted, keys[0]), Draws(sorted, keys[1..]);
      assert Draws(sorted, keys) == b + rest;
      forall j | 0 <= j < |rest|
        ensures Key(rest[j].sprite) != keys[0]
      {
        assert Key(rest[j].sprite) in keys[1..];
      }
    } else {
      assert Draws(sorted, keys) == [];
    }
  }

  /** The sorted keys are distinct. */
  lemma SortedKeysDistinct(sorted: seq<Sprite>)
    ensures forall k :: multiset(SortedKeys(sorted))[k] <= 1
  {
    ByRankKeepsDistinct(FirstKeys(sorted), KeyDepth, MaxDepth);
  }

  /** A sprite of the depth-sorted list has its key among the sorted keys. */
  lemma SortedKeysCover(sorted: seq<Sprite>, i: int)
    requires 0 <= i < |sorted| && 1 <= sorted[i].depth <= MaxDepth
    ensures Key(sorted[i]) in SortedKeys(sorted)
  {
    var fk, k := FirstKeys(sorted), Key(sorted[i]);
    FirstKeysCover(sorted, i);
    assert multiset(fk)[k] > 0;
    assert 1 <= KeyDepth(k) <= MaxDepth;
    assert multiset(SortedKeys(sorted))[k] == multiset(fk)[k];
  }

  /** The depth sort keeps every sprite in view as often as it occurs. */
  lemma DepthSortKeeps(visible: seq<Sprite>, x: Sprite)
    requires forall i | 0 <= i < |visible| :: 1 <= visible[i].depth <= MaxDepth
    requires x in visible
    ensures multiset(DepthSorted(visible))[x] == multiset(visible)[x] > 0
  {
    var j :| 0 <= j < |visible| && visible[j] == x;
    assert 1 <= SpriteDepth(x) <= MaxDepth;
  }

  /** A sprite of the depth-sorted list has its key listed. */
  lemma SortedSpriteIsKeyed(sorted: seq<Sprite>, x: Sprite)
    requires x in multiset(sorted) && 1 <= x.depth <= MaxDepth
    ensures Key(x) in SortedKeys(sorted)
  {
    var k :| 0 <= k < |sorted| && sorted[k] == x;
    SortedKeysCover(sorted, k);
  }

  /** A sprite is drawn as often as it is in view. */
  lemma DrawnAsOftenAsVisible(visible: seq<Sprite>, x: Sprite)
    requires forall i | 0 <= i < |visible| :: 1 <= visible[i].depth <= MaxDepth
    ensures multiset(Sprites(DrawOrder(visible)))[x] == multiset(visible)[x]
  {
    var sorted := DepthSorted(visible);
    var keys := SortedKeys(sorted);
    SortedKeysDistinct(sorted);
    DrawsMultiset(sorted, keys);
    if x in visible {
      DepthSortKeeps(visible, x);
      var j :| 0 <= j < |visible| && visible[j] == x;
      SortedSpriteIsKeyed(sorted, x);
    } else {
      assert multiset(sorted)[x] == 0;
    }
  }

  /** Every sprite in view is drawn exactly once. */
  lemma DrawOrderIsPermutation(visible: seq<Sprite>)
    requires forall i | 0 <= i < |visible| :: 1 <= visible[i].depth <= MaxDepth
    ensures multiset(Sprites(DrawOrder(visible))) == multiset(visible)
  {
    var drawn := multiset(Sprites(DrawOrder(visible)));
    forall x ensures drawn[x] == multiset(visible)[x] {
      DrawnAsOftenAsVisible(visible, x);
    }
    assert drawn == multiset(visible);
  }

  /** The draw order of `drawEntities` is farthest first (`RankSorted` by
      depth), and at one position the floor items come before the entities
      standing there, so a nearer sprite is drawn over a farther one. */
  lemma DrawOrderIsFarthestFirst(visible: seq<Sprite>)
    ensures RankSorted(DrawOrder(visible), CallDepth)
    ensures forall i, j | 0 <= i < j < |DrawOrder(visible)| ::
      (Key(DrawOrder(visible)[i].sprite) == Key(DrawOrder(visible)[j].sprite)
       && DrawOrder(visible)[j].sprite.isFloorItem) ==> DrawOrder(visible)[i].sprite.isFloorItem
  {
    var sorted := DepthSorted(visible);
    var keys := SortedKeys(sorted);
    SortedKeysDistinct(sorted);
    DrawsDepthOrder(sorted, keys);
    DrawsFloorFirst(sorted, keys);
  }

  /** The floor items and the main entities of a group of the depth-sorted
      list are in view. */
  lemma GroupDepths(sorted: seq<Sprite>, key: (int, int))
    requires forall i | 0 <= i < |sorted| :: 1 <= sorted[i].depth <= MaxDepth
    ensures forall i | 0 <= i < |FloorGroup(sorted, key)| :: 1 <= FloorGroup(sorted, key)[i].depth <= MaxDepth
    ensures forall i | 0 <= i < |MainGroup(sorted, key)| :: 1 <= MainGroup(sorted, key)[i].depth <= MaxDepth
  {
    forall i | 0 <= i < |FloorGroup(sorted, key)| ensures 1 <= FloorGroup(sorted, key)[i].depth <= MaxDepth {
      var x := FloorGroup(sorted, key)[i];
      assert multiset(FloorGroup(sorted, key))[x] > 0;
      assert x in sorted;
    }
    forall i | 0 <= i < |MainGroup(sorted, key)| ensures 1 <= MainGroup(sorted, key)[i].depth <= MaxDepth {
      var x := MainGroup(sorted, key)[i];
      assert multiset(MainGroup(sorted, key))[x] > 0;
      assert x in sorted;
    }
  }
  /** The calls for any keys are at depths in view. */
  lemma {:induction false} DrawsInView(sorted: seq<Sprite>, keys: seq<(int, int)>)
    requires forall i | 0 <= i < |sorted| :: 1 <= sorted[i].depth <= MaxDepth
    ensures forall i | 0 <= i < |Draws(sorted, keys)| :: 1 <= Draws(sorted, keys)[i].sprite.depth <= MaxDepth
  {
    if keys != [] {
      var b := Block(sorted, keys[0]);
      GroupDepths(sorted, keys[0]);
      var fs, ms := FloorGroup(sorted, keys[0]), MainGroup(sorted, keys[0]);
      assert forall i | 0 <= i < |b| :: 1 <= b[i].sprite.depth <= MaxDepth by {
        forall i | 0 <= i < |b| ensures 1 <= b[i].sprite.depth <= MaxDepth {
          if i < |fs| {
            assert b[i] == FloorCalls(fs)[i];
            assert Sprites(FloorCalls(fs))[i] == fs[i];
          } else {
            assert b[i] == MainCalls(ms)[i - |fs|];
            assert Sprites(MainCalls(ms))[i - |fs|] == ms[i - |fs|];
          }
        }
      }
      DrawsInView(sorted, keys[1..]);
    }
  }

  /** The depth-sorted list keeps only sprites at depths in view. */
  lemma DepthSortedInView(visible: seq<Sprite>)
    ensures forall i | 0 <= i < |DepthSorted(visible)| :: 1 <= DepthSorted(visible)[i].depth <= MaxDepth
  {
    assert forall i | 0 <= i < |DepthSorted(visible)| :: 1 <= SpriteDepth(DepthSorted(visible)[i]) <= MaxDepth;
  }

  /** Every call of the draw order is at a depth in view. */
  lemma DrawOrderInView(visible: seq<Sprite>)
    ensures forall i | 0 <= i < |DrawOrder(visible)| :: 1 <= DrawOrder(visible)[i].sprite.depth <= MaxDepth
  {
    DepthSortedInView(visible);
    DrawsInView(DepthSorted(visible), SortedKeys(DepthSorted(visible)));
  }
}
