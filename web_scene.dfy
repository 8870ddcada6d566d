// The entity list `render3D` of web/game.js hands to the first-person
// renderer: the visible floor items first, then the visible corpses, then
// the visible living entities other than the player.  The flags the
// renderer reads are `isFloorItem` and `isCorpse`; `render3D` sets a flag
// `isFloor` instead, so as written no item and no corpse reaches the
// renderer as a floor item.  `SceneWith` builds the list both ways: as
// written, and with the flags under the names the renderer reads.  The
// character map and the compass `render3D` also builds are not modelled.

module WebScene {

  import opened Util
  import opened View3DOrder
  import View3D

  /** What `render3D` reads of an item on the map: its cell and `char`. */
  datatype MapItem = MapItem(x: int, y: int, glyph: string)

  /** What it reads of a map entity. */
  datatype MapActor = MapActor(x: int, y: int, glyph: char, alive: bool, npc: bool, isPlayer: bool)

  /** `item.char || '!'`. */
  function ItemGlyph(g: string): (c: char)
    ensures g == "" ==> c == '!'
    ensures g != "" ==> c == g[0]
  {
    if g == "" then '!' else g[0]
  }

  /** The object pushed for a visible item; `tagged` puts its floor flag
      under the name the renderer reads. */
  function ItemEntry(it: MapItem, tagged: bool): SceneEntity
  {
    SceneEntity(it.x, it.y, ItemGlyph(it.glyph), tagged, false, false, false)
  }

  /** The object pushed for a visible corpse, drawn with '%'. */
  function CorpseEntry(a: MapActor, tagged: bool): SceneEntity
  {
    SceneEntity(a.x, a.y, '%', tagged, false, false, tagged)
  }

  /** The object pushed for a visible living entity. */
  function LivingEntry(a: MapActor): SceneEntity
  {
    SceneEntity(a.x, a.y, a.glyph, false, false, false, false)
  }

  predicate Seen(visible: set<(int, int)>, x: int, y: int)
  {
    (x, y) in visible
  }

  predicate IsCorpse(a: MapActor, visible: set<(int, int)>)
  {
    !a.isPlayer && Seen(visible, a.x, a.y) && !a.alive && !a.npc
  }

  predicate IsLiving(a: MapActor, visible: set<(int, int)>)
  {
    !a.isPlayer && Seen(visible, a.x, a.y) && a.alive
  }

  /** The first loop of `render3D`: one entry per item on a visible cell, in
      the items' order. */
  function Items(items: seq<MapItem>, visible: set<(int, int)>, tagged: bool): (r: seq<SceneEntity>)
    ensures |r| <= |items|
    ensures forall it | it in items && Seen(visible, it.x, it.y) :: ItemEntry(it, tagged) in r
    ensures forall e | e in r :: exists it | it in items :: Seen(visible, it.x, it.y) && e == ItemEntry(it, tagged)
    decreases |items|
  {
    if items == [] then []
    else
      var last := items[|items| - 1];
      var init := items[..|items| - 1];
      assert items == init + [last];
      Items(init, visible, tagged) + if Seen(visible, last.x, last.y) then [ItemEntry(last, tagged)] else []
  }

  /** The second loop: one '%' entry per dead entity on a visible cell that
      is neither the player nor an NPC. */
  function Corpses(actors: seq<MapActor>, visible: set<(int, int)>, tagged: bool): (r: seq<SceneEntity>)
    ensures |r| <= |actors|
    ensures forall a | a in actors && IsCorpse(a, visible) :: CorpseEntry(a, tagged) in r
    ensures forall e | e in r :: exists a | a in actors :: IsCorpse(a, visible) && e == CorpseEntry(a, tagged)
    decreases |actors|
  {
    if actors == [] then []
    else
      var last := actors[|actors| - 1];
      var init := actors[..|actors| - 1];
      assert actors == init + [last];
      Corpses(init, visible, tagged) + if IsCorpse(last, visible) then [CorpseEntry(last, tagged)] else []
  }

  /** The third loop: one entry per living entity on a visible cell other
      than the player, with its own glyph. */
  function Living(actors: seq<MapActor>, visible: set<(int, int)>): (r: seq<SceneEntity>)
    ensures |r| <= |actors|
    ensures forall a | a in actors && IsLiving(a, visible) :: LivingEntry(a) in r
    ensures forall e | e in r :: exists a | a in actors :: IsLiving(a, visible) && e == LivingEntry(a)
    decreases |actors|
  {
    if actors == [] then []
    else
      var last := actors[|actors| - 1];
      var init := actors[..|actors| - 1];
      assert actors == init + [last];
      Living(init, visible) + if IsLiving(last, visible) then [LivingEntry(last)] else []
  }

  /** The `entities` list of `render3D`: floor items, then corpses, then the
      living. */
  function SceneWith(items: seq<MapItem>, actors: seq<MapActor>, visible: set<(int, int)>, tagged: bool): seq<SceneEntity>
  {
    Items(items, visible, tagged) + Corpses(actors, visible, tagged) + Living(actors, visible)
  }

  /** The list as `render3D` builds it, with `isFloor: true`. */
  function SceneAsWritten(items: seq<MapItem>, actors: seq<MapActor>, visible: set<(int, int)>): seq<SceneEntity>
  {
    SceneWith(items, actors, visible, false)
  }

  /** The list with `isFloorItem: true` on items and corpses and
      `isCorpse: true` on corpses, as the renderer reads them. */
  function Scene(items: seq<MapItem>, actors: seq<MapActor>, visible: set<(int, int)>): seq<SceneEntity>
  {
    SceneWith(items, actors, visible, true)
  }

  /** The flags change nothing else: both lists have the same entries in the
      same order at the same cells with the same glyphs. */
  lemma {:induction false} TaggingKeepsTheEntries(items: seq<MapItem>, actors: seq<MapActor>, visible: set<(int, int)>)
    ensures |Scene(items, actors, visible)| == |SceneAsWritten(items, actors, visible)|
    ensures forall i | 0 <= i < |Scene(items, actors, visible)| ::
      var (e, w) := (Scene(items, actors, visible)[i], SceneAsWritten(items, actors, visible)[i]);
      e.x == w.x && e.y == w.y && e.glyph == w.glyph && e.isFlying == w.isFlying && e.isGrounded == w.isGrounded
  {
    ItemsKeepTheirEntries(items, visible);
    CorpsesKeepTheirEntries(actors, visible);
  }

  lemma {:induction false} ItemsKeepTheirEntries(items: seq<MapItem>, visible: set<(int, int)>)
    ensures |Items(items, visible, true)| == |Items(items, visible, false)|
    ensures forall i | 0 <= i < |Items(items, visible, true)| ::
      Items(items, visible, true)[i] == Items(items, visible, false)[i].(isFloorItem := true)
    decreases |items|
  {
    if items != [] {
      ItemsKeepTheirEntries(items[..|items| - 1], visible);
    }
  }

  lemma {:induction false} CorpsesKeepTheirEntries(actors: seq<MapActor>, visible: set<(int, int)>)
    ensures |Corpses(actors, visible, true)| == |Corpses(actors, visible, false)|
    ensures forall i | 0 <= i < |Corpses(actors, visible, true)| ::
      Corpses(actors, visible, true)[i] == Corpses(actors, visible, false)[i].(isFloorItem := true, isCorpse := true)
    decreases |actors|
  {
    if actors != [] {
      CorpsesKeepTheirEntries(actors[..|actors| - 1], visible);
    }
  }

  /** As written, nothing in the list is a floor item or a corpse to the
      renderer: items and corpses are drawn as standing monsters. */
  lemma AsWrittenDrawsNoFloorItems(items: seq<MapItem>, actors: seq<MapActor>, visible: set<(int, int)>)
    ensures forall e | e in SceneAsWritten(items, actors, visible) :: !e.isFloorItem && !e.isCorpse
  {
  }

  /** With the flags the renderer reads, exactly the visible items and
      corpses are floor items, and exactly the corpses are corpses. */
  lemma CorrectedTagsFloorItems(items: seq<MapItem>, actors: seq<MapActor>, visible: set<(int, int)>)
    ensures forall e | e in Items(items, visible, true) :: e.isFloorItem && !e.isCorpse
    ensures forall e | e in Corpses(actors, visible, true) :: e.isFloorItem && e.isCorpse && e.glyph == '%'
    ensures forall e | e in Living(actors, visible) :: !e.isFloorItem && !e.isCorpse
    ensures forall it | it in items && Seen(visible, it.x, it.y) :: ItemEntry(it, true) in Scene(items, actors, visible)
    ensures forall a | a in actors && IsCorpse(a, visible) :: CorpseEntry(a, true) in Scene(items, actors, visible)
    ensures forall a | a in actors && IsLiving(a, visible) :: LivingEntry(a) in Scene(items, actors, visible)
  {
  }

  /** A dead goblin one cell ahead of a player facing north: as written the
      renderer draws it with the 'default' monster pattern, the seven rows
      of '?', where the corpse heap of `getFloorItemPattern` is meant. */
  lemma CorpseDrawnAsMonster()
    ensures var actors := [MapActor(5, 4, 'g', false, false, false)];
      var w := SceneAsWritten([], actors, {(5, 4)});
      var c := Scene([], actors, {(5, 4)});
      |w| == 1 && |c| == 1
      && View3D.SpritePattern(View3D.DefaultPatterns, Project(w[0], N, 5, 5)) == Some(View3D.DefaultPatterns["default"][5])
      && View3D.SpritePattern(View3D.DefaultPatterns, Project(c[0], N, 5, 5)) == Some(["  ___  ", " /%%%\\ ", " \\___/ "])
  {
    var actors := [MapActor(5, 4, 'g', false, false, false)];
    assert actors[..0] == [];
    assert Corpses(actors, {(5, 4)}, false) == [CorpseEntry(actors[0], false)];
    assert Corpses(actors, {(5, 4)}, true) == [CorpseEntry(actors[0], true)];
    assert Living(actors, {(5, 4)}) == [];
    assert ['%'] !in View3D.DefaultPatterns;
  }
}
