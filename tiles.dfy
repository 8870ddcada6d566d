// Terrain tiles: the attribute table of src/systems/tile_types.py and the
// TILES table of web/game.js.  Colours are not modelled.

module Tiles {

  /** Every tile constant of the Python table; the browser's six tiles map onto
      Floor, Wall, WaterShallow (its WATER), Tree, Grass and StairsDown. */
  datatype Tile =
    | Shroud | Floor | Wall | DoorClosed | DoorOpen | StairsDown | StairsUp
    | Grass | TallGrass | Tree | WaterShallow | WaterDeep | Rock | Sand | Snow
    | Campfire | Trap | Road

  /** Whether an actor may stand on the tile. */
  function Walkable(t: Tile): bool
  {
    match t
    case Floor | DoorOpen | StairsDown | StairsUp | Grass | TallGrass | WaterShallow
       | Sand | Snow | Trap | Road => true
    case Shroud | Wall | DoorClosed | Tree | WaterDeep | Rock | Campfire => false
  }

  /** Whether light (a field-of-view ray) passes through the tile. */
  function Transparent(t: Tile): bool
  {
    match t
    case Floor | DoorOpen | StairsDown | StairsUp | Grass | WaterShallow | WaterDeep
       | Sand | Snow | Campfire | Trap | Road => true
    case Shroud | Wall | DoorClosed | TallGrass | Tree | Rock => false
  }

  /** The character the tile is drawn with. */
  function Glyph(t: Tile): char
  {
    match t
    case Shroud => ' '
    case Floor | Sand | Snow | Road => '.'
    case Wall => '#'
    case DoorClosed => '+'
    case DoorOpen => '-'
    case StairsDown => '>'
    case StairsUp => '<'
    case Grass | TallGrass => '"'
    case Tree => 'T'
    case WaterShallow | WaterDeep => '~'
    case Rock | Trap => '^'
    case Campfire => '*'
  }

  /** The tiles that can be both crossed and seen through. */
  const OpenTiles: set<Tile> :=
    {Floor, StairsDown, StairsUp, DoorOpen, Grass, WaterShallow, Sand, Snow, Trap, Road}

  /** The tiles that block both movement and sight. */
  const SolidTiles: set<Tile> := {Shroud, Wall, DoorClosed, Tree, Rock}

  lemma OpenTilesAreWalkableAndTransparent(t: Tile)
    ensures t in OpenTiles <==> Walkable(t) && Transparent(t)
  {}

  lemma SolidTilesBlockEverything(t: Tile)
    ensures t in SolidTiles <==> !Walkable(t) && !Transparent(t)
    ensures Glyph(Shroud) == ' '
  {}

  lemma TallGrassIsWalkableButOpaque(t: Tile)
    ensures Walkable(t) && !Transparent(t) <==> t == TallGrass
  {}

  lemma SeeThroughObstacles(t: Tile)
    ensures !Walkable(t) && Transparent(t) <==> t == WaterDeep || t == Campfire
  {}

  /** The browser table: FLOOR '.', WALL '#', WATER '~', TREE 'T', GRASS '"',
      STAIRS_DOWN '>', with the same walkable and transparent flags. */
  lemma WebTileTable()
    ensures Walkable(Floor) && Transparent(Floor) && Glyph(Floor) == '.'
    ensures !Walkable(Wall) && !Transparent(Wall) && Glyph(Wall) == '#'
    ensures Walkable(WaterShallow) && Transparent(WaterShallow) && Glyph(WaterShallow) == '~'
    ensures !Walkable(Tree) && !Transparent(Tree) && Glyph(Tree) == 'T'
    ensures Walkable(Grass) && Transparent(Grass) && Glyph(Grass) == '"'
    ensures Walkable(StairsDown) && Transparent(StairsDown) && Glyph(StairsDown) == '>'
  {}
}
