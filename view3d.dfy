// The first-person renderer of web/view3d.js, `ASCII3DRenderer`, as the
// game creates it: 50 columns by 18 rows (web/game.js:517).  Its mutable
// state is the facing; a frame is an `array2<char>` indexed [row, column]
// (the colours of the source's cells are not modelled).  Its fractional
// arithmetic is taken over exact reals; module BrowserGeometry redoes it in
// doubles and shows where the two agree and where they do not.

module View3D {

  import opened Util
  import opened Ranking
  import opened View3DOrder

  const ScreenWidth := 50
  const ScreenHeight := 18

  /** The map handed to `render`: rows of tile characters, `gameMap[y][x]`. */
  type Grid = seq<seq<char>>

  // ---- facing -------------------------------------------------------------

  /** `dirMap` of `setPlayerDirection`. */
  function DirectionFor(name: string): (r: Option<Facing>)
    ensures r.Some? <==> name in {"up", "down", "left", "right", "N", "S", "E", "W"}
  {
    if name == "up" || name == "N" then Some(N)
    else if name == "down" || name == "S" then Some(S)
    else if name == "left" || name == "W" then Some(W)
    else if name == "right" || name == "E" then Some(E)
    else None
  }

  /** The screen words name the facing whose direction points that way. */
  lemma DirectionWordsPointThatWay()
    ensures Direction(DirectionFor("up").value) == Vec(0, -1)
    ensures Direction(DirectionFor("down").value) == Vec(0, 1)
    ensures Direction(DirectionFor("left").value) == Vec(-1, 0)
    ensures Direction(DirectionFor("right").value) == Vec(1, 0)
  {
  }

  /** The facing after `setAngleFromMovement(dx, dy)`. */
  function FacingAfterMove(f: Facing, dx: int, dy: int): Facing
  {
    if dx > 0 then E
    else if dx < 0 then W
    else if dy > 0 then S
    else if dy < 0 then N
    else f
  }

  /** A horizontal step wins: the view turns to the step's horizontal
      direction; a vertical step turns it that way; no step keeps it. */
  lemma FacingFollowsTheStep(f: Facing, dx: int, dy: int)
    ensures dx != 0 ==> Direction(FacingAfterMove(f, dx, dy)) == Vec(Sign(dx), 0)
    ensures dx == 0 && dy != 0 ==> Direction(FacingAfterMove(f, dx, dy)) == Vec(0, Sign(dy))
    ensures dx == 0 && dy == 0 ==> FacingAfterMove(f, dx, dy) == f
  {
  }

  // ---- map probes ---------------------------------------------------------

  predicate OnGrid(g: Grid, x: int, y: int)
  {
    0 <= y < |g| && 0 <= x < |g[0]|
  }

  /** `isWall`: off the map counts as wall; a row shorter than the first
      reads as no tile. */
  predicate IsWall(g: Grid, x: int, y: int)
  {
    !OnGrid(g, x, y) || (x < |g[y]| && (g[y][x] == '#' || g[y][x] == '+'))
  }

  /** `isDoor`. */
  predicate IsDoor(g: Grid, x: int, y: int)
  {
    OnGrid(g, x, y) && x < |g[y]| && g[y][x] == '+'
  }

  /** Off the map is wall and no door, a door is a wall, and on a rectangular
      map a cell is a wall exactly when it holds '#' or '+'. */
  lemma DoorsAreWalls(g: Grid, x: int, y: int)
    ensures !OnGrid(g, x, y) ==> IsWall(g, x, y) && !IsDoor(g, x, y)
    ensures IsDoor(g, x, y) ==> IsWall(g, x, y)
    ensures OnGrid(g, x, y) && |g[y]| == |g[0]| ==> (IsWall(g, x, y) <==> g[y][x] in {'#', '+'})
  {
  }

  /** The three cells layer `depth` of `drawDepthLayer` looks at. */
  datatype Probe = Probe(depth: int, front: (int, int), left: (int, int), right: (int, int))

  function ProbeAt(f: Facing, px: int, py: int, depth: int): Probe
  {
    var d, l, r := Direction(f), LeftOf(f), RightOf(f);
    var front := (px + d.dx * depth, py + d.dy * depth);
    Probe(depth, front, (front.0 + l.dx, front.1 + l.dy), (front.0 + r.dx, front.1 + r.dy))
  }

  /** The front cell lies `depth` steps straight ahead, and the side cells are
      its two neighbours across the line of sight, one on each side. */
  lemma ProbesFlankTheFront(f: Facing, px: int, py: int, depth: int)
    ensures Forward(SceneEntity(ProbeAt(f, px, py, depth).front.0, ProbeAt(f, px, py, depth).front.1,
                                ' ', false, false, false, false), f, px, py) == depth
    ensures Sideways(SceneEntity(ProbeAt(f, px, py, depth).front.0, ProbeAt(f, px, py, depth).front.1,
                                 ' ', false, false, false, false), f, px, py) == 0
    ensures ProbeAt(f, px, py, depth).left.0 + ProbeAt(f, px, py, depth).right.0 == 2 * ProbeAt(f, px, py, depth).front.0
    ensures ProbeAt(f, px, py, depth).left.1 + ProbeAt(f, px, py, depth).right.1 == 2 * ProbeAt(f, px, py, depth).front.1
    ensures Sideways(SceneEntity(ProbeAt(f, px, py, depth).right.0, ProbeAt(f, px, py, depth).right.1,
                                 ' ', false, false, false, false), f, px, py) == 1
  {
    match f
    case N =>
    case S =>
    case E =>
    case W =>
  }

  // ---- viewports ----------------------------------------------------------

  datatype Rect = Rect(left: int, right: int, top: int, bottom: int)

  /** `viewports[depth]` as (l, r, t, b) fractions of the screen. */
  function Fractions(depth: int): (real, real, real, real)
    requires 0 <= depth <= MaxDepth
  {
    [(0.0, 1.0, 0.0, 1.0), (0.15, 0.85, 0.15, 0.85), (0.28, 0.72, 0.28, 0.72),
     (0.38, 0.62, 0.38, 0.62), (0.45, 0.55, 0.45, 0.55)][depth]
  }

  /** The viewport in cells: `Math.floor(vp.l * this.width)` and so on. */
  function Viewport(depth: int): Rect
    requires 0 <= depth <= MaxDepth
  {
    var (l, r, t, b) := Fractions(depth);
    Rect((l * ScreenWidth as real).Floor, (r * ScreenWidth as real).Floor,
         (t * ScreenHeight as real).Floor, (b * ScreenHeight as real).Floor)
  }

  /** `viewWidth` of `drawEntity`: `(vp.r - vp.l) * this.width`. */
  function ViewWidth(depth: int): real
    requires 0 <= depth <= MaxDepth
  {
    var (l, r, _, _) := Fractions(depth);
    (r - l) * ScreenWidth as real
  }

  /** The viewports on the 50 x 18 screen: each lies strictly inside the one
      before, and all lie on the screen. */
  lemma ViewportsNest()
    ensures Viewport(0) == Rect(0, 50, 0, 18)
    ensures Viewport(1) == Rect(7, 42, 2, 15)
    ensures Viewport(2) == Rect(14, 36, 5, 12)
    ensures Viewport(3) == Rect(19, 31, 6, 11)
    ensures Viewport(4) == Rect(22, 27, 8, 9)
    ensures forall d | 1 <= d <= MaxDepth ::
      Viewport(d - 1).left < Viewport(d).left < Viewport(d).right < Viewport(d - 1).right
      && Viewport(d - 1).top < Viewport(d).top < Viewport(d).bottom < Viewport(d - 1).bottom
  {
    assert Viewport(1) == Rect(7, 42, 2, 15);
    assert Viewport(2) == Rect(14, 36, 5, 12);
    assert Viewport(3) == Rect(19, 31, 6, 11);
    assert Viewport(4) == Rect(22, 27, 8, 9);
  }

  predicate InRect(v: Rect, y: int, x: int)
  {
    v.top <= y < v.bottom && v.left <= x < v.right
  }

  // ---- cell characters ----------------------------------------------------

  /** `distFromMid` of `drawBackground`: `Math.abs(y - midY) / midY`, with
      `midY` half the height. */
  function HorizonDistance(y: int): real
  {
    var midY := ScreenHeight / 2;
    Abs(y - midY) as real / midY as real
  }

  /** `drawBackground`: '░' far from the horizon, '·' nearer, blank at the
      horizon, by the distance against 0.6 and 0.3. */
  function BackgroundChar(y: int): char
  {
    var dist := HorizonDistance(y);
    if dist > 0.6 then '░' else if dist > 0.3 then '·' else ' '
  }

  /** The background is symmetric about the horizon; on the screen it is
      blank exactly on the five rows about the horizon and '░' exactly from
      six rows away from it. */
  lemma BackgroundIsSymmetric(y: int)
    ensures BackgroundChar(y) == BackgroundChar(ScreenHeight - y)
    ensures BackgroundChar(ScreenHeight / 2) == ' '
    ensures 0 <= y < ScreenHeight ==> (BackgroundChar(y) == ' ' <==> 7 <= y <= 11)
    ensures 0 <= y < ScreenHeight ==> (BackgroundChar(y) == '░' <==> y <= 3 || y >= 15)
  {
    if 0 <= y < ScreenHeight {
      var k := Abs(y - ScreenHeight / 2);
      assert BackgroundChar(y) == BackgroundChar(ScreenHeight / 2 + k);
      assert k in {0, 1, 2, 3, 4, 5, 6, 7, 8, 9};
    }
  }

  /** The character `drawFrontWall` puts at (x, y) of viewport `v`. */
  function FrontWallChar(v: Rect, depth: int, isDoor: bool, x: int, y: int): char
  {
    var isTop, isBottom := y == v.top, y == v.bottom - 1;
    var isLeft, isRight := x == v.left, x == v.right - 1;
    var face := if depth <= 1 then '█' else if depth <= 2 then '▓' else '▒';
    var edged := if isTop || isBottom then '═' else if isLeft || isRight then '║' else face;
    var striped := if !isTop && !isBottom && (y == v.top + 2 || y == v.bottom - 3) then '─' else edged;
    if isDoor && !isTop && !isBottom && !isLeft && !isRight then
      var doorWidth := (v.right - v.left) / 2;
      var doorStart := v.left + (v.right - v.left - doorWidth) / 2;
      var doorEnd := doorStart + doorWidth;
      var doorTop := v.top + 2;
      if doorStart <= x < doorEnd && y > doorTop then
        var panel := if depth <= 2 then '▒' else '░';
        var framed := if x == doorStart || x == doorEnd - 1 then '│' else panel;
        var lintel := if y == doorTop + 1 then '─' else framed;
        if x == doorEnd - 2 && y == (v.top + v.bottom) / 2 && depth <= 2 then '●' else lintel
      else striped
    else striped
  }

  /** The wall's outline: its top and bottom rows are '═', and the side
      columns between them '║' where no stripe or door is drawn. */
  lemma FrontWallOutline(v: Rect, depth: int, isDoor: bool, x: int, y: int)
    requires v.top + 3 <= v.bottom
    ensures y == v.top || y == v.bottom - 1 ==> FrontWallChar(v, depth, isDoor, x, y) == '═'
    ensures y != v.top && y != v.bottom - 1 && y != v.top + 2 && y != v.bottom - 3 && (x == v.left || x == v.right - 1)
            ==> FrontWallChar(v, depth, isDoor, x, y) == '║'
  {
  }

  // ---- sprite patterns ----------------------------------------------------

  /** `scaleLevel` of `drawEntity`. */
  function ScaleLevel(depth: int): (r: int)
    ensures 2 <= r <= 5
  {
    if depth <= 1 then 5 else if depth <= 2 then 4 else if depth <= 3 then 3 else 2
  }

  /** Nearer sprites are drawn at least as large. */
  lemma ScaleLevelFalls(d1: int, d2: int)
    requires d1 <= d2
    ensures ScaleLevel(d1) >= ScaleLevel(d2)
    ensures ScaleLevel(d1) == 5 <==> d1 <= 1
  {
  }

  /** `asciiScalePatterns`: for each glyph (or 'default'), the pattern rows
      at each scale level. */
  type PatternTable = map<string, map<int, seq<string>>>

  /** `getDefaultPatterns()`. */
  const DefaultPatterns: PatternTable := map[
    "g" := map[
      5 := ["  ▄▄▄  ", " █░░░█ ", " █◕_◕█ ", "  ███  ", " ▄███▄ ", " █ g █ ", " ▀   ▀ "],
      4 := [" ▄▄▄ ", " █▪█ ", "  █  ", " ▄█▄ ", " ▀ ▀ "],
      3 := [" ▄ ", "█g█", " ▀ "],
      2 := ["▄▄", "▀▀"],
      1 := ["g"]],
    "o" := map[
      5 := [" ▄███▄ ", "██◕▄◕██", " █▀▀▀█ ", "▄█████▄", "██ o ██", "█▀   ▀█", "▀     ▀"],
      4 := [" ▄█▄ ", "█▪▄▪█", " ███ ", "█▀o▀█", "▀   ▀"],
      3 := ["▄█▄", "█o█", "▀▀▀"],
      2 := ["██", "▀▀"],
      1 := ["o"]],
    "default" := map[
      5 := ["  ▄▄▄  ", " █???█ ", " █   █ ", "  ███  ", " █   █ ", " █ ? █ ", " ▀   ▀ "],
      4 := [" ▄▄▄ ", " █?█ ", "  █  ", " █?█ ", " ▀ ▀ "],
      3 := [" ▄ ", "█?█", " ▀ "],
      2 := ["??", "▀▀"],
      1 := ["?"]]
  ]

  /** `getEntityPattern(char, scaleLevel)`: the glyph's own set or else the
      'default' set, at the scale or else at scale 1; None when neither set
      or neither scale is there. */
  function EntityPattern(table: PatternTable, glyph: char, scale: int): (r: Option<seq<string>>)
    ensures [glyph] in table && scale in table[[glyph]] ==> r == Some(table[[glyph]][scale])
    ensures [glyph] !in table && "default" !in table ==> r == None
    ensures r.Some? ==> exists name, s | name in table && s in table[name] :: r.value == table[name][s]
  {
    var found := if [glyph] in table then Some(table[[glyph]]) else if "default" in table then Some(table["default"]) else None;
    match found
    case None => None
    case Some(set_) => if scale in set_ then Some(set_[scale]) else if 1 in set_ then Some(set_[1]) else None
  }

  /** With the default table every glyph has a non-empty pattern at every
      scale: an unknown glyph falls back to the 'default' set, a missing
      scale to scale 1. */
  lemma DefaultPatternsFallBack(glyph: char, scale: int)
    ensures EntityPattern(DefaultPatterns, glyph, scale).Some? && |EntityPattern(DefaultPatterns, glyph, scale).value| > 0
    ensures glyph != 'g' && glyph != 'o' ==> EntityPattern(DefaultPatterns, glyph, scale) == EntityPattern(DefaultPatterns, '?', scale)
    ensures !(1 <= scale <= 5) ==> EntityPattern(DefaultPatterns, glyph, scale) == EntityPattern(DefaultPatterns, glyph, 1)
    ensures EntityPattern(DefaultPatterns, glyph, 1) == Some([[if glyph == 'g' || glyph == 'o' then glyph else '?']])
  {
    assert [glyph] == "g" <==> glyph == 'g';
    assert [glyph] == "o" <==> glyph == 'o';
    assert [glyph] != "default";
    assert ['?'] !in DefaultPatterns;
  }

  /** After `addMonsterPattern(key, patterns)` the glyph `key` is drawn with
      the new patterns, and with 'default' untouched every other glyph is
      drawn as before. */
  lemma AddedPatternIsUsed(table: PatternTable, key: string, pats: map<int, seq<string>>, glyph: char, scale: int)
    ensures [glyph] == key && scale in pats ==> EntityPattern(table[key := pats], glyph, scale) == Some(pats[scale])
    ensures [glyph] != key && key != "default" ==> EntityPattern(table[key := pats], glyph, scale) == EntityPattern(table, glyph, scale)
  {
  }

  /** `getFloorItemPattern(entity, scaleLevel)`. */
  function FloorItemPattern(glyph: char, isCorpse: bool, scale: int): seq<string>
  {
    if isCorpse then
      if scale >= 4 then ["  ___  ", " /%%%\\ ", " \\___/ "]
      else if scale >= 3 then [" _%_ ", " \\%/ "]
      else ["%"]
    else
      if scale >= 4 then [" [" + [glyph] + "] "]
      else if scale >= 3 then ["[" + [glyph] + "]"]
      else [[glyph]]
  }

  /** A floor item shows its own glyph in one row; a corpse a '%' heap. */
  lemma FloorItemPatternShowsTheGlyph(glyph: char, isCorpse: bool, scale: int)
    ensures |FloorItemPattern(glyph, isCorpse, scale)| > 0
    ensures !isCorpse ==> |FloorItemPattern(glyph, isCorpse, scale)| == 1 && glyph in FloorItemPattern(glyph, isCorpse, scale)[0]
    ensures isCorpse ==> '%' in FloorItemPattern(glyph, isCorpse, scale)[|FloorItemPattern(glyph, isCorpse, scale)| / 2]
  {
    if isCorpse && scale >= 4 {
      assert FloorItemPattern(glyph, isCorpse, scale)[1][2] == '%';
    } else if isCorpse && scale >= 3 {
      assert FloorItemPattern(glyph, isCorpse, scale)[1][2] == '%';
    } else if !isCorpse && scale >= 4 {
      assert FloorItemPattern(glyph, isCorpse, scale)[0][2] == glyph;
    } else if !isCorpse && scale >= 3 {
      assert FloorItemPattern(glyph, isCorpse, scale)[0][1] == glyph;
    }
  }

  /** The pattern `drawEntity` blits for a sprite, or None for none. */
  function SpritePattern(table: PatternTable, s: Sprite): Option<seq<string>>
  {
    var scale := ScaleLevel(s.depth);
    if s.isFloorItem then Some(FloorItemPattern(s.glyph, s.isCorpse, scale)) else EntityPattern(table, s.glyph, scale)
  }

  // ---- sprite placement ---------------------------------------------------

  /** `startY` of `drawEntity`: centred on the horizon, raised for flyers,
      lowered by 35% of the screen for floor items, and standing on the
      viewport's floor line for grounded entities. */
  function SpriteTop(s: Sprite, p: seq<string>): int
    requires 0 <= s.depth <= MaxDepth
  {
    var midY := ScreenHeight / 2;
    var yOffset :=
      if s.isFlying then -((|p| as real * 0.6).Floor)
      else if s.isFloorItem then (ScreenHeight as real * 0.35).Floor
      else if s.isGrounded then (Viewport(s.depth).bottom - 1) - (midY + |p| / 2)
      else 0;
    midY - |p| / 2 + yOffset
  }

  /** `startX` of `drawEntity`: the screen centre moved by the side offset
      and by the spread, less half the pattern's first row. */
  function SpriteLeft(c: DrawCall, p: seq<string>): int
    requires 0 <= c.sprite.depth <= MaxDepth && |p| > 0
  {
    ScreenWidth / 2 + SideOffset(c.sprite.depth, c.sprite.sideDist)
      + SpreadPixels(c.sprite.depth, c.spreadSteps) - |p[0]| / 2
  }

  /** `sideOffset` of `drawEntity`: `Math.floor(entity.sideDist * viewWidth * 0.4)`. */
  function SideOffset(depth: int, sideDist: int): int
    requires 0 <= depth <= MaxDepth
  {
    (sideDist as real * ViewWidth(depth) * 0.4).Floor
  }

  /** `spreadPixels` of `drawEntity` for a floor item `steps` half-steps from
      the group's centre: `Math.floor(horizontalSpread * viewWidth * 0.5)`
      with the spread `(i - (n - 1) / 2) * 0.2`, that is `steps / 10`. */
  function SpreadPixels(depth: int, steps: int): int
    requires 0 <= depth <= MaxDepth
  {
    (steps as real / 10.0 * ViewWidth(depth) * 0.5).Floor
  }

  /** Floor items sit six rows below the centred position (18 * 0.35 is 6.3),
      and a flying sprite of up to five rows is raised by three fifths of its
      height, rounded down. */
  lemma SpriteTopOffsets(s: Sprite, p: seq<string>)
    requires 0 <= s.depth <= MaxDepth
    ensures !s.isFlying && s.isFloorItem ==> SpriteTop(s, p) == ScreenHeight / 2 - |p| / 2 + 6
    ensures s.isFlying && |p| <= 5 ==> SpriteTop(s, p) == ScreenHeight / 2 - |p| / 2 - |p| * 3 / 5
  {
    assert |p| <= 5 ==> |p| in {0, 1, 2, 3, 4, 5};
  }

  /** A grounded sprite's last row sits on the row above the floor line. */
  lemma GroundedSpritesStandOnTheFloor(s: Sprite, p: seq<string>)
    requires 0 <= s.depth <= MaxDepth && s.isGrounded && !s.isFlying && !s.isFloorItem && |p| % 2 == 1
    ensures SpriteTop(s, p) + |p| - 1 == Viewport(s.depth).bottom - 1
  {
  }

  /** The cell (y, x) after blitting pattern `p` with its top-left at
      (top, left) over the character `c`: blanks in the pattern let `c` through. */
  function Blit(p: seq<string>, top: int, left: int, y: int, x: int, c: char): char
  {
    var r, q := y - top, x - left;
    if 0 <= r < |p| && 0 <= q < |p[r]| && p[r][q] != ' ' then p[r][q] else c
  }

  /** The cell (y, x) after `drawEntity` for the call `k` over `c`.  A call
      at a depth without a viewport, which `drawEntities` never makes, is
      taken to draw nothing. */
  function Stamp(table: PatternTable, k: DrawCall, y: int, x: int, c: char): char
  {
    if !(0 <= k.sprite.depth <= MaxDepth) then c
    else match SpritePattern(table, k.sprite)
      case None => c
      case Some(p) => if |p| == 0 then c else Blit(p, SpriteTop(k.sprite, p), SpriteLeft(k, p), y, x, c)
  }

  /** A stamp never blanks a cell: it keeps the old character or writes a
      non-blank character of the sprite's pattern. */
  lemma StampNeverWritesABlank(table: PatternTable, k: DrawCall, y: int, x: int, c: char)
    ensures Stamp(table, k, y, x, c) == c || Stamp(table, k, y, x, c) != ' '
    ensures Stamp(table, k, y, x, c) != c ==> (SpritePattern(table, k.sprite).Some? &&
      exists r, q | 0 <= r < |SpritePattern(table, k.sprite).value| && 0 <= q < |SpritePattern(table, k.sprite).value[r]| ::
        SpritePattern(table, k.sprite).value[r][q] == Stamp(table, k, y, x, c))
  {
    if Stamp(table, k, y, x, c) != c {
      var p := SpritePattern(table, k.sprite).value;
      var r, q := y - SpriteTop(k.sprite, p), x - SpriteLeft(k, p);
      assert p[r][q] == Stamp(table, k, y, x, c);
    }
  }

  // ---- minimap ------------------------------------------------------------

  /** `dirChars`. */
  function Arrow(f: Facing): char
  {
    match f
    case N => '▲'
    case S => '▼'
    case E => '▶'
    case W => '◀'
  }

  predicate Rectangular(g: Grid)
  {
    forall y | 0 <= y < |g| :: |g[y]| == |g[0]|
  }

  /** One character of `renderMinimap`: the arrow at the player, the map's
      tile on the map, a blank off it. */
  function MinimapCell(g: Grid, f: Facing, px: int, py: int, dx: int, dy: int): char
    requires Rectangular(g)
  {
    if dx == 0 && dy == 0 then Arrow(f)
    else if OnGrid(g, px + dx, py + dy) then g[py + dy][px + dx]
    else ' '
  }

  /** The minimap's lines, from `dy = -radius` to `radius`. */
  function MinimapRows(g: Grid, f: Facing, px: int, py: int, radius: int): (rows: seq<string>)
    requires Rectangular(g)
    ensures |rows| == Max(0, 2 * radius + 1)
    ensures forall i | 0 <= i < |rows| :: |rows[i]| == |rows|
  {
    var n := Max(0, 2 * radius + 1);
    seq(n, i requires 0 <= i < n => seq(n, j requires 0 <= j < n => MinimapCell(g, f, px, py, j - radius, i - radius)))
  }

  /** The minimap is centred on the player and agrees with `isWall`: a cell
      off the map is blank, and on a map of '.', '#' and '+' a cell shows a
      wall character exactly when `isWall` holds there. */
  lemma MinimapAgreesWithWalls(g: Grid, f: Facing, px: int, py: int, radius: int, dx: int, dy: int)
    requires Rectangular(g)
    requires forall y, x | 0 <= y < |g| && 0 <= x < |g[y]| :: g[y][x] in {'.', '#', '+'}
    requires -radius <= dx <= radius && -radius <= dy <= radius
    ensures MinimapRows(g, f, px, py, radius)[radius][radius] == Arrow(f)
    ensures (dx, dy) != (0, 0) ==>
      (MinimapRows(g, f, px, py, radius)[dy + radius][dx + radius] == ' ' <==> !OnGrid(g, px + dx, py + dy))
    ensures (dx, dy) != (0, 0) && OnGrid(g, px + dx, py + dy) ==>
      (MinimapRows(g, f, px, py, radius)[dy + radius][dx + radius] in {'#', '+'} <==> IsWall(g, px + dx, py + dy))
  {
    var rows := MinimapRows(g, f, px, py, radius);
    assert rows[radius][radius] == MinimapCell(g, f, px, py, 0, 0);
    assert rows[dy + radius][dx + radius] == MinimapCell(g, f, px, py, dx, dy);
    if OnGrid(g, px + dx, py + dy) {
      assert g[py + dy][px + dx] in {'.', '#', '+'};
    }
    DoorsAreWalls(g, px + dx, py + dy);
  }

  // ---- what a frame shows ------------------------------------------------

  /** Layer `depth` draws its front wall over the cell (y, x). */
  predicate WallShownAt(g: Grid, f: Facing, px: int, py: int, depth: int, y: int, x: int)
    requires 1 <= depth <= MaxDepth
  {
    var p := ProbeAt(f, px, py, depth);
    IsWall(g, p.front.0, p.front.1) && InRect(Viewport(depth), y, x)
  }

  /** The cell (y, x) after `drawDepthLayer` at `depth` over the character `c`. */
  function LayerChar(g: Grid, f: Facing, px: int, py: int, depth: int, y: int, x: int, c: char): char
    requires 1 <= depth <= MaxDepth
  {
    var p := ProbeAt(f, px, py, depth);
    if WallShownAt(g, f, px, py, depth, y, x)
    then FrontWallChar(Viewport(depth), depth, IsDoor(g, p.front.0, p.front.1), x, y)
    else c
  }

  /** The cell (y, x) after the background and the layers from `MaxDepth`
      down to `depth`. */
  function Scenery(g: Grid, f: Facing, px: int, py: int, depth: int, y: int, x: int): char
    requires 1 <= depth
    decreases MaxDepth + 1 - depth
  {
    if depth > MaxDepth then BackgroundChar(y)
    else LayerChar(g, f, px, py, depth, y, x, Scenery(g, f, px, py, depth + 1, y, x))
  }

  /** Layers are drawn farthest first, so a cell shows the nearest front wall
      drawn over it. */
  lemma {:induction false} SceneryShowsNearestWall(g: Grid, f: Facing, px: int, py: int, from: int, depth: int, y: int, x: int)
    requires 1 <= from <= depth <= MaxDepth
    requires WallShownAt(g, f, px, py, depth, y, x)
    requires forall d | from <= d < depth :: !WallShownAt(g, f, px, py, d, y, x)
    ensures Scenery(g, f, px, py, from, y, x)
      == FrontWallChar(Viewport(depth), depth, IsDoor(g, ProbeAt(f, px, py, depth).front.0, ProbeAt(f, px, py, depth).front.1), x, y)
    decreases depth - from
  {
    if from < depth {
      assert !WallShownAt(g, f, px, py, from, y, x);
      SceneryShowsNearestWall(g, f, px, py, from + 1, depth, y, x);
    }
  }

  /** A cell that no layer's wall covers shows the background. */
  lemma {:induction false} SceneryWithoutWallIsBackground(g: Grid, f: Facing, px: int, py: int, from: int, y: int, x: int)
    requires 1 <= from
    requires forall d | from <= d <= MaxDepth :: !WallShownAt(g, f, px, py, d, y, x)
    ensures Scenery(g, f, px, py, from, y, x) == BackgroundChar(y)
    decreases MaxDepth + 1 - from
  {
    if from <= MaxDepth {
      assert !WallShownAt(g, f, px, py, from, y, x);
      SceneryWithoutWallIsBackground(g, f, px, py, from + 1, y, x);
    }
  }

  /** The cell (y, x) after the calls, in order, over the character `c`. */
  function Painted(table: PatternTable, calls: seq<DrawCall>, y: int, x: int, c: char): char
    decreases |calls|
  {
    if calls == [] then c
    else
      var n := |calls| - 1;
      Stamp(table, calls[n], y, x, Painted(table, calls[..n], y, x, c))
  }

  lemma PaintedSnoc(table: PatternTable, calls: seq<DrawCall>, k: DrawCall)
    ensures forall y, x, c :: Painted(table, calls + [k], y, x, c) == Stamp(table, k, y, x, Painted(table, calls, y, x, c))
  {
    assert (calls + [k])[..|calls|] == calls;
  }

  /** Drawing `a` and then `b` is drawing `a + b`. */
  lemma {:induction false} PaintedAppend(table: PatternTable, a: seq<DrawCall>, b: seq<DrawCall>)
    ensures forall y, x, c :: Painted(table, a + b, y, x, c) == Painted(table, b, y, x, Painted(table, a, y, x, c))
    decreases |b|
  {
    if b == [] {
      assert a + b == a;
    } else {
      var n := |b| - 1;
      var front := b[..n];
      PaintedAppend(table, a, front);
      PaintedSnoc(table, a + front, b[n]);
      assert a + b == (a + front) + [b[n]];
    }
  }

  /** The call's pattern puts a non-blank character on (y, x). */
  predicate Covers(table: PatternTable, k: DrawCall, y: int, x: int)
  {
    Stamp(table, k, y, x, ' ') != ' '
  }

  /** A covering call writes its own character whatever lay beneath; any
      other call leaves the cell alone. */
  lemma StampCovers(table: PatternTable, k: DrawCall, y: int, x: int, c: char)
    ensures Covers(table, k, y, x) ==> Stamp(table, k, y, x, c) == Stamp(table, k, y, x, ' ')
    ensures !Covers(table, k, y, x) ==> Stamp(table, k, y, x, c) == c
  {
  }

  /** Painter's algorithm: a cell shows the last call that covers it. */
  lemma {:induction false} PaintedShowsLastCover(table: PatternTable, calls: seq<DrawCall>, y: int, x: int, c: char, i: int)
    requires 0 <= i < |calls|
    requires Covers(table, calls[i], y, x)
    requires forall j | i < j < |calls| :: !Covers(table, calls[j], y, x)
    ensures Painted(table, calls, y, x, c) == Stamp(table, calls[i], y, x, ' ')
    decreases |calls|
  {
    var n := |calls| - 1;
    var front := calls[..n];
    StampCovers(table, calls[n], y, x, Painted(table, front, y, x, c));
    if i < n {
      assert !Covers(table, calls[n], y, x);
      forall j | i < j < |front| ensures !Covers(table, front[j], y, x) {
        assert front[j] == calls[j];
      }
      assert front[i] == calls[i];
      PaintedShowsLastCover(table, front, y, x, c, i);
    }
  }

  /** A cell that no call covers keeps its character. */
  lemma {:induction false} PaintedWithoutCover(table: PatternTable, calls: seq<DrawCall>, y: int, x: int, c: char)
    requires forall j | 0 <= j < |calls| :: !Covers(table, calls[j], y, x)
    ensures Painted(table, calls, y, x, c) == c
    decreases |calls|
  {
    if calls != [] {
      var n := |calls| - 1;
      var front := calls[..n];
      StampCovers(table, calls[n], y, x, Painted(table, front, y, x, c));
      forall j | 0 <= j < |front| ensures !Covers(table, front[j], y, x) {
        assert front[j] == calls[j];
      }
      PaintedWithoutCover(table, front, y, x, c);
    }
  }

  /** On calls sorted farthest first, the call a cell shows is the nearest of
      those covering it. */
  lemma LastCoverIsNearest(table: PatternTable, calls: seq<DrawCall>, y: int, x: int, c: char, i: int)
    requires RankSorted(calls, CallDepth) && 0 <= i < |calls|
    requires Covers(table, calls[i], y, x)
    requires forall j | i < j < |calls| :: !Covers(table, calls[j], y, x)
    ensures Painted(table, calls, y, x, c) == Stamp(table, calls[i], y, x, ' ')
    ensures forall j | 0 <= j < |calls| && Covers(table, calls[j], y, x) :: calls[j].sprite.depth >= calls[i].sprite.depth
  {
    PaintedShowsLastCover(table, calls, y, x, c, i);
    forall j | 0 <= j < |calls| && Covers(table, calls[j], y, x) ensures calls[j].sprite.depth >= calls[i].sprite.depth {
      if j < i {
        assert CallDepth(calls[j]) >= CallDepth(calls[i]);
      }
    }
  }

  /** The entities of a frame: a cell some sprite covers shows the last such
      sprite drawn, and no sprite covering it is nearer. */
  lemma NearestSpriteShows(table: PatternTable, visible: seq<Sprite>, y: int, x: int, c: char, i: int)
    requires 0 <= i < |DrawOrder(visible)|
    requires Covers(table, DrawOrder(visible)[i], y, x)
    requires forall j | i < j < |DrawOrder(visible)| :: !Covers(table, DrawOrder(visible)[j], y, x)
    ensures Painted(table, DrawOrder(visible), y, x, c) == Stamp(table, DrawOrder(visible)[i], y, x, ' ')
    ensures forall j | 0 <= j < |DrawOrder(visible)| && Covers(table, DrawOrder(visible)[j], y, x) ::
      DrawOrder(visible)[j].sprite.depth >= DrawOrder(visible)[i].sprite.depth
  {
    DrawOrderIsFarthestFirst(visible);
    LastCoverIsNearest(table, DrawOrder(visible), y, x, c, i);
  }

  // ---- the renderer -------------------------------------------------------

  class Renderer {
    var facing: Facing
    var patterns: PatternTable

    /** `new ASCII3DRenderer(50, 18)`, with no external pattern table: facing
        north, with the default patterns. */
    constructor ()
      ensures facing == N && patterns == DefaultPatterns
    {
      facing := N;
      patterns := DefaultPatterns;
    }

    /** `setPlayerDirection(direction)`: unknown names leave the facing. */
    method SetPlayerDirection(name: string)
      modifies this
      ensures facing == if DirectionFor(name).Some? then DirectionFor(name).value else old(facing)
    {
      var d := DirectionFor(name);
      if d.Some? {
        facing := d.value;
      }
    }

    /** `setAngleFromMovement(dx, dy)`. */
    method SetAngleFromMovement(dx: int, dy: int)
      modifies this
      ensures facing == FacingAfterMove(old(facing), dx, dy)
    {
      if dx > 0 {
        facing := E;
      } else if dx < 0 {
        facing := W;
      } else if dy > 0 {
        facing := S;
      } else if dy < 0 {
        facing := N;
      }
    }

    /** `createBuffer()`: `height` rows of `width` blank cells. */
    static method CreateBuffer() returns (buffer: array2<char>)
      ensures fresh(buffer)
      ensures buffer.Length0 == ScreenHeight && buffer.Length1 == ScreenWidth
      ensures forall y, x | 0 <= y < ScreenHeight && 0 <= x < ScreenWidth :: buffer[y, x] == ' '
    {
      buffer := new char[ScreenHeight, ScreenWidth];
      var y := 0;
      while y < ScreenHeight
        invariant 0 <= y <= ScreenHeight
        invariant forall i, j | 0 <= i < y && 0 <= j < ScreenWidth :: buffer[i, j] == ' '
      {
        var x := 0;
        while x < ScreenWidth
          invariant 0 <= x <= ScreenWidth
          invariant forall i, j | 0 <= i < y && 0 <= j < ScreenWidth :: buffer[i, j] == ' '
          invariant forall j | 0 <= j < x :: buffer[y, j] == ' '
        {
          buffer[y, x] := ' ';
          x := x + 1;
        }
        y := y + 1;
      }
    }

    /** `drawBackground(buffer)`: every cell gets its row's shade. */
    static method DrawBackground(buffer: array2<char>)
      requires buffer.Length0 == ScreenHeight && buffer.Length1 == ScreenWidth
      modifies buffer
      ensures forall y, x | 0 <= y < ScreenHeight && 0 <= x < ScreenWidth :: buffer[y, x] == BackgroundChar(y)
    {
      var y := 0;
      while y < ScreenHeight
        invariant 0 <= y <= ScreenHeight
        invariant forall i, j | 0 <= i < y && 0 <= j < ScreenWidth :: buffer[i, j] == BackgroundChar(i)
      {
        var x := 0;
        while x < ScreenWidth
          invariant 0 <= x <= ScreenWidth
          invariant forall i, j | 0 <= i < y && 0 <= j < ScreenWidth :: buffer[i, j] == BackgroundChar(i)
          invariant forall j | 0 <= j < x :: buffer[y, j] == BackgroundChar(y)
        {
          buffer[y, x] := BackgroundChar(y);
          x := x + 1;
        }
        y := y + 1;
      }
    }

    /** `drawFrontWall(buffer, vp, depth, isDoor)`: the viewport's rectangle,
        clipped to the screen, gets the wall's characters; nothing else
        changes. */
    static method DrawFrontWall(buffer: array2<char>, depth: int, isDoor: bool)
      requires buffer.Length0 == ScreenHeight && buffer.Length1 == ScreenWidth
      requires 0 <= depth <= MaxDepth
      modifies buffer
      ensures forall y, x | 0 <= y < ScreenHeight && 0 <= x < ScreenWidth ::
        buffer[y, x] == if InRect(Viewport(depth), y, x) then FrontWallChar(Viewport(depth), depth, isDoor, x, y)
                        else old(buffer[y, x])
    {
      var v := Viewport(depth);
      var y := v.top;
      while y < v.bottom && y < ScreenHeight
        invariant v.top <= y || v.bottom <= v.top
        invariant forall i, j | 0 <= i < ScreenHeight && 0 <= j < ScreenWidth ::
          buffer[i, j] == if InRect(v, i, j) && i < y then FrontWallChar(v, depth, isDoor, j, i) else old(buffer[i, j])
        decreases ScreenHeight - y
      {
        var x := v.left;
        while x < v.right && x < ScreenWidth
          invariant v.left <= x || v.right <= v.left
          invariant forall i, j | 0 <= i < ScreenHeight && 0 <= j < ScreenWidth ::
            buffer[i, j] == if InRect(v, i, j) && (i < y || (i == y && j < x)) then FrontWallChar(v, depth, isDoor, j, i)
                            else old(buffer[i, j])
          decreases ScreenWidth - x
        {
          if 0 <= y && 0 <= x {
            buffer[y, x] := FrontWallChar(v, depth, isDoor, x, y);
          }
          x := x + 1;
        }
        y := y + 1;
      }
    }

    /** `updatePatterns(newPatterns)`: the table is replaced (the sizes and
        colours it may carry are not modelled). */
    method UpdatePatterns(table: PatternTable)
      modifies this`patterns
      ensures patterns == table
    {
      patterns := table;
    }

    /** `addMonsterPattern(char, patternData)`: the glyph's set is replaced
        or added; see `AddedPatternIsUsed`. */
    method AddMonsterPattern(key: string, pats: map<int, seq<string>>)
      modifies this`patterns
      ensures patterns == old(patterns)[key := pats]
    {
      patterns := patterns[key := pats];
    }

    /** `drawDepthLayer(buffer, gameMap, playerX, playerY, depth)`: probes the
        cell `depth` steps ahead and its two side neighbours, and draws the
        front wall, with its door, when the front cell is a wall. */
    method DrawDepthLayer(buffer: array2<char>, g: Grid, px: int, py: int, depth: int) returns (ghost probe: Probe)
      requires buffer.Length0 == ScreenHeight && buffer.Length1 == ScreenWidth
      requires 1 <= depth <= MaxDepth
      modifies buffer
      ensures probe == ProbeAt(facing, px, py, depth)
      ensures forall y, x | 0 <= y < ScreenHeight && 0 <= x < ScreenWidth ::
        buffer[y, x] == LayerChar(g, facing, px, py, depth, y, x, old(buffer[y, x]))
    {
      var dir, left, right := Direction(facing), LeftOf(facing), RightOf(facing);
      var checkX, checkY := px + dir.dx * depth, py + dir.dy * depth;
      probe := Probe(depth, (checkX, checkY), (checkX + left.dx, checkY + left.dy), (checkX + right.dx, checkY + right.dy));
      var hasFront := IsWall(g, checkX, checkY);
      var isFrontDoor := IsDoor(g, checkX, checkY);
      if hasFront {
        DrawFrontWall(buffer, depth, isFrontDoor);
      }
    }

    /** The layer loop of `render`: depths `maxDepth` down to 1 over the
        background. */
    method DrawLayers(buffer: array2<char>, g: Grid, px: int, py: int) returns (ghost probes: seq<Probe>)
      requires buffer.Length0 == ScreenHeight && buffer.Length1 == ScreenWidth
      requires forall y, x | 0 <= y < ScreenHeight && 0 <= x < ScreenWidth :: buffer[y, x] == BackgroundChar(y)
      modifies buffer
      ensures probes == [ProbeAt(facing, px, py, 4), ProbeAt(facing, px, py, 3),
                         ProbeAt(facing, px, py, 2), ProbeAt(facing, px, py, 1)]
      ensures forall y, x | 0 <= y < ScreenHeight && 0 <= x < ScreenWidth ::
        buffer[y, x] == Scenery(g, facing, px, py, 1, y, x)
    {
      probes := [];
      var depth := MaxDepth;
      while depth >= 1
        invariant 0 <= depth <= MaxDepth
        invariant |probes| == MaxDepth - depth
        invariant forall i | 0 <= i < |probes| :: probes[i] == ProbeAt(facing, px, py, MaxDepth - i)
        invariant forall y, x | 0 <= y < ScreenHeight && 0 <= x < ScreenWidth ::
          buffer[y, x] == Scenery(g, facing, px, py, depth + 1, y, x)
      {
        var probe := DrawDepthLayer(buffer, g, px, py, depth);
        probes := probes + [probe];
        depth := depth - 1;
      }
    }

    /** The first loop of `drawEntities`. */
    static method CollectVisible(entities: seq<SceneEntity>, f: Facing, px: int, py: int) returns (visible: seq<Sprite>)
      ensures visible == VisibleSprites(entities, f, px, py)
    {
      visible := [];
      var i := 0;
      while i < |entities|
        invariant 0 <= i <= |entities|
        invariant visible == VisibleSprites(entities[..i], f, px, py)
      {
        var e := entities[i];
        assert entities[..i + 1][..i] == entities[..i];
        if InView(e, f, px, py) {
          visible := visible + [Project(e, f, px, py)];
        }
        i := i + 1;
      }
      assert entities[..i] == entities;
    }

    /** Row `r` of the pattern loop of `drawEntity`. */
    static method BlitRow(buffer: array2<char>, p: seq<string>, top: int, left: int, r: int)
      requires buffer.Length0 == ScreenHeight && buffer.Length1 == ScreenWidth
      requires 0 <= r < |p|
      modifies buffer
      ensures forall y, x | 0 <= y < ScreenHeight && 0 <= x < ScreenWidth ::
        buffer[y, x] == if y == top + r then Blit(p, top, left, y, x, old(buffer[y, x])) else old(buffer[y, x])
    {
      var q := 0;
      while q < |p[r]|
        invariant 0 <= q <= |p[r]|
        invariant forall y, x | 0 <= y < ScreenHeight && 0 <= x < ScreenWidth ::
          buffer[y, x] == if y == top + r && x < left + q then Blit(p, top, left, y, x, old(buffer[y, x])) else old(buffer[y, x])
      {
        var y, x := top + r, left + q;
        if 0 <= y < ScreenHeight && 0 <= x < ScreenWidth && p[r][q] != ' ' {
          buffer[y, x] := p[r][q];
        }
        q := q + 1;
      }
    }

    /** `drawEntity(buffer, entity, spread)`: blits the sprite's pattern,
        clipped to the screen, leaving the cells under its blanks. */
    method DrawEntity(buffer: array2<char>, k: DrawCall)
      requires buffer.Length0 == ScreenHeight && buffer.Length1 == ScreenWidth
      requires 0 <= k.sprite.depth <= MaxDepth
      modifies buffer
      ensures forall y, x | 0 <= y < ScreenHeight && 0 <= x < ScreenWidth ::
        buffer[y, x] == Stamp(patterns, k, y, x, old(buffer[y, x]))
    {
      var pattern := SpritePattern(patterns, k.sprite);
      if pattern.None? || |pattern.value| == 0 {
        return;
      }
      var p := pattern.value;
      var top, left := SpriteTop(k.sprite, p), SpriteLeft(k, p);
      var r := 0;
      while r < |p|
        invariant 0 <= r <= |p|
        invariant forall y, x | 0 <= y < ScreenHeight && 0 <= x < ScreenWidth ::
          buffer[y, x] == if y < top + r then Blit(p, top, left, y, x, old(buffer[y, x])) else old(buffer[y, x])
      {
        BlitRow(buffer, p, top, left, r);
        r := r + 1;
      }
    }

    /** The floor items of one group, each spread by `(i - (n-1)/2) * 0.2`. */
    method DrawFloorGroup(buffer: array2<char>, floor: seq<Sprite>) returns (ghost calls: seq<DrawCall>)
      requires buffer.Length0 == ScreenHeight && buffer.Length1 == ScreenWidth
      requires forall i | 0 <= i < |floor| :: 1 <= floor[i].depth <= MaxDepth
      modifies buffer
      ensures calls == FloorCalls(floor)
      ensures forall y, x | 0 <= y < ScreenHeight && 0 <= x < ScreenWidth ::
        buffer[y, x] == Painted(patterns, calls, y, x, old(buffer[y, x]))
    {
      calls := [];
      var i := 0;
      while i < |floor|
        invariant 0 <= i <= |floor|
        invariant calls == FloorCalls(floor)[..i]
        invariant forall y, x | 0 <= y < ScreenHeight && 0 <= x < ScreenWidth ::
          buffer[y, x] == Painted(patterns, calls, y, x, old(buffer[y, x]))
      {
        var k := DrawCall(floor[i], 2 * i - |floor| + 1);
        DrawEntity(buffer, k);
        PaintedSnoc(patterns, calls, k);
        assert FloorCalls(floor)[..i + 1] == FloorCalls(floor)[..i] + [k];
        calls := calls + [k];
        i := i + 1;
      }
      assert FloorCalls(floor)[..i] == FloorCalls(floor);
    }

    /** The other entities of one group, unspread. */
    method DrawMainGroup(buffer: array2<char>, main: seq<Sprite>) returns (ghost calls: seq<DrawCall>)
      requires buffer.Length0 == ScreenHeight && buffer.Length1 == ScreenWidth
      requires forall i | 0 <= i < |main| :: 1 <= main[i].depth <= MaxDepth
      modifies buffer
      ensures calls == MainCalls(main)
      ensures forall y, x | 0 <= y < ScreenHeight && 0 <= x < ScreenWidth ::
        buffer[y, x] == Painted(patterns, calls, y, x, old(buffer[y, x]))
    {
      calls := [];
      var j := 0;
      while j < |main|
        invariant 0 <= j <= |main|
        invariant calls == MainCalls(main)[..j]
        invariant forall y, x | 0 <= y < ScreenHeight && 0 <= x < ScreenWidth ::
          buffer[y, x] == Painted(patterns, calls, y, x, old(buffer[y, x]))
      {
        var k := DrawCall(main[j], 0);
        DrawEntity(buffer, k);
        PaintedSnoc(patterns, calls, k);
        assert MainCalls(main)[..j + 1] == MainCalls(main)[..j] + [k];
        calls := calls + [k];
        j := j + 1;
      }
      assert MainCalls(main)[..j] == MainCalls(main);
    }

    /** One group of `drawEntities`: its floor items, then its other entities. */
    method DrawGroup(buffer: array2<char>, sorted: seq<Sprite>, key: (int, int)) returns (ghost calls: seq<DrawCall>)
      requires buffer.Length0 == ScreenHeight && buffer.Length1 == ScreenWidth
      requires forall i | 0 <= i < |sorted| :: 1 <= sorted[i].depth <= MaxDepth
      modifies buffer
      ensures calls == Block(sorted, key)
      ensures forall y, x | 0 <= y < ScreenHeight && 0 <= x < ScreenWidth ::
        buffer[y, x] == Painted(patterns, calls, y, x, old(buffer[y, x]))
    {
      var floor, main := FloorGroup(sorted, key), MainGroup(sorted, key);
      GroupDepths(sorted, key);
      ghost var a := DrawFloorGroup(buffer, floor);
      ghost var b := DrawMainGroup(buffer, main);
      PaintedAppend(patterns, a, b);
      calls := a + b;
    }

    /** The group loop of `drawEntities` over `keys`. */
    method DrawGroups(buffer: array2<char>, sorted: seq<Sprite>, keys: seq<(int, int)>) returns (ghost calls: seq<DrawCall>)
      requires buffer.Length0 == ScreenHeight && buffer.Length1 == ScreenWidth
      requires forall i | 0 <= i < |sorted| :: 1 <= sorted[i].depth <= MaxDepth
      modifies buffer
      ensures calls == Draws(sorted, keys)
      ensures forall y, x | 0 <= y < ScreenHeight && 0 <= x < ScreenWidth ::
        buffer[y, x] == Painted(patterns, calls, y, x, old(buffer[y, x]))
    {
      calls := [];
      var n := 0;
      while n < |keys|
        invariant 0 <= n <= |keys|
        invariant calls + Draws(sorted, keys[n..]) == Draws(sorted, keys)
        invariant forall y, x | 0 <= y < ScreenHeight && 0 <= x < ScreenWidth ::
          buffer[y, x] == Painted(patterns, calls, y, x, old(buffer[y, x]))
      {
        ghost var rest := Draws(sorted, keys[n + 1..]);
        assert Draws(sorted, keys[n..]) == Block(sorted, keys[n]) + rest by {
          assert keys[n..][0] == keys[n] && keys[n..][1..] == keys[n + 1..];
        }
        ghost var block := DrawGroup(buffer, sorted, keys[n]);
        PaintedAppend(patterns, calls, block);
        assert calls + block + rest == calls + (block + rest);
        calls := calls + block;
        n := n + 1;
      }
      assert keys[n..] == [];
    }

    /** The sorting and group loops of `drawEntities` over the sprites in view. */
    method DrawVisible(buffer: array2<char>, visible: seq<Sprite>) returns (ghost calls: seq<DrawCall>)
      requires buffer.Length0 == ScreenHeight && buffer.Length1 == ScreenWidth
      modifies buffer
      ensures calls == DrawOrder(visible)
      ensures forall y, x | 0 <= y < ScreenHeight && 0 <= x < ScreenWidth ::
        buffer[y, x] == Painted(patterns, calls, y, x, old(buffer[y, x]))
    {
      var sorted := DepthSorted(visible);
      var keys := SortedKeys(sorted);
      DepthSortedInView(visible);
      calls := DrawGroups(buffer, sorted, keys);
    }

    /** `drawEntities(buffer, gameMap, playerX, playerY, entities)`: projects
        the entities, sorts them farthest first, groups them by position and
        draws each group's floor items, spread out, before its other
        entities.  The groups are computed with `FloorGroup`/`MainGroup`
        rather than by the source's filling loop.  The calls made are
        `DrawOrder` of the sprites in view, and the frame is painted by them
        in that order. */
    method DrawEntities(buffer: array2<char>, px: int, py: int, entities: seq<SceneEntity>)
      returns (ghost calls: seq<DrawCall>)
      requires buffer.Length0 == ScreenHeight && buffer.Length1 == ScreenWidth
      modifies buffer
      ensures calls == DrawOrder(VisibleSprites(entities, facing, px, py))
      ensures forall y, x | 0 <= y < ScreenHeight && 0 <= x < ScreenWidth ::
        buffer[y, x] == Painted(patterns, calls, y, x, old(buffer[y, x]))
    {
      var visible := CollectVisible(entities, facing, px, py);
      calls := DrawVisible(buffer, visible);
    }

    /** `render(gameMap, playerX, playerY, entities)`: a blank frame, the
        background, the depth layers from `maxDepth` down to 1, then the
        entities over them. */
    method Render(g: Grid, px: int, py: int, entities: seq<SceneEntity>)
      returns (buffer: array2<char>, ghost probes: seq<Probe>, ghost calls: seq<DrawCall>)
      ensures fresh(buffer)
      ensures buffer.Length0 == ScreenHeight && buffer.Length1 == ScreenWidth
      ensures probes == [ProbeAt(facing, px, py, 4), ProbeAt(facing, px, py, 3),
                         ProbeAt(facing, px, py, 2), ProbeAt(facing, px, py, 1)]
      ensures calls == DrawOrder(VisibleSprites(entities, facing, px, py))
      ensures forall y, x | 0 <= y < ScreenHeight && 0 <= x < ScreenWidth ::
        buffer[y, x] == Painted(patterns, calls, y, x, Scenery(g, facing, px, py, 1, y, x))
    {
      buffer := CreateBuffer();
      DrawBackground(buffer);
      probes := DrawLayers(buffer, g, px, py);
      calls := DrawEntities(buffer, px, py, entities);
    }

    /** `renderMinimap(gameMap, playerX, playerY, radius)`. */
    function RenderMinimap(g: Grid, px: int, py: int, radius: int): (s: string)
      requires Rectangular(g) && (radius > 0 ==> |g| > 0)
      reads this
      ensures radius < 0 ==> s == ""
      ensures radius == 0 ==> s == [Arrow(facing)]
    {
      Join(MinimapRows(g, facing, px, py, radius), "\n")
    }
  }

}
